/**
 The derived ballot state in terms of the ballots' own fields: the earliest valid ballot of a token is the one
 accepted, every other is turned away on the grounds stated, and the tally counts what was chosen.
 */
module BallotTerms {
  import opened Wrappers
  import opened Order
  import opened Sorting
  import opened Events
  import opened Validation
  import opened Reducer
  import opened DerivedForms
  import PS = PublicState
  import BS = BallotState
  import BF = BallotClosedForm

  ghost predicate Cast(events: seq<ProtocolEvent>, b: EncryptedBallotEvent) {
    Ballot(EncryptedBallot(b)) in events
  }

  /** The public rounds ballots are judged by: the final ones. */
  function Rounds(electionId: string, events: seq<ProtocolEvent>): seq<PS.Round> {
    PublicStateOf(electionId, events).rounds
  }

  // ----- the grounds on which a ballot is turned away -----

  predicate InOpenRound(rounds: seq<PS.Round>, b: EncryptedBallotEvent) {
    var round := PS.Find(rounds, b.roundId);
    round.Some? && (round.value.phase == PS.Open || round.value.phase == PS.Published)
  }

  predicate InTime(rounds: seq<PS.Round>, b: EncryptedBallotEvent) {
    && InOpenRound(rounds, b)
    && var closedAt := PS.Find(rounds, b.roundId).value.closedAt; (closedAt.None? || b.createdAt < closedAt.value)
  }

  predicate WellFilled(rounds: seq<PS.Round>, b: EncryptedBallotEvent) {
    InTime(rounds, b) && (b.choice == "Yes" || b.choice == "No") && b.tokenId.Some? && b.tokenId.value != ""
  }

  /** The distinct shares given, blank ones aside. */
  function Signers(b: EncryptedBallotEvent): set<string> {
    set s | s in b.coordinatorShares && s != ""
  }

  predicate SignedEnough(rounds: seq<PS.Round>, b: EncryptedBallotEvent) {
    WellFilled(rounds, b) && |Signers(b)| >= PS.Find(rounds, b.roundId).value.thresholdT
  }

  /** It was cast, and there is nothing to object to but what other ballots do. */
  ghost predicate Valid(events: seq<ProtocolEvent>, rounds: seq<PS.Round>, b: EncryptedBallotEvent) {
    && Cast(events, b) && SignedEnough(rounds, b)
    && forall s :: s in Signers(b) ==> s in PS.Find(rounds, b.roundId).value.roster
  }

  /** It is the earliest valid ballot of its token, by creation time and then by id. */
  ghost predicate EarliestValid(events: seq<ProtocolEvent>, rounds: seq<PS.Round>, b: EncryptedBallotEvent) {
    && Valid(events, rounds, b)
    && forall f :: Valid(events, rounds, f) && f.tokenId == b.tokenId && f != b ==>
         b.createdAt < f.createdAt || (b.createdAt == f.createdAt && StrLt(b.eventId, f.eventId))
  }

  /** Each code is given when the checks before it pass and its own does not. */
  ghost predicate Grounds(events: seq<ProtocolEvent>, rounds: seq<PS.Round>, b: EncryptedBallotEvent, code: ValidationCode) {
    match code
    case UnknownRound => PS.Find(rounds, b.roundId).None?
    case RoundNotOpen => PS.Find(rounds, b.roundId).Some? && !InOpenRound(rounds, b)
    case RoundClosed => InOpenRound(rounds, b) && !InTime(rounds, b)
    case InvalidChoice => InTime(rounds, b) && b.choice != "Yes" && b.choice != "No"
    case MissingTokenId =>
      && InTime(rounds, b) && (b.choice == "Yes" || b.choice == "No")
      && (b.tokenId.None? || b.tokenId.value == "")
    case NotEnoughCoordinatorShares =>
      WellFilled(rounds, b) && |Signers(b)| < PS.Find(rounds, b.roundId).value.thresholdT
    case UnauthorizedCoordinatorShare =>
      SignedEnough(rounds, b) && exists s :: s in Signers(b) && s !in PS.Find(rounds, b.roundId).value.roster
    case DuplicateToken => Valid(events, rounds, b) && !EarliestValid(events, rounds, b)
    case DuplicateEvent => Cast(events, b) && multiset(events)[Ballot(EncryptedBallot(b))] >= 2
    case _ => false
  }

  lemma NothingToObject(rounds: seq<PS.Round>, b: EncryptedBallotEvent)
    ensures BS.Passes(b, rounds) <==>
              SignedEnough(rounds, b) && forall s :: s in Signers(b) ==> s in PS.Find(rounds, b.roundId).value.roster
  {
    assert Signers(b) == BS.Shares(b);
  }

  lemma ValidMeansPasses(events: seq<ProtocolEvent>, rounds: seq<PS.Round>, b: EncryptedBallotEvent)
    ensures Valid(events, rounds, b) <==> Cast(events, b) && BS.Passes(b, rounds)
    ensures Valid(events, rounds, b) <==> BF.Valid(BallotsOf(events), rounds, EncryptedBallot(b))
  {
    BallotsOfHas(events, EncryptedBallot(b));
    NothingToObject(rounds, b);
  }

  lemma EarliestMeansWins(events: seq<ProtocolEvent>, rounds: seq<PS.Round>, b: EncryptedBallotEvent)
    requires IdsIdentify(EventId, events)
    ensures EarliestValid(events, rounds, b) <==> BF.Wins(BallotsOf(events), rounds, EncryptedBallot(b))
  {
    ValidMeansPasses(events, rounds, b);
    forall f | Valid(events, rounds, f) && Valid(events, rounds, b) && f != b
      ensures KeyLe(BallotKey(EncryptedBallot(b)), BallotKey(EncryptedBallot(f))) <==>
                b.createdAt < f.createdAt || (b.createdAt == f.createdAt && StrLt(b.eventId, f.eventId))
    {
      BallotsInTime(events, b, f);
    }
    forall e | BF.Valid(BallotsOf(events), rounds, e) ensures Valid(events, rounds, e.ballot) && e == EncryptedBallot(e.ballot) {
      ValidMeansPasses(events, rounds, e.ballot);
    }
    forall f | Valid(events, rounds, f) ensures BF.Valid(BallotsOf(events), rounds, EncryptedBallot(f)) {
      ValidMeansPasses(events, rounds, f);
    }
    KeyOrderIsTotal(BallotKey(EncryptedBallot(b)), BallotKey(EncryptedBallot(b)), BallotKey(EncryptedBallot(b)));
  }

  lemma BallotsInTime(events: seq<ProtocolEvent>, b: EncryptedBallotEvent, f: EncryptedBallotEvent)
    requires IdsIdentify(EventId, events) && Cast(events, b) && Cast(events, f) && f != b
    ensures KeyLe(BallotKey(EncryptedBallot(b)), BallotKey(EncryptedBallot(f))) <==>
              b.createdAt < f.createdAt || (b.createdAt == f.createdAt && StrLt(b.eventId, f.eventId))
  {
    var x, y := BallotKey(EncryptedBallot(b)), BallotKey(EncryptedBallot(f));
    assert EventId(Ballot(EncryptedBallot(b))) == b.eventId && EventId(Ballot(EncryptedBallot(f))) == f.eventId;
    assert b.eventId != f.eventId;
    KeysCompared(x, y);
    assert x == Key(3, 0, b.createdAt, b.eventId) && y == Key(3, 0, f.createdAt, f.eventId);
  }

  // ----- acceptance -----

  /** `a` is the record of `b`, field by field. */
  ghost predicate RecordsBallot(a: BS.AcceptedBallot, b: EncryptedBallotEvent) {
    && a.eventId == b.eventId && a.roundId == b.roundId && a.voterPubkey == b.authorPubkey
    && a.requestId == b.requestId && a.ticketId == b.ticketId && a.choice == b.choice
    && Some(a.tokenId) == b.tokenId && a.createdAt == b.createdAt
    && a.receiptHash == "receipt:" + b.roundId + ":" + a.tokenId + ":" + b.eventId
  }

  lemma AcceptanceRecords(a: BS.AcceptedBallot, b: EncryptedBallotEvent)
    requires b.tokenId.Some?
    ensures a == BS.Acceptance(b) <==> RecordsBallot(a, b)
  {
  }

  /** The ballots accepted are the earliest valid ones, each recorded with its own fields. */
  lemma EarliestAccepted(electionId: string, events: seq<ProtocolEvent>, a: BS.AcceptedBallot)
    requires IdsIdentify(EventId, events)
    ensures a in BallotStateOf(electionId, events).accepted <==>
              exists b :: EarliestValid(events, Rounds(electionId, events), b) && RecordsBallot(a, b)
  {
    var rounds := Rounds(electionId, events);
    AcceptedAreWinners(electionId, events, a);
    if a in BallotStateOf(electionId, events).accepted {
      var e :| BF.Wins(BallotsOf(events), rounds, e) && a == BS.Acceptance(e.ballot);
      assert e == EncryptedBallot(e.ballot);
      EarliestMeansWins(events, rounds, e.ballot);
      AcceptanceRecords(a, e.ballot);
    }
    if b :| EarliestValid(events, Rounds(electionId, events), b) && RecordsBallot(a, b) {
      EarliestMeansWins(events, rounds, b);
      AcceptanceRecords(a, b);
      assert BF.Wins(BallotsOf(events), rounds, EncryptedBallot(b));
    }
  }

  /** Any other valid ballot of an accepted token was created later, or at the same time with a greater id. */
  lemma OthersAreLater(electionId: string, events: seq<ProtocolEvent>, a: BS.AcceptedBallot, f: EncryptedBallotEvent)
    requires IdsIdentify(EventId, events) && a in BallotStateOf(electionId, events).accepted
    requires Valid(events, Rounds(electionId, events), f) && f.tokenId == Some(a.tokenId)
    ensures RecordsBallot(a, f) || a.createdAt < f.createdAt || (a.createdAt == f.createdAt && StrLt(a.eventId, f.eventId))
  {
    EarliestAccepted(electionId, events, a);
  }

  /** The accepted list runs from the earliest ballot to the latest, equal times by id. */
  lemma AcceptedInTime(electionId: string, events: seq<ProtocolEvent>, i: nat, j: nat)
    requires i < j < |BallotStateOf(electionId, events).accepted|
    ensures var a, b := BallotStateOf(electionId, events).accepted[i], BallotStateOf(electionId, events).accepted[j];
            a.createdAt < b.createdAt || (a.createdAt == b.createdAt && StrLt(a.eventId, b.eventId))
  {
    var accepted := BallotStateOf(electionId, events).accepted;
    AcceptedDistinct(electionId, events);
    KeysCompared(BF.AcceptedKey(accepted[i]), BF.AcceptedKey(accepted[j]));
  }

  /** More ballots take a token over only for an earlier one among those added. */
  lemma OnlyEarlierTakesOver(electionId: string, xs: seq<ProtocolEvent>, ys: seq<ProtocolEvent>, a: BS.AcceptedBallot)
    requires IdsIdentify(EventId, xs + ys) && NoPublics(ys)
    requires a in BallotStateOf(electionId, xs).accepted
    ensures exists b :: b in BallotStateOf(electionId, xs + ys).accepted && b.tokenId == a.tokenId &&
                        (b == a || (EarlierThan(b, a) && NewlyCast(b, xs, ys)))
  {
    MoreBallotsKeepTokens(electionId, xs, ys, a);
    var b :| b in BallotStateOf(electionId, xs + ys).accepted && (b == a || Overtakes(b, a, xs, ys));
    if b != a {
      KeysCompared(BF.AcceptedKey(b), BF.AcceptedKey(a));
      var e :| Ballot(EncryptedBallot(e)) in ys && Ballot(EncryptedBallot(e)) !in xs && e.tokenId.Some? && b == BS.Acceptance(e);
      AcceptanceRecords(b, e);
      assert NewlyCast(b, xs, ys);
    }
  }

  predicate EarlierThan(b: BS.AcceptedBallot, a: BS.AcceptedBallot) {
    b.createdAt < a.createdAt || (b.createdAt == a.createdAt && StrLt(b.eventId, a.eventId))
  }

  ghost predicate NewlyCast(b: BS.AcceptedBallot, xs: seq<ProtocolEvent>, ys: seq<ProtocolEvent>) {
    exists e :: Cast(ys, e) && !Cast(xs, e) && RecordsBallot(b, e)
  }

  /** Each receipt given out carries the fields of the ballot accepted at its place. */
  lemma ReceiptsByBallot(electionId: string, events: seq<ProtocolEvent>, i: nat)
    requires i < |BallotStateOf(electionId, events).receipts|
    ensures |BallotStateOf(electionId, events).receipts| == |BallotStateOf(electionId, events).accepted|
    ensures var a, shown := BallotStateOf(electionId, events).accepted[i], BallotStateOf(electionId, events).receipts[i];
            && shown.electionId == "" && shown.roundId == a.roundId && shown.ballotCommitment == a.tokenId
            && shown.receiptHash == a.receiptHash && shown.acceptedAt == a.createdAt
  {
    ReceiptsMatch(electionId, events, i);
  }

  // ----- rejection -----

  /** `x` reports `b` under this code, in its words. */
  ghost predicate RecordsRejection(x: BS.RejectedBallot, b: EncryptedBallotEvent, code: ValidationCode) {
    && x.eventId == b.eventId && x.roundId == b.roundId && x.voterPubkey == b.authorPubkey
    && x.choice == b.choice && x.createdAt == b.createdAt
    && x.reason.code == code && x.reason.eventId == Some(b.eventId)
    && match code
       case DuplicateEvent => x.reason.detail == "duplicate ballot event delivery"
       case UnknownRound => x.reason.detail == "ballot references an unknown round"
       case RoundNotOpen => x.reason.detail == "ballot submitted outside an open round"
       case RoundClosed => x.reason.detail == "ballot arrived after round closure"
       case InvalidChoice => x.reason.detail == "ballot choice must be Yes or No"
       case MissingTokenId => x.reason.detail == "ballot is missing a token id"
       case NotEnoughCoordinatorShares => x.reason.detail == "ballot does not meet the coordinator threshold"
       case UnauthorizedCoordinatorShare => x.reason.detail == "ballot includes an unauthorized coordinator share"
       case DuplicateToken => x.reason.detail == "ballot reuses a token that has already been accepted"
       case _ => false
  }

  lemma RejectionRecords(b: EncryptedBallotEvent, code: ValidationCode)
    requires code != InvalidStructure && code != WrongElection && code != ContradictoryRoundState
    ensures RecordsRejection(BS.Rejection(b, code), b, code)
  {
  }

  /** The checks object on just these grounds. */
  lemma ObjectionGrounds(events: seq<ProtocolEvent>, rounds: seq<PS.Round>, b: EncryptedBallotEvent, code: ValidationCode)
    requires code != DuplicateToken && code != DuplicateEvent
    ensures BS.Objection(b, rounds) == Some(code) <==> Grounds(events, rounds, b, code)
  {
    assert Signers(b) == BS.Shares(b);
  }

  /** Rejections are listed in replay order, from the earliest ballot to the latest, equal times by id. */
  lemma RejectedInTime(electionId: string, events: seq<ProtocolEvent>, i: nat, j: nat)
    requires i < j < |BallotStateOf(electionId, events).rejected|
    ensures var x, y := BallotStateOf(electionId, events).rejected[i], BallotStateOf(electionId, events).rejected[j];
            x.createdAt < y.createdAt || (x.createdAt == y.createdAt && (x.eventId == y.eventId || StrLt(x.eventId, y.eventId)))
  {
    PlanesSorted(events);
    RejectionsSorted(SortedBallots(events), Rounds(electionId, events));
    var rejected := BallotStateOf(electionId, events).rejected;
    KeysCompared(RejectedKey(rejected[i]), RejectedKey(rejected[j]));
  }

  function RejectedKey(x: BS.RejectedBallot): Key {
    Key(3, 0, x.createdAt, x.eventId)
  }

  lemma {:induction false} RejectionsSorted(events: seq<BallotEvent>, rounds: seq<PS.Round>)
    requires Sorted(BallotKey, events)
    ensures Sorted(RejectedKey, BS.Fold(events, rounds).rejected)
    ensures forall x :: x in BS.Fold(events, rounds).rejected ==> exists e :: e in events && BallotKey(e) == RejectedKey(x)
  {
    if events != [] {
      var init, e := Init(events), Last(events);
      AfterAll(BallotKey, events);
      RejectionsSorted(init, rounds);
      var before := BS.Fold(init, rounds);
      forall x | x in before.rejected ensures KeyLe(RejectedKey(x), BallotKey(e)) {
        var d :| d in init && BallotKey(d) == RejectedKey(x);
      }
      if e.EncryptedBallot? {
        RejectedNow(before, e.ballot, rounds);
        var code := CodeGiven(before, e.ballot, rounds);
        if code.Some? {
          var x := BS.Rejection(e.ballot, code.value);
          assert RejectedKey(x) == BallotKey(e);
          SortedSnoc(RejectedKey, before.rejected, x);
        }
      }
      StillKeyed(BS.Fold(events, rounds).rejected, before.rejected, init, e);
    }
  }

  lemma StillKeyed(after: seq<BS.RejectedBallot>, before: seq<BS.RejectedBallot>, events: seq<BallotEvent>, e: BallotEvent)
    requires forall x :: x in after ==> x in before || RejectedKey(x) == BallotKey(e)
    requires forall x :: x in before ==> exists d :: d in events && BallotKey(d) == RejectedKey(x)
    ensures forall x :: x in after ==> exists d :: d in events + [e] && BallotKey(d) == RejectedKey(x)
  {
    forall x | x in after ensures exists d :: d in events + [e] && BallotKey(d) == RejectedKey(x) {
      if x in before {
        var d :| d in events && BallotKey(d) == RejectedKey(x);
        assert d in events + [e];
      } else {
        assert e in events + [e];
      }
    }
  }

  /** Some rejection reports `b` on these grounds. */
  ghost predicate TurnedAway(electionId: string, events: seq<ProtocolEvent>, b: EncryptedBallotEvent, code: ValidationCode) {
    && Grounds(events, Rounds(electionId, events), b, code)
    && exists x :: x in BallotStateOf(electionId, events).rejected && RecordsRejection(x, b, code)
  }

  /** Every ballot cast that is not an earliest valid one is turned away on the grounds there are. */
  lemma OthersTurnedAway(electionId: string, events: seq<ProtocolEvent>, b: EncryptedBallotEvent)
    requires IdsIdentify(EventId, events) && Cast(events, b) && !EarliestValid(events, Rounds(electionId, events), b)
    ensures exists code :: code != DuplicateEvent && TurnedAway(electionId, events, b, code)
  {
    var rounds := Rounds(electionId, events);
    var code := BF.Reason(b, rounds);
    BallotsOfHas(events, EncryptedBallot(b));
    EarliestMeansWins(events, rounds, b);
    ValidMeansPasses(events, rounds, b);
    LosersRejected(electionId, events, EncryptedBallot(b));
    if !BS.Passes(b, rounds) {
      BF.ObjectionNeverDuplicate(b, rounds);
      ObjectionKinds(b, rounds);
      ObjectionGrounds(events, rounds, b, code);
    }
    RejectionRecords(b, code);
    assert TurnedAway(electionId, events, b, code);
  }

  lemma ObjectionKinds(b: EncryptedBallotEvent, rounds: seq<PS.Round>)
    ensures var found := BS.Objection(b, rounds);
            found.Some? ==>
              && found.value != InvalidStructure && found.value != WrongElection && found.value != ContradictoryRoundState
              && found.value != DuplicateToken && found.value != DuplicateEvent
  {
  }

  /** What a rejection in the fold reports: a repeat, a ballot beaten to its token, or one objected to. */
  ghost predicate Reports(x: BS.RejectedBallot, events: seq<BallotEvent>, rounds: seq<PS.Round>, b: EncryptedBallotEvent,
                          code: ValidationCode) {
    && EncryptedBallot(b) in events && x == BS.Rejection(b, code)
    && (code == DuplicateEvent ==> multiset(events)[EncryptedBallot(b)] >= 2)
    && (code == DuplicateToken ==> BS.Passes(b, rounds) && Beaten(events, rounds, b))
    && (code != DuplicateEvent && code != DuplicateToken ==> BS.Objection(b, rounds) == Some(code))
  }

  ghost predicate Beaten(events: seq<BallotEvent>, rounds: seq<PS.Round>, b: EncryptedBallotEvent) {
    exists w :: BF.Valid(events, rounds, w) && BF.Beats(w, EncryptedBallot(b))
  }

  lemma StillReports(x: BS.RejectedBallot, events: seq<BallotEvent>, rounds: seq<PS.Round>, b: EncryptedBallotEvent,
                     code: ValidationCode, e: BallotEvent)
    requires Reports(x, events, rounds, b, code)
    ensures Reports(x, events + [e], rounds, b, code)
  {
    assert multiset(events + [e]) == multiset(events) + multiset{e};
    if code == DuplicateToken {
      var w :| BF.Valid(events, rounds, w) && BF.Beats(w, EncryptedBallot(b));
      assert BF.Valid(events + [e], rounds, w);
    }
  }

  /** The code a rejected delivery gets, given what the reducer has seen. */
  function CodeGiven(acc: BS.Acc, b: EncryptedBallotEvent, rounds: seq<PS.Round>): Option<ValidationCode> {
    if b.eventId in acc.seen then Some(DuplicateEvent)
    else if !BS.Passes(b, rounds) then BS.Objection(b, rounds)
    else if b.tokenId.value in acc.tokens then Some(DuplicateToken)
    else None
  }

  lemma RejectedNow(acc: BS.Acc, b: EncryptedBallotEvent, rounds: seq<PS.Round>)
    ensures var code := CodeGiven(acc, b, rounds);
            BS.BallotStep(acc, b, rounds).rejected ==
              acc.rejected + if code.Some? then [BS.Rejection(b, code.value)] else []
  {
  }

  lemma ReportsNow(events: seq<BallotEvent>, rounds: seq<PS.Round>, b: EncryptedBallotEvent)
    requires Sorted(BallotKey, events + [EncryptedBallot(b)]) && IdsIdentify(BallotId, events + [EncryptedBallot(b)])
    ensures var code := CodeGiven(BS.Fold(events, rounds), b, rounds);
            code.Some? ==> Reports(BS.Rejection(b, code.value), events + [EncryptedBallot(b)], rounds, b, code.value)
  {
    var e, all := EncryptedBallot(b), events + [EncryptedBallot(b)];
    var acc := BS.Fold(events, rounds);
    AfterAll(BallotKey, all);
    assert Init(all) == events && Last(all) == e;
    BF.SeenBefore(events, e, rounds);
    BF.ObjectionNeverDuplicate(b, rounds);
    ObjectionKinds(b, rounds);
    assert multiset(all) == multiset(events) + multiset{e};
    if b.eventId !in acc.seen && BS.Passes(b, rounds) && b.tokenId.value in acc.tokens {
      BeatenNow(events, rounds, b);
    }
  }

  lemma TokenWinner(events: seq<BallotEvent>, rounds: seq<PS.Round>, token: string) returns (w: BallotEvent)
    requires Sorted(BallotKey, events) && IdsIdentify(BallotId, events) && token in BS.Fold(events, rounds).tokens
    ensures BF.Valid(events, rounds, w) && w.ballot.tokenId == Some(token)
  {
    BF.FirstValidWins(events, rounds);
    assert BF.IsWon(events, rounds, token);
    w :| BF.Wins(events, rounds, w) && w.ballot.tokenId.value == token;
  }

  lemma BeatenNow(events: seq<BallotEvent>, rounds: seq<PS.Round>, b: EncryptedBallotEvent)
    requires Sorted(BallotKey, events) && Precede(BallotKey, events, EncryptedBallot(b))
    requires IdsIdentify(BallotId, events + [EncryptedBallot(b)]) && EncryptedBallot(b) !in events
    requires b.tokenId.Some? && b.tokenId.value in BS.Fold(events, rounds).tokens
    ensures Beaten(events + [EncryptedBallot(b)], rounds, b)
  {
    var e, all := EncryptedBallot(b), events + [EncryptedBallot(b)];
    assert IdsIdentify(BallotId, events) by {
      assert forall x :: x in events ==> x in all;
    }
    var w := TokenWinner(events, rounds, b.tokenId.value);
    ComesSooner(events, w, e);
    assert BF.Valid(all, rounds, w) && BF.Beats(w, e);
  }

  lemma ComesSooner(events: seq<BallotEvent>, w: BallotEvent, e: BallotEvent)
    requires Precede(BallotKey, events, e) && IdsIdentify(BallotId, events + [e]) && w in events && e !in events
    ensures KeyLt(BallotKey(w), BallotKey(e))
  {
    KeyOrderIsTotal(BallotKey(w), BallotKey(e), BallotKey(e));
    assert w in events + [e] && e in events + [e];
    assert BallotKey(w).id == BallotId(w) && BallotKey(e).id == BallotId(e);
  }

  lemma {:induction false} RejectionsReport(events: seq<BallotEvent>, rounds: seq<PS.Round>, x: BS.RejectedBallot)
    returns (b: EncryptedBallotEvent, code: ValidationCode)
    requires Sorted(BallotKey, events) && IdsIdentify(BallotId, events) && x in BS.Fold(events, rounds).rejected
    ensures Reports(x, events, rounds, b, code)
  {
    var init, e := Init(events), Last(events);
    SplitLast(events);
    if x in BS.Fold(init, rounds).rejected {
      b, code := RejectionsReport(init, rounds, x);
      StillReports(x, init, rounds, b, code, e);
    } else {
      b := e.ballot;
      RejectedNow(BS.Fold(init, rounds), b, rounds);
      ReportsNow(init, rounds, b);
      code := CodeGiven(BS.Fold(init, rounds), b, rounds).value;
    }
  }

  lemma {:induction false} BallotDeliveries(events: seq<ProtocolEvent>, b: BallotEvent)
    ensures multiset(BallotsOf(events))[b] == multiset(events)[Ballot(b)]
  {
    if events != [] {
      SplitLast(events);
      BallotDeliveries(Init(events), b);
      SplitBallots(events);
    }
  }

  lemma SplitBallots(events: seq<ProtocolEvent>)
    requires events != []
    ensures multiset(BallotsOf(events)) ==
              multiset(BallotsOf(Init(events))) + if Last(events).Ballot? then multiset{Last(events).ballotEvent} else multiset{}
  {
    if !Last(events).Ballot? {
      assert BallotsOf(events) == BallotsOf(Init(events));
    }
  }

  lemma BeatenIsNotEarliest(events: seq<ProtocolEvent>, rounds: seq<PS.Round>, b: EncryptedBallotEvent)
    requires IdsIdentify(EventId, events) && Cast(events, b) && Beaten(SortedBallots(events), rounds, b)
    ensures !EarliestValid(events, rounds, b)
  {
    PlanesSorted(events);
    EarliestMeansWins(events, rounds, b);
    var w :| BF.Valid(SortedBallots(events), rounds, w) && BF.Beats(w, EncryptedBallot(b));
    assert BF.Valid(BallotsOf(events), rounds, w);
    KeyOrderIsTotal(BallotKey(w), BallotKey(EncryptedBallot(b)), BallotKey(w));
  }

  /** Every rejection reports a ballot that was cast, on grounds that there are. */
  lemma RejectedOnGrounds(electionId: string, events: seq<ProtocolEvent>, x: BS.RejectedBallot)
    returns (b: EncryptedBallotEvent, code: ValidationCode)
    requires IdsIdentify(EventId, events) && x in BallotStateOf(electionId, events).rejected
    ensures Cast(events, b) && RecordsRejection(x, b, code) && Grounds(events, Rounds(electionId, events), b, code)
  {
    var rounds, sorted := Rounds(electionId, events), SortedBallots(events);
    PlanesSorted(events);
    BallotIdsIdentify(events);
    b, code := RejectionsReport(sorted, rounds, x);
    BallotsOfHas(events, EncryptedBallot(b));
    ReportedGrounds(events, rounds, b, code);
    ObjectionKinds(b, rounds);
    RejectionRecords(b, code);
  }

  lemma ReportedGrounds(events: seq<ProtocolEvent>, rounds: seq<PS.Round>, b: EncryptedBallotEvent, code: ValidationCode)
    requires IdsIdentify(EventId, events) && Cast(events, b)
    requires Reports(BS.Rejection(b, code), SortedBallots(events), rounds, b, code)
    ensures Grounds(events, rounds, b, code)
  {
    if code == DuplicateEvent {
      SortPermutes(BallotKey, BallotsOf(events));
      BallotDeliveries(events, EncryptedBallot(b));
    } else if code == DuplicateToken {
      ValidMeansPasses(events, rounds, b);
      BeatenIsNotEarliest(events, rounds, b);
    } else {
      ObjectionGrounds(events, rounds, b, code);
    }
  }

  // ----- the tally -----

  /** Each summary counts its round's accepted and rejected ballots, and the accepted ones by their choice. */
  lemma CountedByChoice(electionId: string, events: seq<ProtocolEvent>, i: nat)
    requires i < |BallotStateOf(electionId, events).summaries|
    ensures var s := BallotStateOf(electionId, events).summaries[i];
            var accepted, rejected := BallotStateOf(electionId, events).accepted, BallotStateOf(electionId, events).rejected;
            && s.yesCount == |set j | 0 <= j < |accepted| && accepted[j].roundId == s.roundId && accepted[j].choice == "Yes"|
            && s.noCount == |set j | 0 <= j < |accepted| && accepted[j].roundId == s.roundId && accepted[j].choice == "No"|
            && s.acceptedCount == |set j | 0 <= j < |accepted| && accepted[j].roundId == s.roundId|
            && s.rejectedCount == |set j | 0 <= j < |rejected| && rejected[j].roundId == s.roundId|
  {
    BS.SummariesCount(BS.Fold(SortedBallots(events), Rounds(electionId, events)));
    assert BallotStateOf(electionId, events).summaries[i] in BallotStateOf(electionId, events).summaries;
  }

  /** The tokens of accepted ballots with this round and choice. */
  function TokensFor(accepted: seq<BS.AcceptedBallot>, r: string, choice: string): set<string> {
    set a | a in accepted && a.roundId == r && a.choice == choice :: a.tokenId
  }

  lemma {:induction false} TokensCounted(accepted: seq<BS.AcceptedBallot>, r: string, choice: string)
    requires DistinctIds(BF.AcceptedToken, accepted)
    ensures BS.ChosenIn(accepted, r, choice) == |TokensFor(accepted, r, choice)|
  {
    if accepted != [] {
      var init, a := Init(accepted), Last(accepted);
      SplitLast(accepted);
      TokensCounted(init, r, choice);
      if a.tokenId in TokensFor(init, r, choice) {
        var b :| b in init && b.tokenId == a.tokenId;
        IdsHas(BF.AcceptedToken, init, b);
        assert false;
      }
      var more := if a.roundId == r && a.choice == choice then {a.tokenId} else {};
      assert TokensFor(accepted, r, choice) == TokensFor(init, r, choice) + more;
    }
  }

  /** A token counts for a choice in a round when its earliest valid ballot is of that round and chose it. */
  ghost predicate CountsFor(events: seq<ProtocolEvent>, rounds: seq<PS.Round>, r: string, choice: string, token: string) {
    exists b :: EarliestValid(events, rounds, b) && b.roundId == r && b.choice == choice && b.tokenId == Some(token)
  }

  lemma TokenCounts(electionId: string, events: seq<ProtocolEvent>, r: string, choice: string, token: string)
    requires IdsIdentify(EventId, events)
    ensures token in TokensFor(BallotStateOf(electionId, events).accepted, r, choice) <==>
              CountsFor(events, Rounds(electionId, events), r, choice, token)
  {
    var accepted := BallotStateOf(electionId, events).accepted;
    if token in TokensFor(accepted, r, choice) {
      var a :| a in accepted && a.roundId == r && a.choice == choice && a.tokenId == token;
      EarliestAccepted(electionId, events, a);
    }
    if b :| EarliestValid(events, Rounds(electionId, events), b) && b.roundId == r && b.choice == choice && b.tokenId == Some(token) {
      var a := BS.Acceptance(b);
      AcceptanceRecords(a, b);
      EarliestAccepted(electionId, events, a);
    }
  }

  /**
   The result, said of the deliveries: yes and no are the numbers of tokens whose earliest valid ballot is of
   the round and chose Yes, or No.
   */
  lemma ResultOfTokens(electionId: string, events: seq<ProtocolEvent>, i: nat, yes: set<string>, no: set<string>)
    requires IdsIdentify(EventId, events) && i < |BallotStateOf(electionId, events).summaries|
    requires var r := BallotStateOf(electionId, events).summaries[i].roundId;
             && (forall t :: t in yes <==> CountsFor(events, Rounds(electionId, events), r, "Yes", t))
             && (forall t :: t in no <==> CountsFor(events, Rounds(electionId, events), r, "No", t))
    ensures BallotStateOf(electionId, events).summaries[i].yesCount == |yes|
    ensures BallotStateOf(electionId, events).summaries[i].noCount == |no|
  {
    var r, accepted := BallotStateOf(electionId, events).summaries[i].roundId, BallotStateOf(electionId, events).accepted;
    forall t ensures t in yes <==> t in TokensFor(accepted, r, "Yes") {
      TokenCounts(electionId, events, r, "Yes", t);
    }
    forall t ensures t in no <==> t in TokensFor(accepted, r, "No") {
      TokenCounts(electionId, events, r, "No", t);
    }
    assert yes == TokensFor(accepted, r, "Yes") && no == TokensFor(accepted, r, "No");
    CountedByToken(electionId, events, i);
  }

  lemma CountedByToken(electionId: string, events: seq<ProtocolEvent>, i: nat)
    requires i < |BallotStateOf(electionId, events).summaries|
    ensures var s, accepted := BallotStateOf(electionId, events).summaries[i], BallotStateOf(electionId, events).accepted;
            s.yesCount == |TokensFor(accepted, s.roundId, "Yes")| && s.noCount == |TokensFor(accepted, s.roundId, "No")|
  {
    var acc := BS.Fold(SortedBallots(events), Rounds(electionId, events));
    var r := Ascending(BS.RoundsNamed(acc.accepted, acc.rejected));
    BF.SummariesListed(acc, r, i);
    AcceptedDistinct(electionId, events);
    TokensCounted(acc.accepted, r[i], "Yes");
    TokensCounted(acc.accepted, r[i], "No");
  }
}
