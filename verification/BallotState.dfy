/**
 The ballot acceptor (`ballot_state.rs`): nine checks against the final public state, of which the
 first valid ballot per token passes all; and the tallies drawn from it.
 */
module BallotState {
  import opened Wrappers
  import opened Sorting
  import opened Events
  import opened Validation
  import PS = PublicState

  datatype AcceptedBallot = AcceptedBallot(
    eventId: string, roundId: string, voterPubkey: string, requestId: Option<string>, ticketId: Option<string>,
    choice: string, tokenId: string, createdAt: i64, receiptHash: string)

  datatype RejectedBallot = RejectedBallot(
    eventId: string, roundId: string, voterPubkey: string, choice: string, createdAt: i64, reason: ValidationIssue)

  datatype RoundSummary = RoundSummary(
    roundId: string, acceptedCount: nat, rejectedCount: nat, yesCount: nat, noCount: nat)

  datatype BallotState = BallotState(
    accepted: seq<AcceptedBallot>, rejected: seq<RejectedBallot>, receipts: seq<PS.DerivedReceipt>,
    summaries: seq<RoundSummary>)

  // ----- the checks -----

  /** The distinct non-empty coordinator shares a ballot carries. */
  function Shares(b: EncryptedBallotEvent): set<string> {
    set s | s in b.coordinatorShares && s != ""
  }

  /** The checks that look only at the ballot and the public rounds, in the order they are made. */
  function Objection(b: EncryptedBallotEvent, rounds: seq<PS.Round>): Option<ValidationCode> {
    var found := PS.Find(rounds, b.roundId);
    if found.None? then Some(UnknownRound)
    else
      var round := found.value;
      if round.phase != PS.Open && round.phase != PS.Published then Some(RoundNotOpen)
      else if round.closedAt.Some? && b.createdAt >= round.closedAt.value then Some(RoundClosed)
      else if b.choice != "Yes" && b.choice != "No" then Some(InvalidChoice)
      else if b.tokenId.None? || b.tokenId.value == "" then Some(MissingTokenId)
      else if |Shares(b)| < round.thresholdT then Some(NotEnoughCoordinatorShares)
      else if exists s :: s in Shares(b) && s !in round.roster then Some(UnauthorizedCoordinatorShare)
      else None
  }

  predicate Passes(b: EncryptedBallotEvent, rounds: seq<PS.Round>)
    ensures Passes(b, rounds) ==> b.tokenId.Some? && b.tokenId.value != "" && (b.choice == "Yes" || b.choice == "No")
  {
    Objection(b, rounds).None?
  }

  function Detail(code: ValidationCode): string {
    match code
    case DuplicateEvent => "duplicate ballot event delivery"
    case UnknownRound => "ballot references an unknown round"
    case RoundNotOpen => "ballot submitted outside an open round"
    case RoundClosed => "ballot arrived after round closure"
    case InvalidChoice => "ballot choice must be Yes or No"
    case MissingTokenId => "ballot is missing a token id"
    case NotEnoughCoordinatorShares => "ballot does not meet the coordinator threshold"
    case UnauthorizedCoordinatorShare => "ballot includes an unauthorized coordinator share"
    case DuplicateToken => "ballot reuses a token that has already been accepted"
    case _ => ""
  }

  function Rejection(b: EncryptedBallotEvent, code: ValidationCode): RejectedBallot {
    RejectedBallot(b.eventId, b.roundId, b.authorPubkey, b.choice, b.createdAt,
                   ValidationIssue(code, Detail(code), Some(b.eventId)))
  }

  function ReceiptHash(roundId: string, tokenId: string, eventId: string): string {
    "receipt:" + roundId + ":" + tokenId + ":" + eventId
  }

  function Acceptance(b: EncryptedBallotEvent): AcceptedBallot
    requires b.tokenId.Some?
  {
    AcceptedBallot(b.eventId, b.roundId, b.authorPubkey, b.requestId, b.ticketId, b.choice, b.tokenId.value,
                   b.createdAt, ReceiptHash(b.roundId, b.tokenId.value, b.eventId))
  }

  // ----- the step function -----

  /** The reducer's fields as a value. */
  datatype Acc = Acc(
    accepted: seq<AcceptedBallot>, rejected: seq<RejectedBallot>, seen: set<string>, tokens: set<string>)

  const START := Acc([], [], {}, {})

  function Reject(acc: Acc, b: EncryptedBallotEvent, code: ValidationCode): Acc {
    acc.(seen := acc.seen + {b.eventId}, rejected := acc.rejected + [Rejection(b, code)])
  }

  function BallotStep(acc: Acc, b: EncryptedBallotEvent, rounds: seq<PS.Round>): Acc {
    if b.eventId in acc.seen then Reject(acc, b, DuplicateEvent)
    else if !Passes(b, rounds) then Reject(acc, b, Objection(b, rounds).value)
    else if b.tokenId.value in acc.tokens then Reject(acc, b, DuplicateToken)
    else Acc(acc.accepted + [Acceptance(b)], acc.rejected, acc.seen + {b.eventId}, acc.tokens + {b.tokenId.value})
  }

  function Step(acc: Acc, e: BallotEvent, rounds: seq<PS.Round>): Acc {
    if e.EncryptedBallot? then BallotStep(acc, e.ballot, rounds) else acc
  }

  function Fold(events: seq<BallotEvent>, rounds: seq<PS.Round>): Acc {
    if events == [] then START else Step(Fold(Init(events), rounds), Last(events), rounds)
  }

  // ----- tallies -----

  function AcceptedRound(a: AcceptedBallot): string {
    a.roundId
  }

  function RejectedRound(r: RejectedBallot): string {
    r.roundId
  }

  function AcceptedIn(accepted: seq<AcceptedBallot>, r: string): nat {
    if accepted == [] then 0 else AcceptedIn(Init(accepted), r) + if Last(accepted).roundId == r then 1 else 0
  }

  function ChosenIn(accepted: seq<AcceptedBallot>, r: string, choice: string): nat {
    if accepted == [] then 0 else
      ChosenIn(Init(accepted), r, choice) + if Last(accepted).roundId == r && Last(accepted).choice == choice then 1 else 0
  }

  function RejectedIn(rejected: seq<RejectedBallot>, r: string): nat {
    if rejected == [] then 0 else RejectedIn(Init(rejected), r) + if Last(rejected).roundId == r then 1 else 0
  }

  function SummaryOf(accepted: seq<AcceptedBallot>, rejected: seq<RejectedBallot>, r: string): RoundSummary {
    RoundSummary(r, AcceptedIn(accepted, r), RejectedIn(rejected, r), ChosenIn(accepted, r, "Yes"), ChosenIn(accepted, r, "No"))
  }

  function RoundsNamed(accepted: seq<AcceptedBallot>, rejected: seq<RejectedBallot>): set<string> {
    Ids(AcceptedRound, accepted) + Ids(RejectedRound, rejected)
  }

  function SummaryMap(accepted: seq<AcceptedBallot>, rejected: seq<RejectedBallot>): map<string, RoundSummary> {
    map r | r in RoundsNamed(accepted, rejected) :: SummaryOf(accepted, rejected, r)
  }

  function ReceiptFor(a: AcceptedBallot): PS.DerivedReceipt {
    PS.DerivedReceipt("", a.roundId, a.tokenId, a.receiptHash, a.createdAt)
  }

  function ReceiptsFor(accepted: seq<AcceptedBallot>): seq<PS.DerivedReceipt> {
    seq(|accepted|, i requires 0 <= i < |accepted| => ReceiptFor(accepted[i]))
  }

  function Finalize(acc: Acc): BallotState {
    var summaries := SummaryMap(acc.accepted, acc.rejected);
    BallotState(acc.accepted, acc.rejected, ReceiptsFor(acc.accepted), PS.Values(summaries, Ascending(summaries.Keys)))
  }

  lemma {:induction false} UncountedOutside(accepted: seq<AcceptedBallot>, rejected: seq<RejectedBallot>, r: string)
    ensures r !in Ids(AcceptedRound, accepted) ==>
              AcceptedIn(accepted, r) == ChosenIn(accepted, r, "Yes") == ChosenIn(accepted, r, "No") == 0
    ensures r !in Ids(RejectedRound, rejected) ==> RejectedIn(rejected, r) == 0
    decreases |accepted| + |rejected|
  {
    if accepted != [] {
      UncountedOutside(Init(accepted), rejected, r);
    } else if rejected != [] {
      UncountedOutside(accepted, Init(rejected), r);
    }
  }

  /** `entry(..).or_insert_with(..)` */
  function SummaryEntry(summaries: map<string, RoundSummary>, r: string): RoundSummary {
    if r in summaries then summaries[r] else RoundSummary(r, 0, 0, 0, 0)
  }

  function CountAccepted(s: RoundSummary, choice: string): RoundSummary {
    s.(acceptedCount := s.acceptedCount + 1,
       yesCount := s.yesCount + if choice == "Yes" then 1 else 0,
       noCount := s.noCount + if choice == "No" then 1 else 0)
  }

  lemma SummaryAfterAccepted(accepted: seq<AcceptedBallot>, a: AcceptedBallot)
    ensures var summaries := SummaryMap(accepted, []);
            SummaryMap(accepted + [a], []) ==
              summaries[a.roundId := CountAccepted(SummaryEntry(summaries, a.roundId), a.choice)]
  {
    assert Init(accepted + [a]) == accepted && Last(accepted + [a]) == a;
    UncountedOutside(accepted, [], a.roundId);
  }

  lemma SummaryAfterRejected(accepted: seq<AcceptedBallot>, rejected: seq<RejectedBallot>, b: RejectedBallot)
    ensures var summaries := SummaryMap(accepted, rejected);
            var before := SummaryEntry(summaries, b.roundId);
            SummaryMap(accepted, rejected + [b]) ==
              summaries[b.roundId := before.(rejectedCount := before.rejectedCount + 1)]
  {
    assert Init(rejected + [b]) == rejected && Last(rejected + [b]) == b;
    UncountedOutside(accepted, rejected, b.roundId);
  }

  lemma ReceiptsSnoc(accepted: seq<AcceptedBallot>, a: AcceptedBallot)
    ensures ReceiptsFor(accepted + [a]) == ReceiptsFor(accepted) + [ReceiptFor(a)]
  {
  }

  // ----- what the summaries count -----

  /** How many of the accepted ballots, place by place, are of round `r` and chose `choice`. */
  lemma {:induction false} ChosenCounts(accepted: seq<AcceptedBallot>, r: string, choice: string)
    ensures ChosenIn(accepted, r, choice) ==
              |set j | 0 <= j < |accepted| && accepted[j].roundId == r && accepted[j].choice == choice|
  {
    if accepted != [] {
      var init, n := Init(accepted), |accepted| - 1;
      ChosenCounts(init, r, choice);
      var before := set j | 0 <= j < |init| && init[j].roundId == r && init[j].choice == choice;
      var after := set j | 0 <= j < |accepted| && accepted[j].roundId == r && accepted[j].choice == choice;
      OneMore(before, after, n, accepted[n].roundId == r && accepted[n].choice == choice);
    }
  }

  lemma {:induction false} AcceptedCounts(accepted: seq<AcceptedBallot>, r: string)
    ensures AcceptedIn(accepted, r) == |set j | 0 <= j < |accepted| && accepted[j].roundId == r|
  {
    if accepted != [] {
      var init, n := Init(accepted), |accepted| - 1;
      AcceptedCounts(init, r);
      var before := set j | 0 <= j < |init| && init[j].roundId == r;
      var after := set j | 0 <= j < |accepted| && accepted[j].roundId == r;
      OneMore(before, after, n, accepted[n].roundId == r);
    }
  }

  lemma {:induction false} RejectedCounts(rejected: seq<RejectedBallot>, r: string)
    ensures RejectedIn(rejected, r) == |set j | 0 <= j < |rejected| && rejected[j].roundId == r|
  {
    if rejected != [] {
      var init, n := Init(rejected), |rejected| - 1;
      RejectedCounts(init, r);
      var before := set j | 0 <= j < |init| && init[j].roundId == r;
      var after := set j | 0 <= j < |rejected| && rejected[j].roundId == r;
      OneMore(before, after, n, rejected[n].roundId == r);
    }
  }

  /** `s` counts the accepted and rejected ballots of its round, and the accepted ones by their choice. */
  ghost predicate CountsRound(s: RoundSummary, accepted: seq<AcceptedBallot>, rejected: seq<RejectedBallot>) {
    && s.yesCount == |set j | 0 <= j < |accepted| && accepted[j].roundId == s.roundId && accepted[j].choice == "Yes"|
    && s.noCount == |set j | 0 <= j < |accepted| && accepted[j].roundId == s.roundId && accepted[j].choice == "No"|
    && s.acceptedCount == |set j | 0 <= j < |accepted| && accepted[j].roundId == s.roundId|
    && s.rejectedCount == |set j | 0 <= j < |rejected| && rejected[j].roundId == s.roundId|
  }

  lemma SummaryCounts(accepted: seq<AcceptedBallot>, rejected: seq<RejectedBallot>, r: string)
    ensures SummaryOf(accepted, rejected, r).roundId == r && CountsRound(SummaryOf(accepted, rejected, r), accepted, rejected)
  {
    ChosenCounts(accepted, r, "Yes");
    ChosenCounts(accepted, r, "No");
    AcceptedCounts(accepted, r);
    RejectedCounts(rejected, r);
  }

  lemma SummariesCount(acc: Acc)
    ensures forall s :: s in Finalize(acc).summaries ==> CountsRound(s, acc.accepted, acc.rejected)
  {
    var summaries := SummaryMap(acc.accepted, acc.rejected);
    var keys := Ascending(summaries.Keys);
    forall s | s in Finalize(acc).summaries ensures CountsRound(s, acc.accepted, acc.rejected) {
      var i :| 0 <= i < |keys| && Finalize(acc).summaries[i] == s;
      assert keys[i] in keys;
      SummaryCounts(acc.accepted, acc.rejected, keys[i]);
    }
  }

  // ----- the reducer -----

  class BallotStateReducer {
    var accepted: seq<AcceptedBallot>
    var rejected: seq<RejectedBallot>
    var seenEventIds: set<string>
    var acceptedTokenIds: set<string>

    ghost function State(): Acc
      reads this
    {
      Acc(accepted, rejected, seenEventIds, acceptedTokenIds)
    }

    constructor ()
      ensures State() == START
    {
      accepted := [];
      rejected := [];
      seenEventIds := {};
      acceptedTokenIds := {};
    }

    method Apply(e: BallotEvent, publicState: PS.PublicState)
      modifies this
      ensures State() == Step(old(State()), e, publicState.rounds)
    {
      if e.EncryptedBallot? {
        ApplyEncryptedBallot(e.ballot, publicState);
      }
    }

    method ApplyEncryptedBallot(b: EncryptedBallotEvent, publicState: PS.PublicState)
      modifies this
      ensures State() == BallotStep(old(State()), b, publicState.rounds)
    {
      if b.eventId in seenEventIds {
        assert seenEventIds == seenEventIds + {b.eventId};
        rejected := rejected + [Rejection(b, DuplicateEvent)];
        return;
      }
      seenEventIds := seenEventIds + {b.eventId};

      var found := PS.Find(publicState.rounds, b.roundId);
      if found.None? {
        rejected := rejected + [Rejection(b, UnknownRound)];
        return;
      }
      var round := found.value;
      if round.phase != PS.Open && round.phase != PS.Published {
        rejected := rejected + [Rejection(b, RoundNotOpen)];
        return;
      }
      if round.closedAt.Some? && b.createdAt >= round.closedAt.value {
        rejected := rejected + [Rejection(b, RoundClosed)];
        return;
      }
      if b.choice != "Yes" && b.choice != "No" {
        rejected := rejected + [Rejection(b, InvalidChoice)];
        return;
      }
      if b.tokenId.None? || b.tokenId.value == "" {
        rejected := rejected + [Rejection(b, MissingTokenId)];
        return;
      }
      var uniqueCoordinators := Shares(b);
      if |uniqueCoordinators| < round.thresholdT {
        rejected := rejected + [Rejection(b, NotEnoughCoordinatorShares)];
        return;
      }
      if exists s :: s in uniqueCoordinators && s !in round.roster {
        rejected := rejected + [Rejection(b, UnauthorizedCoordinatorShare)];
        return;
      }
      if b.tokenId.value in acceptedTokenIds {
        rejected := rejected + [Rejection(b, DuplicateToken)];
        return;
      }
      acceptedTokenIds := acceptedTokenIds + {b.tokenId.value};
      accepted := accepted + [Acceptance(b)];
    }

    method Finish() returns (state: BallotState)
      ensures state == Finalize(State())
      ensures forall s :: s in state.summaries ==> CountsRound(s, accepted, rejected)
    {
      var summaries: map<string, RoundSummary> := map[];
      var receipts := [];
      for i := 0 to |accepted|
        invariant summaries == SummaryMap(accepted[..i], [])
        invariant receipts == ReceiptsFor(accepted[..i])
      {
        var a := accepted[i];
        SummaryAfterAccepted(accepted[..i], a);
        ReceiptsSnoc(accepted[..i], a);
        assert accepted[..i + 1] == accepted[..i] + [a];
        summaries := summaries[a.roundId := CountAccepted(SummaryEntry(summaries, a.roundId), a.choice)];
        receipts := receipts + [ReceiptFor(a)];
      }
      assert accepted[..|accepted|] == accepted;
      summaries := AddRejected(summaries);
      state := BallotState(accepted, rejected, receipts, PS.Values(summaries, Ascending(summaries.Keys)));
      SummariesCount(State());
    }

    method AddRejected(before: map<string, RoundSummary>) returns (summaries: map<string, RoundSummary>)
      requires before == SummaryMap(accepted, [])
      ensures summaries == SummaryMap(accepted, rejected)
    {
      summaries := before;
      for i := 0 to |rejected|
        invariant summaries == SummaryMap(accepted, rejected[..i])
      {
        var b := rejected[i];
        SummaryAfterRejected(accepted, rejected[..i], b);
        assert rejected[..i + 1] == rejected[..i] + [b];
        var summary := SummaryEntry(summaries, b.roundId);
        summaries := summaries[b.roundId := summary.(rejectedCount := summary.rejectedCount + 1)];
      }
      assert rejected[..|rejected|] == rejected;
    }
  }
}
