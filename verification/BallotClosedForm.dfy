/**
 First valid wins, said of the set of ballots; conservation of deliveries; quorum intersection; and
 why a repeated delivery leaves nothing but a rejection behind.
 */
module BallotClosedForm {
  import opened Wrappers
  import opened Order
  import opened Sorting
  import opened Events
  import opened Validation
  import opened BallotState
  import PS = PublicState

  /** A ballot in `events` that meets every check that does not depend on other ballots. */
  ghost predicate Valid(events: seq<BallotEvent>, rounds: seq<PS.Round>, e: BallotEvent) {
    e in events && e.EncryptedBallot? && Passes(e.ballot, rounds)
  }

  /** `e` is the least, by creation time and then id, of the valid ballots spending its token. */
  ghost predicate Wins(events: seq<BallotEvent>, rounds: seq<PS.Round>, e: BallotEvent) {
    && Valid(events, rounds, e)
    && forall f :: Valid(events, rounds, f) && f.ballot.tokenId == e.ballot.tokenId ==> KeyLe(BallotKey(e), BallotKey(f))
  }

  // ----- what the reducer has seen -----

  function Encrypted(events: seq<BallotEvent>): seq<BallotEvent> {
    if events == [] then [] else Encrypted(Init(events)) + if Last(events).EncryptedBallot? then [Last(events)] else []
  }

  lemma StepSeen(acc: Acc, e: BallotEvent, rounds: seq<PS.Round>)
    ensures Step(acc, e, rounds).seen == acc.seen + if e.EncryptedBallot? then {BallotId(e)} else {}
  {
  }

  lemma {:induction false} SeenIds(events: seq<BallotEvent>, rounds: seq<PS.Round>)
    ensures Fold(events, rounds).seen == Ids(BallotId, Encrypted(events))
  {
    if events != [] {
      SeenIds(Init(events), rounds);
      var before, e := Encrypted(Init(events)), Last(events);
      StepSeen(Fold(Init(events), rounds), e, rounds);
      assert Init(before + [e]) == before && Last(before + [e]) == e;
      assert before + [] == before;
    }
  }

  lemma {:induction false} EncryptedHas(events: seq<BallotEvent>, e: BallotEvent)
    ensures e in Encrypted(events) <==> e in events && e.EncryptedBallot?
  {
    if events != [] {
      SplitLast(events);
      EncryptedHas(Init(events), e);
    }
  }

  // ----- first valid wins -----

  /** The accepted list holds the winners and nothing else. */
  ghost predicate AcceptsWinners(accepted: seq<AcceptedBallot>, events: seq<BallotEvent>, rounds: seq<PS.Round>) {
    && (forall e :: Wins(events, rounds, e) ==> Acceptance(e.ballot) in accepted)
    && (forall a :: a in accepted ==> IsWinner(events, rounds, a))
  }

  ghost predicate IsWinner(events: seq<BallotEvent>, rounds: seq<PS.Round>, a: AcceptedBallot) {
    exists e :: Wins(events, rounds, e) && a == Acceptance(e.ballot)
  }

  /** The token set holds the tokens of the valid ballots, each won by one of them. */
  ghost predicate TokensWon(tokens: set<string>, events: seq<BallotEvent>, rounds: seq<PS.Round>) {
    && (forall e :: Valid(events, rounds, e) ==> e.ballot.tokenId.value in tokens)
    && (forall t :: t in tokens ==> IsWon(events, rounds, t))
  }

  ghost predicate IsWon(events: seq<BallotEvent>, rounds: seq<PS.Round>, t: string) {
    exists e :: Wins(events, rounds, e) && e.ballot.tokenId.value == t
  }

  /** The accepted list, the token set and the winners agree. */
  ghost predicate Agrees(acc: Acc, events: seq<BallotEvent>, rounds: seq<PS.Round>) {
    AcceptsWinners(acc.accepted, events, rounds) && TokensWon(acc.tokens, events, rounds)
  }

  /** `e` adds no winner: it is not valid, was there before, or spends a token already won. */
  ghost predicate Superfluous(events: seq<BallotEvent>, e: BallotEvent, rounds: seq<PS.Round>) {
    Valid(events + [e], rounds, e) ==>
      e in events || exists w :: Wins(events, rounds, w) && Beats(w, e)
  }

  ghost predicate Beats(w: BallotEvent, e: BallotEvent) {
    && w.EncryptedBallot? && e.EncryptedBallot? && w.ballot.tokenId == e.ballot.tokenId
    && KeyLt(BallotKey(w), BallotKey(e))
  }

  lemma SameWinners(events: seq<BallotEvent>, e: BallotEvent, rounds: seq<PS.Round>, x: BallotEvent)
    requires Superfluous(events, e, rounds)
    ensures Wins(events + [e], rounds, x) <==> Wins(events, rounds, x)
  {
    var all := events + [e];
    assert forall y :: y in all <==> y in events || y == e;
    if Valid(all, rounds, e) && e !in events {
      var w :| Wins(events, rounds, w) && Beats(w, e);
      CompareKeysAgree(BallotKey(w), BallotKey(e));
      assert Valid(all, rounds, w) && !KeyLe(BallotKey(e), BallotKey(w));
      assert !Wins(all, rounds, e) && !Wins(events, rounds, e);
      if Wins(events, rounds, x) && x.ballot.tokenId == e.ballot.tokenId {
        assert Valid(events, rounds, w);
        KeyOrderIsTotal(BallotKey(x), BallotKey(w), BallotKey(e));
      }
    } else {
      assert forall y :: Valid(all, rounds, y) <==> Valid(events, rounds, y);
    }
  }

  lemma AcceptsSame(accepted: seq<AcceptedBallot>, events: seq<BallotEvent>, all: seq<BallotEvent>, rounds: seq<PS.Round>)
    requires AcceptsWinners(accepted, events, rounds)
    requires forall x :: Wins(all, rounds, x) <==> Wins(events, rounds, x)
    ensures AcceptsWinners(accepted, all, rounds)
  {
    forall a | a in accepted ensures IsWinner(all, rounds, a) {
      var x :| Wins(events, rounds, x) && a == Acceptance(x.ballot);
      assert Wins(all, rounds, x);
    }
  }

  lemma TokenAmong(tokens: set<string>, events: seq<BallotEvent>, e: BallotEvent, rounds: seq<PS.Round>, x: BallotEvent)
    requires TokensWon(tokens, events, rounds) && Superfluous(events, e, rounds) && Valid(events + [e], rounds, x)
    ensures x.ballot.tokenId.value in tokens
  {
    if x in events {
      assert Valid(events, rounds, x);
    } else {
      assert x == e;
      var w :| Wins(events, rounds, w) && Beats(w, e);
      assert Valid(events, rounds, w);
    }
  }

  lemma TokensSame(tokens: set<string>, events: seq<BallotEvent>, e: BallotEvent, rounds: seq<PS.Round>)
    requires TokensWon(tokens, events, rounds) && Superfluous(events, e, rounds)
    requires forall x :: Wins(events + [e], rounds, x) <==> Wins(events, rounds, x)
    ensures TokensWon(tokens, events + [e], rounds)
  {
    forall x | Valid(events + [e], rounds, x) ensures x.ballot.tokenId.value in tokens {
      TokenAmong(tokens, events, e, rounds, x);
    }
    forall t | t in tokens ensures IsWon(events + [e], rounds, t) {
      var x :| Wins(events, rounds, x) && x.ballot.tokenId.value == t;
      assert Wins(events + [e], rounds, x);
    }
  }

  lemma AgreesWithout(acc: Acc, acc': Acc, events: seq<BallotEvent>, e: BallotEvent, rounds: seq<PS.Round>)
    requires Agrees(acc, events, rounds) && Superfluous(events, e, rounds)
    requires acc'.accepted == acc.accepted && acc'.tokens == acc.tokens
    ensures Agrees(acc', events + [e], rounds)
  {
    forall x ensures Wins(events + [e], rounds, x) <==> Wins(events, rounds, x) {
      SameWinners(events, e, rounds, x);
    }
    AcceptsSame(acc.accepted, events, events + [e], rounds);
    TokensSame(acc.tokens, events, e, rounds);
  }

  lemma NewWinner(events: seq<BallotEvent>, e: BallotEvent, rounds: seq<PS.Round>, x: BallotEvent)
    requires Precede(BallotKey, events, e) && Valid(events + [e], rounds, e)
    requires forall f :: Valid(events, rounds, f) ==> f.ballot.tokenId.value != e.ballot.tokenId.value
    ensures Wins(events + [e], rounds, x) <==> Wins(events, rounds, x) || x == e
    ensures Valid(events + [e], rounds, x) <==> Valid(events, rounds, x) || x == e
  {
    var all := events + [e];
    assert forall y :: y in all <==> y in events || y == e;
    assert forall y :: Valid(all, rounds, y) <==> Valid(events, rounds, y) || y == e;
    KeyOrderIsTotal(BallotKey(e), BallotKey(e), BallotKey(e));
  }

  /** Two lists of events have the winners `all` has beyond `events`: only `e`. */
  ghost predicate OneMoreWinner(events: seq<BallotEvent>, all: seq<BallotEvent>, e: BallotEvent, rounds: seq<PS.Round>) {
    && Wins(all, rounds, e)
    && (forall x :: Wins(all, rounds, x) <==> Wins(events, rounds, x) || x == e)
    && (forall x :: Valid(all, rounds, x) <==> Valid(events, rounds, x) || x == e)
  }

  lemma AcceptsOneMore(accepted: seq<AcceptedBallot>, events: seq<BallotEvent>, all: seq<BallotEvent>, e: BallotEvent,
                       rounds: seq<PS.Round>)
    requires AcceptsWinners(accepted, events, rounds) && OneMoreWinner(events, all, e, rounds)
    ensures AcceptsWinners(accepted + [Acceptance(e.ballot)], all, rounds)
  {
    forall a | a in accepted + [Acceptance(e.ballot)] ensures IsWinner(all, rounds, a) {
      if a in accepted {
        var x :| Wins(events, rounds, x) && a == Acceptance(x.ballot);
        assert Wins(all, rounds, x);
      } else {
        assert Wins(all, rounds, e);
      }
    }
  }

  lemma TokensOneMore(tokens: set<string>, events: seq<BallotEvent>, all: seq<BallotEvent>, e: BallotEvent,
                      rounds: seq<PS.Round>)
    requires TokensWon(tokens, events, rounds) && OneMoreWinner(events, all, e, rounds)
    ensures TokensWon(tokens + {e.ballot.tokenId.value}, all, rounds)
  {
    forall t | t in tokens + {e.ballot.tokenId.value} ensures IsWon(all, rounds, t) {
      if t in tokens {
        var x :| Wins(events, rounds, x) && x.ballot.tokenId.value == t;
        assert Wins(all, rounds, x);
      } else {
        assert Wins(all, rounds, e);
      }
    }
  }

  lemma AgreesWith(acc: Acc, events: seq<BallotEvent>, e: BallotEvent, rounds: seq<PS.Round>)
    requires Agrees(acc, events, rounds) && Precede(BallotKey, events, e)
    requires Valid(events + [e], rounds, e) && e.ballot.tokenId.value !in acc.tokens
    requires e.ballot.eventId !in acc.seen
    ensures Agrees(Step(acc, e, rounds), events + [e], rounds)
  {
    var all := events + [e];
    forall x
      ensures Wins(all, rounds, x) <==> Wins(events, rounds, x) || x == e
      ensures Valid(all, rounds, x) <==> Valid(events, rounds, x) || x == e
    {
      NewWinner(events, e, rounds, x);
    }
    AcceptsOneMore(acc.accepted, events, all, e, rounds);
    TokensOneMore(acc.tokens, events, all, e, rounds);
  }

  lemma EncryptedBefore(events: seq<BallotEvent>, e: BallotEvent)
    requires IdsIdentify(BallotId, events + [e]) && e.EncryptedBallot?
    ensures BallotId(e) in Ids(BallotId, Encrypted(events)) <==> e in events
  {
    EncryptedHas(events, e);
    if BallotId(e) in Ids(BallotId, Encrypted(events)) {
      var x := IdsFrom(BallotId, Encrypted(events), BallotId(e));
      EncryptedHas(events, x);
      assert x in events + [e] && e in events + [e];
    } else if e in events {
      IdsHas(BallotId, Encrypted(events), e);
    }
  }

  lemma SeenBefore(events: seq<BallotEvent>, e: BallotEvent, rounds: seq<PS.Round>)
    requires IdsIdentify(BallotId, events + [e]) && e.EncryptedBallot?
    ensures e.ballot.eventId in Fold(events, rounds).seen <==> e in events
  {
    SeenIds(events, rounds);
    EncryptedBefore(events, e);
  }

  lemma TokenAlreadyWon(events: seq<BallotEvent>, e: BallotEvent, rounds: seq<PS.Round>, w: BallotEvent)
    requires Precede(BallotKey, events, e) && IdsIdentify(BallotId, events + [e]) && e !in events
    requires Valid(events + [e], rounds, e) && Wins(events, rounds, w) && w.ballot.tokenId.value == e.ballot.tokenId.value
    ensures Superfluous(events, e, rounds)
  {
    KeyOrderIsTotal(BallotKey(w), BallotKey(e), BallotKey(e));
    assert w in events + [e];
    assert Beats(w, e);
  }

  /** A ballot that is not newly valid on a fresh token adds no winner, and leaves list and tokens alone. */
  lemma SuperfluousStep(events: seq<BallotEvent>, e: BallotEvent, rounds: seq<PS.Round>)
    requires Precede(BallotKey, events, e) && IdsIdentify(BallotId, events + [e])
    requires TokensWon(Fold(events, rounds).tokens, events, rounds)
    requires !(Valid(events + [e], rounds, e) && e !in events && e.ballot.tokenId.value !in Fold(events, rounds).tokens)
    ensures Superfluous(events, e, rounds)
  {
    if Valid(events + [e], rounds, e) && e !in events {
      var w :| Wins(events, rounds, w) && w.ballot.tokenId.value == e.ballot.tokenId.value;
      TokenAlreadyWon(events, e, rounds, w);
    }
  }

  lemma RejectedStep(events: seq<BallotEvent>, e: BallotEvent, rounds: seq<PS.Round>)
    requires IdsIdentify(BallotId, events + [e])
    requires !(Valid(events + [e], rounds, e) && e !in events && e.ballot.tokenId.value !in Fold(events, rounds).tokens)
    ensures var acc := Fold(events, rounds);
            Step(acc, e, rounds).accepted == acc.accepted && Step(acc, e, rounds).tokens == acc.tokens
  {
    assert e in events + [e];
    if e.EncryptedBallot? {
      SeenBefore(events, e, rounds);
    }
  }

  lemma AgreesStep(events: seq<BallotEvent>, e: BallotEvent, rounds: seq<PS.Round>)
    requires Precede(BallotKey, events, e) && IdsIdentify(BallotId, events + [e])
    requires Agrees(Fold(events, rounds), events, rounds)
    ensures Agrees(Step(Fold(events, rounds), e, rounds), events + [e], rounds)
  {
    var acc := Fold(events, rounds);
    if Valid(events + [e], rounds, e) && e !in events && e.ballot.tokenId.value !in acc.tokens {
      SeenBefore(events, e, rounds);
      AgreesWith(acc, events, e, rounds);
    } else {
      SuperfluousStep(events, e, rounds);
      RejectedStep(events, e, rounds);
      AgreesWithout(acc, Step(acc, e, rounds), events, e, rounds);
    }
  }

  /** The accepted ballots are the least valid ballot of each token, across all rounds. */
  lemma {:induction false} FirstValidWins(events: seq<BallotEvent>, rounds: seq<PS.Round>)
    requires Sorted(BallotKey, events) && IdsIdentify(BallotId, events)
    ensures Agrees(Fold(events, rounds), events, rounds)
  {
    if events != [] {
      AfterAll(BallotKey, events);
      FirstValidWins(Init(events), rounds);
      AgreesStep(Init(events), Last(events), rounds);
    }
  }

  ghost predicate Spends(accepted: seq<AcceptedBallot>, token: string) {
    exists a :: a in accepted && a.tokenId == token
  }

  lemma WinnersSpend(accepted: seq<AcceptedBallot>, events: seq<BallotEvent>, rounds: seq<PS.Round>, token: string)
    requires AcceptsWinners(accepted, events, rounds)
    ensures Spends(accepted, token) <==> IsWon(events, rounds, token)
  {
    if a :| a in accepted && a.tokenId == token {
      var e :| Wins(events, rounds, e) && a == Acceptance(e.ballot);
      assert e.ballot.tokenId.value == token;
    }
    if e :| Wins(events, rounds, e) && e.ballot.tokenId.value == token {
      assert Acceptance(e.ballot) in accepted;
    }
  }

  ghost predicate Backed(events: seq<BallotEvent>, rounds: seq<PS.Round>, token: string) {
    exists e :: Valid(events, rounds, e) && e.ballot.tokenId == Some(token)
  }

  lemma WonIffBacked(tokens: set<string>, events: seq<BallotEvent>, rounds: seq<PS.Round>, token: string)
    requires TokensWon(tokens, events, rounds)
    ensures IsWon(events, rounds, token) <==> Backed(events, rounds, token)
  {
    if e :| Wins(events, rounds, e) && e.ballot.tokenId.value == token {
      assert Valid(events, rounds, e);
    }
    if e :| Valid(events, rounds, e) && e.ballot.tokenId == Some(token) {
      assert e.ballot.tokenId.value in tokens;
    }
  }

  // ----- distinctness and order of the accepted list -----

  function AcceptedToken(a: AcceptedBallot): string {
    a.tokenId
  }

  function AcceptedId(a: AcceptedBallot): string {
    a.eventId
  }

  function AcceptedKey(a: AcceptedBallot): Key {
    Key(3, 0, a.createdAt, a.eventId)
  }

  /** The accepted list is strictly ordered, repeats no token and no id, and each entry comes from a valid ballot. */
  ghost predicate InOrder(acc: Acc, events: seq<BallotEvent>, rounds: seq<PS.Round>) {
    && StrictlySorted(AcceptedKey, acc.accepted)
    && DistinctIds(AcceptedToken, acc.accepted)
    && Ids(AcceptedToken, acc.accepted) == acc.tokens
    && DistinctIds(AcceptedId, acc.accepted)
    && Ids(AcceptedId, acc.accepted) <= acc.seen
    && (forall a :: a in acc.accepted ==> FromValid(events, rounds, a))
  }

  ghost predicate FromValid(events: seq<BallotEvent>, rounds: seq<PS.Round>, a: AcceptedBallot) {
    exists e :: Valid(events, rounds, e) && a == Acceptance(e.ballot)
  }

  lemma StillFromValid(events: seq<BallotEvent>, e: BallotEvent, rounds: seq<PS.Round>, a: AcceptedBallot)
    requires FromValid(events, rounds, a)
    ensures FromValid(events + [e], rounds, a)
  {
    var x :| Valid(events, rounds, x) && a == Acceptance(x.ballot);
    assert Valid(events + [e], rounds, x);
  }

  lemma StrictSnoc(accepted: seq<AcceptedBallot>, a: AcceptedBallot)
    requires StrictlySorted(AcceptedKey, accepted) && forall b :: b in accepted ==> KeyLt(AcceptedKey(b), AcceptedKey(a))
    ensures StrictlySorted(AcceptedKey, accepted + [a])
  {
    assert forall i :: 0 <= i < |accepted| ==> accepted[i] in accepted;
  }

  lemma InOrderWith(acc: Acc, events: seq<BallotEvent>, e: BallotEvent, rounds: seq<PS.Round>)
    requires InOrder(acc, events, rounds) && Precede(BallotKey, events, e)
    requires Valid(events + [e], rounds, e) && e.ballot.eventId !in acc.seen && e.ballot.tokenId.value !in acc.tokens
    ensures InOrder(Step(acc, e, rounds), events + [e], rounds)
  {
    var a, acc' := Acceptance(e.ballot), Step(acc, e, rounds);
    assert acc'.accepted == acc.accepted + [a];
    assert Init(acc'.accepted) == acc.accepted && Last(acc'.accepted) == a;
    forall b | b in acc.accepted
      ensures KeyLt(AcceptedKey(b), AcceptedKey(a)) && FromValid(events + [e], rounds, b)
    {
      LaterThan(acc, events, e, rounds, b);
      StillFromValid(events, e, rounds, b);
    }
    StrictSnoc(acc.accepted, a);
    assert FromValid(events + [e], rounds, a);
  }

  lemma LaterThan(acc: Acc, events: seq<BallotEvent>, e: BallotEvent, rounds: seq<PS.Round>, b: AcceptedBallot)
    requires InOrder(acc, events, rounds) && Precede(BallotKey, events, e) && b in acc.accepted
    requires e.EncryptedBallot? && e.ballot.tokenId.Some? && e.ballot.eventId !in acc.seen
    ensures KeyLt(AcceptedKey(b), AcceptedKey(Acceptance(e.ballot)))
  {
    var x :| Valid(events, rounds, x) && b == Acceptance(x.ballot);
    IdsHas(AcceptedId, acc.accepted, b);
    assert x in events && BallotKey(x) == AcceptedKey(b);
    assert BallotKey(e) == AcceptedKey(Acceptance(e.ballot));
    KeyOrderIsTotal(BallotKey(x), BallotKey(e), BallotKey(e));
  }

  lemma {:induction false} AcceptedInOrder(events: seq<BallotEvent>, rounds: seq<PS.Round>)
    requires Sorted(BallotKey, events)
    ensures InOrder(Fold(events, rounds), events, rounds)
  {
    if events != [] {
      AfterAll(BallotKey, events);
      var init, e := Init(events), Last(events);
      AcceptedInOrder(init, rounds);
      var acc := Fold(init, rounds);
      if e.EncryptedBallot? && Passes(e.ballot, rounds) && e.ballot.eventId !in acc.seen && e.ballot.tokenId.value !in acc.tokens {
        assert Valid(events, rounds, e);
        InOrderWith(acc, init, e, rounds);
      } else {
        forall b | b in acc.accepted ensures FromValid(events, rounds, b) {
          StillFromValid(init, e, rounds, b);
        }
        assert Step(acc, e, rounds).accepted == acc.accepted && Step(acc, e, rounds).tokens == acc.tokens;
      }
    }
  }

  // ----- conservation -----

  /** The deliveries of ballots naming round `r`. */
  function DeliveriesIn(events: seq<BallotEvent>, r: string): nat {
    if events == [] then 0 else
      DeliveriesIn(Init(events), r) + if Last(events).EncryptedBallot? && Last(events).ballot.roundId == r then 1 else 0
  }

  /** The deliveries of ballots with this event id. */
  function DeliveriesWith(events: seq<BallotEvent>, id: string): nat {
    if events == [] then 0 else
      DeliveriesWith(Init(events), id) + if Last(events).EncryptedBallot? && BallotId(Last(events)) == id then 1 else 0
  }

  function AcceptedWith(accepted: seq<AcceptedBallot>, id: string): nat {
    if accepted == [] then 0 else AcceptedWith(Init(accepted), id) + if Last(accepted).eventId == id then 1 else 0
  }

  function RejectedWith(rejected: seq<RejectedBallot>, id: string): nat {
    if rejected == [] then 0 else RejectedWith(Init(rejected), id) + if Last(rejected).eventId == id then 1 else 0
  }

  ghost predicate RoundNamed(events: seq<BallotEvent>, r: string) {
    exists e :: e in events && e.EncryptedBallot? && e.ballot.roundId == r
  }

  function Duplicates(rejected: seq<RejectedBallot>): nat {
    if rejected == [] then 0 else
      Duplicates(Init(rejected)) + if Last(rejected).reason.code == DuplicateEvent then 1 else 0
  }

  /** Each delivery has left one record: accepted or rejected, in its own round. */
  ghost predicate Recorded(acc: Acc, deliveries: nat, inRound: nat, r: string) {
    && |acc.accepted| + |acc.rejected| == deliveries
    && AcceptedIn(acc.accepted, r) + RejectedIn(acc.rejected, r) == inRound
    && ChosenIn(acc.accepted, r, "Yes") + ChosenIn(acc.accepted, r, "No") == AcceptedIn(acc.accepted, r)
    && Duplicates(acc.rejected) + |acc.seen| == deliveries
  }

  lemma RejectCounts(acc: Acc, b: EncryptedBallotEvent, code: ValidationCode, r: string)
    ensures var acc' := Reject(acc, b, code);
            && RejectedIn(acc'.rejected, r) == RejectedIn(acc.rejected, r) + (if b.roundId == r then 1 else 0)
            && Duplicates(acc'.rejected) == Duplicates(acc.rejected) + (if code == DuplicateEvent then 1 else 0)
  {
    var rejected := acc.rejected + [Rejection(b, code)];
    assert Init(rejected) == acc.rejected && Last(rejected) == Rejection(b, code);
  }

  lemma AcceptCounts(accepted: seq<AcceptedBallot>, a: AcceptedBallot, r: string)
    ensures AcceptedIn(accepted + [a], r) == AcceptedIn(accepted, r) + if a.roundId == r then 1 else 0
    ensures forall c :: ChosenIn(accepted + [a], r, c) == ChosenIn(accepted, r, c) + if a.roundId == r && a.choice == c then 1 else 0
  {
    assert Init(accepted + [a]) == accepted && Last(accepted + [a]) == a;
  }

  lemma RejectRecorded(acc: Acc, b: EncryptedBallotEvent, code: ValidationCode, deliveries: nat, inRound: nat, r: string)
    requires Recorded(acc, deliveries, inRound, r) && (code == DuplicateEvent <==> b.eventId in acc.seen)
    ensures Recorded(Reject(acc, b, code), deliveries + 1, inRound + if b.roundId == r then 1 else 0, r)
  {
    RejectCounts(acc, b, code, r);
    if b.eventId in acc.seen {
      assert acc.seen + {b.eventId} == acc.seen;
    }
  }

  lemma AcceptRecorded(acc: Acc, b: EncryptedBallotEvent, rounds: seq<PS.Round>, deliveries: nat, inRound: nat, r: string)
    requires Recorded(acc, deliveries, inRound, r)
    requires b.eventId !in acc.seen && Passes(b, rounds) && b.tokenId.value !in acc.tokens
    ensures Recorded(BallotStep(acc, b, rounds), deliveries + 1, inRound + if b.roundId == r then 1 else 0, r)
  {
    AcceptCounts(acc.accepted, Acceptance(b), r);
  }

  lemma RecordedStep(acc: Acc, b: EncryptedBallotEvent, rounds: seq<PS.Round>, deliveries: nat, inRound: nat, r: string)
    requires Recorded(acc, deliveries, inRound, r)
    ensures Recorded(BallotStep(acc, b, rounds), deliveries + 1, inRound + if b.roundId == r then 1 else 0, r)
  {
    if b.eventId in acc.seen {
      RejectRecorded(acc, b, DuplicateEvent, deliveries, inRound, r);
    } else if !Passes(b, rounds) {
      ObjectionNeverDuplicate(b, rounds);
      RejectRecorded(acc, b, Objection(b, rounds).value, deliveries, inRound, r);
    } else if b.tokenId.value in acc.tokens {
      RejectRecorded(acc, b, DuplicateToken, deliveries, inRound, r);
    } else {
      AcceptRecorded(acc, b, rounds, deliveries, inRound, r);
    }
  }

  lemma {:induction false} EveryDeliveryRecorded(events: seq<BallotEvent>, rounds: seq<PS.Round>, r: string)
    ensures Recorded(Fold(events, rounds), |Encrypted(events)|, DeliveriesIn(events, r), r)
  {
    if events != [] {
      EveryDeliveryRecorded(Init(events), rounds, r);
      if Last(events).EncryptedBallot? {
        RecordedStep(Fold(Init(events), rounds), Last(events).ballot, rounds,
                     |Encrypted(Init(events))|, DeliveriesIn(Init(events), r), r);
      }
    }
  }

  lemma RecordsWithStep(acc: Acc, b: EncryptedBallotEvent, rounds: seq<PS.Round>, id: string)
    ensures var acc' := BallotStep(acc, b, rounds);
            AcceptedWith(acc'.accepted, id) + RejectedWith(acc'.rejected, id) ==
              AcceptedWith(acc.accepted, id) + RejectedWith(acc.rejected, id) + if b.eventId == id then 1 else 0
  {
    var acc' := BallotStep(acc, b, rounds);
    if acc'.accepted == acc.accepted {
      assert Init(acc'.rejected) == acc.rejected && Last(acc'.rejected).eventId == b.eventId;
    } else {
      assert Init(acc'.accepted) == acc.accepted && Last(acc'.accepted).eventId == b.eventId;
    }
  }

  /** An event id has as many records, accepted or rejected, as it has deliveries. */
  lemma {:induction false} EveryIdRecorded(events: seq<BallotEvent>, rounds: seq<PS.Round>, id: string)
    ensures var acc := Fold(events, rounds);
            AcceptedWith(acc.accepted, id) + RejectedWith(acc.rejected, id) == DeliveriesWith(events, id)
  {
    if events != [] {
      EveryIdRecorded(Init(events), rounds, id);
      if Last(events).EncryptedBallot? {
        RecordsWithStep(Fold(Init(events), rounds), Last(events).ballot, rounds, id);
      }
    }
  }

  lemma {:induction false} AcceptedOnce(accepted: seq<AcceptedBallot>, id: string)
    requires DistinctIds(AcceptedId, accepted)
    ensures AcceptedWith(accepted, id) == if id in Ids(AcceptedId, accepted) then 1 else 0
  {
    if accepted != [] {
      AcceptedOnce(Init(accepted), id);
    }
  }

  lemma ObjectionNeverDuplicate(b: EncryptedBallotEvent, rounds: seq<PS.Round>)
    ensures Objection(b, rounds) != Some(DuplicateEvent) && Objection(b, rounds) != Some(DuplicateToken)
  {
  }

  lemma {:induction false} DeliveriesPositive(events: seq<BallotEvent>, r: string)
    ensures DeliveriesIn(events, r) > 0 <==> RoundNamed(events, r)
  {
    if events != [] {
      SplitLast(events);
      DeliveriesPositive(Init(events), r);
      assert forall x :: x in events <==> x in Init(events) || x == Last(events);
    }
  }

  lemma {:induction false} CountedInside(accepted: seq<AcceptedBallot>, rejected: seq<RejectedBallot>, r: string)
    ensures AcceptedIn(accepted, r) > 0 <==> r in Ids(AcceptedRound, accepted)
    ensures RejectedIn(rejected, r) > 0 <==> r in Ids(RejectedRound, rejected)
    decreases |accepted| + |rejected|
  {
    if accepted != [] {
      CountedInside(Init(accepted), rejected, r);
    } else if rejected != [] {
      CountedInside(accepted, Init(rejected), r);
    }
  }

  /** The listed summaries are those of the rounds in ascending order. */
  lemma SummariesListed(acc: Acc, keys: seq<string>, i: nat)
    requires keys == Ascending(RoundsNamed(acc.accepted, acc.rejected))
    ensures |Finalize(acc).summaries| == |keys|
    ensures i < |keys| ==> Finalize(acc).summaries[i] == SummaryOf(acc.accepted, acc.rejected, keys[i])
  {
    var summaries := SummaryMap(acc.accepted, acc.rejected);
    assert summaries.Keys == RoundsNamed(acc.accepted, acc.rejected);
    if i < |keys| {
      assert keys[i] in keys;
    }
  }

  /** The summaries, by their round ids alone, are the named rounds in ascending order. */
  lemma SummaryIds(acc: Acc) returns (keys: seq<string>)
    ensures keys == Ascending(RoundsNamed(acc.accepted, acc.rejected)) && StrictlyAscending(keys)
    ensures |Finalize(acc).summaries| == |keys|
    ensures forall i :: 0 <= i < |keys| ==> Finalize(acc).summaries[i].roundId == keys[i]
  {
    keys := Ascending(RoundsNamed(acc.accepted, acc.rejected));
    AscendingSorted(RoundsNamed(acc.accepted, acc.rejected));
    SummariesListed(acc, keys, 0);
    forall i | 0 <= i < |keys| ensures Finalize(acc).summaries[i].roundId == keys[i] {
      SummariesListed(acc, keys, i);
    }
  }

  lemma NamedInside(events: seq<BallotEvent>, rounds: seq<PS.Round>, r: string)
    ensures var acc := Fold(events, rounds);
            RoundNamed(events, r) <==> r in RoundsNamed(acc.accepted, acc.rejected)
  {
    var acc := Fold(events, rounds);
    EveryDeliveryRecorded(events, rounds, r);
    DeliveriesPositive(events, r);
    CountedInside(acc.accepted, acc.rejected, r);
  }

  /** A summary for each round a ballot names, and no other. */
  lemma SummariesCover(events: seq<BallotEvent>, rounds: seq<PS.Round>, r: string)
    ensures RoundNamed(events, r) <==> Summarized(Finalize(Fold(events, rounds)).summaries, r)
  {
    var summaries := Finalize(Fold(events, rounds)).summaries;
    var keys := SummaryIds(Fold(events, rounds));
    NamedInside(events, rounds, r);
    assert RoundNamed(events, r) <==> r in keys;
  }

  ghost predicate Summarized(summaries: seq<RoundSummary>, r: string) {
    exists i :: 0 <= i < |summaries| && summaries[i].roundId == r
  }

  /** The summaries come in ascending order of round id, each round once. */
  lemma SummariesAscend(acc: Acc, i: nat, j: nat)
    requires i < j < |Finalize(acc).summaries|
    ensures StrLe(Finalize(acc).summaries[i].roundId, Finalize(acc).summaries[j].roundId)
    ensures Finalize(acc).summaries[i].roundId != Finalize(acc).summaries[j].roundId
  {
    var keys := SummaryIds(acc);
    assert keys[i] == Finalize(acc).summaries[i].roundId && keys[j] == Finalize(acc).summaries[j].roundId;
  }

  /** In each summary yes + no = accepted, and accepted + rejected = deliveries naming the round. */
  lemma SummariesBalance(events: seq<BallotEvent>, rounds: seq<PS.Round>, i: nat)
    requires i < |Finalize(Fold(events, rounds)).summaries|
    ensures var s := Finalize(Fold(events, rounds)).summaries[i];
            && s.yesCount + s.noCount == s.acceptedCount
            && s.acceptedCount + s.rejectedCount == DeliveriesIn(events, s.roundId)
            && s.acceptedCount == AcceptedIn(Fold(events, rounds).accepted, s.roundId)
  {
    var acc := Fold(events, rounds);
    var keys := Ascending(RoundsNamed(acc.accepted, acc.rejected));
    SummariesListed(acc, keys, i);
    EveryDeliveryRecorded(events, rounds, keys[i]);
  }

  // ----- verdicts -----

  /** The reason a ballot that is not accepted is turned away for, repeats aside. */
  function Reason(b: EncryptedBallotEvent, rounds: seq<PS.Round>): ValidationCode {
    if Passes(b, rounds) then DuplicateToken else Objection(b, rounds).value
  }

  ghost predicate Judged(acc: Acc, b: EncryptedBallotEvent, rounds: seq<PS.Round>) {
    || (Passes(b, rounds) && Acceptance(b) in acc.accepted)
    || Rejection(b, Reason(b, rounds)) in acc.rejected
  }

  lemma JudgedStays(acc: Acc, e: BallotEvent, b: EncryptedBallotEvent, rounds: seq<PS.Round>)
    requires Judged(acc, b, rounds)
    ensures Judged(Step(acc, e, rounds), b, rounds)
  {
  }

  lemma JudgedNow(acc: Acc, b: EncryptedBallotEvent, rounds: seq<PS.Round>)
    requires b.eventId !in acc.seen
    ensures Judged(BallotStep(acc, b, rounds), b, rounds)
  {
  }

  /** Every ballot delivered is accepted, or rejected for the first check it fails, or for its token. */
  lemma {:induction false} EveryBallotJudged(events: seq<BallotEvent>, rounds: seq<PS.Round>, e: BallotEvent)
    requires IdsIdentify(BallotId, events) && e in events && e.EncryptedBallot?
    ensures Judged(Fold(events, rounds), e.ballot, rounds)
  {
    SplitLast(events);
    var init, last := Init(events), Last(events);
    if e in init {
      EveryBallotJudged(init, rounds, e);
      JudgedStays(Fold(init, rounds), last, e.ballot, rounds);
    } else {
      SeenBefore(init, e, rounds);
      JudgedNow(Fold(init, rounds), e.ballot, rounds);
    }
  }

  // ----- quorum intersection -----

  /** Two ballots that pass in one round share at least 2t - n coordinators. */
  lemma QuorumsMeet(b: EncryptedBallotEvent, c: EncryptedBallotEvent, rounds: seq<PS.Round>)
    requires Passes(b, rounds) && Passes(c, rounds) && b.roundId == c.roundId
    ensures var found := PS.Find(rounds, b.roundId);
            && found.Some?
            && |Shares(b) * Shares(c)| >= 2 * found.value.thresholdT - |NameSet(found.value.roster)|
            && found.value.thresholdT <= |NameSet(found.value.roster)|
  {
    var round := PS.Find(rounds, b.roundId).value;
    var roster, s, t := NameSet(round.roster), Shares(b), Shares(c);
    assert s <= roster && t <= roster;
    assert s + t <= roster;
    SubsetSize(s + t, roster);
    SubsetSize(s, roster);
    assert |s + t| == |s| + |t| - |s * t|;
  }

  // ----- repeated deliveries -----

  /** The rejections for another reason than a repeated delivery. */
  function Genuine(rejected: seq<RejectedBallot>): seq<RejectedBallot> {
    if rejected == [] then [] else
      Genuine(Init(rejected)) + if Last(rejected).reason.code == DuplicateEvent then [] else [Last(rejected)]
  }

  lemma GenuineSnoc(rejected: seq<RejectedBallot>, b: EncryptedBallotEvent, code: ValidationCode)
    ensures Genuine(rejected + [Rejection(b, code)]) ==
              Genuine(rejected) + if code == DuplicateEvent then [] else [Rejection(b, code)]
    ensures Duplicates(rejected + [Rejection(b, code)]) == Duplicates(rejected) + if code == DuplicateEvent then 1 else 0
  {
    var all := rejected + [Rejection(b, code)];
    assert Init(all) == rejected && Last(all) == Rejection(b, code);
  }

  /** The two reducers agree but for repeated-delivery rejections. */
  ghost predicate SameButRepeats(once: Acc, acc: Acc) {
    && once.accepted == acc.accepted && once.tokens == acc.tokens && once.seen == acc.seen
    && once.rejected == Genuine(acc.rejected)
    && Duplicates(once.rejected) == 0
  }

  lemma RepeatStep(once: Acc, acc: Acc, e: BallotEvent, rounds: seq<PS.Round>)
    requires SameButRepeats(once, acc)
    requires e.EncryptedBallot? ==> e.ballot.eventId in acc.seen
    ensures SameButRepeats(once, Step(acc, e, rounds))
  {
    if e.EncryptedBallot? {
      assert acc.seen + {e.ballot.eventId} == acc.seen;
      GenuineSnoc(acc.rejected, e.ballot, DuplicateEvent);
    }
  }

  lemma NewStep(once: Acc, acc: Acc, e: BallotEvent, rounds: seq<PS.Round>)
    requires SameButRepeats(once, acc)
    requires e.EncryptedBallot? ==> e.ballot.eventId !in acc.seen
    ensures SameButRepeats(Step(once, e, rounds), Step(acc, e, rounds))
  {
    if e.EncryptedBallot? {
      ObjectionNeverDuplicate(e.ballot, rounds);
      var code := if Passes(e.ballot, rounds) then DuplicateToken else Objection(e.ballot, rounds).value;
      GenuineSnoc(acc.rejected, e.ballot, code);
      GenuineSnoc(once.rejected, e.ballot, code);
    }
  }

  /** Dropping repeated deliveries changes nothing but the rejections that report them. */
  lemma {:induction false} RepeatsOnlyReject(events: seq<BallotEvent>, rounds: seq<PS.Round>)
    requires IdsIdentify(BallotId, events)
    ensures SameButRepeats(Fold(Firsts(BallotId, {}, events), rounds), Fold(events, rounds))
  {
    if events != [] {
      SplitLast(events);
      var init, e := Init(events), Last(events);
      var firsts := Firsts(BallotId, {}, init);
      RepeatsOnlyReject(init, rounds);
      if e.EncryptedBallot? {
        SeenBefore(init, e, rounds);
      }
      if BallotId(e) in Ids(BallotId, init) {
        var x := IdsFrom(BallotId, init, BallotId(e));
        assert x == e && Firsts(BallotId, {}, events) == firsts;
        RepeatStep(Fold(firsts, rounds), Fold(init, rounds), e, rounds);
      } else {
        if e in init { IdsHas(BallotId, init, e); }
        assert Init(firsts + [e]) == firsts && Last(firsts + [e]) == e;
        NewStep(Fold(firsts, rounds), Fold(init, rounds), e, rounds);
      }
    }
  }
}
