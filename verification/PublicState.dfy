/**
 The public round state machine (`public_state.rs`): a reducer object whose fields each event
 updates in place, and the step function it is proved against.
 */
module PublicState {
  import opened Wrappers
  import opened Order
  import opened Sorting
  import opened Events
  import opened Validation

  datatype Phase = Draft | Open | Closed | Tallied | Published | Disputed

  datatype DerivedReceipt = DerivedReceipt(
    electionId: string, roundId: string, ballotCommitment: string, receiptHash: string, acceptedAt: i64)

  datatype PublishedResult = PublishedResult(
    eventId: string, yesCount: u32, noCount: u32, tallyInputHash: string, createdAt: i64)

  datatype Round = Round(
    roundId: string,
    prompt: string,
    thresholdT: u32,
    thresholdN: u32,
    roster: seq<string>,
    phase: Phase,
    definedAt: i64,
    openedAt: Option<i64>,
    closedAt: Option<i64>,
    receipts: seq<DerivedReceipt>,
    finalResult: Option<PublishedResult>,
    disputes: seq<string>)

  datatype PublicState = PublicState(
    electionId: string, electionTitle: Option<string>, rounds: seq<Round>, issues: seq<ValidationIssue>)

  // ----- the step function -----

  /** The reducer's fields as a value. */
  datatype Acc = Acc(
    electionId: string, electionTitle: Option<string>, rounds: map<string, Round>, issues: seq<ValidationIssue>)

  function Min(a: i64, b: i64): i64 {
    if a <= b then a else b
  }

  function EarliestOf(current: Option<i64>, at: i64): Option<i64> {
    Some(if current.Some? then Min(current.value, at) else at)
  }

  /** `entry(..).or_insert_with(..)` */
  function Entry(rounds: map<string, Round>, r: string, initial: Round): Round {
    if r in rounds then rounds[r] else initial
  }

  function RoundFromDefinition(d: RoundDefinitionEvent): Round {
    Round(d.roundId, d.prompt, d.thresholdT, d.thresholdN, d.roster, Draft, d.createdAt, None, None, [], None, [])
  }

  function Redefined(round: Round, d: RoundDefinitionEvent): Round {
    round.(prompt := d.prompt, thresholdT := d.thresholdT, thresholdN := d.thresholdN, roster := d.roster,
           definedAt := Min(round.definedAt, d.createdAt))
  }

  /** `roster.len().max(1) as u32`: the cast wraps. */
  function DefaultThresholdN(roster: seq<string>): u32 {
    (if |roster| == 0 then 1 else |roster|) % 0x1_0000_0000
  }

  function RoundFromOpen(o: RoundLifecycleEvent): Round {
    Round(o.roundId, o.prompt.GetOr(""), o.thresholdT.GetOr(1), o.thresholdN.GetOr(DefaultThresholdN(o.roster)),
          o.roster, Draft, o.createdAt, None, None, [], None, [])
  }

  function Opened(round: Round, o: RoundLifecycleEvent): Round {
    round.(prompt := o.prompt.GetOr(round.prompt),
           thresholdT := o.thresholdT.GetOr(round.thresholdT),
           thresholdN := o.thresholdN.GetOr(round.thresholdN),
           roster := if o.roster == [] then round.roster else o.roster,
           phase := Open,
           openedAt := EarliestOf(round.openedAt, o.createdAt))
  }

  function ClosedBy(round: Round, c: RoundLifecycleEvent): Round {
    round.(phase := Closed, closedAt := EarliestOf(round.closedAt, c.createdAt))
  }

  function ReceiptOf(e: BallotReceiptEvent): DerivedReceipt {
    DerivedReceipt(e.electionId, e.roundId, e.ballotCommitment, e.receiptHash, e.acceptedAt)
  }

  function ResultOf(e: FinalResultEvent): PublishedResult {
    PublishedResult(e.eventId, e.yesCount, e.noCount, e.tallyInputHash, e.createdAt)
  }

  function Contradiction(o: RoundLifecycleEvent): ValidationIssue {
    ValidationIssue(ContradictoryRoundState, "round opened after closure", Some(o.eventId))
  }

  /** The issue a close, receipt, result or dispute leaves when it names no known round. */
  function Stray(e: PublicEvent): ValidationIssue
    requires e.RoundClose? || e.BallotReceipt? || e.FinalResult? || e.DisputeRecord?
  {
    ValidationIssue(UnknownRound,
                    match e {
                      case RoundClose(_) => "round close references an unknown round"
                      case BallotReceipt(_) => "receipt references an unknown round"
                      case FinalResult(_) => "result references an unknown round"
                      case DisputeRecord(_) => "dispute references an unknown round"
                    },
                    Some(e.EventId()))
  }

  function OpenStep(acc: Acc, o: RoundLifecycleEvent): Acc {
    var round := Entry(acc.rounds, o.roundId, RoundFromOpen(o));
    if round.closedAt.None? then
      acc.(rounds := acc.rounds[o.roundId := Opened(round, o)])
    else if o.createdAt >= round.closedAt.value then
      acc.(issues := acc.issues + [Contradiction(o)])
    else
      acc.(rounds := acc.rounds[o.roundId := Opened(round, o)], issues := acc.issues + [Contradiction(o)])
  }

  function Step(acc: Acc, e: PublicEvent): Acc {
    match e
    case ElectionDefinition(d) => acc.(electionTitle := Some(d.title))
    case RoundDefinition(d) =>
      acc.(rounds := acc.rounds[d.roundId := Redefined(Entry(acc.rounds, d.roundId, RoundFromDefinition(d)), d)])
    case RoundOpen(o) => OpenStep(acc, o)
    case RoundClose(c) =>
      if c.roundId !in acc.rounds then acc.(issues := acc.issues + [Stray(e)])
      else acc.(rounds := acc.rounds[c.roundId := ClosedBy(acc.rounds[c.roundId], c)])
    case BallotReceipt(b) =>
      if b.roundId !in acc.rounds then acc.(issues := acc.issues + [Stray(e)])
      else
        var round := acc.rounds[b.roundId];
        acc.(rounds := acc.rounds[b.roundId := round.(receipts := round.receipts + [ReceiptOf(b)])])
    case FinalResult(f) =>
      if f.roundId !in acc.rounds then acc.(issues := acc.issues + [Stray(e)])
      else
        var round := acc.rounds[f.roundId];
        acc.(rounds := acc.rounds[f.roundId := round.(phase := Published, finalResult := Some(ResultOf(f)))])
    case DisputeRecord(d) =>
      if d.roundId.None? || d.roundId.value !in acc.rounds then acc.(issues := acc.issues + [Stray(e)])
      else
        var round := acc.rounds[d.roundId.value];
        acc.(rounds := acc.rounds[d.roundId.value := round.(phase := Disputed, disputes := round.disputes + [d.reason])])
  }

  function Start(electionId: string): Acc {
    Acc(electionId, None, map[], [])
  }

  /** The state after the events in turn. */
  function Fold(electionId: string, events: seq<PublicEvent>): Acc {
    if events == [] then Start(electionId) else Step(Fold(electionId, Init(events)), Last(events))
  }

  // ----- finalize -----

  /** Most recently anchored first, ties by round id. */
  function RoundKey(round: Round): Key {
    var anchor := if round.openedAt.Some? then round.openedAt.value else round.closedAt.GetOr(round.definedAt);
    Key(0, 0, -anchor, round.roundId)
  }

  /** `into_values()`: the values in key order. */
  function Values<T>(m: map<string, T>, keys: seq<string>): seq<T>
    requires forall k :: k in keys ==> k in m
  {
    seq(|keys|, i requires 0 <= i < |keys| => m[keys[i]])
  }

  function Finalize(acc: Acc): PublicState {
    PublicState(acc.electionId, acc.electionTitle, Sort(RoundKey, Values(acc.rounds, Ascending(acc.rounds.Keys))),
                acc.issues)
  }

  /** `rounds.iter().find(|round| round.round_id == id)` */
  function Find(rounds: seq<Round>, r: string): Option<Round> {
    if rounds == [] then None else if rounds[0].roundId == r then Some(rounds[0]) else Find(rounds[1..], r)
  }

  lemma {:induction false} FindFinds(rounds: seq<Round>, r: string)
    ensures Find(rounds, r).Some? ==> Find(rounds, r).value in rounds && Find(rounds, r).value.roundId == r
    ensures Find(rounds, r).None? ==> forall round :: round in rounds ==> round.roundId != r
  {
    if rounds != [] && rounds[0].roundId != r {
      FindFinds(rounds[1..], r);
    }
  }

  /** Every round is filed under its own id. */
  ghost predicate Filed(rounds: map<string, Round>) {
    forall r :: r in rounds ==> rounds[r].roundId == r
  }

  lemma StepFiled(acc: Acc, e: PublicEvent)
    requires Filed(acc.rounds)
    ensures Filed(Step(acc, e).rounds)
    ensures Step(acc, e).electionId == acc.electionId
  {
  }

  lemma {:induction false} FoldFiled(electionId: string, events: seq<PublicEvent>)
    ensures Filed(Fold(electionId, events).rounds)
    ensures Fold(electionId, events).electionId == electionId
  {
    if events != [] {
      FoldFiled(electionId, Init(events));
      StepFiled(Fold(electionId, Init(events)), Last(events));
    }
  }

  lemma FinalizeHas(acc: Acc, round: Round)
    requires Filed(acc.rounds)
    ensures round in Finalize(acc).rounds <==> round.roundId in acc.rounds && acc.rounds[round.roundId] == round
  {
    var keys := Ascending(acc.rounds.Keys);
    var values := Values(acc.rounds, keys);
    SortElements(RoundKey, values);
    if round in Finalize(acc).rounds {
      assert round in values;
      var i :| 0 <= i < |values| && values[i] == round;
      assert keys[i] in keys;
    }
    if round.roundId in acc.rounds && acc.rounds[round.roundId] == round {
      assert round.roundId in keys;
      var i :| 0 <= i < |keys| && keys[i] == round.roundId;
      assert values[i] == round;
    }
  }

  /** The listed rounds are exactly those in the map: looking one up by id finds what was filed there. */
  lemma FinalizeLists(acc: Acc, r: string)
    requires Filed(acc.rounds)
    ensures Find(Finalize(acc).rounds, r) == if r in acc.rounds then Some(acc.rounds[r]) else None
  {
    var found := Find(Finalize(acc).rounds, r);
    FindFinds(Finalize(acc).rounds, r);
    if found.Some? {
      FinalizeHas(acc, found.value);
    } else if r in acc.rounds {
      FinalizeHas(acc, acc.rounds[r]);
    }
  }

  function RoundId(round: Round): string {
    round.roundId
  }

  lemma IdsAreKeys(acc: Acc)
    requires Filed(acc.rounds)
    ensures Ids(RoundId, Finalize(acc).rounds) == acc.rounds.Keys
  {
    var rounds := Finalize(acc).rounds;
    forall r ensures r in Ids(RoundId, rounds) <==> r in acc.rounds.Keys {
      if r in Ids(RoundId, rounds) {
        var round := IdsFrom(RoundId, rounds, r);
        FinalizeHas(acc, round);
      }
      if r in acc.rounds.Keys {
        FinalizeHas(acc, acc.rounds[r]);
        IdsHas(RoundId, rounds, acc.rounds[r]);
      }
    }
  }

  lemma FinalizeOrdered(acc: Acc)
    requires Filed(acc.rounds)
    ensures StrictlySorted(RoundKey, Finalize(acc).rounds)
  {
    var values := Values(acc.rounds, Ascending(acc.rounds.Keys));
    SortSorted(RoundKey, values);
    SortElements(RoundKey, values);
    AscendingSize(acc.rounds.Keys);
    IdsAreKeys(acc);
    IdsCount(RoundId, Finalize(acc).rounds);
    assert |Finalize(acc).rounds| == |acc.rounds.Keys|;
    DistinctSortedStrict(RoundKey, RoundId, Finalize(acc).rounds);
  }

  /** What listing the rounds means: each filed round once, in strict order, and nothing else. */
  ghost predicate ListsInOrder(listed: seq<Round>, rounds: map<string, Round>) {
    && StrictlySorted(RoundKey, listed)
    && forall round :: round in listed <==> round.roundId in rounds && rounds[round.roundId] == round
  }

  /** There is one such list: the one the step function's `Finalize` gives. */
  lemma ListedOnce(acc: Acc, listed: seq<Round>)
    requires Filed(acc.rounds)
    ensures listed == Finalize(acc).rounds <==> ListsInOrder(listed, acc.rounds)
  {
    FinalizeOrdered(acc);
    forall round ensures round in Finalize(acc).rounds <==> round.roundId in acc.rounds && acc.rounds[round.roundId] == round {
      FinalizeHas(acc, round);
    }
    if ListsInOrder(listed, acc.rounds) {
      StrictlySortedUnique(RoundKey, listed, Finalize(acc).rounds);
    }
  }

  // ----- the reducer -----

  class PublicStateReducer {
    const electionId: string
    var electionTitle: Option<string>
    var rounds: map<string, Round>
    var issues: seq<ValidationIssue>

    ghost function State(): Acc
      reads this
    {
      Acc(electionId, electionTitle, rounds, issues)
    }

    ghost predicate Valid()
      reads this
    {
      Filed(rounds)
    }

    constructor (electionId: string)
      ensures Valid() && State() == Start(electionId)
    {
      this.electionId := electionId;
      electionTitle := None;
      rounds := map[];
      issues := [];
    }

    method Apply(e: PublicEvent)
      requires Valid()
      modifies this
      ensures Valid() && State() == Step(old(State()), e)
    {
      StepFiled(State(), e);
      match e {
        case ElectionDefinition(d) => electionTitle := Some(d.title);
        case RoundDefinition(d) => ApplyRoundDefinition(d);
        case RoundOpen(o) => ApplyRoundOpen(o);
        case RoundClose(c) => ApplyRoundClose(c);
        case BallotReceipt(b) => ApplyBallotReceipt(b);
        case FinalResult(f) => ApplyFinalResult(f);
        case DisputeRecord(d) => ApplyDispute(d);
      }
    }

    method ApplyRoundDefinition(d: RoundDefinitionEvent)
      modifies this
      ensures State() == Step(old(State()), RoundDefinition(d))
    {
      if d.roundId !in rounds {
        rounds := rounds[d.roundId := RoundFromDefinition(d)];
      }
      var round := rounds[d.roundId];
      round := round.(prompt := d.prompt);
      round := round.(thresholdT := d.thresholdT);
      round := round.(thresholdN := d.thresholdN);
      round := round.(roster := d.roster);
      round := round.(definedAt := Min(round.definedAt, d.createdAt));
      rounds := rounds[d.roundId := round];
      assert rounds == old(State().rounds)[d.roundId := round];
    }

    method ApplyRoundOpen(o: RoundLifecycleEvent)
      modifies this
      ensures State() == Step(old(State()), RoundOpen(o))
    {
      if o.roundId !in rounds {
        rounds := rounds[o.roundId := RoundFromOpen(o)];
      }
      var round := rounds[o.roundId];
      if round.closedAt.Some? {
        issues := issues + [Contradiction(o)];
        if o.createdAt >= round.closedAt.value {
          return;
        }
      }
      if o.prompt.Some? { round := round.(prompt := o.prompt.value); }
      if o.thresholdT.Some? { round := round.(thresholdT := o.thresholdT.value); }
      if o.thresholdN.Some? { round := round.(thresholdN := o.thresholdN.value); }
      if o.roster != [] { round := round.(roster := o.roster); }
      round := round.(phase := Open);
      round := round.(openedAt := EarliestOf(round.openedAt, o.createdAt));
      rounds := rounds[o.roundId := round];
      assert rounds == old(State().rounds)[o.roundId := round];
    }

    method ApplyRoundClose(c: RoundLifecycleEvent)
      modifies this
      ensures State() == Step(old(State()), RoundClose(c))
    {
      if c.roundId !in rounds {
        issues := issues + [Stray(RoundClose(c))];
        return;
      }
      var round := rounds[c.roundId];
      round := round.(phase := Closed);
      round := round.(closedAt := EarliestOf(round.closedAt, c.createdAt));
      rounds := rounds[c.roundId := round];
    }

    method ApplyBallotReceipt(b: BallotReceiptEvent)
      modifies this
      ensures State() == Step(old(State()), BallotReceipt(b))
    {
      if b.roundId !in rounds {
        issues := issues + [Stray(BallotReceipt(b))];
        return;
      }
      var round := rounds[b.roundId];
      rounds := rounds[b.roundId := round.(receipts := round.receipts + [ReceiptOf(b)])];
    }

    method ApplyFinalResult(f: FinalResultEvent)
      modifies this
      ensures State() == Step(old(State()), FinalResult(f))
      ensures f.roundId in old(rounds) ==>
                var result := rounds[f.roundId].finalResult;
                && result.Some? && result.value.eventId == f.eventId && result.value.yesCount == f.yesCount
                && result.value.noCount == f.noCount && result.value.tallyInputHash == f.tallyInputHash
                && result.value.createdAt == f.createdAt && rounds[f.roundId].phase == Published
    {
      if f.roundId !in rounds {
        issues := issues + [Stray(FinalResult(f))];
        return;
      }
      var round := rounds[f.roundId];
      round := round.(phase := Published);
      round := round.(finalResult := Some(ResultOf(f)));
      rounds := rounds[f.roundId := round];
    }

    method ApplyDispute(d: DisputeRecordEvent)
      modifies this
      ensures State() == Step(old(State()), DisputeRecord(d))
    {
      if d.roundId.Some? && d.roundId.value in rounds {
        var round := rounds[d.roundId.value];
        round := round.(phase := Disputed);
        round := round.(disputes := round.disputes + [d.reason]);
        rounds := rounds[d.roundId.value := round];
        return;
      }
      issues := issues + [Stray(DisputeRecord(d))];
    }

    /** Lists each round once: the most recently opened (or closed, or defined) first, ties by id. */
    method Finish() returns (state: PublicState)
      requires Valid()
      ensures state.electionId == electionId && state.electionTitle == electionTitle && state.issues == issues
      ensures ListsInOrder(state.rounds, rounds)
    {
      var values := Values(rounds, Ascending(rounds.Keys));
      state := PublicState(electionId, electionTitle, Sort(RoundKey, values), issues);
      ListedOnce(State(), state.rounds);
    }
  }
}
