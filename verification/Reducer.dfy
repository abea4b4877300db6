/**
 Deriving the election state from a list of events, and the engine that keeps the event log
 (`reducer.rs`, `snapshot.rs`, `versioning.rs`).
 */
module Reducer {
  import opened Wrappers
  import opened Order
  import opened Sorting
  import opened Events
  import opened Validation
  import PS = PublicState
  import BS = BallotState

  datatype DerivedState = DerivedState(
    electionId: string, publicState: PS.PublicState, ballotState: BS.BallotState, coordinatorEventCount: nat)

  // ----- derive_state -----

  function PublicsOf(events: seq<ProtocolEvent>): seq<PublicEvent> {
    if events == [] then [] else
      PublicsOf(Init(events)) + if Last(events).Public? then [Last(events).publicEvent] else []
  }

  function BallotsOf(events: seq<ProtocolEvent>): seq<BallotEvent> {
    if events == [] then [] else
      BallotsOf(Init(events)) + if Last(events).Ballot? then [Last(events).ballotEvent] else []
  }

  function CoordinatorCount(events: seq<ProtocolEvent>): nat {
    if events == [] then 0 else CoordinatorCount(Init(events)) + if Last(events).Coordinator? then 1 else 0
  }

  ghost predicate AllFrom(electionId: string, events: seq<ProtocolEvent>) {
    forall e :: e in events ==> ElectionId(e) == electionId
  }

  /** The state folded from events already in order: the ballots see the final public state. */
  function Derived(electionId: string, events: seq<ProtocolEvent>): DerivedState {
    var publicState := PS.Finalize(PS.Fold(electionId, PublicsOf(events)));
    DerivedState(electionId, publicState, BS.Finalize(BS.Fold(BallotsOf(events), publicState.rounds)),
                 CoordinatorCount(events))
  }

  ghost function Derive(electionId: string, events: seq<ProtocolEvent>): Result<DerivedState, ProtocolError> {
    if AllFrom(electionId, events) then Ok(Derived(electionId, Sort(EventKey, events))) else Err(WrongElectionError)
  }

  lemma PublicFoldNext(electionId: string, events: seq<ProtocolEvent>, i: nat)
    requires i < |events|
    ensures PS.Fold(electionId, PublicsOf(events[..i + 1])) ==
              if events[i].Public? then PS.Step(PS.Fold(electionId, PublicsOf(events[..i])), events[i].publicEvent)
              else PS.Fold(electionId, PublicsOf(events[..i]))
  {
    assert events[..i + 1] == events[..i] + [events[i]];
    ProjectSnoc(events[..i], events[i]);
    if events[i].Public? {
      assert Init(PublicsOf(events[..i]) + [events[i].publicEvent]) == PublicsOf(events[..i]);
    } else {
      assert PublicsOf(events[..i]) + [] == PublicsOf(events[..i]);
    }
  }

  lemma BallotFoldNext(events: seq<ProtocolEvent>, rounds: seq<PS.Round>, i: nat)
    requires i < |events|
    ensures BS.Fold(BallotsOf(events[..i + 1]), rounds) ==
              if events[i].Ballot? then BS.Step(BS.Fold(BallotsOf(events[..i]), rounds), events[i].ballotEvent, rounds)
              else BS.Fold(BallotsOf(events[..i]), rounds)
  {
    assert events[..i + 1] == events[..i] + [events[i]];
    ProjectSnoc(events[..i], events[i]);
    if events[i].Ballot? {
      assert Init(BallotsOf(events[..i]) + [events[i].ballotEvent]) == BallotsOf(events[..i]);
    } else {
      assert BallotsOf(events[..i]) + [] == BallotsOf(events[..i]);
    }
  }

  method FoldPublics(electionId: string, events: seq<ProtocolEvent>) returns (state: PS.PublicState)
    ensures state == PS.Finalize(PS.Fold(electionId, PublicsOf(events)))
  {
    var reducer := new PS.PublicStateReducer(electionId);
    for i := 0 to |events|
      invariant fresh(reducer) && reducer.Valid()
      invariant reducer.State() == PS.Fold(electionId, PublicsOf(events[..i]))
    {
      PublicFoldNext(electionId, events, i);
      if events[i].Public? {
        reducer.Apply(events[i].publicEvent);
      }
    }
    assert events[..|events|] == events;
    state := reducer.Finish();
    PS.ListedOnce(reducer.State(), state.rounds);
  }

  method FoldBallots(events: seq<ProtocolEvent>, publicState: PS.PublicState) returns (state: BS.BallotState)
    ensures state == BS.Finalize(BS.Fold(BallotsOf(events), publicState.rounds))
  {
    var reducer := new BS.BallotStateReducer();
    for i := 0 to |events|
      invariant fresh(reducer)
      invariant reducer.State() == BS.Fold(BallotsOf(events[..i]), publicState.rounds)
    {
      BallotFoldNext(events, publicState.rounds, i);
      if events[i].Ballot? {
        reducer.Apply(events[i].ballotEvent, publicState);
      }
    }
    assert events[..|events|] == events;
    state := reducer.Finish();
  }

  method DeriveState(electionId: string, events: seq<ProtocolEvent>) returns (result: Result<DerivedState, ProtocolError>)
    ensures result == Derive(electionId, events)
  {
    for i := 0 to |events|
      invariant AllFrom(electionId, events[..i])
    {
      if ElectionId(events[i]) != electionId {
        assert events[i] in events;
        return Err(WrongElectionError);
      }
    }
    var sorted := Sort(EventKey, events);
    var publicState := FoldPublics(electionId, sorted);
    var ballotState := FoldBallots(sorted, publicState);
    result := Ok(DerivedState(electionId, publicState, ballotState, CoordinatorCount(sorted)));
  }

  // ----- the log -----

  /** What a successful call leaves in the log: the events in order, each id once. */
  function LogOf(events: seq<ProtocolEvent>): seq<ProtocolEvent> {
    Firsts(EventId, {}, Sort(EventKey, events))
  }

  method DedupeByEventId(events: seq<ProtocolEvent>) returns (kept: seq<ProtocolEvent>)
    ensures kept == Firsts(EventId, {}, events)
  {
    var seen := {};
    kept := [];
    for i := 0 to |events|
      invariant seen == Ids(EventId, events[..i])
      invariant kept == Firsts(EventId, {}, events[..i])
    {
      var next := events[..i + 1];
      assert Init(next) == events[..i] && Last(next) == events[i];
      if EventId(events[i]) !in seen {
        seen := seen + {EventId(events[i])};
        kept := kept + [events[i]];
      } else {
        assert seen == seen + {EventId(events[i])};
      }
    }
    assert events[..|events|] == events;
  }

  // ----- snapshots -----

  const PROTOCOL_SNAPSHOT_VERSION: u32 := 1

  datatype ProtocolSnapshot = ProtocolSnapshot(
    schemaVersion: u32, electionId: string, events: seq<ProtocolEvent>, derivedState: DerivedState)

  datatype EngineError = IncompatibleSnapshotVersion(expected: u32, actual: u32)

  // ----- the engine -----

  class AuditableVotingProtocolEngine {
    const electionId: string
    var events: seq<ProtocolEvent>

    constructor (electionId: string)
      ensures this.electionId == electionId && events == []
    {
      this.electionId := electionId;
      events := [];
    }

    constructor FromSnapshot(snapshot: ProtocolSnapshot)
      ensures electionId == snapshot.electionId && events == snapshot.events
    {
      electionId := snapshot.electionId;
      events := snapshot.events;
    }

    static method Restore(snapshot: ProtocolSnapshot) returns (result: Result<AuditableVotingProtocolEngine, EngineError>)
      ensures result.Ok? <==> snapshot.schemaVersion == PROTOCOL_SNAPSHOT_VERSION == 1
      ensures result.Err? ==> result.error == IncompatibleSnapshotVersion(PROTOCOL_SNAPSHOT_VERSION, snapshot.schemaVersion)
      ensures result.Ok? ==> fresh(result.value)
      ensures result.Ok? ==> result.value.electionId == snapshot.electionId && result.value.events == snapshot.events
    {
      if snapshot.schemaVersion != PROTOCOL_SNAPSHOT_VERSION {
        return Err(IncompatibleSnapshotVersion(PROTOCOL_SNAPSHOT_VERSION, snapshot.schemaVersion));
      }
      var engine := new AuditableVotingProtocolEngine.FromSnapshot(snapshot);
      result := Ok(engine);
    }

    method ReplayAll(events: seq<ProtocolEvent>) returns (result: Result<DerivedState, ProtocolError>)
      modifies this
      ensures result == Derive(electionId, events)
      ensures this.events == if result.Ok? then LogOf(events) else events
    {
      this.events := events;
      result := Rederive();
    }

    method ApplyEvents(events: seq<ProtocolEvent>) returns (result: Result<DerivedState, ProtocolError>)
      modifies this
      ensures var appended := old(this.events) + events;
              && result == Derive(electionId, appended)
              && this.events == if result.Ok? then LogOf(appended) else appended
    {
      this.events := this.events + events;
      result := Rederive();
    }

    /** `derive_state`: on failure the log is left as it is, with the offending events in it. */
    method Rederive() returns (result: Result<DerivedState, ProtocolError>)
      modifies this
      ensures result == Derive(electionId, old(events))
      ensures events == if result.Ok? then LogOf(old(events)) else old(events)
    {
      result := DeriveState(electionId, events);
      if result.Ok? {
        events := Sort(EventKey, events);
        events := DedupeByEventId(events);
      }
    }

    method CurrentState() returns (result: Result<DerivedState, ProtocolError>)
      ensures result == Derive(electionId, events)
    {
      result := DeriveState(electionId, events);
    }

    method Snapshot() returns (result: Result<ProtocolSnapshot, ProtocolError>)
      ensures var derived := Derive(electionId, events);
              result == if derived.Ok? then Ok(ProtocolSnapshot(PROTOCOL_SNAPSHOT_VERSION, electionId, events, derived.value))
                        else Err(derived.error)
    {
      var derived := CurrentState();
      match derived {
        case Ok(state) => result := Ok(ProtocolSnapshot(PROTOCOL_SNAPSHOT_VERSION, electionId, events, state));
        case Err(error) => result := Err(error);
      }
    }
  }

  // ----- what the derivation depends on -----

  lemma {:induction false} PublicsOfHas(events: seq<ProtocolEvent>, p: PublicEvent)
    ensures p in PublicsOf(events) <==> Public(p) in events
  {
    if events != [] {
      SplitLast(events);
      PublicsOfHas(Init(events), p);
    }
  }

  lemma {:induction false} BallotsOfHas(events: seq<ProtocolEvent>, b: BallotEvent)
    ensures b in BallotsOf(events) <==> Ballot(b) in events
  {
    if events != [] {
      SplitLast(events);
      BallotsOfHas(Init(events), b);
    }
  }

  /** The count is of the places at which a coordinator event stands. */
  lemma {:induction false} CoordinatorsCounted(events: seq<ProtocolEvent>)
    ensures CoordinatorCount(events) == |set i | 0 <= i < |events| && events[i].Coordinator?|
  {
    if events != [] {
      var init, n := Init(events), |events| - 1;
      CoordinatorsCounted(init);
      var before := set i | 0 <= i < |init| && init[i].Coordinator?;
      var after := set i | 0 <= i < |events| && events[i].Coordinator?;
      OneMore(before, after, n, events[n].Coordinator?);
    }
  }

  lemma ProjectSnoc(events: seq<ProtocolEvent>, e: ProtocolEvent)
    ensures PublicsOf(events + [e]) == PublicsOf(events) + if e.Public? then [e.publicEvent] else []
    ensures BallotsOf(events + [e]) == BallotsOf(events) + if e.Ballot? then [e.ballotEvent] else []
    ensures CoordinatorCount(events + [e]) == CoordinatorCount(events) + if e.Coordinator? then 1 else 0
  {
    assert Init(events + [e]) == events && Last(events + [e]) == e;
  }

  lemma {:induction false} InsertPublic(events: seq<ProtocolEvent>, e: ProtocolEvent)
    requires Sorted(EventKey, events)
    ensures PublicsOf(Insert(EventKey, events, e)) ==
              if e.Public? then Insert(PublicKey, PublicsOf(events), e.publicEvent) else PublicsOf(events)
  {
    var publics := PublicsOf(events);
    if events == [] || KeyLe(EventKey(Last(events)), EventKey(e)) {
      ProjectSnoc(events, e);
      if e.Public? && publics != [] {
        PublicsOfHas(events, Last(publics));
        BelowLast(events, Public(Last(publics)), e);
      }
    } else {
      var init, last := Init(events), Last(events);
      InsertPublic(init, e);
      ProjectSnoc(Insert(EventKey, init, e), last);
      if last.Public? {
        assert publics == PublicsOf(init) + [last.publicEvent];
        assert Init(publics) == PublicsOf(init) && Last(publics) == last.publicEvent;
      } else {
        assert publics == PublicsOf(init);
      }
    }
  }

  lemma {:induction false} InsertBallot(events: seq<ProtocolEvent>, e: ProtocolEvent)
    requires Sorted(EventKey, events)
    ensures BallotsOf(Insert(EventKey, events, e)) ==
              if e.Ballot? then Insert(BallotKey, BallotsOf(events), e.ballotEvent) else BallotsOf(events)
  {
    var ballots := BallotsOf(events);
    if events == [] || KeyLe(EventKey(Last(events)), EventKey(e)) {
      ProjectSnoc(events, e);
      if e.Ballot? && ballots != [] {
        BallotsOfHas(events, Last(ballots));
        BelowLast(events, Ballot(Last(ballots)), e);
      }
    } else {
      var init, last := Init(events), Last(events);
      InsertBallot(init, e);
      ProjectSnoc(Insert(EventKey, init, e), last);
      if last.Ballot? {
        assert ballots == BallotsOf(init) + [last.ballotEvent];
        assert Init(ballots) == BallotsOf(init) && Last(ballots) == last.ballotEvent;
      } else {
        assert ballots == BallotsOf(init);
      }
    }
  }

  lemma {:induction false} InsertCount(events: seq<ProtocolEvent>, e: ProtocolEvent)
    ensures CoordinatorCount(Insert(EventKey, events, e)) == CoordinatorCount(events) + if e.Coordinator? then 1 else 0
  {
    if events == [] || KeyLe(EventKey(Last(events)), EventKey(e)) {
      ProjectSnoc(events, e);
    } else {
      InsertCount(Init(events), e);
      ProjectSnoc(Insert(EventKey, Init(events), e), Last(events));
    }
  }

  lemma BelowLast(events: seq<ProtocolEvent>, x: ProtocolEvent, e: ProtocolEvent)
    requires Sorted(EventKey, events) && x in events && KeyLe(EventKey(Last(events)), EventKey(e))
    ensures KeyLe(EventKey(x), EventKey(e))
  {
    KeyOrderIsTotal(EventKey(x), EventKey(Last(events)), EventKey(e));
    KeyOrderIsTotal(EventKey(x), EventKey(x), EventKey(x));
  }

  lemma {:induction false} PublicsSortApart(events: seq<ProtocolEvent>)
    ensures PublicsOf(Sort(EventKey, events)) == Sort(PublicKey, PublicsOf(events))
  {
    if events != [] {
      var init, e := Init(events), Last(events);
      PublicsSortApart(init);
      SortSorted(EventKey, init);
      InsertPublic(Sort(EventKey, init), e);
      var publics := PublicsOf(init);
      if e.Public? {
        assert PublicsOf(events) == publics + [e.publicEvent];
        assert Init(publics + [e.publicEvent]) == publics;
      } else {
        assert PublicsOf(events) == publics;
      }
    }
  }

  lemma {:induction false} BallotsSortApart(events: seq<ProtocolEvent>)
    ensures BallotsOf(Sort(EventKey, events)) == Sort(BallotKey, BallotsOf(events))
  {
    if events != [] {
      var init, e := Init(events), Last(events);
      BallotsSortApart(init);
      SortSorted(EventKey, init);
      InsertBallot(Sort(EventKey, init), e);
      var ballots := BallotsOf(init);
      if e.Ballot? {
        assert BallotsOf(events) == ballots + [e.ballotEvent];
        assert Init(ballots + [e.ballotEvent]) == ballots;
      } else {
        assert BallotsOf(events) == ballots;
      }
    }
  }

  lemma {:induction false} CountSortsApart(events: seq<ProtocolEvent>)
    ensures CoordinatorCount(Sort(EventKey, events)) == CoordinatorCount(events)
  {
    if events != [] {
      CountSortsApart(Init(events));
      InsertCount(Sort(EventKey, Init(events)), Last(events));
    }
  }

  /** Sorting the whole log sorts each plane: the planes do not disturb one another. */
  lemma PlanesSortApart(events: seq<ProtocolEvent>)
    ensures PublicsOf(Sort(EventKey, events)) == Sort(PublicKey, PublicsOf(events))
    ensures BallotsOf(Sort(EventKey, events)) == Sort(BallotKey, BallotsOf(events))
    ensures CoordinatorCount(Sort(EventKey, events)) == CoordinatorCount(events)
  {
    PublicsSortApart(events);
    BallotsSortApart(events);
    CountSortsApart(events);
  }

  /**
   How the planes are interleaved is irrelevant, and coordinator events matter only by their number:
   lists with the same public events, the same ballots and as many coordinator events derive alike.
   */
  lemma InterleavingIrrelevant(electionId: string, xs: seq<ProtocolEvent>, ys: seq<ProtocolEvent>)
    requires AllFrom(electionId, xs) && AllFrom(electionId, ys)
    requires PublicsOf(xs) == PublicsOf(ys) && BallotsOf(xs) == BallotsOf(ys)
    requires CoordinatorCount(xs) == CoordinatorCount(ys)
    ensures Derive(electionId, xs) == Derive(electionId, ys)
  {
    PlanesSortApart(xs);
    PlanesSortApart(ys);
  }

  /** Any permutation of the input derives the same result when keys identify events. */
  lemma DeriveIgnoresOrder(electionId: string, xs: seq<ProtocolEvent>, ys: seq<ProtocolEvent>)
    requires multiset(xs) == multiset(ys)
    requires KeysIdentify(EventKey, xs)
    ensures Derive(electionId, xs) == Derive(electionId, ys)
  {
    SameElements(xs, ys);
    SortIgnoresOrder(EventKey, xs, ys);
  }
}
