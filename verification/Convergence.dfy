/**
 The event log behaves like a grow-only set: whatever the order, batching and repetition of the
 deliveries, a log that a call accepted is the canonical form of everything delivered.
 */
module Convergence {
  import opened Wrappers
  import opened Order
  import opened Sorting
  import opened Events
  import opened Validation
  import opened Reducer

  // ----- the event that stands for an id -----

  function Better(a: Option<ProtocolEvent>, b: Option<ProtocolEvent>): Option<ProtocolEvent> {
    if b.None? then a
    else if a.None? || KeyLt(EventKey(b.value), EventKey(a.value)) then b
    else a
  }

  function Candidate(e: ProtocolEvent, id: string): Option<ProtocolEvent> {
    if EventId(e) == id then Some(e) else None
  }

  /** The event with this id and the least key; of several with that key, the one delivered first. */
  function Representative(events: seq<ProtocolEvent>, id: string): Option<ProtocolEvent> {
    if events == [] then None else Better(Representative(Init(events), id), Candidate(Last(events), id))
  }

  lemma BetterAssociative(a: Option<ProtocolEvent>, b: Option<ProtocolEvent>, c: Option<ProtocolEvent>)
    ensures Better(Better(a, b), c) == Better(a, Better(b, c))
  {
    if a.Some? && b.Some? && c.Some? {
      var ka, kb, kc := EventKey(a.value), EventKey(b.value), EventKey(c.value);
      KeyOrderIsTotal(ka, kb, kc);
      KeyOrderIsTotal(kb, kc, ka);
      KeyOrderIsTotal(kc, kb, ka);
      KeyOrderIsTotal(kb, ka, kc);
      KeyOrderIsTotal(kc, ka, kb);
    }
  }

  lemma {:induction false} RepresentativeAppend(xs: seq<ProtocolEvent>, ys: seq<ProtocolEvent>, id: string)
    ensures Representative(xs + ys, id) == Better(Representative(xs, id), Representative(ys, id))
  {
    if ys == [] {
      assert xs + ys == xs;
    } else {
      assert Init(xs + ys) == xs + Init(ys) && Last(xs + ys) == Last(ys);
      RepresentativeAppend(xs, Init(ys), id);
      BetterAssociative(Representative(xs, id), Representative(Init(ys), id), Candidate(Last(ys), id));
    }
  }

  lemma RepresentativeSnoc(xs: seq<ProtocolEvent>, e: ProtocolEvent, id: string)
    ensures Representative(xs + [e], id) == Better(Representative(xs, id), Candidate(e, id))
  {
    assert Init(xs + [e]) == xs;
  }

  lemma {:induction false} RepresentativeInsert(ys: seq<ProtocolEvent>, e: ProtocolEvent, id: string)
    ensures Representative(Insert(EventKey, ys, e), id) == Representative(ys + [e], id)
  {
    if ys != [] && !KeyLe(EventKey(Last(ys)), EventKey(e)) {
      var init, last := Init(ys), Last(ys);
      RepresentativeInsert(init, e, id);
      RepresentativeSnoc(Insert(EventKey, init, e), last, id);
      RepresentativeSnoc(init, e, id);
      RepresentativeSnoc(ys, e, id);
      var r, a, b := Representative(init, id), Candidate(e, id), Candidate(last, id);
      BetterAssociative(r, a, b);
      BetterAssociative(r, b, a);
      KeyOrderIsTotal(EventKey(last), EventKey(e), EventKey(e));
      KeyOrderIsTotal(EventKey(e), EventKey(last), EventKey(e));
    }
  }

  lemma {:induction false} RepresentativeSort(xs: seq<ProtocolEvent>, id: string)
    ensures Representative(Sort(EventKey, xs), id) == Representative(xs, id)
  {
    if xs != [] {
      RepresentativeSort(Init(xs), id);
      RepresentativeInsert(Sort(EventKey, Init(xs)), Last(xs), id);
      RepresentativeSnoc(Sort(EventKey, Init(xs)), Last(xs), id);
    }
  }

  /** The representative is a least event of its id, and there is one whenever the id was delivered. */
  lemma {:induction false} RepresentativeLeast(xs: seq<ProtocolEvent>, id: string)
    ensures match Representative(xs, id) {
              case None => id !in Ids(EventId, xs)
              case Some(e) => Least(xs, e) && EventId(e) == id
            }
  {
    if xs != [] {
      var init, x := Init(xs), Last(xs);
      SplitLast(xs);
      RepresentativeLeast(init, id);
      var before, now := Representative(init, id), Representative(xs, id);
      KeyOrderIsTotal(EventKey(x), EventKey(x), EventKey(x));
      forall f | f in xs && now.Some? && EventId(f) == id ensures KeyLe(EventKey(now.value), EventKey(f)) {
        if before.Some? {
          KeyOrderIsTotal(EventKey(now.value), EventKey(before.value), EventKey(f));
          KeyOrderIsTotal(EventKey(x), EventKey(before.value), EventKey(x));
          KeyOrderIsTotal(EventKey(before.value), EventKey(x), EventKey(x));
        } else if f in init {
          IdsHas(EventId, init, f);
        }
      }
    }
  }

  /** `e` was delivered, and no event with its id has a smaller key. */
  ghost predicate Least(events: seq<ProtocolEvent>, e: ProtocolEvent) {
    && e in events
    && forall f :: f in events && EventId(f) == EventId(e) ==> KeyLe(EventKey(e), EventKey(f))
  }

  lemma {:induction false} RepresentativeFirsts(xs: seq<ProtocolEvent>, id: string)
    requires Sorted(EventKey, xs)
    ensures Representative(Firsts(EventId, {}, xs), id) == Representative(xs, id)
  {
    if xs != [] {
      var init, x := Init(xs), Last(xs);
      SplitLast(xs);
      RepresentativeFirsts(init, id);
      RepresentativeLeast(init, id);
      if EventId(x) in Ids(EventId, init) {
        assert Firsts(EventId, {}, xs) == Firsts(EventId, {}, init);
        if EventId(x) == id {
          var first := Representative(init, id).value;
          var i :| 0 <= i < |init| && init[i] == first;
          assert xs[i] == first;
          KeyOrderIsTotal(EventKey(first), EventKey(x), EventKey(x));
          KeyOrderIsTotal(EventKey(x), EventKey(first), EventKey(x));
        }
      } else {
        RepresentativeSnoc(Firsts(EventId, {}, init), x, id);
      }
    }
  }

  lemma {:induction false} DistinctRepresentatives(xs: seq<ProtocolEvent>, e: ProtocolEvent)
    requires DistinctIds(EventId, xs)
    ensures e in xs <==> Representative(xs, EventId(e)) == Some(e)
  {
    if xs != [] {
      SplitLast(xs);
      DistinctRepresentatives(Init(xs), e);
      RepresentativeLeast(Init(xs), EventId(e));
      if e in Init(xs) {
        IdsHas(EventId, Init(xs), e);
      }
      if EventId(Last(xs)) == EventId(e) && Representative(Init(xs), EventId(e)).Some? {
        IdsHas(EventId, Init(xs), Representative(Init(xs), EventId(e)).value);
      }
    }
  }

  // ----- the canonical log -----

  /** A strictly sorted log with each id once, holding a least delivered event for every id. */
  ghost predicate Canonical(log: seq<ProtocolEvent>, delivered: seq<ProtocolEvent>) {
    && StrictlySorted(EventKey, log)
    && DistinctIds(EventId, log)
    && (forall e :: e in log ==> Least(delivered, e))
    && Ids(EventId, log) == Ids(EventId, delivered)
  }

  lemma LogElements(xs: seq<ProtocolEvent>, e: ProtocolEvent)
    ensures e in LogOf(xs) <==> Representative(xs, EventId(e)) == Some(e)
    ensures Representative(LogOf(xs), EventId(e)) == Representative(xs, EventId(e))
  {
    SortSorted(EventKey, xs);
    FirstsDistinct(EventId, {}, Sort(EventKey, xs));
    DistinctRepresentatives(LogOf(xs), e);
    RepresentativeFirsts(Sort(EventKey, xs), EventId(e));
    RepresentativeSort(xs, EventId(e));
  }

  lemma LogStrict(xs: seq<ProtocolEvent>)
    ensures StrictlySorted(EventKey, LogOf(xs)) && DistinctIds(EventId, LogOf(xs)) && Sorted(EventKey, LogOf(xs))
  {
    var sorted := Sort(EventKey, xs);
    SortSorted(EventKey, xs);
    FirstsDistinct(EventId, {}, sorted);
    FirstsSorted(EventKey, EventId, {}, sorted);
    DistinctSortedStrict(EventKey, EventId, LogOf(xs));
  }

  /** A call that succeeds leaves a canonical log. */
  lemma LogIsCanonical(xs: seq<ProtocolEvent>)
    ensures Canonical(LogOf(xs), xs)
  {
    LogStrict(xs);
    forall e | e in LogOf(xs) ensures Least(xs, e) {
      LogElements(xs, e);
      RepresentativeLeast(xs, EventId(e));
    }
    FirstsDistinct(EventId, {}, Sort(EventKey, xs));
    SortElements(EventKey, xs);
    SameIds(EventId, Sort(EventKey, xs), xs);
    SameIds(EventId, xs, Sort(EventKey, xs));
  }

  /** The log reads stage by stage, within a stage by epoch, then from the earliest event on, equal times by id. */
  lemma LogInTime(xs: seq<ProtocolEvent>, i: nat, j: nat)
    requires i < j < |LogOf(xs)|
    ensures var a, b := LogOf(xs)[i], LogOf(xs)[j];
            || Precedence(a) < Precedence(b)
            || (Precedence(a) == Precedence(b) && Epoch(a) < Epoch(b))
            || (Precedence(a) == Precedence(b) && Epoch(a) == Epoch(b) && CreatedAt(a) < CreatedAt(b))
            || (Precedence(a) == Precedence(b) && Epoch(a) == Epoch(b) && CreatedAt(a) == CreatedAt(b)
                && StrLt(EventId(a), EventId(b)))
  {
    LogStrict(xs);
    KeysCompared(EventKey(LogOf(xs)[i]), EventKey(LogOf(xs)[j]));
  }

  /** The log is determined by which event stands for each id. */
  lemma LogDetermined(xs: seq<ProtocolEvent>, ys: seq<ProtocolEvent>)
    requires forall id :: Representative(xs, id) == Representative(ys, id)
    ensures LogOf(xs) == LogOf(ys)
  {
    LogStrict(xs);
    LogStrict(ys);
    forall e ensures e in LogOf(xs) <==> e in LogOf(ys) {
      LogElements(xs, e);
      LogElements(ys, e);
    }
    StrictlySortedUnique(EventKey, LogOf(xs), LogOf(ys));
  }

  /** An event standing for each id, of any id at all. */
  lemma LogRepresentative(xs: seq<ProtocolEvent>, id: string)
    ensures Representative(LogOf(xs), id) == Representative(xs, id)
  {
    SortSorted(EventKey, xs);
    RepresentativeFirsts(Sort(EventKey, xs), id);
    RepresentativeSort(xs, id);
  }

  /** Putting part of the deliveries into canonical form first makes no difference to the log. */
  lemma LogMerges(xs: seq<ProtocolEvent>, ys: seq<ProtocolEvent>)
    ensures LogOf(LogOf(xs) + ys) == LogOf(xs + ys)
  {
    forall id ensures Representative(LogOf(xs) + ys, id) == Representative(xs + ys, id) {
      RepresentativeAppend(LogOf(xs), ys, id);
      RepresentativeAppend(xs, ys, id);
      LogRepresentative(xs, id);
    }
    LogDetermined(LogOf(xs) + ys, xs + ys);
  }

  lemma LogIdempotent(xs: seq<ProtocolEvent>)
    ensures LogOf(LogOf(xs)) == LogOf(xs)
  {
    LogMerges(xs, []);
    assert LogOf(xs) + [] == LogOf(xs) && xs + [] == xs;
  }

  lemma LogCongruent(xs: seq<ProtocolEvent>, ys: seq<ProtocolEvent>, zs: seq<ProtocolEvent>)
    requires LogOf(xs) == LogOf(ys)
    ensures LogOf(xs + zs) == LogOf(ys + zs)
  {
    LogMerges(xs, zs);
    LogMerges(ys, zs);
  }

  ghost predicate SameSet(xs: seq<ProtocolEvent>, ys: seq<ProtocolEvent>) {
    forall e :: e in xs <==> e in ys
  }

  /** No two different events are both least for one id. */
  ghost predicate OneLeast(events: seq<ProtocolEvent>) {
    forall e, f :: Least(events, e) && Least(events, f) && EventId(e) == EventId(f) ==> e == f
  }

  /** In particular that holds when keys identify events. */
  lemma KeysGiveOneLeast(events: seq<ProtocolEvent>)
    requires KeysIdentify(EventKey, events)
    ensures OneLeast(events)
  {
    forall e, f | Least(events, e) && Least(events, f) && EventId(e) == EventId(f) ensures e == f {
      KeyOrderIsTotal(EventKey(e), EventKey(f), EventKey(e));
    }
  }

  lemma SameRepresentative(xs: seq<ProtocolEvent>, ys: seq<ProtocolEvent>, id: string)
    requires OneLeast(xs) && SameSet(xs, ys)
    ensures Representative(xs, id) == Representative(ys, id)
  {
    var a, b := Representative(xs, id), Representative(ys, id);
    RepresentativeLeast(xs, id);
    RepresentativeLeast(ys, id);
    SameIds(EventId, xs, ys);
    SameIds(EventId, ys, xs);
    if a.Some? {
      IdsHas(EventId, xs, a.value);
    }
    if b.Some? {
      IdsHas(EventId, ys, b.value);
    }
    if a.Some? && b.Some? {
      assert Least(xs, b.value);
    }
  }

  /** Of the events least for an id, the log keeps the one delivered first. */
  lemma FirstLeastStays(xs: seq<ProtocolEvent>, e: ProtocolEvent, f: ProtocolEvent)
    requires Least(xs, e) && EventId(f) == EventId(e)
    ensures f in LogOf([e] + xs) <==> f == e
  {
    RepresentativeAppend([e], xs, EventId(e));
    RepresentativeSnoc([], e, EventId(e));
    assert [] + [e] == [e];
    RepresentativeLeast(xs, EventId(e));
    var r := Representative(xs, EventId(e));
    if r.Some? {
      CompareKeysAgree(EventKey(r.value), EventKey(e));
      assert KeyLe(EventKey(e), EventKey(r.value));
    }
    assert Representative([e] + xs, EventId(e)) == Some(e);
    LogElements([e] + xs, f);
  }

  lemma LogOfSet(xs: seq<ProtocolEvent>, ys: seq<ProtocolEvent>)
    requires OneLeast(xs) && SameSet(xs, ys)
    ensures LogOf(ys) == LogOf(xs)
  {
    forall id ensures Representative(xs, id) == Representative(ys, id) {
      SameRepresentative(xs, ys, id);
    }
    LogDetermined(xs, ys);
  }

  lemma AnotherLog(xs: seq<ProtocolEvent>, e: ProtocolEvent, f: ProtocolEvent) returns (ys: seq<ProtocolEvent>)
    requires Least(xs, e) && Least(xs, f) && EventId(e) == EventId(f) && e != f
    ensures SameSet(xs, ys) && LogOf(ys) != LogOf(xs)
  {
    FirstLeastStays(xs, e, f);
    FirstLeastStays(xs, f, f);
    ys := if LogOf([e] + xs) != LogOf(xs) then [e] + xs else [f] + xs;
  }

  /**
   The log depends only on the set of events delivered if and only if no two different events are least
   for one id: of two that are, the log keeps whichever came first.
   */
  lemma LogOfSetIff(xs: seq<ProtocolEvent>)
    ensures OneLeast(xs) <==> forall ys :: SameSet(xs, ys) ==> LogOf(ys) == LogOf(xs)
  {
    if OneLeast(xs) {
      forall ys | SameSet(xs, ys) ensures LogOf(ys) == LogOf(xs) {
        LogOfSet(xs, ys);
      }
    } else {
      var e, f :| Least(xs, e) && Least(xs, f) && EventId(e) == EventId(f) && e != f;
      var ys := AnotherLog(xs, e, f);
    }
  }

  // ----- runs of the engine -----

  datatype Call = ReplayAll(events: seq<ProtocolEvent>) | ApplyEvents(events: seq<ProtocolEvent>)

  /** The log as the call finds it, its own events added. */
  function Appended(log: seq<ProtocolEvent>, call: Call): seq<ProtocolEvent> {
    match call
    case ReplayAll(events) => events
    case ApplyEvents(events) => log + events
  }

  ghost function LogAfter(electionId: string, calls: seq<Call>): seq<ProtocolEvent> {
    if calls == [] then [] else
      var appended := Appended(LogAfter(electionId, Init(calls)), Last(calls));
      if AllFrom(electionId, appended) then LogOf(appended) else appended
  }

  /** What the last call returned. */
  ghost function ResultAfter(electionId: string, calls: seq<Call>): Result<DerivedState, ProtocolError>
    requires calls != []
  {
    Derive(electionId, Appended(LogAfter(electionId, Init(calls)), Last(calls)))
  }

  /** Everything delivered since the engine was created or last replayed from scratch. */
  function Delivered(calls: seq<Call>): seq<ProtocolEvent> {
    if calls == [] then [] else Appended(Delivered(Init(calls)), Last(calls))
  }

  /** The engine object goes through these logs. */
  method Drive(electionId: string, calls: seq<Call>) returns (engine: AuditableVotingProtocolEngine)
    ensures fresh(engine) && engine.electionId == electionId
    ensures engine.events == LogAfter(electionId, calls)
  {
    engine := new AuditableVotingProtocolEngine(electionId);
    for i := 0 to |calls|
      invariant fresh(engine) && engine.electionId == electionId
      invariant engine.events == LogAfter(electionId, calls[..i])
    {
      var next := calls[..i + 1];
      assert Init(next) == calls[..i] && Last(next) == calls[i];
      match calls[i] {
        case ReplayAll(events) => var _ := engine.ReplayAll(events);
        case ApplyEvents(events) => var _ := engine.ApplyEvents(events);
      }
    }
    assert calls[..|calls|] == calls;
  }

  lemma AllFromLog(electionId: string, xs: seq<ProtocolEvent>)
    requires AllFrom(electionId, xs)
    ensures AllFrom(electionId, LogOf(xs))
  {
    LogIsCanonical(xs);
  }

  /** Failed calls included, the log never loses what stands for an id, nor a wrong election. */
  lemma {:induction false} RunKeepsDeliveries(electionId: string, calls: seq<Call>)
    ensures LogOf(LogAfter(electionId, calls)) == LogOf(Delivered(calls))
    ensures AllFrom(electionId, LogAfter(electionId, calls)) <==> AllFrom(electionId, Delivered(calls))
  {
    if calls != [] {
      var log, before := LogAfter(electionId, Init(calls)), Delivered(Init(calls));
      RunKeepsDeliveries(electionId, Init(calls));
      var call := Last(calls);
      var appended := Appended(log, call);
      if call.ApplyEvents? {
        LogCongruent(log, before, call.events);
        assert AllFrom(electionId, appended) <==> AllFrom(electionId, Delivered(calls)) by {
          assert forall e :: e in log + call.events <==> e in log || e in call.events;
          assert forall e :: e in before + call.events <==> e in before || e in call.events;
        }
      }
      LogIdempotent(appended);
      if AllFrom(electionId, appended) {
        AllFromLog(electionId, appended);
      }
    }
  }

  /**
   A call succeeds if and only if everything delivered since the engine was created or last replayed
   carries its election id; the log is then the canonical form of those deliveries.
   */
  lemma RunSucceedsWhenClean(electionId: string, calls: seq<Call>)
    requires calls != []
    ensures ResultAfter(electionId, calls).Ok? <==> AllFrom(electionId, Delivered(calls))
    ensures ResultAfter(electionId, calls).Ok? ==>
              && LogAfter(electionId, calls) == LogOf(Delivered(calls))
              && Canonical(LogAfter(electionId, calls), Delivered(calls))
              && AllFrom(electionId, LogAfter(electionId, calls))
  {
    var init, call := Init(calls), Last(calls);
    var log, before := LogAfter(electionId, init), Delivered(init);
    RunKeepsDeliveries(electionId, init);
    RunKeepsDeliveries(electionId, calls);
    if call.ApplyEvents? {
      assert forall e :: e in log + call.events <==> e in log || e in call.events;
      assert forall e :: e in before + call.events <==> e in before || e in call.events;
      LogCongruent(log, before, call.events);
    }
    LogIsCanonical(Delivered(calls));
  }

  lemma OneCall(electionId: string, ys: seq<ProtocolEvent>)
    requires AllFrom(electionId, ys)
    ensures Delivered([ApplyEvents(ys)]) == ys && LogAfter(electionId, [ApplyEvents(ys)]) == LogOf(ys)
  {
    var calls := [ApplyEvents(ys)];
    assert Init(calls) == [] && Last(calls) == ApplyEvents(ys);
    assert [] + ys == ys;
  }

  /** As many calls as it takes, one at least, deliver the same set of events as `calls` did. */
  ghost predicate DeliversTheSame(calls: seq<Call>, calls': seq<Call>) {
    calls' != [] && SameSet(Delivered(calls), Delivered(calls'))
  }

  /**
   Engines to which one set of events was delivered, all of their election, hold identical logs whatever
   the order, batching and repetition, if and only if no two different events are least for one id.
   */
  lemma EnginesConverge(electionId: string, calls: seq<Call>)
    requires calls != [] && AllFrom(electionId, Delivered(calls))
    ensures OneLeast(Delivered(calls)) <==>
              forall calls' :: DeliversTheSame(calls, calls') ==> LogAfter(electionId, calls') == LogAfter(electionId, calls)
  {
    var xs := Delivered(calls);
    RunSucceedsWhenClean(electionId, calls);
    LogOfSetIff(xs);
    if OneLeast(xs) {
      forall calls' | DeliversTheSame(calls, calls') ensures LogAfter(electionId, calls') == LogAfter(electionId, calls) {
        RunSucceedsWhenClean(electionId, calls');
        assert LogOf(Delivered(calls')) == LogOf(xs);
      }
    } else {
      var ys :| SameSet(xs, ys) && LogOf(ys) != LogOf(xs);
      OneCall(electionId, ys);
      assert DeliversTheSame(calls, [ApplyEvents(ys)]);
    }
  }

  /** So their last calls succeed, and asked for their current states the engine objects answer alike. */
  method CompareEngines(electionId: string, calls: seq<Call>, calls': seq<Call>)
    returns (state: Result<DerivedState, ProtocolError>, state': Result<DerivedState, ProtocolError>)
    requires calls != [] && AllFrom(electionId, Delivered(calls))
    requires OneLeast(Delivered(calls)) && DeliversTheSame(calls, calls')
    ensures state == state' == Derive(electionId, LogOf(Delivered(calls)))
    ensures state.Ok?
  {
    EnginesConverge(electionId, calls);
    RunSucceedsWhenClean(electionId, calls);
    var engine := Drive(electionId, calls);
    var engine' := Drive(electionId, calls');
    state := engine.CurrentState();
    state' := engine'.CurrentState();
  }

  // ----- snapshots -----

  lemma SameElementsSameIds(xs: seq<ProtocolEvent>, ys: seq<ProtocolEvent>)
    requires multiset(xs) == multiset(ys)
    ensures Ids(EventId, xs) == Ids(EventId, ys) && |xs| == |ys|
  {
    SameElements(xs, ys);
    SameIds(EventId, xs, ys);
    SameIds(EventId, ys, xs);
  }

  lemma SortDistinct(xs: seq<ProtocolEvent>)
    requires DistinctIds(EventId, xs)
    ensures LogOf(xs) == Sort(EventKey, xs)
  {
    SortPermutes(EventKey, xs);
    SameElementsSameIds(xs, Sort(EventKey, xs));
    IdsCount(EventId, xs);
    IdsCount(EventId, Sort(EventKey, xs));
    FirstsOfDistinct(EventId, Sort(EventKey, xs));
  }

  lemma AllFromAppend(electionId: string, xs: seq<ProtocolEvent>, ys: seq<ProtocolEvent>)
    ensures AllFrom(electionId, xs + ys) <==> AllFrom(electionId, xs) && AllFrom(electionId, ys)
  {
    assert forall e :: e in xs + ys <==> e in xs || e in ys;
  }

  /** Restoring the log left by a prefix and applying a suffix leaves the log of a full replay. */
  lemma SnapshotPlusSuffixLog(electionId: string, prefix: seq<ProtocolEvent>, suffix: seq<ProtocolEvent>)
    requires AllFrom(electionId, prefix)
    ensures Derive(electionId, LogOf(prefix) + suffix).Ok? <==> Derive(electionId, prefix + suffix).Ok?
    ensures LogOf(LogOf(prefix) + suffix) == LogOf(prefix + suffix)
  {
    LogMerges(prefix, suffix);
    AllFromLog(electionId, prefix);
    AllFromAppend(electionId, prefix, suffix);
    AllFromAppend(electionId, LogOf(prefix), suffix);
  }

  /** When the prefix repeats no id, the very result returned is that of the full replay. */
  lemma SnapshotPlusSuffixResult(electionId: string, prefix: seq<ProtocolEvent>, suffix: seq<ProtocolEvent>)
    requires AllFrom(electionId, prefix) && DistinctIds(EventId, prefix)
    ensures Derive(electionId, LogOf(prefix) + suffix) == Derive(electionId, prefix + suffix)
  {
    SnapshotPlusSuffixLog(electionId, prefix, suffix);
    SortDistinct(prefix);
    SortAppend(EventKey, prefix, suffix);
  }
}
