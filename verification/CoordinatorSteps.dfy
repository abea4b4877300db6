/** What every step keeps, and which steps do not: from one envelope to any sequence of them. */
module CoordinatorSteps {
  import opened Sorting
  import opened CoordinatorState
  import opened CoordinatorReplay

  /** The state when the first `k` events have been applied. */
  function StateAt(st: Control, events: seq<Ordered>, k: nat): Control
    requires k <= |events|
  {
    ApplyAll(st, events[..k])
  }

  lemma StateAtNext(st: Control, events: seq<Ordered>, k: nat)
    requires k < |events|
    ensures StateAt(st, events, k + 1) == Apply(StateAt(st, events, k), OrderedId(events[k]), events[k].envelope)
  {
    assert Init(events[..k + 1]) == events[..k] && Last(events[..k + 1]) == events[k];
  }

  /** Where a property holds, applying `o` loses it exactly when `breaks` says so. */
  ghost predicate Decides(good: Control -> bool, breaks: (Control, Ordered) -> bool, o: Ordered) {
    forall st :: good(st) ==> (good(Apply(st, OrderedId(o), o.envelope)) <==> !breaks(st, o))
  }

  ghost predicate DecidesAll(good: Control -> bool, breaks: (Control, Ordered) -> bool, events: seq<Ordered>) {
    forall o :: o in events ==> Decides(good, breaks, o)
  }

  /** For properties that no step loses. */
  function Never(): (Control, Ordered) -> bool {
    (st: Control, o: Ordered) => false
  }

  ghost predicate Throughout(st: Control, events: seq<Ordered>, good: Control -> bool) {
    forall k :: 0 <= k <= |events| ==> good(StateAt(st, events, k))
  }

  ghost predicate Somewhere(st: Control, events: seq<Ordered>, breaks: (Control, Ordered) -> bool) {
    exists k :: 0 <= k < |events| && breaks(StateAt(st, events, k), events[k])
  }

  lemma StepDecided(st: Control, events: seq<Ordered>, good: Control -> bool, breaks: (Control, Ordered) -> bool, k: nat)
    requires DecidesAll(good, breaks, events) && k < |events| && good(StateAt(st, events, k))
    ensures good(StateAt(st, events, k + 1)) <==> !breaks(StateAt(st, events, k), events[k])
  {
    StateAtNext(st, events, k);
    assert Decides(good, breaks, events[k]);
  }

  lemma {:induction false} GoodUpTo(st: Control, events: seq<Ordered>, good: Control -> bool, breaks: (Control, Ordered) -> bool,
                                    k: nat)
    requires good(st) && DecidesAll(good, breaks, events) && !Somewhere(st, events, breaks) && k <= |events|
    ensures good(StateAt(st, events, k))
  {
    if k == 0 {
      assert events[..0] == [];
    } else {
      GoodUpTo(st, events, good, breaks, k - 1);
      StepDecided(st, events, good, breaks, k - 1);
    }
  }

  /** Whatever the order of the events, the property holds all along iff no step breaks it. */
  lemma KeptIff(st: Control, events: seq<Ordered>, good: Control -> bool, breaks: (Control, Ordered) -> bool)
    requires good(st) && DecidesAll(good, breaks, events)
    ensures Throughout(st, events, good) <==> !Somewhere(st, events, breaks)
  {
    if Somewhere(st, events, breaks) {
      var k :| 0 <= k < |events| && breaks(StateAt(st, events, k), events[k]);
      if good(StateAt(st, events, k)) {
        StepDecided(st, events, good, breaks, k);
      }
      assert !good(StateAt(st, events, k)) || !good(StateAt(st, events, k + 1));
    } else {
      forall k | 0 <= k <= |events| ensures good(StateAt(st, events, k)) {
        GoodUpTo(st, events, good, breaks, k);
      }
    }
  }

  lemma GoodAtEnd(st: Control, events: seq<Ordered>, good: Control -> bool)
    requires Throughout(st, events, good)
    ensures good(ApplyAll(st, events))
  {
    assert events[..|events|] == events;
    assert good(StateAt(st, events, |events|));
  }
}
