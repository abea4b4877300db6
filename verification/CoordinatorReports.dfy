/**
 What a replay reports: which deliveries took their turn, in which order, and how often an id is reported.
 */
module CoordinatorReports {
  import opened Wrappers
  import opened Order
  import opened Sorting
  import opened CoordinatorState
  import opened CoordinatorReplay

  // ----- which events are reported -----

  ghost predicate ProcessedBefore(st: Control, events: seq<Ordered>, n: nat, id: string)
    requires n <= |events|
  {
    || id in st.processed
    || exists j :: 0 <= j < n && events[j].transport.eventId == id && events[j].envelope.electionId == st.electionId
  }

  /**
   The event at place `k` is reported: its id was not processed before the batch, nor is it that of an
   earlier event of this election.
   */
  ghost predicate TakesTurn(st: Control, events: seq<Ordered>, k: nat) {
    k < |events| && !ProcessedBefore(st, events, k, events[k].transport.eventId)
  }

  /** The places of the events reported, among the first `n`. */
  ghost function Turns(st: Control, events: seq<Ordered>, n: nat): seq<nat> {
    if n == 0 then [] else Turns(st, events, n - 1) + if TakesTurn(st, events, n - 1) then [n - 1] else []
  }

  lemma {:induction false} TurnsAre(st: Control, events: seq<Ordered>, n: nat)
    ensures forall k :: k in Turns(st, events, n) <==> 0 <= k < n && TakesTurn(st, events, k)
    ensures forall i, j :: 0 <= i < j < |Turns(st, events, n)| ==> Turns(st, events, n)[i] < Turns(st, events, n)[j]
  {
    if n > 0 {
      TurnsAre(st, events, n - 1);
      var before := Turns(st, events, n - 1);
      forall i | 0 <= i < |before| ensures before[i] < n - 1 {
        assert before[i] in before;
      }
    }
  }

  lemma {:induction false} ProcessedMeanwhile(st: Control, events: seq<Ordered>, n: nat, id: string)
    requires n <= |events|
    ensures id in ApplyAll(st, events[..n]).processed <==> ProcessedBefore(st, events, n, id)
    ensures ApplyAll(st, events[..n]).electionId == st.electionId
  {
    if n > 0 {
      ProcessedMeanwhile(st, events, n - 1, id);
      assert Init(events[..n]) == events[..n - 1] && Last(events[..n]) == events[n - 1];
      assert ProcessedBefore(st, events, n, id) <==>
             || ProcessedBefore(st, events, n - 1, id)
             || (events[n - 1].transport.eventId == id && events[n - 1].envelope.electionId == st.electionId);
    }
  }

  lemma {:induction false} ReportedUpTo(st: Control, events: seq<Ordered>, n: nat)
    requires n <= |events|
    ensures |Reported(st, events[..n])| == |Turns(st, events, n)|
    ensures forall i :: 0 <= i < |Turns(st, events, n)| ==> Turns(st, events, n)[i] < |events|
    ensures forall i :: 0 <= i < |Turns(st, events, n)| ==>
              var shown, o := Reported(st, events[..n])[i], events[Turns(st, events, n)[i]];
              && shown.eventId == o.transport.eventId && shown.eventType == o.envelope.payload.EventType()
              && shown.roundId == o.envelope.roundId && shown.createdAt == o.envelope.createdAt
  {
    if n > 0 {
      ReportedUpTo(st, events, n - 1);
      ReportedNext(st, events, n - 1);
    }
  }

  lemma ReportedNext(st: Control, events: seq<Ordered>, n: nat)
    requires n < |events|
    ensures Reported(st, events[..n + 1]) ==
              Reported(st, events[..n]) + if TakesTurn(st, events, n) then [Report(events[n])] else []
  {
    ProcessedMeanwhile(st, events, n, events[n].transport.eventId);
    assert Init(events[..n + 1]) == events[..n] && Last(events[..n + 1]) == events[n];
  }

  /** The events reported are those whose turn it is, in the order they are replayed in, each with its own fields. */
  lemma ReportedInTurn(st: Control, events: seq<Ordered>)
    ensures var turns, reported := Turns(st, events, |events|), Reported(st, events);
            && |reported| == |turns|
            && (forall k :: k in turns <==> TakesTurn(st, events, k))
            && (forall i, j :: 0 <= i < j < |turns| ==> turns[i] < turns[j])
            && (forall i :: 0 <= i < |turns| ==>
                  && turns[i] < |events|
                  && reported[i].eventId == events[turns[i]].transport.eventId
                  && reported[i].eventType == events[turns[i]].envelope.payload.EventType()
                  && reported[i].roundId == events[turns[i]].envelope.roundId
                  && reported[i].createdAt == events[turns[i]].envelope.createdAt)
  {
    assert events[..|events|] == events;
    ReportedUpTo(st, events, |events|);
    TurnsAre(st, events, |events|);
  }

  // ----- how often an id is reported -----

  /** The places at which an id stands. */
  function Places(reported: seq<Applied>, id: string): set<int> {
    set i | 0 <= i < |reported| && reported[i].eventId == id
  }

  function Deliveries(events: seq<Ordered>, id: string): set<int> {
    set k | 0 <= k < |events| && events[k].transport.eventId == id
  }

  /** Every report of an id stands for one turn of it. */
  lemma ReportForTurn(st: Control, events: seq<Ordered>, id: string, i: int)
    requires i in Places(Reported(st, events), id)
    ensures i < |Turns(st, events, |events|)| && TakesTurn(st, events, Turns(st, events, |events|)[i])
    ensures events[Turns(st, events, |events|)[i]].transport.eventId == id
  {
    ReportedInTurn(st, events);
    assert Turns(st, events, |events|)[i] in Turns(st, events, |events|);
  }

  /** And every turn of it is reported. */
  lemma TurnReported(st: Control, events: seq<Ordered>, k: nat) returns (i: nat)
    requires TakesTurn(st, events, k)
    ensures i in Places(Reported(st, events), events[k].transport.eventId)
    ensures i < |Turns(st, events, |events|)| && Turns(st, events, |events|)[i] == k
  {
    ReportedInTurn(st, events);
    var turns := Turns(st, events, |events|);
    assert k in turns;
    i :| 0 <= i < |turns| && turns[i] == k;
  }

  /** Of the events with this id, some are of the state's election. */
  ghost predicate OwnCarries(st: Control, events: seq<Ordered>, id: string) {
    exists o :: o in events && o.transport.eventId == id && o.envelope.electionId == st.electionId
  }

  ghost predicate ForeignCarries(st: Control, events: seq<Ordered>, id: string) {
    exists o :: o in events && o.transport.eventId == id && o.envelope.electionId != st.electionId
  }

  lemma NoSecondTurn(st: Control, events: seq<Ordered>, k: nat, l: nat)
    requires k < l < |events| && events[k].transport.eventId == events[l].transport.eventId
    requires events[k].envelope.electionId == st.electionId
    ensures !TakesTurn(st, events, l)
  {
    assert ProcessedBefore(st, events, l, events[l].transport.eventId);
  }

  lemma NeverTwiceOwn(st: Control, events: seq<Ordered>, id: string, i: int, j: int)
    requires !ForeignCarries(st, events, id)
    requires i in Places(Reported(st, events), id) && j in Places(Reported(st, events), id)
    ensures i == j
  {
    ReportForTurn(st, events, id, i);
    ReportForTurn(st, events, id, j);
    var k, l := Turns(st, events, |events|)[i], Turns(st, events, |events|)[j];
    assert events[k] in events && events[l] in events;
    TurnsAre(st, events, |events|);
    if i < j {
      NoSecondTurn(st, events, k, l);
    } else if j < i {
      NoSecondTurn(st, events, l, k);
    }
  }

  lemma {:induction false} FirstWith(events: seq<Ordered>, id: string, n: nat) returns (k: nat)
    requires n <= |events| && exists j :: 0 <= j < n && events[j].transport.eventId == id
    ensures k < n && events[k].transport.eventId == id
    ensures forall j :: 0 <= j < k ==> events[j].transport.eventId != id
  {
    if exists j :: 0 <= j < n - 1 && events[j].transport.eventId == id {
      k := FirstWith(events, id, n - 1);
    } else {
      k := n - 1;
    }
  }

  /** An id processed before the batch is not reported again. */
  lemma ProcessedNotReported(st: Control, events: seq<Ordered>, id: string)
    requires id in st.processed
    ensures Places(Reported(st, events), id) == {}
  {
    forall i ensures i !in Places(Reported(st, events), id) {
      if i in Places(Reported(st, events), id) {
        ReportForTurn(st, events, id, i);
        assert false;
      }
    }
  }

  /** An id of this election, not processed before, is reported exactly once if it is delivered, otherwise never. */
  lemma OwnReportedOnce(st: Control, events: seq<Ordered>, id: string)
    requires id !in st.processed && !ForeignCarries(st, events, id)
    ensures |Places(Reported(st, events), id)| == if OwnCarries(st, events, id) then 1 else 0
  {
    var places := Places(Reported(st, events), id);
    if o :| o in events && o.transport.eventId == id {
      assert exists j :: 0 <= j < |events| && events[j].transport.eventId == id;
      var k := FirstWith(events, id, |events|);
      assert TakesTurn(st, events, k);
      var i := TurnReported(st, events, k);
      forall j ensures j in places <==> j in {i as int} {
        if j in places {
          NeverTwiceOwn(st, events, id, i, j);
        }
      }
      OnlyOne(places, i);
      assert events[k] in events;
    } else {
      forall i ensures i !in places {
        if i in places {
          ReportForTurn(st, events, id, i);
          assert false;
        }
      }
      assert places == {};
    }
  }

  lemma OnlyOne<T>(s: set<T>, x: T)
    requires forall y :: y in s <==> y in {x}
    ensures |s| == 1
  {
    assert s == {x};
  }

  /** An id only of other elections, not processed before, is reported as often as it is delivered. */
  lemma ForeignReportedEachTime(st: Control, events: seq<Ordered>, id: string)
    requires id !in st.processed && !OwnCarries(st, events, id)
    ensures |Places(Reported(st, events), id)| == |Deliveries(events, id)|
  {
    ForeignUpTo(st, events, id, |events|);
    assert events[..|events|] == events;
  }

  lemma {:induction false} ForeignUpTo(st: Control, events: seq<Ordered>, id: string, n: nat)
    requires id !in st.processed && !OwnCarries(st, events, id) && n <= |events|
    ensures |Places(Reported(st, events[..n]), id)| == |Deliveries(events[..n], id)|
  {
    if n > 0 {
      var last := events[n - 1];
      ForeignUpTo(st, events, id, n - 1);
      ProcessedMeanwhile(st, events, n - 1, last.transport.eventId);
      assert Init(events[..n]) == events[..n - 1] && Last(events[..n]) == last;
      if last.transport.eventId == id {
        forall j | 0 <= j < n - 1 && events[j].transport.eventId == id ensures events[j].envelope.electionId != st.electionId {
          assert events[j] in events;
        }
        assert !ProcessedBefore(st, events, n - 1, id);
      }
      PlacesSnoc(st, events[..n], id);
      DeliveriesSnoc(events[..n], id);
    }
  }

  lemma PlacesSnoc(st: Control, events: seq<Ordered>, id: string)
    requires events != []
    ensures |Places(Reported(st, events), id)| == |Places(Reported(st, Init(events)), id)| +
              if Last(events).transport.eventId == id && id !in ApplyAll(st, Init(events)).processed then 1 else 0
  {
    var before, after := Reported(st, Init(events)), Reported(st, events);
    OneMore(Places(before, id), Places(after, id), |before|,
            Last(events).transport.eventId == id && id !in ApplyAll(st, Init(events)).processed);
  }

  lemma DeliveriesSnoc(events: seq<Ordered>, id: string)
    requires events != []
    ensures |Deliveries(events, id)| == |Deliveries(Init(events), id)| + if Last(events).transport.eventId == id then 1 else 0
  {
    OneMore(Deliveries(Init(events), id), Deliveries(events, id), |events| - 1, Last(events).transport.eventId == id);
  }

  // ----- sorting keeps what is delivered -----

  lemma {:induction false} InsertDeliveries(events: seq<Ordered>, o: Ordered, id: string)
    ensures |Deliveries(Insert(OrderedKey, events, o), id)| ==
              |Deliveries(events, id)| + if o.transport.eventId == id then 1 else 0
  {
    if events == [] || KeyLe(OrderedKey(Last(events)), OrderedKey(o)) {
      assert Init(events + [o]) == events && Last(events + [o]) == o;
      DeliveriesSnoc(events + [o], id);
    } else {
      var front := Insert(OrderedKey, Init(events), o);
      InsertDeliveries(Init(events), o, id);
      DeliveriesSnoc(events, id);
      assert Init(front + [Last(events)]) == front && Last(front + [Last(events)]) == Last(events);
      DeliveriesSnoc(front + [Last(events)], id);
    }
  }

  lemma {:induction false} SortDeliveries(events: seq<Ordered>, id: string)
    ensures |Deliveries(Sort(OrderedKey, events), id)| == |Deliveries(events, id)|
  {
    if events != [] {
      SortDeliveries(Init(events), id);
      InsertDeliveries(Sort(OrderedKey, Init(events)), Last(events), id);
      DeliveriesSnoc(events, id);
    }
  }

  // ----- the report of a batch -----

  /** How often a replayed batch reports an id. */
  lemma ReportsOfBatch(st: Control, codec: Codec, batch: seq<Transport>, id: string)
    requires DecodeAll(codec, st.localPubkey, batch).Ok?
    ensures ReplayResult(st, codec, batch).Ok?
    ensures var decoded, reported := DecodeAll(codec, st.localPubkey, batch).value, ReplayResult(st, codec, batch).value;
            && (id in st.processed ==> |Places(reported, id)| == 0)
            && (id !in st.processed && !ForeignCarries(st, decoded, id) ==>
                  |Places(reported, id)| == if OwnCarries(st, decoded, id) then 1 else 0)
            && (id !in st.processed && !OwnCarries(st, decoded, id) ==>
                  |Places(reported, id)| == |Deliveries(decoded, id)|)
  {
    var decoded := DecodeAll(codec, st.localPubkey, batch).value;
    var sorted := Sort(OrderedKey, decoded);
    SortElements(OrderedKey, decoded);
    SameCarriers(st, decoded, sorted, id);
    SortDeliveries(decoded, id);
    if id in st.processed {
      ProcessedNotReported(st, sorted, id);
    } else {
      if !ForeignCarries(st, decoded, id) {
        OwnReportedOnce(st, sorted, id);
      }
      if !OwnCarries(st, decoded, id) {
        ForeignReportedEachTime(st, sorted, id);
      }
    }
  }

  lemma SameCarriers(st: Control, xs: seq<Ordered>, ys: seq<Ordered>, id: string)
    requires forall o :: o in ys <==> o in xs
    ensures OwnCarries(st, ys, id) <==> OwnCarries(st, xs, id)
    ensures ForeignCarries(st, ys, id) <==> ForeignCarries(st, xs, id)
  {
  }

  /** A batch reports nothing iff it decodes and everything in it was processed before. */
  lemma NothingReportedIff(st: Control, codec: Codec, batch: seq<Transport>)
    ensures ReplayResult(st, codec, batch) == Ok([]) <==>
              && DecodeAll(codec, st.localPubkey, batch).Ok?
              && forall o :: o in DecodeAll(codec, st.localPubkey, batch).value ==> o.transport.eventId in st.processed
  {
    if DecodeAll(codec, st.localPubkey, batch).Ok? {
      var decoded := DecodeAll(codec, st.localPubkey, batch).value;
      SortElements(OrderedKey, decoded);
      SilentIff(st, Sort(OrderedKey, decoded));
    }
  }

  lemma SilentIff(st: Control, events: seq<Ordered>)
    ensures Reported(st, events) == [] <==> forall o :: o in events ==> o.transport.eventId in st.processed
  {
    var turns := Turns(st, events, |events|);
    ReportedInTurn(st, events);
    if Reported(st, events) == [] {
      forall o | o in events ensures o.transport.eventId in st.processed {
        var j :| 0 <= j < |events| && events[j] == o;
        var k := FirstWith(events, o.transport.eventId, |events|);
        assert k !in turns;
      }
    } else {
      assert turns[0] in turns;
      assert events[turns[0]] in events;
    }
  }

  /**
   The reports come in replay order: by event type, then the smaller epoch, the earlier time, the smaller id,
   each with the type, round and time of the event it stands for.
   */
  lemma ReportsInOrder(st: Control, events: seq<Ordered>, i: nat, j: nat) returns (a: Ordered, b: Ordered)
    requires i < j < |Reported(st, Sort(OrderedKey, events))|
    ensures a in events && b in events
    ensures var reported := Reported(st, Sort(OrderedKey, events));
            && reported[i] == Applied(a.transport.eventId, a.envelope.payload.EventType(), a.envelope.roundId, a.envelope.createdAt)
            && reported[j] == Applied(b.transport.eventId, b.envelope.payload.EventType(), b.envelope.roundId, b.envelope.createdAt)
    ensures a.transport.eventId == b.transport.eventId || CompareCoordinatorEvents(a, b).Less?
    ensures !CompareCoordinatorEvents(a, b).Greater?
  {
    var sorted := Sort(OrderedKey, events);
    SortSorted(OrderedKey, events);
    SortElements(OrderedKey, events);
    ReportedInTurn(st, sorted);
    var turns := Turns(st, sorted, |sorted|);
    a, b := sorted[turns[i]], sorted[turns[j]];
    assert a in sorted && b in sorted;
    CompareIsTotalPreorder(a, b, a);
    KeyOrderIsTotal(OrderedKey(a), OrderedKey(b), OrderedKey(a));
  }
}
