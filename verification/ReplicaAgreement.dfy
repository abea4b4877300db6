/** Replicas that process the same messages in the same order agree, however deliveries are repeated. */
module ReplicaAgreement {
  import opened Wrappers
  import opened Sorting
  import opened CoordinatorMessages
  import opened CoordinatorState
  import opened CoordinatorReplay
  import opened CoordinatorBatch
  import opened CoordinatorEngine

  /** A message reaching a replica: its own as the local echo, another's as a single transport event. */
  datatype Delivery = ByEcho(id: string, echo: string) | ByTransport(transport: Transport)

  /** `d` delivers the message `m` to the replica with this key, and is not filtered out as its own. */
  ghost predicate Delivers(codec: Codec, local: string, d: Delivery, m: Ordered) {
    match d
    case ByEcho(id, echo) => id == OrderedId(m) && echo == codec.toEcho(m.envelope)
    case ByTransport(t) =>
      t.eventId == OrderedId(m) && codec.encode(m.envelope) == Ok(t.rawContent) && t.senderPubkey != Some(local)
  }

  /** A transport event marked with the replica's own key, whatever is in it: what the replica sent, coming back. */
  predicate ComesBack(local: string, d: Delivery) {
    d.ByTransport? && d.transport.senderPubkey == Some(local)
  }

  /** The deliveries bring these messages in turn; what comes back brings none. */
  ghost predicate DeliversAll(codec: Codec, local: string, ds: seq<Delivery>, ms: seq<Ordered>) {
    if ds == [] then ms == []
    else if ComesBack(local, Last(ds)) then DeliversAll(codec, local, Init(ds), ms)
    else ms != [] && Delivers(codec, local, Last(ds), Last(ms)) && DeliversAll(codec, local, Init(ds), Init(ms))
  }

  function AfterDelivery(st: Control, codec: Codec, d: Delivery): Control {
    match d
    case ByEcho(id, echo) => StateAfterEcho(st, codec, id, echo)
    case ByTransport(t) => StateAfter(st, codec, [t])
  }

  function AfterDeliveries(st: Control, codec: Codec, ds: seq<Delivery>): Control {
    if ds == [] then st else AfterDelivery(AfterDeliveries(st, codec, Init(ds)), codec, Last(ds))
  }

  /** The engine object goes through these states. */
  method Process(engine: CoordinatorControlEngine, ds: seq<Delivery>)
    modifies engine, engine.state
    ensures engine.state.Value() == AfterDeliveries(old(engine.state.Value()), engine.codec, ds)
  {
    ghost var before := engine.state.Value();
    for i := 0 to |ds|
      invariant engine.state.Value() == AfterDeliveries(before, engine.codec, ds[..i])
    {
      var next := ds[..i + 1];
      assert Init(next) == ds[..i] && Last(next) == ds[i];
      match ds[i] {
        case ByEcho(id, echo) => var _ := engine.ApplyPublishedLocalMessage(id, echo);
        case ByTransport(t) => var _ := engine.ReplayTransportMessages([t]);
      }
    }
    assert ds[..|ds|] == ds;
  }

  lemma SingleDecodes(codec: Codec, local: string, t: Transport, e: Envelope)
    requires t.senderPubkey != Some(local) && codec.decode(t.rawContent) == Ok(e)
    ensures DecodeAll(codec, local, [t]) == Ok([Ordered(t, e)])
  {
    assert Init([t]) == [] && DecodeAll(codec, local, []) == Ok([]);
    assert [] + [Ordered(t, e)] == [Ordered(t, e)];
  }

  lemma SingleBatchApplies(st: Control, o: Ordered)
    ensures ApplyAll(st, Sort(OrderedKey, [o])) == Apply(st, OrderedId(o), o.envelope)
  {
    SortOfSorted(OrderedKey, [o]);
    assert Init([o]) == [];
  }

  /** Either way, a delivery applies the message once. */
  lemma DeliveryApplies(st: Control, codec: Codec, d: Delivery, m: Ordered)
    requires Faithful(codec) && Delivers(codec, st.localPubkey, d, m)
    ensures AfterDelivery(st, codec, d) == Apply(st, OrderedId(m), m.envelope)
  {
    if d.ByTransport? {
      SingleDecodes(codec, st.localPubkey, d.transport, m.envelope);
      SingleBatchApplies(st, Ordered(d.transport, m.envelope));
    }
  }

  /** What comes back is filtered out before it is even decoded. */
  lemma ComingBackDoesNothing(st: Control, codec: Codec, d: Delivery)
    requires ComesBack(st.localPubkey, d)
    ensures AfterDelivery(st, codec, d) == st
  {
    var t := d.transport;
    assert Init([t]) == [] && DecodeAll(codec, st.localPubkey, []) == Ok([]);
    assert DecodeAll(codec, st.localPubkey, [t]) == Ok([]);
    assert Sort(OrderedKey, []) == [];
  }

  lemma {:induction false} DeliveriesApply(st: Control, codec: Codec, ds: seq<Delivery>, ms: seq<Ordered>)
    requires Faithful(codec) && DeliversAll(codec, st.localPubkey, ds, ms)
    ensures AfterDeliveries(st, codec, ds) == ApplyAll(st, ms)
  {
    if ds != [] {
      if ComesBack(st.localPubkey, Last(ds)) {
        DeliveriesApply(st, codec, Init(ds), ms);
        ProcessedAfter(st, ms);
        ComingBackDoesNothing(ApplyAll(st, ms), codec, Last(ds));
      } else {
        DeliveriesApply(st, codec, Init(ds), Init(ms));
        ProcessedAfter(st, Init(ms));
        DeliveryApplies(ApplyAll(st, Init(ms)), codec, Last(ds), Last(ms));
      }
    }
  }

  // ----- repeats -----

  /** A message applied before has no effect when it comes again. */
  lemma RepeatHasNoEffect(st: Control, before: seq<Ordered>, m: Ordered)
    requires m in before
    ensures var after := ApplyAll(st, before);
            Apply(after, OrderedId(m), m.envelope) == after
  {
    ProcessedAfter(st, before);
    if m.envelope.electionId == st.electionId {
      OfElectionHas(st.electionId, before, m);
      IdsHas(OrderedId, OfElection(st.electionId, before), m);
    }
  }

  lemma {:induction false} RepeatsDrop(st: Control, ms: seq<Ordered>)
    requires IdsIdentify(OrderedId, ms)
    ensures ApplyAll(st, ms) == ApplyAll(st, Firsts(OrderedId, {}, ms))
  {
    if ms != [] {
      SplitLast(ms);
      var init, m := Init(ms), Last(ms);
      var firsts := Firsts(OrderedId, {}, init);
      RepeatsDrop(st, init);
      if OrderedId(m) in Ids(OrderedId, init) {
        var x := IdsFrom(OrderedId, init, OrderedId(m));
        assert x == m && Firsts(OrderedId, {}, ms) == firsts;
        RepeatHasNoEffect(st, init, m);
      } else {
        assert Firsts(OrderedId, {}, ms) == firsts + [m];
        assert Init(firsts + [m]) == firsts && Last(firsts + [m]) == m;
      }
    }
  }

  // ----- agreement -----

  /** The control state but for whose it is. */
  function Shared(st: Control): Control {
    st.(localPubkey := "")
  }

  lemma {:induction false} ApplyAllShared(st: Control, ms: seq<Ordered>)
    ensures Shared(ApplyAll(st, ms)) == ApplyAll(Shared(st), ms)
  {
    if ms != [] {
      ApplyAllShared(st, Init(ms));
    }
  }

  /**
   Two replicas that start alike and process the same messages in the same order, each its own by echo
   and others' by transport, with any redeliveries mixed in and their own coming back to them, end alike but
   for their own key.
   */
  lemma ReplicasAgree(codec: Codec, a: Control, b: Control, da: seq<Delivery>, ma: seq<Ordered>, db: seq<Delivery>,
                      mb: seq<Ordered>)
    requires Faithful(codec) && Shared(a) == Shared(b)
    requires DeliversAll(codec, a.localPubkey, da, ma) && DeliversAll(codec, b.localPubkey, db, mb)
    requires IdsIdentify(OrderedId, ma) && IdsIdentify(OrderedId, mb)
    requires Firsts(OrderedId, {}, ma) == Firsts(OrderedId, {}, mb)
    ensures Shared(AfterDeliveries(a, codec, da)) == Shared(AfterDeliveries(b, codec, db))
  {
    DeliveriesApply(a, codec, da, ma);
    DeliveriesApply(b, codec, db, mb);
    RepeatsDrop(a, ma);
    RepeatsDrop(b, mb);
    ApplyAllShared(a, Firsts(OrderedId, {}, ma));
    ApplyAllShared(b, Firsts(OrderedId, {}, mb));
  }
}
