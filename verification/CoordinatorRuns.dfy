/**
 Runs of many coordinators: each creates messages, echoes its own, replays what the relays deliver in
 any batches, saves and restores snapshots; anyone may publish anything else.
 */
module CoordinatorRuns {
  import opened Wrappers
  import opened Order
  import opened Sorting
  import opened CoordinatorMessages
  import opened CoordinatorState
  import opened CoordinatorReplay
  import opened CoordinatorBatch
  import opened CoordinatorEngine
  import opened CoordinatorSteps
  import opened CoordinatorOpening
  import opened CoordinatorBacking

  datatype Replica = Replica(config: Config, control: Control)

  /** An envelope and the ids its creator had processed when it was created. */
  datatype Message = Message(envelope: Envelope, causes: set<string>)

  datatype System = System(
    replicas: map<string, Replica>, outbox: seq<Message>, published: map<string, Message>, saved: seq<Replica>)

  datatype Action =
    | Create(name: string, roundId: Option<string>, at: i64, payload: Payload)
    | Publish(index: nat, id: string)
    | Inject(id: string, envelope: Envelope)
    | Echo(name: string, id: string)
    | Deliver(name: string, batch: seq<Transport>)
    | Save(name: string)
    | Restore(name: string, index: nat)

  /** What a relay delivers under an id is what was published under it, or does not decode. */
  ghost predicate Authentic(codec: Codec, published: map<string, Message>, t: Transport) {
    codec.decode(t.rawContent).Ok? ==>
      t.eventId in published && codec.decode(t.rawContent).value == published[t.eventId].envelope
  }

  ghost predicate Enabled(codec: Codec, s: System, a: Action) {
    match a
    case Create(name, _, _, _) => name in s.replicas
    case Publish(index, id) => index < |s.outbox| && id !in s.published
    case Inject(id, _) => id !in s.published
    case Echo(name, id) => name in s.replicas && id in s.published
    case Deliver(name, batch) => name in s.replicas && forall t :: t in batch ==> Authentic(codec, s.published, t)
    case Save(name) => name in s.replicas
    case Restore(name, index) => name in s.replicas && index < |s.saved|
  }

  function WithControl(s: System, name: string, control: Control): System
    requires name in s.replicas
  {
    s.(replicas := s.replicas[name := s.replicas[name].(control := control)])
  }

  ghost function Next(codec: Codec, s: System, a: Action): System
    requires Enabled(codec, s, a)
  {
    match a
    case Create(name, roundId, at, payload) =>
      var replica := s.replicas[name];
      var e := NewEnvelope(replica.config, replica.control, roundId, at, payload);
      s.(outbox := s.outbox + [Message(e, replica.control.processed)])
    case Publish(index, id) => s.(published := s.published[id := s.outbox[index]])
    case Inject(id, envelope) => s.(published := s.published[id := Message(envelope, {})])
    case Echo(name, id) =>
      WithControl(s, name, StateAfterEcho(s.replicas[name].control, codec, id, codec.toEcho(s.published[id].envelope)))
    case Deliver(name, batch) => WithControl(s, name, StateAfter(s.replicas[name].control, codec, batch))
    case Save(name) => s.(saved := s.saved + [s.replicas[name]])
    case Restore(name, index) => s.(replicas := s.replicas[name := s.saved[index]])
  }

  ghost predicate Initial(s: System) {
    && s.outbox == [] && s.published == map[] && s.saved == []
    && forall name :: name in s.replicas ==>
         var st := s.replicas[name].control;
         st.processed == {} && st.logicalEpoch == 0 && st.rounds == map[]
  }

  /** The systems a run passes through, and the actions between them. */
  ghost predicate IsRun(codec: Codec, run: seq<System>, actions: seq<Action>) {
    && |run| == |actions| + 1
    && Initial(run[0])
    && forall i :: 0 <= i < |actions| ==> Enabled(codec, run[i], actions[i]) && run[i + 1] == Next(codec, run[i], actions[i])
  }

  // ----- where messages come from -----

  /** The replica was asked for this message: round, time and content are those asked for. */
  ghost predicate AskedFor(m: Message, s: System, a: Action) {
    && a.Create? && a.name in s.replicas
    && m.envelope.roundId == a.roundId && m.envelope.createdAt == a.at && m.envelope.payload == a.payload
    && m.envelope.senderPubkey == s.replicas[a.name].config.localPubkey
    && m.envelope.electionId == s.replicas[a.name].config.electionId
    && m.envelope.schemaVersion == 1 && m.causes == s.replicas[a.name].control.processed
  }

  /** Every message waiting to be published was asked for at some step of the run. */
  lemma {:induction false} EveryMessageAsked(codec: Codec, run: seq<System>, actions: seq<Action>, i: nat, m: Message)
    returns (j: nat)
    requires IsRun(codec, run, actions) && i < |run| && m in run[i].outbox
    ensures j < i && AskedFor(m, run[j], actions[j])
  {
    assert i > 0 && run[i] == Next(codec, run[i - 1], actions[i - 1]);
    if m in run[i - 1].outbox {
      j := EveryMessageAsked(codec, run, actions, i - 1, m);
    } else {
      j := i - 1;
    }
  }

  /** And every message published was, or was published by someone outside under that id. */
  lemma {:induction false} EveryPublicationAsked(codec: Codec, run: seq<System>, actions: seq<Action>, i: nat, id: string)
    returns (j: nat)
    requires IsRun(codec, run, actions) && i < |run| && id in run[i].published
    ensures j < i
    ensures AskedFor(run[i].published[id], run[j], actions[j]) || actions[j] == Inject(id, run[i].published[id].envelope)
  {
    assert i > 0 && run[i] == Next(codec, run[i - 1], actions[i - 1]);
    var a := actions[i - 1];
    if a.Publish? && a.id == id {
      j := EveryMessageAsked(codec, run, actions, i - 1, run[i - 1].outbox[a.index]);
    } else if a.Inject? && a.id == id {
      j := i - 1;
    } else {
      j := EveryPublicationAsked(codec, run, actions, i - 1, id);
    }
  }

  // ----- what decoding hands over -----

  ghost predicate Faithfully(published: map<string, Message>, o: Ordered) {
    OrderedId(o) in published && o.envelope == published[OrderedId(o)].envelope
  }

  lemma DeliveredFaithfully(codec: Codec, st: Control, published: map<string, Message>, batch: seq<Transport>,
                            decoded: seq<Ordered>)
    requires forall t :: t in batch ==> Authentic(codec, published, t)
    requires DecodeAll(codec, st.localPubkey, batch) == Ok(decoded)
    ensures forall o :: o in Sort(OrderedKey, decoded) ==> Faithfully(published, o)
  {
    SortElements(OrderedKey, decoded);
    forall o | o in decoded ensures Faithfully(published, o) {
      DecodedHas(codec, st.localPubkey, batch, o);
      assert Authentic(codec, published, o.transport);
    }
  }

  // ----- what an action makes a replica apply -----

  /** The replica that applies envelopes in this action, if one does. */
  function Actor(a: Action): Option<string> {
    match a
    case Echo(name, _) => Some(name)
    case Deliver(name, _) => Some(name)
    case _ => None
  }

  /** The envelopes it applies, in order: its echoed message, or the batch once decoded and sorted. */
  ghost function Given(codec: Codec, s: System, a: Action): seq<Ordered>
    requires Enabled(codec, s, a)
  {
    match a
    case Echo(name, id) => [Ordered(Transport(id, "", None), s.published[id].envelope)]
    case Deliver(name, batch) =>
      (match DecodeAll(codec, s.replicas[name].control.localPubkey, batch)
       case Err(_) => []
       case Ok(decoded) => Sort(OrderedKey, decoded))
    case _ => []
  }

  lemma GivenApplied(codec: Codec, s: System, a: Action)
    requires Faithful(codec) && Enabled(codec, s, a) && Actor(a).Some?
    ensures Next(codec, s, a) ==
              WithControl(s, Actor(a).value, ApplyAll(s.replicas[Actor(a).value].control, Given(codec, s, a)))
  {
    if a.Echo? {
      assert Init(Given(codec, s, a)) == [];
    }
  }

  lemma GivenFaithfully(codec: Codec, s: System, a: Action)
    requires Enabled(codec, s, a)
    ensures forall o :: o in Given(codec, s, a) ==> Faithfully(s.published, o)
  {
    if a.Deliver? {
      var st := s.replicas[a.name].control;
      var decoded := DecodeAll(codec, st.localPubkey, a.batch);
      if decoded.Ok? {
        DeliveredFaithfully(codec, st, s.published, a.batch, decoded.value);
      }
    }
  }

  // ----- the logical clock -----

  /** The clock shows the greatest epoch processed, or 0. */
  ghost predicate ClockIsMax(st: Control, published: map<string, Message>) {
    && st.processed <= published.Keys
    && (forall id :: id in st.processed ==> published[id].envelope.Epoch() <= st.logicalEpoch)
    && (st.logicalEpoch == 0 || exists id :: id in st.processed && published[id].envelope.Epoch() == st.logicalEpoch)
  }

  /** The epoch passes every cause's, unless the clock is saturated. */
  ghost predicate AfterCauses(m: Message, published: map<string, Message>) {
    forall id :: id in m.causes ==>
      id in published &&
      (published[id].envelope.Epoch() < m.envelope.Epoch() ||
       published[id].envelope.Epoch() == m.envelope.Epoch() == U64_MAX)
  }

  ghost predicate ClockInv(s: System) {
    && (forall name :: name in s.replicas ==> ClockIsMax(s.replicas[name].control, s.published))
    && (forall i :: 0 <= i < |s.saved| ==> ClockIsMax(s.saved[i].control, s.published))
    && (forall i :: 0 <= i < |s.outbox| ==> AfterCauses(s.outbox[i], s.published))
    && (forall id :: id in s.published ==> AfterCauses(s.published[id], s.published))
  }

  lemma ClockApply(st: Control, o: Ordered, published: map<string, Message>)
    requires ClockIsMax(st, published) && Faithfully(published, o)
    ensures ClockIsMax(Apply(st, OrderedId(o), o.envelope), published)
  {
    var after := Apply(st, OrderedId(o), o.envelope);
    if Counts(st, o) {
      assert after.processed == st.processed + {OrderedId(o)};
      assert after.logicalEpoch == MaxEpoch(st.logicalEpoch, o.envelope.Epoch());
      if after.logicalEpoch == st.logicalEpoch != 0 {
        var id :| id in st.processed && published[id].envelope.Epoch() == st.logicalEpoch;
        assert id in after.processed;
      } else if after.logicalEpoch != 0 {
        assert OrderedId(o) in after.processed;
      }
    }
  }

  lemma {:induction false} ClockApplyAll(st: Control, events: seq<Ordered>, published: map<string, Message>)
    requires ClockIsMax(st, published)
    requires forall o :: o in events ==> Faithfully(published, o)
    ensures ClockIsMax(ApplyAll(st, events), published)
  {
    if events != [] {
      SplitLast(events);
      assert Last(events) in events;
      ClockApplyAll(st, Init(events), published);
      ClockApply(ApplyAll(st, Init(events)), Last(events), published);
    }
  }

  lemma ClockGrows(st: Control, published: map<string, Message>, id: string, m: Message)
    requires ClockIsMax(st, published) && id !in published
    ensures ClockIsMax(st, published[id := m])
  {
    var more := published[id := m];
    if st.logicalEpoch != 0 {
      var x :| x in st.processed && published[x].envelope.Epoch() == st.logicalEpoch;
      assert more[x] == published[x];
    }
  }

  lemma ClockPublish(s: System, id: string, m: Message)
    requires ClockInv(s) && id !in s.published && AfterCauses(m, s.published)
    ensures ClockInv(s.(published := s.published[id := m]))
  {
    forall name | name in s.replicas ensures ClockIsMax(s.replicas[name].control, s.published[id := m]) {
      ClockGrows(s.replicas[name].control, s.published, id, m);
    }
    forall i | 0 <= i < |s.saved| ensures ClockIsMax(s.saved[i].control, s.published[id := m]) {
      ClockGrows(s.saved[i].control, s.published, id, m);
    }
  }

  lemma ClockWith(s: System, name: string, control: Control)
    requires ClockInv(s) && name in s.replicas && ClockIsMax(control, s.published)
    ensures ClockInv(WithControl(s, name, control))
  {
  }

  lemma ClockActs(codec: Codec, s: System, a: Action)
    requires Faithful(codec) && Enabled(codec, s, a) && ClockInv(s) && Actor(a).Some?
    ensures ClockInv(Next(codec, s, a))
  {
    var st, given := s.replicas[Actor(a).value].control, Given(codec, s, a);
    GivenFaithfully(codec, s, a);
    ClockApplyAll(st, given, s.published);
    ClockWith(s, Actor(a).value, ApplyAll(st, given));
    GivenApplied(codec, s, a);
  }

  lemma ClockNext(codec: Codec, s: System, a: Action)
    requires Faithful(codec) && Enabled(codec, s, a) && ClockInv(s)
    ensures ClockInv(Next(codec, s, a))
  {
    if Actor(a).Some? {
      ClockActs(codec, s, a);
    } else if a.Publish? {
      ClockPublish(s, a.id, s.outbox[a.index]);
    } else if a.Inject? {
      ClockPublish(s, a.id, Message(a.envelope, {}));
    }
  }

  /** In every system of every run the clock condition holds. */
  lemma {:induction false} ClockHolds(codec: Codec, run: seq<System>, actions: seq<Action>, i: nat)
    requires Faithful(codec) && IsRun(codec, run, actions) && i < |run|
    ensures ClockInv(run[i])
  {
    if i > 0 {
      ClockHolds(codec, run, actions, i - 1);
      ClockNext(codec, run[i - 1], actions[i - 1]);
    }
  }

  /** Each id of the chain was processed by whoever created the next before creating it. */
  ghost predicate CausalChain(published: map<string, Message>, ids: seq<string>) {
    && ids != []
    && (forall i :: 0 <= i < |ids| ==> ids[i] in published)
    && forall i :: 0 < i < |ids| ==> ids[i - 1] in published[ids[i]].causes
  }

  lemma {:induction false} EpochsRise(published: map<string, Message>, ids: seq<string>)
    requires forall id :: id in published ==> AfterCauses(published[id], published)
    requires CausalChain(published, ids) && |ids| > 1
    ensures published[ids[0]].envelope.Epoch() < published[Last(ids)].envelope.Epoch() ||
            published[Last(ids)].envelope.Epoch() == published[ids[|ids| - 2]].envelope.Epoch() == U64_MAX
  {
    var init := Init(ids);
    assert Last(init) == ids[|ids| - 2] && Last(init) in published[Last(ids)].causes;
    if |ids| > 2 {
      EpochsRise(published, init);
    }
  }

  /**
   Along a causal chain in any run epochs rise strictly, short of saturation; so replay never puts an
   effect before a cause of its own event type.
   */
  lemma CausesSortFirst(codec: Codec, run: seq<System>, actions: seq<Action>, i: nat, ids: seq<string>)
    requires Faithful(codec) && IsRun(codec, run, actions) && i < |run|
    requires CausalChain(run[i].published, ids) && |ids| > 1
    requires run[i].published[ids[|ids| - 2]].envelope.Epoch() != U64_MAX
    ensures var cause, effect := run[i].published[ids[0]].envelope, run[i].published[Last(ids)].envelope;
            && cause.Epoch() < effect.Epoch()
            && (cause.payload.EventType() == effect.payload.EventType() ==>
                  forall t, u :: KeyLt(OrderedKey(Ordered(t, cause)), OrderedKey(Ordered(u, effect))))
  {
    ClockHolds(codec, run, actions, i);
    EpochsRise(run[i].published, ids);
  }

  /** One link: processing m1 before creating m2 gives m2 the greater epoch iff m1 is not saturated. */
  lemma CauseHasSmallerEpoch(codec: Codec, run: seq<System>, actions: seq<Action>, i: nat, cause: string, effect: string)
    requires Faithful(codec) && IsRun(codec, run, actions) && i < |run|
    requires effect in run[i].published && cause in run[i].published[effect].causes
    ensures cause in run[i].published
    ensures run[i].published[cause].envelope.Epoch() < run[i].published[effect].envelope.Epoch() <==>
            run[i].published[cause].envelope.Epoch() != U64_MAX
  {
    ClockHolds(codec, run, actions, i);
    assert AfterCauses(run[i].published[effect], run[i].published);
  }

  // ----- what runs keep -----

  /** The envelopes published so far. */
  function Envelopes(published: map<string, Message>): map<string, Envelope> {
    map id | id in published :: published[id].envelope
  }

  ghost predicate AllGood(s: System, good: Control -> bool) {
    && (forall name :: name in s.replicas ==> good(s.replicas[name].control))
    && (forall i :: 0 <= i < |s.saved| ==> good(s.saved[i].control))
  }

  /** The property holds of the acting replica from each envelope of the action to the next. */
  ghost predicate ActsWell(codec: Codec, s: System, a: Action, good: Control -> bool)
    requires Enabled(codec, s, a)
  {
    Actor(a).Some? ==> Throughout(s.replicas[Actor(a).value].control, Given(codec, s, a), good)
  }

  /** Some envelope of the action breaks it for the acting replica. */
  ghost predicate ActsBadly(codec: Codec, s: System, a: Action, breaks: (Control, Ordered) -> bool)
    requires Enabled(codec, s, a)
  {
    Actor(a).Some? && Somewhere(s.replicas[Actor(a).value].control, Given(codec, s, a), breaks)
  }

  lemma GoodWith(s: System, name: string, control: Control, good: Control -> bool)
    requires AllGood(s, good) && name in s.replicas && good(control)
    ensures AllGood(WithControl(s, name, control), good)
  {
  }

  lemma GoodNext(codec: Codec, s: System, a: Action, good: Control -> bool, breaks: (Control, Ordered) -> bool)
    requires Faithful(codec) && Enabled(codec, s, a) && AllGood(s, good) && DecidesAll(good, breaks, Given(codec, s, a))
    ensures ActsWell(codec, s, a, good) <==> !ActsBadly(codec, s, a, breaks)
    ensures ActsWell(codec, s, a, good) ==> AllGood(Next(codec, s, a), good)
  {
    if Actor(a).Some? {
      var st, given := s.replicas[Actor(a).value].control, Given(codec, s, a);
      KeptIff(st, given, good, breaks);
      if ActsWell(codec, s, a, good) {
        GoodAtEnd(st, given, good);
        GoodWith(s, Actor(a).value, ApplyAll(st, given), good);
        GivenApplied(codec, s, a);
      }
    }
  }

  ghost predicate WellUpTo(codec: Codec, run: seq<System>, actions: seq<Action>, good: Control -> bool, i: nat)
    requires IsRun(codec, run, actions) && i <= |actions|
  {
    forall j :: 0 <= j < i ==> ActsWell(codec, run[j], actions[j], good)
  }

  ghost predicate BadlyBefore(codec: Codec, run: seq<System>, actions: seq<Action>, breaks: (Control, Ordered) -> bool, i: nat)
    requires IsRun(codec, run, actions) && i <= |actions|
  {
    exists j :: 0 <= j < i && ActsBadly(codec, run[j], actions[j], breaks)
  }

  /** `breaks` tells the steps that lose the property, for every envelope applied before the `i`-th system. */
  ghost predicate DecidesRun(codec: Codec, run: seq<System>, actions: seq<Action>, good: Control -> bool,
                             breaks: (Control, Ordered) -> bool, i: nat)
    requires IsRun(codec, run, actions) && i <= |actions|
  {
    forall j :: 0 <= j < i ==> DecidesAll(good, breaks, Given(codec, run[j], actions[j]))
  }

  /**
   In any run, a property that new states have holds of all replicas up to some point, envelope by envelope,
   iff none of them has met a step that breaks it.
   */
  lemma {:induction false} RunKeptIff(codec: Codec, run: seq<System>, actions: seq<Action>, good: Control -> bool,
                                      breaks: (Control, Ordered) -> bool, i: nat)
    requires Faithful(codec) && IsRun(codec, run, actions) && i <= |actions|
    requires AllGood(run[0], good) && DecidesRun(codec, run, actions, good, breaks, i)
    ensures WellUpTo(codec, run, actions, good, i) <==> !BadlyBefore(codec, run, actions, breaks, i)
    ensures WellUpTo(codec, run, actions, good, i) ==> AllGood(run[i], good)
  {
    if i > 0 {
      RunKeptIff(codec, run, actions, good, breaks, i - 1);
      if WellUpTo(codec, run, actions, good, i - 1) {
        GoodNext(codec, run[i - 1], actions[i - 1], good, breaks);
        LastOfRun(codec, run, actions, good, breaks, i);
      } else {
        var j :| 0 <= j < i - 1 && ActsBadly(codec, run[j], actions[j], breaks);
        var k :| 0 <= k < i - 1 && !ActsWell(codec, run[k], actions[k], good);
      }
    }
  }

  lemma LastOfRun(codec: Codec, run: seq<System>, actions: seq<Action>, good: Control -> bool,
                  breaks: (Control, Ordered) -> bool, i: nat)
    requires IsRun(codec, run, actions) && 0 < i <= |actions|
    requires WellUpTo(codec, run, actions, good, i - 1) && !BadlyBefore(codec, run, actions, breaks, i - 1)
    ensures WellUpTo(codec, run, actions, good, i) <==> ActsWell(codec, run[i - 1], actions[i - 1], good)
    ensures BadlyBefore(codec, run, actions, breaks, i) <==> ActsBadly(codec, run[i - 1], actions[i - 1], breaks)
  {
    if BadlyBefore(codec, run, actions, breaks, i) {
      var j :| 0 <= j < i && ActsBadly(codec, run[j], actions[j], breaks);
    }
  }

  lemma NeverBadly(codec: Codec, run: seq<System>, actions: seq<Action>, i: nat)
    requires IsRun(codec, run, actions) && i <= |actions|
    ensures !BadlyBefore(codec, run, actions, Never(), i)
  {
  }

  /** In particular a property that no step loses holds of every replica and snapshot in every run. */
  lemma RunKeeps(codec: Codec, run: seq<System>, actions: seq<Action>, good: Control -> bool, i: nat)
    requires Faithful(codec) && IsRun(codec, run, actions) && i <= |actions|
    requires AllGood(run[0], good) && DecidesRun(codec, run, actions, good, Never(), i)
    ensures AllGood(run[i], good)
  {
    RunKeptIff(codec, run, actions, good, Never(), i);
    NeverBadly(codec, run, actions, i);
  }

  lemma {:induction false} PublishedStays(codec: Codec, run: seq<System>, actions: seq<Action>, j: nat, i: nat, id: string)
    requires IsRun(codec, run, actions) && j <= i <= |actions| && id in run[j].published
    ensures id in run[i].published && run[i].published[id] == run[j].published[id]
    decreases i - j
  {
    if j < i {
      PublishedStays(codec, run, actions, j, i - 1, id);
      assert run[i] == Next(codec, run[i - 1], actions[i - 1]);
    }
  }

  /** Whatever is applied in a run stands in every later log. */
  lemma GivenLogged(codec: Codec, run: seq<System>, actions: seq<Action>, j: nat, i: nat, o: Ordered)
    requires IsRun(codec, run, actions) && j < i <= |actions| && o in Given(codec, run[j], actions[j])
    ensures Logged(Envelopes(run[i].published), o)
  {
    GivenFaithfully(codec, run[j], actions[j]);
    PublishedStays(codec, run, actions, j, i, OrderedId(o));
  }

  // ----- records under their own ids -----

  ghost function Filed(): Control -> bool {
    (st: Control) => FiledRecords(st.rounds)
  }

  lemma FilingKept(o: Ordered)
    ensures Decides(Filed(), Never(), o)
  {
    forall st: Control | FiledRecords(st.rounds) ensures FiledRecords(Apply(st, OrderedId(o), o.envelope).rounds) {
      ApplyFiles(st, OrderedId(o), o.envelope);
    }
  }

  /** In every run each replica files its records under their own round ids. */
  lemma RecordsFiled(codec: Codec, run: seq<System>, actions: seq<Action>, i: nat, name: string)
    requires Faithful(codec) && IsRun(codec, run, actions) && i < |run| && name in run[i].replicas
    ensures FiledRecords(run[i].replicas[name].control.rounds)
  {
    forall j, o | 0 <= j < i && o in Given(codec, run[j], actions[j]) ensures Decides(Filed(), Never(), o) {
      FilingKept(o);
    }
    RunKeeps(codec, run, actions, Filed(), i);
  }

  /** So in every run a replica's views are strictly ordered by round id. */
  lemma ViewsInOrder(codec: Codec, run: seq<System>, actions: seq<Action>, i: nat, name: string, views: seq<RoundView>)
    requires Faithful(codec) && IsRun(codec, run, actions) && i < |run| && name in run[i].replicas
    requires var rounds := run[i].replicas[name].control.rounds;
             views == Sort(ViewKey, ViewsOf(rounds, Ascending(rounds.Keys)))
    ensures StrictlySorted(ViewKey, views) && |views| == |run[i].replicas[name].control.rounds|
  {
    RecordsFiled(codec, run, actions, i, name);
    ViewsListed(run[i].replicas[name].control.rounds, views);
  }

  // ----- unanimous opening -----

  ghost predicate AllComply(published: map<string, Message>, electionId: string, r: string, names: seq<string>) {
    forall id :: id in published ==> Complies(published[id].envelope, electionId, r, names)
  }

  /** Of the states of the election. */
  ghost predicate UnanimousFor(st: Control, electionId: string, r: string, names: seq<string>) {
    st.electionId == electionId ==> UnanimousIn(st, r, names)
  }

  ghost function UnanimousWith(electionId: string, r: string, names: seq<string>): Control -> bool {
    (st: Control) => UnanimousFor(st, electionId, r, names)
  }

  lemma UnanimityKept(electionId: string, r: string, names: seq<string>, o: Ordered)
    requires ProperRoster(names) && Complies(o.envelope, electionId, r, names)
    ensures Decides(UnanimousWith(electionId, r, names), Never(), o)
  {
    forall st | UnanimousFor(st, electionId, r, names)
      ensures UnanimousFor(Apply(st, OrderedId(o), o.envelope), electionId, r, names)
    {
      if st.electionId == electionId {
        UnanimousApply(st, o, r, names);
      }
    }
  }

  /**
   In every run in which the election's drafts and proposals of a round carry one roster and only its members
   commit, whenever a replica of the election has the round open its view shows exactly that roster as
   committers and nobody missing.
   */
  lemma OpeningIsUnanimous(codec: Codec, run: seq<System>, actions: seq<Action>, i: nat, r: string, names: seq<string>,
                           name: string)
    requires Faithful(codec) && IsRun(codec, run, actions) && i < |run| && ProperRoster(names)
    requires name in run[i].replicas && r in run[i].replicas[name].control.rounds
    requires AllComply(run[i].published, run[i].replicas[name].control.electionId, r, names)
    requires run[i].replicas[name].control.rounds[r].phase == Open
    ensures var view := ViewOf(run[i].replicas[name].control.rounds[r]);
            view.openCommitters == names && view.missingOpenCommitters == []
  {
    var electionId := run[i].replicas[name].control.electionId;
    var good := UnanimousWith(electionId, r, names);
    forall j, o | 0 <= j < i && o in Given(codec, run[j], actions[j]) ensures Decides(good, Never(), o) {
      GivenLogged(codec, run, actions, j, i, o);
      UnanimityKept(electionId, r, names, o);
    }
    RunKeeps(codec, run, actions, good, i);
    assert good(run[i].replicas[name].control);
    OpenViewIsComplete(run[i].replicas[name].control.rounds[r], names);
  }

  // ----- exactly when it is -----

  /**
   In any run whatever, the replicas stay unanimous about a round up to some point, envelope by envelope,
   if and only if none of them has met a step that breaks it.
   */
  lemma UnanimousRunIff(codec: Codec, run: seq<System>, actions: seq<Action>, r: string, i: nat)
    requires Faithful(codec) && IsRun(codec, run, actions) && i <= |actions|
    ensures WellUpTo(codec, run, actions, Good(r), i) <==> !BadlyBefore(codec, run, actions, BreaksRound(r), i)
    ensures WellUpTo(codec, run, actions, Good(r), i) ==> AllGood(run[i], Good(r))
  {
    forall j, o | 0 <= j < i && o in Given(codec, run[j], actions[j]) ensures Decides(Good(r), BreaksRound(r), o) {
      UnanimityDecided(r, o);
    }
    RunKeptIff(codec, run, actions, Good(r), BreaksRound(r), i);
  }

  /** As long as they do, no replica's view of the round, when it is open, misses anybody. */
  lemma OpenMissesNobody(codec: Codec, run: seq<System>, actions: seq<Action>, r: string, i: nat, name: string)
    requires Faithful(codec) && IsRun(codec, run, actions) && i <= |actions|
    requires !BadlyBefore(codec, run, actions, BreaksRound(r), i)
    requires name in run[i].replicas && r in run[i].replicas[name].control.rounds
    requires run[i].replicas[name].control.rounds[r].phase == Open
    ensures ViewOf(run[i].replicas[name].control.rounds[r]).missingOpenCommitters == []
  {
    UnanimousRunIff(codec, run, actions, r, i);
    assert Good(r)(run[i].replicas[name].control);
    GoodViewMissesNobody(run[i].replicas[name].control, r);
  }

  // ----- which proposal was committed to -----

  /**
   In any run whatever, open means fully backed for every replica up to some point, envelope by envelope, if
   and only if none of them has met a step that unbacks the round.
   */
  lemma BackedRunIff(codec: Codec, run: seq<System>, actions: seq<Action>, r: string, i: nat)
    requires Faithful(codec) && IsRun(codec, run, actions) && i <= |actions|
    ensures var log := Envelopes(run[i].published);
            && (WellUpTo(codec, run, actions, BackedWith(log, r), i) <==>
                  !BadlyBefore(codec, run, actions, UnbacksWith(log, r), i))
            && (WellUpTo(codec, run, actions, BackedWith(log, r), i) ==> AllGood(run[i], BackedWith(log, r)))
  {
    var log := Envelopes(run[i].published);
    forall j, o | 0 <= j < i && o in Given(codec, run[j], actions[j])
      ensures Decides(BackedWith(log, r), UnbacksWith(log, r), o)
    {
      GivenLogged(codec, run, actions, j, i, o);
      BackingDecided(log, r, o);
    }
    RunKeptIff(codec, run, actions, BackedWith(log, r), UnbacksWith(log, r), i);
  }

  /** As long as none has, every member an open round shows has published a commit to the proposal it shows. */
  lemma OpenIsMeant(codec: Codec, run: seq<System>, actions: seq<Action>, r: string, i: nat, name: string, member: string)
    requires Faithful(codec) && IsRun(codec, run, actions) && i <= |actions|
    requires !BadlyBefore(codec, run, actions, UnbacksWith(Envelopes(run[i].published), r), i)
    requires name in run[i].replicas && r in run[i].replicas[name].control.rounds
    requires run[i].replicas[name].control.rounds[r].phase == Open
    requires member in run[i].replicas[name].control.rounds[r].roster
    ensures var round := run[i].replicas[name].control.rounds[r];
            && member in round.openCommits && round.proposalEventId.Some?
            && CommitFor(Envelopes(run[i].published), r, member, round.openCommits[member], round.proposalEventId.value)
  {
    var log := Envelopes(run[i].published);
    BackedRunIff(codec, run, actions, r, i);
    assert BackedWith(log, r)(run[i].replicas[name].control);
    assert member in NameSet(run[i].replicas[name].control.rounds[r].roster);
  }

  /**
   In every run in which the election has one proposal for the round at most, everyone a replica of the
   election shows as committer has published a commit to the very proposal it shows.
   */
  lemma CommittersMeantThis(codec: Codec, run: seq<System>, actions: seq<Action>, i: nat, r: string, name: string,
                            committer: string)
    requires Faithful(codec) && IsRun(codec, run, actions) && i < |run|
    requires name in run[i].replicas && r in run[i].replicas[name].control.rounds
    requires OneProposal(Envelopes(run[i].published), run[i].replicas[name].control.electionId, r)
    requires committer in ViewOf(run[i].replicas[name].control.rounds[r]).openCommitters
    ensures var round := run[i].replicas[name].control.rounds[r];
            && committer in round.openCommits && round.proposalEventId.Some?
            && CommitFor(Envelopes(run[i].published), r, committer, round.openCommits[committer], round.proposalEventId.value)
  {
    var electionId, log := run[i].replicas[name].control.electionId, Envelopes(run[i].published);
    var good := CurrentWith(log, electionId, r);
    forall j, o | 0 <= j < i && o in Given(codec, run[j], actions[j]) ensures Decides(good, Never(), o) {
      GivenLogged(codec, run, actions, j, i, o);
      CurrencyKept(log, electionId, r, o);
    }
    RunKeeps(codec, run, actions, good, i);
    assert good(run[i].replicas[name].control);
  }
}
