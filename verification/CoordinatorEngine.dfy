/** One coordinator's engine (`coordinator_engine.rs`): creating messages, applying them, viewing rounds. */
module CoordinatorEngine {
  import opened Wrappers
  import opened Order
  import opened Sorting
  import opened CoordinatorMessages
  import opened CoordinatorState
  import opened CoordinatorReplay
  import opened CoordinatorReports

  datatype EngineKind = Deterministic | OpenMls

  datatype Config = Config(
    electionId: string, localPubkey: string, roster: seq<string>, leadPubkey: Option<string>, engineKind: EngineKind)

  /** The group engine is saved as what it encodes and decodes by. */
  datatype Snapshot = Snapshot(config: Config, state: Control, groupEngine: Codec)

  datatype Outbound = Outbound(
    schemaVersion: u32, electionId: string, roundId: Option<string>, eventType: CoordinatorEventType, createdAt: i64,
    senderPubkey: string, logicalEpoch: Option<u64>, content: string, localEcho: string)

  datatype EngineError = GroupEngine(error: GroupEngineError) | Serialization(detail: string)

  datatype RoundView = RoundView(
    roundId: string, prompt: Option<string>, thresholdT: Option<u32>, thresholdN: Option<u32>, roster: seq<string>,
    proposalEventId: Option<string>, phase: Phase, openCommitters: seq<string>, missingOpenCommitters: seq<string>,
    tallySenders: seq<string>, approvalSenders: seq<string>)

  /** `logical_epoch.saturating_add(1)` */
  function NextEpoch(epoch: u64): u64 {
    if epoch == U64_MAX then U64_MAX else epoch + 1
  }

  /** The envelope a new message carries: one tick past everything processed. */
  function NewEnvelope(config: Config, st: Control, roundId: Option<string>, at: i64, payload: Payload): Envelope {
    Envelope(COORDINATOR_SCHEMA_VERSION, config.electionId, roundId, at, config.localPubkey,
             Some(NextEpoch(st.logicalEpoch)), payload)
  }

  /** The roster members with no commit, in roster order. */
  function Missing(roster: seq<string>, commits: map<string, string>): seq<string> {
    if roster == [] then [] else
      Missing(Init(roster), commits) + if Last(roster) in commits then [] else [Last(roster)]
  }

  function ViewOf(round: RoundRecord): RoundView {
    RoundView(round.roundId, round.prompt, round.thresholdT, round.thresholdN, round.roster, round.proposalEventId, round.phase,
              Ascending(round.openCommits.Keys), Missing(round.roster, round.openCommits), Ascending(round.tallies.Keys),
              Ascending(round.approvals.Keys))
  }

  /** The fields around a message's content are those of the envelope in it. */
  ghost predicate Carries(message: Outbound, e: Envelope) {
    && message.schemaVersion == e.schemaVersion && message.electionId == e.electionId && message.roundId == e.roundId
    && message.eventType == e.payload.EventType() && message.createdAt == e.createdAt
    && message.senderPubkey == e.senderPubkey && message.logicalEpoch == e.logicalEpoch
  }

  /** `result` is the message that carries `e`, or the failure to encode it. */
  ghost predicate Made(result: Result<Outbound, EngineError>, codec: Codec, e: Envelope) {
    match codec.encode(e)
    case Err(error) => result == Err(GroupEngine(error))
    case Ok(content) =>
      && result.Ok? && Carries(result.value, e)
      && result.value.content == content && result.value.localEcho == codec.toEcho(e)
  }

  // ----- views -----

  ghost predicate Lists(names: seq<string>, members: set<string>) {
    StrictlyAscending(names) && forall name :: name in names <==> name in members
  }

  /** What a view shows of a record. */
  ghost predicate Shows(view: RoundView, round: RoundRecord) {
    && view.roundId == round.roundId && view.phase == round.phase && view.proposalEventId == round.proposalEventId
    && view.prompt == round.prompt && view.thresholdT == round.thresholdT && view.thresholdN == round.thresholdN
    && view.roster == round.roster
    && Lists(view.openCommitters, round.openCommits.Keys)
    && Lists(view.tallySenders, round.tallies.Keys)
    && Lists(view.approvalSenders, round.approvals.Keys)
    && forall name :: name in view.missingOpenCommitters <==> name in round.roster && name !in round.openCommits
  }

  ghost predicate ShownIn(views: seq<RoundView>, round: RoundRecord) {
    exists view :: view in views && Shows(view, round)
  }

  ghost predicate OfSome(view: RoundView, rounds: map<string, RoundRecord>) {
    exists r :: r in rounds && Shows(view, rounds[r])
  }

  /** The views are those of these rounds, all of them. */
  ghost predicate ShowExactly(views: seq<RoundView>, rounds: map<string, RoundRecord>) {
    && (forall r :: r in rounds ==> ShownIn(views, rounds[r]))
    && (forall view :: view in views ==> OfSome(view, rounds))
  }

  function ViewKey(view: RoundView): Key {
    NameKey(view.roundId)
  }

  lemma {:induction false} ApplyAllFiles(st: Control, events: seq<Ordered>)
    requires FiledRecords(st.rounds)
    ensures FiledRecords(ApplyAll(st, events).rounds)
  {
    if events != [] {
      ApplyAllFiles(st, Init(events));
      ApplyFiles(ApplyAll(st, Init(events)), OrderedId(Last(events)), Last(events).envelope);
    }
  }

  lemma StateAfterFiles(st: Control, codec: Codec, events: seq<Transport>)
    ensures FiledRecords(st.rounds) ==> FiledRecords(StateAfter(st, codec, events).rounds)
  {
    var decoded := DecodeAll(codec, st.localPubkey, events);
    if decoded.Ok? && FiledRecords(st.rounds) {
      ApplyAllFiles(st, Sort(OrderedKey, decoded.value));
    }
  }

  /** One own message, published under an id, applied from its local echo. */
  function StateAfterEcho(st: Control, codec: Codec, id: string, echo: string): Control {
    match codec.fromEcho(echo)
    case None => st
    case Some(e) => Apply(st, id, e)
  }

  class CoordinatorControlEngine {
    const config: Config
    const codec: Codec
    const state: CoordinatorControlState
    var restoredFromSnapshot: bool

    /** The roster configured is in normal form. */
    ghost predicate Valid() {
      NormaliseRoster(config.roster) == config.roster
    }

    /** The state files every record under its own round id: so it starts, and so every method leaves it. */
    ghost predicate Filed()
      reads this, state
    {
      FiledRecords(state.rounds)
    }

    constructor (config: Config, codec: Codec)
      ensures Valid() && Filed() && fresh(state) && !restoredFromSnapshot && this.codec == codec
      ensures this.config == config.(roster := NormaliseRoster(config.roster))
      ensures state.Value() == NewControl(config.electionId, config.localPubkey, NormaliseRoster(config.roster))
    {
      var roster := NormaliseRoster(config.roster);
      NormaliseTwice(config.roster);
      this.config := config.(roster := roster);
      this.codec := codec;
      state := new CoordinatorControlState(config.electionId, config.localPubkey, roster);
      restoredFromSnapshot := false;
    }

    constructor Restore(snapshot: Snapshot)
      ensures Valid() && fresh(state) && restoredFromSnapshot && codec == snapshot.groupEngine
      ensures config == snapshot.config.(roster := NormaliseRoster(snapshot.config.roster))
      ensures state.Value() == snapshot.state && (Filed() <==> FiledRecords(snapshot.state.rounds))
    {
      NormaliseTwice(snapshot.config.roster);
      config := snapshot.config.(roster := NormaliseRoster(snapshot.config.roster));
      codec := snapshot.groupEngine;
      state := new CoordinatorControlState.From(snapshot.state);
      restoredFromSnapshot := true;
    }

    method TakeSnapshot() returns (snapshot: Snapshot)
      ensures snapshot == Snapshot(config, state.Value(), codec)
    {
      snapshot := Snapshot(config, state.Value(), codec);
    }

    /** Creating a message changes nothing here: it takes effect when its echo or its delivery is applied. */
    method CreateOutbound(roundId: Option<string>, at: i64, payload: Payload) returns (result: Result<Outbound, EngineError>)
      ensures Made(result, codec, NewEnvelope(config, state.Value(), roundId, at, payload))
      ensures result.Ok? ==>
                var m := result.value;
                && m.schemaVersion == 1 && m.electionId == config.electionId && m.senderPubkey == config.localPubkey
                && m.roundId == roundId && m.createdAt == at && m.eventType == payload.EventType()
                && m.logicalEpoch == Some(if state.logicalEpoch < U64_MAX then state.logicalEpoch + 1 else U64_MAX)
                && codec.encode(Envelope(1, m.electionId, roundId, at, m.senderPubkey, m.logicalEpoch, payload)) == Ok(m.content)
                && codec.toEcho(Envelope(1, m.electionId, roundId, at, m.senderPubkey, m.logicalEpoch, payload)) == m.localEcho
    {
      var epoch := Some(NextEpoch(state.logicalEpoch));
      var e := Envelope(COORDINATOR_SCHEMA_VERSION, config.electionId, roundId, at, config.localPubkey, epoch, payload);
      var content := codec.encode(e);
      match content {
        case Err(error) => result := Err(GroupEngine(error));
        case Ok(text) =>
          result := Ok(Outbound(COORDINATOR_SCHEMA_VERSION, config.electionId, roundId, payload.EventType(), at,
                                config.localPubkey, epoch, text, codec.toEcho(e)));
      }
    }

    method ProposeRoundOpen(roundId: string, prompt: string, thresholdT: u32, thresholdN: u32, at: i64, roster: seq<string>)
      returns (result: Result<Outbound, EngineError>)
      ensures var payload := RoundOpenProposal(prompt, thresholdT, thresholdN, NormaliseRoster(roster));
              Made(result, codec, NewEnvelope(config, state.Value(), Some(roundId), at, payload))
      ensures result.Ok? ==>
                var m := result.value;
                var payload := RoundOpenProposal(prompt, thresholdT, thresholdN, NormaliseRoster(roster));
                && m.electionId == config.electionId && m.senderPubkey == config.localPubkey
                && m.roundId == Some(roundId) && m.createdAt == at && m.eventType == RoundOpenProposalType
                && codec.encode(Envelope(1, m.electionId, Some(roundId), at, m.senderPubkey, m.logicalEpoch, payload)) ==
                     Ok(m.content)
    {
      result := CreateOutbound(Some(roundId), at, RoundOpenProposal(prompt, thresholdT, thresholdN, NormaliseRoster(roster)));
    }

    method ReplayTransportMessages(events: seq<Transport>) returns (result: Result<seq<Applied>, EngineError>)
      modifies this, state
      ensures state.Value() == StateAfter(old(state.Value()), codec, events) && (old(Filed()) ==> Filed())
      ensures match ReplayResult(old(state.Value()), codec, events)
              case Err(error) => result == Err(GroupEngine(error)) && restoredFromSnapshot == old(restoredFromSnapshot)
              case Ok(applied) => result == Ok(applied) && restoredFromSnapshot == (old(restoredFromSnapshot) && applied == [])
      ensures result.Ok? ==>
                var decoded := DecodeAll(codec, state.localPubkey, events);
                && decoded.Ok?
                && (result.value == [] <==>
                      forall o :: o in decoded.value ==> o.transport.eventId in old(state.processedEventIds))
    {
      NothingReportedIff(state.Value(), codec, events);
      StateAfterFiles(state.Value(), codec, events);
      var replayed := ReplayTransportEvents(state, codec, events);
      match replayed {
        case Err(error) => result := Err(GroupEngine(error));
        case Ok(applied) =>
          if applied != [] {
            restoredFromSnapshot := false;
          }
          result := Ok(applied);
      }
    }

    method ApplyPublishedLocalMessage(id: string, echo: string) returns (result: Result<seq<Applied>, EngineError>)
      modifies this, state
      ensures state.Value() == StateAfterEcho(old(state.Value()), codec, id, echo) && (old(Filed()) ==> Filed())
      ensures old(state.HasProcessed(id)) ==> result == Ok([]) && restoredFromSnapshot == old(restoredFromSnapshot)
      ensures !old(state.HasProcessed(id)) ==>
                match codec.fromEcho(echo)
                case None => result.Err? && restoredFromSnapshot == old(restoredFromSnapshot)
                case Some(e) => result == Ok([Report(Ordered(Transport(id, echo, None), e))]) && !restoredFromSnapshot
    {
      if state.HasProcessed(id) {
        return Ok([]);
      }
      var parsed := codec.fromEcho(echo);
      if parsed.None? {
        return Err(Serialization(""));
      }
      var e := parsed.value;
      if FiledRecords(state.rounds) {
        ApplyFiles(state.Value(), id, e);
      }
      state.ApplyEnvelope(id, e);
      restoredFromSnapshot := false;
      result := Ok([Applied(id, e.payload.EventType(), e.roundId, e.createdAt)]);
    }

    /** The rounds as shown, each once, by id. */
    method ViewRounds() returns (views: seq<RoundView>)
      ensures |views| == |state.rounds| && Sorted(ViewKey, views)
      ensures ShowExactly(views, state.rounds)
      ensures Filed() ==> StrictlySorted(ViewKey, views)
    {
      var ids := Ascending(state.rounds.Keys);
      views := Sort(ViewKey, ViewsOf(state.rounds, ids));
      ViewsListed(state.rounds, views);
      ViewsShow(state.rounds, views);
    }
  }

  /** Restoring what an engine saved gives an engine in the same state. */
  method SaveAndRestore(engine: CoordinatorControlEngine) returns (resumed: CoordinatorControlEngine)
    requires engine.Valid()
    ensures fresh(resumed) && resumed.Valid() && resumed.restoredFromSnapshot && (resumed.Filed() <==> engine.Filed())
    ensures resumed.config == engine.config && resumed.codec == engine.codec
    ensures resumed.state.Value() == engine.state.Value()
  {
    var snapshot := engine.TakeSnapshot();
    resumed := new CoordinatorControlEngine.Restore(snapshot);
  }

  function ViewsOf(rounds: map<string, RoundRecord>, ids: seq<string>): (views: seq<RoundView>)
    requires forall r :: r in ids ==> r in rounds
    ensures |views| == |ids| && forall i :: 0 <= i < |ids| ==> views[i] == ViewOf(rounds[ids[i]])
  {
    seq(|ids|, i requires 0 <= i < |ids| => ViewOf(rounds[ids[i]]))
  }

  /** The names shown as missing are the roster members without a commit. */
  lemma {:induction false} MissingNames(roster: seq<string>, commits: map<string, string>)
    ensures forall name :: name in Missing(roster, commits) <==> name in roster && name !in commits
  {
    if roster != [] {
      SplitLast(roster);
      MissingNames(Init(roster), commits);
    }
  }

  /** They are listed in roster order: name by name, a member is missing exactly when it has no commit. */
  lemma {:induction false} MissingNameByName(front: seq<string>, name: string, back: seq<string>, commits: map<string, string>)
    ensures Missing(front + [name] + back, commits) ==
              Missing(front, commits) + (if name in commits then [] else [name]) + Missing(back, commits)
  {
    if back == [] {
      assert front + [name] + [] == front + [name];
      assert Init(front + [name]) == front && Last(front + [name]) == name;
    } else {
      MissingNameByName(front, name, Init(back), commits);
      assert Init(front + [name] + back) == front + [name] + Init(back);
    }
  }

  lemma ViewShows(round: RoundRecord)
    ensures Shows(ViewOf(round), round)
  {
    AscendingSorted(round.openCommits.Keys);
    AscendingSorted(round.tallies.Keys);
    AscendingSorted(round.approvals.Keys);
    MissingNames(round.roster, round.openCommits);
  }

  lemma RoundShown(rounds: map<string, RoundRecord>, views: seq<RoundView>, r: string)
    requires views == Sort(ViewKey, ViewsOf(rounds, Ascending(rounds.Keys))) && r in rounds
    ensures ShownIn(views, rounds[r])
  {
    var ids := Ascending(rounds.Keys);
    var listed := ViewsOf(rounds, ids);
    SortElements(ViewKey, listed);
    assert r in ids;
    var i :| 0 <= i < |ids| && ids[i] == r;
    assert listed[i] in listed;
    ViewShows(rounds[r]);
  }

  lemma ViewOfSome(rounds: map<string, RoundRecord>, views: seq<RoundView>, view: RoundView)
    requires views == Sort(ViewKey, ViewsOf(rounds, Ascending(rounds.Keys))) && view in views
    ensures OfSome(view, rounds)
  {
    var ids := Ascending(rounds.Keys);
    var listed := ViewsOf(rounds, ids);
    SortElements(ViewKey, listed);
    var i :| 0 <= i < |listed| && listed[i] == view;
    assert ids[i] in ids;
    ViewShows(rounds[ids[i]]);
  }

  lemma ViewsShow(rounds: map<string, RoundRecord>, views: seq<RoundView>)
    requires views == Sort(ViewKey, ViewsOf(rounds, Ascending(rounds.Keys)))
    ensures ShowExactly(views, rounds)
  {
    forall r | r in rounds ensures ShownIn(views, rounds[r]) {
      RoundShown(rounds, views, r);
    }
    forall view | view in views ensures OfSome(view, rounds) {
      ViewOfSome(rounds, views, view);
    }
  }

  lemma ViewsListed(rounds: map<string, RoundRecord>, views: seq<RoundView>)
    requires views == Sort(ViewKey, ViewsOf(rounds, Ascending(rounds.Keys)))
    ensures |views| == |rounds| && Sorted(ViewKey, views)
    ensures FiledRecords(rounds) ==> StrictlySorted(ViewKey, views)
  {
    var ids := Ascending(rounds.Keys);
    var listed := ViewsOf(rounds, ids);
    SortSorted(ViewKey, listed);
    SortElements(ViewKey, listed);
    AscendingSize(rounds.Keys);
    if FiledRecords(rounds) {
      ViewsStrict(rounds, ids);
      SortOfSorted(ViewKey, listed);
    }
  }

  lemma ViewsStrict(rounds: map<string, RoundRecord>, ids: seq<string>)
    requires FiledRecords(rounds) && ids == Ascending(rounds.Keys)
    ensures Sorted(ViewKey, ViewsOf(rounds, ids)) && StrictlySorted(ViewKey, ViewsOf(rounds, ids))
  {
    var views := ViewsOf(rounds, ids);
    AscendingSorted(rounds.Keys);
    forall i, j | 0 <= i < j < |views| ensures KeyLt(ViewKey(views[i]), ViewKey(views[j])) {
      assert ids[i] in ids && ids[j] in ids;
      CompareStringsAgree(ids[i], ids[j]);
    }
  }
}
