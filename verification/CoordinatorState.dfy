/**
 The coordinators' control state (`coordinator_state.rs`): round records, the processed-id set and the
 logical clock, and the eight transitions an envelope can make.
 */
module CoordinatorState {
  import opened Wrappers
  import opened Order
  import opened Sorting
  import opened CoordinatorMessages

  // ----- rosters -----

  /** Unicode `White_Space`, which `str::trim` strips. */
  predicate IsWhitespace(c: char) {
    var n := c as int;
    || 0x9 <= n <= 0xD || n == 0x20 || n == 0x85 || n == 0xA0 || n == 0x1680 || 0x2000 <= n <= 0x200A
    || n == 0x2028 || n == 0x2029 || n == 0x202F || n == 0x205F || n == 0x3000
  }

  /** Which characters those are, one by one. */
  lemma WhitespaceCharacters(c: char)
    ensures IsWhitespace(c) <==>
              c as int in {9, 10, 11, 12, 13, 32, 133, 160, 5760, 8192, 8193, 8194, 8195, 8196, 8197, 8198, 8199, 8200,
                           8201, 8202, 8232, 8233, 8239, 8287, 12288}
  {
  }

  /** `value.trim().is_empty()` */
  predicate Blank(s: string) {
    forall i :: 0 <= i < |s| ==> IsWhitespace(s[i])
  }

  function NameKey(name: string): Key {
    Key(0, 0, 0, name)
  }

  function NonBlank(names: seq<string>): seq<string> {
    if names == [] then [] else NonBlank(Init(names)) + if Blank(Last(names)) then [] else [Last(names)]
  }

  /** `Vec::dedup`: drops an element equal to the one before it. */
  function Dedup(names: seq<string>): seq<string> {
    if |names| <= 1 then names
    else Dedup(Init(names)) + if Last(names) == Last(Init(names)) then [] else [Last(names)]
  }

  function NormaliseRoster(roster: seq<string>): seq<string> {
    Dedup(Sort(NameKey, NonBlank(roster)))
  }

  lemma {:induction false} NonBlankNames(names: seq<string>, name: string)
    ensures name in NonBlank(names) <==> name in names && !Blank(name)
  {
    if names != [] {
      SplitLast(names);
      NonBlankNames(Init(names), name);
    }
  }

  lemma {:induction false} DedupSorted(names: seq<string>)
    requires Sorted(NameKey, names)
    ensures StrictlySorted(NameKey, Dedup(names))
    ensures forall name :: name in Dedup(names) <==> name in names
    ensures names != [] ==> Dedup(names) != [] && Last(Dedup(names)) == Last(names)
  {
    if |names| > 1 {
      var init, last := Init(names), Last(names);
      SplitLast(names);
      DedupSorted(init);
      var before := Dedup(init);
      if last != Last(init) {
        forall i | 0 <= i < |before| ensures KeyLt(NameKey(before[i]), NameKey(last)) {
          assert before[i] in init;
          var j :| 0 <= j < |init| && init[j] == before[i];
          KeyOrderIsTotal(NameKey(before[i]), NameKey(last), NameKey(last));
          if before[i] == last {
            assert KeyLe(NameKey(names[|names| - 2]), NameKey(last));
            assert j == |names| - 2 || KeyLe(NameKey(names[j]), NameKey(names[|names| - 2]));
            KeyOrderIsTotal(NameKey(Last(init)), NameKey(last), NameKey(last));
          }
        }
      } else {
        assert last in init;
      }
    }
  }

  /** The normal form of a roster: its non-blank names, each once, in ascending order. */
  lemma RosterNormalForm(roster: seq<string>)
    ensures StrictlySorted(NameKey, NormaliseRoster(roster))
    ensures forall name :: name in NormaliseRoster(roster) <==> name in roster && !Blank(name)
    ensures |NameSet(NormaliseRoster(roster))| == |NormaliseRoster(roster)|
  {
    var names := NonBlank(roster);
    SortSorted(NameKey, names);
    SortElements(NameKey, names);
    DedupSorted(Sort(NameKey, names));
    forall name ensures name in NormaliseRoster(roster) <==> name in roster && !Blank(name) {
      NonBlankNames(roster, name);
    }
    StrictSetSize(NormaliseRoster(roster));
  }

  lemma {:induction false} StrictSetSize(names: seq<string>)
    requires StrictlySorted(NameKey, names)
    ensures |NameSet(names)| == |names|
  {
    if names != [] {
      var init, last := Init(names), Last(names);
      SplitLast(names);
      StrictSetSize(init);
      CompareKeysAgree(NameKey(last), NameKey(last));
      assert last !in init;
      assert NameSet(names) == NameSet(init) + {last};
    }
  }

  /** Rosters naming the same coordinators have one normal form, so normalising twice is harmless. */
  lemma RostersAlike(a: seq<string>, b: seq<string>)
    requires forall name :: !Blank(name) ==> (name in a <==> name in b)
    ensures NormaliseRoster(a) == NormaliseRoster(b)
  {
    RosterNormalForm(a);
    RosterNormalForm(b);
    StrictlySortedUnique(NameKey, NormaliseRoster(a), NormaliseRoster(b));
  }

  lemma NormaliseTwice(roster: seq<string>)
    ensures NormaliseRoster(NormaliseRoster(roster)) == NormaliseRoster(roster)
  {
    RosterNormalForm(roster);
    RostersAlike(NormaliseRoster(roster), roster);
  }

  // ----- records -----

  datatype Phase = Draft | OpenProposed | Open | Tallied | Published | Disputed

  datatype TallyRecord = TallyRecord(
    senderPubkey: string, yesCount: u32, noCount: u32, acceptedBallotEventIds: seq<string>, eventId: string, createdAt: i64)

  datatype ApprovalRecord = ApprovalRecord(senderPubkey: string, resultHash: string, eventId: string, createdAt: i64)

  datatype RoundRecord = RoundRecord(
    roundId: string,
    prompt: Option<string>,
    thresholdT: Option<u32>,
    thresholdN: Option<u32>,
    roster: seq<string>,
    phase: Phase,
    draftEventId: Option<string>,
    proposalEventId: Option<string>,
    openCommits: map<string, string>,
    ballotBatches: seq<string>,
    tallies: map<string, TallyRecord>,
    approvals: map<string, ApprovalRecord>,
    latestCheckpointHash: Option<string>,
    latestDisputeReason: Option<string>,
    lastTransitionAt: Option<i64>)

  function NewRecord(roundId: string): RoundRecord {
    RoundRecord(roundId, None, None, None, [], Draft, None, None, map[], [], map[], map[], None, None, None)
  }

  /** How many senders a step needs: the whole roster, or one where there is none. */
  function Expected(roster: seq<string>): nat {
    if roster == [] then 1 else |roster|
  }

  // ----- the transitions -----

  function Drafted(round: RoundRecord, id: string, p: Payload): RoundRecord
    requires p.RoundDraft?
  {
    round.(prompt := Some(p.prompt), thresholdT := Some(p.thresholdT), thresholdN := Some(p.thresholdN),
           roster := NormaliseRoster(p.roster), draftEventId := Some(id))
  }

  function Proposed(round: RoundRecord, id: string, p: Payload): RoundRecord
    requires p.RoundOpenProposal?
  {
    round.(prompt := Some(p.prompt), thresholdT := Some(p.thresholdT), thresholdN := Some(p.thresholdN),
           roster := NormaliseRoster(p.roster), proposalEventId := Some(id), phase := OpenProposed)
  }

  function Committed(round: RoundRecord, id: string, sender: string, p: Payload): RoundRecord
    requires p.RoundOpenCommit?
  {
    if round.proposalEventId != Some(p.proposalEventId) then round
    else
      var commits := round.openCommits[sender := id];
      round.(openCommits := commits, phase := if |commits| >= Expected(round.roster) then Open else round.phase)
  }

  function Noticed(round: RoundRecord, id: string, p: Payload): RoundRecord
    requires p.BallotBatchNotice?
  {
    if p.acceptedBallotEventIds == [] then round else round.(ballotBatches := round.ballotBatches + [id])
  }

  function PartiallyTallied(round: RoundRecord, id: string, sender: string, at: i64, p: Payload): RoundRecord
    requires p.PartialTally?
  {
    var tallies := round.tallies[sender := TallyRecord(sender, p.yesCount, p.noCount, p.acceptedBallotEventIds, id, at)];
    round.(tallies := tallies, phase := if |tallies| >= Expected(round.roster) then Tallied else round.phase)
  }

  function Approved(round: RoundRecord, id: string, sender: string, at: i64, p: Payload): RoundRecord
    requires p.ResultPublishApproval?
  {
    var approvals := round.approvals[sender := ApprovalRecord(sender, p.resultHash, id, at)];
    round.(approvals := approvals, phase := if |approvals| >= Expected(round.roster) then Published else round.phase)
  }

  /** What an envelope does to the record of its round. */
  function Transition(before: RoundRecord, id: string, e: Envelope): RoundRecord {
    var round := before.(lastTransitionAt := Some(e.createdAt));
    match e.payload
    case RoundDraft(_, _, _, _) => Drafted(round, id, e.payload)
    case RoundOpenProposal(_, _, _, _) => Proposed(round, id, e.payload)
    case RoundOpenCommit(_) => Committed(round, id, e.senderPubkey, e.payload)
    case BallotBatchNotice(_) => Noticed(round, id, e.payload)
    case PartialTally(_, _, _) => PartiallyTallied(round, id, e.senderPubkey, e.createdAt, e.payload)
    case ResultPublishApproval(_) => Approved(round, id, e.senderPubkey, e.createdAt, e.payload)
    case RecoveryCheckpoint(hash) => round.(latestCheckpointHash := Some(hash))
    case DisputeNotice(reason, _) => round.(latestDisputeReason := Some(reason), phase := Disputed)
  }

  // ----- the control state -----

  /** The state's fields as a value. */
  datatype Control = Control(
    schemaVersion: u32,
    electionId: string,
    localPubkey: string,
    roster: seq<string>,
    logicalEpoch: u64,
    processed: set<string>,
    rounds: map<string, RoundRecord>)

  function NewControl(electionId: string, localPubkey: string, roster: seq<string>): Control {
    Control(1, electionId, localPubkey, roster, 0, {}, map[])
  }

  function RecordOf(rounds: map<string, RoundRecord>, r: string): RoundRecord {
    if r in rounds then rounds[r] else NewRecord(r)
  }

  function MaxEpoch(a: u64, b: u64): u64 {
    if a >= b then a else b
  }

  function RecordProcessed(st: Control, id: string, epoch: Option<u64>): Control {
    st.(processed := st.processed + {id}, logicalEpoch := MaxEpoch(st.logicalEpoch, epoch.GetOr(st.logicalEpoch)))
  }

  /** `apply_envelope`. An envelope of another election leaves no trace, not even in the processed ids. */
  function Apply(st: Control, id: string, e: Envelope): Control {
    if id in st.processed || st.electionId != e.electionId then st
    else if e.roundId.None? then RecordProcessed(st, id, e.logicalEpoch)
    else
      var r := e.roundId.value;
      var round := Transition(RecordOf(st.rounds, r), id, e);
      RecordProcessed(st.(rounds := st.rounds[r := round], roster := if round.roster == [] then st.roster else round.roster),
                      id, e.logicalEpoch)
  }

  /** Every record is filed under its own round id. */
  ghost predicate FiledRecords(rounds: map<string, RoundRecord>) {
    forall r :: r in rounds ==> rounds[r].roundId == r
  }

  lemma TransitionKeepsId(round: RoundRecord, id: string, e: Envelope)
    ensures Transition(round, id, e).roundId == round.roundId
  {
  }

  lemma ApplyFiles(st: Control, id: string, e: Envelope)
    requires FiledRecords(st.rounds)
    ensures FiledRecords(Apply(st, id, e).rounds)
  {
    if e.roundId.Some? {
      TransitionKeepsId(RecordOf(st.rounds, e.roundId.value), id, e);
    }
  }

  /** The round with the latest transition (none counts as time 0), the greater id winning a tie. */
  ghost predicate IsLatest(rounds: map<string, RoundRecord>, r: string) {
    && r in rounds
    && forall s :: s in rounds ==>
         var at, latest := rounds[s].lastTransitionAt.GetOr(0), rounds[r].lastTransitionAt.GetOr(0);
         at < latest || (at == latest && (s == r || StrLt(s, r)))
  }

  function LatestKey(r: string, record: RoundRecord): Key {
    Key(0, 0, record.lastTransitionAt.GetOr(0), r)
  }

  lemma GreatestIsLatest(rounds: map<string, RoundRecord>, r: string)
    requires r in rounds && forall s :: s in rounds ==> KeyLe(LatestKey(s, rounds[s]), LatestKey(r, rounds[r]))
    ensures IsLatest(rounds, r)
  {
    forall s | s in rounds
      ensures var at, latest := rounds[s].lastTransitionAt.GetOr(0), rounds[r].lastTransitionAt.GetOr(0);
              at < latest || (at == latest && (s == r || StrLt(s, r)))
    {
      KeysCompared(LatestKey(s, rounds[s]), LatestKey(r, rounds[r]));
    }
  }

  // ----- the transitions, field by field -----

  method ApplyRoundDraft(before: RoundRecord, id: string, p: Payload) returns (round: RoundRecord)
    requires p.RoundDraft?
    ensures round == Drafted(before, id, p)
  {
    round := before.(prompt := Some(p.prompt));
    round := round.(thresholdT := Some(p.thresholdT));
    round := round.(thresholdN := Some(p.thresholdN));
    round := round.(roster := NormaliseRoster(p.roster));
    round := round.(draftEventId := Some(id));
    if round.phase == Draft {
      round := round.(phase := Draft);
    }
  }

  method ApplyRoundOpenProposal(before: RoundRecord, id: string, p: Payload) returns (round: RoundRecord)
    requires p.RoundOpenProposal?
    ensures round == Proposed(before, id, p)
  {
    round := before.(prompt := Some(p.prompt));
    round := round.(thresholdT := Some(p.thresholdT));
    round := round.(thresholdN := Some(p.thresholdN));
    round := round.(roster := NormaliseRoster(p.roster));
    round := round.(proposalEventId := Some(id));
    round := round.(phase := OpenProposed);
  }

  method ApplyRoundOpenCommit(before: RoundRecord, id: string, sender: string, p: Payload) returns (round: RoundRecord)
    requires p.RoundOpenCommit?
    ensures round == Committed(before, id, sender, p)
  {
    if before.proposalEventId != Some(p.proposalEventId) {
      return before;
    }
    round := before.(openCommits := before.openCommits[sender := id]);
    var expectedCommitters := 1;
    if round.roster != [] {
      expectedCommitters := |round.roster|;
    }
    if |round.openCommits| >= expectedCommitters {
      round := round.(phase := Open);
    }
  }

  method ApplyBallotBatchNotice(before: RoundRecord, id: string, p: Payload) returns (round: RoundRecord)
    requires p.BallotBatchNotice?
    ensures round == Noticed(before, id, p)
  {
    if p.acceptedBallotEventIds == [] {
      return before;
    }
    round := before.(ballotBatches := before.ballotBatches + [id]);
  }

  method ApplyPartialTally(before: RoundRecord, id: string, sender: string, at: i64, p: Payload) returns (round: RoundRecord)
    requires p.PartialTally?
    ensures round == PartiallyTallied(before, id, sender, at, p)
  {
    var tally := TallyRecord(sender, p.yesCount, p.noCount, p.acceptedBallotEventIds, id, at);
    round := before.(tallies := before.tallies[sender := tally]);
    var expected := 1;
    if round.roster != [] {
      expected := |round.roster|;
    }
    if |round.tallies| >= expected {
      round := round.(phase := Tallied);
    }
  }

  method ApplyResultPublishApproval(before: RoundRecord, id: string, sender: string, at: i64, p: Payload)
    returns (round: RoundRecord)
    requires p.ResultPublishApproval?
    ensures round == Approved(before, id, sender, at, p)
  {
    round := before.(approvals := before.approvals[sender := ApprovalRecord(sender, p.resultHash, id, at)]);
    var expected := 1;
    if round.roster != [] {
      expected := |round.roster|;
    }
    if |round.approvals| >= expected {
      round := round.(phase := Published);
    }
  }

  class CoordinatorControlState {
    const schemaVersion: u32
    const electionId: string
    const localPubkey: string
    var coordinatorRoster: seq<string>
    var logicalEpoch: u64
    var processedEventIds: set<string>
    var rounds: map<string, RoundRecord>

    function Value(): Control
      reads this
    {
      Control(schemaVersion, electionId, localPubkey, coordinatorRoster, logicalEpoch, processedEventIds, rounds)
    }

    constructor (electionId: string, localPubkey: string, roster: seq<string>)
      ensures Value() == NewControl(electionId, localPubkey, roster)
      ensures schemaVersion == 1 && logicalEpoch == 0 && processedEventIds == {} && rounds == map[]
      ensures this.electionId == electionId && this.localPubkey == localPubkey && coordinatorRoster == roster
    {
      schemaVersion := 1;
      this.electionId := electionId;
      this.localPubkey := localPubkey;
      coordinatorRoster := roster;
      logicalEpoch := 0;
      processedEventIds := {};
      rounds := map[];
    }

    constructor From(value: Control)
      ensures Value() == value
    {
      schemaVersion := value.schemaVersion;
      electionId := value.electionId;
      localPubkey := value.localPubkey;
      coordinatorRoster := value.roster;
      logicalEpoch := value.logicalEpoch;
      processedEventIds := value.processed;
      rounds := value.rounds;
    }

    predicate HasProcessed(id: string)
      reads this
    {
      id in processedEventIds
    }

    method RecordProcessedEvent(id: string, epoch: Option<u64>)
      modifies this
      ensures Value() == RecordProcessed(old(Value()), id, epoch)
    {
      processedEventIds := processedEventIds + {id};
      logicalEpoch := MaxEpoch(logicalEpoch, epoch.GetOr(logicalEpoch));
    }

    method ApplyEnvelope(id: string, e: Envelope)
      modifies this
      ensures Value() == Apply(old(Value()), id, e)
    {
      if HasProcessed(id) {
        return;
      }
      if electionId != e.electionId {
        return;
      }
      if e.roundId.Some? {
        ApplyToRound(e.roundId.value, id, e);
      }
      RecordProcessedEvent(id, e.logicalEpoch);
    }

    method ApplyToRound(r: string, id: string, e: Envelope)
      modifies this
      ensures var round := Transition(RecordOf(old(rounds), r), id, e);
              Value() == old(Value()).(rounds := old(rounds)[r := round],
                                       roster := if round.roster == [] then old(coordinatorRoster) else round.roster)
    {
      ghost var before := rounds;
      if r !in rounds {
        rounds := rounds[r := NewRecord(r)];
      }
      var round := ApplyPayload(rounds[r], id, e);
      StoreRound(r, round, before);
    }

    method StoreRound(r: string, round: RoundRecord, ghost before: map<string, RoundRecord>)
      requires rounds == before || rounds == before[r := NewRecord(r)]
      modifies this
      ensures Value() == old(Value()).(rounds := before[r := round],
                                       roster := if round.roster == [] then old(coordinatorRoster) else round.roster)
    {
      rounds := rounds[r := round];
      assert rounds == before[r := round];
      if round.roster != [] {
        coordinatorRoster := round.roster;
      }
    }

    static method ApplyPayload(before: RoundRecord, id: string, e: Envelope) returns (round: RoundRecord)
      ensures round == Transition(before, id, e)
    {
      round := before.(lastTransitionAt := Some(e.createdAt));
      match e.payload {
        case RoundDraft(_, _, _, _) => round := ApplyRoundDraft(round, id, e.payload);
        case RoundOpenProposal(_, _, _, _) => round := ApplyRoundOpenProposal(round, id, e.payload);
        case RoundOpenCommit(_) => round := ApplyRoundOpenCommit(round, id, e.senderPubkey, e.payload);
        case BallotBatchNotice(_) => round := ApplyBallotBatchNotice(round, id, e.payload);
        case PartialTally(_, _, _) => round := ApplyPartialTally(round, id, e.senderPubkey, e.createdAt, e.payload);
        case ResultPublishApproval(_) => round := ApplyResultPublishApproval(round, id, e.senderPubkey, e.createdAt, e.payload);
        case RecoveryCheckpoint(hash) => round := round.(latestCheckpointHash := Some(hash));
        case DisputeNotice(reason, _) =>
          round := round.(latestDisputeReason := Some(reason));
          round := round.(phase := Disputed);
      }
    }

    /** `latest_round`: the last maximum over the rounds in id order. */
    method LatestRound() returns (latest: Option<RoundRecord>)
      ensures latest.None? <==> rounds == map[]
      ensures latest.Some? ==> exists r :: IsLatest(rounds, r) && rounds[r] == latest.value
    {
      var ids := Ascending(rounds.Keys);
      if rounds == map[] {
        return None;
      }
      assert rounds.Keys != {};
      assert ids[0] in ids;
      var best := ids[0];
      KeyOrderIsTotal(LatestKey(best, rounds[best]), LatestKey(best, rounds[best]), LatestKey(best, rounds[best]));
      for i := 1 to |ids|
        invariant best in rounds
        invariant forall j :: 0 <= j < i ==>
                    ids[j] in rounds && KeyLe(LatestKey(ids[j], rounds[ids[j]]), LatestKey(best, rounds[best]))
      {
        var next := ids[i];
        assert next in ids;
        var a, b := LatestKey(best, rounds[best]), LatestKey(next, rounds[next]);
        KeyOrderIsTotal(a, b, a);
        KeyOrderIsTotal(b, b, b);
        if KeyLe(a, b) {
          forall j | 0 <= j < i ensures KeyLe(LatestKey(ids[j], rounds[ids[j]]), b) {
            KeyOrderIsTotal(LatestKey(ids[j], rounds[ids[j]]), a, b);
          }
          best := next;
        } else {
          KeyOrderIsTotal(b, a, b);
        }
      }
      forall s | s in rounds ensures KeyLe(LatestKey(s, rounds[s]), LatestKey(best, rounds[best])) {
        assert s in ids;
      }
      GreatestIsLatest(rounds, best);
      latest := Some(rounds[best]);
    }
  }
}
