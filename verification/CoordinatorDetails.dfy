/**
 The parts of a round's record that no quorum looks at, after one batch: settings, notices, checkpoint,
 reason and times, and what is filed under each sender's name.
 */
module CoordinatorDetails {
  import opened Wrappers
  import opened Sorting
  import opened CoordinatorMessages
  import opened CoordinatorState
  import opened CoordinatorReplay
  import opened CoordinatorBatch

  // ----- the rest of the record -----

  datatype Settings = Settings(prompt: Option<string>, thresholdT: Option<u32>, thresholdN: Option<u32>)

  /** The parts of a record that no quorum looks at. */
  datatype Details = Details(
    settings: Settings, draftEventId: Option<string>, ballotBatches: seq<string>, checkpointHash: Option<string>,
    disputeReason: Option<string>, lastTransitionAt: Option<i64>)

  function DetailsOf(round: RoundRecord): Details {
    Details(Settings(round.prompt, round.thresholdT, round.thresholdN), round.draftEventId, round.ballotBatches,
            round.latestCheckpointHash, round.latestDisputeReason, round.lastTransitionAt)
  }

  function SettingsBy(before: Settings, o: Option<Ordered>): Settings {
    if o.Some? && Sets(o.value) then
      var p := o.value.envelope.payload;
      Settings(Some(p.prompt), Some(p.thresholdT), Some(p.thresholdN))
    else before
  }

  function DraftBy(before: Option<string>, o: Option<Ordered>): Option<string> {
    if o.Some? then Some(OrderedId(o.value)) else before
  }

  function CheckpointBy(before: Option<string>, o: Option<Ordered>): Option<string> {
    if o.Some? && o.value.envelope.payload.RecoveryCheckpoint? then Some(o.value.envelope.payload.checkpointHash) else before
  }

  function ReasonBy(before: Option<string>, o: Option<Ordered>): Option<string> {
    if o.Some? && o.value.envelope.payload.DisputeNotice? then Some(o.value.envelope.payload.reason) else before
  }

  /** A notice counts when it accepts some ballot. */
  predicate Notifies(o: Ordered) {
    o.envelope.payload.BallotBatchNotice? && o.envelope.payload.acceptedBallotEventIds != []
  }

  function NoticeIds(events: seq<Ordered>): seq<string> {
    if events == [] then [] else NoticeIds(Init(events)) + if Notifies(Last(events)) then [OrderedId(Last(events))] else []
  }

  function LastTransition(before: Option<i64>, events: seq<Ordered>): Option<i64> {
    if events == [] then before else Some(Last(events).envelope.createdAt)
  }

  /** Each is that of the last event to write it; notices accumulate in order. */
  function DetailsAfter(d: Details, events: seq<Ordered>): Details {
    Details(SettingsBy(d.settings, Standing(events)),
            DraftBy(d.draftEventId, LatestOf(events, RoundDraftType)),
            d.ballotBatches + NoticeIds(events),
            CheckpointBy(d.checkpointHash, LatestOf(events, RecoveryCheckpointType)),
            ReasonBy(d.disputeReason, LatestOf(events, DisputeNoticeType)),
            LastTransition(d.lastTransitionAt, events))
  }

  function DetailsStep(d: Details, o: Ordered): Details {
    Details(SettingsBy(d.settings, Some(o)),
            if o.envelope.payload.RoundDraft? then Some(OrderedId(o)) else d.draftEventId,
            if Notifies(o) then d.ballotBatches + [OrderedId(o)] else d.ballotBatches,
            CheckpointBy(d.checkpointHash, Some(o)), ReasonBy(d.disputeReason, Some(o)), Some(o.envelope.createdAt))
  }

  lemma SettingDetails(round: RoundRecord, o: Ordered)
    requires Sets(o)
    ensures DetailsOf(Transition(round, OrderedId(o), o.envelope)) == DetailsStep(DetailsOf(round), o)
  {
  }

  lemma ActingDetails(round: RoundRecord, o: Ordered)
    requires o.envelope.payload.RoundOpenCommit? || o.envelope.payload.PartialTally? || o.envelope.payload.ResultPublishApproval?
    ensures DetailsOf(Transition(round, OrderedId(o), o.envelope)) == DetailsStep(DetailsOf(round), o)
  {
  }

  lemma TransitionDetails(round: RoundRecord, o: Ordered)
    ensures DetailsOf(Transition(round, OrderedId(o), o.envelope)) == DetailsStep(DetailsOf(round), o)
  {
    var p := o.envelope.payload;
    if Sets(o) {
      SettingDetails(round, o);
    } else if p.RoundOpenCommit? || p.PartialTally? || p.ResultPublishApproval? {
      ActingDetails(round, o);
    }
  }

  lemma DetailsLast(d: Details, events: seq<Ordered>)
    requires EndsInOrder(events)
    ensures DetailsAfter(d, events) == DetailsStep(DetailsAfter(d, Init(events)), Last(events))
  {
    StandingLast(events);
  }

  lemma {:induction false} RecordDetails(before: RoundRecord, events: seq<Ordered>)
    requires Sorted(OrderedKey, events)
    ensures DetailsOf(RecordFrom(before, events)) == DetailsAfter(DetailsOf(before), events)
  {
    if events != [] {
      AfterAll(OrderedKey, events);
      RecordDetails(before, Init(events));
      TransitionDetails(RecordFrom(before, Init(events)), Last(events));
      DetailsLast(DetailsOf(before), events);
    }
  }

  function EntryOf<V>(m: map<string, V>, k: string): Option<V> {
    if k in m then Some(m[k]) else None
  }

  /** What one transition files under a sender's name. */
  function TallyEntry(o: Ordered, sender: string, before: Option<TallyRecord>): Option<TallyRecord> {
    var e := o.envelope;
    if e.payload.PartialTally? && e.senderPubkey == sender
    then Some(TallyRecord(sender, e.payload.yesCount, e.payload.noCount, e.payload.acceptedBallotEventIds, OrderedId(o),
                          e.createdAt))
    else before
  }

  function ApprovalEntry(o: Ordered, sender: string, before: Option<ApprovalRecord>): Option<ApprovalRecord> {
    var e := o.envelope;
    if e.payload.ResultPublishApproval? && e.senderPubkey == sender
    then Some(ApprovalRecord(sender, e.payload.resultHash, OrderedId(o), e.createdAt))
    else before
  }

  function CommitEntry(o: Ordered, proposal: Option<string>, sender: string, before: Option<string>): Option<string> {
    if CommitsTo(o, proposal) && o.envelope.senderPubkey == sender then Some(OrderedId(o)) else before
  }

  /** What the events file there, the last of a sender's standing. */
  function TallyBy(events: seq<Ordered>, sender: string, before: Option<TallyRecord>): Option<TallyRecord> {
    if events == [] then before else TallyEntry(Last(events), sender, TallyBy(Init(events), sender, before))
  }

  function ApprovalBy(events: seq<Ordered>, sender: string, before: Option<ApprovalRecord>): Option<ApprovalRecord> {
    if events == [] then before else ApprovalEntry(Last(events), sender, ApprovalBy(Init(events), sender, before))
  }

  function CommitBy(events: seq<Ordered>, proposal: Option<string>, sender: string, before: Option<string>): Option<string> {
    if events == [] then before else CommitEntry(Last(events), proposal, sender, CommitBy(Init(events), proposal, sender, before))
  }

  lemma {:induction false} NoCommitBy(events: seq<Ordered>, proposal: Option<string>, sender: string, before: Option<string>)
    requires !HasType(events, RoundOpenCommitType)
    ensures CommitBy(events, proposal, sender, before) == before
  {
    if events != [] {
      NoCommitBy(Init(events), proposal, sender, before);
    }
  }

  lemma CommitByLast(first: Option<string>, events: seq<Ordered>, sender: string, before: Option<string>)
    requires EndsInOrder(events)
    ensures var proposal := StandingProposal(first, Init(events));
            CommitBy(events, StandingProposal(first, events), sender, before) ==
              CommitEntry(Last(events), proposal, sender, CommitBy(Init(events), proposal, sender, before))
  {
    ProposalLast(first, events);
    if Last(events).envelope.payload.RoundOpenProposal? {
      NoneLater(events, RoundOpenCommitType);
      NoCommitBy(Init(events), StandingProposal(first, Init(events)), sender, before);
      NoCommitBy(Init(events), StandingProposal(first, events), sender, before);
    }
  }

  lemma TransitionTally(round: RoundRecord, o: Ordered, sender: string)
    ensures EntryOf(Transition(round, OrderedId(o), o.envelope).tallies, sender) ==
              TallyEntry(o, sender, EntryOf(round.tallies, sender))
  {
  }

  lemma TransitionApproval(round: RoundRecord, o: Ordered, sender: string)
    ensures EntryOf(Transition(round, OrderedId(o), o.envelope).approvals, sender) ==
              ApprovalEntry(o, sender, EntryOf(round.approvals, sender))
  {
  }

  lemma TransitionCommit(round: RoundRecord, o: Ordered, sender: string)
    ensures EntryOf(Transition(round, OrderedId(o), o.envelope).openCommits, sender) ==
              CommitEntry(o, round.proposalEventId, sender, EntryOf(round.openCommits, sender))
  {
  }

  /** A record files, per sender, the last tally, the last approval and the last commit to the standing proposal. */
  lemma {:induction false} RecordEntries(before: RoundRecord, events: seq<Ordered>, sender: string)
    requires Sorted(OrderedKey, events)
    ensures var round := RecordFrom(before, events);
            && EntryOf(round.tallies, sender) == TallyBy(events, sender, EntryOf(before.tallies, sender))
            && EntryOf(round.approvals, sender) == ApprovalBy(events, sender, EntryOf(before.approvals, sender))
            && EntryOf(round.openCommits, sender) ==
                 CommitBy(events, StandingProposal(before.proposalEventId, events), sender, EntryOf(before.openCommits, sender))
  {
    if events != [] {
      AfterAll(OrderedKey, events);
      var round, o := RecordFrom(before, Init(events)), Last(events);
      RecordEntries(before, Init(events), sender);
      RecordProposal(before, Init(events));
      TransitionTally(round, o, sender);
      TransitionApproval(round, o, sender);
      TransitionCommit(round, o, sender);
      CommitByLast(before.proposalEventId, events, sender, EntryOf(before.openCommits, sender));
    }
  }

  lemma TransitionProposal(round: RoundRecord, o: Ordered)
    ensures Transition(round, OrderedId(o), o.envelope).proposalEventId == ProposalStep(round.proposalEventId, o)
  {
  }

  lemma {:induction false} RecordProposal(before: RoundRecord, events: seq<Ordered>)
    ensures RecordFrom(before, events).proposalEventId == StandingProposal(before.proposalEventId, events)
  {
    if events != [] {
      RecordProposal(before, Init(events));
      TransitionProposal(RecordFrom(before, Init(events)), Last(events));
      ProposalLast(before.proposalEventId, events);
    }
  }

  /** One batch, for any round: its record's details and entries are those the events that count leave. */
  lemma BatchDetails(st: Control, decoded: seq<Ordered>, r: string, sender: string)
    ensures var before, after := RecordOf(st.rounds, r), RecordOf(ApplyAll(st, Sort(OrderedKey, decoded)).rounds, r);
            var acts := Acts(st, decoded, r);
            && DetailsOf(after) == DetailsAfter(DetailsOf(before), acts)
            && EntryOf(after.tallies, sender) == TallyBy(acts, sender, EntryOf(before.tallies, sender))
            && EntryOf(after.approvals, sender) == ApprovalBy(acts, sender, EntryOf(before.approvals, sender))
            && EntryOf(after.openCommits, sender) ==
                 CommitBy(acts, StandingProposal(before.proposalEventId, acts), sender, EntryOf(before.openCommits, sender))
  {
    RoundAfter(st, Sort(OrderedKey, decoded), r);
    BatchShape(st, decoded, r);
    RecordDetails(RecordOf(st.rounds, r), Acts(st, decoded, r));
    RecordEntries(RecordOf(st.rounds, r), Acts(st, decoded, r), sender);
  }
}
