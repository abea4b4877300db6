/**
 Control messages from end to end, in terms of the fields asked for: what a created message carries, and what
 is on file for its round once it has been applied, at home by its echo or elsewhere by delivery.
 */
module CoordinatorTerms {
  import opened Wrappers
  import opened Sorting
  import opened CoordinatorMessages
  import opened CoordinatorState
  import opened CoordinatorReplay
  import opened CoordinatorEngine

  // ----- what an envelope does -----

  /** What is on file for a round; for an unknown one, a blank draft. */
  ghost predicate OnFile(rounds: map<string, RoundRecord>, r: string, record: RoundRecord) {
    if r in rounds then record == rounds[r]
    else
      && record.roundId == r && record.phase == Draft && record.roster == []
      && record.prompt == None && record.thresholdT == None && record.thresholdN == None
      && record.draftEventId == None && record.proposalEventId == None && record.ballotBatches == []
      && record.openCommits == map[] && record.tallies == map[] && record.approvals == map[]
      && record.latestCheckpointHash == None && record.latestDisputeReason == None && record.lastTransitionAt == None
  }

  /** An envelope takes effect once, and only in its own election. */
  ghost predicate TakesEffect(st: Control, id: string, e: Envelope) {
    id !in st.processed && e.electionId == st.electionId
  }

  /** Enough senders for the quorum: as many as the roster, or one where there is no roster. */
  predicate Enough(count: nat, roster: seq<string>) {
    if roster == [] then count >= 1 else count >= |roster|
  }

  /** What the state as a whole keeps track of. */
  lemma AppliedOnce(st: Control, id: string, e: Envelope)
    ensures var after := Apply(st, id, e);
            && (!TakesEffect(st, id, e) ==> after == st)
            && (TakesEffect(st, id, e) ==>
                  && after.processed == st.processed + {id}
                  && after.electionId == st.electionId && after.localPubkey == st.localPubkey
                  && (e.logicalEpoch.None? || e.logicalEpoch.value <= st.logicalEpoch ==> after.logicalEpoch == st.logicalEpoch)
                  && (e.logicalEpoch.Some? && e.logicalEpoch.value > st.logicalEpoch ==>
                        after.logicalEpoch == e.logicalEpoch.value)
                  && (e.roundId.None? ==> after.rounds == st.rounds && after.roster == st.roster)
                  && (e.roundId.Some? ==>
                        && after.rounds.Keys == st.rounds.Keys + {e.roundId.value}
                        && (forall s :: s in st.rounds && s != e.roundId.value ==> after.rounds[s] == st.rounds[s])
                        && after.roster == (if after.rounds[e.roundId.value].roster == [] then st.roster
                                            else after.rounds[e.roundId.value].roster)))
  {
  }

  lemma RecordTransitioned(st: Control, id: string, e: Envelope, r: string, before: RoundRecord)
    requires TakesEffect(st, id, e) && e.roundId == Some(r) && OnFile(st.rounds, r, before)
    ensures r in Apply(st, id, e).rounds && Apply(st, id, e).rounds[r] == Transition(before, id, e)
  {
    assert before == RecordOf(st.rounds, r);
  }

  /** A draft and a proposal rewrite the settings; a proposal puts the round up for opening under its own id. */
  lemma SettingApplied(st: Control, id: string, e: Envelope, r: string, before: RoundRecord)
    requires TakesEffect(st, id, e) && e.roundId == Some(r) && OnFile(st.rounds, r, before)
    requires e.payload.RoundDraft? || e.payload.RoundOpenProposal?
    ensures r in Apply(st, id, e).rounds
    ensures var after := Apply(st, id, e).rounds[r];
            && after.prompt == Some(e.payload.prompt) && after.thresholdT == Some(e.payload.thresholdT)
            && after.thresholdN == Some(e.payload.thresholdN) && after.roster == NormaliseRoster(e.payload.roster)
            && after.lastTransitionAt == Some(e.createdAt)
            && (e.payload.RoundDraft? ==>
                  && after.draftEventId == Some(id) && after.proposalEventId == before.proposalEventId
                  && after.phase == before.phase)
            && (e.payload.RoundOpenProposal? ==>
                  after.draftEventId == before.draftEventId && after.proposalEventId == Some(id) && after.phase == OpenProposed)
            && after == before.(prompt := after.prompt, thresholdT := after.thresholdT, thresholdN := after.thresholdN,
                                roster := after.roster, draftEventId := after.draftEventId,
                                proposalEventId := after.proposalEventId, phase := after.phase,
                                lastTransitionAt := after.lastTransitionAt)
  {
    RecordTransitioned(st, id, e, r, before);
  }

  /** A commit to the proposal on file is filed under its sender and may open the round; any other is not. */
  lemma CommitApplied(st: Control, id: string, e: Envelope, r: string, before: RoundRecord)
    requires TakesEffect(st, id, e) && e.roundId == Some(r) && OnFile(st.rounds, r, before)
    requires e.payload.RoundOpenCommit?
    ensures r in Apply(st, id, e).rounds
    ensures var after := Apply(st, id, e).rounds[r];
            && after == before.(openCommits := after.openCommits, phase := after.phase, lastTransitionAt := Some(e.createdAt))
            && (before.proposalEventId != Some(e.payload.proposalEventId) ==>
                  after.openCommits == before.openCommits && after.phase == before.phase)
            && (before.proposalEventId == Some(e.payload.proposalEventId) ==>
                  && after.openCommits == before.openCommits[e.senderPubkey := id]
                  && after.phase == if Enough(|after.openCommits|, before.roster) then Open else before.phase)
  {
    RecordTransitioned(st, id, e, r, before);
  }

  /** A tally and an approval are filed under their sender with their own fields, and may settle the phase. */
  lemma TallyApplied(st: Control, id: string, e: Envelope, r: string, before: RoundRecord)
    requires TakesEffect(st, id, e) && e.roundId == Some(r) && OnFile(st.rounds, r, before)
    requires e.payload.PartialTally?
    ensures r in Apply(st, id, e).rounds
    ensures var after := Apply(st, id, e).rounds[r];
            && after == before.(tallies := after.tallies, phase := after.phase, lastTransitionAt := Some(e.createdAt))
            && e.senderPubkey in after.tallies
            && (var tally := after.tallies[e.senderPubkey];
                && after.tallies == before.tallies[e.senderPubkey := tally]
                && tally.senderPubkey == e.senderPubkey && tally.eventId == id && tally.createdAt == e.createdAt
                && tally.yesCount == e.payload.yesCount && tally.noCount == e.payload.noCount
                && tally.acceptedBallotEventIds == e.payload.acceptedBallotEventIds)
            && after.phase == if Enough(|after.tallies|, before.roster) then Tallied else before.phase
  {
    RecordTransitioned(st, id, e, r, before);
  }

  lemma ApprovalApplied(st: Control, id: string, e: Envelope, r: string, before: RoundRecord)
    requires TakesEffect(st, id, e) && e.roundId == Some(r) && OnFile(st.rounds, r, before)
    requires e.payload.ResultPublishApproval?
    ensures r in Apply(st, id, e).rounds
    ensures var after := Apply(st, id, e).rounds[r];
            && after == before.(approvals := after.approvals, phase := after.phase, lastTransitionAt := Some(e.createdAt))
            && e.senderPubkey in after.approvals
            && (var approval := after.approvals[e.senderPubkey];
                && after.approvals == before.approvals[e.senderPubkey := approval]
                && approval.senderPubkey == e.senderPubkey && approval.eventId == id && approval.createdAt == e.createdAt
                && approval.resultHash == e.payload.resultHash)
            && after.phase == if Enough(|after.approvals|, before.roster) then Published else before.phase
  {
    RecordTransitioned(st, id, e, r, before);
  }

  /** A notice of some ballots is listed, a checkpoint replaces the last, a dispute ends the round's good standing. */
  lemma NoticeApplied(st: Control, id: string, e: Envelope, r: string, before: RoundRecord)
    requires TakesEffect(st, id, e) && e.roundId == Some(r) && OnFile(st.rounds, r, before)
    requires e.payload.BallotBatchNotice? || e.payload.RecoveryCheckpoint? || e.payload.DisputeNotice?
    ensures r in Apply(st, id, e).rounds
    ensures var after := Apply(st, id, e).rounds[r];
            && after == before.(ballotBatches := after.ballotBatches, latestCheckpointHash := after.latestCheckpointHash,
                                latestDisputeReason := after.latestDisputeReason, phase := after.phase,
                                lastTransitionAt := Some(e.createdAt))
            && after.ballotBatches ==
                 (if e.payload.BallotBatchNotice? && |e.payload.acceptedBallotEventIds| > 0 then before.ballotBatches + [id]
                  else before.ballotBatches)
            && after.latestCheckpointHash ==
                 (if e.payload.RecoveryCheckpoint? then Some(e.payload.checkpointHash) else before.latestCheckpointHash)
            && after.latestDisputeReason ==
                 (if e.payload.DisputeNotice? then Some(e.payload.reason) else before.latestDisputeReason)
            && after.phase == if e.payload.DisputeNotice? then Disputed else before.phase
  {
    RecordTransitioned(st, id, e, r, before);
  }

  // ----- from a message to the record -----

  /** The envelope inside: what decoding the content gives, and reading the echo. */
  lemma MessageHolds(codec: Codec, e: Envelope, message: Outbound)
    requires Faithful(codec) && Made(Ok(message), codec, e)
    ensures codec.decode(message.content) == Ok(e) && codec.fromEcho(message.localEcho) == Some(e)
  {
  }

  /**
   Once a message made for a round has been published under a new id and its echo applied, the round is on file
   with the message's time, and with the settings proposed if it was a proposal.
   */
  method CreateAndApply(engine: CoordinatorControlEngine, roundId: Option<string>, at: i64, payload: Payload, id: string)
    returns (message: Result<Outbound, EngineError>)
    requires Faithful(engine.codec) && id !in engine.state.processedEventIds
    requires engine.config.electionId == engine.state.electionId
    modifies engine, engine.state
    ensures message.Err? ==> engine.state.Value() == old(engine.state.Value())
    ensures message.Ok? ==> id in engine.state.processedEventIds && !engine.restoredFromSnapshot
    ensures message.Ok? && roundId.Some? ==>
              && roundId.value in engine.state.rounds
              && engine.state.rounds[roundId.value].lastTransitionAt == Some(at)
    ensures message.Ok? && roundId.Some? && payload.RoundOpenProposal? ==>
              var record := engine.state.rounds[roundId.value];
              && record.phase == OpenProposed && record.proposalEventId == Some(id)
              && record.prompt == Some(payload.prompt) && record.roster == NormaliseRoster(payload.roster)
              && record.thresholdT == Some(payload.thresholdT) && record.thresholdN == Some(payload.thresholdN)
    ensures roundId.None? ==> engine.state.rounds == old(engine.state.rounds)
    ensures forall r :: r in old(engine.state.rounds) && roundId != Some(r) ==>
              r in engine.state.rounds && engine.state.rounds[r] == old(engine.state.rounds)[r]
  {
    ghost var st := engine.state.Value();
    message := engine.CreateOutbound(roundId, at, payload);
    if message.Ok? {
      ghost var e := NewEnvelope(engine.config, st, roundId, at, payload);
      MessageHolds(engine.codec, e, message.value);
      EnvelopeFiles(st, id, e);
      var _ := engine.ApplyPublishedLocalMessage(id, message.value.localEcho);
    }
  }

  lemma EnvelopeFiles(st: Control, id: string, e: Envelope)
    requires TakesEffect(st, id, e)
    ensures var after := Apply(st, id, e);
            && id in after.processed
            && (e.roundId.None? ==> after.rounds == st.rounds)
            && (forall r :: r in st.rounds && e.roundId != Some(r) ==> r in after.rounds && after.rounds[r] == st.rounds[r])
            && (e.roundId.Some? ==>
                  e.roundId.value in after.rounds && after.rounds[e.roundId.value].lastTransitionAt == Some(e.createdAt))
            && (e.roundId.Some? && e.payload.RoundOpenProposal? ==>
                  var record := after.rounds[e.roundId.value];
                  && record.phase == OpenProposed && record.proposalEventId == Some(id)
                  && record.prompt == Some(e.payload.prompt) && record.roster == NormaliseRoster(e.payload.roster)
                  && record.thresholdT == Some(e.payload.thresholdT) && record.thresholdN == Some(e.payload.thresholdN))
  {
    AppliedOnce(st, id, e);
  }

  /** The same at any other coordinator of the election, to whom the message is delivered alone. */
  lemma DeliveredFiles(st: Control, codec: Codec, id: string, e: Envelope, message: Outbound)
    requires Faithful(codec) && Made(Ok(message), codec, e)
    requires TakesEffect(st, id, e) && e.senderPubkey != st.localPubkey
    ensures var after := StateAfter(st, codec, [Transport(id, message.content, Some(message.senderPubkey))]);
            && after == Apply(st, id, e)
            && ReplayResult(st, codec, [Transport(id, message.content, Some(message.senderPubkey))]) ==
                 Ok([Applied(id, e.payload.EventType(), e.roundId, e.createdAt)])
  {
    MessageHolds(codec, e, message);
    var t := Transport(id, message.content, Some(message.senderPubkey));
    var o := Ordered(t, e);
    assert Init([t]) == [] && DecodeAll(codec, st.localPubkey, []) == Ok([]);
    assert [] + [o] == [o];
    SortOfSorted(OrderedKey, [o]);
    assert Init([o]) == [] && ApplyAll(st, []) == st && Reported(st, []) == [];
    assert Reported(st, [o]) == [] + [Report(o)] == [Report(o)];
  }
}
