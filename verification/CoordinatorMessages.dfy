/** Control messages the coordinators exchange (`coordinator_messages.rs`, `types.rs`). */
module CoordinatorMessages {
  import opened Wrappers

  const COORDINATOR_SCHEMA_VERSION: u32 := 1

  datatype CoordinatorEventType =
    | RoundDraftType
    | RoundOpenProposalType
    | RoundOpenCommitType
    | BallotBatchNoticeType
    | PartialTallyType
    | ResultPublishApprovalType
    | RecoveryCheckpointType
    | DisputeNoticeType

  datatype Payload =
    | RoundDraft(prompt: string, thresholdT: u32, thresholdN: u32, roster: seq<string>)
    | RoundOpenProposal(prompt: string, thresholdT: u32, thresholdN: u32, roster: seq<string>)
    | RoundOpenCommit(proposalEventId: string)
    | BallotBatchNotice(acceptedBallotEventIds: seq<string>)
    | PartialTally(yesCount: u32, noCount: u32, acceptedBallotEventIds: seq<string>)
    | ResultPublishApproval(resultHash: string)
    | RecoveryCheckpoint(checkpointHash: string)
    | DisputeNotice(reason: string, relatedEventId: Option<string>)
  {
    function EventType(): CoordinatorEventType {
      match this
      case RoundDraft(_, _, _, _) => RoundDraftType
      case RoundOpenProposal(_, _, _, _) => RoundOpenProposalType
      case RoundOpenCommit(_) => RoundOpenCommitType
      case BallotBatchNotice(_) => BallotBatchNoticeType
      case PartialTally(_, _, _) => PartialTallyType
      case ResultPublishApproval(_) => ResultPublishApprovalType
      case RecoveryCheckpoint(_) => RecoveryCheckpointType
      case DisputeNotice(_, _) => DisputeNoticeType
    }
  }

  lemma TypesTell(p: Payload)
    ensures p.RoundDraft? <==> p.EventType() == RoundDraftType
    ensures p.RoundOpenProposal? <==> p.EventType() == RoundOpenProposalType
    ensures p.RoundOpenCommit? <==> p.EventType() == RoundOpenCommitType
    ensures p.BallotBatchNotice? <==> p.EventType() == BallotBatchNoticeType
    ensures p.PartialTally? <==> p.EventType() == PartialTallyType
    ensures p.ResultPublishApproval? <==> p.EventType() == ResultPublishApprovalType
    ensures p.RecoveryCheckpoint? <==> p.EventType() == RecoveryCheckpointType
    ensures p.DisputeNotice? <==> p.EventType() == DisputeNoticeType
  {
  }

  datatype Envelope = Envelope(
    schemaVersion: u32,
    electionId: string,
    roundId: Option<string>,
    createdAt: i64,
    senderPubkey: string,
    logicalEpoch: Option<u64>,
    payload: Payload)
  {
    /** `logical_epoch.unwrap_or(0)` */
    function Epoch(): u64 {
      logicalEpoch.GetOr(0)
    }
  }
}
