/** Protocol events and the order they are replayed in (`event.rs`, `reducer.rs`). */
module Events {
  import opened Wrappers
  import opened Order
  import CoordinatorMessages

  // ----- public plane -----

  datatype ElectionDefinitionEvent = ElectionDefinitionEvent(
    schemaVersion: u32, electionId: string, createdAt: i64, authorPubkey: string, eventId: string,
    title: string)

  datatype RoundDefinitionEvent = RoundDefinitionEvent(
    schemaVersion: u32, electionId: string, roundId: string, createdAt: i64, authorPubkey: string, eventId: string,
    prompt: string, thresholdT: u32, thresholdN: u32, roster: seq<string>)

  datatype RoundLifecycleEvent = RoundLifecycleEvent(
    schemaVersion: u32, electionId: string, roundId: string, createdAt: i64, authorPubkey: string, eventId: string,
    prompt: Option<string>, thresholdT: Option<u32>, thresholdN: Option<u32>, roster: seq<string>)

  datatype BallotReceiptEvent = BallotReceiptEvent(
    schemaVersion: u32, electionId: string, roundId: string, createdAt: i64, authorPubkey: string, eventId: string,
    ballotCommitment: string, receiptHash: string, acceptedAt: i64)

  datatype FinalResultEvent = FinalResultEvent(
    schemaVersion: u32, electionId: string, roundId: string, createdAt: i64, authorPubkey: string, eventId: string,
    yesCount: u32, noCount: u32, tallyInputHash: string)

  datatype DisputeRecordEvent = DisputeRecordEvent(
    schemaVersion: u32, electionId: string, roundId: Option<string>, createdAt: i64, authorPubkey: string,
    eventId: string, reason: string)

  datatype PublicEvent =
    | ElectionDefinition(election: ElectionDefinitionEvent)
    | RoundDefinition(definition: RoundDefinitionEvent)
    | RoundOpen(open: RoundLifecycleEvent)
    | RoundClose(close: RoundLifecycleEvent)
    | BallotReceipt(receipt: BallotReceiptEvent)
    | FinalResult(result: FinalResultEvent)
    | DisputeRecord(dispute: DisputeRecordEvent)
  {
    function CreatedAt(): i64 {
      match this
      case ElectionDefinition(e) => e.createdAt
      case RoundDefinition(e) => e.createdAt
      case RoundOpen(e) => e.createdAt
      case RoundClose(e) => e.createdAt
      case BallotReceipt(e) => e.createdAt
      case FinalResult(e) => e.createdAt
      case DisputeRecord(e) => e.createdAt
    }

    function EventId(): string {
      match this
      case ElectionDefinition(e) => e.eventId
      case RoundDefinition(e) => e.eventId
      case RoundOpen(e) => e.eventId
      case RoundClose(e) => e.eventId
      case BallotReceipt(e) => e.eventId
      case FinalResult(e) => e.eventId
      case DisputeRecord(e) => e.eventId
    }

    function ElectionId(): string {
      match this
      case ElectionDefinition(e) => e.electionId
      case RoundDefinition(e) => e.electionId
      case RoundOpen(e) => e.electionId
      case RoundClose(e) => e.electionId
      case BallotReceipt(e) => e.electionId
      case FinalResult(e) => e.electionId
      case DisputeRecord(e) => e.electionId
    }

    /** `public_precedence` */
    function Precedence(): int {
      match this
      case ElectionDefinition(_) => 0
      case RoundDefinition(_) => 1
      case RoundOpen(_) => 2
      case BallotReceipt(_) => 5
      case RoundClose(_) => 6
      case FinalResult(_) => 7
      case DisputeRecord(_) => 8
    }
  }

  // ----- ballot plane -----

  datatype EncryptedBallotEvent = EncryptedBallotEvent(
    schemaVersion: u32, electionId: string, roundId: string, requestId: Option<string>, ticketId: Option<string>,
    createdAt: i64, authorPubkey: string, eventId: string, choice: string, tokenId: Option<string>,
    coordinatorShares: seq<string>)

  datatype BallotAckEvent = BallotAckEvent(
    schemaVersion: u32, electionId: string, roundId: string, createdAt: i64, authorPubkey: string, eventId: string,
    ballotEventId: string)

  datatype InclusionProofEvent = InclusionProofEvent(
    schemaVersion: u32, electionId: string, roundId: string, createdAt: i64, authorPubkey: string, eventId: string,
    ballotEventId: string, proofReference: string)

  datatype BallotEvent =
    | EncryptedBallot(ballot: EncryptedBallotEvent)
    | BallotAck(ack: BallotAckEvent)
    | InclusionProofResponse(proof: InclusionProofEvent)
  {
    function CreatedAt(): i64 {
      match this
      case EncryptedBallot(e) => e.createdAt
      case BallotAck(e) => e.createdAt
      case InclusionProofResponse(e) => e.createdAt
    }

    function EventId(): string {
      match this
      case EncryptedBallot(e) => e.eventId
      case BallotAck(e) => e.eventId
      case InclusionProofResponse(e) => e.eventId
    }

    function ElectionId(): string {
      match this
      case EncryptedBallot(e) => e.electionId
      case BallotAck(e) => e.electionId
      case InclusionProofResponse(e) => e.electionId
    }

    /** `ballot_precedence` */
    function Precedence(): int {
      match this
      case EncryptedBallot(_) => 3
      case BallotAck(_) => 4
      case InclusionProofResponse(_) => 9
    }
  }

  // ----- all planes -----

  datatype ProtocolEvent =
    | Public(publicEvent: PublicEvent)
    | Ballot(ballotEvent: BallotEvent)
    | Coordinator(eventId: string, envelope: CoordinatorMessages.Envelope)

  function CreatedAt(e: ProtocolEvent): i64 {
    match e
    case Public(p) => p.CreatedAt()
    case Ballot(b) => b.CreatedAt()
    case Coordinator(_, envelope) => envelope.createdAt
  }

  function EventId(e: ProtocolEvent): string {
    match e
    case Public(p) => p.EventId()
    case Ballot(b) => b.EventId()
    case Coordinator(id, _) => id
  }

  function ElectionId(e: ProtocolEvent): string {
    match e
    case Public(p) => p.ElectionId()
    case Ballot(b) => b.ElectionId()
    case Coordinator(_, envelope) => envelope.electionId
  }

  /** The coordinator ranks here differ from those of the control-plane replay in `order.rs`. */
  function Precedence(e: ProtocolEvent): int {
    match e
    case Public(p) => p.Precedence()
    case Ballot(b) => b.Precedence()
    case Coordinator(_, envelope) =>
      match envelope.payload.EventType()
      case RoundDraftType => 1
      case RoundOpenProposalType => 2
      case RoundOpenCommitType => 2
      case BallotBatchNoticeType => 3
      case PartialTallyType => 6
      case ResultPublishApprovalType => 7
      case RecoveryCheckpointType => 9
      case DisputeNoticeType => 8
  }

  function Epoch(e: ProtocolEvent): u64 {
    if e.Coordinator? then e.envelope.Epoch() else 0
  }

  function EventKey(e: ProtocolEvent): Key {
    Key(Precedence(e), Epoch(e), CreatedAt(e), EventId(e))
  }

  function PublicKey(p: PublicEvent): Key {
    EventKey(Public(p))
  }

  function BallotKey(b: BallotEvent): Key {
    EventKey(Ballot(b))
  }

  function PublicId(p: PublicEvent): string {
    p.EventId()
  }

  function BallotId(b: BallotEvent): string {
    b.EventId()
  }

  /** `compare_protocol_events` */
  function CompareProtocolEvents(left: ProtocolEvent, right: ProtocolEvent): Ordering {
    CompareInts(Precedence(left), Precedence(right))
      .Then(CompareInts(Epoch(left), Epoch(right)))
      .Then(CompareInts(CreatedAt(left), CreatedAt(right)))
      .Then(CompareStrings(EventId(left), EventId(right)))
  }

  /**
   The comparison goes by stage, then the smaller epoch, then the earlier time, then the smaller id. So it is a
   total preorder, and ties exactly on equal keys, hence only on equal ids.
   */
  lemma CompareIsTotalPreorder(a: ProtocolEvent, b: ProtocolEvent, c: ProtocolEvent)
    ensures CompareProtocolEvents(a, b) == CompareKeys(EventKey(a), EventKey(b))
    ensures CompareProtocolEvents(a, b).Less? <==>
              || Precedence(a) < Precedence(b)
              || (Precedence(a) == Precedence(b) && Epoch(a) < Epoch(b))
              || (Precedence(a) == Precedence(b) && Epoch(a) == Epoch(b) && CreatedAt(a) < CreatedAt(b))
              || (Precedence(a) == Precedence(b) && Epoch(a) == Epoch(b) && CreatedAt(a) == CreatedAt(b)
                  && StrLt(EventId(a), EventId(b)))
    ensures CompareProtocolEvents(a, a).Equal?
    ensures CompareProtocolEvents(a, b).Less? <==> CompareProtocolEvents(b, a).Greater?
    ensures !CompareProtocolEvents(a, b).Greater? && !CompareProtocolEvents(b, c).Greater? ==>
              !CompareProtocolEvents(a, c).Greater?
    ensures CompareProtocolEvents(a, b).Equal? <==> EventKey(a) == EventKey(b)
    ensures CompareProtocolEvents(a, b).Equal? ==> EventId(a) == EventId(b)
  {
    CompareKeysAgree(EventKey(a), EventKey(a));
    CompareKeysAgree(EventKey(a), EventKey(b));
    KeysCompared(EventKey(a), EventKey(b));
    KeyOrderIsTotal(EventKey(a), EventKey(b), EventKey(c));
  }

  /** The ten stages of the replay order, and what stands at each. */
  lemma StageTable(e: ProtocolEvent)
    ensures Precedence(e) == 0 <==> e.Public? && e.publicEvent.ElectionDefinition?
    ensures Precedence(e) == 1 <==>
              || (e.Public? && e.publicEvent.RoundDefinition?)
              || (e.Coordinator? && e.envelope.payload.RoundDraft?)
    ensures Precedence(e) == 2 <==>
              || (e.Public? && e.publicEvent.RoundOpen?)
              || (e.Coordinator? && (e.envelope.payload.RoundOpenProposal? || e.envelope.payload.RoundOpenCommit?))
    ensures Precedence(e) == 3 <==>
              || (e.Ballot? && e.ballotEvent.EncryptedBallot?)
              || (e.Coordinator? && e.envelope.payload.BallotBatchNotice?)
    ensures Precedence(e) == 4 <==> e.Ballot? && e.ballotEvent.BallotAck?
    ensures Precedence(e) == 5 <==> e.Public? && e.publicEvent.BallotReceipt?
    ensures Precedence(e) == 6 <==>
              || (e.Public? && e.publicEvent.RoundClose?)
              || (e.Coordinator? && e.envelope.payload.PartialTally?)
    ensures Precedence(e) == 7 <==>
              || (e.Public? && e.publicEvent.FinalResult?)
              || (e.Coordinator? && e.envelope.payload.ResultPublishApproval?)
    ensures Precedence(e) == 8 <==>
              || (e.Public? && e.publicEvent.DisputeRecord?)
              || (e.Coordinator? && e.envelope.payload.DisputeNotice?)
    ensures Precedence(e) == 9 <==>
              || (e.Ballot? && e.ballotEvent.InclusionProofResponse?)
              || (e.Coordinator? && e.envelope.payload.RecoveryCheckpoint?)
  {
    if e.Coordinator? {
      CoordinatorMessages.TypesTell(e.envelope.payload);
    }
  }

  /** Every event is sorted by its own creation time and id, coordinator events by their own epoch too. */
  lemma SortedByOwnFields(e: ProtocolEvent)
    ensures e.Coordinator? ==>
              && Epoch(e) == (if e.envelope.logicalEpoch.Some? then e.envelope.logicalEpoch.value else 0)
              && CreatedAt(e) == e.envelope.createdAt && EventId(e) == e.eventId
    ensures !e.Coordinator? ==> Epoch(e) == 0
    ensures match e
            case Coordinator(_, _) => true
            case Ballot(EncryptedBallot(b)) => CreatedAt(e) == b.createdAt && EventId(e) == b.eventId
            case Ballot(BallotAck(b)) => CreatedAt(e) == b.createdAt && EventId(e) == b.eventId
            case Ballot(InclusionProofResponse(b)) => CreatedAt(e) == b.createdAt && EventId(e) == b.eventId
            case Public(ElectionDefinition(p)) => CreatedAt(e) == p.createdAt && EventId(e) == p.eventId
            case Public(RoundDefinition(p)) => CreatedAt(e) == p.createdAt && EventId(e) == p.eventId
            case Public(RoundOpen(p)) => CreatedAt(e) == p.createdAt && EventId(e) == p.eventId
            case Public(RoundClose(p)) => CreatedAt(e) == p.createdAt && EventId(e) == p.eventId
            case Public(BallotReceipt(p)) => CreatedAt(e) == p.createdAt && EventId(e) == p.eventId
            case Public(FinalResult(p)) => CreatedAt(e) == p.createdAt && EventId(e) == p.eventId
            case Public(DisputeRecord(p)) => CreatedAt(e) == p.createdAt && EventId(e) == p.eventId
  {
  }

  /** Every event is of the election its own record names. */
  lemma OfOwnElection(e: ProtocolEvent)
    ensures match e
            case Coordinator(_, envelope) => ElectionId(e) == envelope.electionId
            case Ballot(EncryptedBallot(b)) => ElectionId(e) == b.electionId
            case Ballot(BallotAck(b)) => ElectionId(e) == b.electionId
            case Ballot(InclusionProofResponse(b)) => ElectionId(e) == b.electionId
            case Public(ElectionDefinition(p)) => ElectionId(e) == p.electionId
            case Public(RoundDefinition(p)) => ElectionId(e) == p.electionId
            case Public(RoundOpen(p)) => ElectionId(e) == p.electionId
            case Public(RoundClose(p)) => ElectionId(e) == p.electionId
            case Public(BallotReceipt(p)) => ElectionId(e) == p.electionId
            case Public(FinalResult(p)) => ElectionId(e) == p.electionId
            case Public(DisputeRecord(p)) => ElectionId(e) == p.electionId
  {
  }
}
