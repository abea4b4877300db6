/** Replaying a batch of transport events in order (`replay.rs`, `order.rs`). */
module CoordinatorReplay {
  import opened Wrappers
  import opened Order
  import opened Sorting
  import opened CoordinatorMessages
  import opened CoordinatorState

  datatype Transport = Transport(eventId: string, rawContent: string, senderPubkey: Option<string>)

  datatype Ordered = Ordered(transport: Transport, envelope: Envelope)

  datatype Applied = Applied(eventId: string, eventType: CoordinatorEventType, roundId: Option<string>, createdAt: i64)

  datatype GroupEngineError = InvalidPayload(detail: string) | OpenMlsUnavailable

  /** The group engine and the JSON text of local echoes, as four functions. */
  datatype Codec = Codec(
    encode: Envelope -> Result<string, GroupEngineError>,
    decode: string -> Result<Envelope, GroupEngineError>,
    toEcho: Envelope -> string,
    fromEcho: string -> Option<Envelope>)

  /** Reading back what was written gives the envelope. */
  ghost predicate Faithful(codec: Codec) {
    && (forall e, s :: codec.encode(e) == Ok(s) ==> codec.decode(s) == Ok(e))
    && (forall e :: codec.fromEcho(codec.toEcho(e)) == Some(e))
  }

  // ----- order.rs -----

  function Precedence(t: CoordinatorEventType): int {
    match t
    case RoundDraftType => 0
    case RoundOpenProposalType => 1
    case RoundOpenCommitType => 2
    case BallotBatchNoticeType => 3
    case PartialTallyType => 4
    case ResultPublishApprovalType => 5
    case RecoveryCheckpointType => 6
    case DisputeNoticeType => 7
  }

  function OrderedKey(o: Ordered): Key {
    Key(Precedence(o.envelope.payload.EventType()), o.envelope.Epoch(), o.envelope.createdAt, o.transport.eventId)
  }

  function OrderedId(o: Ordered): string {
    o.transport.eventId
  }

  /** `compare_coordinator_events` */
  function CompareCoordinatorEvents(left: Ordered, right: Ordered): Ordering {
    CompareInts(Precedence(left.envelope.payload.EventType()), Precedence(right.envelope.payload.EventType()))
      .Then(CompareInts(left.envelope.Epoch(), right.envelope.Epoch()))
      .Then(CompareInts(left.envelope.createdAt, right.envelope.createdAt))
      .Then(CompareStrings(left.transport.eventId, right.transport.eventId))
  }

  /**
   The comparison goes by stage, then the smaller epoch, then the earlier time, then the smaller id. So it is a
   total preorder that ties only on equal ids, and ranks event types apart.
   */
  lemma CompareIsTotalPreorder(a: Ordered, b: Ordered, c: Ordered)
    ensures CompareCoordinatorEvents(a, b) == CompareKeys(OrderedKey(a), OrderedKey(b))
    ensures var x, y := Precedence(a.envelope.payload.EventType()), Precedence(b.envelope.payload.EventType());
            var m, n := a.envelope.logicalEpoch.GetOr(0), b.envelope.logicalEpoch.GetOr(0);
            var s, t := a.envelope.createdAt, b.envelope.createdAt;
            CompareCoordinatorEvents(a, b).Less? <==>
              || x < y
              || (x == y && m < n)
              || (x == y && m == n && s < t)
              || (x == y && m == n && s == t && StrLt(a.transport.eventId, b.transport.eventId))
    ensures CompareCoordinatorEvents(a, b).Less? <==> CompareCoordinatorEvents(b, a).Greater?
    ensures CompareCoordinatorEvents(a, b).Equal? ==>
              OrderedId(a) == OrderedId(b) && a.envelope.payload.EventType() == b.envelope.payload.EventType()
    ensures !CompareCoordinatorEvents(a, b).Greater? && !CompareCoordinatorEvents(b, c).Greater? ==>
              !CompareCoordinatorEvents(a, c).Greater?
  {
    CompareKeysAgree(OrderedKey(a), OrderedKey(b));
    KeysCompared(OrderedKey(a), OrderedKey(b));
    KeyOrderIsTotal(OrderedKey(a), OrderedKey(b), OrderedKey(c));
  }

  /** The eight stages of the control plane's replay order. */
  lemma StageTable(p: Payload)
    ensures Precedence(p.EventType()) == 0 <==> p.RoundDraft?
    ensures Precedence(p.EventType()) == 1 <==> p.RoundOpenProposal?
    ensures Precedence(p.EventType()) == 2 <==> p.RoundOpenCommit?
    ensures Precedence(p.EventType()) == 3 <==> p.BallotBatchNotice?
    ensures Precedence(p.EventType()) == 4 <==> p.PartialTally?
    ensures Precedence(p.EventType()) == 5 <==> p.ResultPublishApproval?
    ensures Precedence(p.EventType()) == 6 <==> p.RecoveryCheckpoint?
    ensures Precedence(p.EventType()) == 7 <==> p.DisputeNotice?
  {
    TypesTell(p);
  }

  // ----- replay.rs -----

  /** Decodes what others sent, in arrival order; the first failure fails the batch. */
  function DecodeAll(codec: Codec, local: string, events: seq<Transport>): Result<seq<Ordered>, GroupEngineError> {
    if events == [] then Ok([]) else
      match DecodeAll(codec, local, Init(events))
      case Err(error) => Err(error)
      case Ok(before) =>
        var t := Last(events);
        if t.senderPubkey == Some(local) then Ok(before)
        else
          match codec.decode(t.rawContent)
          case Err(error) => Err(error)
          case Ok(envelope) => Ok(before + [Ordered(t, envelope)])
  }

  function ApplyAll(st: Control, events: seq<Ordered>): Control {
    if events == [] then st else Apply(ApplyAll(st, Init(events)), Last(events).transport.eventId, Last(events).envelope)
  }

  function Report(o: Ordered): Applied {
    Applied(o.transport.eventId, o.envelope.payload.EventType(), o.envelope.roundId, o.envelope.createdAt)
  }

  /** The events reported as applied: those not yet processed when their turn comes. */
  function Reported(st: Control, events: seq<Ordered>): seq<Applied> {
    if events == [] then [] else
      Reported(st, Init(events)) +
      if Last(events).transport.eventId in ApplyAll(st, Init(events)).processed then [] else [Report(Last(events))]
  }

  /** The state a batch leaves; a batch that does not decode leaves it as it was. */
  function StateAfter(st: Control, codec: Codec, events: seq<Transport>): Control {
    match DecodeAll(codec, st.localPubkey, events)
    case Err(_) => st
    case Ok(decoded) => ApplyAll(st, Sort(OrderedKey, decoded))
  }

  function ReplayResult(st: Control, codec: Codec, events: seq<Transport>): Result<seq<Applied>, GroupEngineError> {
    match DecodeAll(codec, st.localPubkey, events)
    case Err(error) => Err(error)
    case Ok(decoded) => Ok(Reported(st, Sort(OrderedKey, decoded)))
  }

  method DecodeBatch(codec: Codec, local: string, events: seq<Transport>)
    returns (result: Result<seq<Ordered>, GroupEngineError>)
    ensures result == DecodeAll(codec, local, events)
  {
    var ordered := [];
    for i := 0 to |events|
      invariant DecodeAll(codec, local, events[..i]) == Ok(ordered)
    {
      var next := events[..i + 1];
      assert Init(next) == events[..i] && Last(next) == events[i];
      if events[i].senderPubkey != Some(local) {
        var decoded := codec.decode(events[i].rawContent);
        if decoded.Err? {
          FailsOn(codec, local, events, i + 1, decoded.error);
          return Err(decoded.error);
        }
        ordered := ordered + [Ordered(events[i], decoded.value)];
      }
    }
    assert events[..|events|] == events;
    result := Ok(ordered);
  }

  lemma {:induction false} FailsOn(codec: Codec, local: string, events: seq<Transport>, i: nat, error: GroupEngineError)
    requires i <= |events| && DecodeAll(codec, local, events[..i]) == Err(error)
    ensures DecodeAll(codec, local, events) == Err(error)
    decreases |events| - i
  {
    if i < |events| {
      assert Init(events[..i + 1]) == events[..i];
      FailsOn(codec, local, events, i + 1, error);
    } else {
      assert events[..i] == events;
    }
  }

  method ReplayTransportEvents(state: CoordinatorControlState, codec: Codec, events: seq<Transport>)
    returns (result: Result<seq<Applied>, GroupEngineError>)
    modifies state
    ensures state.Value() == StateAfter(old(state.Value()), codec, events)
    ensures result == ReplayResult(old(state.Value()), codec, events)
  {
    var decoded := DecodeBatch(codec, state.localPubkey, events);
    if decoded.Err? {
      return Err(decoded.error);
    }
    var ordered := Sort(OrderedKey, decoded.value);
    ghost var before := state.Value();
    var applied := [];
    for i := 0 to |ordered|
      invariant state.Value() == ApplyAll(before, ordered[..i])
      invariant applied == Reported(before, ordered[..i])
    {
      var next := ordered[..i + 1];
      assert Init(next) == ordered[..i] && Last(next) == ordered[i];
      if state.HasProcessed(ordered[i].transport.eventId) {
        continue;
      }
      state.ApplyEnvelope(ordered[i].transport.eventId, ordered[i].envelope);
      applied := applied + [Report(ordered[i])];
    }
    assert ordered[..|ordered|] == ordered;
    result := Ok(applied);
  }

  // ----- decoding -----

  /** The events others sent, in arrival order. */
  function FromOthers(events: seq<Transport>, local: string): seq<Transport> {
    if events == [] then [] else
      FromOthers(Init(events), local) + if Last(events).senderPubkey == Some(local) then [] else [Last(events)]
  }

  /** A batch decodes iff everything others sent does, and then to just that, in arrival order. */
  lemma {:induction false} DecodesIff(codec: Codec, local: string, events: seq<Transport>)
    ensures DecodeAll(codec, local, events).Ok? <==>
              forall t :: t in events ==> t.senderPubkey == Some(local) || codec.decode(t.rawContent).Ok?
    ensures DecodeAll(codec, local, events).Ok? ==>
              var decoded, sent := DecodeAll(codec, local, events).value, FromOthers(events, local);
              && |decoded| == |sent|
              && forall i :: 0 <= i < |sent| ==>
                   decoded[i].transport == sent[i] && codec.decode(sent[i].rawContent) == Ok(decoded[i].envelope)
  {
    if events != [] {
      DecodesIff(codec, local, Init(events));
      SplitLast(events);
    }
  }

  /** Otherwise the error is that of the first that does not. */
  lemma {:induction false} FirstFailureIsReported(codec: Codec, local: string, events: seq<Transport>) returns (i: nat)
    requires DecodeAll(codec, local, events).Err?
    ensures i < |events| && events[i].senderPubkey != Some(local)
    ensures codec.decode(events[i].rawContent) == Err(DecodeAll(codec, local, events).error)
    ensures forall j :: 0 <= j < i ==> events[j].senderPubkey == Some(local) || codec.decode(events[j].rawContent).Ok?
  {
    if DecodeAll(codec, local, Init(events)).Err? {
      i := FirstFailureIsReported(codec, local, Init(events));
    } else {
      i := |events| - 1;
      DecodesIff(codec, local, Init(events));
      forall j | 0 <= j < i ensures events[j].senderPubkey == Some(local) || codec.decode(events[j].rawContent).Ok? {
        assert events[j] == Init(events)[j] && events[j] in Init(events);
      }
    }
  }
}
