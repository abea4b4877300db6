/**
 What one replayed batch does to a round, in closed form, whatever the arrival order and repetition of the
 deliveries in it.
 */
module CoordinatorBatch {
  import opened Wrappers
  import opened Order
  import opened Sorting
  import opened CoordinatorMessages
  import opened CoordinatorState
  import opened CoordinatorReplay

  // ----- the deliveries that count -----

  /** The deliveries of this election. */
  function OfElection(electionId: string, events: seq<Ordered>): seq<Ordered> {
    if events == [] then [] else
      OfElection(electionId, Init(events)) + if Last(events).envelope.electionId == electionId then [Last(events)] else []
  }

  /** Those that change the state: of its election, not yet processed, each id once. */
  function Effective(st: Control, events: seq<Ordered>): seq<Ordered> {
    Firsts(OrderedId, st.processed, OfElection(st.electionId, events))
  }

  function OfRound(events: seq<Ordered>, r: string): seq<Ordered> {
    if events == [] then [] else
      OfRound(Init(events), r) + if Last(events).envelope.roundId == Some(r) then [Last(events)] else []
  }

  /** A round's record after these transitions. */
  function RecordFrom(before: RoundRecord, events: seq<Ordered>): RoundRecord {
    if events == [] then before
    else Transition(RecordFrom(before, Init(events)), OrderedId(Last(events)), Last(events).envelope)
  }

  lemma {:induction false} ProcessedAfter(st: Control, events: seq<Ordered>)
    ensures ApplyAll(st, events).processed == st.processed + Ids(OrderedId, OfElection(st.electionId, events))
    ensures ApplyAll(st, events).electionId == st.electionId
    ensures ApplyAll(st, events).localPubkey == st.localPubkey
  {
    if events != [] {
      ProcessedAfter(st, Init(events));
      var before, o := OfElection(st.electionId, Init(events)), Last(events);
      assert Init(before + [o]) == before && Last(before + [o]) == o;
      assert before + [] == before;
    }
  }

  /** `o` takes effect in this state: it is of the election and not processed yet. */
  predicate Counts(st: Control, o: Ordered) {
    o.envelope.electionId == st.electionId && OrderedId(o) !in st.processed
  }

  /** The last event is effective exactly when it counts in the state the others leave. */
  lemma EffectiveLast(st: Control, events: seq<Ordered>)
    requires events != []
    ensures Effective(st, events) ==
              if Counts(ApplyAll(st, Init(events)), Last(events)) then Effective(st, Init(events)) + [Last(events)]
              else Effective(st, Init(events))
  {
    var mine, o := OfElection(st.electionId, Init(events)), Last(events);
    ProcessedAfter(st, Init(events));
    if o.envelope.electionId == st.electionId {
      assert Init(mine + [o]) == mine && Last(mine + [o]) == o;
    } else {
      assert mine + [] == mine;
    }
  }

  lemma RecordApplied(st: Control, o: Ordered, r: string)
    ensures var rounds, acts := Apply(st, OrderedId(o), o.envelope).rounds, Counts(st, o) && o.envelope.roundId == Some(r);
            && (r in rounds <==> r in st.rounds || acts)
            && RecordOf(rounds, r) ==
                 if acts then Transition(RecordOf(st.rounds, r), OrderedId(o), o.envelope) else RecordOf(st.rounds, r)
  {
  }

  lemma OfRoundSnoc(acts: seq<Ordered>, o: Ordered, r: string)
    ensures OfRound(acts + [o], r) == if o.envelope.roundId == Some(r) then OfRound(acts, r) + [o] else OfRound(acts, r)
  {
    assert Init(acts + [o]) == acts && Last(acts + [o]) == o;
    assert OfRound(acts, r) + [] == OfRound(acts, r);
  }

  lemma RecordSnoc(before: RoundRecord, events: seq<Ordered>, o: Ordered)
    ensures RecordFrom(before, events + [o]) == Transition(RecordFrom(before, events), OrderedId(o), o.envelope)
  {
    assert Init(events + [o]) == events && Last(events + [o]) == o;
  }

  /** After a batch the state holds of each round what its effective transitions make of it. */
  lemma {:induction false} RoundAfter(st: Control, events: seq<Ordered>, r: string)
    ensures var rounds, acts := ApplyAll(st, events).rounds, OfRound(Effective(st, events), r);
            && (r in rounds <==> r in st.rounds || acts != [])
            && RecordOf(rounds, r) == RecordFrom(RecordOf(st.rounds, r), acts)
  {
    if events != [] {
      var o, acts := Last(events), Effective(st, Init(events));
      RoundAfter(st, Init(events), r);
      EffectiveLast(st, events);
      RecordApplied(ApplyAll(st, Init(events)), o, r);
      OfRoundSnoc(acts, o, r);
      RecordSnoc(RecordOf(st.rounds, r), OfRound(acts, r), o);
    }
  }

  // ----- the closed form -----

  predicate HasType(events: seq<Ordered>, t: CoordinatorEventType) {
    events != [] && (Last(events).envelope.payload.EventType() == t || HasType(Init(events), t))
  }

  lemma {:induction false} HasTypeIff(events: seq<Ordered>, t: CoordinatorEventType)
    ensures HasType(events, t) <==> exists o :: o in events && o.envelope.payload.EventType() == t
  {
    if events != [] {
      SplitLast(events);
      HasTypeIff(Init(events), t);
      if o :| o in events && o.envelope.payload.EventType() == t {
        assert o in Init(events) || o == Last(events);
      }
    }
  }

  /** The distinct senders of the events of one type. */
  function Senders(events: seq<Ordered>, t: CoordinatorEventType): set<string> {
    if events == [] then {} else
      Senders(Init(events), t) + if Last(events).envelope.payload.EventType() == t then {Last(events).envelope.senderPubkey} else {}
  }

  /** The distinct senders who commit to the proposal with this id. */
  function Committers(events: seq<Ordered>, proposal: string): set<string> {
    if events == [] then {} else
      Committers(Init(events), proposal) +
      if Last(events).envelope.payload == RoundOpenCommit(proposal) then {Last(events).envelope.senderPubkey} else {}
  }

  lemma {:induction false} SendersIff(events: seq<Ordered>, t: CoordinatorEventType, x: string)
    ensures x in Senders(events, t) <==>
              exists o :: o in events && o.envelope.payload.EventType() == t && o.envelope.senderPubkey == x
  {
    if events != [] {
      SplitLast(events);
      SendersIff(Init(events), t, x);
      if o :| o in events && o.envelope.payload.EventType() == t && o.envelope.senderPubkey == x {
        assert o in Init(events) || o == Last(events);
      }
    }
  }

  lemma {:induction false} CommittersIff(events: seq<Ordered>, proposal: string, x: string)
    ensures x in Committers(events, proposal) <==>
              exists o :: o in events && o.envelope.payload == RoundOpenCommit(proposal) && o.envelope.senderPubkey == x
  {
    if events != [] {
      SplitLast(events);
      CommittersIff(Init(events), proposal, x);
      if o :| o in events && o.envelope.payload == RoundOpenCommit(proposal) && o.envelope.senderPubkey == x {
        assert o in Init(events) || o == Last(events);
      }
    }
  }

  /** The last event of a type. */
  function LatestOf(events: seq<Ordered>, t: CoordinatorEventType): Option<Ordered> {
    if events == [] then None
    else if Last(events).envelope.payload.EventType() == t then Some(Last(events))
    else LatestOf(Init(events), t)
  }

  /** A draft or a proposal: the events that set a round's prompt, thresholds and roster. */
  predicate Sets(o: Ordered) {
    o.envelope.payload.RoundDraft? || o.envelope.payload.RoundOpenProposal?
  }

  /** The event whose settings stand: the last proposal, else the last draft. */
  function Standing(events: seq<Ordered>): Option<Ordered> {
    var proposal := LatestOf(events, RoundOpenProposalType);
    if proposal.Some? then proposal else LatestOf(events, RoundDraftType)
  }

  function RosterSetBy(o: Option<Ordered>): seq<string> {
    if o.Some? && Sets(o.value) then NormaliseRoster(o.value.envelope.payload.roster) else []
  }

  function StandingRoster(events: seq<Ordered>): seq<string> {
    RosterSetBy(Standing(events))
  }

  function ProposalId(events: seq<Ordered>): Option<string> {
    match LatestOf(events, RoundOpenProposalType)
    case None => None
    case Some(o) => Some(OrderedId(o))
  }

  /** The proposal in force after the batch: its last one, else the one before. */
  function StandingProposal(before: Option<string>, events: seq<Ordered>): Option<string> {
    if ProposalId(events).Some? then ProposalId(events) else before
  }

  function RosterAfter(before: seq<string>, events: seq<Ordered>): seq<string> {
    if Standing(events).Some? then StandingRoster(events) else before
  }

  /** The senders who commit to this proposal, if there is one. */
  function CommittersTo(events: seq<Ordered>, proposal: Option<string>): set<string> {
    match proposal
    case None => {}
    case Some(id) => Committers(events, id)
  }

  /** What the closed form determines of a record: settings, who has acted, and the phase. */
  datatype Shape = Shape(
    roster: seq<string>, proposalEventId: Option<string>, committers: set<string>, tallySenders: set<string>,
    approvers: set<string>, phase: Phase)

  function ShapeOf(round: RoundRecord): Shape {
    Shape(round.roster, round.proposalEventId, round.openCommits.Keys, round.tallies.Keys, round.approvals.Keys, round.phase)
  }

  const FRESH := Shape([], None, {}, {}, {}, Draft)

  /** The phase a batch sets, the last kind of event to set one deciding; `None` if it sets none. */
  function PhaseSet(disputed: bool, published: bool, tallied: bool, open: bool, proposed: bool): Option<Phase> {
    if disputed then Some(Disputed)
    else if published then Some(Published)
    else if tallied then Some(Tallied)
    else if open then Some(Open)
    else if proposed then Some(OpenProposed)
    else None
  }

  function CommittersAfter(s: Shape, events: seq<Ordered>): set<string> {
    s.committers + CommittersTo(events, StandingProposal(s.proposalEventId, events))
  }

  function SendersAfter(before: set<string>, events: seq<Ordered>, t: CoordinatorEventType): set<string> {
    before + Senders(events, t)
  }

  /**
   Approvals, tallies and commits to the standing proposal set their phase when the batch has some and
   their senders, those of earlier batches included, reach the quorum.
   */
  function BatchPhase(s: Shape, events: seq<Ordered>): Option<Phase> {
    var quorum := Expected(RosterAfter(s.roster, events));
    PhaseSet(HasType(events, DisputeNoticeType),
             HasType(events, ResultPublishApprovalType) && |SendersAfter(s.approvers, events, ResultPublishApprovalType)| >= quorum,
             HasType(events, PartialTallyType) && |SendersAfter(s.tallySenders, events, PartialTallyType)| >= quorum,
             CommittersTo(events, StandingProposal(s.proposalEventId, events)) != {} && |CommittersAfter(s, events)| >= quorum,
             HasType(events, RoundOpenProposalType))
  }

  /** The closed form of a batch: a round of shape `s`, after the batch's events about it. */
  function AfterBatch(s: Shape, events: seq<Ordered>): Shape {
    Shape(RosterAfter(s.roster, events), StandingProposal(s.proposalEventId, events), CommittersAfter(s, events),
          SendersAfter(s.tallySenders, events, PartialTallyType), SendersAfter(s.approvers, events, ResultPublishApprovalType),
          BatchPhase(s, events).GetOr(s.phase))
  }

  /** A new round's phase: by dispute, then by numbers alone, since a quorum is at least one. */
  function FreshPhase(events: seq<Ordered>): Phase {
    var quorum := Expected(StandingRoster(events));
    if HasType(events, DisputeNoticeType) then Disputed
    else if |Senders(events, ResultPublishApprovalType)| >= quorum then Published
    else if |Senders(events, PartialTallyType)| >= quorum then Tallied
    else if |CommittersTo(events, ProposalId(events))| >= quorum then Open
    else if HasType(events, RoundOpenProposalType) then OpenProposed
    else Draft
  }

  // ----- one event at a time -----

  lemma {:induction false} LatestOfType(events: seq<Ordered>, t: CoordinatorEventType)
    ensures LatestOf(events, t).Some? <==> HasType(events, t)
    ensures LatestOf(events, t).Some? ==>
              LatestOf(events, t).value in events && LatestOf(events, t).value.envelope.payload.EventType() == t
  {
    if events != [] {
      LatestOfType(Init(events), t);
    }
  }

  lemma {:induction false} SomeSender(events: seq<Ordered>, t: CoordinatorEventType)
    ensures Senders(events, t) != {} <==> HasType(events, t)
  {
    if events != [] {
      SomeSender(Init(events), t);
    }
  }

  lemma {:induction false} NoCommits(events: seq<Ordered>, id: string)
    requires !HasType(events, RoundOpenCommitType)
    ensures Committers(events, id) == {}
  {
    if events != [] {
      NoCommits(Init(events), id);
    }
  }

  /** Nothing before the last event sorts after it. */
  ghost predicate EndsInOrder(events: seq<Ordered>) {
    events != [] && Precede(OrderedKey, Init(events), Last(events))
  }

  /** So nothing of a later type comes before it. */
  lemma NoneLater(events: seq<Ordered>, t: CoordinatorEventType)
    requires EndsInOrder(events) && Precedence(t) > Precedence(Last(events).envelope.payload.EventType())
    ensures !HasType(Init(events), t)
  {
    HasTypeIff(Init(events), t);
  }

  // ----- one transition, part by part -----

  function RosterStep(roster: seq<string>, o: Ordered): seq<string> {
    if Sets(o) then RosterSetBy(Some(o)) else roster
  }

  function ProposalStep(proposal: Option<string>, o: Ordered): Option<string> {
    if o.envelope.payload.RoundOpenProposal? then Some(OrderedId(o)) else proposal
  }

  function CommittersStep(proposal: Option<string>, committers: set<string>, o: Ordered): set<string> {
    if o.envelope.payload.RoundOpenCommit? && proposal == Some(o.envelope.payload.proposalEventId)
    then committers + {o.envelope.senderPubkey} else committers
  }

  function SendersStep(senders: set<string>, t: CoordinatorEventType, o: Ordered): set<string> {
    if o.envelope.payload.EventType() == t then senders + {o.envelope.senderPubkey} else senders
  }

  /** The phase after a transition, given the members after it. */
  function PhaseStep(phase: Phase, roster: seq<string>, proposal: Option<string>, committers: set<string>,
                     tallySenders: set<string>, approvers: set<string>, o: Ordered): Phase {
    match o.envelope.payload
    case RoundOpenProposal(_, _, _, _) => OpenProposed
    case RoundOpenCommit(id) => if proposal == Some(id) && |committers| >= Expected(roster) then Open else phase
    case PartialTally(_, _, _) => if |tallySenders| >= Expected(roster) then Tallied else phase
    case ResultPublishApproval(_) => if |approvers| >= Expected(roster) then Published else phase
    case DisputeNotice(_, _) => Disputed
    case _ => phase
  }

  /** The transitions, seen on shapes. */
  function ShapeStep(s: Shape, o: Ordered): Shape {
    var roster := RosterStep(s.roster, o);
    var proposal := ProposalStep(s.proposalEventId, o);
    var committers := CommittersStep(s.proposalEventId, s.committers, o);
    var tallySenders := SendersStep(s.tallySenders, PartialTallyType, o);
    var approvers := SendersStep(s.approvers, ResultPublishApprovalType, o);
    Shape(roster, proposal, committers, tallySenders, approvers,
          PhaseStep(s.phase, roster, proposal, committers, tallySenders, approvers, o))
  }

  lemma UpdatedKeys<V>(m: map<string, V>, k: string, v: V)
    ensures m[k := v].Keys == m.Keys + {k} && |m[k := v]| == |m.Keys + {k}|
  {
    var n := m[k := v];
    assert n.Keys == m.Keys + {k};
    assert |n| == |n.Keys|;
  }

  lemma CommitShape(before: RoundRecord, o: Ordered)
    requires o.envelope.payload.RoundOpenCommit?
    ensures ShapeOf(Transition(before, OrderedId(o), o.envelope)) == ShapeStep(ShapeOf(before), o)
  {
    UpdatedKeys(before.openCommits, o.envelope.senderPubkey, OrderedId(o));
  }

  lemma TallyShape(before: RoundRecord, o: Ordered)
    requires o.envelope.payload.PartialTally?
    ensures ShapeOf(Transition(before, OrderedId(o), o.envelope)) == ShapeStep(ShapeOf(before), o)
  {
    var e := o.envelope;
    var record := TallyRecord(e.senderPubkey, e.payload.yesCount, e.payload.noCount, e.payload.acceptedBallotEventIds,
                              OrderedId(o), e.createdAt);
    UpdatedKeys(before.tallies, e.senderPubkey, record);
  }

  lemma ApprovalShape(before: RoundRecord, o: Ordered)
    requires o.envelope.payload.ResultPublishApproval?
    ensures ShapeOf(Transition(before, OrderedId(o), o.envelope)) == ShapeStep(ShapeOf(before), o)
  {
    var e := o.envelope;
    UpdatedKeys(before.approvals, e.senderPubkey,
                ApprovalRecord(e.senderPubkey, e.payload.resultHash, OrderedId(o), e.createdAt));
  }

  lemma SettingShape(before: RoundRecord, o: Ordered)
    requires Sets(o)
    ensures ShapeOf(Transition(before, OrderedId(o), o.envelope)) == ShapeStep(ShapeOf(before), o)
  {
  }

  lemma OtherShape(before: RoundRecord, o: Ordered)
    requires o.envelope.payload.BallotBatchNotice? || o.envelope.payload.RecoveryCheckpoint? || o.envelope.payload.DisputeNotice?
    ensures ShapeOf(Transition(before, OrderedId(o), o.envelope)) == ShapeStep(ShapeOf(before), o)
  {
    TypesTell(o.envelope.payload);
  }

  lemma TransitionShape(before: RoundRecord, o: Ordered)
    ensures ShapeOf(Transition(before, OrderedId(o), o.envelope)) == ShapeStep(ShapeOf(before), o)
  {
    var p := o.envelope.payload;
    if p.RoundOpenCommit? {
      CommitShape(before, o);
    } else if p.PartialTally? {
      TallyShape(before, o);
    } else if p.ResultPublishApproval? {
      ApprovalShape(before, o);
    } else if Sets(o) {
      SettingShape(before, o);
    } else {
      OtherShape(before, o);
    }
  }

  // ----- one more event in the closed form -----

  lemma ProposalLast(before: Option<string>, events: seq<Ordered>)
    requires events != []
    ensures StandingProposal(before, events) == ProposalStep(StandingProposal(before, Init(events)), Last(events))
  {
  }

  lemma StandingLast(events: seq<Ordered>)
    requires EndsInOrder(events)
    ensures Standing(events) == if Sets(Last(events)) then Some(Last(events)) else Standing(Init(events))
  {
    if Last(events).envelope.payload.RoundDraft? {
      LatestOfType(Init(events), RoundOpenProposalType);
      NoneLater(events, RoundOpenProposalType);
    }
  }

  lemma RosterLast(before: seq<string>, events: seq<Ordered>)
    requires EndsInOrder(events)
    ensures RosterAfter(before, events) == RosterStep(RosterAfter(before, Init(events)), Last(events))
  {
    StandingLast(events);
  }

  lemma NoCommittersYet(events: seq<Ordered>, proposal: Option<string>)
    requires EndsInOrder(events) && Precedence(Last(events).envelope.payload.EventType()) < 2
    ensures CommittersTo(Init(events), proposal) == {} && CommittersTo(events, proposal) == {}
  {
    NoneLater(events, RoundOpenCommitType);
    if proposal.Some? {
      NoCommits(Init(events), proposal.value);
    }
  }

  lemma CommittersToLast(before: Option<string>, events: seq<Ordered>)
    requires EndsInOrder(events)
    ensures var proposal := StandingProposal(before, Init(events));
            CommittersTo(events, StandingProposal(before, events)) ==
              CommittersStep(proposal, CommittersTo(Init(events), proposal), Last(events))
  {
    ProposalLast(before, events);
    if Precedence(Last(events).envelope.payload.EventType()) < 2 {
      NoCommittersYet(events, StandingProposal(before, Init(events)));
      NoCommittersYet(events, StandingProposal(before, events));
    }
  }

  lemma CommittersAfterLast(s: Shape, events: seq<Ordered>)
    requires EndsInOrder(events)
    ensures CommittersAfter(s, events) ==
              CommittersStep(StandingProposal(s.proposalEventId, Init(events)), CommittersAfter(s, Init(events)), Last(events))
  {
    CommittersToLast(s.proposalEventId, events);
  }

  lemma SendersAfterLast(before: set<string>, events: seq<Ordered>, t: CoordinatorEventType)
    requires events != []
    ensures SendersAfter(before, events, t) == SendersStep(SendersAfter(before, Init(events), t), t, Last(events))
  {
  }

  lemma SetGrows(a: set<string>, x: string)
    ensures |a + {x}| >= |a|
  {
    SubsetSize(a, a + {x});
  }

  /** How the batch stands: what it holds, and how many senders count. */
  datatype Standings = Standings(
    quorum: nat, disputed: bool, approved: bool, approvers: nat, tallied: bool, tallySenders: nat,
    committed: bool, committers: nat, proposed: bool)
  {
    function Set(): Option<Phase> {
      PhaseSet(disputed, approved && approvers >= quorum, tallied && tallySenders >= quorum,
               committed && committers >= quorum, proposed)
    }
  }

  function StandingsOf(s: Shape, events: seq<Ordered>): Standings {
    var present := CommittersTo(events, StandingProposal(s.proposalEventId, events));
    Standings(Expected(RosterAfter(s.roster, events)), HasType(events, DisputeNoticeType),
              HasType(events, ResultPublishApprovalType), |SendersAfter(s.approvers, events, ResultPublishApprovalType)|,
              HasType(events, PartialTallyType), |SendersAfter(s.tallySenders, events, PartialTallyType)|,
              present != {}, |CommittersAfter(s, events)|, HasType(events, RoundOpenProposalType))
  }

  lemma StandingsSet(s: Shape, events: seq<Ordered>)
    ensures StandingsOf(s, events).Set() == BatchPhase(s, events)
  {
  }

  predicate Grows(n: nat, n': nat, may: bool) {
    if may then n' >= n else n' == n
  }

  /** What an event of this type finds unset, nothing of a later type being there. */
  predicate Unset(w: Standings, p: Payload) {
    var rank := Precedence(p.EventType());
    && (rank < 1 ==> !w.proposed) && (rank < 2 ==> !w.committed) && (rank < 4 ==> !w.tallied)
    && (rank < 5 ==> !w.approved) && (rank < 7 ==> !w.disputed)
  }

  /** One event moves them so; `matches` says that it commits to the standing proposal. */
  predicate Moves(w: Standings, w': Standings, p: Payload, matches: bool) {
    && Unset(w, p)
    && (matches ==> p.RoundOpenCommit?)
    && (p.RoundDraft? || p.RoundOpenProposal? || w'.quorum == w.quorum)
    && (w'.disputed <==> w.disputed || p.DisputeNotice?)
    && (w'.approved <==> w.approved || p.ResultPublishApproval?) && Grows(w.approvers, w'.approvers, p.ResultPublishApproval?)
    && (w'.tallied <==> w.tallied || p.PartialTally?) && Grows(w.tallySenders, w'.tallySenders, p.PartialTally?)
    && (w'.committed <==> w.committed || matches) && Grows(w.committers, w'.committers, matches)
    && (w'.proposed <==> w.proposed || p.RoundOpenProposal?)
  }

  lemma PhaseMoves(w: Standings, w': Standings, p: Payload, matches: bool, phase: Phase)
    requires Moves(w, w', p, matches)
    ensures w'.Set().GetOr(phase) ==
              match p
              case RoundOpenProposal(_, _, _, _) => OpenProposed
              case RoundOpenCommit(_) => if matches && w'.committers >= w'.quorum then Open else w.Set().GetOr(phase)
              case PartialTally(_, _, _) => if w'.tallySenders >= w'.quorum then Tallied else w.Set().GetOr(phase)
              case ResultPublishApproval(_) => if w'.approvers >= w'.quorum then Published else w.Set().GetOr(phase)
              case DisputeNotice(_, _) => Disputed
              case _ => w.Set().GetOr(phase)
  {
  }

  /** `o` commits to this proposal. */
  predicate CommitsTo(o: Ordered, proposal: Option<string>) {
    o.envelope.payload.RoundOpenCommit? && proposal == Some(o.envelope.payload.proposalEventId)
  }

  lemma NoneYet(s: Shape, events: seq<Ordered>)
    requires EndsInOrder(events)
    ensures Unset(StandingsOf(s, Init(events)), Last(events).envelope.payload)
  {
    var t := Last(events).envelope.payload.EventType();
    if Precedence(t) < 1 { NoneLater(events, RoundOpenProposalType); }
    if Precedence(t) < 2 { NoCommittersYet(events, StandingProposal(s.proposalEventId, Init(events))); }
    if Precedence(t) < 4 { NoneLater(events, PartialTallyType); }
    if Precedence(t) < 5 { NoneLater(events, ResultPublishApprovalType); }
    if Precedence(t) < 7 { NoneLater(events, DisputeNoticeType); }
  }

  lemma CommittersMove(s: Shape, events: seq<Ordered>)
    requires EndsInOrder(events)
    ensures var w, w' := StandingsOf(s, Init(events)), StandingsOf(s, events);
            var matches := CommitsTo(Last(events), StandingProposal(s.proposalEventId, Init(events)));
            (w'.committed <==> w.committed || matches) && Grows(w.committers, w'.committers, matches)
  {
    CommittersToLast(s.proposalEventId, events);
    CommittersAfterLast(s, events);
    SetGrows(CommittersAfter(s, Init(events)), Last(events).envelope.senderPubkey);
  }

  lemma SendersMove(before: set<string>, events: seq<Ordered>, t: CoordinatorEventType)
    requires events != []
    ensures Grows(|SendersAfter(before, Init(events), t)|, |SendersAfter(before, events, t)|,
                  Last(events).envelope.payload.EventType() == t)
  {
    SendersAfterLast(before, events, t);
    SetGrows(SendersAfter(before, Init(events), t), Last(events).envelope.senderPubkey);
  }

  lemma TalliesMove(s: Shape, events: seq<Ordered>)
    requires events != []
    ensures var w, w', p := StandingsOf(s, Init(events)), StandingsOf(s, events), Last(events).envelope.payload;
            (w'.tallied <==> w.tallied || p.PartialTally?) && Grows(w.tallySenders, w'.tallySenders, p.PartialTally?)
  {
    TypesTell(Last(events).envelope.payload);
    SendersMove(s.tallySenders, events, PartialTallyType);
  }

  lemma ApprovalsMove(s: Shape, events: seq<Ordered>)
    requires events != []
    ensures var w, w', p := StandingsOf(s, Init(events)), StandingsOf(s, events), Last(events).envelope.payload;
            (w'.approved <==> w.approved || p.ResultPublishApproval?) && Grows(w.approvers, w'.approvers, p.ResultPublishApproval?)
  {
    TypesTell(Last(events).envelope.payload);
    SendersMove(s.approvers, events, ResultPublishApprovalType);
  }

  lemma RestMoves(s: Shape, events: seq<Ordered>)
    requires EndsInOrder(events)
    ensures var w, w', p := StandingsOf(s, Init(events)), StandingsOf(s, events), Last(events).envelope.payload;
            && (p.RoundDraft? || p.RoundOpenProposal? || w'.quorum == w.quorum)
            && (w'.disputed <==> w.disputed || p.DisputeNotice?)
            && (w'.proposed <==> w.proposed || p.RoundOpenProposal?)
  {
    RosterLast(s.roster, events);
    TypesTell(Last(events).envelope.payload);
  }

  lemma StandingsMove(s: Shape, events: seq<Ordered>)
    requires EndsInOrder(events)
    ensures Moves(StandingsOf(s, Init(events)), StandingsOf(s, events), Last(events).envelope.payload,
                  CommitsTo(Last(events), StandingProposal(s.proposalEventId, Init(events))))
  {
    NoneYet(s, events);
    RestMoves(s, events);
    CommittersMove(s, events);
    TalliesMove(s, events);
    ApprovalsMove(s, events);
  }

  lemma PhaseLast(s: Shape, events: seq<Ordered>)
    requires EndsInOrder(events)
    ensures BatchPhase(s, events).GetOr(s.phase) ==
              PhaseStep(BatchPhase(s, Init(events)).GetOr(s.phase), RosterAfter(s.roster, events),
                        StandingProposal(s.proposalEventId, events), CommittersAfter(s, events),
                        SendersAfter(s.tallySenders, events, PartialTallyType),
                        SendersAfter(s.approvers, events, ResultPublishApprovalType), Last(events))
  {
    StandingsMove(s, events);
    StandingsSet(s, Init(events));
    StandingsSet(s, events);
    ProposalLast(s.proposalEventId, events);
    PhaseMoves(StandingsOf(s, Init(events)), StandingsOf(s, events), Last(events).envelope.payload,
               CommitsTo(Last(events), StandingProposal(s.proposalEventId, Init(events))), s.phase);
  }

  lemma AfterBatchLast(s: Shape, events: seq<Ordered>)
    requires EndsInOrder(events)
    ensures AfterBatch(s, events) == ShapeStep(AfterBatch(s, Init(events)), Last(events))
  {
    RosterLast(s.roster, events);
    ProposalLast(s.proposalEventId, events);
    CommittersAfterLast(s, events);
    SendersAfterLast(s.tallySenders, events, PartialTallyType);
    SendersAfterLast(s.approvers, events, ResultPublishApprovalType);
    PhaseLast(s, events);
  }

  function ShapeFrom(s: Shape, events: seq<Ordered>): Shape {
    if events == [] then s else ShapeStep(ShapeFrom(s, Init(events)), Last(events))
  }

  lemma {:induction false} RecordShapes(before: RoundRecord, events: seq<Ordered>)
    ensures ShapeOf(RecordFrom(before, events)) == ShapeFrom(ShapeOf(before), events)
  {
    if events != [] {
      RecordShapes(before, Init(events));
      TransitionShape(RecordFrom(before, Init(events)), Last(events));
    }
  }

  lemma AfterNoBatch(s: Shape)
    ensures AfterBatch(s, []) == s
  {
  }

  lemma {:induction false} ShapesClosedForm(s: Shape, events: seq<Ordered>)
    requires Sorted(OrderedKey, events)
    ensures ShapeFrom(s, events) == AfterBatch(s, events)
  {
    if events == [] {
      AfterNoBatch(s);
    } else {
      AfterAll(OrderedKey, events);
      AfterBatchLast(s, events);
      ShapesClosedForm(s, Init(events));
    }
  }

  /** Sorted transitions lead any record to the closed form. */
  lemma RecordClosedForm(before: RoundRecord, events: seq<Ordered>)
    requires Sorted(OrderedKey, events)
    ensures ShapeOf(RecordFrom(before, events)) == AfterBatch(ShapeOf(before), events)
  {
    RecordShapes(before, events);
    ShapesClosedForm(ShapeOf(before), events);
  }

  // ----- a new round -----

  /** Nobody has acted on a new round before the batch. */
  lemma FreshMembers(events: seq<Ordered>)
    ensures SendersAfter({}, events, PartialTallyType) == Senders(events, PartialTallyType)
    ensures SendersAfter({}, events, ResultPublishApprovalType) == Senders(events, ResultPublishApprovalType)
    ensures CommittersAfter(FRESH, events) == CommittersTo(events, ProposalId(events))
  {
  }

  lemma FreshSettings(events: seq<Ordered>)
    ensures RosterAfter([], events) == StandingRoster(events) && StandingProposal(None, events) == ProposalId(events)
  {
  }

  /** For a new round the phase goes by numbers alone. */
  lemma FreshRound(events: seq<Ordered>)
    ensures AfterBatch(FRESH, events) ==
              Shape(StandingRoster(events), ProposalId(events), CommittersTo(events, ProposalId(events)),
                    Senders(events, PartialTallyType), Senders(events, ResultPublishApprovalType), FreshPhase(events))
  {
    FreshMembers(events);
    FreshSettings(events);
    SomeSender(events, PartialTallyType);
    SomeSender(events, ResultPublishApprovalType);
  }

  // ----- the batch as a whole -----

  lemma {:induction false} OfElectionHas(electionId: string, events: seq<Ordered>, o: Ordered)
    ensures o in OfElection(electionId, events) <==> o in events && o.envelope.electionId == electionId
  {
    if events != [] {
      SplitLast(events);
      OfElectionHas(electionId, Init(events), o);
    }
  }

  lemma {:induction false} OfRoundHas(events: seq<Ordered>, r: string, o: Ordered)
    ensures o in OfRound(events, r) <==> o in events && o.envelope.roundId == Some(r)
  {
    if events != [] {
      SplitLast(events);
      OfRoundHas(Init(events), r, o);
    }
  }

  lemma {:induction false} OfElectionSorted(electionId: string, events: seq<Ordered>)
    requires Sorted(OrderedKey, events)
    ensures Sorted(OrderedKey, OfElection(electionId, events))
  {
    if events != [] {
      AfterAll(OrderedKey, events);
      OfElectionSorted(electionId, Init(events));
      var before, o := OfElection(electionId, Init(events)), Last(events);
      forall x | x in before ensures KeyLe(OrderedKey(x), OrderedKey(o)) {
        OfElectionHas(electionId, Init(events), x);
      }
      SortedSnoc(OrderedKey, before, o);
      assert before + [] == before;
    }
  }

  lemma {:induction false} OfRoundSorted(events: seq<Ordered>, r: string)
    requires Sorted(OrderedKey, events)
    ensures Sorted(OrderedKey, OfRound(events, r))
  {
    if events != [] {
      AfterAll(OrderedKey, events);
      OfRoundSorted(Init(events), r);
      var before, o := OfRound(Init(events), r), Last(events);
      forall x | x in before ensures KeyLe(OrderedKey(x), OrderedKey(o)) {
        OfRoundHas(Init(events), r, x);
      }
      SortedSnoc(OrderedKey, before, o);
      assert before + [] == before;
    }
  }

  lemma EffectiveHas(st: Control, events: seq<Ordered>, o: Ordered)
    requires IdsIdentify(OrderedId, events)
    ensures o in Effective(st, Sort(OrderedKey, events)) <==> o in events && Counts(st, o)
  {
    var sorted := Sort(OrderedKey, events);
    SortElements(OrderedKey, events);
    var mine := OfElection(st.electionId, sorted);
    forall x | x in mine ensures x in events {
      OfElectionHas(st.electionId, sorted, x);
    }
    FirstsHas(OrderedId, st.processed, mine, o);
    OfElectionHas(st.electionId, sorted, o);
  }

  lemma EffectiveStrict(st: Control, events: seq<Ordered>)
    ensures var acts := Effective(st, Sort(OrderedKey, events));
            Sorted(OrderedKey, acts) && StrictlySorted(OrderedKey, acts)
  {
    var sorted := Sort(OrderedKey, events);
    SortSorted(OrderedKey, events);
    OfElectionSorted(st.electionId, sorted);
    FirstsSorted(OrderedKey, OrderedId, st.processed, OfElection(st.electionId, sorted));
    FirstsDistinct(OrderedId, st.processed, OfElection(st.electionId, sorted));
    DistinctSortedStrict(OrderedKey, OrderedId, Effective(st, sorted));
  }

  /** Only the effective deliveries matter to the state. */
  lemma {:induction false} OnlyEffectiveMatters(st: Control, events: seq<Ordered>)
    ensures ApplyAll(st, events) == ApplyAll(st, Effective(st, events))
  {
    if events != [] {
      var o, acts := Last(events), Effective(st, Init(events));
      OnlyEffectiveMatters(st, Init(events));
      EffectiveLast(st, events);
      assert Init(acts + [o]) == acts && Last(acts + [o]) == o;
    }
  }

  /** The deliveries that decode, by what was sent. */
  lemma {:induction false} DecodedHas(codec: Codec, local: string, events: seq<Transport>, o: Ordered)
    requires DecodeAll(codec, local, events).Ok?
    ensures o in DecodeAll(codec, local, events).value <==>
              o.transport in events && o.transport.senderPubkey != Some(local) &&
              codec.decode(o.transport.rawContent) == Ok(o.envelope)
  {
    if events != [] {
      SplitLast(events);
      DecodedHas(codec, local, Init(events), o);
    }
  }

  lemma {:induction false} DecodesWhenAllDo(codec: Codec, local: string, events: seq<Transport>)
    ensures DecodeAll(codec, local, events).Ok? <==>
              forall t :: t in events && t.senderPubkey != Some(local) ==> codec.decode(t.rawContent).Ok?
  {
    if events != [] {
      SplitLast(events);
      DecodesWhenAllDo(codec, local, Init(events));
    }
  }

  /** The state after a batch depends only on the set of deliveries in it, when ids identify them. */
  lemma ArrivalOrderIrrelevant(st: Control, codec: Codec, xs: seq<Transport>, ys: seq<Transport>)
    requires forall t :: t in xs <==> t in ys
    requires DecodeAll(codec, st.localPubkey, xs).Ok? ==> IdsIdentify(OrderedId, DecodeAll(codec, st.localPubkey, xs).value)
    ensures DecodeAll(codec, st.localPubkey, xs).Ok? <==> DecodeAll(codec, st.localPubkey, ys).Ok?
    ensures StateAfter(st, codec, xs) == StateAfter(st, codec, ys)
  {
    DecodesWhenAllDo(codec, st.localPubkey, xs);
    DecodesWhenAllDo(codec, st.localPubkey, ys);
    if DecodeAll(codec, st.localPubkey, xs).Ok? {
      var a, b := DecodeAll(codec, st.localPubkey, xs).value, DecodeAll(codec, st.localPubkey, ys).value;
      forall o ensures o in a <==> o in b {
        DecodedHas(codec, st.localPubkey, xs, o);
        DecodedHas(codec, st.localPubkey, ys, o);
      }
      SameBatch(st, a, b);
    }
  }

  lemma SameBatch(st: Control, a: seq<Ordered>, b: seq<Ordered>)
    requires IdsIdentify(OrderedId, a)
    requires forall o :: o in a <==> o in b
    ensures ApplyAll(st, Sort(OrderedKey, a)) == ApplyAll(st, Sort(OrderedKey, b))
  {
    var acts, acts' := Effective(st, Sort(OrderedKey, a)), Effective(st, Sort(OrderedKey, b));
    EffectiveStrict(st, a);
    EffectiveStrict(st, b);
    forall o ensures o in acts <==> o in acts' {
      EffectiveHas(st, a, o);
      EffectiveHas(st, b, o);
    }
    StrictlySortedUnique(OrderedKey, acts, acts');
    OnlyEffectiveMatters(st, Sort(OrderedKey, a));
    OnlyEffectiveMatters(st, Sort(OrderedKey, b));
  }

  /** The events of one round that a batch brings into effect, in order. */
  function Acts(st: Control, decoded: seq<Ordered>, r: string): seq<Ordered> {
    OfRound(Effective(st, Sort(OrderedKey, decoded)), r)
  }

  /**
   One batch, for any round: the deliveries that count for it, in order, take its record to the closed
   form; a round the state has not seen appears iff some delivery counts for it.
   */
  lemma SingleBatch(st: Control, codec: Codec, events: seq<Transport>, r: string)
    requires DecodeAll(codec, st.localPubkey, events).Ok?
    requires IdsIdentify(OrderedId, DecodeAll(codec, st.localPubkey, events).value)
    ensures var decoded := DecodeAll(codec, st.localPubkey, events).value;
            var acts, rounds := Acts(st, decoded, r), StateAfter(st, codec, events).rounds;
            && (forall o :: o in acts <==> o in decoded && Counts(st, o) && o.envelope.roundId == Some(r))
            && StrictlySorted(OrderedKey, acts)
            && (r in rounds <==> r in st.rounds || acts != [])
            && ShapeOf(RecordOf(rounds, r)) == AfterBatch(ShapeOf(RecordOf(st.rounds, r)), acts)
  {
    var decoded := DecodeAll(codec, st.localPubkey, events).value;
    ActsHave(st, decoded, r);
    BatchShape(st, decoded, r);
  }

  lemma ActsHave(st: Control, decoded: seq<Ordered>, r: string)
    requires IdsIdentify(OrderedId, decoded)
    ensures forall o :: o in Acts(st, decoded, r) <==> o in decoded && Counts(st, o) && o.envelope.roundId == Some(r)
  {
    forall o ensures o in Acts(st, decoded, r) <==> o in decoded && Counts(st, o) && o.envelope.roundId == Some(r) {
      EffectiveHas(st, decoded, o);
      OfRoundHas(Effective(st, Sort(OrderedKey, decoded)), r, o);
    }
  }

  lemma BatchShape(st: Control, decoded: seq<Ordered>, r: string)
    ensures var rounds, acts := ApplyAll(st, Sort(OrderedKey, decoded)).rounds, Acts(st, decoded, r);
            && StrictlySorted(OrderedKey, acts) && Sorted(OrderedKey, acts)
            && (r in rounds <==> r in st.rounds || acts != [])
            && ShapeOf(RecordOf(rounds, r)) == AfterBatch(ShapeOf(RecordOf(st.rounds, r)), acts)
  {
    var sorted := Sort(OrderedKey, decoded);
    RoundAfter(st, sorted, r);
    EffectiveStrict(st, decoded);
    OfRoundSorted(Effective(st, sorted), r);
    OfRoundStrict(Effective(st, sorted), r);
    RecordClosedForm(RecordOf(st.rounds, r), Acts(st, decoded, r));
  }

  lemma {:induction false} OfRoundStrict(events: seq<Ordered>, r: string)
    requires StrictlySorted(OrderedKey, events)
    ensures StrictlySorted(OrderedKey, OfRound(events, r))
  {
    if events != [] {
      OfRoundStrict(Init(events), r);
      var before := OfRound(Init(events), r);
      forall i | 0 <= i < |before| ensures KeyLt(OrderedKey(before[i]), OrderedKey(Last(events))) {
        OfRoundHas(Init(events), r, before[i]);
        assert before[i] in before;
        var j :| 0 <= j < |events| - 1 && events[j] == before[i];
      }
    }
  }

  /** The last event of a type is the one with the greatest key. */
  lemma {:induction false} LatestIsGreatest(events: seq<Ordered>, t: CoordinatorEventType, o: Ordered)
    requires Sorted(OrderedKey, events) && o in events && o.envelope.payload.EventType() == t
    ensures LatestOf(events, t).Some? && KeyLe(OrderedKey(o), OrderedKey(LatestOf(events, t).value))
  {
    AfterAll(OrderedKey, events);
    KeyOrderIsTotal(OrderedKey(o), OrderedKey(o), OrderedKey(o));
    if Last(events).envelope.payload.EventType() != t {
      LatestIsGreatest(Init(events), t, o);
    }
  }

  lemma CommittersToIff(events: seq<Ordered>, proposal: Option<string>, x: string)
    ensures x in CommittersTo(events, proposal) <==>
              exists o :: o in events && CommitsTo(o, proposal) && o.envelope.senderPubkey == x
  {
    if proposal.Some? {
      CommittersIff(events, proposal.value, x);
      if o :| o in events && o.envelope.payload == RoundOpenCommit(proposal.value) && o.envelope.senderPubkey == x {
        assert CommitsTo(o, proposal);
      }
      if o :| o in events && CommitsTo(o, proposal) && o.envelope.senderPubkey == x {
        assert o.envelope.payload == RoundOpenCommit(proposal.value);
      }
    }
  }

  lemma ApplyShape(st: Control, o: Ordered, r: string)
    requires Counts(st, o) && o.envelope.roundId == Some(r)
    ensures var after := Apply(st, OrderedId(o), o.envelope);
            && r in after.rounds && ShapeOf(after.rounds[r]) == ShapeStep(ShapeOf(RecordOf(st.rounds, r)), o)
            && after.electionId == st.electionId && after.processed == st.processed + {OrderedId(o)}
  {
    TransitionShape(RecordOf(st.rounds, r), o);
  }

  lemma ProcessedIds(electionId: string, events: seq<Ordered>, id: string)
    ensures id in Ids(OrderedId, OfElection(electionId, Sort(OrderedKey, events))) <==>
              exists o :: o in events && o.envelope.electionId == electionId && OrderedId(o) == id
  {
    var mine := OfElection(electionId, Sort(OrderedKey, events));
    SortElements(OrderedKey, events);
    if id in Ids(OrderedId, mine) {
      var o := IdsFrom(OrderedId, mine, id);
      OfElectionHas(electionId, Sort(OrderedKey, events), o);
    }
    if o :| o in events && o.envelope.electionId == electionId && OrderedId(o) == id {
      OfElectionHas(electionId, Sort(OrderedKey, events), o);
      IdsHas(OrderedId, mine, o);
    }
  }
}
