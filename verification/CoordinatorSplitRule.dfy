/** When two batches do to a round's record what one does with the same deliveries: the exact rule. */
module CoordinatorSplitRule {
  import opened Wrappers
  import opened Order
  import opened Sorting
  import opened CoordinatorMessages
  import opened CoordinatorState
  import opened CoordinatorReplay
  import opened CoordinatorBatch
  import opened CoordinatorDetails

  // ----- one batch or two -----

  lemma UnionOfType(all: seq<Ordered>, a: seq<Ordered>, b: seq<Ordered>, t: CoordinatorEventType)
    requires forall o :: o in all <==> o in a || o in b
    ensures HasType(all, t) <==> HasType(a, t) || HasType(b, t)
    ensures Senders(all, t) == Senders(a, t) + Senders(b, t)
  {
    HasTypeIff(all, t);
    HasTypeIff(a, t);
    HasTypeIff(b, t);
    forall x ensures x in Senders(all, t) <==> x in Senders(a, t) + Senders(b, t) {
      SendersIff(all, t, x);
      SendersIff(a, t, x);
      SendersIff(b, t, x);
    }
  }

  lemma UnionOfCommitters(all: seq<Ordered>, a: seq<Ordered>, b: seq<Ordered>, proposal: Option<string>)
    requires forall o :: o in all <==> o in a || o in b
    ensures CommittersTo(all, proposal) == CommittersTo(a, proposal) + CommittersTo(b, proposal)
  {
    forall x ensures x in CommittersTo(all, proposal) <==> x in CommittersTo(a, proposal) + CommittersTo(b, proposal) {
      CommittersToIff(all, proposal, x);
      CommittersToIff(a, proposal, x);
      CommittersToIff(b, proposal, x);
    }
  }

  lemma SameKeySame(events: seq<Ordered>, x: Ordered, y: Ordered)
    requires StrictlySorted(OrderedKey, events) && x in events && y in events && OrderedKey(x) == OrderedKey(y)
    ensures x == y
  {
    var i :| 0 <= i < |events| && events[i] == x;
    var j :| 0 <= j < |events| && events[j] == y;
    CompareKeysAgree(OrderedKey(x), OrderedKey(y));
  }

  /** With none of a type in the second part, the last of that type is the last of the first part. */
  lemma LatestInFirst(all: seq<Ordered>, a: seq<Ordered>, b: seq<Ordered>, t: CoordinatorEventType)
    requires StrictlySorted(OrderedKey, all) && Sorted(OrderedKey, all) && Sorted(OrderedKey, a)
    requires (forall o :: o in all <==> o in a || o in b) && !HasType(b, t)
    ensures LatestOf(all, t) == LatestOf(a, t)
  {
    LatestOfType(all, t);
    LatestOfType(a, t);
    UnionOfType(all, a, b, t);
    HasTypeIff(b, t);
    if HasType(all, t) {
      var x, y := LatestOf(all, t).value, LatestOf(a, t).value;
      LatestIsGreatest(all, t, y);
      LatestIsGreatest(a, t, x);
      KeyOrderIsTotal(OrderedKey(x), OrderedKey(y), OrderedKey(x));
      SameKeySame(all, x, y);
    }
  }

  /** What counts of two batches that come together, and of each when they come apart: in order, each once. */
  ghost predicate Parts(all: seq<Ordered>, a: seq<Ordered>, b: seq<Ordered>) {
    && StrictlySorted(OrderedKey, all) && StrictlySorted(OrderedKey, a) && StrictlySorted(OrderedKey, b)
    && Sorted(OrderedKey, all) && Sorted(OrderedKey, a) && Sorted(OrderedKey, b)
    && IdsIdentify(OrderedId, all)
    && forall o :: o in all <==> o in a || o in b
  }

  lemma SplitProposal(before: Option<string>, all: seq<Ordered>, a: seq<Ordered>, b: seq<Ordered>)
    requires Parts(all, a, b)
    ensures StandingProposal(before, all) == StandingProposal(StandingProposal(before, a), b) <==>
              (ProposalId(b).Some? ==> ProposalId(all) == ProposalId(b))
  {
    LatestOfType(all, RoundOpenProposalType);
    LatestOfType(b, RoundOpenProposalType);
    UnionOfType(all, a, b, RoundOpenProposalType);
    if ProposalId(b).None? {
      LatestInFirst(all, a, b, RoundOpenProposalType);
    }
  }

  lemma StandingFromFirst(all: seq<Ordered>, a: seq<Ordered>, b: seq<Ordered>)
    requires Parts(all, a, b) && Standing(b).None?
    ensures Standing(all) == Standing(a)
  {
    LatestOfType(b, RoundOpenProposalType);
    LatestOfType(b, RoundDraftType);
    LatestInFirst(all, a, b, RoundOpenProposalType);
    LatestInFirst(all, a, b, RoundDraftType);
  }

  lemma StandingSets(events: seq<Ordered>)
    requires Standing(events).Some?
    ensures Sets(Standing(events).value)
  {
    LatestOfType(events, RoundOpenProposalType);
    LatestOfType(events, RoundDraftType);
    TypesTell(Standing(events).value.envelope.payload);
  }

  lemma StandingSomewhere(all: seq<Ordered>, a: seq<Ordered>, b: seq<Ordered>)
    requires Parts(all, a, b) && Standing(b).Some?
    ensures Standing(all).Some? && Sets(Standing(all).value) && Sets(Standing(b).value)
  {
    LatestOfType(all, RoundOpenProposalType);
    LatestOfType(b, RoundOpenProposalType);
    LatestOfType(all, RoundDraftType);
    LatestOfType(b, RoundDraftType);
    UnionOfType(all, a, b, RoundOpenProposalType);
    UnionOfType(all, a, b, RoundDraftType);
    StandingSets(b);
    StandingSets(all);
  }

  lemma SplitRoster(before: seq<string>, all: seq<Ordered>, a: seq<Ordered>, b: seq<Ordered>)
    requires Parts(all, a, b)
    ensures RosterAfter(before, all) == RosterAfter(RosterAfter(before, a), b) <==>
              (Standing(b).Some? ==> StandingRoster(all) == StandingRoster(b))
  {
    if Standing(b).None? {
      StandingFromFirst(all, a, b);
    } else {
      StandingSomewhere(all, a, b);
    }
  }

  /** The events hold one of the kind that sets this phase: for `Open`, a commit to this proposal. */
  predicate HoldsKind(events: seq<Ordered>, phase: Phase, proposal: Option<string>) {
    match phase
    case Disputed => HasType(events, DisputeNoticeType)
    case Published => HasType(events, ResultPublishApprovalType)
    case Tallied => HasType(events, PartialTallyType)
    case Open => CommittersTo(events, proposal) != {}
    case OpenProposed => HasType(events, RoundOpenProposalType)
    case Draft => false
  }

  /**
   The second batch holds an event of the kind that decides the phase of all; or it sets no phase, and the
   first ends in the phase of all.
   */
  predicate PhaseAgrees(s: Shape, all: seq<Ordered>, a: seq<Ordered>, b: seq<Ordered>) {
    var whole := BatchPhase(s, all);
    || (whole.Some? && HoldsKind(b, whole.value, StandingProposal(s.proposalEventId, all)))
    || (BatchPhase(AfterBatch(s, a), b).None? && whole.GetOr(s.phase) == BatchPhase(s, a).GetOr(s.phase))
  }

  /** The second batch has the last proposal if it has any, and sets the last roster if it sets any. */
  predicate SettingsAgree(all: seq<Ordered>, b: seq<Ordered>) {
    && (ProposalId(b).Some? ==> ProposalId(all) == ProposalId(b))
    && (Standing(b).Some? ==> StandingRoster(all) == StandingRoster(b))
  }

  /**
   No commit to the last proposal is lost by coming early, and none is kept to a proposal superseded later,
   unless its sender is a committer anyway.
   */
  predicate CommitsAgree(s: Shape, all: seq<Ordered>, a: seq<Ordered>, b: seq<Ordered>) {
    var between, last := StandingProposal(s.proposalEventId, a), StandingProposal(s.proposalEventId, all);
    && CommittersTo(a, last) <= s.committers + CommittersTo(a, between) + CommittersTo(b, last)
    && CommittersTo(a, between) <= s.committers + CommittersTo(a, last) + CommittersTo(b, last)
  }

  /** When a round of shape `s` comes out alike from `all` at once and from `a` then `b`. */
  predicate SplitHarmless(s: Shape, all: seq<Ordered>, a: seq<Ordered>, b: seq<Ordered>) {
    SettingsAgree(all, b) && CommitsAgree(s, all, a, b) && PhaseAgrees(s, all, a, b)
  }

  lemma SplitSenders(before: set<string>, all: seq<Ordered>, a: seq<Ordered>, b: seq<Ordered>, t: CoordinatorEventType)
    requires Parts(all, a, b)
    ensures SendersAfter(before, all, t) == SendersAfter(SendersAfter(before, a, t), b, t)
  {
    UnionOfType(all, a, b, t);
  }

  lemma SplitCommitters(s: Shape, all: seq<Ordered>, a: seq<Ordered>, b: seq<Ordered>)
    requires Parts(all, a, b)
    requires ProposalId(b).Some? ==> ProposalId(all) == ProposalId(b)
    ensures var between := StandingProposal(s.proposalEventId, a);
            CommittersAfter(s, all) == CommittersAfter(s, a) + CommittersTo(b, StandingProposal(between, b)) <==>
              CommitsAgree(s, all, a, b)
  {
    var last := StandingProposal(s.proposalEventId, all);
    SplitProposal(s.proposalEventId, all, a, b);
    UnionOfCommitters(all, a, b, last);
    SameUnions(s.committers, CommittersTo(a, last), CommittersTo(a, StandingProposal(s.proposalEventId, a)),
               CommittersTo(b, last));
  }

  lemma SameUnions(s: set<string>, c: set<string>, d: set<string>, e: set<string>)
    ensures s + (c + e) == s + d + e <==> c <= s + d + e && d <= s + c + e
  {
    if s + (c + e) == s + d + e {
      assert c <= s + (c + e) && d <= s + d + e;
      assert s + (c + e) == s + c + e;
    }
  }

  /** Settings and members agree: what remains is the phase. */
  predicate SameButPhase(s: Shape, t: Shape) {
    s.(phase := Draft) == t.(phase := Draft)
  }

  lemma SplitMembers(s: Shape, all: seq<Ordered>, a: seq<Ordered>, b: seq<Ordered>)
    requires Parts(all, a, b)
    ensures SameButPhase(AfterBatch(s, all), AfterBatch(AfterBatch(s, a), b)) <==>
              SettingsAgree(all, b) && CommitsAgree(s, all, a, b)
  {
    SplitProposal(s.proposalEventId, all, a, b);
    SplitRoster(s.roster, all, a, b);
    SplitSenders(s.tallySenders, all, a, b, PartialTallyType);
    SplitSenders(s.approvers, all, a, b, ResultPublishApprovalType);
    if ProposalId(b).Some? ==> ProposalId(all) == ProposalId(b) {
      SplitCommitters(s, all, a, b);
    }
  }

  /** `v` holds some of what `w` holds, and as many senders count. */
  predicate PartOf(v: Standings, w: Standings) {
    && v.quorum == w.quorum && v.approvers == w.approvers && v.tallySenders == w.tallySenders && v.committers == w.committers
    && (v.disputed ==> w.disputed) && (v.approved ==> w.approved) && (v.tallied ==> w.tallied)
    && (v.committed ==> w.committed) && (v.proposed ==> w.proposed)
  }

  predicate Holds(v: Standings, phase: Phase) {
    match phase
    case Disputed => v.disputed
    case Published => v.approved
    case Tallied => v.tallied
    case Open => v.committed
    case OpenProposed => v.proposed
    case Draft => false
  }

  lemma PartDecides(v: Standings, w: Standings)
    requires PartOf(v, w)
    ensures w.Set().None? ==> v.Set().None?
    ensures w.Set().Some? ==> (v.Set() == w.Set() <==> Holds(v, w.Set().value))
  {
  }

  lemma SecondHoldsPart(s: Shape, all: seq<Ordered>, a: seq<Ordered>, b: seq<Ordered>)
    requires Parts(all, a, b) && SameButPhase(AfterBatch(s, all), AfterBatch(AfterBatch(s, a), b))
    ensures PartOf(StandingsOf(AfterBatch(s, a), b), StandingsOf(s, all))
  {
    UnionOfType(all, a, b, DisputeNoticeType);
    UnionOfType(all, a, b, ResultPublishApprovalType);
    UnionOfType(all, a, b, PartialTallyType);
    UnionOfType(all, a, b, RoundOpenProposalType);
    UnionOfCommitters(all, a, b, StandingProposal(s.proposalEventId, all));
  }

  lemma HoldsKindIs(s: Shape, events: seq<Ordered>, phase: Phase)
    ensures Holds(StandingsOf(s, events), phase) <==> HoldsKind(events, phase, StandingProposal(s.proposalEventId, events))
  {
  }

  /** With all else alike, the second batch sets the phase of all exactly when it holds an event that decides it. */
  lemma SecondDecides(s: Shape, all: seq<Ordered>, a: seq<Ordered>, b: seq<Ordered>)
    requires Parts(all, a, b) && SameButPhase(AfterBatch(s, all), AfterBatch(AfterBatch(s, a), b))
    ensures var whole, second := BatchPhase(s, all), BatchPhase(AfterBatch(s, a), b);
            && (whole.None? ==> second.None?)
            && (whole.Some? ==>
                  (second == whole <==> HoldsKind(b, whole.value, StandingProposal(s.proposalEventId, all))))
  {
    SecondHoldsPart(s, all, a, b);
    StandingsSet(s, all);
    StandingsSet(AfterBatch(s, a), b);
    PartDecides(StandingsOf(AfterBatch(s, a), b), StandingsOf(s, all));
    if BatchPhase(s, all).Some? {
      HoldsKindIs(AfterBatch(s, a), b, BatchPhase(s, all).value);
    }
  }

  /** One batch and two leave the round's record alike if and only if the split is harmless. */
  lemma SplitShapes(s: Shape, all: seq<Ordered>, a: seq<Ordered>, b: seq<Ordered>)
    requires Parts(all, a, b)
    ensures AfterBatch(s, all) == AfterBatch(AfterBatch(s, a), b) <==> SplitHarmless(s, all, a, b)
  {
    SplitMembers(s, all, a, b);
    if SameButPhase(AfterBatch(s, all), AfterBatch(AfterBatch(s, a), b)) {
      SecondDecides(s, all, a, b);
    }
  }

  /** The events that count when `xs` and `ys` come together are those that count when they come apart. */
  lemma ActsApart(st: Control, xs: seq<Ordered>, ys: seq<Ordered>, r: string, o: Ordered)
    requires IdsIdentify(OrderedId, xs + ys)
    ensures o in Acts(st, xs + ys, r) <==> o in Acts(st, xs, r) || o in Acts(ApplyAll(st, Sort(OrderedKey, xs)), ys, r)
  {
    var st' := ApplyAll(st, Sort(OrderedKey, xs));
    assert forall x :: x in xs + ys <==> x in xs || x in ys;
    ActsHave(st, xs + ys, r);
    ActsHave(st, xs, r);
    ActsHave(st', ys, r);
    ProcessedAfter(st, Sort(OrderedKey, xs));
    if o in ys && Counts(st, o) && !Counts(st', o) {
      CountedEarlier(st, xs, ys, o);
    }
  }

  /** An event whose id the first batch processed was in that batch. */
  lemma CountedEarlier(st: Control, xs: seq<Ordered>, ys: seq<Ordered>, o: Ordered)
    requires IdsIdentify(OrderedId, xs + ys) && o in ys
    requires OrderedId(o) in Ids(OrderedId, OfElection(st.electionId, Sort(OrderedKey, xs)))
    ensures o in xs
  {
    var mine := OfElection(st.electionId, Sort(OrderedKey, xs));
    var x := IdsFrom(OrderedId, mine, OrderedId(o));
    OfElectionHas(st.electionId, Sort(OrderedKey, xs), x);
    SortElements(OrderedKey, xs);
    assert x in xs + ys && o in xs + ys;
  }

  // ----- the rest of the record -----

  function LastWhere(events: seq<Ordered>, p: Ordered -> bool): Option<Ordered> {
    if events == [] then None else if p(Last(events)) then Some(Last(events)) else LastWhere(Init(events), p)
  }

  lemma {:induction false} LastWhereHas(events: seq<Ordered>, p: Ordered -> bool)
    ensures LastWhere(events, p).Some? ==> LastWhere(events, p).value in events && p(LastWhere(events, p).value)
  {
    if events != [] {
      LastWhereHas(Init(events), p);
    }
  }

  lemma {:induction false} LastWhereGreatest(events: seq<Ordered>, p: Ordered -> bool, o: Ordered)
    requires Sorted(OrderedKey, events) && o in events && p(o)
    ensures LastWhere(events, p).Some? && KeyLe(OrderedKey(o), OrderedKey(LastWhere(events, p).value))
  {
    AfterAll(OrderedKey, events);
    if p(Last(events)) {
      BelowLast(OrderedKey, events, o);
    } else {
      LastWhereGreatest(Init(events), p, o);
    }
  }

  /** The second batch has the last such event if it has any. */
  predicate LaterHasLast(all: seq<Ordered>, b: seq<Ordered>, p: Ordered -> bool) {
    LastWhere(b, p).Some? ==> LastWhere(all, p) == LastWhere(b, p)
  }

  /** With none in the second batch, the last such event is that of the first. */
  lemma LastFromFirst(all: seq<Ordered>, a: seq<Ordered>, b: seq<Ordered>, p: Ordered -> bool)
    requires Parts(all, a, b) && LastWhere(b, p).None?
    ensures LastWhere(all, p) == LastWhere(a, p)
  {
    LastWhereHas(all, p);
    LastWhereHas(a, p);
    var x, y := LastWhere(all, p), LastWhere(a, p);
    if x.Some? {
      if x.value in b {
        LastWhereGreatest(b, p, x.value);
      }
      LastWhereGreatest(a, p, x.value);
    }
    if y.Some? {
      LastWhereGreatest(all, p, y.value);
    }
    if x.Some? && y.Some? {
      KeyOrderIsTotal(OrderedKey(x.value), OrderedKey(y.value), OrderedKey(x.value));
      SameKeySame(all, x.value, y.value);
    }
  }

  lemma LastInWhole(all: seq<Ordered>, a: seq<Ordered>, b: seq<Ordered>, p: Ordered -> bool)
    requires Parts(all, a, b) && LastWhere(b, p).Some?
    ensures LastWhere(all, p).Some? && LastWhere(all, p).value in all && LastWhere(b, p).value in all
    ensures OrderedId(LastWhere(all, p).value) == OrderedId(LastWhere(b, p).value) <==> LastWhere(all, p) == LastWhere(b, p)
  {
    LastWhereHas(b, p);
    LastWhereGreatest(all, p, LastWhere(b, p).value);
    LastWhereHas(all, p);
  }

  function OfType(t: CoordinatorEventType): Ordered -> bool {
    (o: Ordered) => o.envelope.payload.EventType() == t
  }

  lemma {:induction false} LatestIsLast(events: seq<Ordered>, t: CoordinatorEventType)
    ensures LatestOf(events, t) == LastWhere(events, OfType(t))
  {
    if events != [] {
      LatestIsLast(Init(events), t);
    }
  }

  /** No event of the second batch that notifies comes before one of the first. */
  ghost predicate NoticesInOrder(a: seq<Ordered>, b: seq<Ordered>) {
    forall x, y :: x in a && y in b && Notifies(x) && Notifies(y) ==> KeyLt(OrderedKey(x), OrderedKey(y))
  }

  const UNSET := Settings(None, None, None)

  /**
   The second batch's last setting event, checkpoint, dispute and event of any kind, as far as it has them,
   are those of all or write alike; its last draft is that of all; and its notices come after the first's.
   */
  ghost predicate DetailsAgree(all: seq<Ordered>, a: seq<Ordered>, b: seq<Ordered>) {
    && (Standing(b).Some? ==> SettingsBy(UNSET, Standing(all)) == SettingsBy(UNSET, Standing(b)))
    && LaterHasLast(all, b, OfType(RoundDraftType))
    && NoticesInOrder(a, b)
    && (HasType(b, RecoveryCheckpointType) ==>
          CheckpointBy(None, LatestOf(all, RecoveryCheckpointType)) == CheckpointBy(None, LatestOf(b, RecoveryCheckpointType)))
    && (HasType(b, DisputeNoticeType) ==>
          ReasonBy(None, LatestOf(all, DisputeNoticeType)) == ReasonBy(None, LatestOf(b, DisputeNoticeType)))
    && (b != [] ==> all != [] && Last(all).envelope.createdAt == Last(b).envelope.createdAt)
  }

  lemma SplitSettings(before: Settings, all: seq<Ordered>, a: seq<Ordered>, b: seq<Ordered>)
    requires Parts(all, a, b)
    ensures SettingsBy(before, Standing(all)) == SettingsBy(SettingsBy(before, Standing(a)), Standing(b)) <==>
              (Standing(b).Some? ==> SettingsBy(UNSET, Standing(all)) == SettingsBy(UNSET, Standing(b)))
  {
    if Standing(b).None? {
      StandingFromFirst(all, a, b);
    } else {
      StandingSomewhere(all, a, b);
    }
  }

  lemma SplitDraft(before: Option<string>, all: seq<Ordered>, a: seq<Ordered>, b: seq<Ordered>)
    requires Parts(all, a, b)
    ensures DraftBy(before, LatestOf(all, RoundDraftType)) ==
              DraftBy(DraftBy(before, LatestOf(a, RoundDraftType)), LatestOf(b, RoundDraftType)) <==>
            LaterHasLast(all, b, OfType(RoundDraftType))
  {
    var p := OfType(RoundDraftType);
    LatestIsLast(all, RoundDraftType);
    LatestIsLast(a, RoundDraftType);
    LatestIsLast(b, RoundDraftType);
    if LastWhere(b, p).None? {
      LastFromFirst(all, a, b, p);
    } else {
      LastInWhole(all, a, b, p);
    }
  }

  lemma SplitCheckpoint(before: Option<string>, all: seq<Ordered>, a: seq<Ordered>, b: seq<Ordered>)
    requires Parts(all, a, b)
    ensures var t := RecoveryCheckpointType;
            CheckpointBy(before, LatestOf(all, t)) == CheckpointBy(CheckpointBy(before, LatestOf(a, t)), LatestOf(b, t)) <==>
              (HasType(b, t) ==> CheckpointBy(None, LatestOf(all, t)) == CheckpointBy(None, LatestOf(b, t)))
  {
    var t := RecoveryCheckpointType;
    LatestOfType(b, t);
    if HasType(b, t) {
      UnionOfType(all, a, b, t);
      LatestOfType(all, t);
      TypesTell(LatestOf(b, t).value.envelope.payload);
      TypesTell(LatestOf(all, t).value.envelope.payload);
    } else {
      LatestInFirst(all, a, b, t);
    }
  }

  lemma SplitReason(before: Option<string>, all: seq<Ordered>, a: seq<Ordered>, b: seq<Ordered>)
    requires Parts(all, a, b)
    ensures var t := DisputeNoticeType;
            ReasonBy(before, LatestOf(all, t)) == ReasonBy(ReasonBy(before, LatestOf(a, t)), LatestOf(b, t)) <==>
              (HasType(b, t) ==> ReasonBy(None, LatestOf(all, t)) == ReasonBy(None, LatestOf(b, t)))
  {
    var t := DisputeNoticeType;
    LatestOfType(b, t);
    if HasType(b, t) {
      UnionOfType(all, a, b, t);
      LatestOfType(all, t);
      TypesTell(LatestOf(b, t).value.envelope.payload);
      TypesTell(LatestOf(all, t).value.envelope.payload);
    } else {
      LatestInFirst(all, a, b, t);
    }
  }

  lemma SplitLastTransition(before: Option<i64>, all: seq<Ordered>, a: seq<Ordered>, b: seq<Ordered>)
    requires Parts(all, a, b)
    ensures LastTransition(before, all) == LastTransition(LastTransition(before, a), b) <==>
              (b != [] ==> all != [] && Last(all).envelope.createdAt == Last(b).envelope.createdAt)
  {
    NoneOfEither(all, a, b);
    if b == [] {
      StrictlySortedUnique(OrderedKey, all, a);
    }
  }

  // ----- notices -----

  function Notices(events: seq<Ordered>): seq<Ordered> {
    if events == [] then [] else Notices(Init(events)) + if Notifies(Last(events)) then [Last(events)] else []
  }

  lemma {:induction false} NoticesHave(events: seq<Ordered>, o: Ordered)
    ensures o in Notices(events) <==> o in events && Notifies(o)
  {
    if events != [] {
      SplitLast(events);
      NoticesHave(Init(events), o);
    }
  }

  function IdsOf(events: seq<Ordered>): (ids: seq<string>)
    ensures |ids| == |events| && forall i :: 0 <= i < |events| ==> ids[i] == OrderedId(events[i])
  {
    seq(|events|, i requires 0 <= i < |events| => OrderedId(events[i]))
  }

  lemma IdsOfJoined(xs: seq<Ordered>, ys: seq<Ordered>)
    ensures IdsOf(xs + ys) == IdsOf(xs) + IdsOf(ys)
  {
  }

  lemma {:induction false} NoticeIdsAre(events: seq<Ordered>)
    ensures NoticeIds(events) == IdsOf(Notices(events))
  {
    if events != [] {
      NoticeIdsAre(Init(events));
      if Notifies(Last(events)) {
        IdsOfJoined(Notices(Init(events)), [Last(events)]);
        assert IdsOf([Last(events)]) == [OrderedId(Last(events))];
      } else {
        assert Notices(Init(events)) + [] == Notices(Init(events));
      }
    }
  }

  lemma {:induction false} NoticesStrict(events: seq<Ordered>)
    requires StrictlySorted(OrderedKey, events)
    ensures StrictlySorted(OrderedKey, Notices(events))
  {
    if events != [] {
      NoticesStrict(Init(events));
      var before := Notices(Init(events));
      forall i | 0 <= i < |before| ensures KeyLt(OrderedKey(before[i]), OrderedKey(Last(events))) {
        NoticesHave(Init(events), before[i]);
        assert before[i] in before;
        var j :| 0 <= j < |events| - 1 && events[j] == before[i];
      }
    }
  }

  lemma NoticesJoined(all: seq<Ordered>, a: seq<Ordered>, b: seq<Ordered>)
    requires Parts(all, a, b)
    ensures Notices(all) == Notices(a) + Notices(b) <==> NoticesInOrder(a, b)
  {
    var joined := Notices(a) + Notices(b);
    NoticesStrict(all);
    NoticesStrict(a);
    NoticesStrict(b);
    forall o
      ensures o in Notices(all) <==> o in joined
      ensures (o in Notices(a) <==> o in a && Notifies(o)) && (o in Notices(b) <==> o in b && Notifies(o))
    {
      NoticesHave(all, o);
      NoticesHave(a, o);
      NoticesHave(b, o);
    }
    if NoticesInOrder(a, b) {
      JoinedStrict(Notices(a), Notices(b));
      StrictlySortedUnique(OrderedKey, Notices(all), joined);
    } else if Notices(all) == joined {
      var x, y :| x in a && y in b && Notifies(x) && Notifies(y) && !KeyLt(OrderedKey(x), OrderedKey(y));
      JoinedInOrder(Notices(a), Notices(b), x, y);
    }
  }

  lemma JoinedStrict(xs: seq<Ordered>, ys: seq<Ordered>)
    requires StrictlySorted(OrderedKey, xs) && StrictlySorted(OrderedKey, ys)
    requires forall x, y :: x in xs && y in ys ==> KeyLt(OrderedKey(x), OrderedKey(y))
    ensures StrictlySorted(OrderedKey, xs + ys)
  {
    forall i, j | 0 <= i < j < |xs + ys| ensures KeyLt(OrderedKey((xs + ys)[i]), OrderedKey((xs + ys)[j])) {
      if i < |xs| <= j {
        assert xs[i] in xs && ys[j - |xs|] in ys;
      }
    }
  }

  lemma JoinedInOrder(xs: seq<Ordered>, ys: seq<Ordered>, x: Ordered, y: Ordered)
    requires StrictlySorted(OrderedKey, xs + ys) && x in xs && y in ys
    ensures KeyLt(OrderedKey(x), OrderedKey(y))
  {
    var i :| 0 <= i < |xs| && xs[i] == x;
    var j :| 0 <= j < |ys| && ys[j] == y;
    assert (xs + ys)[i] == x && (xs + ys)[|xs| + j] == y;
  }

  lemma SameIdsSame(all: seq<Ordered>, xs: seq<Ordered>, ys: seq<Ordered>)
    requires IdsIdentify(OrderedId, all)
    requires (forall o :: o in xs ==> o in all) && (forall o :: o in ys ==> o in all)
    requires IdsOf(xs) == IdsOf(ys)
    ensures xs == ys
  {
    assert |xs| == |ys|;
    forall i | 0 <= i < |xs| ensures xs[i] == ys[i] {
      assert IdsOf(xs)[i] == IdsOf(ys)[i];
      assert xs[i] in xs && ys[i] in ys;
    }
  }

  lemma NoticesWithin(all: seq<Ordered>, a: seq<Ordered>, b: seq<Ordered>)
    requires Parts(all, a, b)
    ensures forall o :: o in Notices(all) ==> o in all
    ensures forall o :: o in Notices(a) + Notices(b) ==> o in all
  {
    forall o ensures (o in Notices(all) ==> o in all) && (o in Notices(a) + Notices(b) ==> o in all) {
      NoticesHave(all, o);
      NoticesHave(a, o);
      NoticesHave(b, o);
    }
  }

  lemma NoticeIdsJoined(all: seq<Ordered>, a: seq<Ordered>, b: seq<Ordered>)
    requires Parts(all, a, b)
    ensures NoticeIds(all) == NoticeIds(a) + NoticeIds(b) <==> Notices(all) == Notices(a) + Notices(b)
  {
    NoticeIdsAre(all);
    NoticeIdsAre(a);
    NoticeIdsAre(b);
    IdsOfJoined(Notices(a), Notices(b));
    if NoticeIds(all) == NoticeIds(a) + NoticeIds(b) {
      NoticesWithin(all, a, b);
      SameIdsSame(all, Notices(all), Notices(a) + Notices(b));
    }
  }

  lemma SplitNotices(before: seq<string>, all: seq<Ordered>, a: seq<Ordered>, b: seq<Ordered>)
    requires Parts(all, a, b)
    ensures before + NoticeIds(all) == before + NoticeIds(a) + NoticeIds(b) <==> NoticesInOrder(a, b)
  {
    var xs, ys, zs := NoticeIds(all), NoticeIds(a), NoticeIds(b);
    assert xs == ys + zs <==> NoticesInOrder(a, b) by {
      NoticesJoined(all, a, b);
      NoticeIdsJoined(all, a, b);
    }
    DropPrefix(before, xs, ys + zs);
    assert before + (ys + zs) == before + ys + zs;
  }

  lemma DropPrefix(before: seq<string>, xs: seq<string>, ys: seq<string>)
    ensures before + xs == before + ys <==> xs == ys
  {
    if before + xs == before + ys {
      assert xs == (before + xs)[|before|..] && ys == (before + ys)[|before|..];
    }
  }

  lemma SplitDetails(d: Details, all: seq<Ordered>, a: seq<Ordered>, b: seq<Ordered>)
    requires Parts(all, a, b)
    ensures DetailsAfter(d, all) == DetailsAfter(DetailsAfter(d, a), b) <==> DetailsAgree(all, a, b)
  {
    SplitSettings(d.settings, all, a, b);
    SplitDraft(d.draftEventId, all, a, b);
    SplitNotices(d.ballotBatches, all, a, b);
    SplitCheckpoint(d.checkpointHash, all, a, b);
    SplitReason(d.disputeReason, all, a, b);
    SplitLastTransition(d.lastTransitionAt, all, a, b);
  }

  // ----- what is filed under each sender -----

  function TalliesFrom(sender: string): Ordered -> bool {
    (o: Ordered) => o.envelope.payload.PartialTally? && o.envelope.senderPubkey == sender
  }

  function ApprovesFrom(sender: string): Ordered -> bool {
    (o: Ordered) => o.envelope.payload.ResultPublishApproval? && o.envelope.senderPubkey == sender
  }

  function CommitsFrom(proposal: Option<string>, sender: string): Ordered -> bool {
    (o: Ordered) => CommitsTo(o, proposal) && o.envelope.senderPubkey == sender
  }

  lemma {:induction false} TallyIsLast(events: seq<Ordered>, sender: string, before: Option<TallyRecord>)
    ensures var o := LastWhere(events, TalliesFrom(sender));
            TallyBy(events, sender, before) == if o.Some? then TallyEntry(o.value, sender, before) else before
  {
    if events != [] {
      TallyIsLast(Init(events), sender, before);
    }
  }

  lemma {:induction false} ApprovalIsLast(events: seq<Ordered>, sender: string, before: Option<ApprovalRecord>)
    ensures var o := LastWhere(events, ApprovesFrom(sender));
            ApprovalBy(events, sender, before) == if o.Some? then ApprovalEntry(o.value, sender, before) else before
  {
    if events != [] {
      ApprovalIsLast(Init(events), sender, before);
    }
  }

  lemma {:induction false} CommitIsLast(events: seq<Ordered>, proposal: Option<string>, sender: string, before: Option<string>)
    ensures var o := LastWhere(events, CommitsFrom(proposal, sender));
            CommitBy(events, proposal, sender, before) == if o.Some? then Some(OrderedId(o.value)) else before
  {
    if events != [] {
      CommitIsLast(Init(events), proposal, sender, before);
    }
  }

  /**
   The second batch has the sender's last tally, approval and commit to the last proposal, as far as it has
   any; without a commit there, the first files the same for the sender under either proposal.
   */
  predicate EntriesAgree(before: RoundRecord, all: seq<Ordered>, a: seq<Ordered>, b: seq<Ordered>, sender: string) {
    var between, last := StandingProposal(before.proposalEventId, a), StandingProposal(before.proposalEventId, all);
    var filed := EntryOf(before.openCommits, sender);
    && LaterHasLast(all, b, TalliesFrom(sender))
    && LaterHasLast(all, b, ApprovesFrom(sender))
    && LaterHasLast(all, b, CommitsFrom(last, sender))
    && (LastWhere(b, CommitsFrom(last, sender)).None? ==>
          CommitBy(a, last, sender, filed) == CommitBy(a, between, sender, filed))
  }

  lemma SplitTally(all: seq<Ordered>, a: seq<Ordered>, b: seq<Ordered>, sender: string, before: Option<TallyRecord>)
    requires Parts(all, a, b)
    ensures TallyBy(all, sender, before) == TallyBy(b, sender, TallyBy(a, sender, before)) <==>
              LaterHasLast(all, b, TalliesFrom(sender))
  {
    var p := TalliesFrom(sender);
    TallyIsLast(all, sender, before);
    TallyIsLast(a, sender, before);
    TallyIsLast(b, sender, TallyBy(a, sender, before));
    if LastWhere(b, p).None? {
      LastFromFirst(all, a, b, p);
    } else {
      LastInWhole(all, a, b, p);
      LastWhereHas(all, p);
      LastWhereHas(b, p);
    }
  }

  lemma SplitApproval(all: seq<Ordered>, a: seq<Ordered>, b: seq<Ordered>, sender: string, before: Option<ApprovalRecord>)
    requires Parts(all, a, b)
    ensures ApprovalBy(all, sender, before) == ApprovalBy(b, sender, ApprovalBy(a, sender, before)) <==>
              LaterHasLast(all, b, ApprovesFrom(sender))
  {
    var p := ApprovesFrom(sender);
    ApprovalIsLast(all, sender, before);
    ApprovalIsLast(a, sender, before);
    ApprovalIsLast(b, sender, ApprovalBy(a, sender, before));
    if LastWhere(b, p).None? {
      LastFromFirst(all, a, b, p);
    } else {
      LastInWhole(all, a, b, p);
      LastWhereHas(all, p);
      LastWhereHas(b, p);
    }
  }

  lemma SplitCommit(all: seq<Ordered>, a: seq<Ordered>, b: seq<Ordered>, last: Option<string>, between: Option<string>,
                    sender: string, before: Option<string>)
    requires Parts(all, a, b)
    ensures CommitBy(all, last, sender, before) == CommitBy(b, last, sender, CommitBy(a, between, sender, before)) <==>
              && LaterHasLast(all, b, CommitsFrom(last, sender))
              && (LastWhere(b, CommitsFrom(last, sender)).None? ==>
                    CommitBy(a, last, sender, before) == CommitBy(a, between, sender, before))
  {
    var p := CommitsFrom(last, sender);
    CommitIsLast(all, last, sender, before);
    CommitIsLast(a, last, sender, before);
    CommitIsLast(b, last, sender, CommitBy(a, between, sender, before));
    if LastWhere(b, p).None? {
      LastFromFirst(all, a, b, p);
    } else {
      LastInWhole(all, a, b, p);
    }
  }

  // ----- the whole record -----

  /** The three entries filed under a sender's name. */
  predicate SameEntries(x: RoundRecord, y: RoundRecord, sender: string) {
    && EntryOf(x.tallies, sender) == EntryOf(y.tallies, sender)
    && EntryOf(x.approvals, sender) == EntryOf(y.approvals, sender)
    && EntryOf(x.openCommits, sender) == EntryOf(y.openCommits, sender)
  }

  lemma SameMap<V>(m: map<string, V>, n: map<string, V>)
    requires forall k :: EntryOf(m, k) == EntryOf(n, k)
    ensures m == n
  {
    forall k ensures (k in m <==> k in n) && (k in m ==> m[k] == n[k]) {
      assert EntryOf(m, k) == EntryOf(n, k);
    }
  }

  /** Shape, details and entries make up the record. */
  lemma RecordsSameIff(x: RoundRecord, y: RoundRecord)
    requires x.roundId == y.roundId
    ensures x == y <==> ShapeOf(x) == ShapeOf(y) && DetailsOf(x) == DetailsOf(y) && forall sender :: SameEntries(x, y, sender)
  {
    if ShapeOf(x) == ShapeOf(y) && DetailsOf(x) == DetailsOf(y) && forall sender :: SameEntries(x, y, sender) {
      forall k
        ensures EntryOf(x.tallies, k) == EntryOf(y.tallies, k)
        ensures EntryOf(x.approvals, k) == EntryOf(y.approvals, k)
        ensures EntryOf(x.openCommits, k) == EntryOf(y.openCommits, k)
      {
        assert SameEntries(x, y, k);
      }
      SameMap(x.tallies, y.tallies);
      SameMap(x.approvals, y.approvals);
      SameMap(x.openCommits, y.openCommits);
    }
  }

  lemma {:induction false} RecordKeepsId(before: RoundRecord, events: seq<Ordered>)
    ensures RecordFrom(before, events).roundId == before.roundId
  {
    if events != [] {
      RecordKeepsId(before, Init(events));
      TransitionKeepsId(RecordFrom(before, Init(events)), OrderedId(Last(events)), Last(events).envelope);
    }
  }

  lemma SplitEntries(before: RoundRecord, all: seq<Ordered>, a: seq<Ordered>, b: seq<Ordered>, sender: string)
    requires Parts(all, a, b)
    requires ProposalId(b).Some? ==> ProposalId(all) == ProposalId(b)
    ensures SameEntries(RecordFrom(before, all), RecordFrom(RecordFrom(before, a), b), sender) <==>
              EntriesAgree(before, all, a, b, sender)
  {
    var middle := RecordFrom(before, a);
    RecordEntries(before, all, sender);
    RecordEntries(before, a, sender);
    RecordEntries(middle, b, sender);
    RecordProposal(before, a);
    SplitProposal(before.proposalEventId, all, a, b);
    SplitTally(all, a, b, sender, EntryOf(before.tallies, sender));
    SplitApproval(all, a, b, sender, EntryOf(before.approvals, sender));
    SplitCommit(all, a, b, StandingProposal(before.proposalEventId, all), StandingProposal(before.proposalEventId, a),
                sender, EntryOf(before.openCommits, sender));
  }

  /** When one batch and two leave the whole record of a round alike. */
  ghost predicate RecordAgrees(before: RoundRecord, all: seq<Ordered>, a: seq<Ordered>, b: seq<Ordered>) {
    && SplitHarmless(ShapeOf(before), all, a, b)
    && DetailsAgree(all, a, b)
    && forall sender :: EntriesAgree(before, all, a, b, sender)
  }

  lemma SplitRecords(before: RoundRecord, all: seq<Ordered>, a: seq<Ordered>, b: seq<Ordered>)
    requires Parts(all, a, b)
    ensures RecordFrom(before, all) == RecordFrom(RecordFrom(before, a), b) <==> RecordAgrees(before, all, a, b)
  {
    var x, middle := RecordFrom(before, all), RecordFrom(before, a);
    var y := RecordFrom(middle, b);
    RecordKeepsId(before, all);
    RecordKeepsId(before, a);
    RecordKeepsId(middle, b);
    RecordClosedForm(before, all);
    RecordClosedForm(before, a);
    RecordClosedForm(middle, b);
    SplitShapes(ShapeOf(before), all, a, b);
    RecordDetails(before, all);
    RecordDetails(before, a);
    RecordDetails(middle, b);
    SplitDetails(DetailsOf(before), all, a, b);
    RecordsSameIff(x, y);
    if SplitHarmless(ShapeOf(before), all, a, b) {
      forall sender ensures SameEntries(x, y, sender) <==> EntriesAgree(before, all, a, b, sender) {
        SplitEntries(before, all, a, b, sender);
      }
    }
  }

  lemma PartsOfBatches(st: Control, xs: seq<Ordered>, ys: seq<Ordered>, r: string)
    requires IdsIdentify(OrderedId, xs + ys)
    ensures Parts(Acts(st, xs + ys, r), Acts(st, xs, r), Acts(ApplyAll(st, Sort(OrderedKey, xs)), ys, r))
  {
    var st' := ApplyAll(st, Sort(OrderedKey, xs));
    BatchShape(st, xs + ys, r);
    BatchShape(st, xs, r);
    BatchShape(st', ys, r);
    ActsHave(st, xs + ys, r);
    forall o ensures o in Acts(st, xs + ys, r) <==> o in Acts(st, xs, r) || o in Acts(st', ys, r) {
      ActsApart(st, xs, ys, r, o);
    }
  }

  /**
   The exact rule for splitting a batch in two: both ways a round is known alike, and its record comes out
   the same if and only if shape, details and entries agree, judged on the events that count for it.
   */
  lemma SplitAgreesIff(st: Control, xs: seq<Ordered>, ys: seq<Ordered>, r: string)
    requires IdsIdentify(OrderedId, xs + ys)
    ensures var st' := ApplyAll(st, Sort(OrderedKey, xs));
            var together, apart := ApplyAll(st, Sort(OrderedKey, xs + ys)).rounds, ApplyAll(st', Sort(OrderedKey, ys)).rounds;
            && (r in together <==> r in apart)
            && (RecordOf(together, r) == RecordOf(apart, r) <==>
                  RecordAgrees(RecordOf(st.rounds, r), Acts(st, xs + ys, r), Acts(st, xs, r), Acts(st', ys, r)))
  {
    var st' := ApplyAll(st, Sort(OrderedKey, xs));
    PartsOfBatches(st, xs, ys, r);
    NoneOfEither(Acts(st, xs + ys, r), Acts(st, xs, r), Acts(st', ys, r));
    RoundAfter(st, Sort(OrderedKey, xs + ys), r);
    RoundAfter(st, Sort(OrderedKey, xs), r);
    RoundAfter(st', Sort(OrderedKey, ys), r);
    SplitRecords(RecordOf(st.rounds, r), Acts(st, xs + ys, r), Acts(st, xs, r), Acts(st', ys, r));
  }

  lemma NoneOfEither(all: seq<Ordered>, a: seq<Ordered>, b: seq<Ordered>)
    requires forall o :: o in all <==> o in a || o in b
    ensures all == [] <==> a == [] && b == []
  {
    assert forall o :: o in a + b <==> o in a || o in b;
    EmptyTogether(all, a + b);
  }

  // ----- the whole state -----

  function TopEpoch(events: seq<Ordered>): u64 {
    if events == [] then 0 else MaxEpoch(TopEpoch(Init(events)), Last(events).envelope.Epoch())
  }

  lemma {:induction false} TopEpochIs(events: seq<Ordered>, n: u64)
    ensures TopEpoch(events) <= n <==> forall o :: o in events ==> o.envelope.Epoch() <= n
  {
    if events != [] {
      SplitLast(events);
      TopEpochIs(Init(events), n);
    }
  }

  lemma TopEpochOfParts(all: seq<Ordered>, a: seq<Ordered>, b: seq<Ordered>)
    requires forall o :: o in all <==> o in a || o in b
    ensures TopEpoch(all) == MaxEpoch(TopEpoch(a), TopEpoch(b))
  {
    TopEpochIs(all, TopEpoch(all));
    TopEpochIs(a, TopEpoch(a));
    TopEpochIs(b, TopEpoch(b));
    TopEpochIs(a, TopEpoch(all));
    TopEpochIs(b, TopEpoch(all));
    TopEpochIs(all, MaxEpoch(TopEpoch(a), TopEpoch(b)));
  }

  lemma EpochStep(st: Control, o: Ordered)
    ensures var after := Apply(st, OrderedId(o), o.envelope);
            && after.logicalEpoch == (if Counts(st, o) then MaxEpoch(st.logicalEpoch, o.envelope.Epoch()) else st.logicalEpoch)
            && after.schemaVersion == st.schemaVersion
  {
  }

  lemma TopEpochSnoc(acts: seq<Ordered>, o: Ordered)
    ensures TopEpoch(acts + [o]) == MaxEpoch(TopEpoch(acts), o.envelope.Epoch())
  {
    assert Init(acts + [o]) == acts && Last(acts + [o]) == o;
  }

  /** The clock after a batch: the greatest epoch that counted, if it passes the clock before. */
  lemma {:induction false} EpochAfter(st: Control, events: seq<Ordered>)
    ensures ApplyAll(st, events).logicalEpoch == MaxEpoch(st.logicalEpoch, TopEpoch(Effective(st, events)))
    ensures ApplyAll(st, events).schemaVersion == st.schemaVersion
  {
    if events != [] {
      EpochAfter(st, Init(events));
      EffectiveLast(st, events);
      EpochStep(ApplyAll(st, Init(events)), Last(events));
      TopEpochSnoc(Effective(st, Init(events)), Last(events));
    }
  }

  /** The roster the state shows for these events: that of the last to leave its round with one. */
  function ShownRoster(st: Control, acts: seq<Ordered>): Option<seq<string>> {
    if acts == [] then None
    else
      var shown := RosterLeft(st, acts, Last(acts).envelope.roundId);
      if shown != [] then Some(shown) else ShownRoster(st, Init(acts))
  }

  /** The roster the events leave this round with. */
  function RosterLeft(st: Control, acts: seq<Ordered>, roundId: Option<string>): seq<string> {
    match roundId
    case None => []
    case Some(r) => RosterAfter(RecordOf(st.rounds, r).roster, OfRound(acts, r))
  }

  lemma {:induction false} RosterShown(st: Control, events: seq<Ordered>)
    requires Sorted(OrderedKey, events)
    ensures ApplyAll(st, events).roster == ShownRoster(st, Effective(st, events)).GetOr(st.roster)
  {
    if events != [] {
      var init, o := Init(events), Last(events);
      AfterAll(OrderedKey, events);
      RosterShown(st, init);
      EffectiveLast(st, events);
      if Counts(ApplyAll(st, init), o) {
        ShownRosterSnoc(st, Effective(st, init), o);
        if o.envelope.roundId.Some? {
          RosterOfRound(st, events, o.envelope.roundId.value);
        }
        RosterStep(ApplyAll(st, init), o);
      }
    }
  }

  lemma ShownRosterSnoc(st: Control, acts: seq<Ordered>, o: Ordered)
    ensures var shown := RosterLeft(st, acts + [o], o.envelope.roundId);
            ShownRoster(st, acts + [o]) == if shown != [] then Some(shown) else ShownRoster(st, acts)
  {
    assert Init(acts + [o]) == acts && Last(acts + [o]) == o;
  }

  /** The roster shown after an event: that of its round, where there is one. */
  lemma RosterStep(st: Control, o: Ordered)
    requires Counts(st, o)
    ensures var after, r := Apply(st, OrderedId(o), o.envelope), o.envelope.roundId;
            after.roster ==
              if r.Some? && RecordOf(after.rounds, r.value).roster != [] then RecordOf(after.rounds, r.value).roster else st.roster
  {
  }

  lemma RosterOfRound(st: Control, events: seq<Ordered>, r: string)
    requires Sorted(OrderedKey, events)
    ensures RecordOf(ApplyAll(st, events).rounds, r).roster == RosterLeft(st, Effective(st, events), Some(r))
  {
    RoundAfter(st, events, r);
    OfElectionSorted(st.electionId, events);
    FirstsSorted(OrderedKey, OrderedId, st.processed, OfElection(st.electionId, events));
    OfRoundSorted(Effective(st, events), r);
    RecordClosedForm(RecordOf(st.rounds, r), OfRound(Effective(st, events), r));
  }

  lemma EffectiveApart(st: Control, xs: seq<Ordered>, ys: seq<Ordered>, o: Ordered)
    requires IdsIdentify(OrderedId, xs + ys)
    ensures var st' := ApplyAll(st, Sort(OrderedKey, xs));
            o in Effective(st, Sort(OrderedKey, xs + ys)) <==>
              o in Effective(st, Sort(OrderedKey, xs)) || o in Effective(st', Sort(OrderedKey, ys))
  {
    var st' := ApplyAll(st, Sort(OrderedKey, xs));
    assert forall x :: x in xs + ys <==> x in xs || x in ys;
    EffectiveHas(st, xs + ys, o);
    EffectiveHas(st, xs, o);
    EffectiveHas(st', ys, o);
    ProcessedAfter(st, Sort(OrderedKey, xs));
    if o in ys && Counts(st, o) && !Counts(st', o) {
      CountedEarlier(st, xs, ys, o);
    }
  }

  lemma ProcessedAlike(st: Control, xs: seq<Ordered>, ys: seq<Ordered>)
    ensures ApplyAll(st, Sort(OrderedKey, xs + ys)).processed ==
              ApplyAll(ApplyAll(st, Sort(OrderedKey, xs)), Sort(OrderedKey, ys)).processed
  {
    ProcessedAfter(st, Sort(OrderedKey, xs + ys));
    ProcessedAfter(st, Sort(OrderedKey, xs));
    ProcessedAfter(ApplyAll(st, Sort(OrderedKey, xs)), Sort(OrderedKey, ys));
    assert forall o :: o in xs + ys <==> o in xs || o in ys;
    forall id
      ensures id in Ids(OrderedId, OfElection(st.electionId, Sort(OrderedKey, xs + ys))) <==>
                id in Ids(OrderedId, OfElection(st.electionId, Sort(OrderedKey, xs))) ||
                id in Ids(OrderedId, OfElection(st.electionId, Sort(OrderedKey, ys)))
    {
      ProcessedIds(st.electionId, xs + ys, id);
      ProcessedIds(st.electionId, xs, id);
      ProcessedIds(st.electionId, ys, id);
    }
  }

  /** The two ways agree about one round. */
  ghost predicate RoundAgrees(st: Control, xs: seq<Ordered>, ys: seq<Ordered>, r: string) {
    RecordAgrees(RecordOf(st.rounds, r), Acts(st, xs + ys, r), Acts(st, xs, r), Acts(ApplyAll(st, Sort(OrderedKey, xs)), ys, r))
  }

  /** They agree about the roster shown. */
  predicate RosterAgrees(st: Control, xs: seq<Ordered>, ys: seq<Ordered>) {
    var st' := ApplyAll(st, Sort(OrderedKey, xs));
    var first := ShownRoster(st, Effective(st, Sort(OrderedKey, xs))).GetOr(st.roster);
    ShownRoster(st, Effective(st, Sort(OrderedKey, xs + ys))).GetOr(st.roster) ==
      ShownRoster(st', Effective(st', Sort(OrderedKey, ys))).GetOr(first)
  }

  /** What one batch and two leave alike whatever is in them. */
  lemma SplitFixed(st: Control, xs: seq<Ordered>, ys: seq<Ordered>)
    requires IdsIdentify(OrderedId, xs + ys)
    ensures var together := ApplyAll(st, Sort(OrderedKey, xs + ys));
            var apart := ApplyAll(ApplyAll(st, Sort(OrderedKey, xs)), Sort(OrderedKey, ys));
            apart == together.(rounds := apart.rounds, roster := apart.roster)
  {
    var st' := ApplyAll(st, Sort(OrderedKey, xs));
    ProcessedAlike(st, xs, ys);
    ProcessedAfter(st, Sort(OrderedKey, xs + ys));
    ProcessedAfter(st, Sort(OrderedKey, xs));
    ProcessedAfter(st', Sort(OrderedKey, ys));
    EpochAfter(st, Sort(OrderedKey, xs + ys));
    EpochAfter(st, Sort(OrderedKey, xs));
    EpochAfter(st', Sort(OrderedKey, ys));
    forall o
      ensures o in Effective(st, Sort(OrderedKey, xs + ys)) <==>
                o in Effective(st, Sort(OrderedKey, xs)) || o in Effective(st', Sort(OrderedKey, ys))
    {
      EffectiveApart(st, xs, ys, o);
    }
    TopEpochOfParts(Effective(st, Sort(OrderedKey, xs + ys)), Effective(st, Sort(OrderedKey, xs)),
                    Effective(st', Sort(OrderedKey, ys)));
  }

  lemma SameRounds(m: map<string, RoundRecord>, n: map<string, RoundRecord>)
    requires forall r :: r in m <==> r in n
    ensures m == n <==> forall r :: RecordOf(m, r) == RecordOf(n, r)
  {
    if forall r :: RecordOf(m, r) == RecordOf(n, r) {
      forall r | r in m ensures r in n && m[r] == n[r] {
        assert RecordOf(m, r) == RecordOf(n, r);
      }
    }
  }

  lemma SplitRounds(st: Control, xs: seq<Ordered>, ys: seq<Ordered>)
    requires IdsIdentify(OrderedId, xs + ys)
    ensures ApplyAll(st, Sort(OrderedKey, xs + ys)).rounds ==
              ApplyAll(ApplyAll(st, Sort(OrderedKey, xs)), Sort(OrderedKey, ys)).rounds <==>
            forall r :: RoundAgrees(st, xs, ys, r)
  {
    var together := ApplyAll(st, Sort(OrderedKey, xs + ys)).rounds;
    var apart := ApplyAll(ApplyAll(st, Sort(OrderedKey, xs)), Sort(OrderedKey, ys)).rounds;
    forall r
      ensures r in together <==> r in apart
      ensures RecordOf(together, r) == RecordOf(apart, r) <==> RoundAgrees(st, xs, ys, r)
    {
      SplitAgreesIff(st, xs, ys, r);
    }
    SameRounds(together, apart);
  }

  lemma SplitRosters(st: Control, xs: seq<Ordered>, ys: seq<Ordered>)
    ensures ApplyAll(st, Sort(OrderedKey, xs + ys)).roster ==
              ApplyAll(ApplyAll(st, Sort(OrderedKey, xs)), Sort(OrderedKey, ys)).roster <==>
              RosterAgrees(st, xs, ys)
  {
    SortSorted(OrderedKey, xs + ys);
    SortSorted(OrderedKey, xs);
    SortSorted(OrderedKey, ys);
    RosterShown(st, Sort(OrderedKey, xs + ys));
    RosterShown(st, Sort(OrderedKey, xs));
    RosterShown(ApplyAll(st, Sort(OrderedKey, xs)), Sort(OrderedKey, ys));
  }

  /**
   Two batches leave exactly the state one does if and only if they agree about every round and about the
   roster shown; the clock and the processed ids are always alike.
   */
  lemma SplitStatesIff(st: Control, xs: seq<Ordered>, ys: seq<Ordered>)
    requires IdsIdentify(OrderedId, xs + ys)
    ensures ApplyAll(st, Sort(OrderedKey, xs + ys)) == ApplyAll(ApplyAll(st, Sort(OrderedKey, xs)), Sort(OrderedKey, ys)) <==>
              (forall r :: RoundAgrees(st, xs, ys, r)) && RosterAgrees(st, xs, ys)
  {
    SplitFixed(st, xs, ys);
    SplitRounds(st, xs, ys);
    SplitRosters(st, xs, ys);
  }

  lemma {:induction false} DecodeAppend(codec: Codec, local: string, xs: seq<Transport>, ys: seq<Transport>)
    requires DecodeAll(codec, local, xs).Ok? && DecodeAll(codec, local, ys).Ok?
    ensures DecodeAll(codec, local, xs + ys) ==
              Ok(DecodeAll(codec, local, xs).value + DecodeAll(codec, local, ys).value)
  {
    if ys == [] {
      assert xs + ys == xs;
      assert DecodeAll(codec, local, xs).value + [] == DecodeAll(codec, local, xs).value;
    } else {
      var t := Last(ys);
      assert Init(xs + ys) == xs + Init(ys) && Last(xs + ys) == t;
      DecodeAppend(codec, local, xs, Init(ys));
      if t.senderPubkey != Some(local) {
        var a, b := DecodeAll(codec, local, xs).value, DecodeAll(codec, local, Init(ys)).value;
        var o := Ordered(t, codec.decode(t.rawContent).value);
        assert a + b + [o] == a + (b + [o]);
      }
    }
  }

  /** The same of what is delivered: batches that decode. */
  lemma SplitDeliveriesIff(st: Control, codec: Codec, xs: seq<Transport>, ys: seq<Transport>)
    requires DecodeAll(codec, st.localPubkey, xs).Ok? && DecodeAll(codec, st.localPubkey, ys).Ok?
    requires IdsIdentify(OrderedId, DecodeAll(codec, st.localPubkey, xs).value + DecodeAll(codec, st.localPubkey, ys).value)
    ensures var a, b := DecodeAll(codec, st.localPubkey, xs).value, DecodeAll(codec, st.localPubkey, ys).value;
            StateAfter(st, codec, xs + ys) == StateAfter(StateAfter(st, codec, xs), codec, ys) <==>
              (forall r :: RoundAgrees(st, a, b, r)) && RosterAgrees(st, a, b)
  {
    DecodeAppend(codec, st.localPubkey, xs, ys);
    var a := DecodeAll(codec, st.localPubkey, xs).value;
    ProcessedAfter(st, Sort(OrderedKey, a));
    SplitStatesIff(st, a, DecodeAll(codec, st.localPubkey, ys).value);
  }
}
