/**
 What repeated deliveries do to the state returned: exactly the events that leave a trace each time they
 are delivered matter, and the state does not change if and only if none of those is delivered anew.
 */
module Repetition {
  import opened Wrappers
  import opened Sorting
  import opened Events
  import opened Validation
  import opened Reducer
  import opened DerivedForms
  import C = Convergence
  import R = Redelivery
  import PF = PublicClosedForm
  import PS = PublicState
  import BS = BallotState
  import BF = BallotClosedForm

  /** Where in the derived state a delivery leaves a trace. */
  datatype Trace =
    | Counted
    | Judged
    | ListedReceipt(roundId: string)
    | ListedDispute(roundId: string)
    | ListedIssue(known: set<string>)
    | Anywhere(known: set<string>)

  predicate Leaves(e: ProtocolEvent, trace: Trace) {
    match trace
    case Counted => e.Coordinator?
    case Judged => e.Ballot? && e.ballotEvent.EncryptedBallot?
    case ListedReceipt(r) => e.Public? && PF.About(e.publicEvent, PF.Receipts, r)
    case ListedDispute(r) => e.Public? && PF.About(e.publicEvent, PF.Disputes, r)
    case ListedIssue(known) => e.Public? && PF.IsStray(e.publicEvent, known)
    case Anywhere(known) => Marks(e, known)
  }

  /**
   Every delivery of a coordinator event is counted, every one of a ballot judged, every one of a receipt or
   dispute listed, with its round or as an issue; a close or result only when its round is unknown.
   */
  predicate Marks(e: ProtocolEvent, known: set<string>) {
    match e
    case Coordinator(_, _) => true
    case Ballot(b) => b.EncryptedBallot?
    case Public(p) => p.BallotReceipt? || p.DisputeRecord? || PF.IsStray(p, known)
  }

  /** The events that leave such a trace, in order. */
  function Leaving(events: seq<ProtocolEvent>, trace: Trace): seq<ProtocolEvent> {
    if events == [] then [] else
      Leaving(Init(events), trace) + if Leaves(Last(events), trace) then [Last(events)] else []
  }

  lemma {:induction false} LeavingCount(events: seq<ProtocolEvent>, trace: Trace, e: ProtocolEvent)
    ensures multiset(Leaving(events, trace))[e] == if Leaves(e, trace) then multiset(events)[e] else 0
  {
    if events != [] {
      SplitLast(events);
      LeavingCount(Init(events), trace, e);
    }
  }

  lemma {:induction false} LeavingSorted(events: seq<ProtocolEvent>, trace: Trace)
    requires Sorted(EventKey, events)
    ensures Sorted(EventKey, Leaving(events, trace))
    ensures forall e :: e in Leaving(events, trace) ==> e in events
  {
    if events != [] {
      AfterAll(EventKey, events);
      LeavingSorted(Init(events), trace);
      SortedSnoc(EventKey, Leaving(Init(events), trace), Last(events));
    }
  }

  // ----- the derived state looks only at the events that leave a trace -----

  /** What an event adds to the lists. */
  function ReceiptOf(e: ProtocolEvent, r: string): seq<PS.DerivedReceipt> {
    if Leaves(e, ListedReceipt(r)) then [PS.ReceiptOf(e.publicEvent.receipt)] else []
  }

  function ReasonOf(e: ProtocolEvent, r: string): seq<string> {
    if Leaves(e, ListedDispute(r)) then [e.publicEvent.dispute.reason] else []
  }

  function IssueOf(e: ProtocolEvent, known: set<string>): seq<ValidationIssue> {
    if Leaves(e, ListedIssue(known)) then [PS.Stray(e.publicEvent)] else []
  }

  lemma {:induction false} ListsSnoc(events: seq<ProtocolEvent>, e: ProtocolEvent, known: set<string>, r: string)
    ensures var p, q := PublicsOf(events), PublicsOf(events + [e]);
            && PF.ReceiptsIn(q, r) == PF.ReceiptsIn(p, r) + ReceiptOf(e, r)
            && PF.DisputesIn(q, r) == PF.DisputesIn(p, r) + ReasonOf(e, r)
            && PF.Strays(q, known) == PF.Strays(p, known) + IssueOf(e, known)
  {
    var publics := PublicsOf(events);
    ProjectSnoc(events, e);
    if e.Public? {
      assert Init(publics + [e.publicEvent]) == publics && Last(publics + [e.publicEvent]) == e.publicEvent;
    } else {
      assert publics + [] == publics;
    }
  }

  lemma NoTrace(e: ProtocolEvent, known: set<string>, r: string)
    requires !Marks(e, known)
    ensures !Leaves(e, ListedReceipt(r)) && !Leaves(e, ListedDispute(r)) && !Leaves(e, ListedIssue(known))
  {
  }

  lemma LeavingLast(events: seq<ProtocolEvent>, trace: Trace)
    requires events != []
    ensures Leaves(Last(events), trace) ==> Leaving(events, trace) == Leaving(Init(events), trace) + [Last(events)]
    ensures !Leaves(Last(events), trace) ==> Leaving(events, trace) == Leaving(Init(events), trace)
  {
  }

  ghost predicate ListsAlike(xs: seq<ProtocolEvent>, ys: seq<ProtocolEvent>, known: set<string>, r: string) {
    && PF.ReceiptsIn(PublicsOf(xs), r) == PF.ReceiptsIn(PublicsOf(ys), r)
    && PF.DisputesIn(PublicsOf(xs), r) == PF.DisputesIn(PublicsOf(ys), r)
    && PF.Strays(PublicsOf(xs), known) == PF.Strays(PublicsOf(ys), known)
  }

  lemma ListsStep(left: seq<ProtocolEvent>, init: seq<ProtocolEvent>, e: ProtocolEvent, known: set<string>, r: string)
    requires ListsAlike(left, init, known, r)
    ensures ListsAlike(left + [e], init + [e], known, r)
    ensures !Marks(e, known) ==> ListsAlike(left, init + [e], known, r)
  {
    ListsSnoc(left, e, known, r);
    ListsSnoc(init, e, known, r);
    if !Marks(e, known) {
      NoTrace(e, known, r);
    }
  }

  lemma {:induction false} ListsOfLeaving(events: seq<ProtocolEvent>, known: set<string>, r: string)
    ensures ListsAlike(Leaving(events, Anywhere(known)), events, known, r)
  {
    if events != [] {
      ListsOfLeaving(Init(events), known, r);
      LeavingLast(events, Anywhere(known));
      SplitLast(events);
      ListsStep(Leaving(Init(events), Anywhere(known)), Init(events), Last(events), known, r);
    }
  }

  ghost predicate VerdictsAlike(xs: seq<ProtocolEvent>, ys: seq<ProtocolEvent>, rounds: seq<PS.Round>) {
    && BS.Fold(BallotsOf(xs), rounds) == BS.Fold(BallotsOf(ys), rounds)
    && CoordinatorCount(xs) == CoordinatorCount(ys)
  }

  lemma VerdictsSnoc(events: seq<ProtocolEvent>, e: ProtocolEvent, rounds: seq<PS.Round>)
    ensures BS.Fold(BallotsOf(events + [e]), rounds) ==
              if e.Ballot? then BS.Step(BS.Fold(BallotsOf(events), rounds), e.ballotEvent, rounds)
              else BS.Fold(BallotsOf(events), rounds)
    ensures CoordinatorCount(events + [e]) == CoordinatorCount(events) + if e.Coordinator? then 1 else 0
  {
    ProjectSnoc(events, e);
    var ballots := BallotsOf(events);
    if e.Ballot? {
      assert Init(ballots + [e.ballotEvent]) == ballots && Last(ballots + [e.ballotEvent]) == e.ballotEvent;
    } else {
      assert ballots + [] == ballots;
    }
  }

  lemma VerdictsStep(
    left: seq<ProtocolEvent>, init: seq<ProtocolEvent>, e: ProtocolEvent, known: set<string>, rounds: seq<PS.Round>)
    requires VerdictsAlike(left, init, rounds)
    ensures VerdictsAlike(left + [e], init + [e], rounds)
    ensures !Marks(e, known) ==> VerdictsAlike(left, init + [e], rounds)
  {
    VerdictsSnoc(left, e, rounds);
    VerdictsSnoc(init, e, rounds);
  }

  lemma {:induction false} VerdictsOfLeaving(events: seq<ProtocolEvent>, known: set<string>, rounds: seq<PS.Round>)
    ensures VerdictsAlike(Leaving(events, Anywhere(known)), events, rounds)
  {
    if events != [] {
      VerdictsOfLeaving(Init(events), known, rounds);
      LeavingLast(events, Anywhere(known));
      SplitLast(events);
      VerdictsStep(Leaving(Init(events), Anywhere(known)), Init(events), Last(events), known, rounds);
    }
  }

  // ----- as often delivered, the same traces -----

  /** Every event that leaves such a trace is delivered as often in both. */
  ghost predicate AsOften(xs: seq<ProtocolEvent>, ys: seq<ProtocolEvent>, trace: Trace) {
    forall e :: Leaves(e, trace) ==> multiset(xs)[e] == multiset(ys)[e]
  }

  lemma SameLeaving(xs: seq<ProtocolEvent>, ys: seq<ProtocolEvent>, trace: Trace)
    requires IdsIdentify(EventId, xs) && AsOften(xs, ys, trace)
    ensures Leaving(Sort(EventKey, xs), trace) == Leaving(Sort(EventKey, ys), trace)
  {
    var a, b := Leaving(Sort(EventKey, xs), trace), Leaving(Sort(EventKey, ys), trace);
    SortSorted(EventKey, xs);
    SortSorted(EventKey, ys);
    LeavingSorted(Sort(EventKey, xs), trace);
    LeavingSorted(Sort(EventKey, ys), trace);
    SortElements(EventKey, xs);
    SameCounts(xs, ys, trace);
    SortedPermutationUnique(EventKey, a, b);
  }

  lemma SameCounts(xs: seq<ProtocolEvent>, ys: seq<ProtocolEvent>, trace: Trace)
    requires AsOften(xs, ys, trace)
    ensures multiset(Leaving(Sort(EventKey, xs), trace)) == multiset(Leaving(Sort(EventKey, ys), trace))
  {
    SortPermutes(EventKey, xs);
    SortPermutes(EventKey, ys);
    forall e ensures multiset(Leaving(Sort(EventKey, xs), trace))[e] == multiset(Leaving(Sort(EventKey, ys), trace))[e] {
      LeavingCount(Sort(EventKey, xs), trace, e);
      LeavingCount(Sort(EventKey, ys), trace, e);
    }
  }

  lemma IdentifiedAlike(xs: seq<ProtocolEvent>, ys: seq<ProtocolEvent>)
    requires IdsIdentify(EventId, xs) && C.SameSet(xs, ys)
    ensures IdsIdentify(EventId, ys) && LogOf(ys) == LogOf(xs)
  {
    C.KeysGiveOneLeast(xs);
    C.LogOfSet(xs, ys);
  }

  /** What the two public folds have in common whatever is repeated. */
  lemma FoldsShareCore(electionId: string, xs: seq<ProtocolEvent>, ys: seq<ProtocolEvent>)
    requires IdsIdentify(EventId, xs) && C.SameSet(xs, ys)
    ensures var a, b := PS.Fold(electionId, SortedPublics(xs)), PS.Fold(electionId, SortedPublics(ys)); R.SameCore(a, b)
  {
    IdentifiedAlike(xs, ys);
    R.PlanesOfLog(xs);
    R.PlanesOfLog(ys);
    PlanesSorted(xs);
    PlanesSorted(ys);
    R.PublicIdsIdentify(xs);
    R.PublicIdsIdentify(ys);
    R.PublicRepeats(electionId, SortedPublics(xs));
    R.PublicRepeats(electionId, SortedPublics(ys));
  }

  /** The rounds known in the end. */
  ghost function KnownRounds(electionId: string, events: seq<ProtocolEvent>): set<string> {
    KnownIds(PublicStateOf(electionId, events))
  }

  lemma KnownInFold(electionId: string, events: seq<ProtocolEvent>)
    ensures KnownRounds(electionId, events) == PS.Fold(electionId, SortedPublics(events)).rounds.Keys
  {
    PS.FoldFiled(electionId, SortedPublics(events));
    KnownIdsAreKeys(PS.Fold(electionId, SortedPublics(events)));
  }

  lemma SameLists(electionId: string, xs: seq<ProtocolEvent>, ys: seq<ProtocolEvent>, r: string)
    requires IdsIdentify(EventId, xs) && AsOften(xs, ys, Anywhere(KnownRounds(electionId, xs)))
    ensures PF.ReceiptsIn(SortedPublics(xs), r) == PF.ReceiptsIn(SortedPublics(ys), r)
    ensures PF.DisputesIn(SortedPublics(xs), r) == PF.DisputesIn(SortedPublics(ys), r)
    ensures PF.Strays(SortedPublics(xs), KnownRounds(electionId, xs)) == PF.Strays(SortedPublics(ys), KnownRounds(electionId, xs))
  {
    var known := KnownRounds(electionId, xs);
    SameLeaving(xs, ys, Anywhere(known));
    PlanesSortApart(xs);
    PlanesSortApart(ys);
    ListsOfLeaving(Sort(EventKey, xs), known, r);
    ListsOfLeaving(Sort(EventKey, ys), known, r);
  }

  lemma SameRound(electionId: string, xs: seq<ProtocolEvent>, ys: seq<ProtocolEvent>, r: string)
    requires IdsIdentify(EventId, xs) && C.SameSet(xs, ys) && AsOften(xs, ys, Anywhere(KnownRounds(electionId, xs)))
    requires r in PS.Fold(electionId, SortedPublics(xs)).rounds && r in PS.Fold(electionId, SortedPublics(ys)).rounds
    ensures PS.Fold(electionId, SortedPublics(xs)).rounds[r] == PS.Fold(electionId, SortedPublics(ys)).rounds[r]
  {
    FoldsShareCore(electionId, xs, ys);
    PlanesSorted(xs);
    PlanesSorted(ys);
    PF.RoundRecords(electionId, SortedPublics(xs), r);
    PF.RoundRecords(electionId, SortedPublics(ys), r);
    SameLists(electionId, xs, ys, r);
  }

  lemma SamePublics(electionId: string, xs: seq<ProtocolEvent>, ys: seq<ProtocolEvent>)
    requires IdsIdentify(EventId, xs) && C.SameSet(xs, ys) && AsOften(xs, ys, Anywhere(KnownRounds(electionId, xs)))
    ensures PublicStateOf(electionId, xs) == PublicStateOf(electionId, ys)
  {
    var a, b := PS.Fold(electionId, SortedPublics(xs)), PS.Fold(electionId, SortedPublics(ys));
    FoldsShareCore(electionId, xs, ys);
    KnownInFold(electionId, xs);
    PlanesSorted(xs);
    PlanesSorted(ys);
    PF.IssuesAreStrays(electionId, SortedPublics(xs));
    PF.IssuesAreStrays(electionId, SortedPublics(ys));
    SameLists(electionId, xs, ys, "");
    forall r | r in a.rounds ensures a.rounds[r] == b.rounds[r] {
      SameRound(electionId, xs, ys, r);
    }
    assert a.rounds == b.rounds;
  }

  /** Delivering the events that leave traces as often leaves the same state. */
  lemma SameState(electionId: string, xs: seq<ProtocolEvent>, ys: seq<ProtocolEvent>)
    requires IdsIdentify(EventId, xs) && C.SameSet(xs, ys) && AsOften(xs, ys, Anywhere(KnownRounds(electionId, xs)))
    ensures StateOf(electionId, xs) == StateOf(electionId, ys)
  {
    var known, rounds := KnownRounds(electionId, xs), PublicStateOf(electionId, xs).rounds;
    SamePublics(electionId, xs, ys);
    SameLeaving(xs, ys, Anywhere(known));
    PlanesSortApart(xs);
    PlanesSortApart(ys);
    VerdictsOfLeaving(Sort(EventKey, xs), known, rounds);
    VerdictsOfLeaving(Sort(EventKey, ys), known, rounds);
  }

  // ----- more often delivered, more traces -----

  lemma SmallerMultiset(a: multiset<ProtocolEvent>, b: multiset<ProtocolEvent>, e: ProtocolEvent)
    requires a <= b && a[e] < b[e]
    ensures |a| < |b|
  {
    assert b == a + (b - a);
    assert (b - a)[e] > 0;
  }

  lemma MoreLeft(xs: seq<ProtocolEvent>, ys: seq<ProtocolEvent>, trace: Trace, e: ProtocolEvent)
    requires multiset(ys) <= multiset(xs) && multiset(ys)[e] < multiset(xs)[e] && Leaves(e, trace)
    ensures |Leaving(Sort(EventKey, ys), trace)| < |Leaving(Sort(EventKey, xs), trace)|
  {
    var a, b := Leaving(Sort(EventKey, ys), trace), Leaving(Sort(EventKey, xs), trace);
    SortPermutes(EventKey, xs);
    SortPermutes(EventKey, ys);
    forall f ensures multiset(a)[f] <= multiset(b)[f] {
      LeavingCount(Sort(EventKey, xs), trace, f);
      LeavingCount(Sort(EventKey, ys), trace, f);
    }
    LeavingCount(Sort(EventKey, xs), trace, e);
    LeavingCount(Sort(EventKey, ys), trace, e);
    SmallerMultiset(multiset(a), multiset(b), e);
    assert |multiset(a)| == |a| && |multiset(b)| == |b|;
  }

  lemma {:induction false} CountedLeft(events: seq<ProtocolEvent>)
    ensures |Leaving(events, Counted)| == CoordinatorCount(events)
  {
    if events != [] {
      CountedLeft(Init(events));
    }
  }

  lemma {:induction false} JudgedLeft(events: seq<ProtocolEvent>)
    ensures |Leaving(events, Judged)| == |BF.Encrypted(BallotsOf(events))|
  {
    if events != [] {
      JudgedLeft(Init(events));
      var ballots := BallotsOf(Init(events));
      if Last(events).Ballot? {
        assert Init(ballots + [Last(events).ballotEvent]) == ballots;
      } else {
        assert ballots + [] == ballots;
      }
    }
  }

  lemma {:induction false} ListedLeft(events: seq<ProtocolEvent>, known: set<string>, r: string)
    ensures |Leaving(events, ListedReceipt(r))| == |PF.ReceiptsIn(PublicsOf(events), r)|
    ensures |Leaving(events, ListedDispute(r))| == |PF.DisputesIn(PublicsOf(events), r)|
    ensures |Leaving(events, ListedIssue(known))| == |PF.Strays(PublicsOf(events), known)|
  {
    if events != [] {
      SplitLast(events);
      ListedLeft(Init(events), known, r);
      ListsSnoc(Init(events), Last(events), known, r);
    }
  }

  /** How many traces of a kind the derived state shows. */
  ghost function Shown(state: DerivedState, trace: Trace): int {
    match trace
    case Counted => state.coordinatorEventCount
    case Judged => |state.ballotState.accepted| + |state.ballotState.rejected|
    case ListedReceipt(r) =>
      var round := RoundIn(state.publicState, r); if round.Some? then |round.value.receipts| else 0
    case ListedDispute(r) =>
      var round := RoundIn(state.publicState, r); if round.Some? then |round.value.disputes| else 0
    case ListedIssue(_) => |state.publicState.issues|
    case Anywhere(_) => 0
  }

  /** The trace the derived state counts for an event that marks it. */
  function TraceOf(e: ProtocolEvent, known: set<string>): Trace
    requires Marks(e, known)
  {
    match e
    case Coordinator(_, _) => Counted
    case Ballot(_) => Judged
    case Public(p) =>
      if PF.IsStray(p, known) then ListedIssue(known)
      else if p.BallotReceipt? then ListedReceipt(p.receipt.roundId)
      else ListedDispute(p.dispute.roundId.value)
  }

  lemma ShownCount(electionId: string, events: seq<ProtocolEvent>)
    ensures Shown(StateOf(electionId, events), Counted) == |Leaving(Sort(EventKey, events), Counted)|
  {
    PlanesSortApart(events);
    CountedLeft(Sort(EventKey, events));
  }

  lemma ShownVerdicts(electionId: string, events: seq<ProtocolEvent>)
    ensures Shown(StateOf(electionId, events), Judged) == |Leaving(Sort(EventKey, events), Judged)|
  {
    PlanesSortApart(events);
    JudgedLeft(Sort(EventKey, events));
    BF.EveryDeliveryRecorded(SortedBallots(events), PublicStateOf(electionId, events).rounds, "");
  }

  lemma IssuesShown(state: DerivedState, left: seq<ValidationIssue>, known: set<string>)
    requires state.publicState.issues == left
    ensures Shown(state, ListedIssue(known)) == |left|
  {
  }

  lemma ShownIssues(electionId: string, events: seq<ProtocolEvent>, known: set<string>)
    requires known == KnownRounds(electionId, events)
    ensures Shown(StateOf(electionId, events), ListedIssue(known)) == |Leaving(Sort(EventKey, events), ListedIssue(known))|
  {
    var left := PF.Strays(SortedPublics(events), known);
    StraysLeft(events, known);
    IssuesListed(electionId, events);
    IssuesShown(StateOf(electionId, events), left, known);
  }

  lemma IssuesListed(electionId: string, events: seq<ProtocolEvent>)
    ensures PublicStateOf(electionId, events).issues == PF.Strays(SortedPublics(events), KnownRounds(electionId, events))
  {
    OnlyStrayIssues(electionId, events);
  }

  lemma StraysLeft(events: seq<ProtocolEvent>, known: set<string>)
    ensures |Leaving(Sort(EventKey, events), ListedIssue(known))| == |PF.Strays(SortedPublics(events), known)|
  {
    PlanesSortApart(events);
    ListedLeft(Sort(EventKey, events), known, "");
  }

  lemma TraceLeft(e: ProtocolEvent, known: set<string>)
    requires Marks(e, known)
    ensures Leaves(e, TraceOf(e, known))
    ensures TraceOf(e, known).ListedReceipt? || TraceOf(e, known).ListedDispute? ==> TraceOf(e, known).roundId in known
  {
  }

  /** Every delivery that leaves a trace is shown. */
  lemma ShownAreLeft(electionId: string, events: seq<ProtocolEvent>, e: ProtocolEvent)
    requires Marks(e, KnownRounds(electionId, events))
    ensures var trace := TraceOf(e, KnownRounds(electionId, events));
            Shown(StateOf(electionId, events), trace) == |Leaving(Sort(EventKey, events), trace)|
  {
    var trace := TraceOf(e, KnownRounds(electionId, events));
    TraceLeft(e, KnownRounds(electionId, events));
    match trace {
      case Counted => ShownCount(electionId, events);
      case Judged => ShownVerdicts(electionId, events);
      case ListedIssue(known) => ShownIssues(electionId, events, known);
      case ListedReceipt(r) => ListedWithRound(electionId, events, r);
      case ListedDispute(r) => ListedWithRound(electionId, events, r);
    }
  }

  lemma ListedWithRound(electionId: string, events: seq<ProtocolEvent>, r: string)
    requires r in KnownRounds(electionId, events)
    ensures Shown(StateOf(electionId, events), ListedReceipt(r)) == |Leaving(Sort(EventKey, events), ListedReceipt(r))|
    ensures Shown(StateOf(electionId, events), ListedDispute(r)) == |Leaving(Sort(EventKey, events), ListedDispute(r))|
  {
    PlanesSortApart(events);
    KnownInFold(electionId, events);
    RoundFromFold(electionId, events, r);
    RoundLists(electionId, events, r);
    ListedLeft(Sort(EventKey, events), {}, r);
  }

  lemma KnownAlike(electionId: string, xs: seq<ProtocolEvent>, ys: seq<ProtocolEvent>)
    requires IdsIdentify(EventId, xs) && C.SameSet(xs, ys)
    ensures KnownRounds(electionId, xs) == KnownRounds(electionId, ys)
  {
    FoldsShareCore(electionId, xs, ys);
    KnownInFold(electionId, xs);
    KnownInFold(electionId, ys);
  }

  /** An event that leaves traces, delivered more often, changes the state. */
  lemma MoreShown(electionId: string, xs: seq<ProtocolEvent>, ys: seq<ProtocolEvent>, e: ProtocolEvent)
    requires IdsIdentify(EventId, xs) && C.SameSet(xs, ys) && multiset(ys) <= multiset(xs)
    requires Marks(e, KnownRounds(electionId, xs)) && multiset(ys)[e] < multiset(xs)[e]
    ensures StateOf(electionId, xs) != StateOf(electionId, ys)
  {
    var trace := TraceOf(e, KnownRounds(electionId, xs));
    KnownAlike(electionId, xs, ys);
    TraceLeft(e, KnownRounds(electionId, xs));
    ShownAreLeft(electionId, xs, e);
    ShownAreLeft(electionId, ys, e);
    MoreLeft(xs, ys, trace, e);
  }

  // ----- exactly when repeated deliveries show -----

  /**
   Repeating deliveries leaves the derived state the same if and only if it repeats no event that leaves a
   trace each time.
   */
  lemma RepeatsShowIff(electionId: string, xs: seq<ProtocolEvent>, ys: seq<ProtocolEvent>)
    requires IdsIdentify(EventId, xs) && AllFrom(electionId, xs)
    requires C.SameSet(xs, ys) && multiset(ys) <= multiset(xs)
    ensures Derive(electionId, xs) == Derive(electionId, ys) <==> AsOften(xs, ys, Anywhere(KnownRounds(electionId, xs)))
  {
    DeriveByPlanes(electionId, xs);
    DeriveByPlanes(electionId, ys);
    if AsOften(xs, ys, Anywhere(KnownRounds(electionId, xs))) {
      SameState(electionId, xs, ys);
    } else {
      var e := MoreOften(xs, ys, Anywhere(KnownRounds(electionId, xs)));
      MoreShown(electionId, xs, ys, e);
    }
  }

  lemma MoreOften(xs: seq<ProtocolEvent>, ys: seq<ProtocolEvent>, trace: Trace) returns (e: ProtocolEvent)
    requires multiset(ys) <= multiset(xs) && !AsOften(xs, ys, trace)
    ensures Leaves(e, trace) && multiset(ys)[e] < multiset(xs)[e]
  {
    e :| Leaves(e, trace) && multiset(xs)[e] != multiset(ys)[e];
    assert multiset(ys)[e] <= multiset(xs)[e];
  }

  /** No event of `events` that leaves traces is in it twice. */
  ghost predicate MarksOnce(events: seq<ProtocolEvent>, known: set<string>) {
    forall e :: e in events && Marks(e, known) ==> multiset(events)[e] == 1
  }

  lemma {:induction false} DistinctOnce(events: seq<ProtocolEvent>, e: ProtocolEvent)
    requires DistinctIds(EventId, events)
    ensures multiset(events)[e] == if e in events then 1 else 0
  {
    if events != [] {
      SplitLast(events);
      DistinctOnce(Init(events), e);
      if e in Init(events) {
        IdsHas(EventId, Init(events), e);
      }
    }
  }

  /** The log of a prefix holds each of its events once. */
  lemma LogOnce(prefix: seq<ProtocolEvent>, e: ProtocolEvent)
    requires IdsIdentify(EventId, prefix)
    ensures multiset(LogOf(prefix))[e] == if e in prefix then 1 else 0
  {
    SortElements(EventKey, prefix);
    FirstsHas(EventId, {}, Sort(EventKey, prefix), e);
    FirstsDistinct(EventId, {}, Sort(EventKey, prefix));
    DistinctOnce(LogOf(prefix), e);
  }

  lemma LogIsPart(prefix: seq<ProtocolEvent>, suffix: seq<ProtocolEvent>)
    requires IdsIdentify(EventId, prefix)
    ensures C.SameSet(prefix + suffix, LogOf(prefix) + suffix)
    ensures multiset(LogOf(prefix) + suffix) <= multiset(prefix + suffix)
  {
    forall e ensures e in LogOf(prefix) <==> e in prefix {
      LogOnce(prefix, e);
      assert e in LogOf(prefix) <==> e in multiset(LogOf(prefix));
    }
    forall e ensures multiset(LogOf(prefix))[e] <= multiset(prefix)[e] {
      LogOnce(prefix, e);
      assert e in prefix <==> e in multiset(prefix);
    }
  }

  /**
   Restoring a snapshot and applying a suffix returns the very result of the full replay if and only if an
   event of another election makes both fail or the prefix delivered no trace-leaving event twice.
   */
  lemma SnapshotResultIff(electionId: string, prefix: seq<ProtocolEvent>, suffix: seq<ProtocolEvent>)
    requires IdsIdentify(EventId, prefix + suffix) && AllFrom(electionId, prefix)
    ensures Derive(electionId, LogOf(prefix) + suffix) == Derive(electionId, prefix + suffix) <==>
              !AllFrom(electionId, suffix) || MarksOnce(prefix, KnownRounds(electionId, prefix + suffix))
  {
    var xs, ys := prefix + suffix, LogOf(prefix) + suffix;
    PartIdentified(prefix, suffix);
    C.SnapshotPlusSuffixLog(electionId, prefix, suffix);
    C.AllFromAppend(electionId, prefix, suffix);
    if AllFrom(electionId, suffix) {
      LogIsPart(prefix, suffix);
      RepeatsShowIff(electionId, xs, ys);
      OftenIff(prefix, suffix, KnownRounds(electionId, xs));
    }
  }

  lemma PartIdentified(prefix: seq<ProtocolEvent>, suffix: seq<ProtocolEvent>)
    requires IdsIdentify(EventId, prefix + suffix)
    ensures IdsIdentify(EventId, prefix)
  {
    assert forall e :: e in prefix ==> e in prefix + suffix;
  }

  lemma OftenIff(prefix: seq<ProtocolEvent>, suffix: seq<ProtocolEvent>, known: set<string>)
    requires IdsIdentify(EventId, prefix)
    ensures AsOften(prefix + suffix, LogOf(prefix) + suffix, Anywhere(known)) <==> MarksOnce(prefix, known)
  {
    var xs, ys := prefix + suffix, LogOf(prefix) + suffix;
    forall e ensures multiset(xs)[e] == multiset(ys)[e] <==> (e in prefix ==> multiset(prefix)[e] == 1) {
      LogOnce(prefix, e);
      assert e in prefix <==> e in multiset(prefix);
      assert multiset(xs) == multiset(prefix) + multiset(suffix);
      assert multiset(ys) == multiset(LogOf(prefix)) + multiset(suffix);
    }
    assert forall e :: Leaves(e, Anywhere(known)) <==> Marks(e, known);
  }

  /** The state a replay returns is the state asked for afterwards iff it was given no such event twice. */
  lemma ReturnedIsCurrentIff(electionId: string, events: seq<ProtocolEvent>)
    requires IdsIdentify(EventId, events) && AllFrom(electionId, events)
    ensures Derive(electionId, events) == Derive(electionId, LogOf(events)) <==>
              MarksOnce(events, KnownRounds(electionId, events))
  {
    assert events + [] == events && LogOf(events) + [] == LogOf(events);
    SnapshotResultIff(electionId, events, []);
  }

  /** One repeated coordinator event is enough: it is counted twice, and once after a restore. */
  lemma RepeatIsCounted(e: ProtocolEvent)
    requires e.Coordinator?
    ensures Derive(ElectionId(e), [e, e]) != Derive(ElectionId(e), LogOf([e, e]))
  {
    assert multiset([e, e])[e] == 2;
    assert e in [e, e] && Marks(e, KnownRounds(ElectionId(e), [e, e]));
    ReturnedIsCurrentIff(ElectionId(e), [e, e]);
  }

  /** Through the engine objects: snapshot after the prefix, restore, apply the suffix. */
  method RestoreAndApply(electionId: string, prefix: seq<ProtocolEvent>, suffix: seq<ProtocolEvent>)
    returns (resumed: Result<DerivedState, ProtocolError>, log: seq<ProtocolEvent>)
    requires AllFrom(electionId, prefix)
    ensures DistinctIds(EventId, prefix) ==> resumed == Derive(electionId, prefix + suffix)
    ensures IdsIdentify(EventId, prefix + suffix) ==>
              (resumed == Derive(electionId, prefix + suffix) <==>
                 !AllFrom(electionId, suffix) || MarksOnce(prefix, KnownRounds(electionId, prefix + suffix)))
    ensures resumed.Ok? <==> Derive(electionId, prefix + suffix).Ok?
    ensures resumed.Ok? ==> log == LogOf(prefix + suffix)
  {
    var engine := new AuditableVotingProtocolEngine(electionId);
    var _ := engine.ReplayAll(prefix);
    C.AllFromLog(electionId, prefix);
    var snapshot := engine.Snapshot();
    var restored := AuditableVotingProtocolEngine.Restore(snapshot.value);
    resumed := restored.value.ApplyEvents(suffix);
    log := restored.value.events;
    C.SnapshotPlusSuffixLog(electionId, prefix, suffix);
    if DistinctIds(EventId, prefix) {
      C.SnapshotPlusSuffixResult(electionId, prefix, suffix);
    }
    if IdsIdentify(EventId, prefix + suffix) {
      SnapshotResultIff(electionId, prefix, suffix);
    }
  }
}
