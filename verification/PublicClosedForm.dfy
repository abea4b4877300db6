/**
 What the public fold computes, said of the set of events rather than of their order: which rounds
 are known, the phase, times and settings of each, and the issues left over.
 */
module PublicClosedForm {
  import opened Wrappers
  import opened Order
  import opened Sorting
  import opened Events
  import opened Validation
  import opened PublicState

  datatype Kind = Definitions | Opens | Closes | Receipts | Results | Disputes

  /** `e` is an event of this kind that names round `r`. */
  predicate About(e: PublicEvent, kind: Kind, r: string) {
    match kind
    case Definitions => e.RoundDefinition? && e.definition.roundId == r
    case Opens => e.RoundOpen? && e.open.roundId == r
    case Closes => e.RoundClose? && e.close.roundId == r
    case Receipts => e.BallotReceipt? && e.receipt.roundId == r
    case Results => e.FinalResult? && e.result.roundId == r
    case Disputes => e.DisputeRecord? && e.dispute.roundId == Some(r)
  }

  ghost predicate Has(events: seq<PublicEvent>, kind: Kind, r: string) {
    exists e :: e in events && About(e, kind, r)
  }

  ghost predicate Known(events: seq<PublicEvent>, r: string) {
    Has(events, Definitions, r) || Has(events, Opens, r)
  }

  /** The phase a round has, by which kinds of event name it. */
  ghost function PhaseOf(events: seq<PublicEvent>, r: string): Phase {
    if Has(events, Disputes, r) then Disputed
    else if Has(events, Results, r) then Published
    else if Has(events, Closes, r) then Closed
    else if Has(events, Opens, r) then Open
    else Draft
  }

  /** `t` is the least creation time among the events of this kind that name `r`. */
  ghost predicate Earliest(t: Option<i64>, events: seq<PublicEvent>, kind: Kind, r: string) {
    match t
    case None => !Has(events, kind, r)
    case Some(v) =>
      && (exists e :: e in events && About(e, kind, r) && e.CreatedAt() == v)
      && (forall e :: e in events && About(e, kind, r) ==> v <= e.CreatedAt())
  }

  datatype Field = Prompt | ThresholdT | ThresholdN | Roster | ResultField

  datatype Setting =
    | Text(text: string)
    | Number(number: u32)
    | Names(names: seq<string>)
    | Outcome(outcome: Option<PublishedResult>)

  function Get(round: Round, field: Field): Setting {
    match field
    case Prompt => Text(round.prompt)
    case ThresholdT => Number(round.thresholdT)
    case ThresholdN => Number(round.thresholdN)
    case Roster => Names(round.roster)
    case ResultField => Outcome(round.finalResult)
  }

  /** The value `e` writes to a field of round `r`, if it writes one. An open may leave fields out. */
  function Write(e: PublicEvent, field: Field, r: string): Option<Setting> {
    if About(e, Definitions, r) then
      match field
      case Prompt => Some(Text(e.definition.prompt))
      case ThresholdT => Some(Number(e.definition.thresholdT))
      case ThresholdN => Some(Number(e.definition.thresholdN))
      case Roster => Some(Names(e.definition.roster))
      case ResultField => None
    else if About(e, Opens, r) then
      match field
      case Prompt => if e.open.prompt.Some? then Some(Text(e.open.prompt.value)) else None
      case ThresholdT => if e.open.thresholdT.Some? then Some(Number(e.open.thresholdT.value)) else None
      case ThresholdN => if e.open.thresholdN.Some? then Some(Number(e.open.thresholdN.value)) else None
      case Roster => if e.open.roster != [] then Some(Names(e.open.roster)) else None
      case ResultField => None
    else if About(e, Results, r) && field == ResultField then
      Some(Outcome(Some(ResultOf(e.result))))
    else
      None
  }

  /** `v` is what the writer with the greatest key wrote. */
  ghost predicate LatestWrite(v: Setting, events: seq<PublicEvent>, field: Field, r: string) {
    exists e :: e in events && Write(e, field, r) == Some(v) &&
                forall f :: f in events && Write(f, field, r).Some? ==> KeyLe(PublicKey(f), PublicKey(e))
  }

  ghost predicate Unwritten(events: seq<PublicEvent>, field: Field, r: string) {
    forall e :: e in events ==> Write(e, field, r).None?
  }

  /** `o` is the first open of `r`. */
  ghost predicate FirstOpen(o: PublicEvent, events: seq<PublicEvent>, r: string) {
    && o in events && About(o, Opens, r)
    && forall f :: f in events && About(f, Opens, r) ==> KeyLe(PublicKey(o), PublicKey(f))
  }

  /** The value of a field nothing wrote: `threshold_n` then comes from the size of the first open's roster. */
  ghost predicate DefaultSetting(v: Setting, events: seq<PublicEvent>, field: Field, r: string) {
    match field
    case Prompt => v == Text("")
    case ThresholdT => v == Number(1)
    case ThresholdN => exists o :: FirstOpen(o, events, r) && v == Number(DefaultThresholdN(o.open.roster))
    case Roster => v == Names([])
    case ResultField => v == Outcome(None)
  }

  ghost predicate Settled(round: Round, events: seq<PublicEvent>, field: Field, r: string) {
    if Unwritten(events, field, r) then DefaultSetting(Get(round, field), events, field, r)
    else LatestWrite(Get(round, field), events, field, r)
  }

  function ReceiptsIn(events: seq<PublicEvent>, r: string): seq<DerivedReceipt> {
    if events == [] then [] else
      ReceiptsIn(Init(events), r) + if About(Last(events), Receipts, r) then [ReceiptOf(Last(events).receipt)] else []
  }

  function DisputesIn(events: seq<PublicEvent>, r: string): seq<string> {
    if events == [] then [] else
      DisputesIn(Init(events), r) + if About(Last(events), Disputes, r) then [Last(events).dispute.reason] else []
  }

  /** The issues of the closes, receipts, results and disputes that name no round in `known`. */
  ghost function Strays(events: seq<PublicEvent>, known: set<string>): seq<ValidationIssue> {
    if events == [] then [] else
      Strays(Init(events), known) + if IsStray(Last(events), known) then [Stray(Last(events))] else []
  }

  predicate IsStray(e: PublicEvent, known: set<string>)
    ensures IsStray(e, known) ==> e.RoundClose? || e.BallotReceipt? || e.FinalResult? || e.DisputeRecord?
  {
    match e
    case RoundClose(c) => c.roundId !in known
    case BallotReceipt(b) => b.roundId !in known
    case FinalResult(f) => f.roundId !in known
    case DisputeRecord(d) => d.roundId.None? || d.roundId.value !in known
    case _ => false
  }

  // ----- one event at a time -----

  lemma HasSnoc(events: seq<PublicEvent>, e: PublicEvent, kind: Kind, r: string)
    ensures Has(events + [e], kind, r) <==> Has(events, kind, r) || About(e, kind, r)
  {
    assert forall x :: x in events + [e] <==> x in events || x == e;
  }

  /** Nothing of a later kind can precede `e`. */
  lemma NoneBefore(events: seq<PublicEvent>, e: PublicEvent, kind: Kind, r: string)
    requires Precede(PublicKey, events, e)
    requires e.RoundDefinition? ==> kind != Definitions
    requires e.RoundOpen? ==> kind != Definitions && kind != Opens
    requires e.RoundClose? ==> kind == Results || kind == Disputes
    requires e.FinalResult? ==> kind == Disputes
    requires e.RoundDefinition? || e.RoundOpen? || e.RoundClose? || e.FinalResult?
    ensures !Has(events, kind, r)
  {
  }

  lemma EarliestSnoc(t: Option<i64>, events: seq<PublicEvent>, e: PublicEvent, kind: Kind, r: string)
    requires Earliest(t, events, kind, r)
    ensures Earliest(if About(e, kind, r) then EarliestOf(t, e.CreatedAt()) else t, events + [e], kind, r)
  {
    HasSnoc(events, e, kind, r);
    assert forall x :: x in events + [e] <==> x in events || x == e;
    if About(e, kind, r) {
      assert e in events + [e];
      if t.Some? {
        var x :| x in events && About(x, kind, r) && x.CreatedAt() == t.value;
        assert x in events + [e];
      }
    } else if t.Some? {
      var x :| x in events && About(x, kind, r) && x.CreatedAt() == t.value;
      assert x in events + [e];
    }
  }

  ghost predicate KnowsRound(acc: Acc, events: seq<PublicEvent>, r: string) {
    r in acc.rounds <==> Known(events, r)
  }

  lemma KnownStep(acc: Acc, events: seq<PublicEvent>, e: PublicEvent, r: string)
    requires KnowsRound(acc, events, r)
    ensures KnowsRound(Step(acc, e), events + [e], r)
  {
    HasSnoc(events, e, Definitions, r);
    HasSnoc(events, e, Opens, r);
  }

  lemma {:induction false} KnownRounds(electionId: string, events: seq<PublicEvent>, r: string)
    ensures KnowsRound(Fold(electionId, events), events, r)
  {
    if events != [] {
      KnownRounds(electionId, Init(events), r);
      KnownStep(Fold(electionId, Init(events)), Init(events), Last(events), r);
      SplitLast(events);
    }
  }

  ghost predicate PhaseMeets(acc: Acc, events: seq<PublicEvent>, r: string) {
    r in acc.rounds ==> acc.rounds[r].phase == PhaseOf(events, r)
  }

  ghost predicate TimesMeet(acc: Acc, events: seq<PublicEvent>, r: string) {
    r in acc.rounds ==>
      && Earliest(acc.rounds[r].openedAt, events, Opens, r)
      && Earliest(acc.rounds[r].closedAt, events, Closes, r)
  }

  function PhaseAfter(phase: Phase, e: PublicEvent, r: string): Phase {
    if About(e, Disputes, r) then Disputed
    else if About(e, Results, r) then Published
    else if About(e, Closes, r) then Closed
    else if About(e, Opens, r) then Open
    else phase
  }

  lemma StepPhaseOpen(acc: Acc, o: RoundLifecycleEvent, r: string)
    requires r in Step(acc, RoundOpen(o)).rounds
    requires o.roundId == r && r in acc.rounds ==> acc.rounds[r].closedAt.None?
    ensures Step(acc, RoundOpen(o)).rounds[r].phase == if o.roundId == r then Open else acc.rounds[r].phase
  {
  }

  lemma StepPhaseLate(acc: Acc, e: PublicEvent, r: string)
    requires r in Step(acc, e).rounds && (e.RoundClose? || e.FinalResult? || e.DisputeRecord?)
    ensures r in acc.rounds && Step(acc, e).rounds[r].phase == PhaseAfter(acc.rounds[r].phase, e, r)
  {
  }

  lemma StepPhase(acc: Acc, e: PublicEvent, r: string)
    requires r in Step(acc, e).rounds
    requires About(e, Opens, r) && r in acc.rounds ==> acc.rounds[r].closedAt.None?
    ensures Step(acc, e).rounds[r].phase == PhaseAfter(if r in acc.rounds then acc.rounds[r].phase else Draft, e, r)
  {
    if e.RoundOpen? {
      StepPhaseOpen(acc, e.open, r);
    } else if e.RoundClose? || e.FinalResult? || e.DisputeRecord? {
      StepPhaseLate(acc, e, r);
    }
  }

  lemma PhaseOfSnoc(events: seq<PublicEvent>, e: PublicEvent, r: string)
    requires Precede(PublicKey, events, e)
    ensures PhaseOf(events + [e], r) == PhaseAfter(PhaseOf(events, r), e, r)
  {
    HasSnoc(events, e, Opens, r);
    HasSnoc(events, e, Closes, r);
    HasSnoc(events, e, Results, r);
    HasSnoc(events, e, Disputes, r);
    if e.RoundOpen? {
      NoneBefore(events, e, Closes, r);
    }
    if e.RoundOpen? || e.RoundClose? {
      NoneBefore(events, e, Results, r);
    }
    if e.RoundOpen? || e.RoundClose? || e.FinalResult? {
      NoneBefore(events, e, Disputes, r);
    }
  }

  lemma PhaseStep(acc: Acc, events: seq<PublicEvent>, e: PublicEvent, r: string)
    requires Precede(PublicKey, events, e) && KnowsRound(acc, events, r)
    requires PhaseMeets(acc, events, r) && TimesMeet(acc, events, r)
    ensures PhaseMeets(Step(acc, e), events + [e], r)
  {
    if r in Step(acc, e).rounds {
      if e.RoundDefinition? || e.RoundOpen? {
        NoneBefore(events, e, Closes, r);
        NoneBefore(events, e, Results, r);
        NoneBefore(events, e, Disputes, r);
      }
      StepPhase(acc, e, r);
      PhaseOfSnoc(events, e, r);
    }
  }

  lemma StepTimes(acc: Acc, e: PublicEvent, r: string)
    requires r in Step(acc, e).rounds
    requires About(e, Opens, r) && r in acc.rounds ==> acc.rounds[r].closedAt.None?
    ensures var openedAt := if r in acc.rounds then acc.rounds[r].openedAt else None;
            Step(acc, e).rounds[r].openedAt == if About(e, Opens, r) then EarliestOf(openedAt, e.CreatedAt()) else openedAt
    ensures var closedAt := if r in acc.rounds then acc.rounds[r].closedAt else None;
            Step(acc, e).rounds[r].closedAt == if About(e, Closes, r) then EarliestOf(closedAt, e.CreatedAt()) else closedAt
  {
  }

  lemma TimesStep(acc: Acc, events: seq<PublicEvent>, e: PublicEvent, r: string)
    requires Precede(PublicKey, events, e) && KnowsRound(acc, events, r)
    requires TimesMeet(acc, events, r)
    ensures TimesMeet(Step(acc, e), events + [e], r)
  {
    if r in Step(acc, e).rounds {
      if e.RoundDefinition? || e.RoundOpen? {
        NoneBefore(events, e, Closes, r);
      }
      StepTimes(acc, e, r);
      var openedAt := if r in acc.rounds then acc.rounds[r].openedAt else None;
      var closedAt := if r in acc.rounds then acc.rounds[r].closedAt else None;
      EarliestSnoc(openedAt, events, e, Opens, r);
      EarliestSnoc(closedAt, events, e, Closes, r);
    }
  }

  lemma {:induction false} RoundPhase(electionId: string, events: seq<PublicEvent>, r: string)
    requires Sorted(PublicKey, events)
    ensures PhaseMeets(Fold(electionId, events), events, r)
    ensures TimesMeet(Fold(electionId, events), events, r)
  {
    if events != [] {
      AfterAll(PublicKey, events);
      KnownRounds(electionId, Init(events), r);
      RoundPhase(electionId, Init(events), r);
      PhaseStep(Fold(electionId, Init(events)), Init(events), Last(events), r);
      TimesStep(Fold(electionId, Init(events)), Init(events), Last(events), r);
    }
  }

  // ----- settings -----

  ghost predicate SettingMeets(acc: Acc, events: seq<PublicEvent>, field: Field, r: string) {
    r in acc.rounds ==> Settled(acc.rounds[r], events, field, r)
  }

  lemma WrittenStep(acc: Acc, e: PublicEvent, field: Field, r: string)
    requires Write(e, field, r).Some?
    requires e.FinalResult? ==> r in acc.rounds
    requires e.RoundOpen? && r in acc.rounds ==> acc.rounds[r].closedAt.None?
    ensures r in Step(acc, e).rounds && Get(Step(acc, e).rounds[r], field) == Write(e, field, r).value
  {
  }

  lemma UntouchedStep(acc: Acc, e: PublicEvent, field: Field, r: string)
    requires Write(e, field, r).None? && r in acc.rounds
    ensures r in Step(acc, e).rounds && Get(Step(acc, e).rounds[r], field) == Get(acc.rounds[r], field)
  {
  }

  lemma LatestNow(events: seq<PublicEvent>, e: PublicEvent, field: Field, r: string)
    requires Precede(PublicKey, events, e) && Write(e, field, r).Some?
    ensures LatestWrite(Write(e, field, r).value, events + [e], field, r)
    ensures !Unwritten(events + [e], field, r)
  {
    KeyOrderIsTotal(PublicKey(e), PublicKey(e), PublicKey(e));
    assert e in events + [e];
  }

  lemma UnwrittenStays(events: seq<PublicEvent>, e: PublicEvent, field: Field, r: string)
    requires Write(e, field, r).None?
    ensures Unwritten(events + [e], field, r) <==> Unwritten(events, field, r)
  {
    assert forall x :: x in events + [e] <==> x in events || x == e;
  }

  lemma DefaultStays(v: Setting, events: seq<PublicEvent>, e: PublicEvent, field: Field, r: string)
    requires Precede(PublicKey, events, e) && DefaultSetting(v, events, field, r)
    ensures DefaultSetting(v, events + [e], field, r)
  {
    if field == ThresholdN {
      var o :| FirstOpen(o, events, r) && v == Number(DefaultThresholdN(o.open.roster));
      assert FirstOpen(o, events + [e], r);
    }
  }

  lemma LatestStays(v: Setting, events: seq<PublicEvent>, e: PublicEvent, field: Field, r: string)
    requires Write(e, field, r).None? && LatestWrite(v, events, field, r)
    ensures LatestWrite(v, events + [e], field, r)
  {
    var w :| w in events && Write(w, field, r) == Some(v) &&
             forall f :: f in events && Write(f, field, r).Some? ==> KeyLe(PublicKey(f), PublicKey(w));
    assert w in events + [e];
  }

  lemma SettledStays(round: Round, round': Round, events: seq<PublicEvent>, e: PublicEvent, field: Field, r: string)
    requires Precede(PublicKey, events, e) && Write(e, field, r).None?
    requires Settled(round, events, field, r) && Get(round', field) == Get(round, field)
    ensures Settled(round', events + [e], field, r)
  {
    UnwrittenStays(events, e, field, r);
    if Unwritten(events, field, r) {
      DefaultStays(Get(round, field), events, e, field, r);
    } else {
      LatestStays(Get(round, field), events, e, field, r);
    }
  }

  lemma DefaultNow(acc: Acc, events: seq<PublicEvent>, e: PublicEvent, field: Field, r: string)
    requires Precede(PublicKey, events, e) && !Known(events, r) && r !in acc.rounds
    requires About(e, Definitions, r) || About(e, Opens, r)
    requires Write(e, field, r).None?
    ensures r in Step(acc, e).rounds && Settled(Step(acc, e).rounds[r], events + [e], field, r)
  {
    var all := events + [e];
    assert forall x :: x in all <==> x in events || x == e;
    NoneBefore(events, e, Results, r);
    assert Unwritten(all, field, r) by {
      forall x | x in events ensures Write(x, field, r).None? {
        assert !About(x, Definitions, r) && !About(x, Opens, r) && !About(x, Results, r);
      }
    }
    if field == ThresholdN {
      KeyOrderIsTotal(PublicKey(e), PublicKey(e), PublicKey(e));
      assert FirstOpen(e, all, r);
    }
  }

  lemma SettingStep(acc: Acc, events: seq<PublicEvent>, e: PublicEvent, field: Field, r: string)
    requires Precede(PublicKey, events, e) && KnowsRound(acc, events, r)
    requires TimesMeet(acc, events, r) && SettingMeets(acc, events, field, r)
    ensures SettingMeets(Step(acc, e), events + [e], field, r)
  {
    if e.RoundOpen? {
      NoneBefore(events, e, Closes, r);
    }
    if Write(e, field, r).Some? {
      if e.FinalResult? && r !in acc.rounds {
        assert r !in Step(acc, e).rounds;
      } else {
        WrittenStep(acc, e, field, r);
        LatestNow(events, e, field, r);
      }
    } else if r in acc.rounds {
      UntouchedStep(acc, e, field, r);
      SettledStays(acc.rounds[r], Step(acc, e).rounds[r], events, e, field, r);
    } else if About(e, Definitions, r) || About(e, Opens, r) {
      DefaultNow(acc, events, e, field, r);
    }
  }

  /** Each setting is the last applicable write, or its default when nothing wrote it. */
  lemma {:induction false} RoundSettings(electionId: string, events: seq<PublicEvent>, field: Field, r: string)
    requires Sorted(PublicKey, events)
    ensures SettingMeets(Fold(electionId, events), events, field, r)
  {
    if events != [] {
      AfterAll(PublicKey, events);
      KnownRounds(electionId, Init(events), r);
      RoundPhase(electionId, Init(events), r);
      RoundSettings(electionId, Init(events), field, r);
      SettingStep(Fold(electionId, Init(events)), Init(events), Last(events), field, r);
    }
  }

  // ----- definition time, receipts and disputes -----

  /** `defined_at`: the earliest definition, or the earliest open of a round nothing defined. */
  ghost predicate DefinedAt(at: i64, events: seq<PublicEvent>, r: string) {
    Earliest(Some(at), events, if Has(events, Definitions, r) then Definitions else Opens, r)
  }

  ghost predicate DefinitionMeets(acc: Acc, events: seq<PublicEvent>, r: string) {
    r in acc.rounds ==> DefinedAt(acc.rounds[r].definedAt, events, r)
  }

  predicate ListsMeet(acc: Acc, events: seq<PublicEvent>, r: string) {
    r in acc.rounds ==> acc.rounds[r].receipts == ReceiptsIn(events, r) && acc.rounds[r].disputes == DisputesIn(events, r)
  }

  ghost predicate RecordsMeet(acc: Acc, events: seq<PublicEvent>, r: string) {
    DefinitionMeets(acc, events, r) && ListsMeet(acc, events, r)
  }

  lemma {:induction false} NoRecords(events: seq<PublicEvent>, r: string)
    ensures !Has(events, Receipts, r) ==> ReceiptsIn(events, r) == []
    ensures !Has(events, Disputes, r) ==> DisputesIn(events, r) == []
  {
    if events != [] {
      SplitLast(events);
      HasSnoc(Init(events), Last(events), Receipts, r);
      HasSnoc(Init(events), Last(events), Disputes, r);
      NoRecords(Init(events), r);
    }
  }

  lemma StepDefinedAt(acc: Acc, e: PublicEvent, r: string)
    requires r in Step(acc, e).rounds
    ensures r in acc.rounds ==>
              Step(acc, e).rounds[r].definedAt ==
                if About(e, Definitions, r) then Min(acc.rounds[r].definedAt, e.CreatedAt()) else acc.rounds[r].definedAt
    ensures r !in acc.rounds ==>
              (About(e, Definitions, r) || About(e, Opens, r)) && Step(acc, e).rounds[r].definedAt == e.CreatedAt()
  {
  }

  lemma DefinedAtStep(acc: Acc, events: seq<PublicEvent>, e: PublicEvent, r: string)
    requires Precede(PublicKey, events, e) && KnowsRound(acc, events, r)
    requires DefinitionMeets(acc, events, r)
    ensures DefinitionMeets(Step(acc, e), events + [e], r)
  {
    if r in Step(acc, e).rounds {
      StepDefinedAt(acc, e, r);
      HasSnoc(events, e, Definitions, r);
      if e.RoundDefinition? {
        NoneBefore(events, e, Opens, r);
      }
      var kind := if Has(events + [e], Definitions, r) then Definitions else Opens;
      var definedAt := if r in acc.rounds then Some(acc.rounds[r].definedAt) else None;
      EarliestSnoc(definedAt, events, e, kind, r);
      if About(e, Opens, r) && kind == Opens && r in acc.rounds {
        var x :| x in events && About(x, Opens, r) && x.CreatedAt() == definedAt.value;
        assert KeyLe(PublicKey(x), PublicKey(e));
      }
    }
  }

  lemma StepRecords(acc: Acc, e: PublicEvent, r: string)
    requires r in Step(acc, e).rounds
    ensures r !in acc.rounds ==> Step(acc, e).rounds[r].receipts == [] && Step(acc, e).rounds[r].disputes == []
    ensures r in acc.rounds ==>
              && Step(acc, e).rounds[r].receipts
                 == acc.rounds[r].receipts + (if About(e, Receipts, r) then [ReceiptOf(e.receipt)] else [])
              && Step(acc, e).rounds[r].disputes
                 == acc.rounds[r].disputes + (if About(e, Disputes, r) then [e.dispute.reason] else [])
    ensures r !in acc.rounds ==> e.RoundDefinition? || e.RoundOpen?
  {
  }

  lemma RecordsSnoc(events: seq<PublicEvent>, e: PublicEvent, r: string)
    ensures ReceiptsIn(events + [e], r) == ReceiptsIn(events, r) + if About(e, Receipts, r) then [ReceiptOf(e.receipt)] else []
    ensures DisputesIn(events + [e], r) == DisputesIn(events, r) + if About(e, Disputes, r) then [e.dispute.reason] else []
  {
    assert Init(events + [e]) == events && Last(events + [e]) == e;
  }

  /** Nothing is listed for a round before it is known. */
  lemma NothingListedYet(events: seq<PublicEvent>, e: PublicEvent, r: string)
    requires Precede(PublicKey, events, e) && (e.RoundDefinition? || e.RoundOpen?)
    ensures ReceiptsIn(events, r) == [] && DisputesIn(events, r) == []
  {
    ReceiptsLate(events, e, r);
    NoneBefore(events, e, Disputes, r);
    NoRecords(events, r);
  }

  lemma ListsStep(acc: Acc, events: seq<PublicEvent>, e: PublicEvent, r: string)
    requires Precede(PublicKey, events, e) && ListsMeet(acc, events, r)
    ensures ListsMeet(Step(acc, e), events + [e], r)
  {
    if r in Step(acc, e).rounds {
      StepRecords(acc, e, r);
      RecordsSnoc(events, e, r);
      if r !in acc.rounds {
        NothingListedYet(events, e, r);
      }
    }
  }

  lemma RecordsStep(acc: Acc, events: seq<PublicEvent>, e: PublicEvent, r: string)
    requires Precede(PublicKey, events, e) && KnowsRound(acc, events, r) && RecordsMeet(acc, events, r)
    ensures RecordsMeet(Step(acc, e), events + [e], r)
  {
    DefinedAtStep(acc, events, e, r);
    ListsStep(acc, events, e, r);
  }

  lemma ReceiptsLate(events: seq<PublicEvent>, e: PublicEvent, r: string)
    requires Precede(PublicKey, events, e) && (e.RoundDefinition? || e.RoundOpen?)
    ensures !Has(events, Receipts, r)
  {
  }

  lemma {:induction false} RoundRecords(electionId: string, events: seq<PublicEvent>, r: string)
    requires Sorted(PublicKey, events)
    ensures RecordsMeet(Fold(electionId, events), events, r)
  {
    if events != [] {
      AfterAll(PublicKey, events);
      KnownRounds(electionId, Init(events), r);
      RoundRecords(electionId, Init(events), r);
      RecordsStep(Fold(electionId, Init(events)), Init(events), Last(events), r);
    }
  }

  // ----- title -----

  /** The title is that of the election definition with the greatest key, if there is one. */
  ghost predicate TitleIs(title: Option<string>, events: seq<PublicEvent>) {
    match title
    case None => forall e :: e in events ==> !e.ElectionDefinition?
    case Some(t) =>
      exists e :: e in events && e.ElectionDefinition? && e.election.title == t &&
                  forall f :: f in events && f.ElectionDefinition? ==> KeyLe(PublicKey(f), PublicKey(e))
  }

  lemma TitleStep(title: Option<string>, events: seq<PublicEvent>, e: PublicEvent)
    requires TitleIs(title, events) && Precede(PublicKey, events, e)
    ensures TitleIs(if e.ElectionDefinition? then Some(e.election.title) else title, events + [e])
  {
    var all := events + [e];
    assert forall x :: x in all <==> x in events || x == e;
    KeyOrderIsTotal(PublicKey(e), PublicKey(e), PublicKey(e));
    if e.ElectionDefinition? {
      assert e in all;
    } else if title.Some? {
      var d :| d in events && d.ElectionDefinition? && d.election.title == title.value &&
               forall f :: f in events && f.ElectionDefinition? ==> KeyLe(PublicKey(f), PublicKey(d));
      assert d in all;
    }
  }

  lemma StepTitle(acc: Acc, e: PublicEvent)
    ensures Step(acc, e).electionTitle == if e.ElectionDefinition? then Some(e.election.title) else acc.electionTitle
  {
  }

  lemma {:induction false} LatestTitle(electionId: string, events: seq<PublicEvent>)
    requires Sorted(PublicKey, events)
    ensures TitleIs(Fold(electionId, events).electionTitle, events)
  {
    if events != [] {
      AfterAll(PublicKey, events);
      LatestTitle(electionId, Init(events));
      StepTitle(Fold(electionId, Init(events)), Last(events));
      TitleStep(Fold(electionId, Init(events)).electionTitle, Init(events), Last(events));
    }
  }

  // ----- issues -----

  lemma RanksInOrder(x: PublicEvent, e: PublicEvent)
    requires KeyLe(PublicKey(x), PublicKey(e))
    ensures x.Precedence() <= e.Precedence()
  {
  }

  lemma StraysRankLate(e: PublicEvent, known: set<string>)
    ensures IsStray(e, known) ==> e.Precedence() >= 5
    ensures e.ElectionDefinition? || e.RoundDefinition? || e.RoundOpen? ==> e.Precedence() <= 2
  {
  }

  lemma {:induction false} StraysNeedLateEvents(events: seq<PublicEvent>, e: PublicEvent, known: set<string>)
    requires Precede(PublicKey, events, e) && (e.ElectionDefinition? || e.RoundDefinition? || e.RoundOpen?)
    ensures Strays(events, known) == []
  {
    if events != [] {
      SplitLast(events);
      assert Last(events) in events;
      RanksInOrder(Last(events), e);
      StraysRankLate(Last(events), known);
      StraysRankLate(e, known);
      StraysNeedLateEvents(Init(events), e, known);
    }
  }

  lemma StepIssues(acc: Acc, e: PublicEvent)
    requires e.RoundOpen? && e.open.roundId in acc.rounds ==> acc.rounds[e.open.roundId].closedAt.None?
    ensures Step(acc, e).issues == acc.issues + if IsStray(e, acc.rounds.Keys) then [Stray(e)] else []
    ensures !(e.ElectionDefinition? || e.RoundDefinition? || e.RoundOpen?) ==> Step(acc, e).rounds.Keys == acc.rounds.Keys
  {
  }

  /**
   The issues are exactly those of the strays, judged against the rounds known in the end. No open is
   ever found to contradict a close: every open sorts before every close.
   */
  lemma {:induction false} IssuesAreStrays(electionId: string, events: seq<PublicEvent>)
    requires Sorted(PublicKey, events)
    ensures var acc := Fold(electionId, events);
            acc.issues == Strays(events, acc.rounds.Keys)
  {
    if events != [] {
      AfterAll(PublicKey, events);
      var init, e := Init(events), Last(events);
      var acc := Fold(electionId, init);
      IssuesAreStrays(electionId, init);
      if e.RoundOpen? {
        var r := e.open.roundId;
        RoundPhase(electionId, init, r);
        NoneBefore(init, e, Closes, r);
      }
      StepIssues(acc, e);
      if e.ElectionDefinition? || e.RoundDefinition? || e.RoundOpen? {
        StraysNeedLateEvents(init, e, acc.rounds.Keys);
        StraysNeedLateEvents(init, e, Step(acc, e).rounds.Keys);
      }
    }
  }

  lemma {:induction false} StraysOnlyUnknownRound(events: seq<PublicEvent>, known: set<string>)
    ensures forall i :: 0 <= i < |Strays(events, known)| ==> Strays(events, known)[i].code == UnknownRound
  {
    if events != [] {
      StraysOnlyUnknownRound(Init(events), known);
    }
  }
}
