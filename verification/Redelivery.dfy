/**
 Redelivery is harmless: deriving from a list with repeats and from its de-duplicated log differ only
 in the receipts, disputes and issues a repeat adds, and in the rejections that report the repeats.
 */
module Redelivery {
  import opened Wrappers
  import opened Order
  import opened Sorting
  import opened Events
  import opened Reducer
  import opened DerivedForms
  import C = Convergence
  import PF = PublicClosedForm
  import PS = PublicState
  import BS = BallotState
  import BF = BallotClosedForm

  // ----- rounds without what a repeat adds -----

  /** A round but for the receipts and disputes listed with it. */
  function Core(round: PS.Round): PS.Round {
    round.(receipts := [], disputes := [])
  }

  function Cores(rounds: seq<PS.Round>): (cores: seq<PS.Round>)
    ensures |cores| == |rounds| && forall i :: 0 <= i < |rounds| ==> cores[i] == Core(rounds[i])
  {
    seq(|rounds|, i requires 0 <= i < |rounds| => Core(rounds[i]))
  }

  ghost predicate SameRounds(m: map<string, PS.Round>, n: map<string, PS.Round>) {
    && m.Keys == n.Keys
    && forall r :: r in m ==> Core(m[r]) == Core(n[r])
  }

  /** The two reducers agree but for receipts, disputes and issues. */
  ghost predicate SameCore(a: PS.Acc, b: PS.Acc) {
    a.electionId == b.electionId && a.electionTitle == b.electionTitle && SameRounds(a.rounds, b.rounds)
  }

  lemma SameWrite(m: map<string, PS.Round>, n: map<string, PS.Round>, r: string, x: PS.Round, y: PS.Round)
    requires SameRounds(m, n) && Core(x) == Core(y)
    ensures SameRounds(m[r := x], n[r := y])
  {
  }

  lemma OpenKeepsCore(a: PS.Acc, b: PS.Acc, o: RoundLifecycleEvent)
    requires SameCore(a, b)
    ensures SameCore(PS.OpenStep(a, o), PS.OpenStep(b, o))
  {
    var x, y := PS.Entry(a.rounds, o.roundId, PS.RoundFromOpen(o)), PS.Entry(b.rounds, o.roundId, PS.RoundFromOpen(o));
    assert Core(x) == Core(y);
    assert Core(PS.Opened(x, o)) == PS.Opened(Core(x), o) == PS.Opened(Core(y), o) == Core(PS.Opened(y, o));
    SameWrite(a.rounds, b.rounds, o.roundId, PS.Opened(x, o), PS.Opened(y, o));
  }

  lemma DefinitionKeepsCore(a: PS.Acc, b: PS.Acc, d: RoundDefinitionEvent)
    requires SameCore(a, b)
    ensures SameCore(PS.Step(a, RoundDefinition(d)), PS.Step(b, RoundDefinition(d)))
  {
    var x := PS.Entry(a.rounds, d.roundId, PS.RoundFromDefinition(d));
    var y := PS.Entry(b.rounds, d.roundId, PS.RoundFromDefinition(d));
    assert Core(x) == Core(y);
    assert Core(PS.Redefined(x, d)) == PS.Redefined(Core(x), d) && Core(PS.Redefined(y, d)) == PS.Redefined(Core(y), d);
    SameWrite(a.rounds, b.rounds, d.roundId, PS.Redefined(x, d), PS.Redefined(y, d));
  }

  lemma StepKeepsCore(a: PS.Acc, b: PS.Acc, e: PublicEvent)
    requires SameCore(a, b)
    ensures SameCore(PS.Step(a, e), PS.Step(b, e))
  {
    match e
    case ElectionDefinition(_) =>
    case RoundOpen(o) => OpenKeepsCore(a, b, o);
    case RoundDefinition(d) => DefinitionKeepsCore(a, b, d);
    case _ =>
      var r := Named(e);
      if r.Some? && r.value in a.rounds {
        LateStepCore(a, e, r.value);
        LateStepCore(b, e, r.value);
        SameWrite(a.rounds, b.rounds, r.value, PS.Step(a, e).rounds[r.value], PS.Step(b, e).rounds[r.value]);
      }
  }

  /** The round a close, receipt, result or dispute names. */
  function Named(e: PublicEvent): Option<string> {
    match e
    case RoundClose(c) => Some(c.roundId)
    case BallotReceipt(b) => Some(b.roundId)
    case FinalResult(f) => Some(f.roundId)
    case DisputeRecord(d) => d.roundId
    case _ => None
  }

  /** What such an event does to the core of the round it names depends on that core alone. */
  function LateCore(core: PS.Round, e: PublicEvent): PS.Round {
    match e
    case RoundClose(c) => PS.ClosedBy(core, c)
    case FinalResult(f) => core.(phase := PS.Published, finalResult := Some(PS.ResultOf(f)))
    case DisputeRecord(_) => core.(phase := PS.Disputed)
    case _ => core
  }

  lemma LateStepCore(a: PS.Acc, e: PublicEvent, r: string)
    requires Named(e) == Some(r) && r in a.rounds
    ensures var a' := PS.Step(a, e);
            && a'.electionId == a.electionId && a'.electionTitle == a.electionTitle
            && r in a'.rounds && a'.rounds == a.rounds[r := a'.rounds[r]]
            && Core(a'.rounds[r]) == LateCore(Core(a.rounds[r]), e)
  {
  }

  lemma SameAfterRewrite(m: map<string, PS.Round>, r: string, x: PS.Round, y: PS.Round)
    requires Core(x) == Core(y)
    ensures SameRounds(m[r := x][r := y], m[r := x])
  {
  }

  lemma OpenTwice(a: PS.Acc, o: RoundLifecycleEvent)
    ensures SameCore(PS.OpenStep(PS.OpenStep(a, o), o), PS.OpenStep(a, o))
  {
    var x := PS.Entry(a.rounds, o.roundId, PS.RoundFromOpen(o));
    var y := PS.Opened(x, o);
    assert PS.Opened(y, o) == y;
    SameAfterRewrite(a.rounds, o.roundId, y, y);
  }

  lemma DefineTwice(a: PS.Acc, d: RoundDefinitionEvent)
    ensures var e := RoundDefinition(d); SameCore(PS.Step(PS.Step(a, e), e), PS.Step(a, e))
  {
    var x := PS.Redefined(PS.Entry(a.rounds, d.roundId, PS.RoundFromDefinition(d)), d);
    assert PS.Redefined(x, d) == x;
    SameAfterRewrite(a.rounds, d.roundId, x, x);
  }

  lemma StepTwice(a: PS.Acc, e: PublicEvent)
    ensures SameCore(PS.Step(PS.Step(a, e), e), PS.Step(a, e))
  {
    match e
    case ElectionDefinition(_) =>
    case RoundOpen(o) => OpenTwice(a, o);
    case RoundDefinition(d) => DefineTwice(a, d);
    case _ =>
      var r := Named(e);
      if r.Some? && r.value in a.rounds {
        var once := PS.Step(a, e);
        LateStepCore(a, e, r.value);
        LateStepCore(once, e, r.value);
        SameAfterRewrite(a.rounds, r.value, once.rounds[r.value], PS.Step(once, e).rounds[r.value]);
      }
  }

  /** A repeat in a sorted list stands next to the event it repeats. */
  lemma RepeatIsAdjacent(events: seq<PublicEvent>)
    requires Sorted(PublicKey, events) && IdsIdentify(PublicId, events)
    requires events != [] && PublicId(Last(events)) in Ids(PublicId, Init(events))
    ensures Init(events) != [] && Last(Init(events)) == Last(events)
  {
    var e := Last(events);
    var x := IdsFrom(PublicId, Init(events), PublicId(e));
    var i :| 0 <= i < |events| - 1 && events[i] == x;
    assert x in events && e in events && x == e;
    var y := Last(Init(events));
    assert y == events[|events| - 2] && y in events;
    KeyOrderIsTotal(PublicKey(y), PublicKey(e), PublicKey(y));
    KeyOrderIsTotal(PublicKey(x), PublicKey(x), PublicKey(y));
  }

  lemma SameCoreChains(a: PS.Acc, b: PS.Acc, c: PS.Acc)
    requires SameCore(a, b) && SameCore(b, c)
    ensures SameCore(a, c)
  {
  }

  /** The last event of a sorted list, when it repeats an id, leaves the core as it was. */
  lemma RepeatFolded(electionId: string, events: seq<PublicEvent>)
    requires Sorted(PublicKey, events) && IdsIdentify(PublicId, events)
    requires events != [] && PublicId(Last(events)) in Ids(PublicId, Init(events))
    ensures SameCore(PS.Fold(electionId, Init(events)), PS.Fold(electionId, events))
  {
    var init := Init(events);
    RepeatIsAdjacent(events);
    StepTwice(PS.Fold(electionId, Init(init)), Last(events));
  }

  lemma FirstsLast(events: seq<PublicEvent>)
    requires events != []
    ensures Firsts(PublicId, {}, events) ==
              if PublicId(Last(events)) in Ids(PublicId, Init(events)) then Firsts(PublicId, {}, Init(events))
              else Firsts(PublicId, {}, Init(events)) + [Last(events)]
  {
    assert {} + Ids(PublicId, Init(events)) == Ids(PublicId, Init(events));
    assert Firsts(PublicId, {}, Init(events)) + [] == Firsts(PublicId, {}, Init(events));
  }

  lemma FoldSnoc(electionId: string, events: seq<PublicEvent>, e: PublicEvent)
    ensures PS.Fold(electionId, events + [e]) == PS.Step(PS.Fold(electionId, events), e)
  {
    assert Init(events + [e]) == events && Last(events + [e]) == e;
  }

  /** Folding the events once each gives the same rounds, but for receipts and disputes. */
  lemma {:induction false} PublicRepeats(electionId: string, events: seq<PublicEvent>)
    requires Sorted(PublicKey, events) && IdsIdentify(PublicId, events)
    ensures SameCore(PS.Fold(electionId, Firsts(PublicId, {}, events)), PS.Fold(electionId, events))
  {
    if events != [] {
      var e, firsts := Last(events), Firsts(PublicId, {}, Init(events));
      SplitLast(events);
      PublicRepeats(electionId, Init(events));
      FirstsLast(events);
      if PublicId(e) in Ids(PublicId, Init(events)) {
        RepeatFolded(electionId, events);
        SameCoreChains(PS.Fold(electionId, firsts), PS.Fold(electionId, Init(events)), PS.Fold(electionId, events));
      } else {
        StepKeepsCore(PS.Fold(electionId, firsts), PS.Fold(electionId, Init(events)), e);
        FoldSnoc(electionId, firsts, e);
      }
    }
  }

  // ----- listing and looking up -----

  lemma RoundKeyOfCore(round: PS.Round)
    ensures PS.RoundKey(Core(round)) == PS.RoundKey(round)
  {
  }

  lemma CoresSnoc(rounds: seq<PS.Round>, round: PS.Round)
    ensures Cores(rounds + [round]) == Cores(rounds) + [Core(round)]
  {
  }

  lemma {:induction false} CoresOfInsert(rounds: seq<PS.Round>, round: PS.Round)
    ensures Cores(Insert(PS.RoundKey, rounds, round)) == Insert(PS.RoundKey, Cores(rounds), Core(round))
  {
    RoundKeyOfCore(round);
    if rounds == [] {
    } else {
      var init, last := Init(rounds), Last(rounds);
      RoundKeyOfCore(last);
      SplitLast(rounds);
      CoresSnoc(init, last);
      var cores := Cores(rounds);
      assert Init(cores) == Cores(init) && Last(cores) == Core(last);
      if KeyLe(PS.RoundKey(last), PS.RoundKey(round)) {
        CoresSnoc(rounds, round);
      } else {
        CoresOfInsert(init, round);
        CoresSnoc(Insert(PS.RoundKey, init, round), last);
      }
    }
  }

  lemma {:induction false} CoresOfSort(rounds: seq<PS.Round>)
    ensures Cores(Sort(PS.RoundKey, rounds)) == Sort(PS.RoundKey, Cores(rounds))
  {
    if rounds != [] {
      CoresOfSort(Init(rounds));
      CoresOfInsert(Sort(PS.RoundKey, Init(rounds)), Last(rounds));
      SplitLast(rounds);
      CoresSnoc(Init(rounds), Last(rounds));
      assert Init(Cores(rounds)) == Cores(Init(rounds)) && Last(Cores(rounds)) == Core(Last(rounds));
    }
  }

  lemma CoresOfValues(m: map<string, PS.Round>, n: map<string, PS.Round>, keys: seq<string>)
    requires SameRounds(m, n) && forall k :: k in keys ==> k in m
    ensures Cores(PS.Values(m, keys)) == Cores(PS.Values(n, keys))
  {
    var va, vb := PS.Values(m, keys), PS.Values(n, keys);
    forall i | 0 <= i < |keys| ensures Cores(va)[i] == Cores(vb)[i] {
      assert keys[i] in keys;
    }
  }

  lemma ListedAlike(a: PS.Acc, b: PS.Acc)
    requires SameCore(a, b)
    ensures Cores(PS.Finalize(a).rounds) == Cores(PS.Finalize(b).rounds)
  {
    var keys := Ascending(a.rounds.Keys);
    CoresOfValues(a.rounds, b.rounds, keys);
    CoresOfSort(PS.Values(a.rounds, keys));
    CoresOfSort(PS.Values(b.rounds, keys));
  }

  lemma {:induction false} FindCore(rounds: seq<PS.Round>, r: string)
    ensures PS.Find(Cores(rounds), r) ==
              match PS.Find(rounds, r) { case None => None case Some(round) => Some(Core(round)) }
  {
    if rounds != [] && rounds[0].roundId != r {
      FindCore(rounds[1..], r);
      assert Cores(rounds)[1..] == Cores(rounds[1..]);
    }
  }

  /** The ballot checks look at nothing a repeat adds. */
  lemma ChecksUseCore(b: EncryptedBallotEvent, rounds: seq<PS.Round>)
    ensures BS.Objection(b, Cores(rounds)) == BS.Objection(b, rounds)
  {
    FindCore(rounds, b.roundId);
  }

  lemma {:induction false} BallotsUseCore(events: seq<BallotEvent>, rounds: seq<PS.Round>, rounds': seq<PS.Round>)
    requires Cores(rounds) == Cores(rounds')
    ensures BS.Fold(events, rounds) == BS.Fold(events, rounds')
  {
    if events != [] {
      BallotsUseCore(Init(events), rounds, rounds');
      if Last(events).EncryptedBallot? {
        ChecksUseCore(Last(events).ballot, rounds);
        ChecksUseCore(Last(events).ballot, rounds');
      }
    }
  }

  // ----- de-duplicating the log de-duplicates each plane -----

  lemma PublicSeen(init: seq<ProtocolEvent>, p: PublicEvent)
    requires IdsIdentify(EventId, init + [Public(p)])
    ensures PublicId(p) in Ids(EventId, init) <==> PublicId(p) in Ids(PublicId, PublicsOf(init))
  {
    assert Public(p) in init + [Public(p)];
    if PublicId(p) in Ids(EventId, init) {
      var x := IdsFrom(EventId, init, PublicId(p));
      assert x in init + [Public(p)] && x == Public(p);
      PublicsOfHas(init, p);
      IdsHas(PublicId, PublicsOf(init), p);
    }
    if PublicId(p) in Ids(PublicId, PublicsOf(init)) {
      var q := IdsFrom(PublicId, PublicsOf(init), PublicId(p));
      PublicsOfHas(init, q);
      IdsHas(EventId, init, Public(q));
    }
  }

  lemma BallotSeen(init: seq<ProtocolEvent>, b: BallotEvent)
    requires IdsIdentify(EventId, init + [Ballot(b)])
    ensures BallotId(b) in Ids(EventId, init) <==> BallotId(b) in Ids(BallotId, BallotsOf(init))
  {
    assert Ballot(b) in init + [Ballot(b)];
    if BallotId(b) in Ids(EventId, init) {
      var x := IdsFrom(EventId, init, BallotId(b));
      assert x in init + [Ballot(b)] && x == Ballot(b);
      BallotsOfHas(init, b);
      IdsHas(BallotId, BallotsOf(init), b);
    }
    if BallotId(b) in Ids(BallotId, BallotsOf(init)) {
      var c := IdsFrom(BallotId, BallotsOf(init), BallotId(b));
      BallotsOfHas(init, c);
      IdsHas(EventId, init, Ballot(c));
    }
  }

  lemma FirstsSnoc<T>(id: T -> string, xs: seq<T>, x: T)
    ensures Firsts(id, {}, xs + [x]) == Firsts(id, {}, xs) + if id(x) in Ids(id, xs) then [] else [x]
  {
    assert Init(xs + [x]) == xs && Last(xs + [x]) == x;
    assert {} + Ids(id, xs) == Ids(id, xs);
  }

  lemma {:induction false} FirstsOfPublics(events: seq<ProtocolEvent>)
    requires IdsIdentify(EventId, events)
    ensures PublicsOf(Firsts(EventId, {}, events)) == Firsts(PublicId, {}, PublicsOf(events))
  {
    if events != [] {
      SplitLast(events);
      var init, e := Init(events), Last(events);
      FirstsOfPublics(init);
      FirstsSnoc(EventId, init, e);
      ProjectSnoc(Firsts(EventId, {}, init), e);
      ProjectSnoc(init, e);
      if e.Public? {
        PublicSeen(init, e.publicEvent);
        FirstsSnoc(PublicId, PublicsOf(init), e.publicEvent);
      } else {
        assert PublicsOf(events) == PublicsOf(init);
      }
      assert Firsts(EventId, {}, init) + [] == Firsts(EventId, {}, init);
    }
  }

  lemma {:induction false} FirstsOfBallots(events: seq<ProtocolEvent>)
    requires IdsIdentify(EventId, events)
    ensures BallotsOf(Firsts(EventId, {}, events)) == Firsts(BallotId, {}, BallotsOf(events))
  {
    if events != [] {
      SplitLast(events);
      var init, e := Init(events), Last(events);
      FirstsOfBallots(init);
      FirstsSnoc(EventId, init, e);
      ProjectSnoc(Firsts(EventId, {}, init), e);
      ProjectSnoc(init, e);
      if e.Ballot? {
        BallotSeen(init, e.ballotEvent);
        FirstsSnoc(BallotId, BallotsOf(init), e.ballotEvent);
      } else {
        assert BallotsOf(events) == BallotsOf(init);
      }
      assert Firsts(EventId, {}, init) + [] == Firsts(EventId, {}, init);
    }
  }

  lemma PlanesOfLog(events: seq<ProtocolEvent>)
    requires IdsIdentify(EventId, events)
    ensures PublicsOf(LogOf(events)) == Firsts(PublicId, {}, SortedPublics(events))
    ensures BallotsOf(LogOf(events)) == Firsts(BallotId, {}, SortedBallots(events))
    ensures SortedPublics(LogOf(events)) == Firsts(PublicId, {}, SortedPublics(events))
    ensures SortedBallots(LogOf(events)) == Firsts(BallotId, {}, SortedBallots(events))
  {
    PlanesSortApart(events);
    SortElements(EventKey, events);
    FirstsOfPublics(Sort(EventKey, events));
    FirstsOfBallots(Sort(EventKey, events));
    C.LogStrict(events);
    SortOfSorted(EventKey, LogOf(events));
    PlanesSortApart(LogOf(events));
  }

  lemma PublicIdsIdentify(events: seq<ProtocolEvent>)
    requires IdsIdentify(EventId, events)
    ensures IdsIdentify(PublicId, SortedPublics(events))
  {
    SortElements(PublicKey, PublicsOf(events));
    forall p, q | p in PublicsOf(events) && q in PublicsOf(events) && PublicId(p) == PublicId(q) ensures p == q {
      PublicsOfHas(events, p);
      PublicsOfHas(events, q);
      assert EventId(Public(p)) == EventId(Public(q));
    }
  }

  /** Title and rounds agree: phases, times, prompts, thresholds, rosters, results, and their listing order. */
  lemma RoundsSurviveRedelivery(electionId: string, events: seq<ProtocolEvent>)
    requires IdsIdentify(EventId, events)
    ensures var full, once := PublicStateOf(electionId, events), PublicStateOf(electionId, LogOf(events));
            && full.electionTitle == once.electionTitle
            && Cores(full.rounds) == Cores(once.rounds)
  {
    var sorted := SortedPublics(events);
    PlanesSorted(events);
    PlanesOfLog(events);
    PublicIdsIdentify(events);
    PublicRepeats(electionId, sorted);
    ListedAlike(PS.Fold(electionId, sorted), PS.Fold(electionId, Firsts(PublicId, {}, sorted)));
  }

  /**
   What a repeat does add: the full list's receipts, disputes and issues are those of all sorted deliveries,
   the log's are those of the first delivery of each id, by the same rule and for the same known rounds.
   */
  lemma RepeatsListAgain(electionId: string, events: seq<ProtocolEvent>, r: string)
    requires IdsIdentify(EventId, events)
    ensures var full, once := PublicStateOf(electionId, events), PublicStateOf(electionId, LogOf(events));
            var all, firsts := SortedPublics(events), Firsts(PublicId, {}, SortedPublics(events));
            && KnownIds(once) == KnownIds(full)
            && full.issues == PF.Strays(all, KnownIds(full)) && once.issues == PF.Strays(firsts, KnownIds(full))
            && (RoundIn(once, r).Some? <==> RoundIn(full, r).Some?)
            && (RoundIn(full, r).Some? ==>
                  && RoundIn(full, r).value.receipts == PF.ReceiptsIn(all, r)
                  && RoundIn(once, r).value.receipts == PF.ReceiptsIn(firsts, r)
                  && RoundIn(full, r).value.disputes == PF.DisputesIn(all, r)
                  && RoundIn(once, r).value.disputes == PF.DisputesIn(firsts, r))
  {
    var all := SortedPublics(events);
    var firsts := Firsts(PublicId, {}, all);
    PlanesSorted(events);
    PlanesOfLog(events);
    PublicIdsIdentify(events);
    PublicRepeats(electionId, all);
    PS.FoldFiled(electionId, all);
    PS.FoldFiled(electionId, firsts);
    KnownIdsAreKeys(PS.Fold(electionId, all));
    KnownIdsAreKeys(PS.Fold(electionId, firsts));
    OnlyStrayIssues(electionId, events);
    OnlyStrayIssues(electionId, LogOf(events));
    RoundFromFold(electionId, events, r);
    RoundFromFold(electionId, LogOf(events), r);
    RoundLists(electionId, events, r);
    RoundLists(electionId, LogOf(events), r);
  }

  /**
   The accepted ballots and their receipts agree, and the rejections differ only by those that report a
   repeated delivery, of which there are as many as ballot deliveries beyond the distinct ballot ids.
   */
  lemma BallotsSurviveRedelivery(electionId: string, events: seq<ProtocolEvent>)
    requires IdsIdentify(EventId, events)
    ensures var full, once := BallotStateOf(electionId, events), BallotStateOf(electionId, LogOf(events));
            && once.accepted == full.accepted
            && once.receipts == full.receipts
            && once.rejected == BF.Genuine(full.rejected)
            && BF.Duplicates(once.rejected) == 0
            && BF.Duplicates(full.rejected) ==
                 |BF.Encrypted(BallotsOf(events))| - |Ids(BallotId, BF.Encrypted(BallotsOf(events)))|
  {
    var rounds := PublicStateOf(electionId, events).rounds;
    var rounds' := PublicStateOf(electionId, LogOf(events)).rounds;
    var sorted := SortedBallots(events);
    PlanesSorted(events);
    PlanesOfLog(events);
    RoundsSurviveRedelivery(electionId, events);
    BallotIdsIdentify(events);
    BallotsUseCore(Firsts(BallotId, {}, sorted), rounds', rounds);
    BF.RepeatsOnlyReject(sorted, rounds);
    BF.EveryDeliveryRecorded(sorted, rounds, "");
    BF.SeenIds(sorted, rounds);
    SortedCounts(BallotsOf(events), "", "");
    SortedEncryptedIds(events);
  }

  lemma RoundsNamedAlike(electionId: string, events: seq<ProtocolEvent>)
    requires IdsIdentify(EventId, events)
    ensures var full, once := BallotStateOf(electionId, events), BallotStateOf(electionId, LogOf(events));
            BS.RoundsNamed(once.accepted, once.rejected) == BS.RoundsNamed(full.accepted, full.rejected)
  {
    var full, once := BallotStateOf(electionId, events), BallotStateOf(electionId, LogOf(events));
    var sorted, firsts := SortedBallots(events), SortedBallots(LogOf(events));
    PlanesOfLog(events);
    BallotIdsIdentify(events);
    forall b ensures b in firsts <==> b in sorted {
      FirstsHas(BallotId, {}, sorted, b);
    }
    forall r ensures r in BS.RoundsNamed(once.accepted, once.rejected) <==> r in BS.RoundsNamed(full.accepted, full.rejected) {
      BF.NamedInside(sorted, PublicStateOf(electionId, events).rounds, r);
      BF.NamedInside(firsts, PublicStateOf(electionId, LogOf(events)).rounds, r);
      assert BF.RoundNamed(firsts, r) <==> BF.RoundNamed(sorted, r);
    }
  }

  /**
   The summaries are of the same rounds in the same order, with the same accepted, yes and no counts; the
   rejected counts differ by as many deliveries as the log drops in the round.
   */
  lemma SummariesSurviveRedelivery(electionId: string, events: seq<ProtocolEvent>, i: nat)
    requires IdsIdentify(EventId, events)
    ensures var full, once := BallotStateOf(electionId, events).summaries, BallotStateOf(electionId, LogOf(events)).summaries;
            && |once| == |full|
            && (i < |full| ==>
                  var s, t := full[i], once[i];
                  && t.roundId == s.roundId
                  && t.acceptedCount == s.acceptedCount && t.yesCount == s.yesCount && t.noCount == s.noCount
                  && s.rejectedCount - t.rejectedCount ==
                       BF.DeliveriesIn(BallotsOf(events), s.roundId) - BF.DeliveriesIn(BallotsOf(LogOf(events)), s.roundId))
  {
    var full, once := BallotStateOf(electionId, events), BallotStateOf(electionId, LogOf(events));
    var accFull := BS.Fold(SortedBallots(events), PublicStateOf(electionId, events).rounds);
    var accOnce := BS.Fold(SortedBallots(LogOf(events)), PublicStateOf(electionId, LogOf(events)).rounds);
    BallotsSurviveRedelivery(electionId, events);
    RoundsNamedAlike(electionId, events);
    var keys := Ascending(BS.RoundsNamed(full.accepted, full.rejected));
    BF.SummariesListed(accFull, keys, i);
    BF.SummariesListed(accOnce, keys, i);
    if i < |full.summaries| {
      SummariesInBalance(electionId, events, i);
      SummariesInBalance(electionId, LogOf(events), i);
    }
  }

  // ----- coordinator events -----

  function CoordinatorsOf(events: seq<ProtocolEvent>): seq<ProtocolEvent> {
    if events == [] then [] else CoordinatorsOf(Init(events)) + if Last(events).Coordinator? then [Last(events)] else []
  }

  lemma {:induction false} CoordinatorsHave(events: seq<ProtocolEvent>, e: ProtocolEvent)
    ensures e in CoordinatorsOf(events) <==> e in events && e.Coordinator?
  {
    if events != [] {
      SplitLast(events);
      CoordinatorsHave(Init(events), e);
    }
  }

  lemma CoordinatorSeen(init: seq<ProtocolEvent>, e: ProtocolEvent)
    requires IdsIdentify(EventId, init + [e]) && e.Coordinator?
    ensures EventId(e) in Ids(EventId, init) <==> EventId(e) in Ids(EventId, CoordinatorsOf(init))
  {
    assert e in init + [e];
    if EventId(e) in Ids(EventId, init) {
      var x := IdsFrom(EventId, init, EventId(e));
      assert x in init + [e] && x == e;
      CoordinatorsHave(init, e);
      IdsHas(EventId, CoordinatorsOf(init), e);
    }
    if EventId(e) in Ids(EventId, CoordinatorsOf(init)) {
      var x := IdsFrom(EventId, CoordinatorsOf(init), EventId(e));
      CoordinatorsHave(init, x);
      IdsHas(EventId, init, x);
    }
  }

  lemma IdsOfCoordinators(init: seq<ProtocolEvent>, e: ProtocolEvent)
    ensures Ids(EventId, CoordinatorsOf(init + [e])) ==
              Ids(EventId, CoordinatorsOf(init)) + if e.Coordinator? then {EventId(e)} else {}
  {
    assert Init(init + [e]) == init && Last(init + [e]) == e;
    var before := CoordinatorsOf(init);
    if e.Coordinator? {
      assert Init(before + [e]) == before && Last(before + [e]) == e;
    } else {
      assert before + [] == before;
    }
  }

  lemma CountOfFirsts(init: seq<ProtocolEvent>, e: ProtocolEvent)
    ensures CoordinatorCount(Firsts(EventId, {}, init + [e])) ==
              CoordinatorCount(Firsts(EventId, {}, init)) + if e.Coordinator? && EventId(e) !in Ids(EventId, init) then 1 else 0
  {
    var firsts := Firsts(EventId, {}, init);
    FirstsSnoc(EventId, init, e);
    ProjectSnoc(firsts, e);
    assert firsts + [] == firsts;
  }

  lemma OneMoreId(ids: set<string>, id: string)
    ensures |ids + {id}| == |ids| + if id in ids then 0 else 1
  {
    if id in ids {
      assert ids + {id} == ids;
    }
  }

  lemma {:induction false} CoordinatorsOnce(events: seq<ProtocolEvent>)
    requires IdsIdentify(EventId, events)
    ensures CoordinatorCount(Firsts(EventId, {}, events)) == |Ids(EventId, CoordinatorsOf(events))|
  {
    if events != [] {
      var init, e := Init(events), Last(events);
      SplitLast(events);
      CoordinatorsOnce(init);
      CountOfFirsts(init, e);
      IdsOfCoordinators(init, e);
      if e.Coordinator? {
        CoordinatorSeen(init, e);
        OneMoreId(Ids(EventId, CoordinatorsOf(init)), EventId(e));
      }
    }
  }

  lemma SortedCoordinatorIds(events: seq<ProtocolEvent>)
    ensures Ids(EventId, CoordinatorsOf(Sort(EventKey, events))) == Ids(EventId, CoordinatorsOf(events))
  {
    var a, b := CoordinatorsOf(Sort(EventKey, events)), CoordinatorsOf(events);
    forall e ensures e in a <==> e in b {
      CoordinatorsHave(Sort(EventKey, events), e);
      CoordinatorsHave(events, e);
      SortElements(EventKey, events);
    }
    SameIds(EventId, a, b);
    SameIds(EventId, b, a);
  }

  lemma SortIdsIdentify(events: seq<ProtocolEvent>)
    requires IdsIdentify(EventId, events)
    ensures IdsIdentify(EventId, Sort(EventKey, events))
  {
    SortElements(EventKey, events);
  }

  /** The list with repeats counts every delivery of a coordinator event, its log every id of one. */
  lemma CoordinatorsSurviveRedelivery(events: seq<ProtocolEvent>)
    requires IdsIdentify(EventId, events)
    ensures CoordinatorCount(events) == |CoordinatorsOf(events)|
    ensures CoordinatorCount(LogOf(events)) == |Ids(EventId, CoordinatorsOf(events))|
  {
    CoordinatorsListed(events);
    SortIdsIdentify(events);
    CoordinatorsOnce(Sort(EventKey, events));
    SortedCoordinatorIds(events);
  }

  lemma {:induction false} CoordinatorsListed(events: seq<ProtocolEvent>)
    ensures CoordinatorCount(events) == |CoordinatorsOf(events)|
  {
    if events != [] {
      CoordinatorsListed(Init(events));
    }
  }

  lemma SortedEncryptedIds(events: seq<ProtocolEvent>)
    ensures Ids(BallotId, BF.Encrypted(SortedBallots(events))) == Ids(BallotId, BF.Encrypted(BallotsOf(events)))
  {
    var a, b := BF.Encrypted(SortedBallots(events)), BF.Encrypted(BallotsOf(events));
    SortElements(BallotKey, BallotsOf(events));
    forall x ensures x in a <==> x in b {
      BF.EncryptedHas(SortedBallots(events), x);
      BF.EncryptedHas(BallotsOf(events), x);
    }
    SameIds(BallotId, a, b);
    SameIds(BallotId, b, a);
  }
}
