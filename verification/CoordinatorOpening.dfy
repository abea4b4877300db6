/** When a round opens: unanimity where rosters and senders are as they should be, and the exact rule otherwise. */
module CoordinatorOpening {
  import opened Wrappers
  import opened Order
  import opened Sorting
  import opened CoordinatorMessages
  import opened CoordinatorState
  import opened CoordinatorReplay
  import opened CoordinatorBatch
  import opened CoordinatorEngine
  import opened CoordinatorSteps

  /**
   `e` is as it should be for round `r` of the election with roster `names`: a draft or proposal carries
   that roster, a commit comes from a member of it.
   */
  predicate Complies(e: Envelope, electionId: string, r: string, names: seq<string>) {
    e.electionId == electionId && e.roundId == Some(r) ==>
      match e.payload
      case RoundDraft(_, _, _, roster) => NormaliseRoster(roster) == names
      case RoundOpenProposal(_, _, _, roster) => NormaliseRoster(roster) == names
      case RoundOpenCommit(_) => e.senderPubkey in names
      case _ => true
  }

  /** A roster in normal form, with someone on it. */
  ghost predicate ProperRoster(names: seq<string>) {
    names != [] && StrictlySorted(NameKey, names)
  }

  /** The record has this roster or none yet, only members have committed, and if it is open all have. */
  ghost predicate Unanimous(s: Shape, names: seq<string>) {
    && (s.roster == names || (s.roster == [] && s.proposalEventId.None?))
    && s.committers <= NameSet(names)
    && (s.phase == Open ==> s.committers == NameSet(names) && s.roster == names)
  }

  lemma UnanimousStep(s: Shape, o: Ordered, r: string, names: seq<string>)
    requires ProperRoster(names) && Unanimous(s, names)
    requires Complies(o.envelope, o.envelope.electionId, r, names) && o.envelope.roundId == Some(r)
    ensures Unanimous(ShapeStep(s, o), names)
  {
    if o.envelope.payload.RoundOpenCommit? {
      var committers := CommittersStep(s.proposalEventId, s.committers, o);
      assert committers <= NameSet(names);
      SubsetSize(committers, NameSet(names));
      StrictSetSize(names);
    }
  }

  ghost predicate UnanimousIn(st: Control, r: string, names: seq<string>) {
    r in st.rounds ==> Unanimous(ShapeOf(st.rounds[r]), names)
  }

  lemma UnanimousApply(st: Control, o: Ordered, r: string, names: seq<string>)
    requires ProperRoster(names) && UnanimousIn(st, r, names) && Complies(o.envelope, st.electionId, r, names)
    ensures UnanimousIn(Apply(st, OrderedId(o), o.envelope), r, names)
  {
    if Counts(st, o) && o.envelope.roundId == Some(r) {
      var before := RecordOf(st.rounds, r);
      assert Unanimous(ShapeOf(before), names);
      ApplyShape(st, o, r);
      UnanimousStep(ShapeOf(before), o, r, names);
    }
  }

  lemma {:induction false} UnanimousAll(st: Control, events: seq<Ordered>, r: string, names: seq<string>)
    requires ProperRoster(names) && UnanimousIn(st, r, names)
    requires forall o :: o in events ==> Complies(o.envelope, st.electionId, r, names)
    ensures UnanimousIn(ApplyAll(st, events), r, names)
  {
    if events != [] {
      SplitLast(events);
      assert forall o :: o in Init(events) ==> o in events;
      UnanimousAll(st, Init(events), r, names);
      assert Last(events) in events;
      ProcessedAfter(st, Init(events));
      UnanimousApply(ApplyAll(st, Init(events)), Last(events), r, names);
    }
  }

  lemma {:induction false} AscendingIsRoster(names: seq<string>)
    requires StrictlySorted(NameKey, names)
    ensures Ascending(NameSet(names)) == names
  {
    var listed := Ascending(NameSet(names));
    AscendingSorted(NameSet(names));
    forall i, j | 0 <= i < j < |listed| ensures KeyLt(NameKey(listed[i]), NameKey(listed[j])) {
      KeyOrderIsTotal(NameKey(listed[i]), NameKey(listed[j]), NameKey(listed[i]));
      assert KeyLe(NameKey(listed[i]), NameKey(listed[j]));
    }
    StrictlySortedUnique(NameKey, listed, names);
  }

  /** Of an open round the view shows the whole roster as committers, and nobody missing. */
  lemma OpenViewIsComplete(round: RoundRecord, names: seq<string>)
    requires ProperRoster(names) && Unanimous(ShapeOf(round), names) && round.phase == Open
    ensures ViewOf(round).openCommitters == names && ViewOf(round).missingOpenCommitters == []
  {
    AscendingIsRoster(names);
    assert forall name :: name in round.roster ==> name in round.openCommits.Keys;
    NobodyMissing(round.roster, round.openCommits);
  }

  lemma {:induction false} NobodyMissing(roster: seq<string>, commits: map<string, string>)
    requires forall name :: name in roster ==> name in commits.Keys
    ensures Missing(roster, commits) == []
  {
    if roster != [] {
      SplitLast(roster);
      assert Last(roster) in roster;
      NobodyMissing(Init(roster), commits);
    }
  }

  // ----- the rule as it is -----

  /** Roster members who have not committed. */
  function MissingMembers(s: Shape): set<string> {
    NameSet(s.roster) - s.committers
  }

  /** Committers who are not on the roster. */
  function Outsiders(s: Shape): set<string> {
    s.committers - NameSet(s.roster)
  }

  /** What unanimity asks of a record: if it is open, no member is missing. */
  ghost predicate OpenMeansAll(s: Shape) {
    s.phase == Open ==> MissingMembers(s) == {}
  }

  /**
   The steps that break it. A commit to the current proposal does when members are still missing after it
   and outsiders, the sender counted if it is one, are at least as many. A draft does when it reaches an open
   round with a roster that not all have committed of.
   */
  predicate Breaks(s: Shape, o: Ordered) {
    var sender := o.envelope.senderPubkey;
    match o.envelope.payload
    case RoundDraft(_, _, _, roster) => s.phase == Open && !(NameSet(NormaliseRoster(roster)) <= s.committers)
    case RoundOpenCommit(id) =>
      && s.proposalEventId == Some(id)
      && MissingMembers(s) - {sender} != {}
      && |Outsiders(s) + ({sender} - NameSet(s.roster))| >= |MissingMembers(s) - {sender}|
    case _ => false
  }

  lemma NoneLeft<T>(a: set<T>, b: set<T>)
    ensures a - b == {} <==> a <= b
  {
    if a - b == {} {
      forall x | x in a ensures x in b {
        assert x in a - b || x in b;
      }
    }
  }

  lemma CoverSizes(members: set<string>, committers: set<string>, sender: string)
    ensures |committers + {sender}| >= |members| <==>
              |(committers - members) + ({sender} - members)| >= |members - committers - {sender}|
  {
    var after := committers + {sender};
    var present := members * after;
    var outside, missing := (committers - members) + ({sender} - members), members - committers - {sender};
    assert after == present + outside && present !! outside;
    assert members == present + missing && present !! missing;
  }

  /** A commit that leaves members missing opens the round exactly when outsiders are at least as many. */
  lemma OutsidersCoverMissing(s: Shape, sender: string)
    requires StrictlySorted(NameKey, s.roster) && MissingMembers(s) - {sender} != {}
    ensures |s.committers + {sender}| >= Expected(s.roster) <==>
              |Outsiders(s) + ({sender} - NameSet(s.roster))| >= |MissingMembers(s) - {sender}|
  {
    CoverSizes(NameSet(s.roster), s.committers, sender);
    StrictSetSize(s.roster);
    var name :| name in MissingMembers(s) - {sender};
    assert name in s.roster;
  }

  lemma ProposalShape(s: Shape, o: Ordered, names: seq<string>)
    requires o.envelope.payload.RoundOpenProposal? && NormaliseRoster(o.envelope.payload.roster) == names
    ensures ShapeStep(s, o) == s.(roster := names, proposalEventId := Some(OrderedId(o)), phase := OpenProposed)
  {
  }

  lemma DraftShape(s: Shape, o: Ordered, names: seq<string>)
    requires o.envelope.payload.RoundDraft? && NormaliseRoster(o.envelope.payload.roster) == names
    ensures ShapeStep(s, o) == s.(roster := names)
  {
  }

  lemma CommitStepShape(s: Shape, o: Ordered, committers: set<string>)
    requires o.envelope.payload.RoundOpenCommit? && s.proposalEventId == Some(o.envelope.payload.proposalEventId)
    requires committers == s.committers + {o.envelope.senderPubkey}
    ensures ShapeStep(s, o) ==
              s.(committers := committers, phase := if |committers| >= Expected(s.roster) then Open else s.phase)
  {
  }

  lemma OtherCommitShape(s: Shape, o: Ordered)
    requires o.envelope.payload.RoundOpenCommit? && s.proposalEventId != Some(o.envelope.payload.proposalEventId)
    ensures ShapeStep(s, o) == s
  {
  }

  lemma CommitBreaks(s: Shape, o: Ordered)
    requires StrictlySorted(NameKey, s.roster) && OpenMeansAll(s) && o.envelope.payload.RoundOpenCommit?
    ensures !OpenMeansAll(ShapeStep(s, o)) <==> Breaks(s, o)
  {
    var sender := o.envelope.senderPubkey;
    if s.proposalEventId != Some(o.envelope.payload.proposalEventId) {
      OtherCommitShape(s, o);
    } else {
      CommitStepShape(s, o, s.committers + {sender});
      var left := MissingMembers(s) - {sender};
      assert NameSet(s.roster) - (s.committers + {sender}) == left;
      if left != {} {
        OutsidersCoverMissing(s, sender);
      }
    }
  }

  lemma DraftBreaks(s: Shape, o: Ordered)
    requires OpenMeansAll(s) && o.envelope.payload.RoundDraft?
    ensures !OpenMeansAll(ShapeStep(s, o)) <==> Breaks(s, o)
  {
    NoneLeft(NameSet(NormaliseRoster(o.envelope.payload.roster)), s.committers);
  }

  /** On any record, with any transition, unanimity is lost exactly when the step is one of those. */
  lemma UnanimityLostIff(s: Shape, o: Ordered)
    requires StrictlySorted(NameKey, s.roster) && OpenMeansAll(s)
    ensures !OpenMeansAll(ShapeStep(s, o)) <==> Breaks(s, o)
  {
    match o.envelope.payload
    case RoundOpenCommit(_) => CommitBreaks(s, o);
    case RoundDraft(_, _, _, _) => DraftBreaks(s, o);
    case _ =>
  }

  // ----- over a sequence of envelopes -----

  /** The round's roster is in normal form, as every transition leaves it, and if it is open nobody is missing. */
  ghost predicate GoodIn(st: Control, r: string) {
    r in st.rounds ==> StrictlySorted(NameKey, st.rounds[r].roster) && OpenMeansAll(ShapeOf(st.rounds[r]))
  }

  /** `o` takes effect on round `r` and breaks its unanimity. */
  predicate BreaksIn(st: Control, o: Ordered, r: string) {
    Counts(st, o) && o.envelope.roundId == Some(r) && Breaks(ShapeOf(RecordOf(st.rounds, r)), o)
  }

  lemma StepRosterNormal(s: Shape, o: Ordered)
    requires StrictlySorted(NameKey, s.roster)
    ensures StrictlySorted(NameKey, ShapeStep(s, o).roster)
  {
    if Sets(o) {
      RosterNormalForm(o.envelope.payload.roster);
    }
  }

  lemma ApplyBreaksIff(st: Control, o: Ordered, r: string)
    requires GoodIn(st, r)
    ensures GoodIn(Apply(st, OrderedId(o), o.envelope), r) <==> !BreaksIn(st, o, r)
  {
    if Counts(st, o) && o.envelope.roundId == Some(r) {
      var s := ShapeOf(RecordOf(st.rounds, r));
      ApplyShape(st, o, r);
      StepRosterNormal(s, o);
      UnanimityLostIff(s, o);
    }
  }

  ghost function Good(r: string): Control -> bool {
    (st: Control) => GoodIn(st, r)
  }

  function BreaksRound(r: string): (Control, Ordered) -> bool {
    (st: Control, o: Ordered) => BreaksIn(st, o, r)
  }

  lemma UnanimityDecided(r: string, o: Ordered)
    ensures Decides(Good(r), BreaksRound(r), o)
  {
    forall st | GoodIn(st, r) ensures GoodIn(Apply(st, OrderedId(o), o.envelope), r) <==> !BreaksIn(st, o, r) {
      ApplyBreaksIff(st, o, r);
    }
  }

  /** Whatever the order of the events, the round is unanimous all along iff no step breaks it. */
  lemma GoodThroughoutIff(st: Control, events: seq<Ordered>, r: string)
    requires GoodIn(st, r)
    ensures Throughout(st, events, Good(r)) <==> !Somewhere(st, events, BreaksRound(r))
  {
    forall o | o in events ensures Decides(Good(r), BreaksRound(r), o) {
      UnanimityDecided(r, o);
    }
    KeptIff(st, events, Good(r), BreaksRound(r));
  }

  /** In a good state the view of an open round misses nobody. */
  lemma GoodViewMissesNobody(st: Control, r: string)
    requires GoodIn(st, r) && r in st.rounds && st.rounds[r].phase == Open
    ensures ViewOf(st.rounds[r]).missingOpenCommitters == []
  {
    var round := st.rounds[r];
    NoneLeft(NameSet(round.roster), round.openCommits.Keys);
    assert forall name :: name in round.roster ==> name in NameSet(round.roster);
    NobodyMissing(round.roster, round.openCommits);
  }

  // ----- inputs that break it -----

  lemma Letters()
    ensures KeyLt(NameKey("a"), NameKey("b")) && !Blank("a") && !Blank("b")
  {
    assert CompareStrings("a", "b").Less?;
    assert !IsWhitespace("a"[0]) && !IsWhitespace("b"[0]);
  }

  lemma NormalAlready(names: seq<string>)
    requires StrictlySorted(NameKey, names) && forall name :: name in names ==> !Blank(name)
    ensures NormaliseRoster(names) == names
  {
    RosterNormalForm(names);
    StrictlySortedUnique(NameKey, NormaliseRoster(names), names);
  }

  lemma NormalPair()
    ensures NormaliseRoster(["a", "b"]) == ["a", "b"] && NormaliseRoster(["a"]) == ["a"]
  {
    Letters();
    NormalAlready(["a", "b"]);
    NormalAlready(["a"]);
  }

  function Sample(st: Control, r: string, id: string, sender: string, payload: Payload): Ordered {
    Ordered(Transport(id, "", None), Envelope(1, st.electionId, Some(r), 0, sender, None, payload))
  }

  /** A state that knows nothing of round `r` nor of the sample ids. */
  predicate Unaware(st: Control, r: string) {
    r !in st.rounds && "p" !in st.processed && "q" !in st.processed && "c" !in st.processed && "d" !in st.processed &&
    "e" !in st.processed
  }

  lemma ThreeSteps(st: Control, x: Ordered, y: Ordered, z: Ordered)
    ensures ApplyAll(st, [x, y, z]) ==
              Apply(Apply(Apply(st, OrderedId(x), x.envelope), OrderedId(y), y.envelope), OrderedId(z), z.envelope)
  {
    assert Init([x, y, z]) == [x, y] && Init([x, y]) == [x] && Init([x]) == [];
    assert ApplyAll(st, [x]) == Apply(ApplyAll(st, []), OrderedId(x), x.envelope);
    assert ApplyAll(st, [x, y]) == Apply(ApplyAll(st, [x]), OrderedId(y), y.envelope);
  }

  /** Two events of one round that both count: the second finds what the first left. */
  lemma TwoMore(st: Control, r: string, x: Ordered, y: Ordered)
    requires Counts(st, x) && Counts(st, y) && OrderedId(x) != OrderedId(y)
    requires x.envelope.roundId == y.envelope.roundId == Some(r)
    ensures var after := Apply(Apply(st, OrderedId(x), x.envelope), OrderedId(y), y.envelope);
            && r in after.rounds && after.electionId == st.electionId
            && after.processed == st.processed + {OrderedId(x), OrderedId(y)}
            && ShapeOf(after.rounds[r]) == ShapeStep(ShapeStep(ShapeOf(RecordOf(st.rounds, r)), x), y)
  {
    var one := Apply(st, OrderedId(x), x.envelope);
    ApplyShape(st, x, r);
    assert RecordOf(one.rounds, r) == one.rounds[r] && Counts(one, y);
    ApplyShape(one, y, r);
  }

  /** Three events of a round the state does not know, each taking effect in turn. */
  lemma ThreeShapes(st: Control, r: string, x: Ordered, y: Ordered, z: Ordered)
    requires r !in st.rounds && Counts(st, x) && Counts(st, y) && Counts(st, z)
    requires x.envelope.roundId == y.envelope.roundId == z.envelope.roundId == Some(r)
    requires OrderedId(x) != OrderedId(y) && OrderedId(x) != OrderedId(z) && OrderedId(y) != OrderedId(z)
    ensures var after := ApplyAll(st, [x, y, z]);
            && r in after.rounds && after.electionId == st.electionId
            && after.processed == st.processed + {OrderedId(x), OrderedId(y), OrderedId(z)}
            && ShapeOf(after.rounds[r]) == ShapeStep(ShapeStep(ShapeStep(FRESH, x), y), z)
  {
    assert ShapeOf(RecordOf(st.rounds, r)) == FRESH;
    TwoMore(st, r, x, y);
    ApplyShape(Apply(Apply(st, OrderedId(x), x.envelope), OrderedId(y), y.envelope), z, r);
    ThreeSteps(st, x, y, z);
  }

  /** A proposal on a roster of two, then two commits to it, whoever from. */
  lemma ProposedAndOpened(p: Ordered, c: Ordered, d: Ordered, names: seq<string>, x: string, y: string)
    requires p.envelope.payload.RoundOpenProposal? && NormaliseRoster(p.envelope.payload.roster) == names && |names| == 2
    requires c.envelope.payload == d.envelope.payload == RoundOpenCommit(OrderedId(p))
    requires c.envelope.senderPubkey == x != d.envelope.senderPubkey == y
    ensures ShapeStep(ShapeStep(ShapeStep(FRESH, p), c), d) == Shape(names, Some(OrderedId(p)), {x, y}, {}, {}, Open)
  {
    var proposed := Shape(names, Some(OrderedId(p)), {}, {}, {}, OpenProposed);
    ProposalShape(FRESH, p, names);
    CommitStepShape(proposed, c, {x});
    CommitStepShape(proposed.(committers := {x}), d, {x, y});
  }

  /** A proposal on a roster of one, a commit to it, and a draft with another roster. */
  lemma OpenedAndRedrafted(p: Ordered, c: Ordered, d: Ordered, names: seq<string>, later: seq<string>, x: string)
    requires p.envelope.payload.RoundOpenProposal? && NormaliseRoster(p.envelope.payload.roster) == names && |names| == 1
    requires c.envelope.payload == RoundOpenCommit(OrderedId(p)) && c.envelope.senderPubkey == x
    requires d.envelope.payload.RoundDraft? && NormaliseRoster(d.envelope.payload.roster) == later
    ensures ShapeStep(ShapeStep(ShapeStep(FRESH, p), c), d) == Shape(later, Some(OrderedId(p)), {x}, {}, {}, Open)
  {
    ProposalShape(FRESH, p, names);
    CommitStepShape(Shape(names, Some(OrderedId(p)), {}, {}, {}, OpenProposed), c, {x});
    DraftShape(Shape(names, Some(OrderedId(p)), {x}, {}, {}, Open), d, later);
  }

  lemma WithOutsider()
    ensures NameSet(["a", "b"]) - {"a", "x"} == {"b"}
  {
    assert "a" != "x" && "a" != "b" && "b" != "x";
    assert NameSet(["a", "b"]) == {"a", "b"};
  }

  /** An outsider's commit opens a round that "b" has not committed to. */
  lemma OutsiderOpens(st: Control, r: string)
    requires Unaware(st, r)
    ensures var after := ApplyAll(st, [Sample(st, r, "p", "a", RoundOpenProposal("", 1, 1, ["a", "b"])),
                                       Sample(st, r, "c", "a", RoundOpenCommit("p")),
                                       Sample(st, r, "d", "x", RoundOpenCommit("p"))]).rounds;
            r in after && after[r].phase == Open && MissingMembers(ShapeOf(after[r])) == {"b"}
  {
    var p := Sample(st, r, "p", "a", RoundOpenProposal("", 1, 1, ["a", "b"]));
    var c, d := Sample(st, r, "c", "a", RoundOpenCommit("p")), Sample(st, r, "d", "x", RoundOpenCommit("p"));
    ThreeShapes(st, r, p, c, d);
    NormalPair();
    ProposedAndOpened(p, c, d, ["a", "b"], "a", "x");
    WithOutsider();
  }

  lemma WithoutB()
    ensures NameSet(["a", "b"]) - {"a"} == {"b"} && {"a"} - NameSet(["a", "b"]) == {}
  {
    assert "a" != "b";
    assert NameSet(["a", "b"]) == {"a", "b"};
  }

  /** A draft that adds "b" to the roster of an open round leaves it open, with no outsider about. */
  lemma DraftAfterOpen(st: Control, r: string)
    requires Unaware(st, r)
    ensures var after := ApplyAll(st, [Sample(st, r, "p", "a", RoundOpenProposal("", 1, 1, ["a"])),
                                       Sample(st, r, "c", "a", RoundOpenCommit("p")),
                                       Sample(st, r, "d", "a", RoundDraft("", 1, 2, ["a", "b"]))]).rounds;
            && r in after && after[r].phase == Open
            && MissingMembers(ShapeOf(after[r])) == {"b"} && Outsiders(ShapeOf(after[r])) == {}
  {
    var p, c := Sample(st, r, "p", "a", RoundOpenProposal("", 1, 1, ["a"])), Sample(st, r, "c", "a", RoundOpenCommit("p"));
    var d := Sample(st, r, "d", "a", RoundDraft("", 1, 2, ["a", "b"]));
    ThreeShapes(st, r, p, c, d);
    NormalPair();
    OpenedAndRedrafted(p, c, d, ["a"], ["a", "b"], "a");
    WithoutB();
  }
}
