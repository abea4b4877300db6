/**
 What an open round means: whether every member committed to the proposal shown. A record keeps only the id of
 each commit, so which proposal it was to is read from a log of envelopes.
 */
module CoordinatorBacking {
  import opened Wrappers
  import opened Sorting
  import opened CoordinatorMessages
  import opened CoordinatorState
  import opened CoordinatorReplay
  import opened CoordinatorBatch
  import opened CoordinatorSteps
  import opened CoordinatorOpening

  /** `o` is what the log holds under its id. */
  predicate Logged(log: map<string, Envelope>, o: Ordered) {
    OrderedId(o) in log && log[OrderedId(o)] == o.envelope
  }

  /** Under this id stands `committer`'s commit to this proposal of round `r`. */
  ghost predicate CommitFor(log: map<string, Envelope>, r: string, committer: string, id: string, proposal: string) {
    && id in log
    && log[id].roundId == Some(r)
    && log[id].senderPubkey == committer
    && log[id].payload == RoundOpenCommit(proposal)
  }

  /** The senders whose filed commit is to the proposal the record shows. */
  ghost function Backers(round: RoundRecord, log: map<string, Envelope>, r: string): set<string> {
    set c | c in round.openCommits && round.proposalEventId.Some? &&
            CommitFor(log, r, c, round.openCommits[c], round.proposalEventId.value)
  }

  /** If the round is open, every member committed to the proposal shown. */
  ghost predicate FullyBacked(round: RoundRecord, log: map<string, Envelope>, r: string) {
    round.phase == Open ==> NameSet(round.roster) <= Backers(round, log, r)
  }

  /**
   The steps that break it. A commit to the current proposal does when, counted with all commits filed, stale
   ones included, it makes up the quorum, and another member has not committed to this proposal. A draft does
   when it gives an open round a roster not all of which has.
   */
  ghost predicate Unbacks(round: RoundRecord, o: Ordered, log: map<string, Envelope>, r: string) {
    var sender := o.envelope.senderPubkey;
    match o.envelope.payload
    case RoundDraft(_, _, _, roster) => round.phase == Open && !(NameSet(NormaliseRoster(roster)) <= Backers(round, log, r))
    case RoundOpenCommit(id) =>
      && round.proposalEventId == Some(id)
      && |round.openCommits.Keys + {sender}| >= Expected(round.roster)
      && !(NameSet(round.roster) <= Backers(round, log, r) + {sender})
    case _ => false
  }

  lemma CommitAddsBacker(round: RoundRecord, o: Ordered, log: map<string, Envelope>, r: string)
    requires o.envelope.payload.RoundOpenCommit? && CommitsTo(o, round.proposalEventId)
    requires Logged(log, o) && o.envelope.roundId == Some(r)
    ensures Backers(Transition(round, OrderedId(o), o.envelope), log, r) == Backers(round, log, r) + {o.envelope.senderPubkey}
  {
    var after := Transition(round, OrderedId(o), o.envelope);
    assert after.proposalEventId == round.proposalEventId;
    assert after.openCommits == round.openCommits[o.envelope.senderPubkey := OrderedId(o)];
    assert CommitFor(log, r, o.envelope.senderPubkey, OrderedId(o), round.proposalEventId.value);
  }

  lemma CommitOpens(round: RoundRecord, o: Ordered)
    requires o.envelope.payload.RoundOpenCommit? && CommitsTo(o, round.proposalEventId)
    ensures var after, all := Transition(round, OrderedId(o), o.envelope), round.openCommits.Keys + {o.envelope.senderPubkey};
            after.roster == round.roster && after.phase == if |all| >= Expected(round.roster) then Open else round.phase
  {
    UpdatedKeys(round.openCommits, o.envelope.senderPubkey, OrderedId(o));
  }

  lemma OtherCommitKeeps(round: RoundRecord, o: Ordered)
    requires o.envelope.payload.RoundOpenCommit? && !CommitsTo(o, round.proposalEventId)
    ensures Transition(round, OrderedId(o), o.envelope) == round.(lastTransitionAt := Some(o.envelope.createdAt))
  {
  }

  lemma DraftKeepsBackers(round: RoundRecord, o: Ordered, log: map<string, Envelope>, r: string)
    requires o.envelope.payload.RoundDraft?
    ensures var after := Transition(round, OrderedId(o), o.envelope);
            && after.phase == round.phase && after.roster == NormaliseRoster(o.envelope.payload.roster)
            && Backers(after, log, r) == Backers(round, log, r)
  {
  }

  lemma OthersKeepCommits(round: RoundRecord, o: Ordered)
    requires !o.envelope.payload.RoundOpenProposal? && !o.envelope.payload.RoundOpenCommit?
    ensures var after := Transition(round, OrderedId(o), o.envelope);
            after.openCommits == round.openCommits && after.proposalEventId == round.proposalEventId
  {
  }

  lemma ActingKeepsOpen(round: RoundRecord, o: Ordered)
    requires o.envelope.payload.PartialTally? || o.envelope.payload.ResultPublishApproval?
    ensures var after := Transition(round, OrderedId(o), o.envelope);
            after.roster == round.roster && (after.phase == Open ==> round.phase == Open)
  {
  }

  lemma OthersKeepOpen(round: RoundRecord, o: Ordered)
    requires !o.envelope.payload.RoundDraft? && !o.envelope.payload.RoundOpenCommit?
    ensures var after := Transition(round, OrderedId(o), o.envelope);
            after.phase == Open ==> !o.envelope.payload.RoundOpenProposal? && round.phase == Open && after.roster == round.roster
  {
    if o.envelope.payload.PartialTally? || o.envelope.payload.ResultPublishApproval? {
      ActingKeepsOpen(round, o);
    }
  }

  lemma OthersKeepBackers(round: RoundRecord, o: Ordered, log: map<string, Envelope>, r: string)
    requires !o.envelope.payload.RoundDraft? && !o.envelope.payload.RoundOpenCommit?
    ensures var after := Transition(round, OrderedId(o), o.envelope);
            after.phase == Open ==>
              round.phase == Open && after.roster == round.roster && Backers(after, log, r) == Backers(round, log, r)
  {
    OthersKeepOpen(round, o);
    if !o.envelope.payload.RoundOpenProposal? {
      OthersKeepCommits(round, o);
    }
  }

  /** With any transition of any record, it is lost exactly when the step is one of those. */
  lemma BackingLostIff(round: RoundRecord, o: Ordered, log: map<string, Envelope>, r: string)
    requires Logged(log, o) && o.envelope.roundId == Some(r) && FullyBacked(round, log, r)
    ensures !FullyBacked(Transition(round, OrderedId(o), o.envelope), log, r) <==> Unbacks(round, o, log, r)
  {
    if o.envelope.payload.RoundOpenCommit? {
      if CommitsTo(o, round.proposalEventId) {
        CommitAddsBacker(round, o, log, r);
        CommitOpens(round, o);
      } else {
        OtherCommitKeeps(round, o);
      }
    } else if o.envelope.payload.RoundDraft? {
      DraftKeepsBackers(round, o, log, r);
    } else {
      OthersKeepBackers(round, o, log, r);
    }
  }

  /** Whoever backs the proposal has committed: a fully backed open round misses nobody. */
  lemma BackedMissesNobody(round: RoundRecord, log: map<string, Envelope>, r: string)
    requires FullyBacked(round, log, r)
    ensures OpenMeansAll(ShapeOf(round))
  {
    NoneLeft(NameSet(round.roster), round.openCommits.Keys);
  }

  // ----- over a sequence of envelopes -----

  ghost predicate BackedIn(st: Control, log: map<string, Envelope>, r: string) {
    r in st.rounds ==> FullyBacked(st.rounds[r], log, r)
  }

  ghost predicate UnbacksIn(st: Control, o: Ordered, log: map<string, Envelope>, r: string) {
    Counts(st, o) && o.envelope.roundId == Some(r) && Unbacks(RecordOf(st.rounds, r), o, log, r)
  }

  ghost function BackedWith(log: map<string, Envelope>, r: string): Control -> bool {
    (st: Control) => BackedIn(st, log, r)
  }

  ghost function UnbacksWith(log: map<string, Envelope>, r: string): (Control, Ordered) -> bool {
    (st: Control, o: Ordered) => UnbacksIn(st, o, log, r)
  }

  lemma ApplyUnbacksIff(st: Control, o: Ordered, log: map<string, Envelope>, r: string)
    requires BackedIn(st, log, r) && Logged(log, o)
    ensures BackedIn(Apply(st, OrderedId(o), o.envelope), log, r) <==> !UnbacksIn(st, o, log, r)
  {
    RecordApplied(st, o, r);
    if Counts(st, o) && o.envelope.roundId == Some(r) {
      BackingLostIff(RecordOf(st.rounds, r), o, log, r);
    }
  }

  lemma BackingDecided(log: map<string, Envelope>, r: string, o: Ordered)
    requires Logged(log, o)
    ensures Decides(BackedWith(log, r), UnbacksWith(log, r), o)
  {
    forall st | BackedIn(st, log, r)
      ensures BackedIn(Apply(st, OrderedId(o), o.envelope), log, r) <==> !UnbacksIn(st, o, log, r)
    {
      ApplyUnbacksIff(st, o, log, r);
    }
  }

  /** Whatever the order of the events, open means fully backed all along iff no step unbacks the round. */
  lemma BackedThroughoutIff(st: Control, events: seq<Ordered>, log: map<string, Envelope>, r: string)
    requires BackedIn(st, log, r) && forall o :: o in events ==> Logged(log, o)
    ensures Throughout(st, events, BackedWith(log, r)) <==> !Somewhere(st, events, UnbacksWith(log, r))
  {
    forall o | o in events ensures Decides(BackedWith(log, r), UnbacksWith(log, r), o) {
      BackingDecided(log, r, o);
    }
    KeptIff(st, events, BackedWith(log, r), UnbacksWith(log, r));
  }

  // ----- commits that are all current -----

  /** Every commit filed is to the proposal the record shows. */
  ghost predicate CommitsCurrent(round: RoundRecord, log: map<string, Envelope>, r: string) {
    forall c :: c in round.openCommits ==>
      round.proposalEventId.Some? && CommitFor(log, r, c, round.openCommits[c], round.proposalEventId.value)
  }

  lemma ProposalMakesStale(round: RoundRecord, o: Ordered, log: map<string, Envelope>, r: string)
    requires o.envelope.payload.RoundOpenProposal? && CommitsCurrent(round, log, r)
    ensures !CommitsCurrent(Transition(round, OrderedId(o), o.envelope), log, r) <==>
              round.openCommits != map[] && round.proposalEventId != Some(OrderedId(o))
  {
    var after := Transition(round, OrderedId(o), o.envelope);
    assert after.openCommits == round.openCommits && after.proposalEventId == Some(OrderedId(o));
    if round.openCommits != map[] {
      var c :| c in round.openCommits;
      assert CommitFor(log, r, c, round.openCommits[c], round.proposalEventId.value);
    }
  }

  lemma CommitStaysCurrent(round: RoundRecord, o: Ordered, log: map<string, Envelope>, r: string)
    requires o.envelope.payload.RoundOpenCommit? && Logged(log, o) && o.envelope.roundId == Some(r)
    requires CommitsCurrent(round, log, r)
    ensures CommitsCurrent(Transition(round, OrderedId(o), o.envelope), log, r)
  {
    var after := Transition(round, OrderedId(o), o.envelope);
    assert after.proposalEventId == round.proposalEventId;
    if CommitsTo(o, round.proposalEventId) {
      assert after.openCommits == round.openCommits[o.envelope.senderPubkey := OrderedId(o)];
      assert CommitFor(log, r, o.envelope.senderPubkey, OrderedId(o), round.proposalEventId.value);
    } else {
      assert after.openCommits == round.openCommits;
    }
  }

  /** A step makes commits stale exactly when it is another proposal and there are some. */
  lemma CommitsGoStaleIff(round: RoundRecord, o: Ordered, log: map<string, Envelope>, r: string)
    requires Logged(log, o) && o.envelope.roundId == Some(r) && CommitsCurrent(round, log, r)
    ensures !CommitsCurrent(Transition(round, OrderedId(o), o.envelope), log, r) <==>
              o.envelope.payload.RoundOpenProposal? && round.openCommits != map[] && round.proposalEventId != Some(OrderedId(o))
  {
    if o.envelope.payload.RoundOpenProposal? {
      ProposalMakesStale(round, o, log, r);
    } else if o.envelope.payload.RoundOpenCommit? {
      CommitStaysCurrent(round, o, log, r);
    } else {
      OthersKeepCommits(round, o);
    }
  }

  ghost predicate IsProposal(log: map<string, Envelope>, electionId: string, r: string, id: string) {
    id in log && log[id].electionId == electionId && log[id].roundId == Some(r) && log[id].payload.RoundOpenProposal?
  }

  /** The election has one proposal for the round at most. */
  ghost predicate OneProposal(log: map<string, Envelope>, electionId: string, r: string) {
    forall id, id' :: IsProposal(log, electionId, r, id) && IsProposal(log, electionId, r, id') ==> id == id'
  }

  /** Of the states of the election: commits are current, and the proposal shown is in the log. */
  ghost predicate CurrentIn(st: Control, log: map<string, Envelope>, electionId: string, r: string) {
    st.electionId == electionId && r in st.rounds ==>
      && CommitsCurrent(st.rounds[r], log, r)
      && (st.rounds[r].proposalEventId.Some? ==> IsProposal(log, electionId, r, st.rounds[r].proposalEventId.value))
  }

  lemma CurrentApply(st: Control, o: Ordered, log: map<string, Envelope>, electionId: string, r: string)
    requires CurrentIn(st, log, electionId, r) && Logged(log, o) && OneProposal(log, electionId, r)
    ensures CurrentIn(Apply(st, OrderedId(o), o.envelope), log, electionId, r)
  {
    RecordApplied(st, o, r);
    if st.electionId == electionId && Counts(st, o) && o.envelope.roundId == Some(r) {
      var round := RecordOf(st.rounds, r);
      CommitsGoStaleIff(round, o, log, r);
      if o.envelope.payload.RoundOpenProposal? {
        assert IsProposal(log, electionId, r, OrderedId(o));
        if round.openCommits != map[] {
          var c :| c in round.openCommits;
          assert round.proposalEventId.Some?;
        }
      } else {
        ProposalStays(round, o);
      }
    }
  }

  lemma ProposalStays(round: RoundRecord, o: Ordered)
    requires !o.envelope.payload.RoundOpenProposal?
    ensures Transition(round, OrderedId(o), o.envelope).proposalEventId == round.proposalEventId
  {
  }

  ghost function CurrentWith(log: map<string, Envelope>, electionId: string, r: string): Control -> bool {
    (st: Control) => CurrentIn(st, log, electionId, r)
  }

  lemma CurrencyKept(log: map<string, Envelope>, electionId: string, r: string, o: Ordered)
    requires Logged(log, o) && OneProposal(log, electionId, r)
    ensures Decides(CurrentWith(log, electionId, r), Never(), o)
  {
    forall st | CurrentIn(st, log, electionId, r) ensures CurrentIn(Apply(st, OrderedId(o), o.envelope), log, electionId, r) {
      CurrentApply(st, o, log, electionId, r);
    }
  }

  // ----- an input that breaks it -----

  lemma CommitFiled(st: Control, o: Ordered, r: string)
    requires Counts(st, o) && o.envelope.roundId == Some(r) && CommitsTo(o, RecordOf(st.rounds, r).proposalEventId)
    ensures var after := Apply(st, OrderedId(o), o.envelope);
            r in after.rounds && FiledBy(after, r, o.envelope.senderPubkey) == Some(OrderedId(o))
  {
  }

  /** The id filed as this sender's commit. */
  function FiledBy(st: Control, r: string, sender: string): Option<string> {
    var commits := RecordOf(st.rounds, r).openCommits;
    if sender in commits then Some(commits[sender]) else None
  }

  lemma FilingStays(st: Control, o: Ordered, r: string, sender: string)
    requires o.envelope.senderPubkey != sender || !o.envelope.payload.RoundOpenCommit?
    ensures FiledBy(Apply(st, OrderedId(o), o.envelope), r, sender) == FiledBy(st, r, sender)
  {
  }

  lemma FiveSteps(st: Control, u: Ordered, v: Ordered, x: Ordered, y: Ordered, z: Ordered)
    ensures ApplyAll(st, [u, v, x, y, z]) ==
              Apply(Apply(ApplyAll(st, [u, v, x]), OrderedId(y), y.envelope), OrderedId(z), z.envelope)
  {
    assert Init([u, v, x, y, z]) == [u, v, x, y] && Init([u, v, x, y]) == [u, v, x];
    assert ApplyAll(st, [u, v, x, y]) == Apply(ApplyAll(st, [u, v, x]), OrderedId(y), y.envelope);
  }

  lemma PairOfTwo()
    ensures |{"a", "b"}| == 2 && {"a", "b"} + {"a"} == {"a", "b"}
  {
    assert "a" != "b";
  }

  lemma Reopened(q: Ordered, e: Ordered)
    requires q.envelope.payload == RoundOpenProposal("", 1, 1, ["a", "b"]) && OrderedId(q) == "q"
    requires e.envelope.payload == RoundOpenCommit("q") && e.envelope.senderPubkey == "a"
    ensures ShapeStep(ShapeStep(Shape(["a", "b"], Some("p"), {"a", "b"}, {}, {}, Open), q), e) ==
              Shape(["a", "b"], Some("q"), {"a", "b"}, {}, {}, Open)
  {
    NormalPair();
    PairOfTwo();
    ProposalShape(Shape(["a", "b"], Some("p"), {"a", "b"}, {}, {}, Open), q, ["a", "b"]);
    CommitStepShape(Shape(["a", "b"], Some("q"), {"a", "b"}, {}, {}, OpenProposed), e, {"a", "b"});
  }

  lemma ProposedThenCommitted(p: Ordered, c: Ordered)
    requires p.envelope.payload.RoundOpenProposal? && c.envelope.payload.RoundOpenCommit?
    ensures ShapeStep(ShapeStep(FRESH, p), c).proposalEventId == Some(OrderedId(p))
  {
  }

  lemma FiledThird(st: Control, r: string, p: Ordered, c: Ordered, d: Ordered)
    requires r !in st.rounds && Counts(st, p) && Counts(st, c) && Counts(st, d)
    requires p.envelope.roundId == c.envelope.roundId == d.envelope.roundId == Some(r)
    requires OrderedId(p) != OrderedId(c) && OrderedId(p) != OrderedId(d) && OrderedId(c) != OrderedId(d)
    requires p.envelope.payload.RoundOpenProposal? && c.envelope.payload.RoundOpenCommit?
    requires d.envelope.payload == RoundOpenCommit(OrderedId(p))
    ensures FiledBy(ApplyAll(st, [p, c, d]), r, d.envelope.senderPubkey) == Some(OrderedId(d))
  {
    assert ShapeOf(RecordOf(st.rounds, r)) == FRESH;
    TwoMore(st, r, p, c);
    ProposedThenCommitted(p, c);
    ThreeSteps(st, p, c, d);
    CommitFiled(Apply(Apply(st, OrderedId(p), p.envelope), OrderedId(c), c.envelope), d, r);
  }

  lemma OpensOnP(st: Control, r: string, p: Ordered, c: Ordered, d: Ordered)
    requires Unaware(st, r)
    requires p == Sample(st, r, "p", "a", RoundOpenProposal("", 1, 1, ["a", "b"]))
    requires c == Sample(st, r, "c", "a", RoundOpenCommit("p")) && d == Sample(st, r, "d", "b", RoundOpenCommit("p"))
    ensures var after := ApplyAll(st, [p, c, d]);
            && r in after.rounds && after.electionId == st.electionId && after.processed == st.processed + {"p", "c", "d"}
            && ShapeOf(after.rounds[r]) == Shape(["a", "b"], Some("p"), {"a", "b"}, {}, {}, Open)
            && FiledBy(after, r, "b") == Some("d")
  {
    ThreeShapes(st, r, p, c, d);
    NormalPair();
    ProposedAndOpened(p, c, d, ["a", "b"], "a", "b");
    FiledThird(st, r, p, c, d);
  }

  lemma ReopensOnQ(st: Control, r: string, q: Ordered, e: Ordered)
    requires r in st.rounds && ShapeOf(st.rounds[r]) == Shape(["a", "b"], Some("p"), {"a", "b"}, {}, {}, Open)
    requires Counts(st, q) && Counts(st, e) && q.envelope.roundId == e.envelope.roundId == Some(r)
    requires q.envelope.payload == RoundOpenProposal("", 1, 1, ["a", "b"]) && OrderedId(q) == "q"
    requires e.envelope.payload == RoundOpenCommit("q") && e.envelope.senderPubkey == "a" && OrderedId(e) == "e"
    ensures var after := Apply(Apply(st, OrderedId(q), q.envelope), OrderedId(e), e.envelope);
            && r in after.rounds && ShapeOf(after.rounds[r]) == Shape(["a", "b"], Some("q"), {"a", "b"}, {}, {}, Open)
            && FiledBy(after, r, "b") == FiledBy(st, r, "b")
  {
    TwoMore(st, r, q, e);
    Reopened(q, e);
    FilingStays(st, q, r, "b");
    FilingStays(Apply(st, OrderedId(q), q.envelope), e, r, "b");
  }

  /**
   Commits outlive their proposal: with both members committed to "p", one commit to the next proposal "q"
   opens the round again, though "b" never committed to it.
   */
  lemma OldCommitsCount(st: Control, r: string)
    requires Unaware(st, r)
    ensures var after := ApplyAll(st, [Sample(st, r, "p", "a", RoundOpenProposal("", 1, 1, ["a", "b"])),
                                       Sample(st, r, "c", "a", RoundOpenCommit("p")),
                                       Sample(st, r, "d", "b", RoundOpenCommit("p")),
                                       Sample(st, r, "q", "a", RoundOpenProposal("", 1, 1, ["a", "b"])),
                                       Sample(st, r, "e", "a", RoundOpenCommit("q"))]).rounds;
            && r in after && after[r].phase == Open && after[r].proposalEventId == Some("q") && after[r].roster == ["a", "b"]
            && "b" in after[r].openCommits && after[r].openCommits["b"] == "d"
  {
    var p := Sample(st, r, "p", "a", RoundOpenProposal("", 1, 1, ["a", "b"]));
    var q := Sample(st, r, "q", "a", RoundOpenProposal("", 1, 1, ["a", "b"]));
    var c, d := Sample(st, r, "c", "a", RoundOpenCommit("p")), Sample(st, r, "d", "b", RoundOpenCommit("p"));
    var e := Sample(st, r, "e", "a", RoundOpenCommit("q"));
    OpensOnP(st, r, p, c, d);
    ReopensOnQ(ApplyAll(st, [p, c, d]), r, q, e);
    FiveSteps(st, p, c, d, q, e);
  }

  /** So of that round open does not mean fully backed, whatever log holds "b"'s one commit. */
  lemma StaleIsNoBacking(round: RoundRecord, log: map<string, Envelope>, r: string)
    requires round.phase == Open && round.proposalEventId == Some("q") && round.roster == ["a", "b"]
    requires "b" in round.openCommits && round.openCommits["b"] == "d"
    requires "d" in log && log["d"].payload == RoundOpenCommit("p")
    ensures "b" !in Backers(round, log, r) && !FullyBacked(round, log, r)
  {
    assert "p" != "q";
    assert round.roster[1] == "b";
    assert "b" in NameSet(round.roster);
  }
}
