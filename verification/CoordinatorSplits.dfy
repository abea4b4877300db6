/** What a list of batches does to a round, and what splitting a batch may do. */
module CoordinatorSplits {
  import opened Wrappers
  import opened Order
  import opened Sorting
  import opened CoordinatorMessages
  import opened CoordinatorState
  import opened CoordinatorReplay
  import opened CoordinatorBatch

  // ----- a list of batches -----

  /** The state after the batches in turn, each in replay order. */
  function ApplyBatches(st: Control, batches: seq<seq<Ordered>>): Control {
    if batches == [] then st else ApplyAll(ApplyBatches(st, Init(batches)), Sort(OrderedKey, Last(batches)))
  }

  /** What counts for round `r` in each batch when its turn comes. */
  function ActsOf(st: Control, batches: seq<seq<Ordered>>, r: string): seq<seq<Ordered>> {
    if batches == [] then [] else ActsOf(st, Init(batches), r) + [Acts(ApplyBatches(st, Init(batches)), Last(batches), r)]
  }

  function AfterBatches(s: Shape, lists: seq<seq<Ordered>>): Shape {
    if lists == [] then s else AfterBatch(AfterBatches(s, Init(lists)), Last(lists))
  }

  /** Batch by batch the closed form gives the round's record after any list of batches. */
  lemma {:induction false} BatchesClosedForm(st: Control, batches: seq<seq<Ordered>>, r: string)
    ensures ShapeOf(RecordOf(ApplyBatches(st, batches).rounds, r)) ==
              AfterBatches(ShapeOf(RecordOf(st.rounds, r)), ActsOf(st, batches, r))
  {
    if batches != [] {
      var init := Init(batches);
      BatchesClosedForm(st, init, r);
      BatchShape(ApplyBatches(st, init), Last(batches), r);
      var lists := ActsOf(st, init, r) + [Acts(ApplyBatches(st, init), Last(batches), r)];
      assert ActsOf(st, batches, r) == lists;
      assert Init(lists) == ActsOf(st, init, r) && Last(lists) == Acts(ApplyBatches(st, init), Last(batches), r);
    }
  }

  /** In the `i`-th batch `x` commits to the proposal that stands after it. */
  predicate CommitsIn(s: Shape, lists: seq<seq<Ordered>>, i: nat, x: string)
    requires i < |lists|
  {
    x in CommittersTo(lists[i], AfterBatches(s, lists[..i + 1]).proposalEventId)
  }

  ghost predicate CommitsSomewhere(s: Shape, lists: seq<seq<Ordered>>, x: string) {
    exists i :: 0 <= i < |lists| && CommitsIn(s, lists, i, x)
  }

  lemma CommitsEarlier(s: Shape, lists: seq<seq<Ordered>>, i: nat, x: string)
    requires i + 1 < |lists|
    ensures CommitsIn(s, lists, i, x) <==> CommitsIn(s, Init(lists), i, x)
  {
    assert Init(lists)[..i + 1] == lists[..i + 1];
  }

  lemma CommitsLast(s: Shape, lists: seq<seq<Ordered>>, x: string)
    requires lists != []
    ensures CommitsIn(s, lists, |lists| - 1, x) <==> x in CommittersTo(Last(lists), AfterBatches(s, lists).proposalEventId)
  {
    assert lists[..|lists| - 1 + 1] == lists;
  }

  lemma CommitsEarlierOrLast(s: Shape, lists: seq<seq<Ordered>>, x: string)
    requires lists != []
    ensures CommitsSomewhere(s, lists, x) <==> CommitsSomewhere(s, Init(lists), x) || CommitsIn(s, lists, |lists| - 1, x)
  {
    if CommitsSomewhere(s, Init(lists), x) {
      var i :| 0 <= i < |lists| - 1 && CommitsIn(s, Init(lists), i, x);
      CommitsEarlier(s, lists, i, x);
    }
    if CommitsSomewhere(s, lists, x) {
      var i :| 0 <= i < |lists| && CommitsIn(s, lists, i, x);
      if i < |lists| - 1 {
        CommitsEarlier(s, lists, i, x);
      }
    }
  }

  lemma MembersLast(s: Shape, lists: seq<seq<Ordered>>)
    requires lists != []
    ensures var before, after := AfterBatches(s, Init(lists)), AfterBatches(s, lists);
            && after.committers == before.committers + CommittersTo(Last(lists), after.proposalEventId)
            && after.tallySenders == before.tallySenders + Senders(Last(lists), PartialTallyType)
            && after.approvers == before.approvers + Senders(Last(lists), ResultPublishApprovalType)
  {
  }

  /**
   Which commits count and which are lost: a sender is a committer after a list of batches iff it was one
   before, or in some batch commits to the proposal standing once that batch is done.
   */
  lemma {:induction false} WhoCommits(s: Shape, lists: seq<seq<Ordered>>, x: string)
    ensures x in AfterBatches(s, lists).committers <==> x in s.committers || CommitsSomewhere(s, lists, x)
  {
    if lists != [] {
      WhoCommits(s, Init(lists), x);
      MembersLast(s, lists);
      CommitsEarlierOrLast(s, lists, x);
      CommitsLast(s, lists, x);
    }
  }

  ghost predicate SendsSomewhere(lists: seq<seq<Ordered>>, t: CoordinatorEventType, x: string) {
    exists i :: 0 <= i < |lists| && x in Senders(lists[i], t)
  }

  lemma SendsEarlierOrLast(lists: seq<seq<Ordered>>, t: CoordinatorEventType, x: string)
    requires lists != []
    ensures SendsSomewhere(lists, t, x) <==> SendsSomewhere(Init(lists), t, x) || x in Senders(Last(lists), t)
  {
    var n := |lists| - 1;
    assert lists[n] == Last(lists);
    if SendsSomewhere(Init(lists), t, x) {
      var i :| 0 <= i < n && x in Senders(Init(lists)[i], t);
      assert lists[i] == Init(lists)[i];
    }
    if SendsSomewhere(lists, t, x) {
      var i :| 0 <= i < |lists| && x in Senders(lists[i], t);
      assert i < n ==> Init(lists)[i] == lists[i];
    }
  }

  /** Tallies and approvals are never lost: whoever sent one in any batch counts. */
  lemma {:induction false} WhoTalliesAndApproves(s: Shape, lists: seq<seq<Ordered>>, x: string)
    ensures x in AfterBatches(s, lists).tallySenders <==> x in s.tallySenders || SendsSomewhere(lists, PartialTallyType, x)
    ensures x in AfterBatches(s, lists).approvers <==> x in s.approvers || SendsSomewhere(lists, ResultPublishApprovalType, x)
  {
    if lists != [] {
      WhoTalliesAndApproves(s, Init(lists), x);
      MembersLast(s, lists);
      SendsEarlierOrLast(lists, PartialTallyType, x);
      SendsEarlierOrLast(lists, ResultPublishApprovalType, x);
    }
  }

  ghost predicate Within(lists: seq<seq<Ordered>>, o: Ordered) {
    exists i :: 0 <= i < |lists| && o in lists[i]
  }

  lemma SendsWithin(lists: seq<seq<Ordered>>, t: CoordinatorEventType, x: string)
    ensures SendsSomewhere(lists, t, x) <==>
              exists o :: Within(lists, o) && o.envelope.payload.EventType() == t && o.envelope.senderPubkey == x
  {
    if SendsSomewhere(lists, t, x) {
      var i :| 0 <= i < |lists| && x in Senders(lists[i], t);
      SendersIff(lists[i], t, x);
      var o :| o in lists[i] && o.envelope.payload.EventType() == t && o.envelope.senderPubkey == x;
      assert Within(lists, o);
    }
    if o :| Within(lists, o) && o.envelope.payload.EventType() == t && o.envelope.senderPubkey == x {
      var i :| 0 <= i < |lists| && o in lists[i];
      SendersIff(lists[i], t, x);
    }
  }

  lemma SameSends(xs: seq<seq<Ordered>>, ys: seq<seq<Ordered>>, t: CoordinatorEventType, x: string)
    requires forall o :: Within(xs, o) <==> Within(ys, o)
    ensures SendsSomewhere(xs, t, x) <==> SendsSomewhere(ys, t, x)
  {
    SendsWithin(xs, t, x);
    SendsWithin(ys, t, x);
  }

  lemma ListsAgreeOnMembers(s: Shape, xs: seq<seq<Ordered>>, ys: seq<seq<Ordered>>)
    requires forall o :: Within(xs, o) <==> Within(ys, o)
    ensures AfterBatches(s, xs).tallySenders == AfterBatches(s, ys).tallySenders
    ensures AfterBatches(s, xs).approvers == AfterBatches(s, ys).approvers
    ensures AfterBatches(s, xs).committers == AfterBatches(s, ys).committers <==>
              forall x :: x in s.committers || (CommitsSomewhere(s, xs, x) <==> CommitsSomewhere(s, ys, x))
  {
    var a, b := AfterBatches(s, xs), AfterBatches(s, ys);
    forall x
      ensures x in a.tallySenders <==> x in b.tallySenders
      ensures x in a.approvers <==> x in b.approvers
    {
      WhoTalliesAndApproves(s, xs, x);
      WhoTalliesAndApproves(s, ys, x);
      SameSends(xs, ys, PartialTallyType, x);
      SameSends(xs, ys, ResultPublishApprovalType, x);
    }
    forall x
      ensures x in a.committers <==> x in s.committers || CommitsSomewhere(s, xs, x)
      ensures x in b.committers <==> x in s.committers || CommitsSomewhere(s, ys, x)
    {
      WhoCommits(s, xs, x);
      WhoCommits(s, ys, x);
    }
  }

  // ----- two batchings of one set of deliveries -----

  /** An id stands for one delivery throughout the batches. */
  ghost predicate IdsIdentifyIn(batches: seq<seq<Ordered>>) {
    forall x, y :: Within(batches, x) && Within(batches, y) && OrderedId(x) == OrderedId(y) ==> x == y
  }

  lemma WithinLast(batches: seq<seq<Ordered>>, o: Ordered)
    requires batches != []
    ensures Within(batches, o) <==> Within(Init(batches), o) || o in Last(batches)
  {
    var n := |batches| - 1;
    assert batches[n] == Last(batches);
    if Within(Init(batches), o) {
      var i :| 0 <= i < n && o in Init(batches)[i];
      assert batches[i] == Init(batches)[i];
    }
    if Within(batches, o) {
      var i :| 0 <= i < |batches| && o in batches[i];
      assert i < n ==> Init(batches)[i] == batches[i];
    }
  }

  lemma InitIdentifies(batches: seq<seq<Ordered>>)
    requires batches != [] && IdsIdentifyIn(batches)
    ensures IdsIdentifyIn(Init(batches)) && IdsIdentify(OrderedId, Last(batches))
  {
    forall o ensures Within(batches, o) <==> Within(Init(batches), o) || o in Last(batches) {
      WithinLast(batches, o);
    }
  }

  ghost predicate CarriesId(batches: seq<seq<Ordered>>, electionId: string, id: string) {
    exists o :: Within(batches, o) && o.envelope.electionId == electionId && OrderedId(o) == id
  }

  lemma CarriesLast(batches: seq<seq<Ordered>>, electionId: string, id: string)
    requires batches != []
    ensures CarriesId(batches, electionId, id) <==>
              CarriesId(Init(batches), electionId, id) ||
              exists o :: o in Last(batches) && o.envelope.electionId == electionId && OrderedId(o) == id
  {
    forall o ensures Within(batches, o) <==> Within(Init(batches), o) || o in Last(batches) {
      WithinLast(batches, o);
    }
  }

  lemma {:induction false} ProcessedByBatches(st: Control, batches: seq<seq<Ordered>>, id: string)
    ensures var after := ApplyBatches(st, batches);
            && after.electionId == st.electionId
            && (id in after.processed <==> id in st.processed || CarriesId(batches, st.electionId, id))
  {
    if batches != [] {
      var before := ApplyBatches(st, Init(batches));
      ProcessedByBatches(st, Init(batches), id);
      ProcessedAfter(before, Sort(OrderedKey, Last(batches)));
      ProcessedIds(st.electionId, Last(batches), id);
      CarriesLast(batches, st.electionId, id);
    }
  }

  /** What counts for a round over the batches: what counts of all their deliveries before the first. */
  lemma {:induction false} ActsWithin(st: Control, batches: seq<seq<Ordered>>, r: string, o: Ordered)
    requires IdsIdentifyIn(batches)
    ensures Within(ActsOf(st, batches, r), o) <==> Within(batches, o) && Counts(st, o) && o.envelope.roundId == Some(r)
  {
    if batches != [] {
      var init, last, before := Init(batches), Last(batches), ApplyBatches(st, Init(batches));
      InitIdentifies(batches);
      ActsWithin(st, init, r, o);
      ActsHave(before, last, r);
      ProcessedByBatches(st, init, OrderedId(o));
      var lists := ActsOf(st, init, r) + [Acts(before, last, r)];
      assert Init(lists) == ActsOf(st, init, r) && Last(lists) == Acts(before, last, r);
      WithinLast(lists, o);
      WithinLast(batches, o);
      if o in last && CarriesId(init, st.electionId, OrderedId(o)) {
        var x :| Within(init, x) && x.envelope.electionId == st.electionId && OrderedId(x) == OrderedId(o);
        WithinLast(batches, x);
      }
    }
  }

  /**
   Two batchings of one set of deliveries leave the same senders of tallies and approvals in any round; and
   the same committers iff each new one commits, both ways, to a proposal standing once its batch is done.
   */
  lemma SplitsAgreeOnMembers(st: Control, xs: seq<seq<Ordered>>, ys: seq<seq<Ordered>>, r: string)
    requires IdsIdentifyIn(xs) && forall o :: Within(xs, o) <==> Within(ys, o)
    ensures var s, a, b := ShapeOf(RecordOf(st.rounds, r)), ActsOf(st, xs, r), ActsOf(st, ys, r);
            var x, y := RecordOf(ApplyBatches(st, xs).rounds, r), RecordOf(ApplyBatches(st, ys).rounds, r);
            && x.tallies.Keys == y.tallies.Keys && x.approvals.Keys == y.approvals.Keys
            && (x.openCommits.Keys == y.openCommits.Keys <==>
                  forall name :: name in s.committers || (CommitsSomewhere(s, a, name) <==> CommitsSomewhere(s, b, name)))
  {
    var s, a, b := ShapeOf(RecordOf(st.rounds, r)), ActsOf(st, xs, r), ActsOf(st, ys, r);
    BatchesClosedForm(st, xs, r);
    BatchesClosedForm(st, ys, r);
    forall o ensures Within(a, o) <==> Within(b, o) {
      ActsWithin(st, xs, r, o);
      ActsWithin(st, ys, r, o);
    }
    ListsAgreeOnMembers(s, a, b);
  }

  // ----- splitting a batch -----

  lemma {:induction false} ApplyAllAppend(st: Control, xs: seq<Ordered>, ys: seq<Ordered>)
    ensures ApplyAll(st, xs + ys) == ApplyAll(ApplyAll(st, xs), ys)
  {
    if ys == [] {
      assert xs + ys == xs;
    } else {
      assert Init(xs + ys) == xs + Init(ys) && Last(xs + ys) == Last(ys);
      ApplyAllAppend(st, xs, Init(ys));
    }
  }

  /** Splitting a batch along the replay order is harmless. */
  lemma SplitAlongOrder(st: Control, xs: seq<Ordered>, ys: seq<Ordered>)
    requires Sorted(OrderedKey, Sort(OrderedKey, xs) + Sort(OrderedKey, ys))
    ensures ApplyAll(st, Sort(OrderedKey, xs + ys)) == ApplyAll(ApplyAll(st, Sort(OrderedKey, xs)), Sort(OrderedKey, ys))
  {
    var a, b := Sort(OrderedKey, xs), Sort(OrderedKey, ys);
    SortAppend(OrderedKey, xs, ys);
    SortAppendRight(OrderedKey, a, ys);
    SortOfSorted(OrderedKey, a + b);
    ApplyAllAppend(st, a, b);
  }

  function SampleProposal(electionId: string, r: string): Ordered {
    Ordered(Transport("p", "", None), Envelope(1, electionId, Some(r), 0, "a", None, RoundOpenProposal("x", 1, 1, [])))
  }

  function SampleCommit(electionId: string, r: string): Ordered {
    Ordered(Transport("c", "", None), Envelope(1, electionId, Some(r), 0, "a", None, RoundOpenCommit("p")))
  }

  lemma ProposalFirst(st: Control, r: string)
    requires r !in st.rounds && "p" !in st.processed && "c" !in st.processed
    ensures var p, c := SampleProposal(st.electionId, r), SampleCommit(st.electionId, r);
            var after := Apply(Apply(st, "p", p.envelope), "c", c.envelope);
            r in after.rounds && after.rounds[r].phase == Open
  {
    var p, c := SampleProposal(st.electionId, r), SampleCommit(st.electionId, r);
    ApplyShape(st, p, r);
    ApplyShape(Apply(st, "p", p.envelope), c, r);
    assert NonBlank([]) == [];
    assert RosterSetBy(Some(p)) == [];
  }

  lemma CommitFirst(st: Control, r: string)
    requires r !in st.rounds && "p" !in st.processed && "c" !in st.processed
    ensures var p, c := SampleProposal(st.electionId, r), SampleCommit(st.electionId, r);
            var after := Apply(Apply(st, "c", c.envelope), "p", p.envelope);
            r in after.rounds && after.rounds[r].phase == OpenProposed
  {
    var p, c := SampleProposal(st.electionId, r), SampleCommit(st.electionId, r);
    ApplyShape(st, c, r);
    ApplyShape(Apply(st, "c", c.envelope), p, r);
  }

  lemma SampleOrder(electionId: string, r: string)
    ensures var p, c := SampleProposal(electionId, r), SampleCommit(electionId, r);
            Sort(OrderedKey, [c] + [p]) == [p] + [c]
  {
    var p, c := SampleProposal(electionId, r), SampleCommit(electionId, r);
    assert KeyLe(OrderedKey(p), OrderedKey(c));
    assert Sorted(OrderedKey, [p] + [c]);
    assert OrderedKey(p) != OrderedKey(c);
    assert multiset([c] + [p]) == multiset([p] + [c]);
    SortIgnoresOrder(OrderedKey, [c] + [p], [p] + [c]);
    SortOfSorted(OrderedKey, [p] + [c]);
  }

  /** Splitting it otherwise is not: a commit that arrives in a batch before its proposal is lost. */
  lemma SplitAgainstOrderDiverges(st: Control, r: string)
    requires r !in st.rounds && "p" !in st.processed && "c" !in st.processed
    ensures var p, c := SampleProposal(st.electionId, r), SampleCommit(st.electionId, r);
            var together, apart := ApplyAll(st, Sort(OrderedKey, [c] + [p])), ApplyAll(ApplyAll(st, [c]), [p]);
            && r in together.rounds && together.rounds[r].phase == Open
            && r in apart.rounds && apart.rounds[r].phase == OpenProposed
  {
    var p, c := SampleProposal(st.electionId, r), SampleCommit(st.electionId, r);
    SampleOrder(st.electionId, r);
    ProposalFirst(st, r);
    CommitFirst(st, r);
    TwoSteps(st, p, c);
    TwoSteps(st, c, p);
  }

  lemma TwoSteps(st: Control, x: Ordered, y: Ordered)
    ensures ApplyAll(st, [x]) == Apply(st, OrderedId(x), x.envelope)
    ensures ApplyAll(st, [x] + [y]) == Apply(Apply(st, OrderedId(x), x.envelope), OrderedId(y), y.envelope)
    ensures ApplyAll(ApplyAll(st, [x]), [y]) == Apply(Apply(st, OrderedId(x), x.envelope), OrderedId(y), y.envelope)
  {
    assert Init([x] + [y]) == [x] && Init([x]) == [] && Init([y]) == [];
  }

  function SampleDraft(electionId: string, r: string): Ordered {
    Ordered(Transport("d", "", None), Envelope(1, electionId, Some(r), 0, "a", None, RoundDraft("y", 7, 9, [])))
  }

  lemma SampleDraftOrder(electionId: string, r: string)
    ensures var d, p := SampleDraft(electionId, r), SampleProposal(electionId, r);
            Sort(OrderedKey, [p] + [d]) == [d] + [p]
  {
    var d, p := SampleDraft(electionId, r), SampleProposal(electionId, r);
    assert KeyLe(OrderedKey(d), OrderedKey(p));
    assert Sorted(OrderedKey, [d] + [p]);
    assert OrderedKey(d) != OrderedKey(p);
    assert multiset([p] + [d]) == multiset([d] + [p]);
    SortIgnoresOrder(OrderedKey, [p] + [d], [d] + [p]);
    SortOfSorted(OrderedKey, [d] + [p]);
  }

  lemma SettingOne(st: Control, o: Ordered, r: string)
    requires Counts(st, o) && o.envelope.roundId == Some(r) && Sets(o)
    ensures var after := Apply(st, OrderedId(o), o.envelope);
            && r in after.rounds && after.rounds[r].prompt == Some(o.envelope.payload.prompt)
            && after.rounds[r].thresholdT == Some(o.envelope.payload.thresholdT)
            && after.electionId == st.electionId && after.processed == st.processed + {OrderedId(o)}
  {
  }

  /**
   Nor is it harmless to what is shown: a draft that arrives in a batch after its proposal overwrites the
   proposal's prompt and thresholds, though phase, roster and members come out alike.
   */
  lemma SplitOverwritesSettings(st: Control, r: string)
    requires r !in st.rounds && "p" !in st.processed && "d" !in st.processed
    ensures var d, p := SampleDraft(st.electionId, r), SampleProposal(st.electionId, r);
            var together, apart := ApplyAll(st, Sort(OrderedKey, [p] + [d])).rounds, ApplyAll(ApplyAll(st, [p]), [d]).rounds;
            && r in together && together[r].prompt == Some("x") && together[r].thresholdT == Some(1)
            && r in apart && apart[r].prompt == Some("y") && apart[r].thresholdT == Some(7)
            && ShapeOf(together[r]) == ShapeOf(apart[r])
  {
    var d, p := SampleDraft(st.electionId, r), SampleProposal(st.electionId, r);
    var afterD, afterP := Apply(st, "d", d.envelope), Apply(st, "p", p.envelope);
    SampleDraftOrder(st.electionId, r);
    TwoSteps(st, d, p);
    TwoSteps(st, p, d);
    SettingOne(st, d, r);
    SettingOne(afterD, p, r);
    SettingOne(st, p, r);
    SettingOne(afterP, d, r);
    ApplyShape(st, d, r);
    ApplyShape(afterD, p, r);
    ApplyShape(st, p, r);
    ApplyShape(afterP, d, r);
  }
}
