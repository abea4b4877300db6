/**
 The derived election state, said of the set of delivered events: the closed forms of the two folds
 carried through sorting and finalization, and what follows from them.
 */
module DerivedForms {
  import opened Wrappers
  import opened Order
  import opened Sorting
  import opened Events
  import opened Validation
  import opened Reducer
  import PS = PublicState
  import PF = PublicClosedForm
  import BS = BallotState
  import BF = BallotClosedForm

  /** The public events in replay order. */
  function SortedPublics(events: seq<ProtocolEvent>): seq<PublicEvent> {
    Sort(PublicKey, PublicsOf(events))
  }

  function SortedBallots(events: seq<ProtocolEvent>): seq<BallotEvent> {
    Sort(BallotKey, BallotsOf(events))
  }

  /** The public state, from the public events alone. */
  function PublicStateOf(electionId: string, events: seq<ProtocolEvent>): PS.PublicState {
    PS.Finalize(PS.Fold(electionId, SortedPublics(events)))
  }

  /** The ballot state, from the ballots and the final public rounds. */
  function BallotStateOf(electionId: string, events: seq<ProtocolEvent>): BS.BallotState {
    BS.Finalize(BS.Fold(SortedBallots(events), PublicStateOf(electionId, events).rounds))
  }

  function StateOf(electionId: string, events: seq<ProtocolEvent>): DerivedState {
    DerivedState(electionId, PublicStateOf(electionId, events), BallotStateOf(electionId, events), CoordinatorCount(events))
  }

  /** Deriving is deriving plane by plane: this is the state that a successful call returns. */
  lemma DeriveByPlanes(electionId: string, events: seq<ProtocolEvent>)
    requires AllFrom(electionId, events)
    ensures Derive(electionId, events) == Ok(StateOf(electionId, events))
  {
    PlanesSortApart(events);
  }

  function RoundIn(publicState: PS.PublicState, r: string): Option<PS.Round> {
    PS.Find(publicState.rounds, r)
  }

  lemma PlanesSorted(events: seq<ProtocolEvent>)
    ensures Sorted(PublicKey, SortedPublics(events)) && Sorted(BallotKey, SortedBallots(events))
    ensures forall p :: p in SortedPublics(events) <==> p in PublicsOf(events)
    ensures forall b :: b in SortedBallots(events) <==> b in BallotsOf(events)
  {
    SortSorted(PublicKey, PublicsOf(events));
    SortSorted(BallotKey, BallotsOf(events));
    SortElements(PublicKey, PublicsOf(events));
    SortElements(BallotKey, BallotsOf(events));
  }

  // ----- public rounds -----

  lemma SameHas(xs: seq<PublicEvent>, ys: seq<PublicEvent>, r: string)
    requires forall p :: p in xs <==> p in ys
    ensures forall kind :: PF.Has(xs, kind, r) <==> PF.Has(ys, kind, r)
  {
  }

  lemma SameEarliest(t: Option<i64>, xs: seq<PublicEvent>, ys: seq<PublicEvent>, kind: PF.Kind, r: string)
    requires forall p :: p in xs <==> p in ys
    requires PF.Earliest(t, xs, kind, r)
    ensures PF.Earliest(t, ys, kind, r)
  {
    SameHas(xs, ys, r);
  }

  lemma SameSettled(round: PS.Round, xs: seq<PublicEvent>, ys: seq<PublicEvent>, field: PF.Field, r: string)
    requires forall p :: p in xs <==> p in ys
    requires PF.Settled(round, xs, field, r)
    ensures PF.Settled(round, ys, field, r)
  {
    var v := PF.Get(round, field);
    assert PF.Unwritten(xs, field, r) <==> PF.Unwritten(ys, field, r);
    if PF.Unwritten(xs, field, r) {
      if field == PF.ThresholdN {
        var o :| PF.FirstOpen(o, xs, r) && v == PF.Number(PS.DefaultThresholdN(o.open.roster));
        assert PF.FirstOpen(o, ys, r);
      }
    } else {
      var e :| e in xs && PF.Write(e, field, r) == Some(v) &&
               forall f :: f in xs && PF.Write(f, field, r).Some? ==> KeyLe(PublicKey(f), PublicKey(e));
      assert e in ys;
    }
  }

  lemma RoundFromFold(electionId: string, events: seq<ProtocolEvent>, r: string)
    ensures var acc := PS.Fold(electionId, SortedPublics(events));
            RoundIn(PublicStateOf(electionId, events), r) == if r in acc.rounds then Some(acc.rounds[r]) else None
  {
    PlanesSorted(events);
    PS.FoldFiled(electionId, SortedPublics(events));
    PS.FinalizeLists(PS.Fold(electionId, SortedPublics(events)), r);
  }

  lemma PhaseOfSet(electionId: string, sorted: seq<PublicEvent>, publics: seq<PublicEvent>, r: string)
    requires Sorted(PublicKey, sorted)
    requires forall p :: p in sorted <==> p in publics
    ensures var rounds := PS.Fold(electionId, sorted).rounds;
            && (r in rounds <==> PF.Known(publics, r))
            && (r in rounds ==> rounds[r].phase == PF.PhaseOf(publics, r))
  {
    PF.KnownRounds(electionId, sorted, r);
    PF.RoundPhase(electionId, sorted, r);
    SameHas(sorted, publics, r);
  }

  /** A round is known iff a definition or an open names it; its phase is then that of the set of events. */
  lemma RoundPhase(electionId: string, events: seq<ProtocolEvent>, r: string)
    ensures var round, publics := RoundIn(PublicStateOf(electionId, events), r), PublicsOf(events);
            && (round.Some? <==> PF.Known(publics, r))
            && (round.Some? ==> round.value.phase == PF.PhaseOf(publics, r))
  {
    PlanesSorted(events);
    RoundFromFold(electionId, events, r);
    PhaseOfSet(electionId, SortedPublics(events), PublicsOf(events), r);
  }

  /** A round opened at its earliest open, closed at its earliest close and was defined at its earliest definition. */
  lemma RoundTimes(electionId: string, events: seq<ProtocolEvent>, r: string)
    ensures var round, publics := RoundIn(PublicStateOf(electionId, events), r), PublicsOf(events);
            round.Some? ==>
              && PF.Earliest(round.value.openedAt, publics, PF.Opens, r)
              && PF.Earliest(round.value.closedAt, publics, PF.Closes, r)
              && PF.DefinedAt(round.value.definedAt, publics, r)
  {
    var sorted, publics := SortedPublics(events), PublicsOf(events);
    PlanesSorted(events);
    RoundFromFold(electionId, events, r);
    var acc := PS.Fold(electionId, sorted);
    if r in acc.rounds {
      PF.RoundPhase(electionId, sorted, r);
      PF.RoundRecords(electionId, sorted, r);
      SameEarliest(acc.rounds[r].openedAt, sorted, publics, PF.Opens, r);
      SameEarliest(acc.rounds[r].closedAt, sorted, publics, PF.Closes, r);
      SameHas(sorted, publics, r);
      SameEarliest(Some(acc.rounds[r].definedAt), sorted, publics,
                   if PF.Has(sorted, PF.Definitions, r) then PF.Definitions else PF.Opens, r);
    }
  }

  /** Prompt, thresholds, roster and result are each the write of the greatest writer, or the default. */
  lemma RoundSettings(electionId: string, events: seq<ProtocolEvent>, r: string, field: PF.Field)
    ensures var round := RoundIn(PublicStateOf(electionId, events), r);
            round.Some? ==> PF.Settled(round.value, PublicsOf(events), field, r)
  {
    PlanesSorted(events);
    RoundFromFold(electionId, events, r);
    PF.RoundSettings(electionId, SortedPublics(events), field, r);
    var round := RoundIn(PublicStateOf(electionId, events), r);
    if round.Some? {
      SameSettled(round.value, SortedPublics(events), PublicsOf(events), field, r);
    }
  }

  /** Receipts and disputes are listed with their round in replay order. */
  lemma RoundLists(electionId: string, events: seq<ProtocolEvent>, r: string)
    ensures var round := RoundIn(PublicStateOf(electionId, events), r);
            round.Some? ==>
              && round.value.receipts == PF.ReceiptsIn(SortedPublics(events), r)
              && round.value.disputes == PF.DisputesIn(SortedPublics(events), r)
  {
    PlanesSorted(events);
    RoundFromFold(electionId, events, r);
    PF.RoundRecords(electionId, SortedPublics(events), r);
  }

  /** The election title is that of the last election definition. */
  lemma ElectionTitle(electionId: string, events: seq<ProtocolEvent>)
    ensures PF.TitleIs(PublicStateOf(electionId, events).electionTitle, PublicsOf(events))
  {
    PlanesSorted(events);
    PF.LatestTitle(electionId, SortedPublics(events));
    SameTitle(PublicStateOf(electionId, events).electionTitle, SortedPublics(events), PublicsOf(events));
  }

  lemma SameTitle(title: Option<string>, xs: seq<PublicEvent>, ys: seq<PublicEvent>)
    requires forall p :: p in xs <==> p in ys
    requires PF.TitleIs(title, xs)
    ensures PF.TitleIs(title, ys)
  {
    if title.Some? {
      var e :| e in xs && e.ElectionDefinition? && e.election.title == title.value &&
               forall f :: f in xs && f.ElectionDefinition? ==> KeyLe(PublicKey(f), PublicKey(e));
      assert e in ys;
    }
  }

  /** Each known round is listed once, the most recently opened (or closed, or defined) first, ties by id. */
  lemma RoundsInOrder(electionId: string, events: seq<ProtocolEvent>)
    ensures StrictlySorted(PS.RoundKey, PublicStateOf(electionId, events).rounds)
  {
    PlanesSorted(events);
    PS.FoldFiled(electionId, SortedPublics(events));
    PS.FinalizeOrdered(PS.Fold(electionId, SortedPublics(events)));
  }

  ghost function KnownIds(publicState: PS.PublicState): set<string> {
    set round | round in publicState.rounds :: round.roundId
  }

  lemma KnownIdsAreKeys(acc: PS.Acc)
    requires PS.Filed(acc.rounds)
    ensures KnownIds(PS.Finalize(acc)) == acc.rounds.Keys
  {
    forall r ensures r in KnownIds(PS.Finalize(acc)) <==> r in acc.rounds.Keys {
      PS.FindFinds(PS.Finalize(acc).rounds, r);
      PS.FinalizeLists(acc, r);
      assert PS.Find(PS.Finalize(acc).rounds, r).Some? <==> r in acc.rounds;
    }
  }

  /**
   The issues are those of the closes, receipts, results and disputes that name no round known in the
   end, in replay order; in particular none says that a round was opened after closure.
   */
  lemma OnlyStrayIssues(electionId: string, events: seq<ProtocolEvent>)
    ensures var publicState := PublicStateOf(electionId, events);
            && publicState.issues == PF.Strays(SortedPublics(events), KnownIds(publicState))
            && forall i :: 0 <= i < |publicState.issues| ==> publicState.issues[i].code == UnknownRound
  {
    var sorted := SortedPublics(events);
    PlanesSorted(events);
    PF.IssuesAreStrays(electionId, sorted);
    PS.FoldFiled(electionId, sorted);
    KnownIdsAreKeys(PS.Fold(electionId, sorted));
    PF.StraysOnlyUnknownRound(sorted, PS.Fold(electionId, sorted).rounds.Keys);
  }

  // ----- ballots -----

  lemma BallotIdsIdentify(events: seq<ProtocolEvent>)
    requires IdsIdentify(EventId, events)
    ensures IdsIdentify(BallotId, BallotsOf(events)) && IdsIdentify(BallotId, SortedBallots(events))
  {
    SortElements(BallotKey, BallotsOf(events));
    forall b, c | b in BallotsOf(events) && c in BallotsOf(events) && BallotId(b) == BallotId(c) ensures b == c {
      BallotsOfHas(events, b);
      BallotsOfHas(events, c);
      assert EventId(Ballot(b)) == EventId(Ballot(c));
    }
  }

  lemma SameWins(xs: seq<BallotEvent>, ys: seq<BallotEvent>, rounds: seq<PS.Round>)
    requires forall b :: b in xs <==> b in ys
    ensures forall e :: BF.Valid(xs, rounds, e) <==> BF.Valid(ys, rounds, e)
    ensures forall e :: BF.Wins(xs, rounds, e) <==> BF.Wins(ys, rounds, e)
  {
    assert forall e :: BF.Valid(xs, rounds, e) <==> BF.Valid(ys, rounds, e);
  }

  /**
   The accepted ballots are exactly the winners: for each token of a ballot that passes the checks
   against the final public state, the least such ballot by creation time and id, across all rounds.
   */
  lemma AcceptedAreWinners(electionId: string, events: seq<ProtocolEvent>, a: BS.AcceptedBallot)
    requires IdsIdentify(EventId, events)
    ensures a in BallotStateOf(electionId, events).accepted <==>
              exists e :: BF.Wins(BallotsOf(events), PublicStateOf(electionId, events).rounds, e) && a == BS.Acceptance(e.ballot)
  {
    var rounds, sorted := PublicStateOf(electionId, events).rounds, SortedBallots(events);
    PlanesSorted(events);
    BallotIdsIdentify(events);
    BF.FirstValidWins(sorted, rounds);
    SameWins(sorted, BallotsOf(events), rounds);
  }

  /** A token is accepted iff some ballot that passes the checks spends it. */
  lemma AcceptedTokens(electionId: string, events: seq<ProtocolEvent>, token: string)
    requires IdsIdentify(EventId, events)
    ensures BF.Spends(BallotStateOf(electionId, events).accepted, token) <==>
              BF.Backed(BallotsOf(events), PublicStateOf(electionId, events).rounds, token)
  {
    var rounds, sorted := PublicStateOf(electionId, events).rounds, SortedBallots(events);
    PlanesSorted(events);
    BallotIdsIdentify(events);
    BF.FirstValidWins(sorted, rounds);
    BF.WinnersSpend(BS.Fold(sorted, rounds).accepted, sorted, rounds, token);
    BF.WonIffBacked(BS.Fold(sorted, rounds).tokens, sorted, rounds, token);
    SameBacking(sorted, BallotsOf(events), rounds, token);
  }

  lemma SameBacking(xs: seq<BallotEvent>, ys: seq<BallotEvent>, rounds: seq<PS.Round>, token: string)
    requires forall b :: b in xs <==> b in ys
    ensures BF.Backed(xs, rounds, token) <==> BF.Backed(ys, rounds, token)
  {
    assert forall e :: BF.Valid(xs, rounds, e) <==> BF.Valid(ys, rounds, e);
  }

  /**
   Which ballots pass, said of the public events: the round is known and undisputed; it has a result, or an
   open and no close; every close of it comes later; the choice is Yes or No; there is a token; and at
   least threshold_t distinct shares are given, all from the roster.
   */
  lemma PassesIff(electionId: string, events: seq<ProtocolEvent>, b: EncryptedBallotEvent)
    ensures var r, publics := b.roundId, PublicsOf(events);
            var round := RoundIn(PublicStateOf(electionId, events), r);
            BS.Passes(b, PublicStateOf(electionId, events).rounds) <==>
              && PF.Known(publics, r)
              && Votable(publics, r)
              && BeforeEveryClose(b, publics)
              && (b.choice == "Yes" || b.choice == "No")
              && b.tokenId.Some? && b.tokenId.value != ""
              && round.Some? && |BS.Shares(b)| >= round.value.thresholdT && BS.Shares(b) <= NameSet(round.value.roster)
  {
    var round := RoundIn(PublicStateOf(electionId, events), b.roundId);
    RoundPhase(electionId, events, b.roundId);
    ChecksMean(b, PublicStateOf(electionId, events).rounds);
    if round.Some? {
      RoundTimes(electionId, events, b.roundId);
      LaterThanAll(round.value.closedAt, PublicsOf(events), b);
      assert round.value.phase == PS.Open || round.value.phase == PS.Published <==> Votable(PublicsOf(events), b.roundId);
    }
  }

  lemma ChecksMean(b: EncryptedBallotEvent, rounds: seq<PS.Round>)
    ensures var round := PS.Find(rounds, b.roundId);
            BS.Passes(b, rounds) <==>
              && round.Some?
              && (round.value.phase == PS.Open || round.value.phase == PS.Published)
              && (round.value.closedAt.None? || b.createdAt < round.value.closedAt.value)
              && (b.choice == "Yes" || b.choice == "No")
              && b.tokenId.Some? && b.tokenId.value != ""
              && |BS.Shares(b)| >= round.value.thresholdT && BS.Shares(b) <= NameSet(round.value.roster)
  {
  }

  /** A round that takes ballots: undisputed, and published or else open. */
  ghost predicate Votable(publics: seq<PublicEvent>, r: string) {
    && !PF.Has(publics, PF.Disputes, r)
    && (PF.Has(publics, PF.Results, r) || (PF.Has(publics, PF.Opens, r) && !PF.Has(publics, PF.Closes, r)))
  }

  ghost predicate BeforeEveryClose(b: EncryptedBallotEvent, publics: seq<PublicEvent>) {
    forall p :: p in publics && PF.About(p, PF.Closes, b.roundId) ==> b.createdAt < p.CreatedAt()
  }

  lemma LaterThanAll(closedAt: Option<i64>, publics: seq<PublicEvent>, b: EncryptedBallotEvent)
    requires PF.Earliest(closedAt, publics, PF.Closes, b.roundId)
    ensures BeforeEveryClose(b, publics) <==> (closedAt.None? || b.createdAt < closedAt.value)
  {
  }

  /** A ballot that does not win is rejected, for the first check it fails or for its spent token. */
  lemma LosersRejected(electionId: string, events: seq<ProtocolEvent>, e: BallotEvent)
    requires IdsIdentify(EventId, events)
    requires e in BallotsOf(events) && e.EncryptedBallot?
    requires !BF.Wins(BallotsOf(events), PublicStateOf(electionId, events).rounds, e)
    ensures BS.Rejection(e.ballot, BF.Reason(e.ballot, PublicStateOf(electionId, events).rounds)) in
              BallotStateOf(electionId, events).rejected
  {
    var rounds, sorted := PublicStateOf(electionId, events).rounds, SortedBallots(events);
    PlanesSorted(events);
    BallotIdsIdentify(events);
    BF.EveryBallotJudged(sorted, rounds, e);
    if BS.Passes(e.ballot, rounds) && BS.Acceptance(e.ballot) in BallotStateOf(electionId, events).accepted {
      AcceptedWins(electionId, events, e);
    }
  }

  lemma AcceptedWins(electionId: string, events: seq<ProtocolEvent>, e: BallotEvent)
    requires IdsIdentify(EventId, events)
    requires e in BallotsOf(events) && e.EncryptedBallot? && e.ballot.tokenId.Some?
    requires BS.Acceptance(e.ballot) in BallotStateOf(electionId, events).accepted
    ensures BF.Wins(BallotsOf(events), PublicStateOf(electionId, events).rounds, e)
  {
    BallotIdsIdentify(events);
    var w := WinnerBehind(electionId, events, BS.Acceptance(e.ballot));
    assert BallotId(w) == BallotId(e);
  }

  /** Accepted tokens are pairwise distinct, so are accepted event ids, and the list is strictly ordered. */
  lemma AcceptedDistinct(electionId: string, events: seq<ProtocolEvent>)
    ensures var accepted := BallotStateOf(electionId, events).accepted;
            && DistinctIds(BF.AcceptedToken, accepted)
            && DistinctIds(BF.AcceptedId, accepted)
            && StrictlySorted(BF.AcceptedKey, accepted)
  {
    PlanesSorted(events);
    BF.AcceptedInOrder(SortedBallots(events), PublicStateOf(electionId, events).rounds);
  }

  /** The receipts match the accepted ballots one for one, in order. */
  lemma ReceiptsMatch(electionId: string, events: seq<ProtocolEvent>, i: nat)
    ensures var ballots := BallotStateOf(electionId, events);
            && |ballots.receipts| == |ballots.accepted|
            && (i < |ballots.accepted| ==> ballots.receipts[i] == BS.ReceiptFor(ballots.accepted[i]))
  {
    var acc := BS.Fold(SortedBallots(events), PublicStateOf(electionId, events).rounds);
    assert BallotStateOf(electionId, events).receipts == BS.ReceiptsFor(acc.accepted);
  }

  /** Any two ballots accepted in one round carry at least 2t - n coordinator shares in common, and t <= n. */
  lemma AcceptedQuorumsMeet(electionId: string, events: seq<ProtocolEvent>, a: BS.AcceptedBallot, b: BS.AcceptedBallot)
    requires a in BallotStateOf(electionId, events).accepted
    requires b in BallotStateOf(electionId, events).accepted
    requires a.roundId == b.roundId
    ensures var round := RoundIn(PublicStateOf(electionId, events), a.roundId);
            && round.Some?
            && round.value.thresholdT <= |NameSet(round.value.roster)|
            && exists x, y :: Ballot(EncryptedBallot(x)) in events && Ballot(EncryptedBallot(y)) in events &&
                              x.tokenId.Some? && y.tokenId.Some? && BS.Acceptance(x) == a && BS.Acceptance(y) == b &&
                              |BS.Shares(x) * BS.Shares(y)| >= 2 * round.value.thresholdT - |NameSet(round.value.roster)|
  {
    var rounds, sorted := PublicStateOf(electionId, events).rounds, SortedBallots(events);
    PlanesSorted(events);
    BF.AcceptedInOrder(sorted, rounds);
    var x :| BF.Valid(sorted, rounds, x) && a == BS.Acceptance(x.ballot);
    var y :| BF.Valid(sorted, rounds, y) && b == BS.Acceptance(y.ballot);
    BallotsOfHas(events, x);
    BallotsOfHas(events, y);
    assert Ballot(EncryptedBallot(x.ballot)) in events && Ballot(EncryptedBallot(y.ballot)) in events;
    BF.QuorumsMeet(x.ballot, y.ballot, rounds);
  }

  /** What is counted of ballot deliveries: those of a round, those with an id, and all of them. */
  ghost predicate CountsAs(xs: seq<BallotEvent>, ys: seq<BallotEvent>, r: string, id: string) {
    && BF.DeliveriesIn(xs, r) == BF.DeliveriesIn(ys, r)
    && BF.DeliveriesWith(xs, id) == BF.DeliveriesWith(ys, id)
    && |BF.Encrypted(xs)| == |BF.Encrypted(ys)|
  }

  lemma CountsSnoc(xs: seq<BallotEvent>, ys: seq<BallotEvent>, b: BallotEvent, r: string, id: string)
    requires CountsAs(xs, ys, r, id)
    ensures CountsAs(xs + [b], ys + [b], r, id)
  {
    assert Init(xs + [b]) == xs && Init(ys + [b]) == ys;
  }

  lemma CountsSwap(xs: seq<BallotEvent>, b: BallotEvent, c: BallotEvent, r: string, id: string)
    ensures CountsAs(xs + [b] + [c], xs + [c] + [b], r, id)
  {
    assert Init(xs + [b] + [c]) == xs + [b] && Init(xs + [c] + [b]) == xs + [c];
    assert Init(xs + [b]) == xs && Init(xs + [c]) == xs;
  }

  lemma {:induction false} InsertCounts(ys: seq<BallotEvent>, b: BallotEvent, r: string, id: string)
    ensures CountsAs(Insert(BallotKey, ys, b), ys + [b], r, id)
  {
    if ys != [] && !KeyLe(BallotKey(Last(ys)), BallotKey(b)) {
      var init, last := Init(ys), Last(ys);
      InsertCounts(init, b, r, id);
      CountsSnoc(Insert(BallotKey, init, b), init + [b], last, r, id);
      CountsSwap(init, b, last, r, id);
      SplitLast(ys);
    }
  }

  lemma {:induction false} SortedCounts(xs: seq<BallotEvent>, r: string, id: string)
    ensures CountsAs(Sort(BallotKey, xs), xs, r, id)
  {
    if xs != [] {
      SortedCounts(Init(xs), r, id);
      InsertCounts(Sort(BallotKey, Init(xs)), Last(xs), r, id);
      CountsSnoc(Sort(BallotKey, Init(xs)), Init(xs), Last(xs), r, id);
      SplitLast(xs);
    }
  }

  /**
   Every delivery of a ballot yields one record: an event id has as many accepted and rejected records as
   deliveries, one of them accepted at most.
   */
  lemma DeliveriesConserved(electionId: string, events: seq<ProtocolEvent>, id: string)
    ensures var ballots := BallotStateOf(electionId, events);
            && BF.AcceptedWith(ballots.accepted, id) + BF.RejectedWith(ballots.rejected, id) ==
                 BF.DeliveriesWith(BallotsOf(events), id)
            && BF.AcceptedWith(ballots.accepted, id) <= 1
            && |ballots.accepted| + |ballots.rejected| == |BF.Encrypted(BallotsOf(events))|
  {
    var sorted, rounds := SortedBallots(events), PublicStateOf(electionId, events).rounds;
    BF.EveryDeliveryRecorded(sorted, rounds, "");
    BF.EveryIdRecorded(sorted, rounds, id);
    AcceptedDistinct(electionId, events);
    BF.AcceptedOnce(BallotStateOf(electionId, events).accepted, id);
    SortedCounts(BallotsOf(events), "", id);
  }

  /** The summaries name exactly the rounds ballots name. */
  lemma SummariesCoverRounds(electionId: string, events: seq<ProtocolEvent>, r: string)
    ensures var summaries := BallotStateOf(electionId, events).summaries;
            BF.Summarized(summaries, r) <==> BF.RoundNamed(BallotsOf(events), r)
  {
    PlanesSorted(events);
    BF.SummariesCover(SortedBallots(events), PublicStateOf(electionId, events).rounds, r);
    assert BF.RoundNamed(BallotsOf(events), r) <==> BF.RoundNamed(SortedBallots(events), r);
  }

  /** The summaries come in ascending order, each round once. */
  lemma SummariesInOrder(electionId: string, events: seq<ProtocolEvent>, i: nat, j: nat)
    requires i < j < |BallotStateOf(electionId, events).summaries|
    ensures var summaries := BallotStateOf(electionId, events).summaries;
            StrLe(summaries[i].roundId, summaries[j].roundId) && summaries[i].roundId != summaries[j].roundId
  {
    PlanesSorted(events);
    BF.SummariesAscend(BS.Fold(SortedBallots(events), PublicStateOf(electionId, events).rounds), i, j);
  }

  /** In each summary yes + no = accepted, and accepted + rejected = the deliveries naming its round. */
  lemma SummariesInBalance(electionId: string, events: seq<ProtocolEvent>, i: nat)
    requires i < |BallotStateOf(electionId, events).summaries|
    ensures var ballots := BallotStateOf(electionId, events);
            var s := ballots.summaries[i];
            && s.yesCount + s.noCount == s.acceptedCount == BS.AcceptedIn(ballots.accepted, s.roundId)
            && s.acceptedCount + s.rejectedCount == BF.DeliveriesIn(BallotsOf(events), s.roundId)
  {
    PlanesSorted(events);
    BF.SummariesBalance(SortedBallots(events), PublicStateOf(electionId, events).rounds, i);
    SortedCounts(BallotsOf(events), BallotStateOf(electionId, events).summaries[i].roundId, "");
  }

  // ----- adding ballots -----

  lemma {:induction false} ProjectAppend(xs: seq<ProtocolEvent>, ys: seq<ProtocolEvent>)
    ensures PublicsOf(xs + ys) == PublicsOf(xs) + PublicsOf(ys)
  {
    if ys == [] {
      assert xs + ys == xs;
    } else {
      assert Init(xs + ys) == xs + Init(ys);
      ProjectAppend(xs, Init(ys));
    }
  }

  ghost predicate NoPublics(events: seq<ProtocolEvent>) {
    forall e :: e in events ==> !e.Public?
  }

  lemma {:induction false} NoPublicsNone(events: seq<ProtocolEvent>)
    requires NoPublics(events)
    ensures PublicsOf(events) == []
  {
    if events != [] {
      SplitLast(events);
      assert Last(events) in events;
      NoPublicsNone(Init(events));
    }
  }

  lemma SamePublicState(electionId: string, xs: seq<ProtocolEvent>, ys: seq<ProtocolEvent>)
    requires NoPublics(ys)
    ensures PublicStateOf(electionId, xs + ys) == PublicStateOf(electionId, xs)
  {
    ProjectAppend(xs, ys);
    NoPublicsNone(ys);
    assert PublicsOf(xs + ys) == PublicsOf(xs);
  }

  lemma WinnerShift(xs: seq<BallotEvent>, all: seq<BallotEvent>, rounds: seq<PS.Round>, w: BallotEvent, v: BallotEvent)
    requires IdsIdentify(BallotId, all)
    requires forall b :: b in xs ==> b in all
    requires BF.Wins(xs, rounds, w) && BF.Wins(all, rounds, v) && v.ballot.tokenId == w.ballot.tokenId
    ensures v == w || (KeyLt(BallotKey(v), BallotKey(w)) && v !in xs)
  {
    assert BF.Valid(all, rounds, w);
    KeyOrderIsTotal(BallotKey(v), BallotKey(w), BallotKey(v));
    if v in xs {
      assert BF.Valid(xs, rounds, v);
    }
  }

  /**
   With the public events fixed, more ballots never take a token out of the accepted set, and the ballot
   that wins a token changes only to a newly added one with a smaller (creation time, id).
   */
  lemma MoreBallotsKeepTokens(electionId: string, xs: seq<ProtocolEvent>, ys: seq<ProtocolEvent>, a: BS.AcceptedBallot)
    requires IdsIdentify(EventId, xs + ys) && NoPublics(ys)
    requires a in BallotStateOf(electionId, xs).accepted
    ensures exists b :: b in BallotStateOf(electionId, xs + ys).accepted && (b == a || Overtakes(b, a, xs, ys))
  {
    var all, rounds := xs + ys, PublicStateOf(electionId, xs).rounds;
    SamePublicState(electionId, xs, ys);
    assert IdsIdentify(EventId, xs);
    var w := WinnerBehind(electionId, xs, a);
    forall b | b in BallotsOf(xs) ensures b in BallotsOf(all) {
      BallotsOfHas(xs, b);
      BallotsOfHas(all, b);
    }
    var b, v := WinnerFor(electionId, all, w);
    SameOrOvertakes(xs, ys, rounds, w, v);
    assert b == a || Overtakes(b, a, xs, ys);
  }

  lemma SameOrOvertakes(xs: seq<ProtocolEvent>, ys: seq<ProtocolEvent>, rounds: seq<PS.Round>, w: BallotEvent, v: BallotEvent)
    requires IdsIdentify(EventId, xs + ys)
    requires forall b :: b in BallotsOf(xs) ==> b in BallotsOf(xs + ys)
    requires BF.Wins(BallotsOf(xs), rounds, w) && BF.Wins(BallotsOf(xs + ys), rounds, v) && v.ballot.tokenId == w.ballot.tokenId
    ensures v == w || Overtakes(BS.Acceptance(v.ballot), BS.Acceptance(w.ballot), xs, ys)
  {
    BallotIdsIdentify(xs + ys);
    WinnerShift(BallotsOf(xs), BallotsOf(xs + ys), rounds, w, v);
    BallotsOfHas(xs + ys, v);
    BallotsOfHas(xs, v);
    assert Ballot(v) == Ballot(EncryptedBallot(v.ballot));
  }

  lemma WinnerBehind(electionId: string, events: seq<ProtocolEvent>, a: BS.AcceptedBallot) returns (w: BallotEvent)
    requires IdsIdentify(EventId, events) && a in BallotStateOf(electionId, events).accepted
    ensures BF.Wins(BallotsOf(events), PublicStateOf(electionId, events).rounds, w) && a == BS.Acceptance(w.ballot)
  {
    AcceptedAreWinners(electionId, events, a);
    w :| BF.Wins(BallotsOf(events), PublicStateOf(electionId, events).rounds, w) && a == BS.Acceptance(w.ballot);
  }

  lemma WinnerFor(electionId: string, events: seq<ProtocolEvent>, w: BallotEvent)
    returns (b: BS.AcceptedBallot, v: BallotEvent)
    requires IdsIdentify(EventId, events)
    requires w in BallotsOf(events) && w.EncryptedBallot?
    requires BS.Passes(w.ballot, PublicStateOf(electionId, events).rounds)
    ensures b in BallotStateOf(electionId, events).accepted
    ensures BF.Wins(BallotsOf(events), PublicStateOf(electionId, events).rounds, v)
    ensures b == BS.Acceptance(v.ballot) && v.ballot.tokenId == w.ballot.tokenId
  {
    var rounds := PublicStateOf(electionId, events).rounds;
    assert BF.Valid(BallotsOf(events), rounds, w);
    AcceptedTokens(electionId, events, w.ballot.tokenId.value);
    assert BF.Backed(BallotsOf(events), rounds, w.ballot.tokenId.value);
    b :| b in BallotStateOf(electionId, events).accepted && b.tokenId == w.ballot.tokenId.value;
    v := WinnerBehind(electionId, events, b);
  }

  /** `b` spends the token of `a`, comes before it, and was delivered only in `ys`. */
  ghost predicate Overtakes(b: BS.AcceptedBallot, a: BS.AcceptedBallot, xs: seq<ProtocolEvent>, ys: seq<ProtocolEvent>) {
    && b.tokenId == a.tokenId
    && KeyLt(BF.AcceptedKey(b), BF.AcceptedKey(a))
    && exists e :: Ballot(EncryptedBallot(e)) in ys && Ballot(EncryptedBallot(e)) !in xs &&
                   e.tokenId.Some? && b == BS.Acceptance(e)
  }
}
