/** Replay status and diagnostics counts (`diagnostics.rs`). */
module Diagnostics {
  import opened Wrappers
  import opened Sorting
  import opened Events
  import opened Validation
  import opened Reducer
  import opened DerivedForms
  import C = Convergence
  import R = Redelivery
  import PS = PublicState
  import BS = BallotState
  import BF = BallotClosedForm

  datatype ReplayStatus = ReplayStatus(totalEvents: nat, uniqueEvents: nat, duplicateEvents: nat, lastEventId: Option<string>)

  datatype IssueCount = IssueCount(code: ValidationCode, count: nat)

  datatype ProtocolDiagnostics = ProtocolDiagnostics(
    replayStatus: ReplayStatus, issueCounts: seq<IssueCount>, rejectedBallotCount: nat, acceptedBallotCount: nat,
    knownRoundIds: seq<string>, snapshotCompatible: bool)

  /** Every delivery is either the first with its id or a duplicate. */
  method BuildReplayStatus(events: seq<ProtocolEvent>) returns (status: ReplayStatus)
    ensures status.totalEvents == |events|
    ensures status.uniqueEvents == |Ids(EventId, events)|
    ensures status.totalEvents == status.uniqueEvents + status.duplicateEvents
    ensures status.lastEventId == if events == [] then None else Some(EventId(Last(events)))
  {
    var seen := {};
    var duplicates := 0;
    for i := 0 to |events|
      invariant seen == Ids(EventId, events[..i])
      invariant |seen| + duplicates == i
    {
      var next := events[..i + 1];
      assert Init(next) == events[..i] && Last(next) == events[i];
      if EventId(events[i]) in seen {
        duplicates := duplicates + 1;
        assert seen == seen + {EventId(events[i])};
      } else {
        seen := seen + {EventId(events[i])};
      }
    }
    assert events[..|events|] == events;
    status := ReplayStatus(|events|, |seen|, duplicates, if events == [] then None else Some(EventId(Last(events))));
  }

  // ----- counting issues by code -----

  /** The codes of the public issues, then of the rejections. */
  function IssueCodes(state: DerivedState): seq<ValidationCode> {
    PublicCodes(state.publicState.issues) + RejectionCodes(state.ballotState.rejected)
  }

  function PublicCodes(issues: seq<ValidationIssue>): (codes: seq<ValidationCode>)
    ensures |codes| == |issues| && forall i :: 0 <= i < |issues| ==> codes[i] == issues[i].code
  {
    seq(|issues|, i requires 0 <= i < |issues| => issues[i].code)
  }

  function RejectionCodes(rejected: seq<BS.RejectedBallot>): (codes: seq<ValidationCode>)
    ensures |codes| == |rejected| && forall i :: 0 <= i < |rejected| ==> codes[i] == rejected[i].reason.code
  {
    seq(|rejected|, i requires 0 <= i < |rejected| => rejected[i].reason.code)
  }

  /** The codes in their `Ord` order. */
  const ALL_CODES: seq<ValidationCode> := [
    InvalidStructure, WrongElection, UnknownRound, RoundNotOpen, RoundClosed, InvalidChoice, MissingTokenId,
    NotEnoughCoordinatorShares, UnauthorizedCoordinatorShare, DuplicateToken, DuplicateEvent, ContradictoryRoundState]

  /** `into_iter()` over the `BTreeMap` of counts, restricted to the given codes. */
  function Listed(counts: map<ValidationCode, nat>, codes: seq<ValidationCode>): seq<IssueCount> {
    if codes == [] then [] else
      Listed(counts, Init(codes)) + if Last(codes) in counts then [IssueCount(Last(codes), counts[Last(codes)])] else []
  }

  function Total(counts: seq<IssueCount>): nat {
    if counts == [] then 0 else Total(Init(counts)) + Last(counts).count
  }

  /** How often each code occurs, as a map with no zero entries. */
  ghost predicate Tallies(counts: map<ValidationCode, nat>, codes: seq<ValidationCode>) {
    forall c :: (c in counts <==> c in codes) && (c in counts ==> counts[c] == multiset(codes)[c])
  }

  method CountIssues(codes: seq<ValidationCode>) returns (counts: map<ValidationCode, nat>)
    ensures Tallies(counts, codes)
  {
    counts := map[];
    for i := 0 to |codes|
      invariant Tallies(counts, codes[..i])
    {
      assert codes[..i + 1] == codes[..i] + [codes[i]];
      counts := counts[codes[i] := (if codes[i] in counts then counts[codes[i]] else 0) + 1];
    }
    assert codes[..|codes|] == codes;
  }

  function Occurring(codes: seq<ValidationCode>, among: seq<ValidationCode>): nat {
    if among == [] then 0 else Occurring(codes, Init(among)) + multiset(codes)[Last(among)]
  }

  lemma {:induction false} TotalListed(counts: map<ValidationCode, nat>, codes: seq<ValidationCode>, among: seq<ValidationCode>)
    requires Tallies(counts, codes)
    ensures Total(Listed(counts, among)) == Occurring(codes, among)
  {
    if among != [] {
      TotalListed(counts, codes, Init(among));
      var init, c := Listed(counts, Init(among)), Last(among);
      if c in counts {
        assert Init(init + [IssueCount(c, counts[c])]) == init;
      } else {
        assert c !in codes && multiset(codes)[c] == 0;
        assert init + [] == init;
      }
    }
  }

  lemma {:induction false} OccurringSnoc(codes: seq<ValidationCode>, c: ValidationCode, among: seq<ValidationCode>)
    requires forall i, j :: 0 <= i < j < |among| ==> among[i] != among[j]
    ensures Occurring(codes + [c], among) == Occurring(codes, among) + if c in among then 1 else 0
  {
    if among != [] {
      OccurringSnoc(codes, c, Init(among));
      SplitLast(among);
      assert multiset(codes + [c]) == multiset(codes) + multiset{c};
      if Last(among) == c {
        assert forall i :: 0 <= i < |among| - 1 ==> among[i] != c;
      }
    }
  }

  lemma {:induction false} OccurringAll(codes: seq<ValidationCode>)
    ensures Occurring(codes, ALL_CODES) == |codes|
  {
    if codes == [] {
      NoneOccur(ALL_CODES);
    } else {
      OccurringAll(Init(codes));
      CodesDistinct(Last(codes));
      OccurringSnoc(Init(codes), Last(codes), ALL_CODES);
      SplitLast(codes);
    }
  }

  lemma {:induction false} NoneOccur(among: seq<ValidationCode>)
    ensures Occurring([], among) == 0
  {
    if among != [] {
      NoneOccur(Init(among));
    }
  }

  function Rank(c: ValidationCode): nat
    ensures Rank(c) < |ALL_CODES| && ALL_CODES[Rank(c)] == c
  {
    match c
    case InvalidStructure => 0
    case WrongElection => 1
    case UnknownRound => 2
    case RoundNotOpen => 3
    case RoundClosed => 4
    case InvalidChoice => 5
    case MissingTokenId => 6
    case NotEnoughCoordinatorShares => 7
    case UnauthorizedCoordinatorShare => 8
    case DuplicateToken => 9
    case DuplicateEvent => 10
    case ContradictoryRoundState => 11
  }

  lemma CodesDistinct(c: ValidationCode)
    ensures forall i, j :: 0 <= i < j < |ALL_CODES| ==> ALL_CODES[i] != ALL_CODES[j]
    ensures c in ALL_CODES
  {
    forall i | 0 <= i < |ALL_CODES| ensures Rank(ALL_CODES[i]) == i {}
    assert ALL_CODES[Rank(c)] == c;
  }

  /** Every code that occurs is listed with the number of times it does, once, in the codes' order. */
  ghost predicate ListsCounts(listed: seq<IssueCount>, codes: seq<ValidationCode>) {
    && (forall i :: 0 <= i < |listed| ==> listed[i].code in codes && listed[i].count == multiset(codes)[listed[i].code])
    && (forall c :: c in codes ==> CodeListed(listed, c))
    && (forall i, j :: 0 <= i < j < |listed| ==> Rank(listed[i].code) < Rank(listed[j].code))
  }

  ghost predicate Ranked(among: seq<ValidationCode>) {
    forall i, j :: 0 <= i < j < |among| ==> Rank(among[i]) < Rank(among[j])
  }

  ghost predicate CodeListed(listed: seq<IssueCount>, c: ValidationCode) {
    exists i :: 0 <= i < |listed| && listed[i].code == c
  }

  lemma CodeListedSnoc(listed: seq<IssueCount>, n: IssueCount, c: ValidationCode)
    ensures CodeListed(listed + [n], c) <==> CodeListed(listed, c) || n.code == c
  {
    if CodeListed(listed, c) {
      var i :| 0 <= i < |listed| && listed[i].code == c;
      assert (listed + [n])[i].code == c;
    }
    if n.code == c {
      assert (listed + [n])[|listed|].code == c;
    }
  }

  /** Of the codes in `among`, those that occur are listed with their counts, in order. */
  ghost predicate ListsAmong(listed: seq<IssueCount>, codes: seq<ValidationCode>, among: seq<ValidationCode>) {
    && (forall n :: n in listed ==> n.code in among && n.code in codes && n.count == multiset(codes)[n.code])
    && (forall c :: c in codes && c in among ==> CodeListed(listed, c))
    && (forall i, j :: 0 <= i < j < |listed| ==> Rank(listed[i].code) < Rank(listed[j].code))
  }

  lemma ListsOneMore(listed: seq<IssueCount>, codes: seq<ValidationCode>, among: seq<ValidationCode>, c: ValidationCode)
    requires ListsAmong(listed, codes, among) && c in codes && forall d :: d in among ==> Rank(d) < Rank(c)
    ensures ListsAmong(listed + [IssueCount(c, multiset(codes)[c])], codes, among + [c])
  {
    var after := listed + [IssueCount(c, multiset(codes)[c])];
    forall d | d in codes && d in among + [c] ensures CodeListed(after, d) {
      CodeListedSnoc(listed, IssueCount(c, multiset(codes)[c]), d);
    }
    forall i, j | 0 <= i < j < |after| ensures Rank(after[i].code) < Rank(after[j].code) {
      assert listed[i] in listed;
    }
  }

  lemma ListsNoMore(listed: seq<IssueCount>, codes: seq<ValidationCode>, among: seq<ValidationCode>, c: ValidationCode)
    requires ListsAmong(listed, codes, among) && c !in codes
    ensures ListsAmong(listed, codes, among + [c])
  {
  }

  lemma {:induction false} ListedAmong(counts: map<ValidationCode, nat>, codes: seq<ValidationCode>, among: seq<ValidationCode>)
    requires Tallies(counts, codes) && Ranked(among)
    ensures ListsAmong(Listed(counts, among), codes, among)
  {
    if among != [] {
      var c, init := Last(among), Init(among);
      SplitLast(among);
      ListedAmong(counts, codes, init);
      if c in counts {
        forall d | d in init ensures Rank(d) < Rank(c) {
          var i :| 0 <= i < |among| - 1 && among[i] == d;
        }
        ListsOneMore(Listed(counts, init), codes, init, c);
      } else {
        ListsNoMore(Listed(counts, init), codes, init, c);
        assert Listed(counts, init) + [] == Listed(counts, init);
      }
    }
  }

  lemma AllRanked()
    ensures Ranked(ALL_CODES) && forall c :: c in ALL_CODES
  {
    forall i | 0 <= i < |ALL_CODES| ensures Rank(ALL_CODES[i]) == i {}
    forall c ensures c in ALL_CODES {
      CodesDistinct(c);
    }
  }

  lemma AllListed(listed: seq<IssueCount>, codes: seq<ValidationCode>, among: seq<ValidationCode>)
    requires ListsAmong(listed, codes, among) && forall c :: c in among
    ensures ListsCounts(listed, codes)
  {
    assert forall i :: 0 <= i < |listed| ==> listed[i] in listed;
  }

  lemma CountsListed(counts: map<ValidationCode, nat>, codes: seq<ValidationCode>)
    requires Tallies(counts, codes)
    ensures ListsCounts(Listed(counts, ALL_CODES), codes)
  {
    AllRanked();
    ListedAmong(counts, codes, ALL_CODES);
    AllListed(Listed(counts, ALL_CODES), codes, ALL_CODES);
  }

  /** The codes counted are those of the public issues and of the rejections. */
  lemma CodesCounted(state: DerivedState, c: ValidationCode)
    ensures c in IssueCodes(state) <==>
              || (exists i :: 0 <= i < |state.publicState.issues| && state.publicState.issues[i].code == c)
              || (exists i :: 0 <= i < |state.ballotState.rejected| && state.ballotState.rejected[i].reason.code == c)
    ensures |IssueCodes(state)| == |state.publicState.issues| + |state.ballotState.rejected|
  {
    var publics, rejections := PublicCodes(state.publicState.issues), RejectionCodes(state.ballotState.rejected);
    assert c in publics <==> exists i :: 0 <= i < |state.publicState.issues| && state.publicState.issues[i].code == c;
    assert c in rejections <==>
           exists i :: 0 <= i < |state.ballotState.rejected| && state.ballotState.rejected[i].reason.code == c;
  }

  method BuildProtocolDiagnostics(events: seq<ProtocolEvent>, state: DerivedState, snapshotCompatible: bool)
    returns (d: ProtocolDiagnostics)
    ensures d.replayStatus.totalEvents == d.replayStatus.uniqueEvents + d.replayStatus.duplicateEvents == |events|
    ensures d.replayStatus.uniqueEvents == |Ids(EventId, events)|
    ensures Total(d.issueCounts) == |state.publicState.issues| + |state.ballotState.rejected|
    ensures exists counts :: Tallies(counts, IssueCodes(state)) && d.issueCounts == Listed(counts, ALL_CODES)
    ensures ListsCounts(d.issueCounts, IssueCodes(state))
    ensures d.replayStatus.lastEventId == if events == [] then None else Some(EventId(events[|events| - 1]))
    ensures d.rejectedBallotCount == |state.ballotState.rejected|
    ensures d.acceptedBallotCount == |state.ballotState.accepted|
    ensures StrictlyAscending(d.knownRoundIds)
    ensures forall r :: r in d.knownRoundIds <==> RoundIn(state.publicState, r).Some?
    ensures d.snapshotCompatible == snapshotCompatible
  {
    var counts := CountIssues(IssueCodes(state));
    TotalListed(counts, IssueCodes(state), ALL_CODES);
    OccurringAll(IssueCodes(state));
    CountsListed(counts, IssueCodes(state));
    var status := BuildReplayStatus(events);
    var ids := set round | round in state.publicState.rounds :: round.roundId;
    AscendingSorted(ids);
    d := ProtocolDiagnostics(status, Listed(counts, ALL_CODES), |state.ballotState.rejected|, |state.ballotState.accepted|,
                             Ascending(ids), snapshotCompatible);
    forall r ensures r in ids <==> RoundIn(state.publicState, r).Some? {
      PS.FindFinds(state.publicState.rounds, r);
      if r in ids {
        var round :| round in state.publicState.rounds && round.roundId == r;
      }
    }
  }

  // ----- on the log a successful call leaves -----

  lemma {:induction false} NoDuplicatesNoCode(rejected: seq<BS.RejectedBallot>, i: nat)
    requires BF.Duplicates(rejected) == 0 && i < |rejected|
    ensures rejected[i].reason.code != DuplicateEvent
  {
    if i < |rejected| - 1 {
      NoDuplicatesNoCode(Init(rejected), i);
    }
  }

  lemma {:induction false} DistinctIdsIdentify(xs: seq<ProtocolEvent>)
    requires DistinctIds(EventId, xs)
    ensures IdsIdentify(EventId, xs)
  {
    if xs != [] {
      SplitLast(xs);
      DistinctIdsIdentify(Init(xs));
      forall x | x in Init(xs) ensures EventId(x) != EventId(Last(xs)) {
        IdsHas(EventId, Init(xs), x);
      }
    }
  }

  /** The log of a successful call has no duplicate, and no ballot of it is rejected as a repeat. */
  lemma CleanLogDiagnostics(electionId: string, delivered: seq<ProtocolEvent>, i: nat)
    ensures |Ids(EventId, LogOf(delivered))| == |LogOf(delivered)|
    ensures var rejected := BallotStateOf(electionId, LogOf(delivered)).rejected;
            i < |rejected| ==> rejected[i].reason.code != DuplicateEvent
  {
    var log := LogOf(delivered);
    C.LogStrict(delivered);
    IdsCount(EventId, log);
    DistinctIdsIdentify(log);
    C.LogIdempotent(delivered);
    R.BallotsSurviveRedelivery(electionId, log);
    var rejected := BallotStateOf(electionId, log).rejected;
    if i < |rejected| {
      NoDuplicatesNoCode(rejected, i);
    }
  }
}
