/**
 The derived public state in terms of the events' own fields: which event each value shown is taken from,
 with creation times and ids compared as they are.
 */
module PublicTerms {
  import opened Wrappers
  import opened Order
  import opened Sorting
  import opened Events
  import opened Validation
  import opened Reducer
  import opened DerivedForms
  import PS = PublicState
  import PF = PublicClosedForm

  /** The first is created before the second, or at the same time with an id that is not greater. */
  predicate NotAfter(at: i64, id: string, at': i64, id': string) {
    at < at' || (at == at' && (id == id' || StrLt(id, id')))
  }

  ghost predicate Defines(events: seq<ProtocolEvent>, d: RoundDefinitionEvent, r: string) {
    Public(RoundDefinition(d)) in events && d.roundId == r
  }

  ghost predicate Opens(events: seq<ProtocolEvent>, o: RoundLifecycleEvent, r: string) {
    Public(RoundOpen(o)) in events && o.roundId == r
  }

  ghost predicate Closes(events: seq<ProtocolEvent>, c: RoundLifecycleEvent, r: string) {
    Public(RoundClose(c)) in events && c.roundId == r
  }

  ghost predicate Receipts(events: seq<ProtocolEvent>, b: BallotReceiptEvent, r: string) {
    Public(BallotReceipt(b)) in events && b.roundId == r
  }

  ghost predicate Results(events: seq<ProtocolEvent>, f: FinalResultEvent, r: string) {
    Public(FinalResult(f)) in events && f.roundId == r
  }

  ghost predicate Disputes(events: seq<ProtocolEvent>, d: DisputeRecordEvent, r: string) {
    Public(DisputeRecord(d)) in events && d.roundId == Some(r)
  }

  /** Which events name a round, kind by kind. */
  lemma NamedByKind(events: seq<ProtocolEvent>, r: string)
    ensures PF.Has(PublicsOf(events), PF.Definitions, r) <==> exists d :: Defines(events, d, r)
    ensures PF.Has(PublicsOf(events), PF.Opens, r) <==> exists o :: Opens(events, o, r)
    ensures PF.Has(PublicsOf(events), PF.Closes, r) <==> exists c :: Closes(events, c, r)
    ensures PF.Has(PublicsOf(events), PF.Results, r) <==> exists f :: Results(events, f, r)
    ensures PF.Has(PublicsOf(events), PF.Disputes, r) <==> exists d :: Disputes(events, d, r)
  {
    var publics := PublicsOf(events);
    forall p ensures p in publics <==> Public(p) in events {
      PublicsOfHas(events, p);
    }
    NamedFromEvents(events, publics, r);
    NamedByEvents(events, publics, r);
  }

  lemma NamedFromEvents(events: seq<ProtocolEvent>, publics: seq<PublicEvent>, r: string)
    requires forall p :: p in publics <==> Public(p) in events
    ensures (exists d :: Defines(events, d, r)) ==> PF.Has(publics, PF.Definitions, r)
    ensures (exists o :: Opens(events, o, r)) ==> PF.Has(publics, PF.Opens, r)
    ensures (exists c :: Closes(events, c, r)) ==> PF.Has(publics, PF.Closes, r)
    ensures (exists f :: Results(events, f, r)) ==> PF.Has(publics, PF.Results, r)
    ensures (exists d :: Disputes(events, d, r)) ==> PF.Has(publics, PF.Disputes, r)
  {
    if d :| Defines(events, d, r) { assert PF.About(RoundDefinition(d), PF.Definitions, r); }
    if o :| Opens(events, o, r) { assert PF.About(RoundOpen(o), PF.Opens, r); }
    if c :| Closes(events, c, r) { assert PF.About(RoundClose(c), PF.Closes, r); }
    if f :| Results(events, f, r) { assert PF.About(FinalResult(f), PF.Results, r); }
    if d :| Disputes(events, d, r) { assert PF.About(DisputeRecord(d), PF.Disputes, r); }
  }

  lemma NamedByEvents(events: seq<ProtocolEvent>, publics: seq<PublicEvent>, r: string)
    requires forall p :: p in publics <==> Public(p) in events
    ensures PF.Has(publics, PF.Definitions, r) ==> exists d :: Defines(events, d, r)
    ensures PF.Has(publics, PF.Opens, r) ==> exists o :: Opens(events, o, r)
    ensures PF.Has(publics, PF.Closes, r) ==> exists c :: Closes(events, c, r)
    ensures PF.Has(publics, PF.Results, r) ==> exists f :: Results(events, f, r)
    ensures PF.Has(publics, PF.Disputes, r) ==> exists d :: Disputes(events, d, r)
  {
    if e :| e in publics && PF.About(e, PF.Definitions, r) { assert Defines(events, e.definition, r); }
    if e :| e in publics && PF.About(e, PF.Opens, r) { assert Opens(events, e.open, r); }
    if e :| e in publics && PF.About(e, PF.Closes, r) { assert Closes(events, e.close, r); }
    if e :| e in publics && PF.About(e, PF.Results, r) { assert Results(events, e.result, r); }
    if e :| e in publics && PF.About(e, PF.Disputes, r) { assert Disputes(events, e.dispute, r); }
  }

  // ----- phase and times -----

  /** A round is listed iff it is defined or opened; its phase is that of the latest stage an event names it at. */
  lemma PhaseByEvents(electionId: string, events: seq<ProtocolEvent>, r: string)
    ensures var round := RoundIn(PublicStateOf(electionId, events), r);
            && (round.Some? <==> (exists d :: Defines(events, d, r)) || exists o :: Opens(events, o, r))
            && (round.Some? ==>
                  round.value.roundId == r &&
                  match round.value.phase
                  case Disputed => exists d :: Disputes(events, d, r)
                  case Published => (exists f :: Results(events, f, r)) && !exists d :: Disputes(events, d, r)
                  case Closed =>
                    && (exists c :: Closes(events, c, r))
                    && !(exists f :: Results(events, f, r)) && !exists d :: Disputes(events, d, r)
                  case Open =>
                    && (exists o :: Opens(events, o, r)) && !(exists c :: Closes(events, c, r))
                    && !(exists f :: Results(events, f, r)) && !exists d :: Disputes(events, d, r)
                  case Draft =>
                    && !(exists o :: Opens(events, o, r)) && !(exists c :: Closes(events, c, r))
                    && !(exists f :: Results(events, f, r)) && !exists d :: Disputes(events, d, r)
                  case Tallied => false)
  {
    RoundPhase(electionId, events, r);
    NamedByKind(events, r);
    PS.FindFinds(PublicStateOf(electionId, events).rounds, r);
  }

  /** It opened when it was first opened and closed when it was first closed, if ever. */
  lemma TimesByEvents(electionId: string, events: seq<ProtocolEvent>, r: string)
    requires RoundIn(PublicStateOf(electionId, events), r).Some?
    ensures var round := RoundIn(PublicStateOf(electionId, events), r).value;
            && (round.openedAt.None? <==> !exists o :: Opens(events, o, r))
            && (round.openedAt.Some? ==>
                  && (exists o :: Opens(events, o, r) && o.createdAt == round.openedAt.value)
                  && (forall o :: Opens(events, o, r) ==> round.openedAt.value <= o.createdAt))
            && (round.closedAt.None? <==> !exists c :: Closes(events, c, r))
            && (round.closedAt.Some? ==>
                  && (exists c :: Closes(events, c, r) && c.createdAt == round.closedAt.value)
                  && (forall c :: Closes(events, c, r) ==> round.closedAt.value <= c.createdAt))
  {
    var round := RoundIn(PublicStateOf(electionId, events), r).value;
    RoundTimes(electionId, events, r);
    OpenedByEvents(events, r, round.openedAt);
    ClosedByEvents(events, r, round.closedAt);
  }

  lemma OpenedByEvents(events: seq<ProtocolEvent>, r: string, at: Option<i64>)
    requires PF.Earliest(at, PublicsOf(events), PF.Opens, r)
    ensures at.None? <==> !exists o :: Opens(events, o, r)
    ensures at.Some? ==> exists o :: Opens(events, o, r) && o.createdAt == at.value
    ensures at.Some? ==> forall o :: Opens(events, o, r) ==> at.value <= o.createdAt
  {
    NamedByKind(events, r);
    if at.Some? {
      var e :| e in PublicsOf(events) && PF.About(e, PF.Opens, r) && e.CreatedAt() == at.value;
      PublicsOfHas(events, e);
      assert Opens(events, e.open, r);
      forall o | Opens(events, o, r) ensures at.value <= o.createdAt {
        PublicsOfHas(events, RoundOpen(o));
        assert PF.About(RoundOpen(o), PF.Opens, r);
      }
    }
  }

  lemma ClosedByEvents(events: seq<ProtocolEvent>, r: string, at: Option<i64>)
    requires PF.Earliest(at, PublicsOf(events), PF.Closes, r)
    ensures at.None? <==> !exists c :: Closes(events, c, r)
    ensures at.Some? ==> exists c :: Closes(events, c, r) && c.createdAt == at.value
    ensures at.Some? ==> forall c :: Closes(events, c, r) ==> at.value <= c.createdAt
  {
    NamedByKind(events, r);
    if at.Some? {
      var e :| e in PublicsOf(events) && PF.About(e, PF.Closes, r) && e.CreatedAt() == at.value;
      PublicsOfHas(events, e);
      assert Closes(events, e.close, r);
      forall c | Closes(events, c, r) ensures at.value <= c.createdAt {
        PublicsOfHas(events, RoundClose(c));
        assert PF.About(RoundClose(c), PF.Closes, r);
      }
    }
  }

  /** It was defined when it was first defined, or first opened if it never was. */
  lemma DefinedByEvents(electionId: string, events: seq<ProtocolEvent>, r: string)
    requires RoundIn(PublicStateOf(electionId, events), r).Some?
    ensures var at := RoundIn(PublicStateOf(electionId, events), r).value.definedAt;
            if exists d :: Defines(events, d, r) then
              && (exists d :: Defines(events, d, r) && d.createdAt == at)
              && (forall d :: Defines(events, d, r) ==> at <= d.createdAt)
            else
              && (exists o :: Opens(events, o, r) && o.createdAt == at)
              && (forall o :: Opens(events, o, r) ==> at <= o.createdAt)
  {
    var at := RoundIn(PublicStateOf(electionId, events), r).value.definedAt;
    RoundTimes(electionId, events, r);
    NamedByKind(events, r);
    if PF.Has(PublicsOf(events), PF.Definitions, r) {
      FirstDefinition(events, r, at);
    } else {
      OpenedByEvents(events, r, Some(at));
    }
  }

  lemma FirstDefinition(events: seq<ProtocolEvent>, r: string, at: i64)
    requires PF.Earliest(Some(at), PublicsOf(events), PF.Definitions, r)
    ensures exists d :: Defines(events, d, r) && d.createdAt == at
    ensures forall d :: Defines(events, d, r) ==> at <= d.createdAt
  {
    var e :| e in PublicsOf(events) && PF.About(e, PF.Definitions, r) && e.CreatedAt() == at;
    PublicsOfHas(events, e);
    assert Defines(events, e.definition, r);
    forall d | Defines(events, d, r) ensures at <= d.createdAt {
      PublicsOfHas(events, RoundDefinition(d));
      assert PF.About(RoundDefinition(d), PF.Definitions, r);
    }
  }

  /** The title is that of the last definition of the election. */
  lemma TitleByEvents(electionId: string, events: seq<ProtocolEvent>)
    ensures match PublicStateOf(electionId, events).electionTitle
            case None => !exists d :: Public(ElectionDefinition(d)) in events
            case Some(title) =>
              exists d :: Public(ElectionDefinition(d)) in events && d.title == title &&
                          forall c :: Public(ElectionDefinition(c)) in events ==>
                            NotAfter(c.createdAt, c.eventId, d.createdAt, d.eventId)
  {
    ElectionTitle(electionId, events);
    var publics, title := PublicsOf(events), PublicStateOf(electionId, events).electionTitle;
    if title.None? {
      forall d ensures Public(ElectionDefinition(d)) !in events {
        PublicsOfHas(events, ElectionDefinition(d));
      }
    } else {
      var e :| e in publics && e.ElectionDefinition? && e.election.title == title.value &&
               forall f :: f in publics && f.ElectionDefinition? ==> KeyLe(PublicKey(f), PublicKey(e));
      PublicsOfHas(events, e);
      forall c | Public(ElectionDefinition(c)) in events
        ensures NotAfter(c.createdAt, c.eventId, e.election.createdAt, e.election.eventId)
      {
        PublicsOfHas(events, ElectionDefinition(c));
        KeysInTime(ElectionDefinition(c), e);
      }
    }
  }

  /** The rounds are listed with the latest anchor first: opening, else closing, else definition time; ties by id. */
  lemma NewestFirst(electionId: string, events: seq<ProtocolEvent>, i: nat, j: nat)
    requires i < j < |PublicStateOf(electionId, events).rounds|
    ensures var a, b := PublicStateOf(electionId, events).rounds[i], PublicStateOf(electionId, events).rounds[j];
            var s := if a.openedAt.Some? then a.openedAt.value else if a.closedAt.Some? then a.closedAt.value else a.definedAt;
            var t := if b.openedAt.Some? then b.openedAt.value else if b.closedAt.Some? then b.closedAt.value else b.definedAt;
            s > t || (s == t && StrLt(a.roundId, b.roundId))
  {
    var rounds := PublicStateOf(electionId, events).rounds;
    RoundsInOrder(electionId, events);
    KeysCompared(PS.RoundKey(rounds[i]), PS.RoundKey(rounds[j]));
  }

  // ----- settings -----

  lemma KeyOfPublic(p: PublicEvent)
    ensures PublicKey(p).epoch == 0 && PublicKey(p).at == p.CreatedAt() && PublicKey(p).id == p.EventId()
    ensures PublicKey(p).rank == p.Precedence()
  {
  }

  /** Of two events of one kind, that with the lesser key is not after the other. */
  lemma KeysInTime(p: PublicEvent, q: PublicEvent)
    requires KeyLe(PublicKey(p), PublicKey(q))
    ensures p.Precedence() <= q.Precedence()
    ensures p.Precedence() == q.Precedence() ==> NotAfter(p.CreatedAt(), p.EventId(), q.CreatedAt(), q.EventId())
  {
    KeyOfPublic(p);
    KeyOfPublic(q);
    KeysCompared(PublicKey(p), PublicKey(q));
  }

  /** What a setting means: the field of the last open to give it, else of the last definition, else unwritten. */
  ghost predicate FromLastOpen(events: seq<ProtocolEvent>, r: string, field: PF.Field, o: RoundLifecycleEvent) {
    && Opens(events, o, r) && Gives(o, field)
    && forall p :: Opens(events, p, r) && Gives(p, field) ==> NotAfter(p.createdAt, p.eventId, o.createdAt, o.eventId)
  }

  ghost predicate FromLastDefinition(events: seq<ProtocolEvent>, r: string, field: PF.Field, d: RoundDefinitionEvent) {
    && Defines(events, d, r) && !(exists o :: Opens(events, o, r) && Gives(o, field))
    && forall e :: Defines(events, e, r) ==> NotAfter(e.createdAt, e.eventId, d.createdAt, d.eventId)
  }

  ghost predicate Unset(events: seq<ProtocolEvent>, r: string, field: PF.Field) {
    !(exists o :: Opens(events, o, r) && Gives(o, field)) && !exists d :: Defines(events, d, r)
  }

  /** An open gives a field when it has a value for it. */
  predicate Gives(o: RoundLifecycleEvent, field: PF.Field) {
    match field
    case Prompt => o.prompt.Some?
    case ThresholdT => o.thresholdT.Some?
    case ThresholdN => o.thresholdN.Some?
    case Roster => o.roster != []
    case ResultField => false
  }

  lemma WritersOf(p: PublicEvent, field: PF.Field, r: string)
    requires field != PF.ResultField
    ensures PF.Write(p, field, r).Some? <==>
              || (p.RoundDefinition? && p.definition.roundId == r)
              || (p.RoundOpen? && p.open.roundId == r && Gives(p.open, field))
  {
  }

  /** The last writer of a setting, and what kind it is. */
  lemma LastWriter(events: seq<ProtocolEvent>, field: PF.Field, r: string, e: PublicEvent)
    requires field != PF.ResultField
    requires e in PublicsOf(events) && PF.Write(e, field, r).Some?
    requires forall f :: f in PublicsOf(events) && PF.Write(f, field, r).Some? ==> KeyLe(PublicKey(f), PublicKey(e))
    ensures e.RoundOpen? || e.RoundDefinition?
    ensures e.RoundOpen? ==> FromLastOpen(events, r, field, e.open)
    ensures e.RoundDefinition? ==> FromLastDefinition(events, r, field, e.definition)
  {
    WritersOf(e, field, r);
    PublicsOfHas(events, e);
    forall p | Opens(events, p, r) && Gives(p, field)
      ensures e.RoundOpen? && NotAfter(p.createdAt, p.eventId, e.open.createdAt, e.open.eventId)
    {
      WritersOf(RoundOpen(p), field, r);
      PublicsOfHas(events, RoundOpen(p));
      KeysInTime(RoundOpen(p), e);
    }
    if e.RoundDefinition? {
      forall d | Defines(events, d, r) ensures NotAfter(d.createdAt, d.eventId, e.definition.createdAt, e.definition.eventId) {
        WritersOf(RoundDefinition(d), field, r);
        PublicsOfHas(events, RoundDefinition(d));
        KeysInTime(RoundDefinition(d), e);
      }
    }
  }

  lemma NoWriters(events: seq<ProtocolEvent>, field: PF.Field, r: string)
    requires field != PF.ResultField && PF.Unwritten(PublicsOf(events), field, r)
    ensures Unset(events, r, field)
  {
    forall o | Opens(events, o, r) ensures !Gives(o, field) {
      PublicsOfHas(events, RoundOpen(o));
      WritersOf(RoundOpen(o), field, r);
    }
    forall d ensures !Defines(events, d, r) {
      PublicsOfHas(events, RoundDefinition(d));
      WritersOf(RoundDefinition(d), field, r);
    }
  }

  /** The prompt is that of the last open to give one, else of the last definition, else empty. */
  lemma PromptByEvents(electionId: string, events: seq<ProtocolEvent>, r: string)
    requires RoundIn(PublicStateOf(electionId, events), r).Some?
    ensures var v := RoundIn(PublicStateOf(electionId, events), r).value.prompt;
            || (exists o :: FromLastOpen(events, r, PF.Prompt, o) && o.prompt == Some(v))
            || (exists d :: FromLastDefinition(events, r, PF.Prompt, d) && d.prompt == v)
            || (Unset(events, r, PF.Prompt) && v == "")
  {
    var e := SettingWriter(electionId, events, r, PF.Prompt);
  }

  lemma ThresholdTByEvents(electionId: string, events: seq<ProtocolEvent>, r: string)
    requires RoundIn(PublicStateOf(electionId, events), r).Some?
    ensures var v := RoundIn(PublicStateOf(electionId, events), r).value.thresholdT;
            || (exists o :: FromLastOpen(events, r, PF.ThresholdT, o) && o.thresholdT == Some(v))
            || (exists d :: FromLastDefinition(events, r, PF.ThresholdT, d) && d.thresholdT == v)
            || (Unset(events, r, PF.ThresholdT) && v == 1)
  {
    var e := SettingWriter(electionId, events, r, PF.ThresholdT);
  }

  /** Nothing giving it, threshold_n is the size of the first open's roster, at least one and cut to 32 bits. */
  lemma ThresholdNByEvents(electionId: string, events: seq<ProtocolEvent>, r: string)
    requires RoundIn(PublicStateOf(electionId, events), r).Some?
    ensures var v := RoundIn(PublicStateOf(electionId, events), r).value.thresholdN;
            || (exists o :: FromLastOpen(events, r, PF.ThresholdN, o) && o.thresholdN == Some(v))
            || (exists d :: FromLastDefinition(events, r, PF.ThresholdN, d) && d.thresholdN == v)
            || (Unset(events, r, PF.ThresholdN) &&
                exists o :: FirstOpen(events, r, o) && v == (if o.roster == [] then 1 else |o.roster| % 0x1_0000_0000))
  {
    var e := SettingWriter(electionId, events, r, PF.ThresholdN);
    if e.None? {
      FirstOpenSize(electionId, events, r);
    }
  }

  ghost predicate FirstOpen(events: seq<ProtocolEvent>, r: string, o: RoundLifecycleEvent) {
    Opens(events, o, r) && forall p :: Opens(events, p, r) ==> NotAfter(o.createdAt, o.eventId, p.createdAt, p.eventId)
  }

  lemma RosterByEvents(electionId: string, events: seq<ProtocolEvent>, r: string)
    requires RoundIn(PublicStateOf(electionId, events), r).Some?
    ensures var v := RoundIn(PublicStateOf(electionId, events), r).value.roster;
            || (exists o :: FromLastOpen(events, r, PF.Roster, o) && o.roster == v)
            || (exists d :: FromLastDefinition(events, r, PF.Roster, d) && d.roster == v)
            || (Unset(events, r, PF.Roster) && v == [])
  {
    var e := SettingWriter(electionId, events, r, PF.Roster);
  }

  /** The writer of a setting with what it wrote, or none. */
  lemma SettingWriter(electionId: string, events: seq<ProtocolEvent>, r: string, field: PF.Field)
    returns (e: Option<PublicEvent>)
    requires field != PF.ResultField && RoundIn(PublicStateOf(electionId, events), r).Some?
    ensures var round := RoundIn(PublicStateOf(electionId, events), r).value;
            && (e.Some? ==>
                  && (e.value.RoundOpen? || e.value.RoundDefinition?)
                  && PF.Write(e.value, field, r) == Some(PF.Get(round, field))
                  && (e.value.RoundOpen? ==> FromLastOpen(events, r, field, e.value.open))
                  && (e.value.RoundDefinition? ==> FromLastDefinition(events, r, field, e.value.definition)))
            && (e.None? ==>
                  Unset(events, r, field) && PF.DefaultSetting(PF.Get(round, field), PublicsOf(events), field, r))
  {
    RoundSettings(electionId, events, r, field);
    var publics, v := PublicsOf(events), PF.Get(RoundIn(PublicStateOf(electionId, events), r).value, field);
    if PF.Unwritten(publics, field, r) {
      NoWriters(events, field, r);
      return None;
    }
    var w :| w in publics && PF.Write(w, field, r) == Some(v) &&
             forall f :: f in publics && PF.Write(f, field, r).Some? ==> KeyLe(PublicKey(f), PublicKey(w));
    LastWriter(events, field, r, w);
    e := Some(w);
  }

  lemma FirstOpenSize(electionId: string, events: seq<ProtocolEvent>, r: string)
    requires RoundIn(PublicStateOf(electionId, events), r).Some?
    requires var round := RoundIn(PublicStateOf(electionId, events), r).value;
             PF.DefaultSetting(PF.Get(round, PF.ThresholdN), PublicsOf(events), PF.ThresholdN, r)
    ensures var v := RoundIn(PublicStateOf(electionId, events), r).value.thresholdN;
            exists o :: FirstOpen(events, r, o) && v == if o.roster == [] then 1 else |o.roster| % 0x1_0000_0000
  {
    var v := RoundIn(PublicStateOf(electionId, events), r).value.thresholdN;
    var e := DefaultOpen(PublicsOf(events), r, v);
    PublicsOfHas(events, e);
    FirstOpenFirst(events, r, e);
  }

  lemma DefaultOpen(publics: seq<PublicEvent>, r: string, v: u32) returns (e: PublicEvent)
    requires PF.DefaultSetting(PF.Number(v), publics, PF.ThresholdN, r)
    ensures PF.FirstOpen(e, publics, r) && v == if e.open.roster == [] then 1 else |e.open.roster| % 0x1_0000_0000
  {
    e :| PF.FirstOpen(e, publics, r) && PF.Number(v) == PF.Number(PS.DefaultThresholdN(e.open.roster));
  }

  lemma FirstOpenFirst(events: seq<ProtocolEvent>, r: string, e: PublicEvent)
    requires PF.FirstOpen(e, PublicsOf(events), r) && Public(e) in events
    ensures FirstOpen(events, r, e.open)
  {
    forall p | Opens(events, p, r) ensures NotAfter(e.open.createdAt, e.open.eventId, p.createdAt, p.eventId) {
      PublicsOfHas(events, RoundOpen(p));
      assert PF.About(RoundOpen(p), PF.Opens, r);
      KeysInTime(e, RoundOpen(p));
    }
  }

  // ----- results, receipts and disputes -----

  /** A published result is, field by field, that of the last result event for the round. */
  lemma ResultByEvents(electionId: string, events: seq<ProtocolEvent>, r: string)
    requires RoundIn(PublicStateOf(electionId, events), r).Some?
    ensures var result := RoundIn(PublicStateOf(electionId, events), r).value.finalResult;
            match result
            case None => !exists f :: Results(events, f, r)
            case Some(v) =>
              exists f :: Results(events, f, r) && LastResult(events, r, f)
                          && v.eventId == f.eventId && v.yesCount == f.yesCount && v.noCount == f.noCount
                          && v.tallyInputHash == f.tallyInputHash && v.createdAt == f.createdAt
  {
    RoundSettings(electionId, events, r, PF.ResultField);
    ResultWritten(events, r, RoundIn(PublicStateOf(electionId, events), r).value);
  }

  lemma ResultWritten(events: seq<ProtocolEvent>, r: string, round: PS.Round)
    requires PF.Settled(round, PublicsOf(events), PF.ResultField, r)
    ensures match round.finalResult
            case None => !exists f :: Results(events, f, r)
            case Some(v) =>
              exists f :: Results(events, f, r) && LastResult(events, r, f)
                          && v.eventId == f.eventId && v.yesCount == f.yesCount && v.noCount == f.noCount
                          && v.tallyInputHash == f.tallyInputHash && v.createdAt == f.createdAt
  {
    var publics := PublicsOf(events);
    if PF.Unwritten(publics, PF.ResultField, r) {
      NoResult(events, r);
    } else {
      var e :| e in publics && PF.Write(e, PF.ResultField, r) == Some(PF.Outcome(round.finalResult)) &&
               forall f :: f in publics && PF.Write(f, PF.ResultField, r).Some? ==> KeyLe(PublicKey(f), PublicKey(e));
      PublicsOfHas(events, e);
      ResultFields(e, r, round.finalResult);
      assert Results(events, e.result, r);
      LastResultWrites(events, r, e);
    }
  }

  lemma NoResult(events: seq<ProtocolEvent>, r: string)
    requires PF.Unwritten(PublicsOf(events), PF.ResultField, r)
    ensures !exists f :: Results(events, f, r)
  {
    forall f ensures !Results(events, f, r) {
      PublicsOfHas(events, FinalResult(f));
      assert Results(events, f, r) ==> PF.Write(FinalResult(f), PF.ResultField, r).Some?;
    }
  }

  lemma ResultFields(e: PublicEvent, r: string, result: Option<PS.PublishedResult>)
    requires PF.Write(e, PF.ResultField, r) == Some(PF.Outcome(result))
    ensures e.FinalResult? && e.result.roundId == r && result.Some?
    ensures result.value.eventId == e.result.eventId && result.value.tallyInputHash == e.result.tallyInputHash
    ensures result.value.yesCount == e.result.yesCount && result.value.noCount == e.result.noCount
    ensures result.value.createdAt == e.result.createdAt
  {
  }

  ghost predicate LastResult(events: seq<ProtocolEvent>, r: string, f: FinalResultEvent) {
    forall g :: Results(events, g, r) ==> NotAfter(g.createdAt, g.eventId, f.createdAt, f.eventId)
  }

  lemma LastResultWrites(events: seq<ProtocolEvent>, r: string, e: PublicEvent)
    requires e.FinalResult?
    requires forall f :: f in PublicsOf(events) && PF.Write(f, PF.ResultField, r).Some? ==> KeyLe(PublicKey(f), PublicKey(e))
    ensures LastResult(events, r, e.result)
  {
    forall g | Results(events, g, r) ensures NotAfter(g.createdAt, g.eventId, e.result.createdAt, e.result.eventId) {
      PublicsOfHas(events, FinalResult(g));
      assert PF.Write(FinalResult(g), PF.ResultField, r).Some?;
      KeysInTime(FinalResult(g), e);
    }
  }

  /** The receipt events of a round, in order. */
  function ReceiptEvents(publics: seq<PublicEvent>, r: string): seq<BallotReceiptEvent> {
    if publics == [] then [] else
      ReceiptEvents(Init(publics), r) +
      if Last(publics).BallotReceipt? && Last(publics).receipt.roundId == r then [Last(publics).receipt] else []
  }

  function DisputeEvents(publics: seq<PublicEvent>, r: string): seq<DisputeRecordEvent> {
    if publics == [] then [] else
      DisputeEvents(Init(publics), r) +
      if Last(publics).DisputeRecord? && Last(publics).dispute.roundId == Some(r) then [Last(publics).dispute] else []
  }

  lemma {:induction false} ReceiptsAreEvents(publics: seq<PublicEvent>, r: string, i: nat)
    ensures |PF.ReceiptsIn(publics, r)| == |ReceiptEvents(publics, r)|
    ensures i < |PF.ReceiptsIn(publics, r)| ==>
              var shown, b := PF.ReceiptsIn(publics, r)[i], ReceiptEvents(publics, r)[i];
              && shown.electionId == b.electionId && shown.roundId == b.roundId
              && shown.ballotCommitment == b.ballotCommitment && shown.receiptHash == b.receiptHash
              && shown.acceptedAt == b.acceptedAt
  {
    if publics != [] {
      ReceiptsAreEvents(Init(publics), r, i);
    }
  }

  lemma {:induction false} DisputesAreEvents(publics: seq<PublicEvent>, r: string, i: nat)
    ensures |PF.DisputesIn(publics, r)| == |DisputeEvents(publics, r)|
    ensures i < |PF.DisputesIn(publics, r)| ==> PF.DisputesIn(publics, r)[i] == DisputeEvents(publics, r)[i].reason
  {
    if publics != [] {
      DisputesAreEvents(Init(publics), r, i);
    }
  }

  lemma {:induction false} ReceiptEventsHave(publics: seq<PublicEvent>, r: string)
    requires Sorted(PublicKey, publics)
    ensures forall b :: b in ReceiptEvents(publics, r) <==> BallotReceipt(b) in publics && b.roundId == r
    ensures forall i, j :: 0 <= i < j < |ReceiptEvents(publics, r)| ==>
              var a, b := ReceiptEvents(publics, r)[i], ReceiptEvents(publics, r)[j];
              NotAfter(a.createdAt, a.eventId, b.createdAt, b.eventId)
  {
    if publics != [] {
      AfterAll(PublicKey, publics);
      ReceiptEventsHave(Init(publics), r);
      var init, p := ReceiptEvents(Init(publics), r), Last(publics);
      if p.BallotReceipt? {
        forall b | b in init ensures NotAfter(b.createdAt, b.eventId, p.receipt.createdAt, p.receipt.eventId) {
          KeysInTime(BallotReceipt(b), p);
        }
      }
    }
  }

  lemma {:induction false} DisputeEventsHave(publics: seq<PublicEvent>, r: string)
    requires Sorted(PublicKey, publics)
    ensures forall d :: d in DisputeEvents(publics, r) <==> DisputeRecord(d) in publics && d.roundId == Some(r)
    ensures forall i, j :: 0 <= i < j < |DisputeEvents(publics, r)| ==>
              var a, b := DisputeEvents(publics, r)[i], DisputeEvents(publics, r)[j];
              NotAfter(a.createdAt, a.eventId, b.createdAt, b.eventId)
  {
    if publics != [] {
      AfterAll(PublicKey, publics);
      DisputeEventsHave(Init(publics), r);
      var init, p := DisputeEvents(Init(publics), r), Last(publics);
      if p.DisputeRecord? {
        forall d | d in init ensures NotAfter(d.createdAt, d.eventId, p.dispute.createdAt, p.dispute.eventId) {
          KeysInTime(DisputeRecord(d), p);
        }
      }
    }
  }

  /** A round lists its receipt events, each with its own fields, in order of time. */
  lemma ReceiptsByEvents(electionId: string, events: seq<ProtocolEvent>, r: string)
    requires RoundIn(PublicStateOf(electionId, events), r).Some?
    ensures var shown := RoundIn(PublicStateOf(electionId, events), r).value.receipts;
            var listed := ReceiptEvents(SortedPublics(events), r);
            && |shown| == |listed|
            && (forall b :: b in listed <==> Receipts(events, b, r))
            && (forall i, j :: 0 <= i < j < |listed| ==>
                  NotAfter(listed[i].createdAt, listed[i].eventId, listed[j].createdAt, listed[j].eventId))
            && (forall i :: 0 <= i < |shown| ==>
                  && shown[i].electionId == listed[i].electionId && shown[i].roundId == r
                  && shown[i].ballotCommitment == listed[i].ballotCommitment
                  && shown[i].receiptHash == listed[i].receiptHash && shown[i].acceptedAt == listed[i].acceptedAt)
  {
    var sorted := SortedPublics(events);
    var shown, listed := PF.ReceiptsIn(sorted, r), ReceiptEvents(sorted, r);
    RoundLists(electionId, events, r);
    PlanesSorted(events);
    ReceiptEventsHave(sorted, r);
    ReceiptsAreEvents(sorted, r, 0);
    forall b ensures b in listed <==> Receipts(events, b, r) {
      PublicsOfHas(events, BallotReceipt(b));
    }
    forall i | 0 <= i < |shown|
      ensures shown[i].electionId == listed[i].electionId && shown[i].roundId == r
      ensures shown[i].ballotCommitment == listed[i].ballotCommitment
      ensures shown[i].receiptHash == listed[i].receiptHash && shown[i].acceptedAt == listed[i].acceptedAt
    {
      ReceiptsAreEvents(sorted, r, i);
      assert listed[i] in listed;
    }
  }

  /** And the reasons of its dispute events. */
  lemma DisputesByEvents(electionId: string, events: seq<ProtocolEvent>, r: string)
    requires RoundIn(PublicStateOf(electionId, events), r).Some?
    ensures var shown := RoundIn(PublicStateOf(electionId, events), r).value.disputes;
            var listed := DisputeEvents(SortedPublics(events), r);
            && |shown| == |listed|
            && (forall d :: d in listed <==> Disputes(events, d, r))
            && (forall i, j :: 0 <= i < j < |listed| ==>
                  NotAfter(listed[i].createdAt, listed[i].eventId, listed[j].createdAt, listed[j].eventId))
            && (forall i :: 0 <= i < |shown| ==> shown[i] == listed[i].reason)
  {
    var sorted := SortedPublics(events);
    RoundLists(electionId, events, r);
    PlanesSorted(events);
    DisputeEventsHave(sorted, r);
    DisputesAreEvents(sorted, r, 0);
    forall d ensures d in DisputeEvents(sorted, r) <==> Disputes(events, d, r) {
      PublicsOfHas(events, DisputeRecord(d));
    }
    forall i | 0 <= i < |PF.DisputesIn(sorted, r)| ensures PF.DisputesIn(sorted, r)[i] == DisputeEvents(sorted, r)[i].reason {
      DisputesAreEvents(sorted, r, i);
    }
  }

  // ----- issues -----

  /** Which events leave an issue. */
  ghost predicate NamesNoRound(p: PublicEvent, known: set<string>) {
    || (p.RoundClose? && p.close.roundId !in known)
    || (p.BallotReceipt? && p.receipt.roundId !in known)
    || (p.FinalResult? && p.result.roundId !in known)
    || (p.DisputeRecord? && (p.dispute.roundId.None? || p.dispute.roundId.value !in known))
  }

  /** `issue` is about `p`, in the words for its kind. */
  ghost predicate IssueAbout(issue: ValidationIssue, p: PublicEvent) {
    && issue.code == UnknownRound
    && (p.RoundClose? ==> issue.eventId == Some(p.close.eventId) && issue.detail == "round close references an unknown round")
    && (p.BallotReceipt? ==> issue.eventId == Some(p.receipt.eventId) && issue.detail == "receipt references an unknown round")
    && (p.FinalResult? ==> issue.eventId == Some(p.result.eventId) && issue.detail == "result references an unknown round")
    && (p.DisputeRecord? ==> issue.eventId == Some(p.dispute.eventId) && issue.detail == "dispute references an unknown round")
  }

  lemma StrayReported(p: PublicEvent, known: set<string>)
    ensures PF.IsStray(p, known) <==> NamesNoRound(p, known)
    ensures PF.IsStray(p, known) ==> IssueAbout(PS.Stray(p), p)
  {
  }

  /** The events that leave an issue, in order. */
  ghost function Astray(publics: seq<PublicEvent>, known: set<string>): seq<PublicEvent> {
    if publics == [] then [] else
      Astray(Init(publics), known) + if NamesNoRound(Last(publics), known) then [Last(publics)] else []
  }

  lemma {:induction false} StraysReported(publics: seq<PublicEvent>, known: set<string>)
    ensures |PF.Strays(publics, known)| == |Astray(publics, known)|
    ensures forall i :: 0 <= i < |Astray(publics, known)| ==> IssueAbout(PF.Strays(publics, known)[i], Astray(publics, known)[i])
  {
    if publics != [] {
      StraysReported(Init(publics), known);
      StrayReported(Last(publics), known);
    }
  }

  lemma {:induction false} AstrayInOrder(publics: seq<PublicEvent>, known: set<string>)
    requires Sorted(PublicKey, publics)
    ensures forall p :: p in Astray(publics, known) <==> p in publics && NamesNoRound(p, known)
    ensures Sorted(PublicKey, Astray(publics, known))
  {
    if publics != [] {
      AfterAll(PublicKey, publics);
      AstrayInOrder(Init(publics), known);
      SortedSnoc(PublicKey, Astray(Init(publics), known), Last(publics));
    }
  }

  /**
   Every close, receipt, result or dispute that names no listed round leaves an issue with its own id, in
   replay order, and there is no other issue.
   */
  lemma IssuesByEvents(electionId: string, events: seq<ProtocolEvent>)
    ensures var issues, known := PublicStateOf(electionId, events).issues, KnownIds(PublicStateOf(electionId, events));
            var astray := Astray(SortedPublics(events), known);
            && |issues| == |astray|
            && (forall i :: 0 <= i < |issues| ==> IssueAbout(issues[i], astray[i]))
            && (forall p :: p in astray <==> Public(p) in events && NamesNoRound(p, known))
            && (forall i, j :: 0 <= i < j < |astray| ==> KeyLe(PublicKey(astray[i]), PublicKey(astray[j])))
  {
    var known, sorted := KnownIds(PublicStateOf(electionId, events)), SortedPublics(events);
    OnlyStrayIssues(electionId, events);
    PlanesSorted(events);
    StraysReported(sorted, known);
    AstrayInOrder(sorted, known);
    forall p ensures p in Astray(sorted, known) <==> Public(p) in events && NamesNoRound(p, known) {
      PublicsOfHas(events, p);
    }
  }

  /** Were an open to come after a close, it would leave an issue, and no other trace unless it is the earlier. */
  lemma OpenAfterClose(acc: PS.Acc, o: RoundLifecycleEvent)
    requires o.roundId in acc.rounds && acc.rounds[o.roundId].closedAt.Some?
    ensures var after, round := PS.Step(acc, RoundOpen(o)), acc.rounds[o.roundId];
            && |after.issues| == |acc.issues| + 1 && after.issues[..|acc.issues|] == acc.issues
            && after.issues[|acc.issues|].code == ContradictoryRoundState
            && after.issues[|acc.issues|].eventId == Some(o.eventId)
            && (o.createdAt >= round.closedAt.value ==> after.rounds == acc.rounds)
            && (o.createdAt < round.closedAt.value ==>
                  after.rounds[o.roundId].phase == PS.Open && after.rounds[o.roundId].closedAt == round.closedAt)
  {
  }

  /** Derivation names its election throughout, and fails exactly when an event is of another. */
  lemma OfOneElection(electionId: string, events: seq<ProtocolEvent>)
    ensures Derive(electionId, events).Err? <==> exists e :: e in events && ElectionId(e) != electionId
    ensures Derive(electionId, events).Err? ==> Derive(electionId, events).error == WrongElectionError
    ensures Derive(electionId, events).Ok? ==>
              var state := Derive(electionId, events).value;
              state.electionId == electionId && state.publicState.electionId == electionId
  {
    PS.FoldFiled(electionId, PublicsOf(Sort(EventKey, events)));
  }
}
