/**
 * The events that refreshes append, in the event and chunk tables: the refresh model's ledger, keyed
 * by observation, against tables keyed by an event id hashed from the observation's name.
 */
module ObservationLedger {
  import opened Base
  import opened ColonJoin
  import opened Decimal
  import opened Events
  import opened ObservationId
  import opened Refresh
  import opened RefreshEdges
  import opened RefreshRuns
  import L = Ledger
  import M = RemoteMerge

  /** How a source's observations get their ids: its id, the text of an instant, and the hash of a name. */
  datatype Naming = Naming(sourceId: string, stamp: Instant -> string, hash: string -> EventId)

  function RowFor(naming: Naming, o: Observation): Row {
    var fingerprint :=
      if o.fingerprint.None? then None
      else
        var f := o.fingerprint.value;
        Some(FingerprintText(naming.stamp(f.mtime), ToString(f.size), f.parser));
    Row(naming.sourceId, o.id, fingerprint, Some(o.parser))
  }

  function IdFor(naming: Naming, o: Observation): EventId {
    EventIdOf(naming.hash, RowFor(naming, o))
  }

  function IdsFor(naming: Naming, observations: set<Observation>): set<EventId> {
    set o | o in observations :: IdFor(naming, o)
  }

  /** Different names hash differently, different instants are written differently, and the source id has no colon. */
  ghost predicate TellsApart(naming: Naming) {
    && (forall x, y :: naming.hash(x) == naming.hash(y) ==> x == y)
    && (forall t, u :: naming.stamp(t) == naming.stamp(u) ==> t == u)
    && ':' !in naming.sourceId
  }

  predicate PlainObservation(o: Observation) {
    ':' !in o.id && ':' !in o.parser && (o.fingerprint.Some? ==> ':' !in o.fingerprint.value.parser)
  }

  lemma DigitsHaveNoColon(n: nat)
    ensures ':' !in ToString(n)
  {
    ToStringDigits(n);
    var s := ToString(n);
    assert forall i | 0 <= i < |s| :: IsDigit(s[i]);
  }

  lemma SizesTellApart(m: nat, n: nat)
    requires ToString(m) == ToString(n)
    ensures m == n
  {
    ToStringDigits(m);
    ToStringDigits(n);
  }

  lemma FingerprintsTellApart(naming: Naming, f: Fingerprint, g: Fingerprint)
    requires TellsApart(naming) && ':' !in f.parser && ':' !in g.parser
    requires FingerprintText(naming.stamp(f.mtime), ToString(f.size), f.parser)
          == FingerprintText(naming.stamp(g.mtime), ToString(g.size), g.parser)
    ensures f == g
  {
    DigitsHaveNoColon(f.size);
    DigitsHaveNoColon(g.size);
    var tf, tg := naming.stamp(f.mtime), naming.stamp(g.mtime);
    JoinedTwice(tf, ToString(f.size), f.parser);
    JoinedTwice(tg, ToString(g.size), g.parser);
    SplitAtLast(Joined(tf, ToString(f.size)), f.parser, Joined(tg, ToString(g.size)), g.parser);
    SplitAtLast(tf, ToString(f.size), tg, ToString(g.size));
    SizesTellApart(f.size, g.size);
  }

  /** Observations have the same event id exactly when they are the same. */
  lemma IdsTellApart(naming: Naming, a: Observation, b: Observation)
    requires TellsApart(naming) && PlainObservation(a) && PlainObservation(b)
    ensures IdFor(naming, a) == IdFor(naming, b) <==> a == b
  {
    if IdFor(naming, a) == IdFor(naming, b) {
      NameInjective(RowFor(naming, a), RowFor(naming, b));
      if a.fingerprint.Some? && b.fingerprint.Some? {
        FingerprintsTellApart(naming, a.fingerprint.value, b.fingerprint.value);
      }
    }
  }

  lemma {:induction false} OneIdEach(naming: Naming, observations: set<Observation>)
    requires TellsApart(naming) && forall o | o in observations :: PlainObservation(o)
    ensures |IdsFor(naming, observations)| == |observations|
  {
    if observations != {} {
      var o :| o in observations;
      var rest := observations - {o};
      OneIdEach(naming, rest);
      forall r | r in rest
        ensures IdFor(naming, r) != IdFor(naming, o)
      {
        IdsTellApart(naming, r, o);
      }
      assert IdsFor(naming, observations) == IdsFor(naming, rest) + {IdFor(naming, o)};
    } else {
      assert IdsFor(naming, observations) == {};
    }
  }

  // ---- one append ----

  /** An event that observes `o` with these chunks; its other fields are free. */
  ghost predicate IsEventOf(naming: Naming, o: Observation, rows: seq<Chunk>, e: TraceEvent) {
    && e.eventType == SourceSessionObserved && e.payload.SessionObservedPayload?
    && e.eventId == IdFor(naming, o) && e.payload.chunks == rows
  }

  /** The tables hold one event for each observation of the ledger, with its chunks, and no other event. */
  ghost predicate Mirrors(naming: Naming, ledger: map<Observation, seq<Chunk>>, t: L.Tables) {
    && t.rows.Keys == IdsFor(naming, ledger.Keys)
    && forall o | o in ledger :: L.ChunksOf(t, IdFor(naming, o)) == ledger[o]
  }

  lemma EventRaws(naming: Naming, o: Observation, rows: seq<Chunk>, e: TraceEvent, repoId: string)
    requires IsEventOf(naming, o, rows, e)
    ensures L.Appendable(e) && L.Compact(L.WithRepo(e, repoId)).value.raws == rows
  {
  }

  lemma ChunksAfterAppend(t: L.Tables, repoId: string, e: TraceEvent, id: EventId)
    requires id != e.eventId
    ensures L.ChunksOf(L.AfterAppend(t, repoId, e), id) == L.ChunksOf(t, id)
  {
    M.AppendElsewhere(t, repoId, e, id);
    M.SameAtSameChunks(t, L.AfterAppend(t, repoId, e), id);
  }

  lemma IdsForMore(naming: Naming, observations: set<Observation>, o: Observation)
    ensures IdsFor(naming, observations + {o}) == IdsFor(naming, observations) + {IdFor(naming, o)}
  {
  }

  lemma AppendedKeys(naming: Naming, ledger: map<Observation, seq<Chunk>>, t: L.Tables, repoId: string,
                     o: Observation, rows: seq<Chunk>, e: TraceEvent)
    requires t.rows.Keys == IdsFor(naming, ledger.Keys) && e.eventId == IdFor(naming, o) && L.Appendable(e)
    ensures L.AfterAppend(t, repoId, e).rows.Keys == IdsFor(naming, ledger[o := rows].Keys)
  {
    L.AppendFrame(t, repoId, e);
    IdsForMore(naming, ledger.Keys, o);
    assert ledger[o := rows].Keys == ledger.Keys + {o};
  }

  lemma AppendMirrors(naming: Naming, ledger: map<Observation, seq<Chunk>>, t: L.Tables, repoId: string,
                      o: Observation, rows: seq<Chunk>, e: TraceEvent)
    requires TellsApart(naming) && PlainObservation(o) && forall r | r in ledger :: PlainObservation(r)
    requires Mirrors(naming, ledger, t) && IsEventOf(naming, o, rows, e)
    ensures Mirrors(naming, ledger[o := rows], L.AfterAppend(t, repoId, e))
  {
    EventRaws(naming, o, rows, e, repoId);
    AppendedKeys(naming, ledger, t, repoId, o, rows, e);
    L.AppendedChunks(t, repoId, e);
    forall r | r in ledger && r != o
      ensures L.ChunksOf(L.AfterAppend(t, repoId, e), IdFor(naming, r)) == ledger[r]
    {
      IdsTellApart(naming, r, o);
      ChunksAfterAppend(t, repoId, e, IdFor(naming, r));
    }
  }

  // ---- one pass ----

  /** The chunks that a pass puts into the event of its `i`-th session. */
  function RowsOf(db: Db, listing: seq<Native>, now: Instant, i: nat): seq<Chunk>
    requires i < |listing|
  {
    ChunksOf(Indexed(HandleAll(db, listing[..i], now), listing[i], now), listing[i].id)
  }

  /** The events that a pass appends, one for each session it gets through. */
  ghost predicate PassEvents(naming: Naming, db: Db, listing: seq<Native>, now: Instant, events: seq<TraceEvent>) {
    && |events| == |listing|
    && forall i | 0 <= i < |listing| :: IsEventOf(naming, Observed(listing[i]), RowsOf(db, listing, now, i), events[i])
  }

  predicate PlainNative(n: Native) {
    ':' !in n.id && ':' !in n.parser
  }

  lemma HandledLedgerIs(db: Db, n: Native, now: Instant)
    ensures Handled(db, n, now).ledger == db.ledger[Observed(n) := ChunksOf(Indexed(db, n, now), n.id)]
  {
    var indexed := Indexed(db, n, now);
    assert ObservationOf(n.id, indexed.sessions[n.id]) == Observed(n);
  }

  lemma PassEventsFront(naming: Naming, db: Db, listing: seq<Native>, now: Instant, events: seq<TraceEvent>)
    requires listing != [] && PassEvents(naming, db, listing, now, events)
    ensures PassEvents(naming, db, listing[..|listing| - 1], now, events[..|listing| - 1])
  {
    var k := |listing| - 1;
    var front := listing[..k];
    forall i | 0 <= i < k
      ensures IsEventOf(naming, Observed(front[i]), RowsOf(db, front, now, i), events[..k][i])
    {
      assert front[..i] == listing[..i] && front[i] == listing[i] && events[..k][i] == events[i];
      assert IsEventOf(naming, Observed(listing[i]), RowsOf(db, listing, now, i), events[i]);
    }
  }

  lemma HandledMirrors(naming: Naming, db: Db, n: Native, now: Instant, e: TraceEvent, t: L.Tables, repoId: string)
    requires TellsApart(naming) && Mirrors(naming, db.ledger, t) && PlainLedger(db) && PlainNative(n)
    requires IsEventOf(naming, Observed(n), ChunksOf(Indexed(db, n, now), n.id), e)
    ensures Mirrors(naming, Handled(db, n, now).ledger, L.AfterAppend(t, repoId, e)) && PlainLedger(Handled(db, n, now))
  {
    HandledLedgerIs(db, n, now);
    AppendMirrors(naming, db.ledger, t, repoId, Observed(n), ChunksOf(Indexed(db, n, now), n.id), e);
  }

  ghost predicate PlainLedger(db: Db) {
    forall o | o in db.ledger :: PlainObservation(o)
  }

  lemma PassEventsAppendable(naming: Naming, db: Db, listing: seq<Native>, now: Instant, events: seq<TraceEvent>)
    requires PassEvents(naming, db, listing, now, events)
    ensures forall i | 0 <= i < |events| :: L.Appendable(events[i])
  {
    forall i | 0 <= i < |events|
      ensures L.Appendable(events[i])
    {
      assert IsEventOf(naming, Observed(listing[i]), RowsOf(db, listing, now, i), events[i]);
    }
  }

  lemma {:induction false} PassMirrors(naming: Naming, db: Db, listing: seq<Native>, now: Instant, events: seq<TraceEvent>,
                                       t: L.Tables, repoId: string)
    requires TellsApart(naming) && Mirrors(naming, db.ledger, t) && PassEvents(naming, db, listing, now, events)
    requires PlainLedger(db) && forall i | 0 <= i < |listing| :: PlainNative(listing[i])
    ensures Mirrors(naming, HandleAll(db, listing, now).ledger, L.AppendAll(t, repoId, events))
    ensures PlainLedger(HandleAll(db, listing, now))
    decreases |listing|
  {
    if listing != [] {
      var k := |listing| - 1;
      PassEventsFront(naming, db, listing, now, events);
      PassMirrors(naming, db, listing[..k], now, events[..k], t, repoId);
      PassEventsAppendable(naming, db, listing, now, events);
      AppendLast(t, repoId, events);
      HandledMirrors(naming, HandleAll(db, listing[..k], now), listing[k], now, events[k],
                     L.AppendAll(t, repoId, events[..k]), repoId);
    }
  }

  lemma AppendOne(t: L.Tables, repoId: string, e: TraceEvent)
    requires L.Appendable(e)
    ensures L.AppendAll(t, repoId, [e]) == L.AfterAppend(t, repoId, e)
  {
    assert [e][1..] == [];
    assert L.AppendAll(L.AfterAppend(t, repoId, e), repoId, []) == L.AfterAppend(t, repoId, e);
  }

  lemma AppendLast(t: L.Tables, repoId: string, events: seq<TraceEvent>)
    requires events != [] && forall i | 0 <= i < |events| :: L.Appendable(events[i])
    ensures var k := |events| - 1;
            L.AppendAll(t, repoId, events) == L.AfterAppend(L.AppendAll(t, repoId, events[..k]), repoId, events[k])
  {
    var k := |events| - 1;
    assert events == events[..k] + [events[k]];
    M.AppendAllAppend(t, repoId, events[..k], [events[k]]);
    AppendOne(L.AppendAll(t, repoId, events[..k]), repoId, events[k]);
  }

  /** The sessions of a refresh whose events are appended: all, or those before the fault. */
  function GotThrough(listing: seq<Native>, fault: Option<Fault>): seq<Native> {
    if fault.Some? then DoneBefore(listing, fault.value) else listing
  }

  lemma PassLedger(db: Db, listing: seq<Native>, now: Instant, fault: Option<Fault>)
    ensures Pass(db, listing, now, fault).ledger == HandleAll(db, GotThrough(listing, fault), now).ledger
  {
    if fault.Some? && fault.value.index < |listing| {
      var f := fault.value;
      StoppedLedger(HandleAll(db, listing[..f.index], now), listing[f.index], now, f.point);
    }
  }

  lemma StoppedLedger(db: Db, n: Native, now: Instant, point: FaultPoint)
    ensures Stopped(db, n, now, point).ledger == db.ledger
  {
  }

  // ---- runs ----

  /** What a step of the world does to the event tables. */
  ghost predicate TablesStep(naming: Naming, repoId: string, w: World, e: Step, t: L.Tables, t': L.Tables) {
    match e
    case Refresh(listing, now, fault) =>
      exists events :: PassEvents(naming, w.db, GotThrough(listing, fault), now, events) && t' == L.AppendAll(t, repoId, events)
    case _ => t' == t
  }

  ghost predicate TablesHistory(naming: Naming, repoId: string, worlds: seq<World>, steps: seq<Step>, tables: seq<L.Tables>) {
    && |tables| == |worlds| == |steps| + 1 && tables[0] == L.EMPTY
    && forall i | 0 <= i < |steps| :: TablesStep(naming, repoId, worlds[i], steps[i], tables[i], tables[i + 1])
  }

  /** The observations of all the sessions that the refreshes got through. */
  ghost function Handlings(steps: seq<Step>): set<Observation> {
    if steps == [] then {}
    else
      var last := steps[|steps| - 1];
      Handlings(steps[..|steps| - 1]) + if last.Refresh? then ObservationsOf(GotThrough(last.listing, last.fault)) else {}
  }

  ghost predicate PlainSteps(steps: seq<Step>) {
    forall i | 0 <= i < |steps| && steps[i].Refresh? ::
      forall j | 0 <= j < |steps[i].listing| :: PlainNative(steps[i].listing[j])
  }

  /** A step of the world writes the databases by a pass, or not at all. */
  lemma MoveDb(kind: SinceFilter, w: World, e: Step, w': World)
    requires Moves(kind, w, e, w')
    ensures w'.db == if e.Refresh? then Pass(w.db, e.listing, e.now, e.fault) else w.db
  {
  }

  lemma RefreshMirrors(naming: Naming, repoId: string, w: World, e: Step, t: L.Tables, t': L.Tables)
    requires TellsApart(naming) && e.Refresh? && TablesStep(naming, repoId, w, e, t, t')
    requires Mirrors(naming, w.db.ledger, t) && PlainLedger(w.db)
    requires forall j | 0 <= j < |e.listing| :: PlainNative(e.listing[j])
    ensures var db' := Pass(w.db, e.listing, e.now, e.fault);
            && Mirrors(naming, db'.ledger, t') && PlainLedger(db')
            && db'.ledger.Keys == w.db.ledger.Keys + ObservationsOf(GotThrough(e.listing, e.fault))
  {
    var done := GotThrough(e.listing, e.fault);
    var events :| PassEvents(naming, w.db, done, e.now, events) && t' == L.AppendAll(t, repoId, events);
    PassLedger(w.db, e.listing, e.now, e.fault);
    PassMirrors(naming, w.db, done, e.now, events, t, repoId);
    LedgerHoldsObservations(w.db, done, e.now);
  }

  lemma StepMirrors(kind: SinceFilter, naming: Naming, repoId: string, w: World, e: Step, w': World, t: L.Tables, t': L.Tables)
    requires TellsApart(naming) && Moves(kind, w, e, w') && TablesStep(naming, repoId, w, e, t, t')
    requires Mirrors(naming, w.db.ledger, t) && PlainLedger(w.db)
    requires e.Refresh? ==> forall j | 0 <= j < |e.listing| :: PlainNative(e.listing[j])
    ensures Mirrors(naming, w'.db.ledger, t') && PlainLedger(w'.db)
    ensures w'.db.ledger.Keys == w.db.ledger.Keys + if e.Refresh? then ObservationsOf(GotThrough(e.listing, e.fault)) else {}
  {
    MoveDb(kind, w, e, w');
    if e.Refresh? {
      RefreshMirrors(naming, repoId, w, e, t, t');
    }
  }

  lemma HandlingsStep(steps: seq<Step>, k: nat)
    requires 0 < k <= |steps|
    ensures Handlings(steps[..k])
         == Handlings(steps[..k - 1])
          + if steps[k - 1].Refresh? then ObservationsOf(GotThrough(steps[k - 1].listing, steps[k - 1].fault)) else {}
  {
    assert steps[..k][..k - 1] == steps[..k - 1];
  }

  lemma {:induction false} HistoryMirrors(kind: SinceFilter, naming: Naming, repoId: string, worlds: seq<World>, steps: seq<Step>,
                                          tables: seq<L.Tables>, k: nat)
    requires TellsApart(naming) && PlainSteps(steps)
    requires History(kind, worlds, steps) && TablesHistory(naming, repoId, worlds, steps, tables) && k < |worlds|
    ensures Mirrors(naming, worlds[k].db.ledger, tables[k]) && PlainLedger(worlds[k].db)
    ensures worlds[k].db.ledger.Keys == Handlings(steps[..k])
  {
    if k > 0 {
      HistoryMirrors(kind, naming, repoId, worlds, steps, tables, k - 1);
      assert Moves(kind, worlds[k - 1], steps[k - 1], worlds[k]);
      assert TablesStep(naming, repoId, worlds[k - 1], steps[k - 1], tables[k - 1], tables[k]);
      StepMirrors(kind, naming, repoId, worlds[k - 1], steps[k - 1], worlds[k], tables[k - 1], tables[k]);
      HandlingsStep(steps, k);
    } else {
      assert IdsFor(naming, worlds[0].db.ledger.Keys) == {};
    }
  }

  /**
   * Whatever happens, faults and upgrades of all kinds included, the stored event ids are exactly those of
   * the observations that refreshes got through, one row for each, with the chunks observed last.
   */
  lemma OneEventPerObservation(kind: SinceFilter, naming: Naming, repoId: string, worlds: seq<World>, steps: seq<Step>,
                               tables: seq<L.Tables>, k: nat)
    requires TellsApart(naming) && PlainSteps(steps)
    requires History(kind, worlds, steps) && TablesHistory(naming, repoId, worlds, steps, tables) && k < |worlds|
    ensures tables[k].rows.Keys == IdsFor(naming, Handlings(steps[..k]))
    ensures |tables[k].rows| == |Handlings(steps[..k])|
    ensures forall o | o in Handlings(steps[..k]) ::
              o in worlds[k].db.ledger && L.ChunksOf(tables[k], IdFor(naming, o)) == worlds[k].db.ledger[o]
  {
    HistoryMirrors(kind, naming, repoId, worlds, steps, tables, k);
    OneIdEach(naming, Handlings(steps[..k]));
    assert |tables[k].rows| == |tables[k].rows.Keys|;
  }

  // ---- refreshing an unchanged source ----

  /** The next pass lists only what is current, and so does every later one. */
  ghost predicate Settled(kind: SinceFilter, w: World) {
    Quiet(kind, w) && (kind != ByUpdated ==> forall id | id in w.source :: Current(w.db, w.source[id]))
  }

  lemma StoppedQuiet(db: Db, n: Native, now: Instant, point: FaultPoint)
    requires Current(db, n)
    ensures SameButLastSeen(db, Stopped(db, n, now, point))
  {
  }

  lemma QuietKeepsCurrent(a: Db, b: Db, n: Native)
    requires SameButLastSeen(a, b) && Current(a, n)
    ensures Current(b, n)
  {
  }

  /** The tables after a refresh of a settled source, failing or not, differ in last-seen times only. */
  lemma SettledRefresh(kind: SinceFilter, w: World, e: Step, w': World)
    requires Settled(kind, w) && e.Refresh? && Moves(kind, w, e, w')
    ensures SameButLastSeen(w.db, w'.db)
  {
    var done := GotThrough(e.listing, e.fault);
    forall i | 0 <= i < |e.listing|
      ensures Current(w.db, e.listing[i])
    {
      assert e.listing[i] == w.source[e.listing[i].id];
    }
    QuietRefresh(w.db, done, e.now);
    var after := HandleAll(w.db, done, e.now);
    if e.fault.Some? && e.fault.value.index < |e.listing| {
      var f := e.fault.value;
      QuietKeepsCurrent(w.db, after, e.listing[f.index]);
      StoppedQuiet(after, e.listing[f.index], e.now, f.point);
    } else {
      SameApartFromWatermark(w.db, after, w'.db);
    }
  }

  lemma QuietKeepsMismatch(a: Db, b: Db, parser: string)
    requires SameButLastSeen(a, b)
    ensures ParserMismatch(a, parser) <==> ParserMismatch(b, parser)
  {
  }

  /** A refresh of a settled source that filters by updated time does not make it list more. */
  lemma SettledSince(w: World, e: Step, w': World)
    requires Settled(ByUpdated, w) && e.Refresh? && Moves(ByUpdated, w, e, w')
    ensures forall n | Listed(ByUpdated, n, Since(w')) :: Listed(ByUpdated, n, Since(w))
  {
    SettledRefresh(ByUpdated, w, e, w');
    QuietKeepsMismatch(w.db, w'.db, w.parser);
    if e.fault.Some? {
      FailureKeepsWatermark(w.db, e.listing, e.now, e.fault.value);
    } else if !AwaitsRescan(w) && w.db.watermark.Some? {
      IncrementalWatermarkGrows(w.db, w.source, e.listing, e.now);
    }
  }

  /** Once a source is settled, a refresh that succeeds or fails leaves it so and adds nothing to the ledger. */
  lemma RefreshKeepsSettled(kind: SinceFilter, w: World, e: Step, w': World)
    requires Settled(kind, w) && e.Refresh? && Moves(kind, w, e, w')
    ensures Settled(kind, w') && w'.db.ledger == w.db.ledger && w'.source == w.source
  {
    SettledRefresh(kind, w, e, w');
    if kind == ByUpdated {
      SettledSince(w, e, w');
    }
    forall id | id in w.source && Current(w.db, w.source[id])
      ensures Current(w'.db, w.source[id])
    {
      QuietKeepsCurrent(w.db, w'.db, w.source[id]);
    }
  }

  lemma TablesStepKeepsRows(naming: Naming, repoId: string, w: World, e: Step, t: L.Tables, t': L.Tables)
    requires TablesStep(naming, repoId, w, e, t, t')
    ensures forall id | id in t.rows :: id in t'.rows && t'.rows[id] == t.rows[id]
  {
    if e.Refresh? {
      var events :| PassEvents(naming, w.db, GotThrough(e.listing, e.fault), e.now, events) && t' == L.AppendAll(t, repoId, events);
      M.AppendAllRows(t, repoId, events);
    }
  }

  lemma {:induction false} FurtherRefreshesQuiet(kind: SinceFilter, naming: Naming, repoId: string, worlds: seq<World>,
                                                 steps: seq<Step>, tables: seq<L.Tables>, k: nat, j: nat)
    requires History(kind, worlds, steps) && TablesHistory(naming, repoId, worlds, steps, tables)
    requires k <= j < |worlds| && Settled(kind, worlds[k]) && forall i | k <= i < j :: steps[i].Refresh?
    ensures Settled(kind, worlds[j]) && worlds[j].db.ledger == worlds[k].db.ledger
    ensures forall id | id in tables[k].rows :: id in tables[j].rows && tables[j].rows[id] == tables[k].rows[id]
    decreases j
  {
    if k < j {
      FurtherRefreshesQuiet(kind, naming, repoId, worlds, steps, tables, k, j - 1);
      RefreshKeepsSettled(kind, worlds[j - 1], steps[j - 1], worlds[j]);
      TablesStepKeepsRows(naming, repoId, worlds[j - 1], steps[j - 1], tables[j - 1], tables[j]);
    }
  }

  lemma SameLedgerSameTables(naming: Naming, ledger: map<Observation, seq<Chunk>>, t: L.Tables, t': L.Tables)
    requires Mirrors(naming, ledger, t) && Mirrors(naming, ledger, t')
    requires forall id | id in t.rows :: id in t'.rows && t'.rows[id] == t.rows[id]
    ensures t'.rows == t.rows
    ensures forall o | o in ledger :: L.ChunksOf(t', IdFor(naming, o)) == L.ChunksOf(t, IdFor(naming, o))
  {
    assert t'.rows.Keys == t.rows.Keys;
  }

  lemma SuccessSettles(kind: SinceFilter, w: World, e: Step, w': World)
    requires Inv(kind, w) && e.Refresh? && e.fault.None? && Moves(kind, w, e, w')
    ensures Settled(kind, w')
  {
    SuccessMakesCurrent(kind, w, e.listing, e.now, w');
    SuccessIsQuiet(kind, w, Visit(e.listing, e.now), w');
  }

  /**
   * After a refresh that succeeded where the protocol was intact, any number of further refreshes of
   * an unchanged source, failing or not, leave the stored events and their chunks as they are.
   */
  lemma FurtherRefreshesAddNothing(kind: SinceFilter, naming: Naming, repoId: string, worlds: seq<World>,
                                   steps: seq<Step>, tables: seq<L.Tables>, k: nat, j: nat)
    requires TellsApart(naming) && PlainSteps(steps)
    requires History(kind, worlds, steps) && TablesHistory(naming, repoId, worlds, steps, tables)
    requires k < j < |worlds| && Inv(kind, worlds[k]) && steps[k].Refresh? && steps[k].fault.None?
    requires forall i | k < i < j :: steps[i].Refresh?
    ensures tables[j].rows == tables[k + 1].rows
    ensures forall o | o in worlds[k + 1].db.ledger ::
              L.ChunksOf(tables[j], IdFor(naming, o)) == L.ChunksOf(tables[k + 1], IdFor(naming, o))
  {
    SuccessSettles(kind, worlds[k], steps[k], worlds[k + 1]);
    FurtherRefreshesQuiet(kind, naming, repoId, worlds, steps, tables, k + 1, j);
    HistoryMirrors(kind, naming, repoId, worlds, steps, tables, j);
    HistoryMirrors(kind, naming, repoId, worlds, steps, tables, k + 1);
    SameLedgerSameTables(naming, worlds[j].db.ledger, tables[k + 1], tables[j]);
  }
}
