/**
 * What incremental refreshes add up to: over every run of source changes, refreshes that succeed
 * and refreshes that fail, the databases agree with a full rescan on everything the next pass will
 * not look at again.
 */
module RefreshRuns {
  import opened Base
  import opened Refresh

  type Source = map<string, Native>

  /** Row, chunks and event all show the session as the source has it now. */
  ghost predicate Current(db: Db, n: Native) {
    && n.id in db.sessions
    && SameRow(db.sessions[n.id], n)
    && ChunksOf(db, n.id) == n.chunks
    && Observed(n) in db.ledger && db.ledger[Observed(n)] == n.chunks
  }

  ghost predicate SameRow(r: Record, n: Native) {
    r.fingerprint == FingerprintOf(n) && r.parser == n.parser && r.updated == n.updated && r.listable == n.listable
  }

  /**
   * The same up to the file's time and size, which sessions of one state database share: the row and
   * chunks show the session, and so does the event of the observation that the row records.
   */
  ghost predicate Agrees(db: Db, n: Native) {
    && n.id in db.sessions
    && var r := db.sessions[n.id];
       && r.parser == n.parser && r.updated == n.updated && r.listable == n.listable
       && ChunksOf(db, n.id) == n.chunks
       && ObservationOf(n.id, r) in db.ledger && db.ledger[ObservationOf(n.id, r)] == n.chunks
  }

  /** What a source's filter can promise: one by the session's own time does not see a file's time move. */
  ghost predicate UpToDate(kind: SinceFilter, db: Db, n: Native) {
    if kind == ByUpdated then Agrees(db, n) else Current(db, n)
  }

  lemma CurrentAgrees(db: Db, n: Native)
    ensures Current(db, n) <==> Agrees(db, n) && db.sessions[n.id].fingerprint == FingerprintOf(n)
  {
  }

  /** The source's sessions, keyed by their ids. */
  ghost predicate Keyed(source: Source) {
    forall id | id in source :: source[id].id == id
  }

  /**
   * A row that passes the fingerprint skip for a session does describe that session: its chunks
   * are the session's, or were never stored.
   */
  ghost predicate Faithful(db: Db, n: Native) {
    Unchanged(db, n) ==>
      && SameRow(db.sessions[n.id], n)
      && (ChunksOf(db, n.id) == [] || ChunksOf(db, n.id) == n.chunks)
  }

  /** `listing` is the sessions of `source` that pass the filter, in any order and possibly more than once. */
  ghost predicate IsListing(listing: seq<Native>, source: Source, kind: SinceFilter, since: Option<Instant>) {
    && IsPartialListing(listing, source)
    && (forall i | 0 <= i < |listing| :: Listed(kind, listing[i], since))
    && (forall id | id in source && Listed(kind, source[id], since) :: InListing(listing, source[id]))
  }

  /** A listing that may have been cut short: sessions of the source. */
  ghost predicate IsPartialListing(listing: seq<Native>, source: Source) {
    forall i | 0 <= i < |listing| :: listing[i].id in source && listing[i] == source[listing[i].id]
  }

  ghost predicate InListing(listing: seq<Native>, n: Native) {
    exists i | 0 <= i < |listing| :: listing[i] == n
  }

  // ---- one session ----

  /** The two databases hold the same row, chunks and events for `id`. */
  ghost predicate SameFor(a: Db, b: Db, id: string) {
    && (id in a.sessions <==> id in b.sessions)
    && (id in a.sessions ==> a.sessions[id] == b.sessions[id])
    && ChunksOf(a, id) == ChunksOf(b, id)
    && (forall o: Observation | o.id == id ::
          (o in a.ledger <==> o in b.ledger) && (o in a.ledger ==> a.ledger[o] == b.ledger[o]))
  }

  lemma SameForMeans(a: Db, b: Db, m: Native)
    requires SameFor(a, b, m.id)
    ensures Current(a, m) <==> Current(b, m)
    ensures Agrees(a, m) <==> Agrees(b, m)
    ensures Faithful(a, m) <==> Faithful(b, m)
    ensures Unchanged(a, m) <==> Unchanged(b, m)
  {
  }

  /** Handling one session touches no other session's row, chunks or events. */
  lemma OthersUntouched(db: Db, n: Native, id: string, now: Instant)
    requires n.id != id
    ensures SameFor(db, Indexed(db, n, now), id)
    ensures SameFor(db, Torn(db, n, now), id)
    ensures SameFor(db, Handled(db, n, now), id)
  {
  }

  /** A session handled without a fault is current exactly when the fingerprint skip could be trusted. */
  lemma HandledIsCurrent(db: Db, n: Native, now: Instant)
    ensures Current(Handled(db, n, now), n) <==> Faithful(db, n)
    ensures Agrees(Handled(db, n, now), n) <==> Faithful(db, n)
    ensures Faithful(Handled(db, n, now), n) <==> Faithful(db, n)
  {
  }

  lemma HandledStep(db: Db, m: Native, n: Native, now: Instant)
    requires m.id == n.id ==> m == n
    ensures Faithful(Handled(db, m, now), n) <==> Faithful(db, n)
    ensures Current(Handled(db, m, now), n) <==> if m == n then Faithful(db, n) else Current(db, n)
    ensures Agrees(Handled(db, m, now), n) <==> if m == n then Faithful(db, n) else Agrees(db, n)
  {
    if m == n {
      HandledIsCurrent(db, n, now);
    } else {
      OthersUntouched(db, m, n.id, now);
      SameForMeans(db, Handled(db, m, now), n);
    }
  }

  lemma {:induction false} HandleAllOthers(db: Db, listing: seq<Native>, id: string, now: Instant)
    requires forall i | 0 <= i < |listing| :: listing[i].id != id
    ensures SameFor(db, HandleAll(db, listing, now), id)
  {
    if listing != [] {
      var k := |listing| - 1;
      HandleAllOthers(db, listing[..k], id, now);
      OthersUntouched(HandleAll(db, listing[..k], now), listing[k], id, now);
    }
  }

  lemma {:induction false} HandleAllKeepsWatermark(db: Db, listing: seq<Native>, now: Instant)
    ensures HandleAll(db, listing, now).watermark == db.watermark
  {
    if listing != [] {
      HandleAllKeepsWatermark(db, listing[..|listing| - 1], now);
    }
  }

  /**
   * A session that a fault-free loop handles, once or more often, ends up current exactly when the
   * fingerprint skip could be trusted with the row it had before; any other session stays as it was.
   */
  lemma {:induction false} HandleAllMakesCurrent(db: Db, listing: seq<Native>, n: Native, now: Instant)
    requires forall i | 0 <= i < |listing| && listing[i].id == n.id :: listing[i] == n
    ensures Faithful(HandleAll(db, listing, now), n) <==> Faithful(db, n)
    ensures Current(HandleAll(db, listing, now), n)
       <==> if InListing(listing, n) then Faithful(db, n) else Current(db, n)
    ensures Agrees(HandleAll(db, listing, now), n)
       <==> if InListing(listing, n) then Faithful(db, n) else Agrees(db, n)
  {
    if listing != [] {
      var k := |listing| - 1;
      HandleAllMakesCurrent(db, listing[..k], n, now);
      HandledStep(HandleAll(db, listing[..k], now), listing[k], n, now);
      InListingStep(listing, n);
    }
  }

  lemma InListingStep(listing: seq<Native>, n: Native)
    requires listing != []
    ensures var k := |listing| - 1; InListing(listing, n) <==> InListing(listing[..k], n) || listing[k] == n
  {
    var k := |listing| - 1;
    if i :| 0 <= i < |listing| && listing[i] == n {
      assert i == k || listing[..k][i] == n;
    }
  }

  // ---- one pass ----

  /** What a fault-free loop over part of the source does to one session of it. */
  lemma LoopOnSession(kind: SinceFilter, db: Db, source: Source, listing: seq<Native>, id: string, now: Instant)
    requires id in source && Keyed(source) && IsPartialListing(listing, source)
    ensures var n, db' := source[id], HandleAll(db, listing, now);
            && (Faithful(db', n) <==> Faithful(db, n))
            && (UpToDate(kind, db', n) <==> if InListing(listing, n) then Faithful(db, n) else UpToDate(kind, db, n))
            && (InListing(listing, n) && Faithful(db, n) ==> Current(db', n))
            && (!InListing(listing, n) ==> SameFor(db, db', id))
  {
    HandleAllMakesCurrent(db, listing, source[id], now);
    if !InListing(listing, source[id]) {
      HandleAllOthers(db, listing, id, now);
    }
  }

  /**
   * A pass over any part of the source, full or cut short by a limit, makes the databases agree
   * with the source exactly when it could trust the rows of the sessions it listed, and every
   * session it did not list agreed before.
   */
  lemma PassAgreesIff(kind: SinceFilter, db: Db, source: Source, listing: seq<Native>, now: Instant)
    requires Keyed(source) && IsPartialListing(listing, source)
    ensures (forall id | id in source :: UpToDate(kind, Pass(db, listing, now, None), source[id]))
       <==> forall id | id in source ::
              if InListing(listing, source[id]) then Faithful(db, source[id]) else UpToDate(kind, db, source[id])
  {
    forall id | id in source
      ensures UpToDate(kind, Pass(db, listing, now, None), source[id])
         <==> if InListing(listing, source[id]) then Faithful(db, source[id]) else UpToDate(kind, db, source[id])
    {
      LoopOnSession(kind, db, source, listing, id, now);
    }
  }

  // ---- runs ----

  datatype World = World(source: Source, parser: string, clock: Instant, db: Db)

  /** What can happen between two states of the world. */
  datatype Step =
    | Change(sessions: Source)
    | Remove(id: string)
    | Upgrade(parser: string, reparsed: Source)
    | Refresh(listing: seq<Native>, now: Instant, fault: Option<Fault>)

  ghost predicate StampedBy(n: Native, clock: Instant) {
    (n.mtime.Some? ==> n.mtime.value <= clock) && (n.updated.Some? ==> n.updated.value <= clock)
  }

  /** A change is strictly later than everything seen so far, in the stamps the refresh looks at. */
  ghost predicate FreshlyStamped(kind: SinceFilter, n: Native, clock: Instant) {
    (n.mtime.Some? ==> n.mtime.value > clock) && (kind == ByUpdated && n.updated.Some? ==> n.updated.value > clock)
  }

  /** Only the time and size of the session's file moved, as when another session of its state database changed. */
  ghost predicate Restamped(m: Native, n: Native, clock: Instant) {
    n == m.(mtime := n.mtime, size := n.size) && (n.mtime.Some? ==> n.mtime.value > clock)
  }

  /** The watermark a pass works from: none when a row of another parser version asks for a full scan. */
  ghost function Since(w: World): Option<Instant> {
    if AwaitsRescan(w) then None else w.db.watermark
  }

  /** A row left by another parser version, which the next pass will notice and list everything. */
  ghost predicate AwaitsRescan(w: World) {
    w.source != map[] && ParserMismatch(w.db, w.parser)
  }

  /** What is left of a torn upsert is harmless: no chunks, the right chunks, or a row that is always redone. */
  ghost predicate TornIsHarmless(db: Db, n: Native) {
    Unchanged(db, n) || FingerprintOf(n).None? || ChunksOf(db, n.id) == [] || ChunksOf(db, n.id) == n.chunks
  }

  ghost predicate EventHas(db: Db, n: Native, rows: seq<Chunk>) {
    Observed(n) in db.ledger && db.ledger[Observed(n)] == rows
  }

  /** The sessions handled in full when a fault stops the pass. */
  function DoneBefore(listing: seq<Native>, f: Fault): seq<Native> {
    if f.index < |listing| then listing[..f.index] else listing
  }

  /** The session that the fault cut off, unless the pass had been through it before. */
  ghost predicate CutOff(listing: seq<Native>, f: Fault, n: Native) {
    f.index < |listing| && listing[f.index] == n && !InListing(listing[..f.index], n)
  }

  /** The pass got as far as the session's row: handled it, or was cut off after its row was written. */
  ghost predicate Reached(listing: seq<Native>, f: Fault, id: string) {
    exists i | 0 <= i < |listing| ::
      listing[i].id == id && (i < f.index || (i == f.index && f.point != BeforeSession))
  }

  /** Nothing of the session was missing that the fault kept from being written. */
  ghost predicate CompleteAlready(kind: SinceFilter, db: Db, n: Native, point: FaultPoint) {
    match point
    case BeforeSession => UpToDate(kind, db, n)
    case BeforeAppend => EventHas(db, n, n.chunks)
    case BetweenUpserts => ChunksOf(db, n.id) == n.chunks && EventHas(db, n, n.chunks)
  }

  /** The session is up to date when the fault has stopped the pass: it was handled, or complete before. */
  ghost predicate UpToDateDespite(kind: SinceFilter, db: Db, listing: seq<Native>, f: Fault, n: Native) {
    InListing(DoneBefore(listing, f), n)
    || if CutOff(listing, f, n) then CompleteAlready(kind, db, n, f.point) else UpToDate(kind, db, n)
  }

  /** A listable row of another parser version is left that the pass had not reached. */
  ghost predicate MismatchLeft(w: World, listing: seq<Native>, f: Fault) {
    exists id | id in w.db.sessions && !Reached(listing, f, id) ::
      w.db.sessions[id].listable && w.db.sessions[id].parser != w.parser
  }

  /**
   * Faults that leave the protocol intact: they do not tear stale chunks from a new row, and either
   * leave a row that asks for another rescan, or leave every session up to date or above the watermark.
   */
  ghost predicate Recoverable(kind: SinceFilter, w: World, listing: seq<Native>, f: Fault) {
    && (f.point == BetweenUpserts ==> forall n | CutOff(listing, f, n) :: TornIsHarmless(w.db, n))
    && (MismatchLeft(w, listing, f)
        || forall id | id in w.source ::
             Listed(kind, w.source[id], w.db.watermark) || UpToDateDespite(kind, w.db, listing, f, w.source[id]))
  }

  /** No row misleads the fingerprint skip, and a pass from the stored watermark sees the session or need not. */
  ghost predicate InHand(kind: SinceFilter, db: Db, parser: string, n: Native) {
    && Faithful(db, n)
    && (Listed(kind, n, db.watermark) || ParserMismatch(db, parser) || UpToDate(kind, db, n))
  }

  /** Some row can reveal a new version, or the watermark hides nothing. */
  ghost predicate UpgradeShows(kind: SinceFilter, db: Db, reparsed: Source) {
    || (exists id | id in db.sessions :: db.sessions[id].listable)
    || (forall id | id in reparsed :: Listed(kind, reparsed[id], db.watermark))
  }

  ghost predicate IsNewVersion(db: Db, parser: string) {
    forall id | id in db.sessions :: db.sessions[id].parser != parser
  }

  /** These are sessions of that parser, and the clock is not behind them. */
  ghost predicate ParsedBy(sessions: Source, parser: string, clock: Instant) {
    Keyed(sessions) && forall id | id in sessions :: sessions[id].parser == parser && StampedBy(sessions[id], clock)
  }

  /**
   * Everything that can happen. Sessions are added or changed, any number in one write and with any
   * stamps; they are removed; another parser version, a new one or an older one, lists and formats the
   * source in its own way; a refresh succeeds or stops anywhere.
   */
  ghost predicate Moves(kind: SinceFilter, w: World, e: Step, w': World) {
    match e
    case Change(sessions) =>
      && ParsedBy(sessions, w.parser, w'.clock) && w.clock <= w'.clock
      && w' == w.(source := w.source + sessions, clock := w'.clock)
    case Remove(id) =>
      w' == w.(source := w.source - {id})
    case Upgrade(parser, reparsed) =>
      && ParsedBy(reparsed, parser, w'.clock) && w.clock <= w'.clock
      && w' == w.(source := reparsed, parser := parser, clock := w'.clock)
    case Refresh(listing, now, fault) =>
      IsListing(listing, w.source, kind, Since(w)) && w' == w.(db := Pass(w.db, listing, now, fault))
  }

  /** The steps that the protocol stands. */
  ghost predicate Tolerable(kind: SinceFilter, w: World, e: Step) {
    match e
    case Change(sessions) => forall id | id in sessions :: InHand(kind, w.db, w.parser, sessions[id])
    case Remove(_) => true
    case Upgrade(parser, reparsed) => forall id | id in reparsed :: InHand(kind, w.db, parser, reparsed[id])
    case Refresh(listing, _, fault) => fault.Some? ==> Recoverable(kind, w, listing, fault.value)
  }

  ghost predicate RowsWithin(db: Db, clock: Instant) {
    forall id | id in db.sessions && db.sessions[id].fingerprint.Some? ::
      db.sessions[id].fingerprint.value.mtime <= clock
  }

  /** The source is keyed by id and parsed by the current parser, and nothing is stamped after the clock. */
  ghost predicate WellFormed(w: World) {
    && ParsedBy(w.source, w.parser, w.clock)
    && (w.db.watermark.Some? ==> w.db.watermark.value <= w.clock)
    && RowsWithin(w.db, w.clock)
  }

  ghost predicate Inv(kind: SinceFilter, w: World) {
    && WellFormed(w)
    && (forall id | id in w.source :: InHand(kind, w.db, w.parser, w.source[id]))
  }

  /** Before the first refresh nothing is indexed and there is no watermark. */
  ghost predicate Init(w: World) {
    && w.db == Db(map[], map[], None, map[])
    && ParsedBy(w.source, w.parser, w.clock)
  }

  lemma InitInv(kind: SinceFilter, w: World)
    requires Init(w)
    ensures Inv(kind, w)
  {
  }

  lemma ChangeKeepsInvIff(kind: SinceFilter, w: World, sessions: Source, w': World)
    requires Inv(kind, w) && Moves(kind, w, Change(sessions), w')
    ensures Inv(kind, w') <==> Tolerable(kind, w, Change(sessions))
  {
    forall id | id in w'.source
      ensures w'.source[id] == if id in sessions then sessions[id] else w.source[id]
    {
    }
    assert WellFormed(w');
  }

  /**
   * A write is tolerable, whatever it changes, when each session in it is stamped later than everything
   * seen before, or is an old one of which nothing but the file's time and size moved.
   */
  lemma StampedChangesTolerable(kind: SinceFilter, w: World, sessions: Source)
    requires Inv(kind, w) && Keyed(sessions)
    requires forall id | id in sessions ::
               || FreshlyStamped(kind, sessions[id], w.clock)
               || (id in w.source && Restamped(w.source[id], sessions[id], w.clock))
    ensures Tolerable(kind, w, Change(sessions))
  {
    forall id | id in sessions
      ensures InHand(kind, w.db, w.parser, sessions[id])
    {
      StampedInHand(kind, w, sessions[id]);
    }
  }

  lemma StampedInHand(kind: SinceFilter, w: World, n: Native)
    requires Inv(kind, w)
    requires FreshlyStamped(kind, n, w.clock) || (n.id in w.source && Restamped(w.source[n.id], n, w.clock))
    ensures InHand(kind, w.db, w.parser, n)
  {
    assert !Unchanged(w.db, n);
    if !FreshlyStamped(kind, n, w.clock) {
      assert InHand(kind, w.db, w.parser, w.source[n.id]);
    }
  }

  /**
   * Which stamps an indexed session must get when its transcript changes: with no rescan pending the change
   * is tolerable exactly when the filter lists its stamp and its fingerprint is not the row's, unless the
   * transcript was empty, so that the pass formats it, and the row's other fields are still right.
   */
  lemma TranscriptChangeIff(kind: SinceFilter, w: World, n: Native)
    requires WellFormed(w) && !ParserMismatch(w.db, w.parser) && n.id in w.source
    requires Agrees(w.db, w.source[n.id]) && n.parser == w.parser
    requires n.chunks != w.source[n.id].chunks
    ensures var was, row := w.source[n.id], w.db.sessions[n.id];
            Tolerable(kind, w, Change(map[n.id := n]))
            <==> && Listed(kind, n, w.db.watermark)
                 && (n.mtime.Some? && FingerprintOf(n) == row.fingerprint ==>
                       was.chunks == [] && n.updated == was.updated && n.listable == was.listable)
  {
    assert map[n.id := n][n.id] == n;
  }

  lemma RemoveKeepsInv(kind: SinceFilter, w: World, gone: string, w': World)
    requires Inv(kind, w) && Moves(kind, w, Remove(gone), w')
    ensures Inv(kind, w')
  {
  }

  /**
   * An upgrade keeps the invariant exactly when it is tolerable: one to a version that no row has, exactly
   * when some row can reveal it or the watermark hides nothing.
   */
  lemma UpgradeKeepsInvIff(kind: SinceFilter, w: World, parser: string, reparsed: Source, w': World)
    requires Inv(kind, w) && Moves(kind, w, Upgrade(parser, reparsed), w')
    ensures WellFormed(w')
    ensures Inv(kind, w') <==> Tolerable(kind, w, Upgrade(parser, reparsed))
    ensures IsNewVersion(w.db, parser) ==> (Inv(kind, w') <==> UpgradeShows(kind, w.db, reparsed))
  {
    if IsNewVersion(w.db, parser) {
      forall id | id in reparsed
        ensures InHand(kind, w.db, parser, reparsed[id])
           <==> (exists r | r in w.db.sessions :: w.db.sessions[r].listable) || Listed(kind, reparsed[id], w.db.watermark)
      {
      }
    }
  }

  lemma HandledRowsWithin(db: Db, n: Native, now: Instant, clock: Instant)
    requires RowsWithin(db, clock) && StampedBy(n, clock)
    ensures RowsWithin(Handled(db, n, now), clock)
  {
  }

  lemma {:induction false} RowsStayWithin(db: Db, listing: seq<Native>, now: Instant, clock: Instant)
    requires RowsWithin(db, clock) && forall i | 0 <= i < |listing| :: StampedBy(listing[i], clock)
    ensures RowsWithin(HandleAll(db, listing, now), clock)
  {
    if listing != [] {
      var k := |listing| - 1;
      RowsStayWithin(db, listing[..k], now, clock);
      HandledRowsWithin(HandleAll(db, listing[..k], now), listing[k], now, clock);
    }
  }

  /**
   * In any world, the next full pass that succeeds leaves every session up to date exactly when each of
   * them is listed by the watermark, awaits a rescan or is up to date, and no row of them misleads the
   * fingerprint skip: `Inv` asks for no more than that.
   */
  lemma NextPassAgreesIff(kind: SinceFilter, w: World, listing: seq<Native>, now: Instant)
    requires Keyed(w.source) && IsListing(listing, w.source, kind, Since(w))
    ensures (forall id | id in w.source :: UpToDate(kind, Pass(w.db, listing, now, None), w.source[id]))
       <==> forall id | id in w.source :: InHand(kind, w.db, w.parser, w.source[id])
  {
    PassAgreesIff(kind, w.db, w.source, listing, now);
    forall id | id in w.source
      ensures (if InListing(listing, w.source[id]) then Faithful(w.db, w.source[id]) else UpToDate(kind, w.db, w.source[id]))
         <==> InHand(kind, w.db, w.parser, w.source[id])
    {
      assert InListing(listing, w.source[id]) <==> Listed(kind, w.source[id], Since(w));
    }
  }

  /** After a successful pass every session of the source is up to date, and those it listed are current. */
  lemma SuccessMakesCurrent(kind: SinceFilter, w: World, listing: seq<Native>, now: Instant, w': World)
    requires Inv(kind, w) && Moves(kind, w, Refresh(listing, now, None), w')
    ensures forall id | id in w'.source :: UpToDate(kind, w'.db, w'.source[id])
    ensures forall i | 0 <= i < |listing| :: Current(w'.db, listing[i])
  {
    NextPassAgreesIff(kind, w, listing, now);
    forall i | 0 <= i < |listing|
      ensures Current(w'.db, listing[i])
    {
      assert InHand(kind, w.db, w.parser, w.source[listing[i].id]);
      LoopOnSession(kind, w.db, w.source, listing, listing[i].id, now);
    }
  }

  lemma SuccessKeepsInv(kind: SinceFilter, w: World, listing: seq<Native>, now: Instant, w': World)
    requires Inv(kind, w) && Moves(kind, w, Refresh(listing, now, None), w')
    ensures Inv(kind, w')
  {
    SuccessMakesCurrent(kind, w, listing, now, w');
    RowsStayWithin(w.db, listing, now, w.clock);
    HandleAllKeepsWatermark(w.db, listing, now);
  }

  // ---- one fault ----

  /** What a fault leaves of a session that it did not cut off at first sight. */
  lemma FaultOnOthers(kind: SinceFilter, db: Db, source: Source, listing: seq<Native>, now: Instant, f: Fault, id: string)
    requires Keyed(source) && IsPartialListing(listing, source)
    requires id in source && Faithful(db, source[id]) && !CutOff(listing, f, source[id])
    ensures var db', n := PassTables(db, listing, now, Some(f)), source[id];
            Faithful(db', n) && (UpToDate(kind, db', n) <==> UpToDateDespite(kind, db, listing, f, n))
  {
    var n, done := source[id], DoneBefore(listing, f);
    assert IsPartialListing(done, source);
    LoopOnSession(kind, db, source, done, id, now);
    var before := HandleAll(db, done, now);
    if f.index < |listing| {
      if listing[f.index] == n {
        StoppedOnCurrent(before, n, now, f.point);
      } else {
        StoppedElsewhere(before, listing[f.index], now, f.point, id);
        SameForMeans(before, PassTables(db, listing, now, Some(f)), n);
      }
    }
  }

  /** Cut off in a session that is current already, a pass leaves it current. */
  lemma StoppedOnCurrent(db: Db, n: Native, now: Instant, point: FaultPoint)
    requires Current(db, n)
    ensures Current(Stopped(db, n, now, point), n) && Agrees(Stopped(db, n, now, point), n)
  {
  }

  lemma StoppedElsewhere(db: Db, m: Native, now: Instant, point: FaultPoint, id: string)
    requires m.id != id
    ensures SameFor(db, Stopped(db, m, now, point), id)
  {
    OthersUntouched(db, m, id, now);
  }

  /** What a fault leaves of the session it cut off. */
  lemma FaultOnItself(kind: SinceFilter, db: Db, source: Source, listing: seq<Native>, now: Instant, f: Fault, n: Native)
    requires Keyed(source) && IsPartialListing(listing, source)
    requires Faithful(db, n) && CutOff(listing, f, n)
    ensures var db' := PassTables(db, listing, now, Some(f));
            && (Faithful(db', n) <==> (f.point == BetweenUpserts ==> TornIsHarmless(db, n)))
            && (UpToDate(kind, db', n) <==> UpToDateDespite(kind, db, listing, f, n))
  {
    var done := listing[..f.index];
    forall i | 0 <= i < |done|
      ensures done[i].id != n.id
    {
      assert done[i] == listing[i] && done[i] == source[done[i].id];
    }
    HandleAllOthers(db, done, n.id, now);
    var before := HandleAll(db, done, now);
    SameForMeans(db, before, n);
    assert Observed(n).id == n.id;
    if f.point == BeforeAppend {
      IndexedSession(before, n, now);
    } else if f.point == BetweenUpserts {
      TornSession(before, n, now);
    }
  }

  lemma FaultOnSession(kind: SinceFilter, db: Db, source: Source, listing: seq<Native>, now: Instant, f: Fault, id: string)
    requires Keyed(source) && IsPartialListing(listing, source) && id in source && Faithful(db, source[id])
    ensures var db', n := PassTables(db, listing, now, Some(f)), source[id];
            && (Faithful(db', n) <==> (f.point == BetweenUpserts && CutOff(listing, f, n) ==> TornIsHarmless(db, n)))
            && (UpToDate(kind, db', n) <==> UpToDateDespite(kind, db, listing, f, n))
  {
    if CutOff(listing, f, source[id]) {
      FaultOnItself(kind, db, source, listing, now, f, source[id]);
    } else {
      FaultOnOthers(kind, db, source, listing, now, f, id);
    }
  }

  /** Going on to any of the three points past the fingerprint skip leaves a row of the session's parser. */
  lemma RowHasParser(db: Db, n: Native, now: Instant)
    ensures var rows := Torn(db, n, now).sessions; n.id in rows && rows[n.id].parser == n.parser
    ensures Indexed(db, n, now).sessions == Torn(db, n, now).sessions
    ensures Handled(db, n, now).sessions == Torn(db, n, now).sessions
  {
  }

  /** A row is one of this parser once the loop has been through its session. */
  lemma {:induction false} HandleAllParser(db: Db, listing: seq<Native>, now: Instant, parser: string, id: string)
    requires forall i | 0 <= i < |listing| :: listing[i].parser == parser
    requires exists i | 0 <= i < |listing| :: listing[i].id == id
    ensures var rows := HandleAll(db, listing, now).sessions; id in rows && rows[id].parser == parser
  {
    var k := |listing| - 1;
    if listing[k].id == id {
      RowHasParser(HandleAll(db, listing[..k], now), listing[k], now);
    } else {
      assert exists i | 0 <= i < |listing[..k]| :: listing[..k][i].id == id;
      HandleAllParser(db, listing[..k], now, parser, id);
      OthersUntouched(HandleAll(db, listing[..k], now), listing[k], id, now);
    }
  }

  /** A pass that a fault stops rewrites the rows it reached, and no other. */
  lemma FaultOnRow(db: Db, listing: seq<Native>, now: Instant, f: Fault, parser: string, id: string)
    requires forall i | 0 <= i < |listing| :: listing[i].parser == parser
    ensures var rows := PassTables(db, listing, now, Some(f)).sessions;
            if Reached(listing, f, id) then id in rows && rows[id].parser == parser
            else (id in rows <==> id in db.sessions) && (id in rows ==> rows[id] == db.sessions[id])
  {
    var done := DoneBefore(listing, f);
    if i :| 0 <= i < |done| && done[i].id == id {
      HandleAllParser(db, done, now, parser, id);
      assert Reached(listing, f, id);
    } else {
      HandleAllOthers(db, done, id, now);
    }
    if f.index < |listing| {
      if listing[f.index].id == id {
        RowHasParser(HandleAll(db, done, now), listing[f.index], now);
      } else {
        StoppedElsewhere(HandleAll(db, done, now), listing[f.index], now, f.point, id);
      }
    }
  }

  lemma MismatchAfterFault(w: World, listing: seq<Native>, now: Instant, f: Fault)
    requires forall i | 0 <= i < |listing| :: listing[i].parser == w.parser
    ensures ParserMismatch(PassTables(w.db, listing, now, Some(f)), w.parser) <==> MismatchLeft(w, listing, f)
  {
    forall id
      ensures var rows := PassTables(w.db, listing, now, Some(f)).sessions;
              if Reached(listing, f, id) then id in rows && rows[id].parser == w.parser
              else (id in rows <==> id in w.db.sessions) && (id in rows ==> rows[id] == w.db.sessions[id])
    {
      FaultOnRow(w.db, listing, now, f, w.parser, id);
    }
  }

  lemma IndexedSession(db: Db, n: Native, now: Instant)
    requires Faithful(db, n)
    ensures var db' := Indexed(db, n, now);
            && Faithful(db', n) && n.id in db'.sessions && SameRow(db'.sessions[n.id], n)
            && (Current(db', n) <==> EventHas(db, n, n.chunks)) && (Agrees(db', n) <==> EventHas(db, n, n.chunks))
  {
  }

  lemma TornSession(db: Db, n: Native, now: Instant)
    requires Faithful(db, n)
    ensures var db' := Torn(db, n, now);
            && n.id in db'.sessions && SameRow(db'.sessions[n.id], n)
            && (Faithful(db', n) <==> TornIsHarmless(db, n))
            && (Current(db', n) <==> ChunksOf(db, n.id) == n.chunks && EventHas(db, n, n.chunks))
            && (Agrees(db', n) <==> ChunksOf(db, n.id) == n.chunks && EventHas(db, n, n.chunks))
  {
  }

  lemma StoppedRowsWithin(db: Db, n: Native, now: Instant, point: FaultPoint, clock: Instant)
    requires RowsWithin(db, clock) && StampedBy(n, clock)
    ensures RowsWithin(Stopped(db, n, now, point), clock)
    ensures Stopped(db, n, now, point).watermark == db.watermark
  {
  }

  lemma FaultKeepsRowsWithin(db: Db, listing: seq<Native>, now: Instant, f: Fault, clock: Instant)
    requires RowsWithin(db, clock) && forall i | 0 <= i < |listing| :: StampedBy(listing[i], clock)
    ensures RowsWithin(PassTables(db, listing, now, Some(f)), clock)
    ensures PassTables(db, listing, now, Some(f)).watermark == db.watermark
  {
    var done := DoneBefore(listing, f);
    RowsStayWithin(db, done, now, clock);
    HandleAllKeepsWatermark(db, done, now);
    if f.index < |listing| {
      StoppedRowsWithin(HandleAll(db, done, now), listing[f.index], now, f.point, clock);
    }
  }

  /** A fault keeps the invariant exactly when it is recoverable. */
  lemma FaultKeepsInvIff(kind: SinceFilter, w: World, listing: seq<Native>, now: Instant, f: Fault)
    requires Inv(kind, w) && IsListing(listing, w.source, kind, Since(w))
    ensures WellFormed(w.(db := Pass(w.db, listing, now, Some(f))))
    ensures Inv(kind, w.(db := Pass(w.db, listing, now, Some(f)))) <==> Recoverable(kind, w, listing, f)
  {
    var w' := w.(db := Pass(w.db, listing, now, Some(f)));
    FaultKeepsRowsWithin(w.db, listing, now, f, w.clock);
    MismatchAfterFault(w, listing, now, f);
    forall id | id in w.source
      ensures Faithful(w'.db, w.source[id])
         <==> (f.point == BetweenUpserts && CutOff(listing, f, w.source[id]) ==> TornIsHarmless(w.db, w.source[id]))
      ensures UpToDate(kind, w'.db, w.source[id]) <==> UpToDateDespite(kind, w.db, listing, f, w.source[id])
    {
      assert InHand(kind, w.db, w.parser, w.source[id]);
      FaultOnSession(kind, w.db, w.source, listing, now, f, id);
    }
    CutOffInSource(w.source, listing, f);
  }

  lemma CutOffInSource(source: Source, listing: seq<Native>, f: Fault)
    requires IsPartialListing(listing, source)
    ensures forall n | CutOff(listing, f, n) :: n.id in source && source[n.id] == n
  {
  }

  /** While no rescan is pending, only a torn upsert is not recoverable. */
  lemma IncrementalFaultIff(kind: SinceFilter, w: World, listing: seq<Native>, f: Fault)
    requires Inv(kind, w) && !AwaitsRescan(w) && IsListing(listing, w.source, kind, Since(w))
    ensures Recoverable(kind, w, listing, f)
       <==> (f.point == BetweenUpserts ==> forall n | CutOff(listing, f, n) :: TornIsHarmless(w.db, n))
  {
    forall id | id in w.source && !Listed(kind, w.source[id], w.db.watermark)
      ensures UpToDateDespite(kind, w.db, listing, f, w.source[id])
    {
      assert InHand(kind, w.db, w.parser, w.source[id]);
      assert !InListing(listing, w.source[id]);
    }
  }

  /** Of all that can happen, a step keeps the invariant exactly when it is tolerable. */
  lemma StepKeepsInvIff(kind: SinceFilter, w: World, e: Step, w': World)
    requires Inv(kind, w) && Moves(kind, w, e, w')
    ensures Inv(kind, w') <==> Tolerable(kind, w, e)
  {
    match e
    case Change(sessions) => ChangeKeepsInvIff(kind, w, sessions, w');
    case Remove(id) => RemoveKeepsInv(kind, w, id, w');
    case Upgrade(parser, reparsed) => UpgradeKeepsInvIff(kind, w, parser, reparsed, w');
    case Refresh(listing, now, fault) =>
      if fault.Some? {
        FaultKeepsInvIff(kind, w, listing, now, fault.value);
      } else {
        SuccessKeepsInv(kind, w, listing, now, w');
      }
  }

  /** A history: `worlds[i + 1]` follows `worlds[i]` by `steps[i]`, whatever happens. */
  ghost predicate History(kind: SinceFilter, worlds: seq<World>, steps: seq<Step>) {
    && |worlds| == |steps| + 1
    && Init(worlds[0])
    && forall i | 0 <= i < |steps| :: Moves(kind, worlds[i], steps[i], worlds[i + 1])
  }

  /** A run: a history of tolerable steps. */
  ghost predicate Run(kind: SinceFilter, worlds: seq<World>, steps: seq<Step>) {
    History(kind, worlds, steps) && forall i | 0 <= i < |steps| :: Tolerable(kind, worlds[i], steps[i])
  }

  lemma {:induction false} RunInv(kind: SinceFilter, worlds: seq<World>, steps: seq<Step>, k: nat)
    requires Run(kind, worlds, steps) && k < |worlds|
    ensures Inv(kind, worlds[k])
  {
    if k == 0 {
      InitInv(kind, worlds[0]);
    } else {
      RunInv(kind, worlds, steps, k - 1);
      StepKeepsInvIff(kind, worlds[k - 1], steps[k - 1], worlds[k]);
    }
  }

  /**
   * In every state of every run, a session at or below the watermark is up to date, or a row of an older parser version makes the next pass scan everything.
   */
  lemma IncrementalRefinesRescan(kind: SinceFilter, worlds: seq<World>, steps: seq<Step>, k: nat)
    requires Run(kind, worlds, steps) && k < |worlds|
    ensures var w := worlds[k];
            forall id | id in w.source && !Listed(kind, w.source[id], w.db.watermark) ::
              UpToDate(kind, w.db, w.source[id]) || Since(w) == None
  {
    RunInv(kind, worlds, steps, k);
  }

  /** On every run, a refresh that succeeds leaves every session of the source up to date, and those it listed current. */
  lemma SuccessAgreesWithSource(kind: SinceFilter, worlds: seq<World>, steps: seq<Step>, k: nat)
    requires Run(kind, worlds, steps) && k < |steps|
    requires steps[k].Refresh? && steps[k].fault.None?
    ensures var after := worlds[k + 1];
            && (forall id | id in after.source :: UpToDate(kind, after.db, after.source[id]))
            && forall i | 0 <= i < |steps[k].listing| :: Current(after.db, steps[k].listing[i])
  {
    RunInv(kind, worlds, steps, k);
    SuccessMakesCurrent(kind, worlds[k], steps[k].listing, steps[k].now, worlds[k + 1]);
  }

  /** A refresh that fails, wherever it stops, leaves the watermark where it was. */
  lemma FailureKeepsWatermark(db: Db, listing: seq<Native>, now: Instant, f: Fault)
    ensures Pass(db, listing, now, Some(f)).watermark == db.watermark
  {
    var done := DoneBefore(listing, f);
    HandleAllKeepsWatermark(db, done, now);
    if f.index < |listing| {
      StoppedKeepsWatermark(HandleAll(db, done, now), listing[f.index], now, f.point);
    }
  }

  lemma StoppedKeepsWatermark(db: Db, n: Native, now: Instant, point: FaultPoint)
    ensures Stopped(db, n, now, point).watermark == db.watermark
  {
  }
}
