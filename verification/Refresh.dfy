/**
 * One incremental refresh of a source (crates/cli/src/history.rs), over the session, chunk and
 * watermark tables (crates/core/src/metadata_db.rs) and the event ledger. Instants are integers;
 * reading or formatting a session can fail at any point, which the `Fault` of a pass decides.
 */
module Refresh {
  import opened Base

  type Chunk = string

  /** A session as the source lists it, with the chunks its transcript formats to. */
  datatype Native = Native(
    id: string,
    updated: Option<Instant>,
    mtime: Option<Instant>,
    size: nat,
    parser: string,
    listable: bool,
    chunks: seq<Chunk>)

  datatype Fingerprint = Fingerprint(mtime: Instant, size: nat, parser: string)

  /** A row of `source_sessions`. */
  datatype Record = Record(
    fingerprint: Option<Fingerprint>,
    parser: string,
    updated: Option<Instant>,
    listable: bool,
    lastSeen: Instant)

  /** What an event id is derived from. */
  datatype Observation = Observation(id: string, fingerprint: Option<Fingerprint>, parser: string)

  datatype Db = Db(
    sessions: map<string, Record>,
    chunks: map<string, seq<Chunk>>,
    watermark: Option<Instant>,
    ledger: map<Observation, seq<Chunk>>)

  /** How a provider uses the watermark: by file time, by the session's own time, or not at all. */
  datatype SinceFilter = ByMtime | ByUpdated | Unfiltered

  /** Where a pass stops: while handling the session at `index`, or after the loop. */
  datatype FaultPoint = BeforeSession | BetweenUpserts | BeforeAppend
  datatype Fault = Fault(index: nat, point: FaultPoint)

  function FingerprintOf(n: Native): Option<Fingerprint> {
    if n.mtime.Some? then Some(Fingerprint(n.mtime.value, n.size, n.parser)) else None
  }

  function LastSeen(n: Native, now: Instant): Instant {
    if n.updated.Some? then n.updated.value else if n.mtime.Some? then n.mtime.value else now
  }

  function RecordOf(n: Native, now: Instant): Record {
    Record(FingerprintOf(n), n.parser, n.updated, n.listable, LastSeen(n, now))
  }

  function ObservationOf(id: string, record: Record): Observation {
    Observation(id, record.fingerprint, record.parser)
  }

  function Observed(n: Native): Observation {
    Observation(n.id, FingerprintOf(n), n.parser)
  }

  function ChunksOf(db: Db, id: string): seq<Chunk> {
    if id in db.chunks then db.chunks[id] else []
  }

  /** The fingerprint skip: an indexed row with the same known fingerprint and parser. */
  predicate Unchanged(db: Db, n: Native) {
    && n.id in db.sessions
    && FingerprintOf(n).Some?
    && db.sessions[n.id].fingerprint == FingerprintOf(n)
    && db.sessions[n.id].parser == n.parser
  }

  /** Whether the provider lists the session for this watermark. */
  predicate Listed(kind: SinceFilter, n: Native, since: Option<Instant>) {
    since.Some? ==>
      match kind
      case ByMtime => n.mtime.Some? ==> n.mtime.value > since.value
      case ByUpdated => n.updated.Some? ==> n.updated.value > since.value
      case Unfiltered => true
  }

  /** Any listable row of another parser version forces a full scan. */
  ghost predicate ParserMismatch(db: Db, parser: string) {
    exists id | id in db.sessions :: db.sessions[id].listable && db.sessions[id].parser != parser
  }

  function MaxInstant(a: Option<Instant>, b: Option<Instant>): Option<Instant> {
    if b.None? then a
    else if a.None? || b.value > a.value then b
    else a
  }

  function MaxUpdated(listing: seq<Native>): (m: Option<Instant>)
    ensures m.Some? <==> exists i | 0 <= i < |listing| :: listing[i].updated.Some?
    ensures m.Some? ==> exists i | 0 <= i < |listing| :: listing[i].updated == m
    ensures m.Some? ==> forall i | 0 <= i < |listing| && listing[i].updated.Some? :: listing[i].updated.value <= m.value
  {
    if listing == [] then None
    else
      var front, last := listing[..|listing| - 1], listing[|listing| - 1];
      assert forall i | 0 <= i < |front| :: front[i] == listing[i];
      MaxInstant(MaxUpdated(front), last.updated)
  }

  // ---- what a pass does to the databases ----

  function Touched(db: Db, n: Native, now: Instant): Db
    requires n.id in db.sessions
  {
    db.(sessions := db.sessions[n.id := db.sessions[n.id].(lastSeen := LastSeen(n, now))])
  }

  function WithRow(db: Db, n: Native, now: Instant): Db {
    db.(sessions := db.sessions[n.id := RecordOf(n, now)])
  }

  function WithChunks(db: Db, id: string, chunks: seq<Chunk>): Db {
    db.(chunks := db.chunks[id := chunks])
  }

  function WithEvent(db: Db, n: Native): Db {
    if n.id in db.sessions then
      db.(ledger := db.ledger[ObservationOf(n.id, db.sessions[n.id]) := ChunksOf(db, n.id)])
    else db
  }

  /** The tables after the session's row and chunks are up to date. */
  function Indexed(db: Db, n: Native, now: Instant): Db {
    if Unchanged(db, n) then
      var touched := Touched(db, n, now);
      if ChunksOf(db, n.id) != [] || n.chunks == [] then touched else WithChunks(touched, n.id, n.chunks)
    else
      WithChunks(WithRow(db, n, now), n.id, n.chunks)
  }

  /** The tables when a fault stops the pass between the row upsert and the chunk upsert. */
  function Torn(db: Db, n: Native, now: Instant): Db {
    if Unchanged(db, n) then Touched(db, n, now) else WithRow(db, n, now)
  }

  function Handled(db: Db, n: Native, now: Instant): Db {
    WithEvent(Indexed(db, n, now), n)
  }

  function Stopped(db: Db, n: Native, now: Instant, point: FaultPoint): Db {
    match point
    case BeforeSession => db
    case BetweenUpserts => Torn(db, n, now)
    case BeforeAppend => Indexed(db, n, now)
  }

  function HandleAll(db: Db, listing: seq<Native>, now: Instant): Db {
    if listing == [] then db
    else Handled(HandleAll(db, listing[..|listing| - 1], now), listing[|listing| - 1], now)
  }

  /** The tables after a pass over `listing`, before the watermark is set. */
  function PassTables(db: Db, listing: seq<Native>, now: Instant, fault: Option<Fault>): Db {
    if fault.None? || fault.value.index >= |listing| then HandleAll(db, listing, now)
    else
      var i := fault.value.index;
      Stopped(HandleAll(db, listing[..i], now), listing[i], now, fault.value.point)
  }

  /** COALESCE: a pass that listed nothing with a known time keeps the stored high water. */
  function NextWatermark(stored: Option<Instant>, passMax: Option<Instant>): Option<Instant> {
    if passMax.Some? then passMax else stored
  }

  function Pass(db: Db, listing: seq<Native>, now: Instant, fault: Option<Fault>): Db {
    var tables := PassTables(db, listing, now, fault);
    if fault.Some? then tables
    else tables.(watermark := NextWatermark(tables.watermark, MaxUpdated(listing)))
  }

  datatype Stats = Stats(scanned: nat, reindexed: nat, skipped: nat)

  /** The databases a refresh writes. */
  class RefreshStore {
    var sessions: map<string, Record>
    var chunks: map<string, seq<Chunk>>
    var watermark: Option<Instant>
    var ledger: map<Observation, seq<Chunk>>

    constructor ()
      ensures State() == Db(map[], map[], None, map[])
    {
      sessions, chunks, watermark, ledger := map[], map[], None, map[];
    }

    function State(): Db
      reads this
    {
      Db(sessions, chunks, watermark, ledger)
    }

    method UpsertSession(n: Native, now: Instant)
      modifies this`sessions
      ensures State() == WithRow(old(State()), n, now)
    {
      sessions := sessions[n.id := RecordOf(n, now)];
    }

    method TouchLastSeen(n: Native, now: Instant)
      modifies this`sessions
      ensures State() == if n.id in old(sessions) then Touched(old(State()), n, now) else old(State())
    {
      if n.id in sessions {
        sessions := sessions[n.id := sessions[n.id].(lastSeen := LastSeen(n, now))];
      }
    }

    method UpsertChunks(id: string, rows: seq<Chunk>)
      modifies this`chunks
      ensures State() == WithChunks(old(State()), id, rows)
    {
      chunks := chunks[id := rows];
    }

    /** Reads the stored chunks, formatting and storing them only when there are none. */
    method ChunksOrBackfill(n: Native, formats: bool) returns (r: Result<seq<Chunk>>)
      modifies this`chunks
      ensures ChunksOf(old(State()), n.id) != [] ==>
                r == Ok(ChunksOf(old(State()), n.id)) && State() == old(State())
      ensures ChunksOf(old(State()), n.id) == [] && formats ==>
                && r == Ok(n.chunks)
                && State() == if n.chunks == [] then old(State()) else WithChunks(old(State()), n.id, n.chunks)
      ensures ChunksOf(old(State()), n.id) == [] && !formats ==> r.Err? && State() == old(State())
    {
      var stored := if n.id in chunks then chunks[n.id] else [];
      if stored != [] {
        return Ok(stored);
      }
      if !formats {
        return Err("failed to format source session");
      }
      if n.chunks != [] {
        UpsertChunks(n.id, n.chunks);
      }
      r := Ok(n.chunks);
    }

    method AppendObservation(n: Native, rows: seq<Chunk>)
      requires n.id in sessions
      modifies this`ledger
      ensures State() == old(State()).(ledger := old(ledger)[ObservationOf(n.id, sessions[n.id]) := rows])
    {
      ledger := ledger[ObservationOf(n.id, sessions[n.id]) := rows];
    }

    method SetWatermark(passMax: Option<Instant>)
      modifies this`watermark
      ensures State() == old(State()).(watermark := NextWatermark(old(watermark), passMax))
    {
      if passMax.Some? {
        watermark := passMax;
      }
    }

    /** One iteration of the refresh loop; `at` is where this session's handling is cut short, if it is. */
    method HandleSession(n: Native, now: Instant, at: Option<FaultPoint>) returns (ok: bool, skipped: bool)
      modifies this`sessions, this`chunks, this`ledger
      ensures skipped == Unchanged(old(State()), n)
      ensures at.None? ==> ok && State() == Handled(old(State()), n, now)
      ensures at.Some? ==> !ok && State() == Stopped(old(State()), n, now, at.value)
    {
      assert at.Some? ==> at.value.BeforeSession? || at.value.BetweenUpserts? || at.value.BeforeAppend?;
      skipped := Unchanged(State(), n);
      if at == Some(BeforeSession) {
        return false, skipped;
      }
      var rows: seq<Chunk>;
      if skipped {
        TouchLastSeen(n, now);
        var found := ChunksOrBackfill(n, at != Some(BetweenUpserts));
        if found.Err? || at == Some(BetweenUpserts) {
          return false, skipped;
        }
        rows := found.value;
      } else {
        UpsertSession(n, now);
        if at == Some(BetweenUpserts) {
          return false, skipped;
        }
        UpsertChunks(n.id, n.chunks);
        rows := n.chunks;
      }
      assert State() == Indexed(old(State()), n, now) && rows == ChunksOf(State(), n.id);
      if at == Some(BeforeAppend) {
        return false, skipped;
      }
      AppendObservation(n, rows);
      ok := true;
    }

    /** `refresh_single_profile` over the listed sessions. */
    method RefreshSingleProfile(listing: seq<Native>, now: Instant, fault: Option<Fault>)
      returns (ok: bool, stats: Stats, maxUpdated: Option<Instant>)
      modifies this`sessions, this`chunks, this`ledger
      ensures ok <==> fault.None?
      ensures State() == PassTables(old(State()), listing, now, fault)
      ensures ok ==> maxUpdated == MaxUpdated(listing)
      ensures ok ==> stats.scanned == |listing| && stats.scanned == stats.reindexed + stats.skipped
      ensures ok ==> stats.reindexed == Reindexed(old(State()), listing, now)
    {
      stats := Stats(0, 0, 0);
      maxUpdated := None;
      for i := 0 to |listing|
        invariant State() == HandleAll(old(State()), listing[..i], now)
        invariant fault.Some? ==> i <= fault.value.index
        invariant maxUpdated == MaxUpdated(listing[..i])
        invariant stats.scanned == i == stats.reindexed + stats.skipped
        invariant stats.reindexed == Reindexed(old(State()), listing[..i], now)
      {
        var n := listing[i];
        PrefixStep(old(State()), listing, i, now);
        stats := stats.(scanned := stats.scanned + 1);
        if n.updated.Some? && (maxUpdated.None? || n.updated.value > maxUpdated.value) {
          maxUpdated := n.updated;
        }
        var at := if fault.Some? && fault.value.index == i then Some(fault.value.point) else None;
        var handled, skipped := HandleSession(n, now, at);
        if !handled {
          return false, stats, maxUpdated;
        }
        if skipped {
          stats := stats.(skipped := stats.skipped + 1);
        } else {
          stats := stats.(reindexed := stats.reindexed + 1);
        }
      }
      assert listing[..|listing|] == listing;
      ok := fault.None?;
    }

    /** The body of `refresh_profiles_to_metadata` for one profile: the watermark moves only on success. */
    method RefreshProfile(listing: seq<Native>, now: Instant, fault: Option<Fault>) returns (ok: bool)
      modifies this
      ensures ok <==> fault.None?
      ensures State() == Pass(old(State()), listing, now, fault)
    {
      var stats, maxUpdated;
      ok, stats, maxUpdated := RefreshSingleProfile(listing, now, fault);
      if ok {
        SetWatermark(maxUpdated);
      }
    }
  }

  /** What one more session adds to each of the loop's running values. */
  lemma PrefixStep(db: Db, listing: seq<Native>, i: nat, now: Instant)
    requires i < |listing|
    ensures var n, front, longer := listing[i], listing[..i], listing[..i + 1];
            && HandleAll(db, longer, now) == Handled(HandleAll(db, front, now), n, now)
            && MaxUpdated(longer) == MaxInstant(MaxUpdated(front), n.updated)
            && Reindexed(db, longer, now)
            == Reindexed(db, front, now) + if Unchanged(HandleAll(db, front, now), n) then 0 else 1
  {
    assert listing[..i + 1][..i] == listing[..i];
  }

  /** How many listed sessions a pass indexes anew. */
  function Reindexed(db: Db, listing: seq<Native>, now: Instant): (k: nat)
    ensures k <= |listing|
  {
    if listing == [] then 0
    else
      var front := listing[..|listing| - 1];
      Reindexed(db, front, now)
      + if Unchanged(HandleAll(db, front, now), listing[|listing| - 1]) then 0 else 1
  }
}
