/**
 * Where the refresh promises less than its comments: when the watermark moves back, what a limit
 * drops, what a fault leaves behind, what a parser upgrade misses, two files of one session id, the
 * rows of removed sessions, sessions restamped by their state database; and what the ledger holds.
 */
module RefreshEdges {
  import opened Base
  import opened Refresh
  import opened RefreshRuns

  // ---- the watermark ----

  /**
   * A pass from watermark `W` of a provider that filters by the session's own time never moves the
   * watermark back, and keeps it when it lists nothing with a known time.
   */
  lemma IncrementalWatermarkGrows(db: Db, source: Source, listing: seq<Native>, now: Instant)
    requires db.watermark.Some? && IsListing(listing, source, ByUpdated, db.watermark)
    ensures var after := Pass(db, listing, now, None).watermark;
            && after.Some? && after.value >= db.watermark.value
            && (after == db.watermark <==> forall i | 0 <= i < |listing| :: listing[i].updated.None?)
  {
    HandleAllKeepsWatermark(db, listing, now);
  }

  /**
   * Whatever the filter, a successful pass leaves a watermark of at least the stored one exactly
   * when it lists nothing with a known time, or something with a time no earlier.
   */
  lemma WatermarkKeptIff(db: Db, listing: seq<Native>, now: Instant)
    requires db.watermark.Some?
    ensures var after := Pass(db, listing, now, None).watermark;
            && after.Some?
            && (after.value >= db.watermark.value
                <==> (forall i | 0 <= i < |listing| :: listing[i].updated.None?)
                     || exists i | 0 <= i < |listing| :: listing[i].updated.Some? && listing[i].updated.value >= db.watermark.value)
  {
    HandleAllKeepsWatermark(db, listing, now);
  }

  /**
   * A provider that filters by file time can move it back: a session touched after the watermark
   * but carrying an older time of its own is all the pass sees.
   */
  lemma FileTimeWatermarkGoesBack() returns (w: World, listing: seq<Native>)
    ensures Inv(ByMtime, w) && IsListing(listing, w.source, ByMtime, Since(w))
    ensures w.db.watermark == Some(10) && Pass(w.db, listing, 20, None).watermark == Some(5)
  {
    var n := Native("b", Some(5), Some(12), 0, "v1", true, []);
    w, listing := World(map["b" := n], "v1", 12, Db(map[], map[], Some(10), map[])), [n];
    assert MaxUpdated(listing[..0]) == None;
    assert MaxUpdated(listing) == Some(5);
    assert listing[0] == n;
  }

  // ---- a limit ----

  /** One refresh that succeeded: what it listed, and when. */
  datatype Visit = Visit(listing: seq<Native>, now: Instant)

  function Passes(db: Db, visits: seq<Visit>): Db {
    if visits == [] then db
    else
      var last := visits[|visits| - 1];
      Pass(Passes(db, visits[..|visits| - 1]), last.listing, last.now, None)
  }

  /** Each pass is an unlimited one from the watermark that the passes before it left. */
  ghost predicate IncrementalPasses(db: Db, source: Source, visits: seq<Visit>) {
    visits != [] ==>
      var front := visits[..|visits| - 1];
      && IncrementalPasses(db, source, front)
      && IsListing(visits[|visits| - 1].listing, source, ByUpdated, Passes(db, front).watermark)
  }

  /**
   * A session that a limited pass left out while moving the watermark past it is never indexed by
   * any number of later incremental passes, as long as the source leaves it alone.
   */
  lemma {:induction false} DroppedStaysDropped(db: Db, source: Source, n: Native, visits: seq<Visit>)
    requires Keyed(source) && n.id in source && source[n.id] == n
    requires n.id !in db.sessions && db.watermark.Some? && n.updated.Some? && n.updated.value <= db.watermark.value
    requires IncrementalPasses(db, source, visits)
    ensures var after := Passes(db, visits);
            && n.id !in after.sessions
            && after.watermark.Some? && n.updated.value <= after.watermark.value
  {
    if visits != [] {
      var k := |visits| - 1;
      DroppedStaysDropped(db, source, n, visits[..k]);
      DroppedAgain(Passes(db, visits[..k]), source, n, visits[k].listing, visits[k].now);
    }
  }

  lemma DroppedAgain(db: Db, source: Source, n: Native, listing: seq<Native>, now: Instant)
    requires Keyed(source) && n.id in source && source[n.id] == n
    requires n.id !in db.sessions && db.watermark.Some? && n.updated.Some? && n.updated.value <= db.watermark.value
    requires IsListing(listing, source, ByUpdated, db.watermark)
    ensures var after := Pass(db, listing, now, None);
            n.id !in after.sessions && after.watermark.Some? && n.updated.value <= after.watermark.value
  {
    assert !Listed(ByUpdated, n, db.watermark);
    assert forall i | 0 <= i < |listing| :: listing[i].id != n.id;
    HandleAllOthers(db, listing, n.id, now);
    IncrementalWatermarkGrows(db, source, listing, now);
  }

  /** Such a session exists after one limited pass over two new sessions. */
  lemma LimitDropsSession() returns (db: Db, source: Source, listing: seq<Native>, n: Native)
    ensures Init(World(source, "v1", 9, db)) && IsPartialListing(listing, source)
    ensures n.id in source && source[n.id] == n && n.updated.Some?
    ensures var after := Pass(db, listing, 20, None);
            n.id !in after.sessions && after.watermark.Some? && n.updated.value <= after.watermark.value
  {
    n := Native("a", Some(5), Some(5), 0, "v1", true, ["x"]);
    var m := Native("b", Some(7), Some(7), 0, "v1", true, ["y"]);
    db, source, listing := Db(map[], map[], None, map[]), map["a" := n, "b" := m], [m];
    assert MaxUpdated(listing[..0]) == None;
    assert MaxUpdated(listing) == Some(7);
    assert "a"[0] != "b"[0];
    HandleAllOthers(db, listing, "a", 20);
  }

  /**
   * A session that a pass left out, for whatever reason, is indexed by the next full pass exactly
   * when the watermark then stored lists it or a row of another parser version asks for a rescan.
   */
  lemma LeftOutIndexedIff(kind: SinceFilter, w: World, n: Native, v1: Visit, w1: World, v2: Visit)
    requires Keyed(w.source) && n.id in w.source && w.source[n.id] == n
    requires n.id !in w.db.sessions && IsPartialListing(v1.listing, w.source) && !InListing(v1.listing, n)
    requires w1 == w.(db := Pass(w.db, v1.listing, v1.now, None)) && IsListing(v2.listing, w1.source, kind, Since(w1))
    ensures n.id in Pass(w1.db, v2.listing, v2.now, None).sessions
       <==> Listed(kind, n, w1.db.watermark) || ParserMismatch(w1.db, w.parser)
  {
    LeftOutTwice(w.db, n, v1.listing, v1.now);
    assert InListing(v2.listing, n) <==> Listed(kind, n, Since(w1));
    if InListing(v2.listing, n) {
      HandleAllMakesCurrent(w1.db, v2.listing, n, v2.now);
    } else {
      LeftOutTwice(w1.db, n, v2.listing, v2.now);
    }
  }

  lemma LeftOutTwice(db: Db, n: Native, listing: seq<Native>, now: Instant)
    requires n.id !in db.sessions && forall i | 0 <= i < |listing| :: listing[i].id != n.id
    ensures n.id !in Pass(db, listing, now, None).sessions
  {
    HandleAllOthers(db, listing, n.id, now);
  }

  // ---- a torn upsert ----

  /** The row claims the session's fingerprint while the chunks are another version's. */
  ghost predicate Stale(db: Db, n: Native) {
    Unchanged(db, n) && ChunksOf(db, n.id) != [] && ChunksOf(db, n.id) != n.chunks
  }

  ghost predicate StaleWith(db: Db, n: Native, rows: seq<Chunk>) {
    Stale(db, n) && ChunksOf(db, n.id) == rows
  }

  lemma StaleStep(db: Db, m: Native, n: Native, rows: seq<Chunk>, now: Instant)
    requires StaleWith(db, n, rows) && (m.id == n.id ==> m == n)
    ensures StaleWith(Handled(db, m, now), n, rows)
    ensures m == n || EventHas(db, n, rows) ==> EventHas(Handled(db, m, now), n, rows)
  {
    if m != n {
      OthersUntouched(db, m, n.id, now);
      SameForMeans(db, Handled(db, m, now), n);
      assert Observed(n).id == n.id;
    }
  }

  /** Stale chunks survive every later pass over the same source, and feed the session's event. */
  lemma {:induction false} StaleStaysStale(db: Db, listing: seq<Native>, n: Native, rows: seq<Chunk>, now: Instant)
    requires StaleWith(db, n, rows)
    requires forall i | 0 <= i < |listing| && listing[i].id == n.id :: listing[i] == n
    ensures StaleWith(HandleAll(db, listing, now), n, rows)
    ensures n in listing ==> EventHas(HandleAll(db, listing, now), n, rows)
  {
    if listing != [] {
      var k := |listing| - 1;
      var front := listing[..k];
      StaleStaysStale(db, front, n, rows, now);
      StaleStep(HandleAll(db, front, now), listing[k], n, rows, now);
      assert n in listing ==> n in front || n == listing[k];
    }
  }

  /**
   * A changed session whose row was written but whose chunks were not is repaired by a later pass
   * that lists it exactly when its old chunks were absent or already right, or it has no fingerprint.
   */
  lemma TornHealsIff(db: Db, n: Native, now: Instant, later: Visit)
    requires !Unchanged(db, n) && InListing(later.listing, n)
    requires forall j | 0 <= j < |later.listing| && later.listing[j].id == n.id :: later.listing[j] == n
    ensures Current(HandleAll(Torn(db, n, now), later.listing, later.now), n) <==> TornIsHarmless(db, n)
  {
    HandleAllMakesCurrent(Torn(db, n, now), later.listing, n, later.now);
  }

  // ---- recovery from one fault ----

  /**
   * After a pass that fails anywhere, the next full pass that succeeds brings everything up to
   * date exactly when the fault was a recoverable one.
   */
  lemma RecoveredIff(kind: SinceFilter, w: World, failed: Visit, f: Fault, w1: World, next: Visit)
    requires Inv(kind, w) && IsListing(failed.listing, w.source, kind, Since(w))
    requires w1 == w.(db := Pass(w.db, failed.listing, failed.now, Some(f)))
    requires IsListing(next.listing, w1.source, kind, Since(w1))
    ensures (forall id | id in w.source :: UpToDate(kind, Pass(w1.db, next.listing, next.now, None), w.source[id]))
       <==> Recoverable(kind, w, failed.listing, f)
  {
    FaultKeepsInvIff(kind, w, failed.listing, failed.now, f);
    NextPassAgreesIff(kind, w1, next.listing, next.now);
  }

  /**
   * A rescan that fails between indexing a session and appending its event strands the event: the
   * row now shows the new parser, so nothing asks for a rescan, and the watermark hides the session.
   */
  lemma RescanFaultStrandsEvent(kind: SinceFilter, w: World, n: Native, now: Instant)
    requires w.source == map[n.id := n] && n.parser == w.parser && w.db.sessions.Keys == {n.id}
    requires AwaitsRescan(w) && !Listed(kind, n, w.db.watermark) && Observed(n) !in w.db.ledger
    ensures var w' := w.(db := Pass(w.db, [n], now, Some(Fault(0, BeforeAppend))));
            && IsListing([n], w.source, kind, Since(w))
            && Observed(n) !in w'.db.ledger
            && !Listed(kind, n, Since(w')) && !AwaitsRescan(w')
  {
    assert n.id in w.source;
    assert [n][0] == n;
    var w' := w.(db := Pass(w.db, [n], now, Some(Fault(0, BeforeAppend))));
    assert [n][..0] == [];
    assert w'.db == Indexed(w.db, n, now);
  }

  /**
   * A fault that leaves a session neither up to date nor above the watermark, and no row that would ask
   * for a rescan, strands the session: it is not up to date, and the next pass does not list it.
   */
  lemma FaultStrands(kind: SinceFilter, w: World, listing: seq<Native>, f: Fault, now: Instant, n: Native)
    requires Inv(kind, w) && IsListing(listing, w.source, kind, Since(w)) && n.id in w.source && w.source[n.id] == n
    requires !MismatchLeft(w, listing, f) && !Listed(kind, n, w.db.watermark) && !UpToDateDespite(kind, w.db, listing, f, n)
    ensures var w' := w.(db := Pass(w.db, listing, now, Some(f)));
            !UpToDate(kind, w'.db, n) && !AwaitsRescan(w') && !Listed(kind, n, Since(w'))
  {
    MismatchAfterFault(w, listing, now, f);
    assert InHand(kind, w.db, w.parser, n);
    FaultOnSession(kind, w.db, w.source, listing, now, f, n.id);
    FaultKeepsRowsWithin(w.db, listing, now, f, w.clock);
  }

  /** The world of two sessions, one that lists show and one that they do not, both indexed by their parser. */
  function TwoIndexed(a: Native, b: Native): World {
    World(map[a.id := a, b.id := b], a.parser, 2,
          Db(map[a.id := RecordOf(a, 0), b.id := RecordOf(b, 0)], map[a.id := a.chunks, b.id := b.chunks], Some(2),
             map[Observed(a) := a.chunks, Observed(b) := b.chunks]))
  }

  lemma TwoIndexedCurrent(a: Native, b: Native)
    requires a.id != b.id
    ensures var w := TwoIndexed(a, b); Current(w.db, a) && Current(w.db, b)
  {
    assert Observed(a).id != Observed(b).id;
  }

  lemma TwoIndexedInv(a: Native, b: Native)
    requires a.id != b.id && a.parser == b.parser && StampedBy(a, 2) && StampedBy(b, 2)
    ensures var w := TwoIndexed(a, b); Inv(ByUpdated, w) && Current(w.db, a) && Current(w.db, b)
  {
    var w := TwoIndexed(a, b);
    TwoIndexedCurrent(a, b);
    CurrentInHand(w.db, w.parser, a);
    CurrentInHand(w.db, w.parser, b);
    assert forall id | id in w.source :: id == a.id || id == b.id;
  }

  lemma CurrentInHand(db: Db, parser: string, n: Native)
    requires Current(db, n)
    ensures InHand(ByUpdated, db, parser, n)
  {
  }

  lemma TwoUpgraded(a: Native, b: Native, w: World, listing: seq<Native>)
    requires a.id != b.id && a.parser == b.parser != w.parser && a.listable
    requires listing == [a.(parser := w.parser), b.(parser := w.parser)]
    requires w == TwoIndexed(a, b).(source := map[a.id := listing[0], b.id := listing[1]], parser := w.parser)
    requires StampedBy(a, 2) && StampedBy(b, 2)
    ensures Moves(ByUpdated, TwoIndexed(a, b), Upgrade(w.parser, w.source), w)
    ensures IsNewVersion(w.db, w.parser) && UpgradeShows(ByUpdated, w.db, w.source)
    ensures AwaitsRescan(w)
  {
    assert w.db.sessions[a.id] == RecordOf(a, 0) && a.id in w.source;
    assert w.db.sessions[b.id] == RecordOf(b, 0);
  }

  lemma TwoListed(listing: seq<Native>, source: Source)
    requires |listing| == 2 && listing[0].id != listing[1].id
    requires source == map[listing[0].id := listing[0], listing[1].id := listing[1]]
    ensures IsListing(listing, source, ByUpdated, None)
  {
    assert InListing(listing, listing[0]) && InListing(listing, listing[1]);
  }

  lemma TwoWaiting(a: Native, b: Native, w: World, listing: seq<Native>)
    requires a.id != b.id && a.parser == b.parser != w.parser && a.listable && StampedBy(a, 2) && StampedBy(b, 2)
    requires listing == [a.(parser := w.parser), b.(parser := w.parser)]
    requires w == TwoIndexed(a, b).(source := map[a.id := listing[0], b.id := listing[1]], parser := w.parser)
    ensures Moves(ByUpdated, TwoIndexed(a, b), Upgrade(w.parser, w.source), w)
    ensures Inv(ByUpdated, w) && IsListing(listing, w.source, ByUpdated, Since(w))
  {
    TwoIndexedInv(a, b);
    TwoUpgraded(a, b, w, listing);
    TwoListed(listing, w.source);
    UpgradeKeepsInvIff(ByUpdated, TwoIndexed(a, b), w.parser, w.source, w);
  }

  lemma TwoStranded(a: Native, b: Native, w: World, listing: seq<Native>, now: Instant)
    requires a.id != b.id && a.parser == b.parser != w.parser && a.listable && !b.listable && b.updated.Some?
    requires listing == [a.(parser := w.parser), b.(parser := w.parser)]
    requires w == TwoIndexed(a, b).(source := map[a.id := listing[0], b.id := listing[1]], parser := w.parser)
    requires Inv(ByUpdated, w) && IsListing(listing, w.source, ByUpdated, Since(w))
    ensures var w' := w.(db := Pass(w.db, listing, now, Some(Fault(1, BeforeSession))));
            !Agrees(w'.db, listing[1]) && !AwaitsRescan(w') && !Listed(ByUpdated, listing[1], Since(w'))
  {
    var f := Fault(1, BeforeSession);
    assert listing[0].id == a.id;
    assert Reached(listing, f, a.id);
    assert listing[..1] == [listing[0]];
    FaultStrands(ByUpdated, w, listing, f, now, listing[1]);
  }

  /**
   * A rescan that fails between two sessions can do so: `a` is a session that lists show and `b` one
   * that they do not, both were current below the watermark, and the parser was upgraded. Once `a` is
   * rescanned no row asks for a rescan any more.
   */
  lemma RescanFaultStrandsUnlistable() returns (a: Native, b: Native, w: World, listing: seq<Native>)
    ensures var before := TwoIndexed(a, b);
            && Inv(ByUpdated, before) && Current(before.db, a) && Current(before.db, b)
            && Moves(ByUpdated, before, Upgrade(w.parser, w.source), w) && IsListing(listing, w.source, ByUpdated, Since(w))
    ensures b.id in w.source
    ensures var w', stranded := w.(db := Pass(w.db, listing, 9, Some(Fault(1, BeforeSession)))), w.source[b.id];
            !Agrees(w'.db, stranded) && !AwaitsRescan(w') && !Listed(ByUpdated, stranded, Since(w'))
  {
    a := Native("a", Some(1), Some(1), 0, "v1", true, ["x"]);
    b := Native("b", Some(2), Some(2), 0, "v1", false, ["y"]);
    assert a.id[0] != b.id[0] && "v1"[1] != "v2"[1];
    listing := [a.(parser := "v2"), b.(parser := "v2")];
    w := TwoIndexed(a, b).(source := map[a.id := listing[0], b.id := listing[1]], parser := "v2");
    TwoIndexedInv(a, b);
    TwoWaiting(a, b, w, listing);
    TwoStranded(a, b, w, listing, 9);
  }

  // ---- two files of one session id ----

  /** Alike in all that an index keeps. */
  ghost predicate Alike(m: Native, n: Native) {
    && m.id == n.id && FingerprintOf(m) == FingerprintOf(n) && m.parser == n.parser
    && m.updated == n.updated && m.listable == n.listable && m.chunks == n.chunks
  }

  /** Entries of one id with the same known fingerprint and parser are alike. */
  ghost predicate FingerprintsTell(listing: seq<Native>) {
    forall m, n | m in listing && n in listing && m.id == n.id && m.parser == n.parser
                  && FingerprintOf(m).Some? && FingerprintOf(m) == FingerprintOf(n) :: Alike(m, n)
  }

  lemma FaithfulStep(db: Db, m: Native, n: Native, now: Instant)
    requires Faithful(db, n)
    requires m.id == n.id && m.parser == n.parser && FingerprintOf(m).Some? && FingerprintOf(m) == FingerprintOf(n) ==> Alike(m, n)
    ensures Faithful(Handled(db, m, now), n)
  {
    if m.id != n.id {
      OthersUntouched(db, m, n.id, now);
      SameForMeans(db, Handled(db, m, now), n);
    }
  }

  lemma {:induction false} EntryFaithful(db: Db, front: seq<Native>, n: Native, now: Instant)
    requires Faithful(db, n) && FingerprintsTell(front + [n])
    ensures Faithful(HandleAll(db, front, now), n)
  {
    if front != [] {
      var k := |front| - 1;
      assert forall m | m in front[..k] + [n] :: m in front + [n];
      EntryFaithful(db, front[..k], n, now);
      assert front[k] in front + [n] && n in front + [n];
      FaithfulStep(HandleAll(db, front[..k], now), front[k], n, now);
    }
  }

  /**
   * In any listing at all, several entries of one id included, the last entry of an id decides: an
   * entry ends current exactly when it is alike with that one.
   */
  lemma LastEntryWins(db: Db, listing: seq<Native>, i: nat, k: nat, now: Instant)
    requires i <= k < |listing| && listing[i].id == listing[k].id
    requires forall j | k < j < |listing| :: listing[j].id != listing[k].id
    requires FingerprintsTell(listing) && Faithful(db, listing[k])
    ensures Current(HandleAll(db, listing, now), listing[i]) <==> Alike(listing[i], listing[k])
  {
    var m, n := listing[i], listing[k];
    LastEntryCurrent(db, listing, k, now);
    var after := HandleAll(db, listing, now);
    if FingerprintOf(m) == FingerprintOf(n) && m.parser == n.parser {
      assert Observed(m) == Observed(n);
    }
  }

  lemma {:induction false} LastEntryCurrent(db: Db, listing: seq<Native>, k: nat, now: Instant)
    requires k < |listing| && forall j | k < j < |listing| :: listing[j].id != listing[k].id
    requires FingerprintsTell(listing) && Faithful(db, listing[k])
    ensures Current(HandleAll(db, listing, now), listing[k])
  {
    var l := |listing| - 1;
    var front, n := listing[..l], listing[k];
    assert forall m | m in front :: m in listing;
    var before := HandleAll(db, front, now);
    if k == l {
      assert front + [n] == listing;
      EntryFaithful(db, front, n, now);
      HandledIsCurrent(before, n, now);
    } else {
      LastEntryCurrent(db, front, k, now);
      HandledStep(before, listing[l], n, now);
    }
  }

  // ---- a removed session ----

  /** A listable row of another parser whose session the source no longer has. */
  ghost predicate Leftover(w: World, id: string) {
    && id !in w.source && id in w.db.sessions
    && w.db.sessions[id].listable && w.db.sessions[id].parser != w.parser
  }

  /** After a successful full pass a parser mismatch is left exactly when such a row is. */
  lemma MismatchLeftIff(kind: SinceFilter, w: World, v: Visit, w': World)
    requires Inv(kind, w) && Moves(kind, w, Step.Refresh(v.listing, v.now, None), w')
    ensures ParserMismatch(w'.db, w'.parser) <==> exists id :: Leftover(w, id)
  {
    SuccessMakesCurrent(kind, w, v.listing, v.now, w');
    forall id | id !in w.source
      ensures SameFor(w.db, w'.db, id)
      ensures Leftover(w, id) <==> Leftover(w', id)
    {
      HandleAllOthers(w.db, v.listing, id, v.now);
    }
    assert forall id | id in w.source :: UpToDate(kind, w'.db, w.source[id]) && w.source[id].parser == w.parser;
    if id :| id in w'.db.sessions && w'.db.sessions[id].listable && w'.db.sessions[id].parser != w'.parser {
      assert id !in w.source;
      assert Leftover(w, id);
    }
    if id :| Leftover(w, id) {
      assert Leftover(w', id);
    }
  }

  /** The step brings back the session, or the parser version, of the row. */
  ghost predicate BringsBack(w: World, e: Step, id: string) {
    match e
    case Change(sessions) => id in sessions
    case Upgrade(parser, reparsed) => id in reparsed || (id in w.db.sessions && w.db.sessions[id].parser == parser)
    case _ => false
  }

  lemma LeftoverStays(kind: SinceFilter, w: World, e: Step, w': World, id: string)
    requires Leftover(w, id) && Moves(kind, w, e, w') && !BringsBack(w, e, id)
    ensures Leftover(w', id)
  {
    if e.Refresh? {
      var done := if e.fault.Some? then DoneBefore(e.listing, e.fault.value) else e.listing;
      HandleAllOthers(w.db, done, id, e.now);
      if e.fault.Some? && e.fault.value.index < |e.listing| {
        StoppedElsewhere(HandleAll(w.db, done, e.now), e.listing[e.fault.value.index], e.now, e.fault.value.point, id);
      }
    }
  }

  /** Whatever happens, such a row makes every later pass a full rescan, until its session or its version is back. */
  lemma {:induction false} LeftoverRescansForever(kind: SinceFilter, worlds: seq<World>, steps: seq<Step>, id: string, j: nat, k: nat)
    requires History(kind, worlds, steps) && j <= k < |worlds| && Leftover(worlds[j], id)
    requires forall i | j <= i < k :: !BringsBack(worlds[i], steps[i], id)
    ensures Leftover(worlds[k], id) && (worlds[k].source != map[] ==> Since(worlds[k]) == None)
    decreases k
  {
    if j < k {
      LeftoverRescansForever(kind, worlds, steps, id, j, k - 1);
      LeftoverStays(kind, worlds[k - 1], steps[k - 1], worlds[k], id);
    }
  }

  // ---- a parser upgrade ----

  /**
   * After a parser upgrade the next full pass that succeeds brings everything up to date exactly when the
   * upgrade was tolerable, and for a version that no row has, exactly when some listable row reveals the
   * change or the watermark hides nothing.
   */
  lemma UpgradeHealedIff(kind: SinceFilter, w: World, parser: string, reparsed: Source, w': World, next: Visit)
    requires Inv(kind, w) && Moves(kind, w, Upgrade(parser, reparsed), w')
    requires IsListing(next.listing, w'.source, kind, Since(w'))
    ensures var healed := forall id | id in w'.source :: UpToDate(kind, Pass(w'.db, next.listing, next.now, None), w'.source[id]);
            && (healed <==> Tolerable(kind, w, Upgrade(parser, reparsed)))
            && (IsNewVersion(w.db, parser) ==> (healed <==> UpgradeShows(kind, w.db, reparsed)))
  {
    UpgradeKeepsInvIff(kind, w, parser, reparsed, w');
    NextPassAgreesIff(kind, w', next.listing, next.now);
  }

  // ---- a state database ----

  /**
   * The sessions of one state database share its time and size. When a write moves them, a session whose
   * own time is below the watermark is not listed again: its row and chunks still agree with it, but they
   * carry the old fingerprint, and what it is now was not observed.
   */
  lemma RestampedNotSeen(w: World, n: Native, restamped: Native, w': World, next: Visit)
    requires Inv(ByUpdated, w) && !AwaitsRescan(w) && n.id in w.source && w.source[n.id] == n
    requires !Listed(ByUpdated, n, w.db.watermark) && Restamped(n, restamped, w.clock) && restamped.mtime.Some?
    requires StampedBy(restamped, w'.clock) && w.clock <= w'.clock
    requires w' == w.(source := w.source[n.id := restamped], clock := w'.clock)
    requires IsListing(next.listing, w'.source, ByUpdated, Since(w'))
    ensures Moves(ByUpdated, w, Change(map[n.id := restamped]), w') && Tolerable(ByUpdated, w, Change(map[n.id := restamped]))
    ensures var db' := Pass(w'.db, next.listing, next.now, None);
            && Agrees(db', restamped) && !Current(db', restamped)
            && (Observed(restamped) in db'.ledger <==> Observed(restamped) in w.db.ledger)
  {
    var sessions := map[n.id := restamped];
    assert w.source + sessions == w'.source;
    StampedChangesTolerable(ByUpdated, w, sessions);
    assert InHand(ByUpdated, w.db, w.parser, n);
    assert !InListing(next.listing, restamped);
    LoopOnSession(ByUpdated, w'.db, w'.source, next.listing, n.id, next.now);
    assert Observed(restamped).id == n.id;
    assert !Unchanged(w.db, restamped);
  }

  /** There are such worlds, with everything current before the write. */
  lemma RestampedWitness() returns (w: World, restamped: Native, w': World)
    ensures Inv(ByUpdated, w) && (forall id | id in w.source :: Current(w.db, w.source[id]))
    ensures Moves(ByUpdated, w, Change(map[restamped.id := restamped]), w') && IsListing([], w'.source, ByUpdated, Since(w'))
    ensures restamped.id in w'.source && w'.source[restamped.id] == restamped
    ensures var db' := Pass(w'.db, [], 9, None);
            Agrees(db', restamped) && !Current(db', restamped) && Observed(restamped) !in db'.ledger
  {
    var n := Native("a", Some(1), Some(1), 0, "v1", true, ["x"]);
    restamped := n.(mtime := Some(3));
    w := OneIndexed(n);
    w' := w.(source := w.source["a" := restamped], clock := 3);
    OneIndexedInv(n);
    assert !AwaitsRescan(w');
    RestampedNotSeen(w, n, restamped, w', Visit([], 9));
  }

  function OneIndexed(n: Native): World {
    World(map[n.id := n], n.parser, 2,
          Db(map[n.id := RecordOf(n, 0)], map[n.id := n.chunks], Some(2), map[Observed(n) := n.chunks]))
  }

  lemma OneIndexedInv(n: Native)
    requires StampedBy(n, 2)
    ensures Inv(ByUpdated, OneIndexed(n)) && Current(OneIndexed(n).db, n) && !AwaitsRescan(OneIndexed(n))
  {
  }

  // ---- the ledger ----

  ghost function ObservationsOf(listing: seq<Native>): set<Observation> {
    set n | n in listing :: Observed(n)
  }

  lemma HandledLedger(db: Db, n: Native, now: Instant)
    ensures Handled(db, n, now).ledger.Keys == db.ledger.Keys + {Observed(n)}
  {
  }

  /** A pass adds to the ledger exactly one event per observation it handled. */
  lemma {:induction false} LedgerHoldsObservations(db: Db, listing: seq<Native>, now: Instant)
    ensures HandleAll(db, listing, now).ledger.Keys == db.ledger.Keys + ObservationsOf(listing)
  {
    if listing != [] {
      var k := |listing| - 1;
      var front := listing[..k];
      LedgerHoldsObservations(db, front, now);
      assert forall n | n in listing :: n in front || n == listing[k];
      assert ObservationsOf(listing) == ObservationsOf(front) + {Observed(listing[k])};
      HandledLedger(HandleAll(db, front, now), listing[k], now);
    }
  }

  /** The same as far as anything but the last-seen time goes. */
  ghost predicate SameButLastSeen(a: Db, b: Db) {
    && a.sessions.Keys == b.sessions.Keys
    && (forall id | id in a.sessions :: a.sessions[id] == b.sessions[id].(lastSeen := a.sessions[id].lastSeen))
    && (forall id :: ChunksOf(a, id) == ChunksOf(b, id))
    && a.ledger == b.ledger
  }

  /** Refreshing sessions that are current changes nothing but last-seen times: no event is added. */
  lemma {:induction false} QuietRefresh(db: Db, listing: seq<Native>, now: Instant)
    requires forall i | 0 <= i < |listing| :: Current(db, listing[i])
    ensures SameButLastSeen(db, HandleAll(db, listing, now))
  {
    if listing != [] {
      var k := |listing| - 1;
      QuietRefresh(db, listing[..k], now);
      var mid := HandleAll(db, listing[..k], now);
      assert Current(mid, listing[k]);
      QuietSession(mid, listing[k], now);
    }
  }

  lemma QuietSession(db: Db, n: Native, now: Instant)
    requires Current(db, n)
    ensures SameButLastSeen(db, Handled(db, n, now))
  {
  }

  /** Whatever the next full pass lists is current. */
  ghost predicate Quiet(kind: SinceFilter, w: World) {
    forall id | id in w.source && Listed(kind, w.source[id], Since(w)) :: Current(w.db, w.source[id])
  }

  /** After a successful pass the next one lists only what is current, also where a watermark by file time moved back. */
  lemma SuccessIsQuiet(kind: SinceFilter, w: World, v: Visit, w': World)
    requires Inv(kind, w) && Moves(kind, w, Step.Refresh(v.listing, v.now, None), w')
    ensures Quiet(kind, w')
  {
    SuccessMakesCurrent(kind, w, v.listing, v.now, w');
    forall id | id in w'.source && Listed(kind, w'.source[id], Since(w'))
      ensures Current(w'.db, w'.source[id])
    {
      if kind == ByUpdated {
        SinceGrows(w, v, w');
        assert InListing(v.listing, w.source[id]);
      }
    }
  }

  lemma SinceGrows(w: World, v: Visit, w': World)
    requires Inv(ByUpdated, w) && Moves(ByUpdated, w, Step.Refresh(v.listing, v.now, None), w')
    ensures forall n | Listed(ByUpdated, n, Since(w')) :: Listed(ByUpdated, n, Since(w))
  {
    if !AwaitsRescan(w) && w.db.watermark.Some? {
      IncrementalWatermarkGrows(w.db, w.source, v.listing, v.now);
      if AwaitsRescan(w') {
        MismatchLeftIff(ByUpdated, w, v, w');
      }
    }
  }

  lemma QuietPass(kind: SinceFilter, w: World, v: Visit, w': World)
    requires Quiet(kind, w) && Moves(kind, w, Step.Refresh(v.listing, v.now, None), w')
    ensures w'.db.ledger == w.db.ledger && SameButLastSeen(w.db, w'.db)
  {
    forall i | 0 <= i < |v.listing|
      ensures Current(w.db, v.listing[i])
    {
      assert v.listing[i] == w.source[v.listing[i].id];
    }
    QuietRefresh(w.db, v.listing, v.now);
    SameApartFromWatermark(w.db, HandleAll(w.db, v.listing, v.now), w'.db);
  }

  lemma SameApartFromWatermark(a: Db, b: Db, c: Db)
    requires SameButLastSeen(a, b) && c == b.(watermark := c.watermark)
    ensures SameButLastSeen(a, c)
  {
  }

  /** Once a refresh has succeeded, refreshing the unchanged source again adds no event. */
  lemma RefreshTwiceSameEvents(kind: SinceFilter, w: World, v1: Visit, w1: World, v2: Visit, w2: World)
    requires Inv(kind, w) && Moves(kind, w, Step.Refresh(v1.listing, v1.now, None), w1)
    requires Moves(kind, w1, Step.Refresh(v2.listing, v2.now, None), w2)
    ensures w2.db.ledger == w1.db.ledger && SameButLastSeen(w1.db, w2.db)
  {
    SuccessIsQuiet(kind, w, v1, w1);
    QuietPass(kind, w1, v2, w2);
  }
}
