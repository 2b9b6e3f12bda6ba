/**
 * The local store of one repository (crates/core/src/store.rs): a ledger shared with other
 * repositories and a cached index that is trusted when its event count matches the ledger's.
 */
module IndexCache {
  import opened Base
  import opened Events
  import opened Sorting
  import opened Ledger
  import opened TraceIndexing
  import opened RemoteMerge
  import TraceIndexStore

  datatype Cached = Cached(graph: Graph, eventCount: nat)

  /** The events with these ids, in canonical order. */
  function EventsOf(t: Tables, ids: set<EventId>): seq<TraceEvent>
    requires ids <= t.rows.Keys
  {
    ReadOrderIsTotal(t);
    AscendingLists(ReadOrder(t), ids);
    Stored(t, Ascending(ReadOrder(t), ids))
  }

  /** The cached graph is that of some of the repository's events, as many as it says. */
  ghost predicate CacheOf(t: Tables, repoId: string, c: Cached, ids: set<EventId>) {
    && ids <= Visible(t, repoId) && ids <= t.rows.Keys && |ids| == c.eventCount
    && BuildGraph(EventsOf(t, ids)) == Ok(c.graph)
  }

  ghost predicate CacheOk(t: Tables, repoId: string, cache: Option<Cached>) {
    cache.Some? ==> exists ids :: CacheOf(t, repoId, cache.value, ids)
  }

  lemma ReadIsEventsOf(t: Tables, repoId: string)
    ensures Visible(t, repoId) <= t.rows.Keys
    ensures Read(t, Some(repoId)) == EventsOf(t, Visible(t, repoId))
  {
  }

  lemma SubsetOfSameSize<T>(a: set<T>, b: set<T>)
    requires a <= b && |a| == |b|
    ensures a == b
  {
    assert |b - a| == |b| - |a|;
    assert b == a + (b - a);
  }

  /** A cache whose count matches is the graph of all the repository's events. */
  lemma MatchingCacheIsCurrent(t: Tables, repoId: string, c: Cached)
    requires CacheOk(t, repoId, Some(c)) && c.eventCount == |Read(t, Some(repoId))|
    ensures BuildGraph(Read(t, Some(repoId))) == Ok(c.graph)
  {
    var ids :| CacheOf(t, repoId, c, ids);
    SubsetOfSameSize(ids, Visible(t, repoId));
    ReadIsEventsOf(t, repoId);
  }

  /** Rows that stay as they are are read in the same order. */
  lemma EventsKept(t: Tables, t': Tables, ids: set<EventId>)
    requires ids <= t.rows.Keys && forall id | id in t.rows :: id in t'.rows && t'.rows[id] == t.rows[id]
    ensures ids <= t'.rows.Keys && EventsOf(t', ids) == EventsOf(t, ids)
  {
    ReadOrderIsTotal(t);
    ReadOrderIsTotal(t');
    AscendingLists(ReadOrder(t), ids);
    var r := Ascending(ReadOrder(t), ids);
    forall i, j | 0 <= i < j < |r|
      ensures ReadOrder(t')(r[i], r[j])
    {
      assert ReadOrder(t)(r[i], r[j]);
      assert r[i] in ids && r[j] in ids;
    }
    AscendingUnique(ReadOrder(t'), ids, r);
  }

  /** However the ledger grows, by this repository or another, the cache stays one of an earlier ledger. */
  lemma CacheSurvives(t: Tables, t': Tables, repoId: string, cache: Option<Cached>)
    requires CacheOk(t, repoId, cache)
    requires forall id | id in t.rows :: id in t'.rows && t'.rows[id] == t.rows[id]
    ensures CacheOk(t', repoId, cache)
  {
    if cache.Some? {
      var ids :| CacheOf(t, repoId, cache.value, ids);
      EventsKept(t, t', ids);
      assert CacheOf(t', repoId, cache.value, ids);
    }
  }

  lemma FreshCacheOk(t: Tables, repoId: string, g: Graph)
    requires BuildGraph(Read(t, Some(repoId))) == Ok(g)
    ensures CacheOk(t, repoId, Some(Cached(g, |Read(t, Some(repoId))|)))
  {
    ReadIsEventsOf(t, repoId);
    assert CacheOf(t, repoId, Cached(g, |Read(t, Some(repoId))|), Visible(t, repoId));
  }

  lemma {:induction false} AppendAllKeepsValid(t: Tables, repoId: string, events: seq<TraceEvent>)
    requires Valid(t)
    ensures Valid(AppendAll(t, repoId, events))
    decreases |events|
  {
    if events != [] && Appendable(events[0]) {
      AppendKeepsValid(t, repoId, events[0]);
      AppendAllKeepsValid(AfterAppend(t, repoId, events[0]), repoId, events[1..]);
    }
  }

  /** The ids of the events a repository reads are the ids it stored. */
  lemma ReadShowsVisible(t: Tables, repoId: string)
    requires Valid(t)
    ensures Ids(Read(t, Some(repoId))) == Visible(t, repoId)
  {
    var ids, events := ReadIds(t, Some(repoId)), Read(t, Some(repoId));
    ReadIdsLists(t, Some(repoId));
    forall i | 0 <= i < |ids|
      ensures events[i].eventId == ids[i]
    {
      assert ids[i] in ids;
      assert RowOk(ids[i], t.rows[ids[i]]);
    }
    forall id | id in Visible(t, repoId)
      ensures id in Ids(events)
    {
      var i :| 0 <= i < |ids| && ids[i] == id;
      assert events[i] in events;
    }
    forall id | id in Ids(events)
      ensures id in Visible(t, repoId)
    {
      var e :| e in events && e.eventId == id;
      var i :| 0 <= i < |events| && events[i] == e;
      assert ids[i] in ids;
    }
  }

  class LocalStore {
    const repoId: string
    const ledger: LocalEventStore
    var cache: Option<Cached>

    ghost predicate Valid()
      reads this, ledger
    {
      Ledger.Valid(ledger.State()) && CacheOk(ledger.State(), repoId, cache)
    }

    constructor (repoId: string, ledger: LocalEventStore)
      requires Ledger.Valid(ledger.State())
      ensures Valid() && this.repoId == repoId && this.ledger == ledger && cache == None
    {
      this.repoId, this.ledger, this.cache := repoId, ledger, None;
    }

    method AppendEvent(e: TraceEvent) returns (ok: bool)
      requires Valid()
      modifies ledger
      ensures Valid()
      ensures ok <==> Appendable(e)
      ensures ledger.State() == AfterAppend(old(ledger.State()), repoId, e)
    {
      ghost var before := ledger.State();
      ok := ledger.AppendEvent(repoId, e);
      AppendKeepsValid(before, repoId, e);
      AppendFrame(before, repoId, e);
      CacheSurvives(before, ledger.State(), repoId, cache);
    }

    method AppendRemoteEvents(events: seq<TraceEvent>) returns (ok: bool)
      requires Valid()
      modifies ledger
      ensures Valid()
      ensures ok <==> AllAppendable(events)
      ensures ledger.State() == AppendAll(old(ledger.State()), repoId, events)
    {
      ghost var before := ledger.State();
      ok := ledger.AppendEvents(repoId, events);
      AppendAllKeepsValid(before, repoId, events);
      AppendAllRows(before, repoId, events);
      CacheSurvives(before, ledger.State(), repoId, cache);
    }

    /** Keeps each event whose id could still be inserted into the set of known ids. */
    method DedupeRemoteEvents(remote: seq<TraceEvent>) returns (events: seq<TraceEvent>)
      requires Valid()
      ensures events == NewEvents(Visible(ledger.State(), repoId), remote)
    {
      var known := Ids(Read(ledger.State(), Some(repoId)));
      ReadShowsVisible(ledger.State(), repoId);
      ghost var all := NewEvents(known, remote);
      events := [];
      for i := 0 to |remote|
        invariant all == events + NewEvents(known, remote[i..])
      {
        assert remote[i..][1..] == remote[i + 1..];
        if remote[i].eventId !in known {
          known := known + {remote[i].eventId};
          events := events + [remote[i]];
        }
      }
    }

    /** A pull: the new session events are decoded before anything is appended, and one that does not decode ends it. */
    method PullRemoteEvents(remote: seq<TraceEvent>) returns (ok: bool)
      requires Valid()
      modifies ledger
      ensures Valid()
      ensures ok <==> AllAppendable(NewEvents(old(Visible(ledger.State(), repoId)), remote))
      ensures ledger.State() == Pull(old(ledger.State()), repoId, remote)
    {
      var events := DedupeRemoteEvents(remote);
      for i := 0 to |events|
        invariant forall j | 0 <= j < i :: Appendable(events[j])
      {
        if events[i].eventType == SourceSessionObserved && !events[i].payload.SessionObservedPayload? {
          assert events[i] in events && !Appendable(events[i]);
          return false;
        }
      }
      ok := AppendRemoteEvents(events);
    }

    method RebuildIndex() returns (r: Result<Graph>)
      requires Valid()
      modifies this`cache
      ensures Valid()
      ensures r.Ok? <==> BuildGraph(Read(ledger.State(), Some(repoId))).Ok?
      ensures r.Ok? ==> r == BuildGraph(Read(ledger.State(), Some(repoId)))
                        && cache == Some(Cached(r.value, |Read(ledger.State(), Some(repoId))|))
      ensures r.Err? ==> cache == old(cache)
    {
      var events := Read(ledger.State(), Some(repoId));
      var index := TraceIndexStore.Build(events);
      if index.Err? {
        return Err(index.message);
      }
      cache := Some(Cached(index.value.Value(), index.value.eventCount));
      FreshCacheOk(ledger.State(), repoId, cache.value.graph);
      r := Ok(cache.value.graph);
    }

    /** Whether it trusts the cache or not, the index returned is that of the current ledger. */
    method LoadOrRebuildIndex() returns (r: Result<Graph>)
      requires Valid()
      modifies this`cache
      ensures Valid()
      ensures r.Ok? <==> BuildGraph(Read(ledger.State(), Some(repoId))).Ok?
      ensures r.Ok? ==> r == BuildGraph(Read(ledger.State(), Some(repoId)))
    {
      if cache.Some? && cache.value.eventCount == |Read(ledger.State(), Some(repoId))| {
        MatchingCacheIsCurrent(ledger.State(), repoId, cache.value);
        return Ok(cache.value.graph);
      }
      r := RebuildIndex();
    }

    /** The newest events: the end of the canonical order. */
    method RecentEvents(limit: nat) returns (events: seq<TraceEvent>)
      ensures var all := Read(ledger.State(), Some(repoId));
              |events| == (if limit < |all| then limit else |all|) && events == all[|all| - |events|..]
    {
      events := Read(ledger.State(), Some(repoId));
      var keep := if limit < |events| then limit else |events|;
      events := events[|events| - keep..];
    }
  }

  // ---- whole runs over a ledger that several repositories share ----

  datatype Machine = Machine(tables: Tables, caches: map<string, Cached>)

  datatype Step =
    | AppendStep(repoId: string, events: seq<TraceEvent>)
    | PullStep(repoId: string, events: seq<TraceEvent>)
    | RebuildStep(repoId: string)
    | LoadStep(repoId: string)

  function CacheFor(s: Machine, repoId: string): Option<Cached> {
    if repoId in s.caches then Some(s.caches[repoId]) else None
  }

  function Rebuilt(s: Machine, repoId: string): Machine {
    var events := Read(s.tables, Some(repoId));
    var r := BuildGraph(events);
    if r.Ok? then s.(caches := s.caches[repoId := Cached(r.value, |events|)]) else s
  }

  predicate Trusted(s: Machine, repoId: string) {
    repoId in s.caches && s.caches[repoId].eventCount == |Read(s.tables, Some(repoId))|
  }

  /** What `load_or_rebuild_index` returns in this state. */
  function Loaded(s: Machine, repoId: string): Result<Graph> {
    if Trusted(s, repoId) then Ok(s.caches[repoId].graph) else BuildGraph(Read(s.tables, Some(repoId)))
  }

  function Next(s: Machine, step: Step): Machine {
    match step
    case AppendStep(repoId, events) => s.(tables := AppendAll(s.tables, repoId, events))
    case PullStep(repoId, events) => s.(tables := Pull(s.tables, repoId, events))
    case RebuildStep(repoId) => Rebuilt(s, repoId)
    case LoadStep(repoId) => if Trusted(s, repoId) then s else Rebuilt(s, repoId)
  }

  function Run(steps: seq<Step>): Machine {
    if steps == [] then Machine(EMPTY, map[])
    else Next(Run(steps[..|steps| - 1]), steps[|steps| - 1])
  }

  ghost predicate CachesOk(s: Machine) {
    forall repoId :: CacheOk(s.tables, repoId, CacheFor(s, repoId))
  }

  lemma GrowthKeepsCachesOk(s: Machine, t': Tables)
    requires CachesOk(s) && forall id | id in s.tables.rows :: id in t'.rows && t'.rows[id] == s.tables.rows[id]
    ensures CachesOk(s.(tables := t'))
  {
    forall repoId
      ensures CacheOk(t', repoId, CacheFor(s.(tables := t'), repoId))
    {
      assert CacheFor(s.(tables := t'), repoId) == CacheFor(s, repoId);
      CacheSurvives(s.tables, t', repoId, CacheFor(s, repoId));
    }
  }

  lemma RebuildKeepsCachesOk(s: Machine, repoId: string)
    requires CachesOk(s)
    ensures CachesOk(Rebuilt(s, repoId))
  {
    var r := BuildGraph(Read(s.tables, Some(repoId)));
    if r.Ok? {
      FreshCacheOk(s.tables, repoId, r.value);
      forall other
        ensures CacheOk(s.tables, other, CacheFor(Rebuilt(s, repoId), other))
      {
        assert CacheOk(s.tables, other, CacheFor(s, other));
      }
    }
  }

  lemma {:induction false} RunKeepsCachesOk(steps: seq<Step>)
    ensures CachesOk(Run(steps))
  {
    if steps != [] {
      var s, step := Run(steps[..|steps| - 1]), steps[|steps| - 1];
      RunKeepsCachesOk(steps[..|steps| - 1]);
      if step.AppendStep? {
        AppendAllRows(s.tables, step.repoId, step.events);
        GrowthKeepsCachesOk(s, AppendAll(s.tables, step.repoId, step.events));
      } else if step.PullStep? {
        AppendAllRows(s.tables, step.repoId, NewEvents(Visible(s.tables, step.repoId), step.events));
        GrowthKeepsCachesOk(s, Pull(s.tables, step.repoId, step.events));
      } else {
        RebuildKeepsCachesOk(s, step.repoId);
      }
    }
  }

  /**
   * After any run of appends, pulls, rebuilds and loads by any repositories, what is loaded is
   * exactly the index of the current events, or the error that building it gives.
   */
  lemma LoadedIsCurrent(steps: seq<Step>, repoId: string)
    ensures Loaded(Run(steps), repoId) == BuildGraph(Read(Run(steps).tables, Some(repoId)))
  {
    var s := Run(steps);
    RunKeepsCachesOk(steps);
    assert CacheOk(s.tables, repoId, CacheFor(s, repoId));
    if Trusted(s, repoId) {
      MatchingCacheIsCurrent(s.tables, repoId, s.caches[repoId]);
    }
  }
}
