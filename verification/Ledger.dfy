/**
 * The append-only event and chunk tables (crates/core/src/local_event_store.rs): events keyed by
 * event id, the chunks of an observed source session held apart and keyed by event id and index.
 */
module Ledger {
  import opened Base
  import opened Events
  import opened Sorting

  datatype EventRow = EventRow(repoId: string, occurredAt: Instant, event: TraceEvent)

  datatype ChunkRow = ChunkRow(repoId: string, sourceId: string, externalId: string, raw: string)

  type ChunkKey = (EventId, nat)

  datatype Tables = Tables(rows: map<EventId, EventRow>, chunks: map<ChunkKey, ChunkRow>)

  const EMPTY := Tables(map[], map[])

  // ---- appending ----

  function WithRepo(e: TraceEvent, repoId: string): TraceEvent {
    if e.repoId.None? then e.(repoId := Some(repoId)) else e
  }

  function RepoOf(e: TraceEvent, repoId: string): string {
    if e.repoId.Some? then e.repoId.value else repoId
  }

  datatype Compacted = Compacted(event: TraceEvent, raws: seq<string>)

  /** Splits an observed session's chunks off its event; other events pass through. */
  function Compact(e: TraceEvent): Result<Compacted> {
    if e.eventType != SourceSessionObserved then Ok(Compacted(e, []))
    else if !e.payload.SessionObservedPayload? then Err("failed to parse source session payload")
    else Ok(Compacted(e.(payload := e.payload.(chunks := [])), e.payload.chunks))
  }

  function ChunkRowOf(e: TraceEvent, repoId: string, raw: string): ChunkRow {
    if e.payload.SessionObservedPayload?
    then ChunkRow(RepoOf(e, repoId), e.payload.sourceId, e.payload.externalId, raw)
    else ChunkRow(RepoOf(e, repoId), "", "", raw)
  }

  function ChunkTable(e: TraceEvent, repoId: string, raws: seq<string>): map<ChunkKey, ChunkRow> {
    map i | 0 <= i < |raws| :: (e.eventId, i) := ChunkRowOf(e, repoId, raws[i])
  }

  function WithoutChunksOf(chunks: map<ChunkKey, ChunkRow>, id: EventId): map<ChunkKey, ChunkRow> {
    map k | k in chunks && k.0 != id :: chunks[k]
  }

  /** INSERT OR IGNORE of the event row; the event's chunk rows are replaced either way. */
  function Append(t: Tables, repoId: string, e: TraceEvent): Result<Tables> {
    match Compact(WithRepo(e, repoId))
    case Err(m) => Err(m)
    case Ok(c) =>
      Ok(Tables(RowsWith(t.rows, repoId, e, c.event), ChunksWith(t.chunks, repoId, e, c.raws)))
  }

  function RowsWith(rows: map<EventId, EventRow>, repoId: string, e: TraceEvent, compact: TraceEvent): map<EventId, EventRow> {
    if e.eventId in rows then rows else rows[e.eventId := EventRow(RepoOf(e, repoId), e.occurredAt, compact)]
  }

  function ChunksWith(chunks: map<ChunkKey, ChunkRow>, repoId: string, e: TraceEvent, raws: seq<string>): map<ChunkKey, ChunkRow> {
    WithoutChunksOf(chunks, e.eventId) + ChunkTable(e, repoId, raws)
  }

  /** An append that fails leaves the tables alone. */
  function AfterAppend(t: Tables, repoId: string, e: TraceEvent): Tables {
    var r := Append(t, repoId, e);
    if r.Ok? then r.value else t
  }

  predicate Appendable(e: TraceEvent) {
    e.eventType == SourceSessionObserved ==> e.payload.SessionObservedPayload?
  }

  /** `append_events` stops at the first event that cannot be appended; the earlier ones stay. */
  function AppendAll(t: Tables, repoId: string, events: seq<TraceEvent>): Tables
    decreases |events|
  {
    if events == [] || !Appendable(events[0]) then t
    else AppendAll(AfterAppend(t, repoId, events[0]), repoId, events[1..])
  }

  // ---- reading ----

  function TimeOf(t: Tables, id: EventId): Instant {
    if id in t.rows then t.rows[id].occurredAt else 0
  }

  /** ORDER BY occurred_at ASC, event_id ASC. */
  predicate Earlier(t: Tables, a: EventId, b: EventId) {
    TimeOf(t, a) < TimeOf(t, b) || (TimeOf(t, a) == TimeOf(t, b) && a <= b)
  }

  function IdsFor(t: Tables, repo: Option<string>): set<EventId> {
    set id | id in t.rows && (repo.None? || t.rows[id].repoId == repo.value)
  }

  function ReadOrder(t: Tables): (EventId, EventId) -> bool {
    (a: EventId, b: EventId) => Earlier(t, a, b)
  }

  lemma ReadOrderIsTotal(t: Tables)
    ensures TotalOrder(ReadOrder(t))
  {
  }

  function ReadIds(t: Tables, repo: Option<string>): (ids: seq<EventId>)
    ensures |ids| == |IdsFor(t, repo)|
  {
    ReadOrderIsTotal(t);
    Ascending(ReadOrder(t), IdsFor(t, repo))
  }

  lemma ReadIdsLists(t: Tables, repo: Option<string>)
    ensures forall id :: id in ReadIds(t, repo) <==> id in IdsFor(t, repo)
    ensures Sorted(ReadOrder(t), ReadIds(t, repo)) && Distinct(ReadIds(t, repo))
  {
    ReadOrderIsTotal(t);
    AscendingLists(ReadOrder(t), IdsFor(t, repo));
  }

  function Stored(t: Tables, ids: seq<EventId>): (events: seq<TraceEvent>)
    requires forall id | id in ids :: id in t.rows
    ensures |events| == |ids|
    ensures forall i | 0 <= i < |ids| :: events[i] == t.rows[ids[i]].event
  {
    seq(|ids|, i requires 0 <= i < |ids| => t.rows[ids[i]].event)
  }

  /** The repository's events, compact, in canonical order. */
  function Read(t: Tables, repo: Option<string>): (events: seq<TraceEvent>)
    ensures |events| == |IdsFor(t, repo)|
  {
    ReadIdsLists(t, repo);
    Stored(t, ReadIds(t, repo))
  }

  function IndicesOf(t: Tables, id: EventId): set<nat> {
    set k | k in t.chunks && k.0 == id :: k.1
  }

  predicate IndexOrder(a: nat, b: nat) {
    a <= b
  }

  /** ORDER BY chunk_index ASC. */
  function ChunkIndices(t: Tables, id: EventId): seq<nat> {
    Ascending(IndexOrder, IndicesOf(t, id))
  }

  lemma ChunkIndicesLists(t: Tables, id: EventId)
    ensures forall i :: i in ChunkIndices(t, id) <==> i in IndicesOf(t, id)
    ensures Sorted(IndexOrder, ChunkIndices(t, id)) && Distinct(ChunkIndices(t, id))
  {
    AscendingLists(IndexOrder, IndicesOf(t, id));
  }

  function ChunksOf(t: Tables, id: EventId): seq<string> {
    var indices := ChunkIndices(t, id);
    ChunkIndicesLists(t, id);
    seq(|indices|, i requires 0 <= i < |indices| =>
      assert indices[i] in indices; t.chunks[(id, indices[i])].raw)
  }

  /** The event with the stored chunks put back. */
  function Hydrate(t: Tables, e: TraceEvent): TraceEvent {
    if e.eventType == SourceSessionObserved && e.payload.SessionObservedPayload?
    then e.(payload := e.payload.(chunks := ChunksOf(t, e.eventId)))
    else e
  }

  function ReadWithChunks(t: Tables, repo: Option<string>): seq<TraceEvent> {
    var events := Read(t, repo);
    seq(|events|, i requires 0 <= i < |events| => Hydrate(t, events[i]))
  }

  // ---- the store ----

  class LocalEventStore {
    var rows: map<EventId, EventRow>
    var chunks: map<ChunkKey, ChunkRow>

    constructor ()
      ensures State() == EMPTY
    {
      rows, chunks := map[], map[];
    }

    function State(): Tables
      reads this
    {
      Tables(rows, chunks)
    }

    method AppendEvent(repoId: string, e: TraceEvent) returns (ok: bool)
      modifies this
      ensures ok <==> Appendable(e)
      ensures State() == AfterAppend(old(State()), repoId, e)
    {
      var event := WithRepo(e, repoId);
      var compacted := Compact(event);
      if compacted.Err? {
        return false;
      }
      var Compacted(compact, raws) := compacted.value;
      if event.eventId !in rows {
        rows := rows[event.eventId := EventRow(RepoOf(e, repoId), event.occurredAt, compact)];
      }
      assert rows == RowsWith(old(rows), repoId, e, compact);
      ReplaceChunks(e, repoId, raws);
      ok := true;
    }

    method ReplaceChunks(e: TraceEvent, repoId: string, raws: seq<string>)
      modifies this`chunks
      ensures chunks == ChunksWith(old(chunks), repoId, e, raws)
    {
      chunks := WithoutChunksOf(chunks, e.eventId);
      assert chunks == ChunksWith(old(chunks), repoId, e, raws[..0]);
      for i := 0 to |raws|
        invariant chunks == ChunksWith(old(chunks), repoId, e, raws[..i])
      {
        chunks := chunks[(e.eventId, i) := ChunkRowOf(e, repoId, raws[i])];
        ChunksWithStep(old(chunks), repoId, e, raws, i);
      }
      assert raws[..|raws|] == raws;
    }

    method AppendEvents(repoId: string, events: seq<TraceEvent>) returns (ok: bool)
      modifies this
      ensures ok <==> forall i | 0 <= i < |events| :: Appendable(events[i])
      ensures State() == AppendAll(old(State()), repoId, events)
    {
      for i := 0 to |events|
        invariant forall j | 0 <= j < i :: Appendable(events[j])
        invariant AppendAll(old(State()), repoId, events) == AppendAll(State(), repoId, events[i..])
      {
        var appended := AppendEvent(repoId, events[i]);
        if !appended {
          return false;
        }
        assert events[i..][1..] == events[i + 1..];
      }
      ok := true;
    }

    /** `read_events_for_repo_with_chunks`: hydrates the observed sessions one by one, in place. */
    method ReadEventsForRepoWithChunks(repo: Option<string>) returns (events: seq<TraceEvent>)
      ensures events == ReadWithChunks(State(), repo)
    {
      events := Read(State(), repo);
      if forall i | 0 <= i < |events| :: events[i].eventType != SourceSessionObserved {
        return;
      }
      ghost var compact := events;
      for i := 0 to |events|
        invariant |events| == |compact|
        invariant forall j | 0 <= j < i :: events[j] == Hydrate(State(), compact[j])
        invariant forall j | i <= j < |events| :: events[j] == compact[j]
      {
        if events[i].eventType == SourceSessionObserved && events[i].payload.SessionObservedPayload? {
          var found := ChunksOf(State(), events[i].eventId);
          events := events[i := events[i].(payload := events[i].payload.(chunks := found))];
        }
      }
    }
  }

  lemma ChunksWithStep(chunks: map<ChunkKey, ChunkRow>, repoId: string, e: TraceEvent, raws: seq<string>, i: nat)
    requires i < |raws|
    ensures ChunksWith(chunks, repoId, e, raws[..i + 1])
         == ChunksWith(chunks, repoId, e, raws[..i])[(e.eventId, i) := ChunkRowOf(e, repoId, raws[i])]
  {
    var before, after := ChunkTable(e, repoId, raws[..i]), ChunkTable(e, repoId, raws[..i + 1]);
    assert after == before[(e.eventId, i) := ChunkRowOf(e, repoId, raws[i])];
  }

  // ---- the invariant ----

  /** The event's chunk rows are numbered 0 to n - 1. */
  ghost predicate Numbered(t: Tables, id: EventId, n: nat) {
    forall i: nat :: (id, i) in t.chunks <==> i < n
  }

  ghost predicate IsNumbered(t: Tables, id: EventId) {
    exists n: nat :: Numbered(t, id, n)
  }

  ghost predicate RowOk(id: EventId, row: EventRow) {
    && row.event.eventId == id && row.event.occurredAt == row.occurredAt
    && row.event.repoId == Some(row.repoId)
    && Appendable(row.event)
    && Compact(row.event) == Ok(Compacted(row.event, []))
  }

  ghost predicate Valid(t: Tables) {
    && (forall id | id in t.rows :: RowOk(id, t.rows[id]))
    && (forall k | k in t.chunks :: k.0 in t.rows)
    && (forall id: EventId :: IsNumbered(t, id))
  }

  lemma AppendKeepsValid(t: Tables, repoId: string, e: TraceEvent)
    requires Valid(t)
    ensures Valid(AfterAppend(t, repoId, e))
  {
    if Append(t, repoId, e).Ok? {
      var t' := AfterAppend(t, repoId, e);
      var raws := Compact(WithRepo(e, repoId)).value.raws;
      forall id: EventId
        ensures IsNumbered(t', id)
      {
        if id == e.eventId {
          assert Numbered(t', id, |raws|);
        } else {
          assert IsNumbered(t, id);
          var n: nat :| Numbered(t, id, n);
          assert Numbered(t', id, n);
        }
      }
    }
  }

  /** Any tables that appends can reach. */
  ghost predicate Reachable(t: Tables, appends: seq<(string, TraceEvent)>)
    decreases |appends|
  {
    if appends == [] then t == EMPTY
    else
      var last := appends[|appends| - 1];
      exists before :: Reachable(before, appends[..|appends| - 1]) && t == AfterAppend(before, last.0, last.1)
  }

  lemma {:induction false} ReachableValid(t: Tables, appends: seq<(string, TraceEvent)>)
    requires Reachable(t, appends)
    ensures Valid(t)
    decreases |appends|
  {
    if appends == [] {
      forall id: EventId
        ensures IsNumbered(t, id)
      {
        assert Numbered(t, id, 0);
      }
    } else {
      var last := appends[|appends| - 1];
      var before :| Reachable(before, appends[..|appends| - 1]) && t == AfterAppend(before, last.0, last.1);
      ReachableValid(before, appends[..|appends| - 1]);
      AppendKeepsValid(before, last.0, last.1);
    }
  }

  // ---- round trip ----

  function FirstNats(n: nat): (r: seq<nat>)
    ensures |r| == n && forall i | 0 <= i < n :: r[i] == i
  {
    seq(n, i requires 0 <= i < n => i)
  }

  lemma FirstNatsLists(n: nat)
    ensures forall i: nat :: i in FirstNats(n) <==> i < n
    ensures Sorted(IndexOrder, FirstNats(n)) && Distinct(FirstNats(n))
  {
    forall i: nat
      ensures i in FirstNats(n) <==> i < n
    {
      if i < n {
        assert FirstNats(n)[i] == i;
      }
    }
  }

  lemma ChunkIndicesNumbered(t: Tables, id: EventId, n: nat)
    requires Numbered(t, id, n)
    ensures ChunkIndices(t, id) == FirstNats(n)
  {
    FirstNatsLists(n);
    forall i: nat
      ensures i in FirstNats(n) <==> i in IndicesOf(t, id)
    {
      if i < n {
        assert (id, i) in t.chunks && (id, i).0 == id && (id, i).1 == i;
      }
    }
    AscendingUnique<nat>(IndexOrder, IndicesOf(t, id), FirstNats(n));
  }

  lemma ChunksOfNumbered(t: Tables, id: EventId, n: nat)
    requires Numbered(t, id, n)
    ensures |ChunksOf(t, id)| == n
    ensures forall i | 0 <= i < n :: (id, i) in t.chunks && ChunksOf(t, id)[i] == t.chunks[(id, i)].raw
  {
    ChunkIndicesNumbered(t, id, n);
  }

  /**
   * Appending an event and hydrating its row gives the event back, chunks in order, exactly when
   * the row is this event's: its id was new, or the stored row already held the same event.
   */
  lemma HydrateAppended(t: Tables, repoId: string, e: TraceEvent)
    requires Valid(t) && Appendable(e)
    ensures var t' := AfterAppend(t, repoId, e);
            var compact := Compact(WithRepo(e, repoId)).value.event;
            && e.eventId in t'.rows
            && (Hydrate(t', t'.rows[e.eventId].event) == WithRepo(e, repoId)
                <==> e.eventId !in t.rows || t.rows[e.eventId].event == compact)
  {
    AppendedChunks(t, repoId, e);
    if e.eventId in t.rows {
      assert RowOk(e.eventId, t.rows[e.eventId]);
    }
  }

  /** After an append the event's chunk rows are exactly its chunks, in order. */
  lemma AppendedChunks(t: Tables, repoId: string, e: TraceEvent)
    requires Appendable(e)
    ensures ChunksOf(AfterAppend(t, repoId, e), e.eventId) == Compact(WithRepo(e, repoId)).value.raws
  {
    var t' := AfterAppend(t, repoId, e);
    var raws := Compact(WithRepo(e, repoId)).value.raws;
    assert Numbered(t', e.eventId, |raws|);
    ChunksOfNumbered(t', e.eventId, |raws|);
  }

  // ---- what an append leaves alone ----

  /** An append neither changes nor removes a row, and touches the chunks of its own event only. */
  lemma AppendFrame(t: Tables, repoId: string, e: TraceEvent)
    ensures var t' := AfterAppend(t, repoId, e);
            && t'.rows.Keys == t.rows.Keys + (if Appendable(e) then {e.eventId} else {})
            && (forall id | id in t.rows :: t'.rows[id] == t.rows[id])
            && (forall k: ChunkKey | k.0 != e.eventId ::
                  (k in t'.chunks <==> k in t.chunks) && (k in t.chunks ==> t'.chunks[k] == t.chunks[k]))
  {
  }

  /** Appending the same event again changes neither table. */
  lemma AppendTwice(t: Tables, repoId: string, e: TraceEvent)
    ensures AfterAppend(AfterAppend(t, repoId, e), repoId, e) == AfterAppend(t, repoId, e)
  {
  }

  lemma ChunksCommute(chunks: map<ChunkKey, ChunkRow>, repoId: string, a: TraceEvent, ra: seq<string>, b: TraceEvent, rb: seq<string>)
    requires a.eventId != b.eventId
    ensures ChunksWith(ChunksWith(chunks, repoId, a, ra), repoId, b, rb)
         == ChunksWith(ChunksWith(chunks, repoId, b, rb), repoId, a, ra)
  {
    var ab := ChunksWith(ChunksWith(chunks, repoId, a, ra), repoId, b, rb);
    var ba := ChunksWith(ChunksWith(chunks, repoId, b, rb), repoId, a, ra);
    forall k: ChunkKey
      ensures k in ab <==> k in ba
      ensures k in ab ==> ab[k] == ba[k]
    {
      ChunksWithAt(chunks, repoId, a, ra, k);
      ChunksWithAt(chunks, repoId, b, rb, k);
      ChunksWithAt(ChunksWith(chunks, repoId, a, ra), repoId, b, rb, k);
      ChunksWithAt(ChunksWith(chunks, repoId, b, rb), repoId, a, ra, k);
    }
  }

  lemma ChunksWithAt(chunks: map<ChunkKey, ChunkRow>, repoId: string, e: TraceEvent, raws: seq<string>, k: ChunkKey)
    ensures var after := ChunksWith(chunks, repoId, e, raws);
            && (k in after <==> if k.0 == e.eventId then k.1 < |raws| else k in chunks)
            && (k in after ==>
                  after[k] == if k.0 == e.eventId then ChunkRowOf(e, repoId, raws[k.1]) else chunks[k])
  {
  }

  /** Events with different ids can be appended in either order. */
  lemma AppendsCommute(t: Tables, repoId: string, a: TraceEvent, b: TraceEvent)
    requires a.eventId != b.eventId
    ensures AfterAppend(AfterAppend(t, repoId, a), repoId, b) == AfterAppend(AfterAppend(t, repoId, b), repoId, a)
  {
    var ca, cb := Compact(WithRepo(a, repoId)), Compact(WithRepo(b, repoId));
    if ca.Ok? && cb.Ok? {
      ChunksCommute(t.chunks, repoId, a, ca.value.raws, b, cb.value.raws);
      assert RowsWith(RowsWith(t.rows, repoId, a, ca.value.event), repoId, b, cb.value.event)
          == RowsWith(RowsWith(t.rows, repoId, b, cb.value.event), repoId, a, ca.value.event);
    }
  }
}
