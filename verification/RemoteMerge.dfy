/** Merging events pulled from a remote ledger: drop the ones already known, append the rest (crates/core/src/store.rs). */
module RemoteMerge {
  import opened Base
  import opened Events
  import opened Ledger
  import opened Dedup

  // ---- dropping known events ----

  function IdOf(e: TraceEvent): EventId {
    e.eventId
  }

  /** The events whose id is neither known nor repeated, in order; the first of each id is the one kept. */
  function NewEvents(known: set<EventId>, remote: seq<TraceEvent>): seq<TraceEvent> {
    Firsts(IdOf, known, remote)
  }

  function Ids(events: seq<TraceEvent>): set<EventId> {
    Keys(IdOf, events)
  }

  lemma IdsCons(e: TraceEvent, rest: seq<TraceEvent>)
    ensures Ids([e] + rest) == {e.eventId} + Ids(rest)
  {
    KeysCons(IdOf, e, rest);
  }

  ghost predicate DistinctIds(events: seq<TraceEvent>) {
    forall i, j | 0 <= i < j < |events| :: events[i].eventId != events[j].eventId
  }

  /** What is kept keeps the batch's order, has distinct unknown ids, and covers every unknown id of the batch. */
  lemma NewEventsAreNew(known: set<EventId>, remote: seq<TraceEvent>)
    ensures DistinctIds(NewEvents(known, remote))
    ensures Ids(NewEvents(known, remote)) == Ids(remote) - known
    ensures forall e | e in NewEvents(known, remote) :: e in remote && e.eventId !in known
    ensures exists picks :: PicksOut(picks, NewEvents(known, remote), remote)
  {
    FirstsKeys(IdOf, known, remote);
    FirstsAreFrom(IdOf, known, remote);
    var picks := FirstsInOrder(IdOf, known, remote);
    var kept := NewEvents(known, remote);
    assert forall i, j | 0 <= i < j < |kept| :: IdOf(kept[i]) != IdOf(kept[j]);
    assert forall e | e in kept :: IdOf(e) !in known;
  }

  // ---- appending the rest ----

  ghost predicate SameRowAt(t: Tables, t': Tables, id: EventId) {
    (id in t.rows <==> id in t'.rows) && (id in t.rows ==> t'.rows[id] == t.rows[id])
  }

  ghost predicate SameChunksAt(t: Tables, t': Tables, id: EventId) {
    && (forall i: nat :: (id, i) in t.chunks <==> (id, i) in t'.chunks)
    && (forall i: nat | (id, i) in t.chunks :: t'.chunks[(id, i)] == t.chunks[(id, i)])
  }

  /** Nothing recorded under this id differs between the two tables. */
  ghost predicate SameAt(t: Tables, t': Tables, id: EventId) {
    SameRowAt(t, t', id) && SameChunksAt(t, t', id)
  }

  lemma SameEverywhere(t: Tables, t': Tables)
    requires forall id: EventId :: SameAt(t, t', id)
    ensures t == t'
  {
    forall id: EventId
      ensures id in t.rows <==> id in t'.rows
      ensures id in t.rows ==> t'.rows[id] == t.rows[id]
    {
      assert SameAt(t, t', id);
    }
    forall k: ChunkKey
      ensures k in t.chunks <==> k in t'.chunks
      ensures k in t.chunks ==> t'.chunks[k] == t.chunks[k]
    {
      assert SameAt(t, t', k.0);
      assert k == (k.0, k.1);
    }
    assert t.rows == t'.rows && t.chunks == t'.chunks;
  }

  lemma AppendElsewhere(t: Tables, repoId: string, e: TraceEvent, id: EventId)
    requires id != e.eventId
    ensures SameAt(t, AfterAppend(t, repoId, e), id)
  {
  }

  /** What an append makes of its own id depends on that id's row only. */
  lemma AppendHere(t: Tables, t': Tables, repoId: string, e: TraceEvent)
    requires SameAt(t, t', e.eventId)
    ensures SameAt(AfterAppend(t, repoId, e), AfterAppend(t', repoId, e), e.eventId)
  {
  }

  ghost predicate AllAppendable(events: seq<TraceEvent>) {
    forall e | e in events :: Appendable(e)
  }

  /** Events that share an id are the same event. */
  ghost predicate Agree(events: seq<TraceEvent>) {
    forall x, y | x in events && y in events && x.eventId == y.eventId :: x == y
  }

  lemma {:induction false} AppendAllElsewhere(t: Tables, repoId: string, events: seq<TraceEvent>, id: EventId)
    requires id !in Ids(events)
    ensures SameAt(t, AppendAll(t, repoId, events), id)
    decreases |events|
  {
    if events != [] && Appendable(events[0]) {
      IdsCons(events[0], events[1..]);
      assert events == [events[0]] + events[1..];
      AppendElsewhere(t, repoId, events[0], id);
      AppendAllElsewhere(AfterAppend(t, repoId, events[0]), repoId, events[1..], id);
    }
  }

  /** Each event of an agreeing batch ends up as if it alone had been appended. */
  lemma {:induction false} AppendAllHere(t: Tables, repoId: string, events: seq<TraceEvent>, e: TraceEvent)
    requires AllAppendable(events) && Agree(events) && e in events
    ensures SameAt(AfterAppend(t, repoId, e), AppendAll(t, repoId, events), e.eventId)
    decreases |events|
  {
    var first, rest := events[0], events[1..];
    var t1 := AfterAppend(t, repoId, first);
    assert events == [first] + rest && first in events;
    assert forall x | x in rest :: x in events;
    assert e == first || e in rest;
    if e in rest {
      AppendAllHere(t1, repoId, rest, e);
      if e == first {
        AppendTwice(t, repoId, e);
      } else {
        AppendElsewhere(t, repoId, first, e.eventId);
        AppendHere(t, t1, repoId, e);
      }
    } else {
      assert e.eventId !in Ids(rest);
      AppendAllElsewhere(t1, repoId, rest, e.eventId);
    }
  }

  /** Appending agreeing events depends only on which they are, not on their order or repeats. */
  lemma AppendAllSameEvents(t: Tables, repoId: string, a: seq<TraceEvent>, b: seq<TraceEvent>)
    requires Elements(a) == Elements(b) && AllAppendable(a) && Agree(a)
    ensures AppendAll(t, repoId, a) == AppendAll(t, repoId, b)
  {
    assert forall e :: e in a <==> e in Elements(a);
    assert forall e :: e in b <==> e in Elements(b);
    var ta, tb := AppendAll(t, repoId, a), AppendAll(t, repoId, b);
    forall id: EventId
      ensures SameAt(ta, tb, id)
    {
      if id in Ids(a) {
        var e :| e in a && e.eventId == id;
        AppendAllHere(t, repoId, a, e);
        AppendAllHere(t, repoId, b, e);
      } else {
        assert id !in Ids(b);
        AppendAllElsewhere(t, repoId, a, id);
        AppendAllElsewhere(t, repoId, b, id);
      }
    }
    SameEverywhere(ta, tb);
  }

  lemma {:induction false} AppendAllAppend(t: Tables, repoId: string, a: seq<TraceEvent>, b: seq<TraceEvent>)
    requires AllAppendable(a)
    ensures AppendAll(t, repoId, a + b) == AppendAll(AppendAll(t, repoId, a), repoId, b)
    decreases |a|
  {
    if a == [] {
      assert a + b == b;
    } else {
      assert a[0] in a && forall x | x in a[1..] :: x in a;
      assert (a + b)[0] == a[0] && (a + b)[1..] == a[1..] + b;
      AppendAllAppend(AfterAppend(t, repoId, a[0]), repoId, a[1..], b);
    }
  }

  /** The events `append_events` gets through before the first that cannot be appended. */
  function AppendablePrefix(events: seq<TraceEvent>): (p: seq<TraceEvent>)
    ensures p <= events
  {
    if events == [] || !Appendable(events[0]) then []
    else
      var p := AppendablePrefix(events[1..]);
      assert events == [events[0]] + events[1..];
      [events[0]] + p
  }

  lemma {:induction false} AppendAllPrefix(t: Tables, repoId: string, events: seq<TraceEvent>)
    ensures AllAppendable(AppendablePrefix(events))
    ensures AppendAll(t, repoId, AppendablePrefix(events)) == AppendAll(t, repoId, events)
    decreases |events|
  {
    if events != [] && Appendable(events[0]) {
      AppendAllPrefix(AfterAppend(t, repoId, events[0]), repoId, events[1..]);
      var p := AppendablePrefix(events);
      assert p[1..] == AppendablePrefix(events[1..]);
      assert forall e | e in p :: e == events[0] || e in p[1..];
    }
  }

  lemma {:induction false} PrefixWhole(events: seq<TraceEvent>)
    requires AllAppendable(events)
    ensures AppendablePrefix(events) == events
  {
    if events != [] {
      assert events[0] in events && forall e | e in events[1..] :: e in events;
      PrefixWhole(events[1..]);
    }
  }

  /** Filtering keeps the prefix within the old one as long as the event that stops it is kept. */
  lemma {:induction false} PrefixOfFilter(p: TraceEvent -> bool, events: seq<TraceEvent>)
    requires var n := |AppendablePrefix(events)|; n < |events| ==> p(events[n])
    ensures forall e | e in AppendablePrefix(Filter(p, events)) :: e in AppendablePrefix(events)
  {
    if events != [] {
      var kept := Filter(p, events[1..]);
      if Appendable(events[0]) {
        PrefixOfFilter(p, events[1..]);
        var q := AppendablePrefix(events);
        assert q[0] == events[0] && q[1..] == AppendablePrefix(events[1..]);
        assert forall e | e in q[1..] :: e in q;
        if p(events[0]) {
          assert Filter(p, events) == [events[0]] + kept;
          assert Filter(p, events)[1..] == kept;
        } else {
          assert Filter(p, events) == kept;
        }
      } else {
        assert p(events[0]);
        assert Filter(p, events)[0] == events[0];
      }
    }
  }

  // ---- merging ----

  /** The ids `known_event_ids` returns: those of the repository's own rows. */
  function Visible(t: Tables, repoId: string): set<EventId> {
    IdsFor(t, Some(repoId))
  }

  /** Deduplicate the pulled events, then append what is left. */
  function Merge(t: Tables, repoId: string, remote: seq<TraceEvent>): Tables {
    AppendAll(t, repoId, NewEvents(Visible(t, repoId), remote))
  }

  /** Appending a batch adds its ids and never touches a stored row. */
  lemma {:induction false} AppendAllRows(t: Tables, repoId: string, events: seq<TraceEvent>)
    ensures var t' := AppendAll(t, repoId, events);
            && t'.rows.Keys == t.rows.Keys + Ids(AppendablePrefix(events))
            && forall id | id in t.rows :: t'.rows[id] == t.rows[id]
    decreases |events|
  {
    if events != [] && Appendable(events[0]) {
      AppendFrame(t, repoId, events[0]);
      AppendAllRows(AfterAppend(t, repoId, events[0]), repoId, events[1..]);
      IdsCons(events[0], AppendablePrefix(events[1..]));
    }
  }

  /** After a merge the stored ids are the union of the two sides'. */
  lemma MergedIds(t: Tables, repoId: string, remote: seq<TraceEvent>)
    requires AllAppendable(remote)
    ensures Merge(t, repoId, remote).rows.Keys == t.rows.Keys + Ids(remote)
  {
    var events := NewEvents(Visible(t, repoId), remote);
    NewEventsAreNew(Visible(t, repoId), remote);
    PrefixWhole(events);
    AppendAllRows(t, repoId, events);
  }

  lemma DistinctIdsAgree(events: seq<TraceEvent>)
    requires DistinctIds(events)
    ensures Agree(events)
  {
  }

  /** A stored event is visible to the repository it was stored under, and a new row goes to the event's own repository. */
  lemma VisibleAfterAppendAll(t: Tables, repoId: string, events: seq<TraceEvent>, e: TraceEvent)
    requires AllAppendable(events) && Agree(events) && e in events
    ensures e.eventId in Visible(AppendAll(t, repoId, events), repoId)
       <==> if e.eventId in t.rows then t.rows[e.eventId].repoId == repoId else RepoOf(e, repoId) == repoId
  {
    AppendAllHere(t, repoId, events, e);
  }

  /**
   * The repository sees the union exactly when no new event is addressed to another repository or
   * already stored under one.
   */
  lemma MergedVisibleIff(t: Tables, repoId: string, remote: seq<TraceEvent>)
    requires AllAppendable(remote)
    ensures Visible(Merge(t, repoId, remote), repoId) == Visible(t, repoId) + Ids(remote)
       <==> forall e | e in NewEvents(Visible(t, repoId), remote) :: RepoOf(e, repoId) == repoId && e.eventId !in t.rows
  {
    var seen := Visible(t, repoId);
    var events, t' := NewEvents(seen, remote), Merge(t, repoId, remote);
    NewEventsAreNew(seen, remote);
    DistinctIdsAgree(events);
    PrefixWhole(events);
    AppendAllRows(t, repoId, events);
    forall e | e in events
      ensures e.eventId in Visible(t', repoId) <==> RepoOf(e, repoId) == repoId && e.eventId !in t.rows
    {
      VisibleAfterAppendAll(t, repoId, events, e);
    }
    VisibleUnionIff(t, t', repoId, events);
    assert seen + Ids(events) == seen + Ids(remote);
  }

  lemma VisibleUnionIff(t: Tables, t': Tables, repoId: string, events: seq<TraceEvent>)
    requires t'.rows.Keys == t.rows.Keys + Ids(events) && forall id | id in t.rows :: t'.rows[id] == t.rows[id]
    requires forall e | e in events :: e.eventId !in Visible(t, repoId)
    requires forall e | e in events ::
               e.eventId in Visible(t', repoId) <==> RepoOf(e, repoId) == repoId && e.eventId !in t.rows
    ensures Visible(t', repoId) == Visible(t, repoId) + Ids(events)
       <==> forall e | e in events :: RepoOf(e, repoId) == repoId && e.eventId !in t.rows
  {
  }

  // ---- merging again ----

  /** An event of an agreeing batch that has been appended changes nothing when appended again. */
  lemma AppendedIsSettled(t: Tables, repoId: string, events: seq<TraceEvent>, e: TraceEvent)
    requires AllAppendable(events) && Agree(events) && e in events
    ensures var t' := AppendAll(t, repoId, events); AfterAppend(t', repoId, e) == t'
  {
    var t' := AppendAll(t, repoId, events);
    AppendAllHere(t, repoId, events, e);
    AppendTwice(t, repoId, e);
    AppendHere(AfterAppend(t, repoId, e), t', repoId, e);
    forall id: EventId
      ensures SameAt(t', AfterAppend(t', repoId, e), id)
    {
      if id != e.eventId {
        AppendElsewhere(t', repoId, e, id);
      }
    }
    SameEverywhere(t', AfterAppend(t', repoId, e));
  }

  lemma {:induction false} AppendAllSettled(t: Tables, repoId: string, events: seq<TraceEvent>)
    requires forall e | e in AppendablePrefix(events) :: AfterAppend(t, repoId, e) == t
    ensures AppendAll(t, repoId, events) == t
    decreases |events|
  {
    if events != [] && Appendable(events[0]) {
      var p := AppendablePrefix(events);
      assert p[0] == events[0] && p[0] in p && p[1..] == AppendablePrefix(events[1..]);
      assert forall e | e in p[1..] :: e in p;
      AppendAllSettled(t, repoId, events[1..]);
    }
  }

  /** Merging the same batch again changes nothing, even when part of it could not be appended. */
  lemma MergeTwice(t: Tables, repoId: string, remote: seq<TraceEvent>)
    ensures Merge(Merge(t, repoId, remote), repoId, remote) == Merge(t, repoId, remote)
  {
    var seen, t' := Visible(t, repoId), Merge(t, repoId, remote);
    var again := NewEvents(Visible(t', repoId), remote);
    var done := AppendablePrefix(NewEvents(seen, remote));
    NewEventsAreNew(seen, remote);
    AppendAllPrefix(t, repoId, NewEvents(seen, remote));
    DistinctIdsAgree(done);
    AgainWasDone(t, repoId, remote);
    forall e | e in AppendablePrefix(again)
      ensures AfterAppend(t', repoId, e) == t'
    {
      AppendedIsSettled(t, repoId, done, e);
    }
    AppendAllSettled(t', repoId, again);
  }

  /** What the second merge gets through was got through by the first. */
  lemma AgainWasDone(t: Tables, repoId: string, remote: seq<TraceEvent>)
    ensures var again := NewEvents(Visible(Merge(t, repoId, remote), repoId), remote);
            forall e | e in AppendablePrefix(again) :: e in AppendablePrefix(NewEvents(Visible(t, repoId), remote))
  {
    var seen, seen' := Visible(t, repoId), Visible(Merge(t, repoId, remote), repoId);
    var events := NewEvents(seen, remote);
    AppendAllRows(t, repoId, events);
    var unseen := (e: TraceEvent) => e.eventId !in seen';
    SeeingMore(IdOf, seen, seen', {}, remote, unseen);
    assert seen' + {} == seen';
    if |AppendablePrefix(events)| < |events| {
      StopperStaysUnseen(t, repoId, remote);
    }
    PrefixOfFilter(unseen, events);
  }

  lemma StopperStaysUnseen(t: Tables, repoId: string, remote: seq<TraceEvent>)
    requires var events := NewEvents(Visible(t, repoId), remote); |AppendablePrefix(events)| < |events|
    ensures var events := NewEvents(Visible(t, repoId), remote);
            events[|AppendablePrefix(events)|].eventId !in Visible(Merge(t, repoId, remote), repoId)
  {
    var seen := Visible(t, repoId);
    var events := NewEvents(seen, remote);
    var n := |AppendablePrefix(events)|;
    NewEventsAreNew(seen, remote);
    AppendAllRows(t, repoId, events);
    assert events[n] in events;
    assert events[n].eventId !in Ids(AppendablePrefix(events));
  }

  // ---- merging two batches ----

  /** The first event of the batch with this id, if it has one. */
  function FirstOf(events: seq<TraceEvent>, id: EventId): Option<TraceEvent> {
    if events == [] then None
    else if events[0].eventId == id then Some(events[0])
    else FirstOf(events[1..], id)
  }

  lemma {:induction false} FirstOfIs(events: seq<TraceEvent>, id: EventId)
    ensures FirstOf(events, id).Some? <==> id in Ids(events)
    ensures FirstOf(events, id).Some? ==> FirstOf(events, id).value in events && FirstOf(events, id).value.eventId == id
  {
    if events != [] {
      FirstOfIs(events[1..], id);
      IdsCons(events[0], events[1..]);
      assert events == [events[0]] + events[1..];
    }
  }

  /** The event kept of an unknown id is the first one the batch has. */
  lemma {:induction false} FirstOfIsNew(known: set<EventId>, events: seq<TraceEvent>, id: EventId)
    requires id !in known && FirstOf(events, id).Some?
    ensures FirstOf(events, id).value in NewEvents(known, events)
    decreases |events|
  {
    if events[0].eventId != id {
      FirstOfIsNew(known, events[1..], id);
      FirstOfIsNew(known + {events[0].eventId}, events[1..], id);
    }
  }

  /** Under each id a merge leaves what it found, or what appending the batch's first new event there leaves. */
  lemma MergeAt(t: Tables, repoId: string, events: seq<TraceEvent>, id: EventId)
    requires AllAppendable(events)
    ensures id in Visible(t, repoId) || FirstOf(events, id).None? ==> SameAt(t, Merge(t, repoId, events), id)
    ensures id !in Visible(t, repoId) && FirstOf(events, id).Some? ==>
              SameAt(AfterAppend(t, repoId, FirstOf(events, id).value), Merge(t, repoId, events), id)
  {
    var seen := Visible(t, repoId);
    var kept := NewEvents(seen, events);
    NewEventsAreNew(seen, events);
    DistinctIdsAgree(kept);
    FirstOfIs(events, id);
    if id !in seen && FirstOf(events, id).Some? {
      FirstOfIsNew(seen, events, id);
      AppendAllHere(t, repoId, kept, FirstOf(events, id).value);
    } else {
      AppendAllElsewhere(t, repoId, kept, id);
    }
  }

  /** Whether a repository sees an id depends on its row only. */
  lemma SameAtSameVisible(t: Tables, t': Tables, repoId: string, id: EventId)
    requires SameAt(t, t', id)
    ensures id in Visible(t, repoId) <==> id in Visible(t', repoId)
  {
  }

  /** The id is new to both batches, and their first events under it would not leave the same tables. */
  ghost predicate Disagree(t: Tables, repoId: string, a: seq<TraceEvent>, b: seq<TraceEvent>, id: EventId) {
    && id !in Visible(t, repoId) && FirstOf(a, id).Some? && FirstOf(b, id).Some?
    && !SameAt(AfterAppend(t, repoId, FirstOf(a, id).value), AfterAppend(t, repoId, FirstOf(b, id).value), id)
  }

  /** What a merge of `x` and then one of `y` leave under their id. */
  ghost predicate MergedPair(t: Tables, repoId: string, x: TraceEvent, y: TraceEvent, xy: Tables) {
    var one := AfterAppend(t, repoId, x);
    SameAt(if x.eventId in Visible(one, repoId) then one else AfterAppend(one, repoId, y), xy, x.eventId)
  }

  /** What two merges in a row leave under an id that both batches bring anew. */
  lemma MergeBothAt(t: Tables, repoId: string, a: seq<TraceEvent>, b: seq<TraceEvent>, id: EventId)
    requires AllAppendable(a) && AllAppendable(b)
    requires id !in Visible(t, repoId) && FirstOf(a, id).Some? && FirstOf(b, id).Some?
    ensures FirstOf(a, id).value.eventId == id == FirstOf(b, id).value.eventId
    ensures MergedPair(t, repoId, FirstOf(a, id).value, FirstOf(b, id).value, Merge(Merge(t, repoId, a), repoId, b))
  {
    var one, t1 := AfterAppend(t, repoId, FirstOf(a, id).value), Merge(t, repoId, a);
    FirstOfIs(a, id);
    FirstOfIs(b, id);
    MergeAt(t, repoId, a, id);
    SameAtSameVisible(one, t1, repoId, id);
    MergeAt(t1, repoId, b, id);
    if id !in Visible(one, repoId) {
      AppendHere(one, t1, repoId, FirstOf(b, id).value);
    }
  }

  lemma ChunkAfterAppend(t: Tables, repoId: string, e: TraceEvent, i: nat)
    requires Appendable(e)
    ensures var t', raws := AfterAppend(t, repoId, e), Compact(WithRepo(e, repoId)).value.raws;
            && ((e.eventId, i) in t'.chunks <==> i < |raws|)
            && (i < |raws| ==> t'.chunks[(e.eventId, i)] == ChunkRowOf(e, repoId, raws[i]))
  {
    ChunksWithAt(t.chunks, repoId, e, Compact(WithRepo(e, repoId)).value.raws, (e.eventId, i));
  }

  /** The chunks an append leaves under its id do not depend on what was there. */
  lemma SameChunksAppended(t: Tables, t': Tables, repoId: string, e: TraceEvent)
    requires Appendable(e)
    ensures SameChunksAt(AfterAppend(t, repoId, e), AfterAppend(t', repoId, e), e.eventId)
  {
    forall i: nat
      ensures (e.eventId, i) in AfterAppend(t, repoId, e).chunks <==> (e.eventId, i) in AfterAppend(t', repoId, e).chunks
      ensures (e.eventId, i) in AfterAppend(t, repoId, e).chunks ==>
                AfterAppend(t', repoId, e).chunks[(e.eventId, i)] == AfterAppend(t, repoId, e).chunks[(e.eventId, i)]
    {
      ChunkAfterAppend(t, repoId, e, i);
      ChunkAfterAppend(t', repoId, e, i);
    }
  }

  /** Appending a second event of an id keeps the row and replaces the chunks. */
  lemma AppendOver(t: Tables, repoId: string, x: TraceEvent, y: TraceEvent)
    requires Appendable(x) && Appendable(y) && x.eventId == y.eventId
    ensures var one, two := AfterAppend(t, repoId, x), AfterAppend(AfterAppend(t, repoId, x), repoId, y);
            SameRowAt(one, two, x.eventId) && SameChunksAt(AfterAppend(t, repoId, y), two, x.eventId)
  {
    var one := AfterAppend(t, repoId, x);
    AppendedRow(t, repoId, x);
    AppendedRow(one, repoId, y);
    SameChunksAppended(t, one, repoId, y);
  }

  /** The tables `x` and `y` leave alone, and those two merges leave, told apart by row and chunks. */
  lemma RowsAndChunksDecide(x: Tables, y: Tables, xy: Tables, yx: Tables, repoId: string, id: EventId)
    requires id in x.rows && id in y.rows
    requires SameRowAt(x, xy, id) && SameChunksAt(if x.rows[id].repoId == repoId then x else y, xy, id)
    requires SameRowAt(y, yx, id) && SameChunksAt(if y.rows[id].repoId == repoId then y else x, yx, id)
    ensures SameAt(xy, yx, id) <==> SameAt(x, y, id)
  {
  }

  /** Merging two events of one unseen id in either order leaves the same exactly when each alone leaves the same. */
  lemma PairCommutesIff(t: Tables, repoId: string, x: TraceEvent, y: TraceEvent, xy: Tables, yx: Tables)
    requires Appendable(x) && Appendable(y) && x.eventId == y.eventId
    requires MergedPair(t, repoId, x, y, xy) && MergedPair(t, repoId, y, x, yx)
    ensures SameAt(xy, yx, x.eventId) <==> SameAt(AfterAppend(t, repoId, x), AfterAppend(t, repoId, y), x.eventId)
  {
    var tx, ty := AfterAppend(t, repoId, x), AfterAppend(t, repoId, y);
    PairRowsAndChunks(t, repoId, x, y, xy);
    PairRowsAndChunks(t, repoId, y, x, yx);
    RowsAndChunksDecide(tx, ty, xy, yx, repoId, x.eventId);
  }

  lemma AppendedRow(t: Tables, repoId: string, e: TraceEvent)
    requires Appendable(e)
    ensures e.eventId in AfterAppend(t, repoId, e).rows
    ensures e.eventId in t.rows ==> AfterAppend(t, repoId, e).rows[e.eventId] == t.rows[e.eventId]
  {
  }

  lemma PairRowsAndChunks(t: Tables, repoId: string, x: TraceEvent, y: TraceEvent, xy: Tables)
    requires Appendable(x) && Appendable(y) && x.eventId == y.eventId && MergedPair(t, repoId, x, y, xy)
    ensures var tx, ty, id := AfterAppend(t, repoId, x), AfterAppend(t, repoId, y), x.eventId;
            && id in tx.rows && SameRowAt(tx, xy, id)
            && SameChunksAt(if tx.rows[id].repoId == repoId then tx else ty, xy, id)
  {
    AppendedRow(t, repoId, x);
    AppendOver(t, repoId, x, y);
  }

  lemma OrderBothNew(t: Tables, repoId: string, a: seq<TraceEvent>, b: seq<TraceEvent>, id: EventId)
    requires AllAppendable(a) && AllAppendable(b)
    requires id !in Visible(t, repoId) && FirstOf(a, id).Some? && FirstOf(b, id).Some?
    ensures SameAt(Merge(Merge(t, repoId, a), repoId, b), Merge(Merge(t, repoId, b), repoId, a), id)
       <==> SameAt(AfterAppend(t, repoId, FirstOf(a, id).value), AfterAppend(t, repoId, FirstOf(b, id).value), id)
  {
    FirstOfIs(a, id);
    FirstOfIs(b, id);
    MergeBothAt(t, repoId, a, b, id);
    MergeBothAt(t, repoId, b, a, id);
    PairCommutesIff(t, repoId, FirstOf(a, id).value, FirstOf(b, id).value,
                    Merge(Merge(t, repoId, a), repoId, b), Merge(Merge(t, repoId, b), repoId, a));
  }

  /** What is left under an id that one batch lacks, or that the repository sees already. */
  function Alone(t: Tables, repoId: string, a: seq<TraceEvent>, b: seq<TraceEvent>, id: EventId): Tables {
    if id in Visible(t, repoId) then t
    else if FirstOf(a, id).Some? then AfterAppend(t, repoId, FirstOf(a, id).value)
    else if FirstOf(b, id).Some? then AfterAppend(t, repoId, FirstOf(b, id).value)
    else t
  }

  lemma OneSided(t: Tables, repoId: string, a: seq<TraceEvent>, b: seq<TraceEvent>, id: EventId)
    requires AllAppendable(a) && AllAppendable(b)
    requires id in Visible(t, repoId) || FirstOf(a, id).None? || FirstOf(b, id).None?
    ensures SameAt(Alone(t, repoId, a, b, id), Merge(Merge(t, repoId, a), repoId, b), id)
  {
    var t1 := Merge(t, repoId, a);
    FirstOfIs(b, id);
    MergeAt(t, repoId, a, id);
    if id in Visible(t, repoId) || FirstOf(a, id).None? {
      SameAtSameVisible(t, t1, repoId, id);
      if FirstOf(b, id).Some? {
        AppendHere(t, t1, repoId, FirstOf(b, id).value);
      }
    }
    MergeAt(t1, repoId, b, id);
  }

  lemma SameAtBoth(t: Tables, x: Tables, y: Tables, id: EventId)
    requires SameAt(t, x, id) && SameAt(t, y, id)
    ensures SameAt(x, y, id)
  {
  }

  lemma OrderAt(t: Tables, repoId: string, a: seq<TraceEvent>, b: seq<TraceEvent>, id: EventId)
    requires AllAppendable(a) && AllAppendable(b)
    ensures SameAt(Merge(Merge(t, repoId, a), repoId, b), Merge(Merge(t, repoId, b), repoId, a), id)
       <==> !Disagree(t, repoId, a, b, id)
  {
    if id !in Visible(t, repoId) && FirstOf(a, id).Some? && FirstOf(b, id).Some? {
      OrderBothNew(t, repoId, a, b, id);
    } else {
      OneSided(t, repoId, a, b, id);
      OneSided(t, repoId, b, a, id);
      assert Alone(t, repoId, a, b, id) == Alone(t, repoId, b, a, id);
      SameAtBoth(Alone(t, repoId, a, b, id), Merge(Merge(t, repoId, a), repoId, b), Merge(Merge(t, repoId, b), repoId, a), id);
    }
  }

  /** Two batches can be merged in either order exactly when they do not disagree on any id that is new to both. */
  lemma MergesCommuteIff(t: Tables, repoId: string, a: seq<TraceEvent>, b: seq<TraceEvent>)
    requires AllAppendable(a) && AllAppendable(b)
    ensures Merge(Merge(t, repoId, a), repoId, b) == Merge(Merge(t, repoId, b), repoId, a)
       <==> forall id: EventId :: !Disagree(t, repoId, a, b, id)
  {
    var ab, ba := Merge(Merge(t, repoId, a), repoId, b), Merge(Merge(t, repoId, b), repoId, a);
    forall id: EventId
      ensures SameAt(ab, ba, id) <==> !Disagree(t, repoId, a, b, id)
    {
      OrderAt(t, repoId, a, b, id);
    }
    if forall id: EventId :: !Disagree(t, repoId, a, b, id) {
      SameEverywhere(ab, ba);
    }
  }

  /** So batches that agree on the ids they share can be merged in either order. */
  lemma MergesCommute(t: Tables, repoId: string, a: seq<TraceEvent>, b: seq<TraceEvent>)
    requires AllAppendable(a + b) && Agree(a + b)
    ensures Merge(Merge(t, repoId, a), repoId, b) == Merge(Merge(t, repoId, b), repoId, a)
  {
    assert forall e | e in a || e in b :: e in a + b;
    MergesCommuteIff(t, repoId, a, b);
    forall id: EventId
      ensures !Disagree(t, repoId, a, b, id)
    {
      FirstOfIs(a, id);
      FirstOfIs(b, id);
    }
  }

  /**
   * When the first batch's event of a new id is addressed to another repository, the second merge
   * does not see it: its row stays, and the second batch's chunks are put under it.
   */
  lemma ForeignRowOtherChunks(t: Tables, repoId: string, a: seq<TraceEvent>, b: seq<TraceEvent>, id: EventId)
    requires AllAppendable(a) && AllAppendable(b) && id !in t.rows
    requires FirstOf(a, id).Some? && FirstOf(b, id).Some? && RepoOf(FirstOf(a, id).value, repoId) != repoId
    ensures var x, y, ab := FirstOf(a, id).value, FirstOf(b, id).value, Merge(Merge(t, repoId, a), repoId, b);
            && Appendable(x) && Appendable(y)
            && id in ab.rows && ab.rows[id].event == Compact(WithRepo(x, repoId)).value.event
            && ChunksOf(ab, id) == Compact(WithRepo(y, repoId)).value.raws
  {
    var x, y, ab := FirstOf(a, id).value, FirstOf(b, id).value, Merge(Merge(t, repoId, a), repoId, b);
    FirstOfIs(a, id);
    FirstOfIs(b, id);
    MergeBothAt(t, repoId, a, b, id);
    PairRowsAndChunks(t, repoId, x, y, ab);
    NewRow(t, repoId, x);
    SameAtSameChunks(AfterAppend(t, repoId, y), ab, id);
    AppendedChunks(t, repoId, y);
  }

  lemma NewRow(t: Tables, repoId: string, e: TraceEvent)
    requires Appendable(e) && e.eventId !in t.rows
    ensures e.eventId in AfterAppend(t, repoId, e).rows
    ensures var row := AfterAppend(t, repoId, e).rows[e.eventId];
            row.repoId == RepoOf(e, repoId) && row.event == Compact(WithRepo(e, repoId)).value.event
  {
  }

  lemma IndexMeans(t: Tables, id: EventId, i: nat)
    ensures i in IndicesOf(t, id) <==> (id, i) in t.chunks
  {
    if (id, i) in t.chunks {
      assert (id, i).0 == id && (id, i).1 == i;
    }
  }

  lemma SameIndices(t: Tables, t': Tables, id: EventId)
    requires SameChunksAt(t, t', id)
    ensures IndicesOf(t, id) == IndicesOf(t', id)
  {
    forall i: nat
      ensures i in IndicesOf(t, id) <==> i in IndicesOf(t', id)
    {
      IndexMeans(t, id, i);
      IndexMeans(t', id, i);
    }
  }

  lemma SameAtSameChunks(t: Tables, t': Tables, id: EventId)
    requires SameChunksAt(t, t', id)
    ensures ChunksOf(t, id) == ChunksOf(t', id)
  {
    SameIndices(t, t', id);
    var indices := ChunkIndices(t, id);
    ChunkIndicesLists(t, id);
    forall k | 0 <= k < |indices|
      ensures ChunksOf(t, id)[k] == ChunksOf(t', id)[k]
    {
      assert indices[k] in indices;
      IndexMeans(t, id, indices[k]);
    }
  }

  // ---- pulling ----

  /**
   * A pull decodes the new session events before it appends any: with one that does not decode it
   * fails and appends nothing, otherwise it merges.
   */
  function Pull(t: Tables, repoId: string, remote: seq<TraceEvent>): Tables {
    if forall e | e in NewEvents(Visible(t, repoId), remote) :: Appendable(e) then Merge(t, repoId, remote) else t
  }

  /** Pulling the same events again changes nothing, whether the first pull succeeded or failed. */
  lemma PullTwice(t: Tables, repoId: string, remote: seq<TraceEvent>)
    ensures Pull(Pull(t, repoId, remote), repoId, remote) == Pull(t, repoId, remote)
  {
    MergeTwice(t, repoId, remote);
  }
}
