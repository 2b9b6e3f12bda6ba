/**
 * The causal chain of an anchor (crates/core/src/explain.rs): which events it starts from and which
 * steps are reported. How an event is worded as a step is an input.
 */
module Explain {
  import opened Base
  import opened ColonJoin
  import opened Dedup
  import opened Events
  import opened Blame

  const MAX_EXPLAIN_DEPTH := 8

  /** `detail` stands for the fields a merge only copies. */
  datatype CausalStep = CausalStep(
    eventId: string, sessionId: Option<string>, occurredAt: string, detail: string, depth: nat)

  type StepBuilder = (Option<TraceEvent>, EventId, nat) -> CausalStep

  /** An event stands for itself, an observed session for its source session. */
  datatype Identity = OfEvent(id: EventId) | OfSession(key: string)

  function HasId(id: EventId): TraceEvent -> bool {
    (e: TraceEvent) => e.eventId == id
  }

  function EventById(events: seq<TraceEvent>, id: EventId): Option<TraceEvent> {
    Last(HasId(id), events)
  }

  /** An observation that names both its source and its session. */
  predicate NamesSession(e: TraceEvent) {
    && e.eventType == SourceSessionObserved && e.payload.SessionObservedPayload?
    && e.payload.sourceId != "" && e.payload.externalId != ""
  }

  function StepIdentity(event: Option<TraceEvent>, id: EventId): Identity {
    if event.Some? && NamesSession(event.value)
    then OfSession(Joined(event.value.payload.sourceId, event.value.payload.externalId))
    else OfEvent(id)
  }

  predicate SameSourceSession(x: TraceEvent, y: TraceEvent)
    requires NamesSession(x) && NamesSession(y)
  {
    x.payload.sourceId == y.payload.sourceId && x.payload.externalId == y.payload.externalId
  }

  /**
   * An observed session shares its identity, of which a chain reports one step only, with observations of
   * the same session only exactly when its names have no colon but at the outer ends.
   */
  lemma IdentityUniqueIff(x: TraceEvent)
    requires NamesSession(x)
    ensures (forall y | NamesSession(y) && StepIdentity(Some(y), y.eventId) == StepIdentity(Some(x), x.eventId) ::
               SameSourceSession(x, y))
       <==> ':' !in x.payload.sourceId[1..] && ':' !in x.payload.externalId[..|x.payload.externalId| - 1]
  {
    var a, b := x.payload.sourceId, x.payload.externalId;
    JoinedUniqueNonEmptyIff(a, b);
    if a', b' :| a' != "" && b' != "" && Joined(a', b') == Joined(a, b) && !(a' == a && b' == b) {
      var y := x.(payload := x.payload.(sourceId := a', externalId := b'));
      assert NamesSession(y) && !SameSourceSession(x, y);
    }
  }

  function IdentityIn(events: seq<TraceEvent>): EventId -> Identity {
    (id: EventId) => StepIdentity(EventById(events, id), id)
  }

  function Min(a: nat, b: nat): nat {
    if a < b then a else b
  }

  function StepLimit(depth: nat): nat {
    Min(depth, MAX_EXPLAIN_DEPTH) + 1
  }

  /** The anchor's events, one per identity, in the anchor's order. */
  function DistinctAnchors(events: seq<TraceEvent>, resolved: seq<EventId>): seq<EventId> {
    Firsts(IdentityIn(events), {}, resolved)
  }

  /** As many of them as the depth allows. */
  function Reported(events: seq<TraceEvent>, resolved: seq<EventId>, depth: nat): seq<EventId> {
    var ids := DistinctAnchors(events, resolved);
    ids[..Min(StepLimit(depth), |ids|)]
  }

  ghost predicate IndexedById(byId: map<EventId, TraceEvent>, events: seq<TraceEvent>) {
    forall id :: (id in byId <==> EventById(events, id).Some?) && (id in byId ==> Some(byId[id]) == EventById(events, id))
  }

  method IndexById(events: seq<TraceEvent>) returns (byId: map<EventId, TraceEvent>)
    ensures IndexedById(byId, events)
  {
    byId := map[];
    for i := 0 to |events|
      invariant IndexedById(byId, events[..i])
    {
      assert events[..i + 1][..i] == events[..i];
      byId := byId[events[i].eventId := events[i]];
    }
    assert events[..|events|] == events;
  }

  /** The steps built for these events, numbered from the anchor. */
  function Steps(events: seq<TraceEvent>, ids: seq<EventId>, build: StepBuilder): (steps: seq<CausalStep>)
    ensures |steps| == |ids|
    ensures forall i | 0 <= i < |ids| :: steps[i] == build(EventById(events, ids[i]), ids[i], i)
  {
    seq(|ids|, i requires 0 <= i < |ids| => build(EventById(events, ids[i]), ids[i], i))
  }

  lemma StepsOfMore(events: seq<TraceEvent>, ids: seq<EventId>, id: EventId, build: StepBuilder)
    ensures Steps(events, ids + [id], build) == Steps(events, ids, build) + [build(EventById(events, id), id, |ids|)]
  {
  }

  lemma MoveOne<T>(all: seq<T>, done: seq<T>, x: T, rest: seq<T>)
    requires all == done + ([x] + rest)
    ensures all == (done + [x]) + rest && all[..|done|] == done && |done| < |all|
  {
  }

  method LookUp(ghost events: seq<TraceEvent>, byId: map<EventId, TraceEvent>, id: EventId)
    returns (event: Option<TraceEvent>, identity: Identity)
    requires IndexedById(byId, events)
    ensures event == EventById(events, id) && identity == IdentityIn(events)(id)
  {
    event := if id in byId then Some(byId[id]) else None;
    identity := StepIdentity(event, id);
  }

  method ExplainFromEvents(events: seq<TraceEvent>, resolved: seq<EventId>, depth: nat, build: StepBuilder)
    returns (steps: seq<CausalStep>, truncated: bool)
    ensures steps == Steps(events, Reported(events, resolved, depth), build)
    ensures truncated <==> Reported(events, resolved, depth) != DistinctAnchors(events, resolved)
  {
    var byId := IndexById(events);
    var limit := Min(depth, MAX_EXPLAIN_DEPTH) + 1;
    ghost var key := IdentityIn(events);
    var seen: set<Identity> := {};
    steps, truncated := [], false;
    ghost var all, done := DistinctAnchors(events, resolved), [];
    for i := 0 to |resolved|
      invariant all == done + Firsts(key, seen, resolved[i..])
      invariant steps == Steps(events, done, build)
      invariant |done| <= limit && !truncated
    {
      var id := resolved[i];
      var event, identity := LookUp(events, byId, id);
      FirstsFrom(key, seen, resolved, i);
      if identity !in seen {
        MoveOne(all, done, id, Firsts(key, seen + {identity}, resolved[i + 1..]));
        if |steps| >= limit {
          truncated := true;
          break;
        }
        StepsOfMore(events, done, id, build);
        seen := seen + {identity};
        steps := steps + [build(event, id, |steps|)];
        done := done + [id];
      }
    }
    assert truncated ==> done == all[..limit];
    assert !truncated ==> done == all;
  }

  /** The chain is cut exactly when the anchor has an identity that no reported step has. */
  lemma TruncatedIff(events: seq<TraceEvent>, resolved: seq<EventId>, depth: nat)
    ensures var key, ids := IdentityIn(events), Reported(events, resolved, depth);
            && (ids != DistinctAnchors(events, resolved) <==> exists id | id in resolved :: key(id) !in Keys(key, ids))
            && DistinctKeys(key, ids)
            && (forall id | id in ids :: id in resolved)
  {
    var key, all, ids := IdentityIn(events), DistinctAnchors(events, resolved), Reported(events, resolved, depth);
    FirstsKeys(key, {}, resolved);
    FirstsAreFrom(key, {}, resolved);
    if ids == all {
      assert forall id | id in resolved :: key(id) in Keys(key, resolved);
    } else {
      var next := all[|ids|];
      assert next in all && next in resolved;
      assert forall id | id in ids :: key(id) != key(next);
    }
  }

  /** A smaller depth reports the beginning of what a larger one does; beyond the cap depth makes no difference. */
  lemma SmallerDepthIsPrefix(events: seq<TraceEvent>, resolved: seq<EventId>, d: nat, d': nat)
    requires d <= d'
    ensures Reported(events, resolved, d) <= Reported(events, resolved, d')
    ensures d >= MAX_EXPLAIN_DEPTH ==> Reported(events, resolved, d) == Reported(events, resolved, d')
  {
  }

  // ---- line anchors ----

  datatype LineAnchor = LineAnchor(resolved: seq<EventId>, confidence: Option<Confidence>)

  function Rank(c: Option<Confidence>): nat {
    match c
    case Some(ByCommit) => 3
    case Some(ByWorkingDiff) => 2
    case Some(Unattributed) => 1
    case None => 0
  }

  function InRange(lo: nat, hi: nat): BlameLine -> bool {
    (line: BlameLine) => lo <= line.lineNo <= hi
  }

  /** The source events of these lines, where they have one. */
  function SourceEvent(line: BlameLine): seq<EventId> {
    if line.sourceEventId.Some? then [line.sourceEventId.value] else []
  }

  function SourceEvents(lines: seq<BlameLine>): seq<EventId> {
    if lines == [] then [] else SourceEvent(lines[0]) + SourceEvents(lines[1..])
  }

  function SameId(id: EventId): EventId {
    id
  }

  /** The strongest confidence among the lines, none for no lines. */
  ghost predicate IsStrongest(lines: seq<BlameLine>, c: Option<Confidence>) {
    && (c.None? <==> lines == [])
    && (c.Some? ==> exists i | 0 <= i < |lines| :: lines[i].confidence == c.value)
    && (forall i | 0 <= i < |lines| :: Rank(Some(lines[i].confidence)) <= Rank(c))
  }

  ghost predicate IsRangeAnchor(lines: seq<BlameLine>, lo: nat, hi: nat, a: LineAnchor) {
    var within := Filter(InRange(lo, hi), lines);
    a.resolved == Firsts(SameId, {}, SourceEvents(within)) && IsStrongest(within, a.confidence)
  }

  ghost predicate IsFirstAt(lines: seq<BlameLine>, n: nat, k: nat) {
    k < |lines| && lines[k].lineNo == n && forall i | 0 <= i < k :: lines[i].lineNo != n
  }

  ghost predicate IsLineAnchor(lines: seq<BlameLine>, n: nat, a: LineAnchor) {
    && (forall k: nat :: IsFirstAt(lines, n, k) ==>
          a == LineAnchor(if lines[k].sourceEventId.Some? then [lines[k].sourceEventId.value] else [], Some(lines[k].confidence)))
    && ((forall k | 0 <= k < |lines| :: lines[k].lineNo != n) ==> a == LineAnchor([], None))
  }

  method ResolveFileLineAnchor(lines: seq<BlameLine>, line: nat) returns (a: LineAnchor)
    ensures IsLineAnchor(lines, line, a)
  {
    for k := 0 to |lines|
      invariant forall i | 0 <= i < k :: lines[i].lineNo != line
    {
      if lines[k].lineNo == line {
        var events := if lines[k].sourceEventId.Some? then [lines[k].sourceEventId.value] else [];
        return LineAnchor(events, Some(lines[k].confidence));
      }
    }
    a := LineAnchor([], None);
  }

  /** What the loop knows after the lines `within` the range. */
  ghost predicate RangeState(within: seq<BlameLine>, resolved: seq<EventId>, seen: set<EventId>, best: Option<Confidence>) {
    && resolved == Firsts(SameId, {}, SourceEvents(within)) && seen == Keys(SameId, SourceEvents(within))
    && IsStrongest(within, best)
  }

  method AddLine(ghost within: seq<BlameLine>, line: BlameLine, resolved: seq<EventId>, seen: set<EventId>, best: Option<Confidence>)
    returns (resolved': seq<EventId>, seen': set<EventId>, best': Option<Confidence>)
    requires RangeState(within, resolved, seen, best)
    ensures RangeState(within + [line], resolved', seen', best')
  {
    resolved', seen', best' := resolved, seen, best;
    SourceEventsStep(within, line);
    if line.sourceEventId.Some? {
      var id := line.sourceEventId.value;
      FirstsStep(SourceEvents(within), id);
      if id !in seen {
        resolved', seen' := resolved + [id], seen + {id};
      }
    } else {
      assert SourceEvents(within) + [] == SourceEvents(within);
    }
    StrongestStep(within, best, line);
    if Rank(Some(line.confidence)) > Rank(best) {
      best' := Some(line.confidence);
    }
  }

  /** The ends may be given in either order. */
  method ResolveFileRangeAnchor(lines: seq<BlameLine>, start: nat, end: nat) returns (a: LineAnchor)
    ensures IsRangeAnchor(lines, Min(start, end), if start < end then end else start, a)
  {
    var lo, hi := if start <= end then start else end, if start <= end then end else start;
    var resolved: seq<EventId>, seen: set<EventId>, best := [], {}, None;
    ghost var p := InRange(lo, hi);
    for k := 0 to |lines|
      invariant RangeState(Filter(p, lines[..k]), resolved, seen, best)
    {
      InRangeStep(lo, hi, lines, k);
      if lo <= lines[k].lineNo <= hi {
        resolved, seen, best := AddLine(Filter(p, lines[..k]), lines[k], resolved, seen, best);
      }
    }
    assert lines[..|lines|] == lines;
    a := LineAnchor(resolved, best);
  }

  lemma InRangeStep(lo: nat, hi: nat, lines: seq<BlameLine>, k: nat)
    requires k < |lines|
    ensures Filter(InRange(lo, hi), lines[..k + 1])
         == if lo <= lines[k].lineNo <= hi then Filter(InRange(lo, hi), lines[..k]) + [lines[k]]
            else Filter(InRange(lo, hi), lines[..k])
  {
    FilterAppend(InRange(lo, hi), lines[..k], [lines[k]]);
    FilterCons(InRange(lo, hi), lines[k], []);
    assert lines[..k + 1] == lines[..k] + [lines[k]] && [lines[k]] + [] == [lines[k]];
  }

  lemma StrongestStep(lines: seq<BlameLine>, c: Option<Confidence>, line: BlameLine)
    requires IsStrongest(lines, c)
    ensures IsStrongest(lines + [line], if Rank(Some(line.confidence)) > Rank(c) then Some(line.confidence) else c)
  {
    var more := lines + [line];
    assert more[|lines|] == line;
    if c.Some? {
      var i :| 0 <= i < |lines| && lines[i].confidence == c.value;
      assert more[i].confidence == c.value;
    }
  }

  lemma {:induction false} SourceEventsStep(lines: seq<BlameLine>, line: BlameLine)
    ensures SourceEvents(lines + [line]) == SourceEvents(lines) + SourceEvent(line)
  {
    var more := lines + [line];
    if lines == [] {
      assert more == [line] && SourceEvents(more[1..]) == [];
    } else {
      assert more[0] == lines[0] && more[1..] == lines[1..] + [line];
      SourceEventsStep(lines[1..], line);
      assert SourceEvents(more) == SourceEvent(lines[0]) + (SourceEvents(lines[1..]) + SourceEvent(line));
    }
  }

  lemma FirstsStep(ids: seq<EventId>, id: EventId)
    ensures Keys(SameId, ids + [id]) == Keys(SameId, ids) + {id}
    ensures Firsts(SameId, {}, ids + [id]) == Firsts(SameId, {}, ids) + if id in Keys(SameId, ids) then [] else [id]
  {
    KeysAppend(SameId, ids, [id]);
    assert Keys(SameId, [id]) == {id};
    FirstsAppend(SameId, {}, ids, id);
    assert Keys(SameId, ids) + {} == Keys(SameId, ids);
  }

  lemma FilterOne<T(!new)>(p: T -> bool, s: seq<T>, i: nat)
    requires i < |s| && p(s[i]) && forall k | 0 <= k < |s| && k != i :: !p(s[k])
    ensures Filter(p, s) == [s[i]]
  {
    var front, back := s[..i], s[i + 1..];
    assert s == front + [s[i]] + back;
    FilterAppend(p, front + [s[i]], back);
    FilterAppend(p, front, [s[i]]);
    FilterNone(p, front);
    FilterNone(p, back);
    FilterCons(p, s[i], []);
    assert [s[i]] + [] == [s[i]];
  }

  /** A range of one line is resolved as that line is: same events, same confidence. */
  lemma OneLineRangeAgrees(lines: seq<BlameLine>, n: nat, line: LineAnchor, range: LineAnchor)
    requires forall k | 0 <= k < |lines| :: lines[k].lineNo == k + 1
    requires IsLineAnchor(lines, n, line) && IsRangeAnchor(lines, n, n, range)
    ensures line == range
  {
    if 1 <= n <= |lines| {
      FilterOne(InRange(n, n), lines, n - 1);
      assert IsFirstAt(lines, n, n - 1);
      OneLineAnchor(lines[n - 1], range);
    } else {
      FilterNone(InRange(n, n), lines);
    }
  }

  lemma OneLineAnchor(hit: BlameLine, range: LineAnchor)
    requires range.resolved == Firsts(SameId, {}, SourceEvents([hit])) && IsStrongest([hit], range.confidence)
    ensures range == LineAnchor(if hit.sourceEventId.Some? then [hit.sourceEventId.value] else [], Some(hit.confidence))
  {
  }
}
