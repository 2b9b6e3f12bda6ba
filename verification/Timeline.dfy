/**
 * One timeline out of two: steps built from recorded events and steps built from indexed source
 * sessions (crates/core/src/explain.rs).
 */
module Timeline {
  import opened Base
  import opened ColonJoin
  import opened Dedup
  import opened Explain
  import opened Sorting
  import opened Text

  // ---- steps from indexed sessions ----

  datatype SessionRow = SessionRow(
    appId: Option<string>, sourceId: Option<string>, externalId: Option<string>,
    occurredAt: Option<string>, lastSeenAt: string, detail: string)

  function SourceName(row: SessionRow): string {
    if row.appId.Some? then row.appId.value else OrEmpty(row.sourceId)
  }

  /** The synthetic event id of a row's session. */
  function RowKey(row: SessionRow): string {
    "source-session:" + Joined(SourceName(row), OrEmpty(row.externalId))
  }

  predicate SameSession(x: SessionRow, y: SessionRow) {
    SourceName(x) == SourceName(y) && OrEmpty(x.externalId) == OrEmpty(y.externalId)
  }

  /** A row shares its key with rows of its own session only exactly when neither name has a colon. */
  lemma RowKeyUniqueIff(x: SessionRow)
    ensures (forall y | RowKey(y) == RowKey(x) :: SameSession(x, y))
       <==> ':' !in SourceName(x) && ':' !in OrEmpty(x.externalId)
  {
    var source, external := SourceName(x), OrEmpty(x.externalId);
    JoinedUniqueIff(source, external);
    forall y
      ensures RowKey(y) == RowKey(x) <==> Joined(SourceName(y), OrEmpty(y.externalId)) == Joined(source, external)
    {
      var front := "source-session:";
      assert RowKey(x)[|front|..] == Joined(source, external);
      assert RowKey(y)[|front|..] == Joined(SourceName(y), OrEmpty(y.externalId));
    }
    if ':' in source || ':' in external {
      var source', external' := JoinedCollides(source, external);
      var y := x.(appId := Some(source'), externalId := Some(external'));
      assert RowKey(y) == RowKey(x) && !SameSession(x, y);
    }
  }

  function RowStep(row: SessionRow, depth: nat): CausalStep {
    var external := OrEmpty(row.externalId);
    CausalStep(RowKey(row), if external == "" then None else Some(external),
               if row.occurredAt.Some? then row.occurredAt.value else row.lastSeenAt, row.detail, depth)
  }

  function RowSteps(rows: seq<SessionRow>, startDepth: nat): (steps: seq<CausalStep>)
    ensures |steps| == |rows| && forall i | 0 <= i < |rows| :: steps[i] == RowStep(rows[i], startDepth + i)
  {
    seq(|rows|, i requires 0 <= i < |rows| => RowStep(rows[i], startDepth + i))
  }

  lemma RowStepsOfMore(rows: seq<SessionRow>, row: SessionRow, startDepth: nat)
    ensures RowSteps(rows + [row], startDepth) == RowSteps(rows, startDepth) + [RowStep(row, startDepth + |rows|)]
  {
  }

  /** One step for each session, the first row of it, numbered on from `startDepth`. */
  method SourceSessionsToSteps(rows: seq<SessionRow>, startDepth: nat) returns (steps: seq<CausalStep>)
    ensures steps == RowSteps(Firsts(RowKey, {}, rows), startDepth)
  {
    var seen: set<string> := {};
    steps := [];
    ghost var done: seq<SessionRow> := [];
    for i := 0 to |rows|
      invariant Firsts(RowKey, {}, rows) == done + Firsts(RowKey, seen, rows[i..])
      invariant steps == RowSteps(done, startDepth)
    {
      var eventId := RowKey(rows[i]);
      FirstsFrom(RowKey, seen, rows, i);
      if eventId in seen {
        continue;
      }
      MoveOne(Firsts(RowKey, {}, rows), done, rows[i], Firsts(RowKey, seen + {eventId}, rows[i + 1..]));
      seen := seen + {eventId};
      RowStepsOfMore(done, rows[i], startDepth);
      steps := steps + [RowStep(rows[i], startDepth + |steps|)];
      done := done + [rows[i]];
    }
  }

  // ---- merging ----

  function SessionsOf(steps: seq<CausalStep>): set<string> {
    set step | step in steps && step.sessionId.Some? :: step.sessionId.value
  }

  /** The step's session is not in the chain, or it has none to match by. */
  function Unlinked(linked: set<string>): CausalStep -> bool {
    (step: CausalStep) => step.sessionId.None? || step.sessionId.value !in linked
  }

  /** Newest first, by the text of the timestamp. */
  predicate Newer(a: CausalStep, b: CausalStep) {
    StringLe(b.occurredAt, a.occurredAt)
  }

  lemma NewerIsPreorder()
    ensures TotalPreorder(Newer)
  {
    forall x, y
      ensures Newer(x, y) || Newer(y, x)
    {
      StringLeTotal(x.occurredAt, y.occurredAt);
    }
    forall x, y, z | Newer(x, y) && Newer(y, z)
      ensures Newer(x, z)
    {
      StringLeTransitive(z.occurredAt, y.occurredAt, x.occurredAt);
    }
  }

  /** The steps to sort: the chain's, then the unlinked source steps in their own order. */
  function Combined(chain: seq<CausalStep>, source: seq<CausalStep>): seq<CausalStep> {
    chain + Filter(Unlinked(SessionsOf(chain)), source)
  }

  function Renumbered(steps: seq<CausalStep>): (r: seq<CausalStep>)
    ensures |r| == |steps| && forall i | 0 <= i < |r| :: r[i] == steps[i].(depth := i)
  {
    seq(|steps|, i requires 0 <= i < |steps| => steps[i].(depth := i))
  }

  function Merged(chain: seq<CausalStep>, source: seq<CausalStep>): seq<CausalStep> {
    Renumbered(Sort(Newer, Combined(chain, source)))
  }

  class CausalChain {
    var steps: seq<CausalStep>

    constructor (steps: seq<CausalStep>)
      ensures this.steps == steps
    {
      this.steps := steps;
    }

    /** Pushes the unlinked source steps, sorts in place and renumbers the depths. */
    method MergeSourceSteps(source: seq<CausalStep>)
      modifies this
      ensures steps == Merged(old(steps), source)
    {
      var linked := SessionsOf(steps);
      ghost var p, chain := Unlinked(linked), steps;
      for i := 0 to |source|
        invariant steps == chain + Filter(p, source[..i])
      {
        FilterAppend(p, source[..i], [source[i]]);
        FilterCons(p, source[i], []);
        assert source[..i + 1] == source[..i] + [source[i]] && [source[i]] + [] == [source[i]];
        var alreadyLinked := source[i].sessionId.Some? && source[i].sessionId.value in linked;
        if alreadyLinked {
          continue;
        }
        steps := steps + [source[i]];
      }
      assert source[..|source|] == source;
      steps := Sort(Newer, steps);
      ghost var sorted := steps;
      for depth := 0 to |steps|
        invariant |steps| == |sorted|
        invariant forall i | 0 <= i < depth :: steps[i] == sorted[i].(depth := i)
        invariant forall i | depth <= i < |sorted| :: steps[i] == sorted[i]
      {
        steps := steps[depth := steps[depth].(depth := depth)];
      }
      assert steps == Renumbered(sorted);
    }
  }

  // ---- what a merge does ----

  /** Steps equal but for their depths. */
  ghost predicate SameButDepths(a: seq<CausalStep>, b: seq<CausalStep>) {
    |a| == |b| && forall i | 0 <= i < |a| :: a[i] == b[i].(depth := a[i].depth)
  }

  /**
   * But for the depths, a merge lists exactly the chain's steps and the source steps whose session
   * is not in the chain, newest first; steps of one time stay in order, the chain's before the source's.
   * Depths are positions.
   */
  lemma MergeArranges(chain: seq<CausalStep>, source: seq<CausalStep>) returns (r: seq<CausalStep>)
    ensures SameButDepths(Merged(chain, source), r)
    ensures multiset(r) == multiset(chain) + multiset(Filter(Unlinked(SessionsOf(chain)), source))
    ensures Sorted(Newer, r) && Sorted(Newer, Merged(chain, source))
    ensures forall k, p | IsClass(Newer, k, p) ::
              Filter(p, r) == Filter(p, chain) + Filter(p, Filter(Unlinked(SessionsOf(chain)), source))
    ensures forall i | 0 <= i < |r| :: Merged(chain, source)[i].depth == i
  {
    NewerIsPreorder();
    var unlinked := Filter(Unlinked(SessionsOf(chain)), source);
    r := Sort(Newer, Combined(chain, source));
    SortSorted(Newer, Combined(chain, source));
    forall k, p | IsClass(Newer, k, p)
      ensures Filter(p, r) == Filter(p, chain) + Filter(p, unlinked)
    {
      SortStable(Newer, k, p, Combined(chain, source));
      FilterAppend(p, chain, unlinked);
    }
    RenumberedSorted(r);
  }

  lemma RenumberedSorted(s: seq<CausalStep>)
    requires Sorted(Newer, s)
    ensures Sorted(Newer, Renumbered(s))
  {
  }

  // ---- merging again ----

  lemma SessionsOfMerged(chain: seq<CausalStep>, source: seq<CausalStep>, step: CausalStep)
    requires step in Combined(chain, source) && step.sessionId.Some?
    ensures step.sessionId.value in SessionsOf(Merged(chain, source))
  {
    var all := Combined(chain, source);
    var sorted := Sort(Newer, all);
    MultisetMembers(all, sorted);
    var i :| 0 <= i < |sorted| && sorted[i] == step;
    assert Renumbered(sorted)[i].sessionId == step.sessionId;
    assert Renumbered(sorted)[i] in Merged(chain, source);
  }

  /** What is still unlinked after a merge are the source steps without a session id. */
  lemma StillUnlinked(chain: seq<CausalStep>, source: seq<CausalStep>, step: CausalStep)
    requires step in source
    ensures Unlinked(SessionsOf(Merged(chain, source)))(step) <==> step.sessionId.None?
  {
    if step.sessionId.Some? {
      FilterMembers(Unlinked(SessionsOf(chain)), source);
      if step.sessionId.value in SessionsOf(chain) {
        var s :| s in chain && s.sessionId.Some? && s.sessionId.value == step.sessionId.value;
        SessionsOfMerged(chain, source, s);
      } else {
        SessionsOfMerged(chain, source, step);
      }
    }
  }

  /** Merging the same source steps again changes nothing exactly when all of them have session ids. */
  lemma MergeAgainIff(chain: seq<CausalStep>, source: seq<CausalStep>)
    ensures Merged(Merged(chain, source), source) == Merged(chain, source)
       <==> forall step | step in source :: step.sessionId.Some?
  {
    var once := Merged(chain, source);
    var p := Unlinked(SessionsOf(once));
    forall step | step in source
      ensures p(step) <==> step.sessionId.None?
    {
      StillUnlinked(chain, source, step);
    }
    if forall step | step in source :: step.sessionId.Some? {
      FilterNone(p, source);
      assert Combined(once, source) == once;
      var r := MergeArranges(chain, source);
      SortOfSorted(Newer, once);
      assert Renumbered(once) == once;
    } else {
      var step :| step in source && step.sessionId.None?;
      FilterMembers(p, source);
      assert step in Filter(p, source);
      assert |Merged(once, source)| == |once| + |Filter(p, source)|;
    }
  }
}
