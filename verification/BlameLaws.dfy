/** The history of a line range, how it compares with blame, and what blame promises of a line. */
module BlameLaws {
  import opened Base
  import opened Events
  import opened Blame

  // ---- the history of a range ----

  /** A commit that `git log -L` reports, newest first. */
  datatype RangeCommit = RangeCommit(sha: string, subject: Option<string>, committedAt: Option<string>)

  datatype SessionTouch = SessionTouch(
    commit: RangeCommit,
    sessionId: Option<string>, actorType: Option<string>, actorId: Option<string>, missionId: Option<string>,
    occurredAt: Option<Instant>, sourceEventId: Option<EventId>,
    attributed: bool)

  function Untouched(commit: RangeCommit): SessionTouch {
    SessionTouch(commit, None, None, None, None, None, None, false)
  }

  function Touched(commit: RangeCommit, attr: Attribution): SessionTouch {
    SessionTouch(commit, attr.sessionId, Some(attr.actorType), Some(attr.actorId), attr.missionId,
                 Some(attr.occurredAt), Some(attr.eventId), true)
  }

  /** The patch id of the first change of the path that has one. */
  function FirstPatch(changes: seq<FileChange>, path: string): Option<string> {
    if changes == [] then None
    else if changes[0].path == path && changes[0].patchId.Some? then changes[0].patchId
    else FirstPatch(changes[1..], path)
  }

  function Leads(path: string, patch: string): TraceEvent -> bool {
    e => FirstPatch(Changes(e), path) == Some(patch)
  }

  /** The last event whose first patch of the file is this one: the history ignores an event's other patches. */
  function LastLead(diffs: seq<TraceEvent>, path: string, patch: string): Option<TraceEvent> {
    Last(Leads(path, patch), diffs)
  }

  function TouchOf(diffs: seq<TraceEvent>, path: string, patchOf: string -> Option<string>, commit: RangeCommit): SessionTouch {
    var patch := patchOf(commit.sha);
    var captured := if patch.Some? then LastLead(diffs, path, patch.value) else None;
    if captured.Some? then Touched(commit, AttributionOf(captured.value)) else Untouched(commit)
  }

  ghost predicate IndexesLeads(table: map<string, Attribution>, diffs: seq<TraceEvent>, path: string) {
    forall patch ::
      && (patch in table <==> LastLead(diffs, path, patch).Some?)
      && (patch in table ==> table[patch] == AttributionOf(LastLead(diffs, path, patch).value))
  }

  /** The first patch id of an event's changes of the path, found by a loop that breaks. */
  method FindFirstPatch(changes: seq<FileChange>, path: string) returns (patch: Option<string>)
    ensures patch == FirstPatch(changes, path)
  {
    patch := None;
    for c := 0 to |changes|
      invariant patch.None? && FirstPatch(changes, path) == FirstPatch(changes[c..], path)
    {
      if changes[c].path == path && changes[c].patchId.Some? {
        patch := changes[c].patchId;
        break;
      }
      assert changes[c..][1..] == changes[c + 1..];
    }
  }

  method IndexLeads(diffs: seq<TraceEvent>, path: string) returns (table: map<string, Attribution>)
    ensures IndexesLeads(table, diffs, path)
  {
    table := map[];
    for i := 0 to |diffs|
      invariant IndexesLeads(table, diffs[..i], path)
    {
      assert diffs[..i + 1][..i] == diffs[..i];
      var patch := FindFirstPatch(Changes(diffs[i]), path);
      if patch.Some? {
        table := table[patch.value := AttributionOf(diffs[i])];
      }
    }
    assert diffs[..|diffs|] == diffs;
  }

  /** Every commit of the range, in git's order, attributed or reported as not. */
  method BlameLineRangeHistory(events: seq<TraceEvent>, path: string, start: nat, end: nat,
                               commits: seq<RangeCommit>, patchOf: string -> Option<string>)
    returns (r: Result<seq<SessionTouch>>)
    ensures r.Err? <==> start == 0 || end < start
    ensures r.Ok? ==> |r.value| == |commits|
    ensures r.Ok? ==> forall i | 0 <= i < |commits| ::
                        r.value[i] == TouchOf(DiffEvents(events, path), path, patchOf, commits[i])
  {
    if start == 0 || end < start {
      return Err("invalid line range");
    }
    var diffs := CollectDiffEvents(events, path);
    var patchToAttr := IndexLeads(diffs, path);
    var touches: seq<SessionTouch> := [];
    for i := 0 to |commits|
      invariant |touches| == i
      invariant forall k | 0 <= k < i :: touches[k] == TouchOf(diffs, path, patchOf, commits[k])
    {
      var touch := Untouched(commits[i]);
      var patch := patchOf(commits[i].sha);
      if patch.Some? && patch.value in patchToAttr {
        touch := Touched(commits[i], patchToAttr[patch.value]);
      }
      touches := touches + [touch];
    }
    r := Ok(touches);
  }

  // ---- where the two indices agree ----

  lemma {:induction false} FirstPatchIsOne(changes: seq<FileChange>, path: string, patch: string)
    ensures FirstPatch(changes, path) == Some(patch) ==> HasPatch(changes, path, patch)
  {
    if changes != [] {
      FirstPatchIsOne(changes[1..], path, patch);
      if HasPatch(changes[1..], path, patch) {
        var c :| 0 <= c < |changes[1..]| && ChangeHasPatch(changes[1..][c], path, patch);
        assert ChangeHasPatch(changes[c + 1], path, patch);
      }
      if changes[0].path == path && changes[0].patchId == Some(patch) {
        assert ChangeHasPatch(changes[0], path, patch);
      }
    }
  }

  /** Event `i` carries the patch behind another of the file, and no later event leads with it. */
  ghost predicate Hidden(diffs: seq<TraceEvent>, path: string, patch: string, i: nat) {
    && i < |diffs| && Carries(path, patch)(diffs[i]) && !Leads(path, patch)(diffs[i])
    && forall j | i < j < |diffs| :: !Leads(path, patch)(diffs[j])
  }

  ghost predicate DistinctEvents(diffs: seq<TraceEvent>) {
    forall i, j | 0 <= i < j < |diffs| :: diffs[i].eventId != diffs[j].eventId
  }

  /** Blame and the range history attribute a patch to the same event exactly when no event hides it. */
  lemma HistoryAgreesIff(diffs: seq<TraceEvent>, path: string, patch: string)
    requires DistinctEvents(diffs)
    ensures LastCapture(diffs, path, patch) == LastLead(diffs, path, patch) <==> !exists i :: Hidden(diffs, path, patch, i)
  {
    forall j | 0 <= j < |diffs|
      ensures Leads(path, patch)(diffs[j]) ==> Carries(path, patch)(diffs[j])
    {
      FirstPatchIsOne(Changes(diffs[j]), path, patch);
    }
    var k := LastHasIndex(Carries(path, patch), diffs);
    var l := LastHasIndex(Leads(path, patch), diffs);
    if i :| Hidden(diffs, path, patch, i) {
      HiddenSeparates(diffs, path, patch, i, k, l);
    } else if LastCapture(diffs, path, patch).Some? {
      assert !Hidden(diffs, path, patch, k);
      assert Leads(path, patch)(diffs[k]);
      LastIs(Leads(path, patch), diffs, k);
    }
  }

  lemma HiddenSeparates(diffs: seq<TraceEvent>, path: string, patch: string, i: nat, k: nat, l: nat)
    requires DistinctEvents(diffs) && Hidden(diffs, path, patch, i)
    requires LastCapture(diffs, path, patch).Some? && LastIndex(Carries(path, patch), diffs, k)
    requires LastCapture(diffs, path, patch).value == diffs[k]
    requires LastLead(diffs, path, patch).Some? ==>
               LastIndex(Leads(path, patch), diffs, l) && LastLead(diffs, path, patch).value == diffs[l]
    ensures LastCapture(diffs, path, patch) != LastLead(diffs, path, patch)
  {
  }

  // ---- what a line's report means ----

  /** A committed line is attributed exactly when its commit's patch was captured, and then to the last capture. */
  lemma CommittedLine(diffs: seq<TraceEvent>, path: string, blame: map<nat, string>, patchOf: string -> Option<string>, n: nat)
    requires !Uncommitted(blame, n)
    ensures var line := LineBlame(diffs, path, blame, patchOf, n);
            && line.commit == Some(blame[n]) && line.confidence != ByWorkingDiff
            && (line.confidence == ByCommit <==>
                  exists k | 0 <= k < |diffs| ::
                    patchOf(blame[n]).Some? && HasPatch(Changes(diffs[k]), path, patchOf(blame[n]).value))
            && (line.confidence == ByCommit ==>
                  exists k: nat :: LastIndex(Carries(path, patchOf(blame[n]).value), diffs, k)
                              && line.sourceEventId == Some(diffs[k].eventId) && line.sessionId == diffs[k].sessionId)
  {
    if patchOf(blame[n]).Some? {
      var p := Carries(path, patchOf(blame[n]).value);
      var k := LastHasIndex(p, diffs);
      assert forall j | 0 <= j < |diffs| :: p(diffs[j]) <==> HasPatch(Changes(diffs[j]), path, patchOf(blame[n]).value);
    }
  }

  /** An uncommitted line is attributed exactly when a non-empty hunk of the last working diff covers it, and then to that diff. */
  lemma UncommittedLine(diffs: seq<TraceEvent>, path: string, blame: map<nat, string>, patchOf: string -> Option<string>, n: nat)
    requires Uncommitted(blame, n)
    ensures var line := LineBlame(diffs, path, blame, patchOf, n);
            && line.commit == None && line.confidence != ByCommit
            && (line.confidence == ByWorkingDiff <==>
                  exists k: nat :: LastIndex(IsWorking, diffs, k) && ChangesCover(Changes(diffs[k]), path, n)
                              && line.sourceEventId == Some(diffs[k].eventId))
            && (line.confidence == Unattributed ==> line == BlankLine(n))
  {
    var k := LastHasIndex(IsWorking, diffs);
    if line: nat :| LastIndex(IsWorking, diffs, line) {
      LastIs(IsWorking, diffs, line);
    }
  }

  /** Within 64 bits a hunk covers its `newLines` lines from `newStart` on. */
  lemma HunkCoversItsLines(h: DiffHunk, n: nat)
    requires h.newStart + h.newLines <= U64_LIMIT
    ensures HunkCovers(h, n) <==> h.newStart <= n < h.newStart + h.newLines
  {
  }

  // ---- what the hunk ranges are used for ----

  /** Some commit's slice of the file is a patch that the event captured: its diff has been committed. */
  ghost predicate Committed(e: TraceEvent, path: string, patchOf: string -> Option<string>) {
    exists sha :: patchOf(sha).Some? && HasPatch(Changes(e), path, patchOf(sha).value)
  }

  /** Every line that is attributed by hunk ranges is attributed to a diff that is still uncommitted. */
  ghost predicate OverlaysOnlyUncommitted(diffs: seq<TraceEvent>, path: string, blame: map<nat, string>,
                                          patchOf: string -> Option<string>, lineCount: nat) {
    forall n, e | 1 <= n <= lineCount && e in diffs && LineBlame(diffs, path, blame, patchOf, n).confidence == ByWorkingDiff ::
      LineBlame(diffs, path, blame, patchOf, n).sourceEventId == Some(e.eventId) ==> !Committed(e, path, patchOf)
  }

  /**
   * Hunk ranges are used for uncommitted diffs only exactly when the last working diff is uncommitted
   * itself, or has no hunk over a line of the file that git reports as uncommitted.
   */
  lemma OverlaysOnlyUncommittedIff(diffs: seq<TraceEvent>, path: string, blame: map<nat, string>,
                                   patchOf: string -> Option<string>, lineCount: nat)
    requires DistinctEvents(diffs)
    ensures var w := LastWorking(diffs);
            OverlaysOnlyUncommitted(diffs, path, blame, patchOf, lineCount)
            <==> w.None? || !Committed(w.value, path, patchOf)
                 || forall n | 1 <= n <= lineCount && ChangesCover(Changes(w.value), path, n) :: !Uncommitted(blame, n)
  {
    var w := LastWorking(diffs);
    var k := LastHasIndex(IsWorking, diffs);
    forall n
      ensures LineBlame(diffs, path, blame, patchOf, n).confidence == ByWorkingDiff
         <==> w.Some? && ChangesCover(Changes(w.value), path, n) && Uncommitted(blame, n)
    {
    }
    if w.Some? {
      assert w.value in diffs;
      forall e | e in diffs && e.eventId == w.value.eventId
        ensures e == w.value
      {
        var j :| 0 <= j < |diffs| && diffs[j] == e;
        assert !(j < k) && !(k < j);
      }
    }
  }

  /**
   * The overlay does not ask whether the working diff has been committed since. Here it has: its patch
   * is that of line 1's commit, and line 2, edited afterwards, is still attributed to it.
   */
  lemma CommittedDiffStillOverlays(e: TraceEvent, path: string, patch: string, sha: string)
    returns (diffs: seq<TraceEvent>, blame: map<nat, string>, patchOf: string -> Option<string>)
    requires !IsZeroSha(sha)
    ensures DiffEvents(diffs, path) == diffs && !OverlaysOnlyUncommitted(diffs, path, blame, patchOf, 2)
    ensures 1 in blame && blame[1] == sha && patchOf(sha) == Some(patch) && Uncommitted(blame, 2)
    ensures var line1, line2 := LineBlame(diffs, path, blame, patchOf, 1), LineBlame(diffs, path, blame, patchOf, 2);
            && line1.confidence == ByCommit && line2.confidence == ByWorkingDiff
            && line1.sourceEventId == line2.sourceEventId
  {
    patchOf := s => if s == sha then Some(patch) else None;
    var change := FileChange(path, None, Modified, Some(2), Some(0), [DiffHunk(1, 0, 1, 2, None)], Some(patch));
    var w := e.(eventType := DiffCaptured, payload := DiffPayload(DiffTarget.Working, [change], None));
    assert Changes(w) == [change];
    diffs, blame := [w], map[1 := sha, 2 := "0"];
    assert w.payload.fileChanges[0] == change && TouchesPath(w, path);
    assert diffs[1..] == [];
    assert ChangeHasPatch(Changes(w)[0], path, patch) && HasPatch(Changes(w), path, patch);
    LastIs(Carries(path, patch), diffs, 0);
    LastIs(IsWorking, diffs, 0);
    assert HunkCovers(change.hunks[0], 2) && HunksCover(change.hunks, 2);
    assert Changes(w)[0].path == path && ChangesCover(Changes(w), path, 2);
    assert patchOf(sha) == Some(patch) && Committed(w, path, patchOf);
    OverlaysOnlyUncommittedIff(diffs, path, blame, patchOf, 2);
  }
}
