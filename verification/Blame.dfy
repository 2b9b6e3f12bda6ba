/**
 * Line blame (crates/core/src/blame.rs): each current line of a file is mapped to the capture that
 * produced it. The output of `git blame`, the patch id of a commit's slice of the file and the
 * file's line count are inputs.
 */
module Blame {
  import opened Base
  import opened Events

  datatype Confidence = ByCommit | ByWorkingDiff | Unattributed

  datatype BlameLine = BlameLine(
    lineNo: nat,
    sessionId: Option<string>, actorType: Option<string>, actorId: Option<string>, missionId: Option<string>,
    commit: Option<string>, occurredAt: Option<Instant>, sourceEventId: Option<EventId>,
    confidence: Confidence)

  datatype Attribution = Attribution(
    sessionId: Option<string>, actorType: string, actorId: string, missionId: Option<string>,
    occurredAt: Instant, eventId: EventId)

  function AttributionOf(e: TraceEvent): Attribution {
    Attribution(e.sessionId, e.actor.actorType, e.actor.actorId, e.missionId, e.occurredAt, e.eventId)
  }

  function ApplyAttr(line: BlameLine, attr: Attribution, confidence: Confidence): BlameLine {
    line.(sessionId := attr.sessionId, actorType := Some(attr.actorType), actorId := Some(attr.actorId),
          missionId := attr.missionId, occurredAt := Some(attr.occurredAt), sourceEventId := Some(attr.eventId),
          confidence := confidence)
  }

  /** True of the empty string as well. */
  predicate IsZeroSha(sha: string) {
    forall i | 0 <= i < |sha| :: sha[i] == '0'
  }

  function BlankLine(n: nat): BlameLine {
    BlameLine(n, None, None, None, None, None, None, None, Unattributed)
  }

  // ---- what the lines are attributed to ----

  predicate TouchesPath(e: TraceEvent, path: string) {
    e.eventType == DiffCaptured && e.payload.DiffPayload?
    && exists c | 0 <= c < |e.payload.fileChanges| :: e.payload.fileChanges[c].path == path
  }

  function Changes(e: TraceEvent): seq<FileChange> {
    if e.payload.DiffPayload? then e.payload.fileChanges else []
  }

  predicate IsWorking(e: TraceEvent) {
    e.payload.DiffPayload? && e.payload.target == DiffTarget.Working
  }

  predicate ChangeHasPatch(change: FileChange, path: string, patch: string) {
    change.path == path && change.patchId == Some(patch)
  }

  /** Some change of the path carries the patch id. */
  predicate HasPatch(changes: seq<FileChange>, path: string, patch: string) {
    exists c | 0 <= c < |changes| :: ChangeHasPatch(changes[c], path, patch)
  }

  function Carries(path: string, patch: string): TraceEvent -> bool {
    e => HasPatch(Changes(e), path, patch)
  }

  /** The last capture, in log order, of this patch of the file. */
  function LastCapture(diffs: seq<TraceEvent>, path: string, patch: string): Option<TraceEvent> {
    Last(Carries(path, patch), diffs)
  }

  function LastWorking(diffs: seq<TraceEvent>): Option<TraceEvent> {
    Last(IsWorking, diffs)
  }

  /** The hunk's last line, in the arithmetic of unsigned 64-bit integers. */
  function HunkEnd(h: DiffHunk): nat {
    (h.newStart + h.newLines - 1) % U64_LIMIT
  }

  predicate HunkCovers(h: DiffHunk, n: nat) {
    h.newLines != 0 && h.newStart <= n <= HunkEnd(h)
  }

  predicate HunksCover(hunks: seq<DiffHunk>, n: nat) {
    exists i | 0 <= i < |hunks| :: HunkCovers(hunks[i], n)
  }

  predicate ChangesCover(changes: seq<FileChange>, path: string, n: nat) {
    exists c | 0 <= c < |changes| :: changes[c].path == path && HunksCover(changes[c].hunks, n)
  }

  predicate Uncommitted(blame: map<nat, string>, n: nat) {
    n in blame ==> IsZeroSha(blame[n])
  }

  /**
   * What blame reports for line `n`: the last capture of its commit's patch, or, for a line git
   * reports as uncommitted, the last working diff if one of its hunks covers the line.
   */
  function LineBlame(diffs: seq<TraceEvent>, path: string, blame: map<nat, string>, patchOf: string -> Option<string>,
                     n: nat): BlameLine {
    if Uncommitted(blame, n) then
      var w := LastWorking(diffs);
      if w.Some? && ChangesCover(Changes(w.value), path, n)
      then ApplyAttr(BlankLine(n), AttributionOf(w.value), ByWorkingDiff)
      else BlankLine(n)
    else
      var line := BlankLine(n).(commit := Some(blame[n]));
      var patch := patchOf(blame[n]);
      var captured := if patch.Some? then LastCapture(diffs, path, patch.value) else None;
      if captured.Some? then ApplyAttr(line, AttributionOf(captured.value), ByCommit) else line
  }

  /** The diff events that touch the path, in log order. */
  function DiffEvents(events: seq<TraceEvent>, path: string): seq<TraceEvent> {
    Filter(e => TouchesPath(e, path), events)
  }

  // ---- the capture index ----

  method CollectDiffEvents(events: seq<TraceEvent>, path: string) returns (diffs: seq<TraceEvent>)
    ensures diffs == DiffEvents(events, path)
  {
    diffs := [];
    ghost var p := (e: TraceEvent) => TouchesPath(e, path);
    for i := 0 to |events|
      invariant diffs == Filter(p, events[..i])
    {
      FilterAppend(p, events[..i], [events[i]]);
      FilterCons(p, events[i], []);
      assert events[..i + 1] == events[..i] + [events[i]] && [events[i]] + [] == [events[i]];
      if TouchesPath(events[i], path) {
        diffs := diffs + [events[i]];
      }
    }
    assert events[..|events|] == events;
    SameFilter(p, events, path);
  }

  lemma {:induction false} SameFilter(p: TraceEvent -> bool, events: seq<TraceEvent>, path: string)
    requires forall e :: p(e) <==> TouchesPath(e, path)
    ensures Filter(p, events) == DiffEvents(events, path)
  {
    if events != [] {
      SameFilter(p, events[1..], path);
    }
  }

  /** The table says what `found` says, keyed by patch id. */
  ghost predicate Indexes(table: map<string, Attribution>, diffs: seq<TraceEvent>, path: string) {
    forall patch ::
      && (patch in table <==> LastCapture(diffs, path, patch).Some?)
      && (patch in table ==> table[patch] == AttributionOf(LastCapture(diffs, path, patch).value))
  }

  /** The same in the middle of an event, `e`, after its first changes. */
  ghost predicate IndexesAlso(table: map<string, Attribution>, before: map<string, Attribution>, e: TraceEvent,
                              changes: seq<FileChange>, path: string) {
    forall patch ::
      && (patch in table <==> patch in before || HasPatch(changes, path, patch))
      && (patch in table ==>
            table[patch] == if HasPatch(changes, path, patch) then AttributionOf(e) else before[patch])
  }

  lemma HasPatchStep(changes: seq<FileChange>, c: nat, path: string, patch: string)
    requires c < |changes|
    ensures HasPatch(changes[..c + 1], path, patch)
       <==> HasPatch(changes[..c], path, patch) || ChangeHasPatch(changes[c], path, patch)
  {
  }

  method IndexChanges(before: map<string, Attribution>, e: TraceEvent, path: string) returns (table: map<string, Attribution>)
    ensures IndexesAlso(table, before, e, Changes(e), path)
  {
    table := before;
    var changes := Changes(e);
    for c := 0 to |changes|
      invariant IndexesAlso(table, before, e, changes[..c], path)
    {
      forall patch
        ensures HasPatch(changes[..c + 1], path, patch)
           <==> HasPatch(changes[..c], path, patch) || ChangeHasPatch(changes[c], path, patch)
      {
        HasPatchStep(changes, c, path, patch);
      }
      if changes[c].path == path && changes[c].patchId.Some? {
        table := table[changes[c].patchId.value := AttributionOf(e)];
      }
    }
    assert changes[..|changes|] == changes;
  }

  /** Later captures overwrite earlier ones; the last working diff is remembered apart. */
  method IndexCaptures(diffs: seq<TraceEvent>, path: string)
    returns (table: map<string, Attribution>, latestWorking: Option<TraceEvent>)
    ensures Indexes(table, diffs, path)
    ensures latestWorking == LastWorking(diffs)
  {
    table, latestWorking := map[], None;
    for i := 0 to |diffs|
      invariant Indexes(table, diffs[..i], path)
      invariant latestWorking == LastWorking(diffs[..i])
    {
      assert diffs[..i + 1][..i] == diffs[..i];
      table := IndexChanges(table, diffs[i], path);
      if IsWorking(diffs[i]) {
        latestWorking := Some(diffs[i]);
      }
    }
    assert diffs[..|diffs|] == diffs;
  }

  // ---- the overlay ----

  /** The line after an overlay that covers it, or does not. */
  function Overlaid(line: BlameLine, attr: Attribution, blame: map<nat, string>, covered: bool): BlameLine {
    if covered && Uncommitted(blame, line.lineNo) then ApplyAttr(line, attr, ByWorkingDiff) else line
  }

  /** One hunk over every line, in place. */
  method OverlayHunk(lines: array<BlameLine>, attr: Attribution, blame: map<nat, string>, hunk: DiffHunk)
    requires forall k | 0 <= k < lines.Length :: lines[k].lineNo == k + 1
    modifies lines
    ensures forall k | 0 <= k < lines.Length ::
              lines[k] == Overlaid(old(lines[k]), attr, blame, HunkCovers(hunk, k + 1))
  {
    if hunk.newLines == 0 {
      return;
    }
    var start, end := hunk.newStart, (hunk.newStart + hunk.newLines - 1) % U64_LIMIT;
    for i := 0 to lines.Length
      invariant forall k | 0 <= k < i :: lines[k] == Overlaid(old(lines[k]), attr, blame, HunkCovers(hunk, k + 1))
      invariant forall k | i <= k < lines.Length :: lines[k] == old(lines[k])
    {
      var n := lines[i].lineNo;
      var uncommitted := if n in blame then IsZeroSha(blame[n]) else true;
      if uncommitted && start <= n <= end {
        lines[i] := ApplyAttr(lines[i], attr, ByWorkingDiff);
      }
    }
  }

  method OverlayHunks(lines: array<BlameLine>, attr: Attribution, blame: map<nat, string>, hunks: seq<DiffHunk>)
    requires forall k | 0 <= k < lines.Length :: lines[k].lineNo == k + 1
    modifies lines
    ensures forall k | 0 <= k < lines.Length ::
              lines[k] == Overlaid(old(lines[k]), attr, blame, HunksCover(hunks, k + 1))
  {
    for h := 0 to |hunks|
      invariant forall k | 0 <= k < lines.Length ::
                  lines[k] == Overlaid(old(lines[k]), attr, blame, HunksCover(hunks[..h], k + 1))
    {
      OverlayHunk(lines, attr, blame, hunks[h]);
      forall n: nat
        ensures HunksCover(hunks[..h + 1], n) <==> HunksCover(hunks[..h], n) || HunkCovers(hunks[h], n)
      {
        HunksCoverStep(hunks, h, n);
      }
    }
    assert hunks[..|hunks|] == hunks;
  }

  lemma HunksCoverStep(hunks: seq<DiffHunk>, h: nat, n: nat)
    requires h < |hunks|
    ensures HunksCover(hunks[..h + 1], n) <==> HunksCover(hunks[..h], n) || HunkCovers(hunks[h], n)
  {
  }

  method OverlayChanges(lines: array<BlameLine>, attr: Attribution, blame: map<nat, string>, changes: seq<FileChange>,
                        path: string)
    requires forall k | 0 <= k < lines.Length :: lines[k].lineNo == k + 1
    modifies lines
    ensures forall k | 0 <= k < lines.Length ::
              lines[k] == Overlaid(old(lines[k]), attr, blame, ChangesCover(changes, path, k + 1))
  {
    for c := 0 to |changes|
      invariant forall k | 0 <= k < lines.Length ::
                  lines[k] == Overlaid(old(lines[k]), attr, blame, ChangesCover(changes[..c], path, k + 1))
    {
      if changes[c].path == path {
        OverlayHunks(lines, attr, blame, changes[c].hunks);
      }
      forall n: nat
        ensures ChangesCover(changes[..c + 1], path, n)
           <==> ChangesCover(changes[..c], path, n) || (changes[c].path == path && HunksCover(changes[c].hunks, n))
      {
        ChangesCoverStep(changes, c, path, n);
      }
    }
    assert changes[..|changes|] == changes;
  }

  lemma ChangesCoverStep(changes: seq<FileChange>, c: nat, path: string, n: nat)
    requires c < |changes|
    ensures ChangesCover(changes[..c + 1], path, n)
       <==> ChangesCover(changes[..c], path, n) || (changes[c].path == path && HunksCover(changes[c].hunks, n))
  {
  }

  // ---- blame ----

  /** The line before the overlay. */
  function CommittedBlame(diffs: seq<TraceEvent>, path: string, blame: map<nat, string>, patchOf: string -> Option<string>,
                          n: nat): BlameLine {
    if Uncommitted(blame, n) then BlankLine(n) else LineBlame(diffs, path, blame, patchOf, n)
  }

  /** One line's committed part; the patch id of each commit is looked up once. */
  method BlameCommit(diffs: seq<TraceEvent>, path: string, patchToAttr: map<string, Attribution>, blame: map<nat, string>,
                     patchOf: string -> Option<string>, memo: map<string, Option<string>>, n: nat)
    returns (line: BlameLine, memo': map<string, Option<string>>)
    requires Indexes(patchToAttr, diffs, path)
    requires forall commit | commit in memo :: memo[commit] == patchOf(commit)
    ensures line == CommittedBlame(diffs, path, blame, patchOf, n)
    ensures forall commit | commit in memo' :: memo'[commit] == patchOf(commit)
  {
    line, memo' := BlankLine(n), memo;
    if n in blame && !IsZeroSha(blame[n]) {
      var commit := blame[n];
      line := line.(commit := Some(commit));
      if commit !in memo' {
        memo' := memo'[commit := patchOf(commit)];
      }
      var patch := memo'[commit];
      if patch.Some? && patch.value in patchToAttr {
        line := ApplyAttr(line, patchToAttr[patch.value], ByCommit);
      }
    }
  }

  method BlameCommits(diffs: seq<TraceEvent>, path: string, patchToAttr: map<string, Attribution>, lineCount: nat,
                      blame: map<nat, string>, patchOf: string -> Option<string>)
    returns (lines: array<BlameLine>)
    requires Indexes(patchToAttr, diffs, path)
    ensures fresh(lines) && lines.Length == lineCount
    ensures forall k | 0 <= k < lineCount :: lines[k] == CommittedBlame(diffs, path, blame, patchOf, k + 1)
  {
    var commitPatchIds: map<string, Option<string>> := map[];
    lines := new BlameLine[lineCount](i => BlankLine(0));
    for i := 0 to lineCount
      invariant forall commit | commit in commitPatchIds :: commitPatchIds[commit] == patchOf(commit)
      invariant forall k | 0 <= k < i :: lines[k] == CommittedBlame(diffs, path, blame, patchOf, k + 1)
    {
      var line;
      line, commitPatchIds := BlameCommit(diffs, path, patchToAttr, blame, patchOf, commitPatchIds, i + 1);
      lines[i] := line;
    }
  }

  lemma OverlaidIsLineBlame(diffs: seq<TraceEvent>, path: string, blame: map<nat, string>,
                            patchOf: string -> Option<string>, n: nat)
    ensures var w, line := LastWorking(diffs), CommittedBlame(diffs, path, blame, patchOf, n);
            LineBlame(diffs, path, blame, patchOf, n)
            == if w.Some? then Overlaid(line, AttributionOf(w.value), blame, ChangesCover(Changes(w.value), path, n)) else line
    ensures CommittedBlame(diffs, path, blame, patchOf, n).lineNo == n
  {
  }

  method BlameFile(events: seq<TraceEvent>, path: string, lineCount: nat, blame: map<nat, string>,
                   patchOf: string -> Option<string>)
    returns (lines: array<BlameLine>)
    ensures fresh(lines) && lines.Length == lineCount
    ensures forall k | 0 <= k < lineCount ::
              lines[k] == LineBlame(DiffEvents(events, path), path, blame, patchOf, k + 1)
  {
    var diffs := CollectDiffEvents(events, path);
    var patchToAttr, latestWorking := IndexCaptures(diffs, path);
    lines := BlameCommits(diffs, path, patchToAttr, lineCount, blame, patchOf);
    forall k | 0 <= k < lineCount
      ensures lines[k].lineNo == k + 1
      ensures LineBlame(diffs, path, blame, patchOf, k + 1)
           == if latestWorking.Some?
              then Overlaid(lines[k], AttributionOf(latestWorking.value), blame,
                            ChangesCover(Changes(latestWorking.value), path, k + 1))
              else lines[k]
    {
      OverlaidIsLineBlame(diffs, path, blame, patchOf, k + 1);
    }
    if latestWorking.Some? {
      OverlayChanges(lines, AttributionOf(latestWorking.value), blame, Changes(latestWorking.value), path);
    }
  }
}
