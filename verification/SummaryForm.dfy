/** The text that a diff's summary hash is taken over (crates/core/src/diff_capture.rs). */
module SummaryForm {
  import opened Base
  import opened Decimal
  import opened Events
  import opened Sorting
  import opened Text

  /** `Option<String>` comparison: absent before present. */
  predicate OptionLe(a: Option<string>, b: Option<string>) {
    a.None? || (b.Some? && StringLe(a.value, b.value))
  }

  /** By path, then by old path. */
  predicate ByPaths(x: FileChange, y: FileChange) {
    if x.path == y.path then OptionLe(x.oldPath, y.oldPath) else StringLe(x.path, y.path)
  }

  function TargetName(target: DiffTarget): string {
    match target
    case Working => "Working"
    case Staged => "Staged"
    case Range => "Range"
  }

  function KindName(kind: ChangeKind): string {
    match kind
    case Added => "Added"
    case Modified => "Modified"
    case Deleted => "Deleted"
    case Renamed => "Renamed"
    case Copied => "Copied"
    case TypeChanged => "TypeChanged"
    case UnknownChange => "Unknown"
  }

  function CountName(count: Option<nat>): string {
    if count.Some? then ToString(count.value) else "-"
  }

  function HunkText(h: DiffHunk): string {
    "\thunk\t" + ToString(h.oldStart) + "\t" + ToString(h.oldLines) + "\t"
    + ToString(h.newStart) + "\t" + ToString(h.newLines) + "\n"
  }

  function HunksText(hunks: seq<DiffHunk>): string {
    if hunks == [] then "" else HunksText(hunks[..|hunks| - 1]) + HunkText(hunks[|hunks| - 1])
  }

  function ChangeLine(change: FileChange): string {
    OrEmpty(change.oldPath) + "\t" + change.path + "\t" + KindName(change.kind) + "\t"
    + CountName(change.additions) + "\t" + CountName(change.deletions) + "\n"
  }

  function ChangeText(change: FileChange): string {
    ChangeLine(change) + HunksText(change.hunks)
  }

  function ChangesText(changes: seq<FileChange>): string {
    Concat(ChangeText, changes)
  }

  function Preamble(target: DiffTarget, baseCommit: Option<string>, headCommit: Option<string>): string {
    "target=" + TargetName(target) + "\n" + ("base=" + OrEmpty(baseCommit) + "\n") + ("head=" + OrEmpty(headCommit) + "\n")
  }

  function Normalized(target: DiffTarget, baseCommit: Option<string>, headCommit: Option<string>, changes: seq<FileChange>): string {
    Preamble(target, baseCommit, headCommit) + ChangesText(Sort(ByPaths, changes))
  }

  /** Pushes each sorted change and its hunks onto a string. */
  method Normalize(target: DiffTarget, baseCommit: Option<string>, headCommit: Option<string>, changes: seq<FileChange>)
    returns (normalized: string)
    ensures normalized == Normalized(target, baseCommit, headCommit, changes)
  {
    normalized := "target=" + TargetName(target) + "\n";
    normalized := normalized + ("base=" + OrEmpty(baseCommit) + "\n");
    normalized := normalized + ("head=" + OrEmpty(headCommit) + "\n");
    normalized := PushChanges(normalized, Sort(ByPaths, changes));
  }

  method PushChanges(start: string, changes: seq<FileChange>) returns (s: string)
    ensures s == start + ChangesText(changes)
  {
    s := start;
    assert start + ChangesText(changes[..0]) == start;
    for i := 0 to |changes|
      invariant s == start + ChangesText(changes[..i])
    {
      assert changes[..i + 1][..i] == changes[..i];
      Regroup(start, ChangesText(changes[..i]), ChangeLine(changes[i]), HunksText(changes[i].hunks));
      s := s + ChangeLine(changes[i]);
      s := PushHunks(s, changes[i].hunks);
    }
    assert changes[..|changes|] == changes;
  }

  lemma Regroup(a: string, b: string, c: string, d: string)
    ensures a + b + c + d == a + (b + (c + d))
  {
  }

  method PushHunks(start: string, hunks: seq<DiffHunk>) returns (s: string)
    ensures s == start + HunksText(hunks)
  {
    s := start;
    assert start + HunksText(hunks[..0]) == start;
    for i := 0 to |hunks|
      invariant s == start + HunksText(hunks[..i])
    {
      assert hunks[..i + 1][..i] == hunks[..i];
      s := s + HunkText(hunks[i]);
    }
    assert hunks[..|hunks|] == hunks;
  }

  // ---- the order ----

  lemma OptionLeTotal(a: Option<string>, b: Option<string>)
    ensures OptionLe(a, b) || OptionLe(b, a)
  {
    if a.Some? && b.Some? {
      StringLeTotal(a.value, b.value);
    }
  }

  lemma OptionLeTransitive(a: Option<string>, b: Option<string>, c: Option<string>)
    requires OptionLe(a, b) && OptionLe(b, c)
    ensures OptionLe(a, c)
  {
    if a.Some? {
      StringLeTransitive(a.value, b.value, c.value);
    }
  }

  lemma ByPathsTransitive(x: FileChange, y: FileChange, z: FileChange)
    requires ByPaths(x, y) && ByPaths(y, z)
    ensures ByPaths(x, z)
  {
    if x.path == y.path == z.path {
      OptionLeTransitive(x.oldPath, y.oldPath, z.oldPath);
    } else if x.path != y.path && y.path != z.path {
      StringLeTransitive(x.path, y.path, z.path);
      if x.path == z.path {
        StringLeAntisymmetric(x.path, y.path);
      }
    }
  }

  lemma ByPathsIsPreorder()
    ensures TotalPreorder(ByPaths)
  {
    forall x, y
      ensures ByPaths(x, y) || ByPaths(y, x)
    {
      OptionLeTotal(x.oldPath, y.oldPath);
      StringLeTotal(x.path, y.path);
    }
    forall x, y, z | ByPaths(x, y) && ByPaths(y, z)
      ensures ByPaths(x, z)
    {
      ByPathsTransitive(x, y, z);
    }
  }

  predicate SamePaths(x: FileChange, y: FileChange) {
    x.path == y.path && x.oldPath == y.oldPath
  }

  ghost predicate TextsCommute(x: FileChange, y: FileChange) {
    ChangesText([x]) + ChangesText([y]) == ChangesText([y]) + ChangesText([x])
  }

  lemma TieMeansSamePaths(x: FileChange, y: FileChange)
    ensures Ties(ByPaths, x, y) <==> SamePaths(x, y)
  {
    if Ties(ByPaths, x, y) {
      if x.path == y.path {
        if x.oldPath.Some? && y.oldPath.Some? {
          StringLeAntisymmetric(x.oldPath.value, y.oldPath.value);
        }
      } else {
        StringLeAntisymmetric(x.path, y.path);
      }
    } else if x.path == y.path && x.oldPath == y.oldPath {
      OptionLeTotal(x.oldPath, y.oldPath);
    }
  }

  // ---- neighbours of the same paths ----

  lemma PairInside(a: seq<FileChange>, x: FileChange, y: FileChange, b: seq<FileChange>)
    ensures ChangesText(Around(a, x, y, b)) == ChangesText(a) + (ChangesText([x]) + ChangesText([y])) + ChangesText(b)
  {
    ConcatAppend(ChangeText, a + [x, y], b);
    ConcatAppend(ChangeText, a, [x, y]);
    ConcatAppend(ChangeText, [x], [y]);
    assert [x] + [y] == [x, y];
  }

  lemma SameInside(front: string, s: string, t: string, back: string)
    requires |s| == |t|
    ensures front + (s + back) == front + (t + back) <==> s == t
  {
    var u, v := front + (s + back), front + (t + back);
    if u == v {
      assert s == u[|front|..|front| + |s|] && t == v[|front|..|front| + |t|];
    }
  }

  /**
   * Anywhere in a list, neighbouring changes of the same paths keep their order through the sort, so
   * swapping them changes the form exactly when their texts do not commute.
   */
  lemma SamePathsKeepOrder(target: DiffTarget, baseCommit: Option<string>, headCommit: Option<string>,
                           pre: seq<FileChange>, x: FileChange, y: FileChange, post: seq<FileChange>)
    requires SamePaths(x, y)
    ensures Normalized(target, baseCommit, headCommit, Around(pre, x, y, post))
         == Normalized(target, baseCommit, headCommit, Around(pre, y, x, post))
       <==> TextsCommute(x, y)
  {
    TieMeansSamePaths(x, y);
    ByPathsIsPreorder();
    var a, b := SortSwap(ByPaths, pre, x, y, post);
    PairInside(a, x, y, b);
    PairInside(a, y, x, b);
    var front, tx, ty := Preamble(target, baseCommit, headCommit), ChangesText([x]), ChangesText([y]);
    FormSplit(front, ChangesText(a), tx + ty, ChangesText(b));
    FormSplit(front, ChangesText(a), ty + tx, ChangesText(b));
    SameInside(front + ChangesText(a), tx + ty, ty + tx, ChangesText(b));
  }

  lemma FormSplit(front: string, a: string, s: string, b: string)
    ensures front + (a + s + b) == front + a + (s + b)
  {
  }

  // ---- any order ----

  /** The texts of changes of the same paths commute. */
  ghost predicate TiesCommute(m: multiset<FileChange>) {
    forall x, y | x in m && y in m && SamePaths(x, y) :: TextsCommute(x, y)
  }

  lemma TextOfTwo(x: FileChange, y: FileChange, rest: seq<FileChange>)
    ensures ChangesText([x] + ([y] + rest)) == ChangesText([x]) + ChangesText([y]) + ChangesText(rest)
  {
    assert [x] + ([y] + rest) == ([x] + [y]) + rest;
    ConcatAppend(ChangeText, [x] + [y], rest);
    ConcatAppend(ChangeText, [x], [y]);
  }

  lemma SwapFirstTwo(x: FileChange, y: FileChange, rest: seq<FileChange>)
    requires TextsCommute(x, y)
    ensures ChangesText([x] + ([y] + rest)) == ChangesText([y] + ([x] + rest))
  {
    TextOfTwo(x, y, rest);
    TextOfTwo(y, x, rest);
  }

  lemma SameBehind(x: FileChange, a: seq<FileChange>, b: seq<FileChange>)
    requires ChangesText(a) == ChangesText(b)
    ensures ChangesText([x] + a) == ChangesText([x] + b)
  {
    ConcatAppend(ChangeText, [x], a);
    ConcatAppend(ChangeText, [x], b);
  }

  lemma Shifted(front: seq<FileChange>, back: seq<FileChange>)
    requires front != []
    ensures front + back == [front[0]] + (front[1..] + back)
  {
    assert front == [front[0]] + front[1..];
  }

  /** A change may be moved ahead of a list of changes whose texts commute with its own. */
  lemma {:induction false} MoveAhead(front: seq<FileChange>, h: FileChange, back: seq<FileChange>)
    requires forall x | x in front :: TextsCommute(x, h)
    ensures ChangesText(front + ([h] + back)) == ChangesText([h] + (front + back))
  {
    if front == [] {
      assert front + ([h] + back) == [h] + (front + back);
    } else {
      var x, rest := front[0], front[1..];
      MoveAhead(rest, h, back);
      Shifted(front, [h] + back);
      Shifted(front, back);
      SameBehind(x, rest + ([h] + back), [h] + (rest + back));
      SwapFirstTwo(x, h, rest + back);
    }
  }

  /** In a sorted list, whatever stands before a least element has the same paths as it. */
  lemma AheadOfLeast(b: seq<FileChange>, k: nat, h: FileChange)
    requires TotalPreorder(ByPaths) && Sorted(ByPaths, b) && k < |b| && b[k] == h
    requires forall y | y in multiset(b) :: ByPaths(h, y)
    ensures forall x | x in b[..k] :: SamePaths(x, h)
  {
    forall x | x in b[..k]
      ensures SamePaths(x, h)
    {
      assert x in multiset(b) && ByPaths(x, h);
      TieMeansSamePaths(x, h);
    }
  }

  lemma WithoutOne(b: seq<FileChange>, k: nat)
    requires k < |b|
    ensures b == b[..k] + ([b[k]] + b[k + 1..])
    ensures multiset(b[..k] + b[k + 1..]) == multiset(b) - multiset{b[k]}
  {
    assert b == b[..k] + ([b[k]] + b[k + 1..]);
    assert multiset(b) == multiset(b[..k]) + (multiset{b[k]} + multiset(b[k + 1..]));
  }

  lemma SortedWithoutOne(b: seq<FileChange>, k: nat)
    requires k < |b| && Sorted(ByPaths, b)
    ensures Sorted(ByPaths, b[..k] + b[k + 1..])
  {
  }

  /** A least element of a sorted list may be moved to its front. */
  lemma MoveLeastAhead(b: seq<FileChange>, h: FileChange) returns (rest: seq<FileChange>)
    requires TotalPreorder(ByPaths) && Sorted(ByPaths, b) && TiesCommute(multiset(b)) && h in multiset(b)
    requires forall y | y in multiset(b) :: ByPaths(h, y)
    ensures Sorted(ByPaths, rest) && multiset(rest) == multiset(b) - multiset{h}
    ensures ChangesText(b) == ChangesText([h] + rest)
  {
    var k :| 0 <= k < |b| && b[k] == h;
    AheadOfLeast(b, k, h);
    WithoutOne(b, k);
    SortedWithoutOne(b, k);
    rest := b[..k] + b[k + 1..];
    forall x | x in b[..k]
      ensures TextsCommute(x, h)
    {
      assert x in multiset(b);
    }
    MoveAhead(b[..k], h, b[k + 1..]);
  }

  lemma FirstIsLeast(a: seq<FileChange>)
    requires TotalPreorder(ByPaths) && Sorted(ByPaths, a) && a != []
    ensures forall y | y in multiset(a) :: ByPaths(a[0], y)
  {
    forall y | y in multiset(a)
      ensures ByPaths(a[0], y)
    {
      SortedHead(ByPaths, a, y);
    }
  }

  /** Two sorted arrangements of the same changes have the same text when texts of the same paths commute. */
  lemma {:induction false} SortedTextsAgree(a: seq<FileChange>, b: seq<FileChange>)
    requires TotalPreorder(ByPaths) && Sorted(ByPaths, a) && Sorted(ByPaths, b)
    requires multiset(a) == multiset(b) && TiesCommute(multiset(a))
    ensures ChangesText(a) == ChangesText(b)
  {
    SameLength(a, b);
    if a != [] {
      var h, tail := a[0], a[1..];
      assert a == [h] + tail && h in multiset(a);
      FirstIsLeast(a);
      var rest := MoveLeastAhead(b, h);
      TailMultiset(a);
      SortedTail(ByPaths, a);
      SortedTextsAgree(tail, rest);
      SameBehind(h, tail, rest);
    }
  }

  lemma FormFromText(target: DiffTarget, baseCommit: Option<string>, headCommit: Option<string>,
                     a: seq<FileChange>, b: seq<FileChange>)
    requires multiset(a) == multiset(b) && TiesCommute(multiset(a))
    ensures Normalized(target, baseCommit, headCommit, a) == Normalized(target, baseCommit, headCommit, b)
  {
    ByPathsIsPreorder();
    SortSorted(ByPaths, a);
    SortSorted(ByPaths, b);
    SortedTextsAgree(Sort(ByPaths, a), Sort(ByPaths, b));
  }

  lemma OneFirst(s: seq<FileChange>, x: FileChange) returns (rest: seq<FileChange>)
    requires x in s
    ensures x in multiset(s) && multiset(rest) == multiset(s) - multiset{x}
  {
    var i :| 0 <= i < |s| && s[i] == x;
    rest := s[..i] + s[i + 1..];
    WithoutOne(s, i);
  }

  /** Any two members can be put first. */
  lemma PairFirst(s: seq<FileChange>, x: FileChange, y: FileChange) returns (rest: seq<FileChange>)
    requires x in s && y in s && x != y
    ensures multiset(Around([], x, y, rest)) == multiset(s) == multiset(Around([], y, x, rest))
  {
    var t := OneFirst(s, x);
    assert y in multiset(s);
    assert y in multiset(t);
    rest := OneFirst(t, y);
    PairMultiset(x, y, rest);
    PairMultiset(y, x, rest);
    BackTogether(multiset(s), x, y, multiset(rest));
  }

  lemma BackTogether(m: multiset<FileChange>, x: FileChange, y: FileChange, rest: multiset<FileChange>)
    requires x in m && y in m && x != y && rest == m - multiset{x} - multiset{y}
    ensures multiset{x} + multiset{y} + rest == m == multiset{y} + multiset{x} + rest
  {
  }

  lemma PairMultiset(x: FileChange, y: FileChange, rest: seq<FileChange>)
    ensures multiset(Around([], x, y, rest)) == multiset{x} + multiset{y} + multiset(rest)
  {
    AroundNil(x, y, rest);
  }

  ghost predicate SameFormInAnyOrder(target: DiffTarget, baseCommit: Option<string>, headCommit: Option<string>, s: seq<FileChange>) {
    forall t | multiset(t) == multiset(s) ::
      Normalized(target, baseCommit, headCommit, t) == Normalized(target, baseCommit, headCommit, s)
  }

  /** The form does not depend on the order of the changes exactly when texts of the same paths commute. */
  lemma FormFreeOfOrderIff(target: DiffTarget, baseCommit: Option<string>, headCommit: Option<string>, s: seq<FileChange>)
    ensures SameFormInAnyOrder(target, baseCommit, headCommit, s)
       <==> forall x, y | x in s && y in s && SamePaths(x, y) :: TextsCommute(x, y)
  {
    if SameFormInAnyOrder(target, baseCommit, headCommit, s) {
      forall x, y | x in s && y in s && SamePaths(x, y)
        ensures TextsCommute(x, y)
      {
        if x != y {
          var rest := PairFirst(s, x, y);
          SamePathsKeepOrder(target, baseCommit, headCommit, [], x, y, rest);
        }
      }
    } else {
      var t :| multiset(t) == multiset(s)
            && Normalized(target, baseCommit, headCommit, t) != Normalized(target, baseCommit, headCommit, s);
      if forall x, y | x in s && y in s && SamePaths(x, y) :: TextsCommute(x, y) {
        assert forall x | x in multiset(s) :: x in s;
        FormFromText(target, baseCommit, headCommit, s, t);
      }
    }
  }

  /** Any reordering of the changes has the same form, as long as their paths tell them apart. */
  lemma FormIgnoresOrder(target: DiffTarget, baseCommit: Option<string>, headCommit: Option<string>,
                         a: seq<FileChange>, b: seq<FileChange>)
    requires multiset(a) == multiset(b) && forall x, y | x in a && y in a && SamePaths(x, y) :: x == y
    ensures Normalized(target, baseCommit, headCommit, a) == Normalized(target, baseCommit, headCommit, b)
  {
    FormFreeOfOrderIff(target, baseCommit, headCommit, a);
  }

  lemma OneChange(x: FileChange)
    requires x.hunks == []
    ensures ChangesText([x]) == ChangeLine(x)
  {
    assert [x][..0] == [] && Concat(ChangeText, []) == "" && HunksText(x.hunks) == "";
    assert "" + ChangeText(x) == ChangeText(x) == ChangeLine(x);
  }

  /** Texts that do not commute: one change of the same file adds a line and the other removes one. */
  lemma FormDependsOnOrder() returns (x: FileChange, y: FileChange)
    ensures SamePaths(x, y) && !TextsCommute(x, y)
  {
    x := FileChange("f", None, Modified, Some(1), Some(0), [], None);
    y := FileChange("f", None, Modified, Some(0), Some(1), [], None);
    OneChange(x);
    OneChange(y);
    assert ToString(0) == "0" && ToString(1) == "1";
    CountsTell(OrEmpty(x.oldPath) + "\t" + x.path + "\t" + KindName(x.kind) + "\t", "1", "0");
  }

  lemma CountsTell(front: string, m: string, n: string)
    requires |m| == |n| == 1 && m != n
    ensures var s, t := front + m + "\t" + n + "\n", front + n + "\t" + m + "\n"; s + t != t + s
  {
    var s, t := front + m + "\t" + n + "\n", front + n + "\t" + m + "\n";
    assert (s + t)[|front|] == m[0] && (t + s)[|front|] == n[0];
  }
}
