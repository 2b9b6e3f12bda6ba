/**
 * When two changes of the same paths have texts that commute (crates/core/src/diff_capture.rs): for paths
 * without a line feed, only when the fields that the summary hash looks at are the same.
 */
module SummaryFields {
  import opened Base
  import opened Decimal
  import opened Events
  import opened SummaryForm
  import opened Text

  predicate OneLinePaths(x: FileChange) {
    LF !in x.path && LF !in OrEmpty(x.oldPath)
  }

  predicate SameRanges(h: DiffHunk, g: DiffHunk) {
    h.oldStart == g.oldStart && h.oldLines == g.oldLines && h.newStart == g.newStart && h.newLines == g.newLines
  }

  /** The same kind, counts and hunk ranges; hunk headers and patch ids are not looked at. */
  ghost predicate SameFields(x: FileChange, y: FileChange) {
    && x.kind == y.kind && x.additions == y.additions && x.deletions == y.deletions
    && |x.hunks| == |y.hunks| && forall i | 0 <= i < |x.hunks| :: SameRanges(x.hunks[i], y.hunks[i])
  }

  // ---- the lines of a text ----

  function PathsText(x: FileChange): string {
    OrEmpty(x.oldPath) + [TAB] + x.path
  }

  function FirstLine(x: FileChange): string {
    PathsText(x) + [TAB] + KindName(x.kind) + [TAB] + CountName(x.additions) + [TAB] + CountName(x.deletions)
  }

  const HUNK: string := "" + [TAB] + "hunk"

  function RangeLine(h: DiffHunk): string {
    HUNK + [TAB] + ToString(h.oldStart) + [TAB] + ToString(h.oldLines) + [TAB] + ToString(h.newStart) + [TAB] + ToString(h.newLines)
  }

  function RangeLines(hunks: seq<DiffHunk>): (lines: seq<string>)
    ensures |lines| == |hunks| && forall i | 0 <= i < |lines| :: lines[i] == RangeLine(hunks[i])
  {
    seq(|hunks|, i requires 0 <= i < |hunks| => RangeLine(hunks[i]))
  }

  function TextLines(x: FileChange): seq<string> {
    [FirstLine(x)] + RangeLines(x.hunks)
  }

  lemma FirstLineEnds(x: FileChange)
    ensures ChangeLine(x) == FirstLine(x) + [LF]
  {
    assert "\t" == [TAB] && "\n" == [LF];
  }

  lemma RangeLineEnds(h: DiffHunk)
    ensures HunkText(h) == RangeLine(h) + [LF]
  {
    var a, b, c, d := ToString(h.oldStart), ToString(h.oldLines), ToString(h.newStart), ToString(h.newLines);
    assert "\t" == [TAB] && "\n" == [LF] && "\thunk\t" == HUNK + [TAB];
    var front := HUNK + [TAB] + a + [TAB] + b + [TAB];
    assert HunkText(h) == front + (c + "\t" + d + "\n");
    assert RangeLine(h) + [LF] == front + (c + [TAB] + d + [LF]);
  }

  lemma {:induction false} UnlinesAppend(a: seq<string>, b: seq<string>)
    ensures Unlines(a + b) == Unlines(a) + Unlines(b)
  {
    if a == [] {
      assert a + b == b;
    } else {
      assert (a + b)[1..] == a[1..] + b;
      UnlinesAppend(a[1..], b);
      Reassociate(a[0] + [LF], Unlines(a[1..]), Unlines(b));
    }
  }

  lemma UnlinesOne(line: string)
    ensures Unlines([line]) == line + [LF]
  {
    assert [line][1..] == [];
    assert Unlines([]) == "";
  }

  lemma {:induction false} HunksTextLines(hunks: seq<DiffHunk>)
    ensures HunksText(hunks) == Unlines(RangeLines(hunks))
  {
    if hunks == [] {
      assert RangeLines(hunks) == [];
    } else {
      var front, last := hunks[..|hunks| - 1], hunks[|hunks| - 1];
      HunksTextLines(front);
      RangeLineEnds(last);
      UnlinesOne(RangeLine(last));
      assert RangeLines(hunks) == RangeLines(front) + [RangeLine(last)];
      UnlinesAppend(RangeLines(front), [RangeLine(last)]);
    }
  }

  lemma ChangeTextLines(x: FileChange)
    ensures ChangesText([x]) == Unlines(TextLines(x))
  {
    assert [x][..0] == [] && Concat(ChangeText, []) == "";
    assert ChangesText([x]) == "" + ChangeText(x) == ChangeText(x);
    FirstLineEnds(x);
    HunksTextLines(x.hunks);
    UnlinesOne(FirstLine(x));
    UnlinesAppend([FirstLine(x)], RangeLines(x.hunks));
  }

  // ---- the fields of a line ----

  predicate Field(s: string) {
    TAB !in s && LF !in s
  }

  lemma FieldsOfMore(a: string, b: string)
    requires Field(b)
    ensures Split(a + [TAB] + b, TAB) == Split(a, TAB) + [b]
    ensures LF in a + [TAB] + b <==> LF in a
  {
    SplitAppend(a, b, TAB);
    SplitNone(b, TAB);
  }

  lemma NumberField(n: nat)
    ensures Field(ToString(n)) && AllDigits(ToString(n))
  {
    ToStringDigits(n);
    var s := ToString(n);
    assert forall i | 0 <= i < |s| :: IsDigit(s[i]);
  }

  lemma CountField(count: Option<nat>)
    ensures Field(CountName(count))
  {
    if count.Some? {
      NumberField(count.value);
    }
  }

  lemma KindField(kind: ChangeKind)
    ensures Field(KindName(kind)) && !AllDigits(KindName(kind))
  {
    assert !IsDigit(KindName(kind)[0]);
  }

  /** A change's line ends in its kind and counts. */
  lemma FirstLineFields(x: FileChange)
    ensures Split(FirstLine(x), TAB)
         == Split(PathsText(x), TAB) + [KindName(x.kind)] + [CountName(x.additions)] + [CountName(x.deletions)]
    ensures OneLinePaths(x) ==> LF !in FirstLine(x)
  {
    KindField(x.kind);
    CountField(x.additions);
    CountField(x.deletions);
    var s := PathsText(x) + [TAB] + KindName(x.kind);
    FieldsOfMore(PathsText(x), KindName(x.kind));
    FieldsOfMore(s, CountName(x.additions));
    FieldsOfMore(s + [TAB] + CountName(x.additions), CountName(x.deletions));
  }

  lemma RangeLineFields(h: DiffHunk)
    ensures Split(RangeLine(h), TAB)
         == Split(HUNK, TAB) + [ToString(h.oldStart)] + [ToString(h.oldLines)] + [ToString(h.newStart)] + [ToString(h.newLines)]
    ensures LF !in RangeLine(h)
  {
    NumberField(h.oldStart);
    NumberField(h.oldLines);
    NumberField(h.newStart);
    NumberField(h.newLines);
    var s := HUNK + [TAB] + ToString(h.oldStart);
    var t := s + [TAB] + ToString(h.oldLines);
    FieldsOfMore(HUNK, ToString(h.oldStart));
    FieldsOfMore(s, ToString(h.oldLines));
    FieldsOfMore(t, ToString(h.newStart));
    FieldsOfMore(t + [TAB] + ToString(h.newStart), ToString(h.newLines));
  }

  /** Third from the end, a change's line has a kind and a hunk's line a number. */
  predicate IsFirst(line: string) {
    var fields := Split(line, TAB);
    |fields| >= 3 && !AllDigits(fields[|fields| - 3])
  }

  lemma FirstLineIsFirst(x: FileChange)
    ensures IsFirst(FirstLine(x))
  {
    FirstLineFields(x);
    KindField(x.kind);
  }

  lemma RangeLineIsNot(h: DiffHunk)
    ensures !IsFirst(RangeLine(h))
  {
    RangeLineFields(h);
    NumberField(h.oldLines);
  }

  // ---- texts that commute ----

  ghost predicate Headed(lines: seq<string>) {
    && lines != [] && IsFirst(lines[0])
    && forall i | 1 <= i < |lines| :: !IsFirst(lines[i])
  }

  lemma CommuteAt(a: seq<string>, b: seq<string>)
    requires a + b == b + a
    ensures |a| < |b| ==> b[|a|] == b[0]
  {
    if |a| < |b| {
      assert (b + a)[|a|] == b[|a|] && (a + b)[|a|] == b[0];
    }
  }

  /** Lists of lines of which just the first is a change's line commute only if they are the same. */
  lemma HeadedCommute(a: seq<string>, b: seq<string>)
    requires Headed(a) && Headed(b) && a + b == b + a
    ensures a == b
  {
    CommuteAt(a, b);
    CommuteAt(b, a);
    assert |a| == |b|;
    assert a == (a + b)[..|a|] && b == (b + a)[..|b|];
  }

  lemma RangeLinesPlain(hunks: seq<DiffHunk>)
    ensures forall line | line in RangeLines(hunks) :: !IsFirst(line) && LF !in line
  {
    forall i | 0 <= i < |hunks|
      ensures !IsFirst(RangeLine(hunks[i])) && LF !in RangeLine(hunks[i])
    {
      RangeLineIsNot(hunks[i]);
      RangeLineFields(hunks[i]);
    }
  }

  lemma HeadedBy(first: string, rest: seq<string>)
    requires IsFirst(first) && forall line | line in rest :: !IsFirst(line)
    ensures Headed([first] + rest)
  {
    var lines := [first] + rest;
    assert forall i | 1 <= i < |lines| :: lines[i] == rest[i - 1] && lines[i] in rest;
  }

  lemma TextLinesHeaded(x: FileChange)
    ensures Headed(TextLines(x))
    ensures OneLinePaths(x) ==> forall line | line in TextLines(x) :: LF !in line
  {
    FirstLineIsFirst(x);
    FirstLineFields(x);
    RangeLinesPlain(x.hunks);
    HeadedBy(FirstLine(x), RangeLines(x.hunks));
  }

  lemma UnlinesInjective(a: seq<string>, b: seq<string>)
    requires (forall line | line in a :: LF !in line) && (forall line | line in b :: LF !in line)
    requires Unlines(a) == Unlines(b)
    ensures a == b
  {
    SplitOfUnlines(a);
    SplitOfUnlines(b);
    assert a == (a + [""])[..|a|] && b == (b + [""])[..|b|];
  }

  lemma CommuteMeansSameLines(x: FileChange, y: FileChange)
    requires OneLinePaths(x) && OneLinePaths(y) && TextsCommute(x, y)
    ensures TextLines(x) == TextLines(y)
  {
    var a, b := TextLines(x), TextLines(y);
    ChangeTextLines(x);
    ChangeTextLines(y);
    UnlinesAppend(a, b);
    UnlinesAppend(b, a);
    TextLinesHeaded(x);
    TextLinesHeaded(y);
    UnlinesInjective(a + b, b + a);
    HeadedCommute(a, b);
  }

  lemma NumbersTell(m: nat, n: nat)
    requires ToString(m) == ToString(n)
    ensures m == n
  {
    ToStringDigits(m);
    ToStringDigits(n);
  }

  lemma CountsTellApart(a: Option<nat>, b: Option<nat>)
    requires CountName(a) == CountName(b)
    ensures a == b
  {
    if a.Some? {
      ToStringDigits(a.value);
      assert IsDigit(ToString(a.value)[0]);
    }
    if b.Some? {
      ToStringDigits(b.value);
      assert IsDigit(ToString(b.value)[0]);
    }
    if a.Some? && b.Some? {
      NumbersTell(a.value, b.value);
    }
  }

  lemma KindsTellApart(a: ChangeKind, b: ChangeKind)
    requires KindName(a) == KindName(b)
    ensures a == b
  {
    assert KindName(a)[0] == KindName(b)[0];
    assert |KindName(a)| == |KindName(b)|;
  }

  lemma RangesTellApart(h: DiffHunk, g: DiffHunk)
    ensures RangeLine(h) == RangeLine(g) <==> SameRanges(h, g)
  {
    if RangeLine(h) == RangeLine(g) {
      RangeLineFields(h);
      RangeLineFields(g);
      var f := Split(RangeLine(h), TAB);
      var k := |f|;
      assert f[k - 4] == ToString(g.oldStart) && f[k - 3] == ToString(g.oldLines);
      assert f[k - 2] == ToString(g.newStart) && f[k - 1] == ToString(g.newLines);
      NumbersTell(h.oldStart, g.oldStart);
      NumbersTell(h.oldLines, g.oldLines);
      NumbersTell(h.newStart, g.newStart);
      NumbersTell(h.newLines, g.newLines);
    }
  }

  lemma FirstLinesTellApart(x: FileChange, y: FileChange)
    requires FirstLine(x) == FirstLine(y)
    ensures x.kind == y.kind && x.additions == y.additions && x.deletions == y.deletions
  {
    FirstLineFields(x);
    FirstLineFields(y);
    var f := Split(FirstLine(x), TAB);
    assert f[|f| - 3] == KindName(y.kind) && f[|f| - 2] == CountName(y.additions) && f[|f| - 1] == CountName(y.deletions);
    KindsTellApart(x.kind, y.kind);
    CountsTellApart(x.additions, y.additions);
    CountsTellApart(x.deletions, y.deletions);
  }

  /** Changes of the same paths have the same lines exactly when their kinds, counts and hunk ranges are the same. */
  lemma SameLinesIff(x: FileChange, y: FileChange)
    requires SamePaths(x, y)
    ensures TextLines(x) == TextLines(y) <==> SameFields(x, y)
  {
    if TextLines(x) == TextLines(y) {
      assert FirstLine(x) == TextLines(x)[0] == TextLines(y)[0] == FirstLine(y);
      FirstLinesTellApart(x, y);
      forall i | 0 <= i < |x.hunks|
        ensures |x.hunks| == |y.hunks| && SameRanges(x.hunks[i], y.hunks[i])
      {
        assert TextLines(x)[i + 1] == RangeLine(x.hunks[i]) && TextLines(y)[i + 1] == RangeLine(y.hunks[i]);
        RangesTellApart(x.hunks[i], y.hunks[i]);
      }
      assert |TextLines(x)| == |x.hunks| + 1 && |TextLines(y)| == |y.hunks| + 1;
    }
    if SameFields(x, y) {
      forall i | 0 <= i < |x.hunks|
        ensures RangeLine(x.hunks[i]) == RangeLine(y.hunks[i])
      {
        RangesTellApart(x.hunks[i], y.hunks[i]);
      }
      assert RangeLines(x.hunks) == RangeLines(y.hunks);
    }
  }

  /** Their texts commute exactly then. */
  lemma TextsCommuteIff(x: FileChange, y: FileChange)
    requires SamePaths(x, y) && OneLinePaths(x)
    ensures TextsCommute(x, y) <==> SameFields(x, y)
  {
    SameLinesIff(x, y);
    if TextsCommute(x, y) {
      CommuteMeansSameLines(x, y);
    }
    if SameFields(x, y) {
      ChangeTextLines(x);
      ChangeTextLines(y);
    }
  }

  /**
   * For paths without a line feed the form does not depend on the order of the changes exactly when
   * changes of the same paths have the same kind, counts and hunk ranges.
   */
  lemma FormFreeOfOrderByFields(target: DiffTarget, baseCommit: Option<string>, headCommit: Option<string>, s: seq<FileChange>)
    requires forall x | x in s :: OneLinePaths(x)
    ensures SameFormInAnyOrder(target, baseCommit, headCommit, s)
       <==> forall x, y | x in s && y in s && SamePaths(x, y) :: SameFields(x, y)
  {
    FormFreeOfOrderIff(target, baseCommit, headCommit, s);
    forall x, y | x in s && y in s && SamePaths(x, y)
      ensures TextsCommute(x, y) <==> SameFields(x, y)
    {
      TextsCommuteIff(x, y);
    }
  }
}
