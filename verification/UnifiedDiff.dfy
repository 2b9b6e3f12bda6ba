/** The hunk ranges of a unified diff, by new path (crates/core/src/diff_capture.rs). */
module UnifiedDiff {
  import opened Base
  import opened Decimal
  import opened Events
  import opened Text

  // ---- one hunk header ----

  function ParseRangePair(raw: string): Option<(nat, nat)> {
    match SplitOnce(raw, ',')
    case None => (match ParseU64(raw) case None => None case Some(start) => Some((start, 1)))
    case Some((first, second)) =>
      match ParseU64(first)
      case None => None
      case Some(start) => (match ParseU64(second) case None => None case Some(count) => Some((start, count)))
  }

  function ParseRanges(ranges: string, header: Option<string>): Option<DiffHunk> {
    var words := Words(ranges);
    if |words| < 2 || !StartsWith(words[0], "-") || !StartsWith(words[1], "+") then None
    else
      match ParseRangePair(words[0][1..])
      case None => None
      case Some((oldStart, oldLines)) =>
        match ParseRangePair(words[1][1..])
        case None => None
        case Some((newStart, newLines)) => Some(DiffHunk(oldStart, oldLines, newStart, newLines, header))
  }

  function ParseHunkHeader(line: string): Option<DiffHunk> {
    if !StartsWith(line, "@@ ") then None
    else
      var after := line[3..];
      match Find(after, " @@")
      case None => None
      case Some(close) =>
        var header := Trim(after[close + 3..]);
        ParseRanges(after[..close], if header == "" then None else Some(header))
  }

  // ---- the scan ----

  function StripDiffPathPrefix(raw: string): Option<string> {
    if raw == "/dev/null" then None
    else if StartsWith(raw, "a/") then Some(raw[2..])
    else if StartsWith(raw, "b/") then Some(raw[2..])
    else Some(raw)
  }

  datatype LineKind = Target(path: Option<string>) | Header(hunk: Option<DiffHunk>) | Other

  /** How the scan takes a line, whatever file or hunk it stands in. */
  function KindOf(rawLine: string): LineKind {
    var line := TrimStart(rawLine);
    if StartsWith(line, "+++ ") then Target(StripDiffPathPrefix(Trim(line[4..])))
    else if StartsWith(line, "@@ ") then Header(ParseHunkHeader(line))
    else Other
  }

  type HunkMap = map<string, seq<DiffHunk>>

  function HunksAt(byPath: HunkMap, path: string): seq<DiffHunk> {
    if path in byPath then byPath[path] else []
  }

  datatype Scan = Scan(current: Option<string>, byPath: HunkMap)

  function Push(scan: Scan, hunk: DiffHunk): Scan {
    if scan.current.None? then scan
    else
      var path := scan.current.value;
      scan.(byPath := scan.byPath[path := HunksAt(scan.byPath, path) + [hunk]])
  }

  function ScanLine(scan: Scan, line: string): Scan {
    match KindOf(line)
    case Target(path) => scan.(current := path)
    case Header(Some(hunk)) => Push(scan, hunk)
    case Header(None) => scan
    case Other => scan
  }

  function ScanAll(scan: Scan, lines: seq<string>): Scan
    decreases |lines|
  {
    if lines == [] then scan else ScanAll(ScanLine(scan, lines[0]), lines[1..])
  }

  const START := Scan(None, map[])

  method ParseUnifiedHunks(text: string) returns (byPath: HunkMap)
    ensures byPath == ScanAll(START, Lines(text)).byPath
  {
    var lines := Lines(text);
    byPath := map[];
    var currentPath: Option<string> := None;
    assert lines[0..] == lines;
    for i := 0 to |lines|
      invariant ScanAll(START, lines) == ScanAll(Scan(currentPath, byPath), lines[i..])
    {
      assert lines[i..][0] == lines[i] && lines[i..][1..] == lines[i + 1..];
      var line := TrimStart(lines[i]);
      if StartsWith(line, "+++ ") {
        currentPath := StripDiffPathPrefix(Trim(line[4..]));
      } else if StartsWith(line, "@@ ") {
        var hunk := ParseHunkHeader(line);
        if currentPath.Some? && hunk.Some? {
          byPath := byPath[currentPath.value := HunksAt(byPath, currentPath.value) + [hunk.value]];
        }
      }
    }
  }

  lemma {:induction false} ScanAppend(scan: Scan, a: seq<string>, b: seq<string>)
    ensures ScanAll(scan, a + b) == ScanAll(ScanAll(scan, a), b)
    decreases |a|
  {
    if a == [] {
      assert a + b == b;
    } else {
      assert (a + b)[0] == a[0] && (a + b)[1..] == a[1..] + b;
      ScanAppend(ScanLine(scan, a[0]), a[1..], b);
    }
  }

  lemma {:induction false} ScanOthers(scan: Scan, lines: seq<string>)
    requires forall i | 0 <= i < |lines| :: KindOf(lines[i]) == Other
    ensures ScanAll(scan, lines) == scan
    decreases |lines|
  {
    if lines != [] {
      ScanOthers(scan, lines[1..]);
    }
  }

  // ---- what git prints ----

  /** A range, with its count left out or written; only a count of 1 may be left out. */
  function RangeText(start: nat, count: nat, short: bool): string {
    if short then ToString(start) else ToString(start) + [','] + ToString(count)
  }

  datatype HunkText = HunkText(hunk: DiffHunk, shortOld: bool, shortNew: bool, body: seq<string>)

  function Trailer(header: Option<string>): string {
    if header.Some? then " " + header.value else ""
  }

  function OldRange(h: HunkText): string {
    "-" + RangeText(h.hunk.oldStart, h.hunk.oldLines, h.shortOld)
  }

  function NewRange(h: HunkText): string {
    "+" + RangeText(h.hunk.newStart, h.hunk.newLines, h.shortNew)
  }

  function HeaderLine(h: HunkText): string {
    "@@ " + (OldRange(h) + [' '] + NewRange(h) + " @@" + Trailer(h.hunk.header))
  }

  predicate Fits(hunk: DiffHunk) {
    hunk.oldStart < U64_LIMIT && hunk.oldLines < U64_LIMIT && hunk.newStart < U64_LIMIT && hunk.newLines < U64_LIMIT
  }

  predicate PrintedHunk(h: HunkText) {
    && Fits(h.hunk)
    && (h.shortOld ==> h.hunk.oldLines == 1) && (h.shortNew ==> h.hunk.newLines == 1)
    && (h.hunk.header.Some? ==> h.hunk.header.value != "" && Trimmed(h.hunk.header.value) && LF !in h.hunk.header.value)
    && forall i | 0 <= i < |h.body| :: BodyLine(h.body[i])
  }

  /** A line of a diff that the scan passes over. */
  predicate BodyLine(line: string) {
    LF !in line && KindOf(StripCr(line)) == Other
  }

  // ---- ranges ----

  /** No character that could end a range or a header. */
  predicate Plain(s: string) {
    forall i | 0 <= i < |s| :: !IsWhitespace(s[i]) && s[i] != '@'
  }

  lemma PlainMeans(s: string)
    requires Plain(s)
    ensures NoSpace(s) && '@' !in s && LF !in s
  {
  }

  lemma DigitsPlain(n: nat)
    ensures Plain(ToString(n)) && ',' !in ToString(n) && ToString(n) != ""
  {
  }

  lemma PlainAppend(a: string, b: string)
    requires Plain(a) && Plain(b)
    ensures Plain(a + b)
  {
  }

  lemma RangeReads(start: nat, count: nat, short: bool)
    requires start < U64_LIMIT && count < U64_LIMIT && (short ==> count == 1)
    ensures ParseRangePair(RangeText(start, count, short)) == Some((start, count))
    ensures Plain(RangeText(start, count, short)) && RangeText(start, count, short) != ""
  {
    ParseOfToString(start);
    ParseOfToString(count);
    DigitsPlain(start);
    DigitsPlain(count);
    if short {
      SplitOnceNone(ToString(start), ',');
    } else {
      SplitOnceAt(ToString(start), ToString(count), ',');
      PlainAppend(ToString(start), [',']);
      PlainAppend(ToString(start) + [','], ToString(count));
    }
  }

  lemma OneRange(h: HunkText)
    requires PrintedHunk(h)
    ensures ParseRangePair(OldRange(h)[1..]) == Some((h.hunk.oldStart, h.hunk.oldLines))
    ensures ParseRangePair(NewRange(h)[1..]) == Some((h.hunk.newStart, h.hunk.newLines))
    ensures Plain(OldRange(h)) && Plain(NewRange(h))
  {
    RangeReads(h.hunk.oldStart, h.hunk.oldLines, h.shortOld);
    RangeReads(h.hunk.newStart, h.hunk.newLines, h.shortNew);
    assert OldRange(h)[1..] == RangeText(h.hunk.oldStart, h.hunk.oldLines, h.shortOld);
    assert NewRange(h)[1..] == RangeText(h.hunk.newStart, h.hunk.newLines, h.shortNew);
  }

  /** The first closing marker is the one after the ranges, which have no `@`. */
  lemma ClosingFound(ranges: string, rest: string)
    requires '@' !in ranges
    ensures Find(ranges + " @@" + rest, " @@") == Some(|ranges|)
  {
    var s := ranges + " @@" + rest;
    assert Occurs(s, " @@", |ranges|);
    assert forall k | 0 <= k <= |ranges| :: s[k] == (if k < |ranges| then ranges[k] else ' ') && s[k] != '@';
    forall i | 0 <= i < |ranges|
      ensures !Occurs(s, " @@", i)
    {
      if Occurs(s, " @@", i) {
        OccurrenceChar(s, " @@", i, 1);
      }
    }
    FindUnique(s, " @@", 0, |ranges|);
  }

  lemma TrailerReads(header: Option<string>)
    requires header.Some? ==> header.value != "" && Trimmed(header.value)
    ensures Trim(Trailer(header)) == OrEmpty(header)
  {
    if header.Some? {
      var s := Trailer(header);
      assert s[1..] == header.value && IsWhitespace(s[0]);
      TrimOfTrimmed(header.value);
    }
  }

  lemma RangesRead(h: HunkText)
    requires PrintedHunk(h)
    ensures var ranges := OldRange(h) + [' '] + NewRange(h);
            '@' !in ranges && ParseRanges(ranges, h.hunk.header) == Some(h.hunk)
  {
    OneRange(h);
    PlainMeans(OldRange(h));
    PlainMeans(NewRange(h));
    TwoWords(OldRange(h), ' ', NewRange(h));
  }

  /** A printed header reads back as its hunk, in the short and the long form. */
  lemma HeaderReads(h: HunkText)
    requires PrintedHunk(h)
    ensures ParseHunkHeader(HeaderLine(h)) == Some(h.hunk)
  {
    RangesRead(h);
    var ranges, rest := OldRange(h) + [' '] + NewRange(h), Trailer(h.hunk.header);
    var after := ranges + " @@" + rest;
    assert HeaderLine(h)[3..] == after;
    ClosingFound(ranges, rest);
    assert after[..|ranges|] == ranges && after[|ranges| + 3..] == rest;
    TrailerReads(h.hunk.header);
  }

  lemma {:induction false} SplitOnceNone(s: string, c: char)
    requires c !in s
    ensures SplitOnce(s, c) == None
  {
    if s != "" {
      SplitOnceNone(s[1..], c);
    }
  }
}
