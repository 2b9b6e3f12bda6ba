/** Scanning what git prints for any files and hunks gives back each path's hunks, as long as no body line looks like a header. */
module UnifiedDiffLaws {
  import opened Base
  import opened Decimal
  import opened Events
  import opened Text
  import opened UnifiedDiff

  // ---- body lines ----

  /** An added line is passed over exactly when its content does not begin with `++ `. */
  lemma AddedLineIff(content: string)
    requires LF !in content
    ensures BodyLine("+" + content) <==> !StartsWith(content, "++ ")
  {
    var line := "+" + content;
    assert StripCr(line)[0] == '+';
    TrimStartPlain(StripCr(line));
    StripKeepsPrefix(line, "+++ ");
    assert StartsWith(line, "+++ ") <==> StartsWith(content, "++ ") by {
      if |content| >= 3 {
        assert line[..4] == "+" + content[..3] && line[1..4] == content[..3];
      }
    }
  }

  lemma StripKeepsPrefix(line: string, prefix: string)
    requires prefix != "" && prefix[|prefix| - 1] != CR
    ensures StartsWith(StripCr(line), prefix) <==> StartsWith(line, prefix)
  {
  }

  /** A removed line, or a note such as the missing end of line, always is. */
  lemma RemovedLinePasses(mark: char, content: string)
    requires LF !in content && (mark == '-' || mark == '\\')
    ensures BodyLine([mark] + content)
  {
  }

  /** A context line is read with its indentation dropped, so it must not look like a header then. */
  lemma ContextLineIff(content: string)
    requires LF !in content
    ensures var text := TrimStart(StripCr(content));
            BodyLine(" " + content) <==> !StartsWith(text, "+++ ") && !StartsWith(text, "@@ ")
  {
    var stripped := StripCr(" " + content);
    assert stripped == " " + StripCr(content);
    assert stripped[1..] == StripCr(content);
    assert TrimStart(stripped) == TrimStart(StripCr(content));
  }

  lemma {:induction false} TrimStartAppend(s: string, c: char)
    requires IsWhitespace(c)
    ensures TrimStart(s + [c]) == if Blank(s) then "" else TrimStart(s) + [c]
  {
    if s == "" {
      assert s + [c] == [c] && [c][1..] == "";
    } else {
      assert (s + [c])[1..] == s[1..] + [c];
      assert Blank(s) <==> IsWhitespace(s[0]) && Blank(s[1..]) by {
        assert s == [s[0]] + s[1..];
      }
      if IsWhitespace(s[0]) {
        TrimStartAppend(s[1..], c);
      }
    }
  }

  /** Trimming forgets a carriage return at the end. */
  lemma TrimOfStripCr(s: string)
    ensures Trim(StripCr(s)) == Trim(s)
  {
    if s != "" && s[|s| - 1] == CR {
      var front := s[..|s| - 1];
      assert s == front + [CR];
      TrimStartAppend(front, CR);
      if Blank(front) {
        TrimBlank(front);
      } else {
        var t := TrimStart(front) + [CR];
        assert t[..|t| - 1] == TrimStart(front);
      }
    }
  }

  /**
   * A line that looks like a file header becomes one: the scan goes on under the path it seems to
   * name, so the hunks after it go there, or nowhere if it names the null device.
   */
  lemma MisreadLineDiverts(scan: Scan, content: string)
    requires LF !in content && StartsWith(content, "++ ")
    ensures ScanLine(scan, StripCr("+" + content)) == scan.(current := StripDiffPathPrefix(Trim(content[3..])))
  {
    var rest := content[3..];
    assert content == "++ " + rest;
    var line := "+++ " + StripCr(rest);
    assert "+" + content == "+++ " + rest;
    assert StripCr("+" + content) == line;
    TrimStartPlain(line);
    assert line[..4] == "+++ " && line[4..] == StripCr(rest);
    TrimOfStripCr(rest);
  }

  // ---- files ----

  /** `preamble` are the lines before the new-file header; `pad` is what follows its path. */
  datatype FileText = FileText(preamble: seq<string>, target: Option<string>, pad: string, hunks: seq<HunkText>)

  function TargetText(target: Option<string>): string {
    if target.Some? then "b/" + target.value else "/dev/null"
  }

  function TargetLine(f: FileText): string {
    "+++ " + (TargetText(f.target) + f.pad)
  }

  predicate PrintedTarget(target: Option<string>) {
    target.Some? ==> LF !in target.value && (target.value != "" ==> !IsWhitespace(target.value[|target.value| - 1]))
  }

  predicate PrintedFile(f: FileText) {
    && (forall i | 0 <= i < |f.preamble| :: BodyLine(f.preamble[i]))
    && PrintedTarget(f.target) && Blank(f.pad) && LF !in f.pad
    && forall i | 0 <= i < |f.hunks| :: PrintedHunk(f.hunks[i])
  }

  function HunkLines(hunks: seq<HunkText>): seq<string> {
    if hunks == [] then [] else [HeaderLine(hunks[0])] + hunks[0].body + HunkLines(hunks[1..])
  }

  function FileLines(f: FileText): seq<string> {
    f.preamble + ([TargetLine(f)] + HunkLines(f.hunks))
  }

  function DiffLines(files: seq<FileText>): seq<string> {
    if files == [] then [] else FileLines(files[0]) + DiffLines(files[1..])
  }

  function Render(files: seq<FileText>): string {
    Unlines(DiffLines(files))
  }

  // ---- single lines ----

  lemma TrimPadded(text: string, pad: string)
    requires text != "" && Trimmed(text) && Blank(pad)
    ensures Trim(text + pad) == text
  {
    var s := text + pad;
    assert TrimStart(s) == s;
    assert s[|text|..] == pad;
    TrimEndUnique(s, text);
  }

  lemma StripPadded(front: string, pad: string) returns (pad': string)
    requires front != "" && !IsWhitespace(front[|front| - 1]) && Blank(pad)
    ensures Blank(pad') && StripCr(front + pad) == front + pad'
  {
    pad' := StripCr(pad);
    var s := front + pad;
    if pad == "" {
      assert s[|s| - 1] == front[|front| - 1];
    } else {
      assert s[|s| - 1] == pad[|pad| - 1];
      assert s[..|s| - 1] == front + pad[..|pad| - 1];
    }
  }

  lemma TargetTextTrimmed(target: Option<string>)
    requires PrintedTarget(target)
    ensures TargetText(target) != "" && Trimmed(TargetText(target)) && StripDiffPathPrefix(TargetText(target)) == target
  {
  }

  lemma TargetLineKind(f: FileText)
    requires PrintedFile(f)
    ensures KindOf(StripCr(TargetLine(f))) == Target(f.target)
  {
    var text := TargetText(f.target);
    TargetTextTrimmed(f.target);
    var front := "+++ " + text;
    assert TargetLine(f) == front + f.pad && front[|front| - 1] == text[|text| - 1];
    var pad' := StripPadded(front, f.pad);
    TargetLineScanned(f.target, pad');
    assert front + pad' == "+++ " + (text + pad');
  }

  lemma TargetLineScanned(target: Option<string>, pad: string)
    requires PrintedTarget(target) && Blank(pad)
    ensures KindOf("+++ " + (TargetText(target) + pad)) == Target(target)
  {
    var rest := TargetText(target) + pad;
    var line := "+++ " + rest;
    TrimStartPlain(line);
    assert line[..4] == "+++ " && line[4..] == rest;
    TargetTextTrimmed(target);
    TrimPadded(TargetText(target), pad);
  }

  lemma TargetLineWhole(f: FileText)
    requires PrintedFile(f)
    ensures LF !in TargetLine(f)
  {
  }

  lemma HeaderLineEnd(h: HunkText)
    requires PrintedHunk(h)
    ensures var line := HeaderLine(h); line[0] == '@' && !IsWhitespace(line[|line| - 1]) && StartsWith(line, "@@ ")
  {
  }

  lemma HeaderLineKind(h: HunkText)
    requires PrintedHunk(h)
    ensures KindOf(StripCr(HeaderLine(h))) == Header(Some(h.hunk))
  {
    var line := HeaderLine(h);
    HeaderLineEnd(h);
    assert StripCr(line) == line;
    TrimStartPlain(line);
    HeaderReads(h);
  }

  lemma HeaderLineWhole(h: HunkText)
    requires PrintedHunk(h)
    ensures LF !in HeaderLine(h)
  {
    OneRange(h);
    PlainMeans(OldRange(h));
    PlainMeans(NewRange(h));
    var ranges := OldRange(h) + [' '] + NewRange(h);
    WholeAppend(OldRange(h) + [' '], NewRange(h));
    WholeAppend(ranges, " @@");
    WholeAppend(ranges + " @@", Trailer(h.hunk.header));
    WholeAppend("@@ ", ranges + " @@" + Trailer(h.hunk.header));
  }

  lemma WholeAppend(a: string, b: string)
    requires LF !in a && LF !in b
    ensures LF !in a + b
  {
  }

  // ---- scanning ----

  function ScanText(scan: Scan, lines: seq<string>): Scan {
    ScanAll(scan, StripAll(lines))
  }

  lemma ScanTextAppend(scan: Scan, a: seq<string>, b: seq<string>)
    ensures ScanText(scan, a + b) == ScanText(ScanText(scan, a), b)
  {
    assert StripAll(a + b) == StripAll(a) + StripAll(b);
    ScanAppend(scan, StripAll(a), StripAll(b));
  }

  lemma ScanTextOne(scan: Scan, line: string)
    ensures ScanText(scan, [line]) == ScanLine(scan, StripCr(line))
  {
    var x := StripCr(line);
    assert StripAll([line]) == [x] && [x][0] == x && [x][1..] == [];
    assert ScanAll(scan, [x]) == ScanAll(ScanLine(scan, x), []) == ScanLine(scan, x);
  }

  lemma ScanTextBody(scan: Scan, lines: seq<string>)
    requires forall i | 0 <= i < |lines| :: BodyLine(lines[i])
    ensures ScanText(scan, lines) == scan
  {
    ScanOthers(scan, StripAll(lines));
  }

  function PushAll(scan: Scan, hunks: seq<HunkText>): Scan
    decreases |hunks|
  {
    if hunks == [] then scan else PushAll(Push(scan, hunks[0].hunk), hunks[1..])
  }

  lemma {:induction false} ScanHunks(scan: Scan, hunks: seq<HunkText>)
    requires forall i | 0 <= i < |hunks| :: PrintedHunk(hunks[i])
    ensures ScanText(scan, HunkLines(hunks)) == PushAll(scan, hunks)
    decreases |hunks|
  {
    if hunks != [] {
      var h, rest := hunks[0], HunkLines(hunks[1..]);
      ScanTextAppend(scan, [HeaderLine(h)] + h.body, rest);
      ScanTextAppend(scan, [HeaderLine(h)], h.body);
      ScanTextOne(scan, HeaderLine(h));
      HeaderLineKind(h);
      ScanTextBody(Push(scan, h.hunk), h.body);
      ScanHunks(Push(scan, h.hunk), hunks[1..]);
    }
  }

  lemma ScanFile(scan: Scan, f: FileText)
    requires PrintedFile(f)
    ensures ScanText(scan, FileLines(f)) == PushAll(scan.(current := f.target), f.hunks)
  {
    var named := scan.(current := f.target);
    ScanTextAppend(scan, f.preamble, [TargetLine(f)] + HunkLines(f.hunks));
    ScanTextBody(scan, f.preamble);
    ScanTextAppend(scan, [TargetLine(f)], HunkLines(f.hunks));
    ScanTextOne(scan, TargetLine(f));
    TargetLineKind(f);
    assert ScanLine(scan, StripCr(TargetLine(f))) == named;
    ScanHunks(named, f.hunks);
  }

  // ---- what is found ----

  function HunksIn(hunks: seq<HunkText>): seq<DiffHunk> {
    if hunks == [] then [] else [hunks[0].hunk] + HunksIn(hunks[1..])
  }

  /** The hunks printed for a path, over all the files that have it, in order. */
  function HunksFor(files: seq<FileText>, path: string): seq<DiffHunk> {
    if files == [] then []
    else (if files[0].target == Some(path) then HunksIn(files[0].hunks) else []) + HunksFor(files[1..], path)
  }

  /** The scan gained these hunks at this path. */
  ghost predicate Gained(scan: Scan, scan': Scan, path: string, hunks: seq<DiffHunk>) {
    && HunksAt(scan'.byPath, path) == HunksAt(scan.byPath, path) + hunks
    && (path in scan'.byPath <==> path in scan.byPath || hunks != [])
  }

  lemma GainedTwice(s0: Scan, s1: Scan, s2: Scan, path: string, a: seq<DiffHunk>, b: seq<DiffHunk>)
    requires Gained(s0, s1, path, a) && Gained(s1, s2, path, b)
    ensures Gained(s0, s2, path, a + b)
  {
  }

  lemma {:induction false} PushAllGains(scan: Scan, hunks: seq<HunkText>, path: string)
    ensures PushAll(scan, hunks).current == scan.current
    ensures Gained(scan, PushAll(scan, hunks), path, if scan.current == Some(path) then HunksIn(hunks) else [])
    decreases |hunks|
  {
    if hunks == [] {
      assert HunksAt(scan.byPath, path) + [] == HunksAt(scan.byPath, path);
    } else {
      var scan1 := Push(scan, hunks[0].hunk);
      var here := scan.current == Some(path);
      assert Gained(scan, scan1, path, if here then [hunks[0].hunk] else []) by {
        assert HunksAt(scan.byPath, path) + [] == HunksAt(scan.byPath, path);
      }
      PushAllGains(scan1, hunks[1..], path);
      GainedTwice(scan, scan1, PushAll(scan, hunks), path,
                  if here then [hunks[0].hunk] else [], if here then HunksIn(hunks[1..]) else []);
      assert HunksIn([]) + HunksIn([]) == HunksIn([]);
    }
  }

  lemma {:induction false} ScanFiles(scan: Scan, files: seq<FileText>, path: string)
    requires forall i | 0 <= i < |files| :: PrintedFile(files[i])
    ensures Gained(scan, ScanText(scan, DiffLines(files)), path, HunksFor(files, path))
    decreases |files|
  {
    if files == [] {
      assert StripAll([]) == [];
      assert HunksAt(scan.byPath, path) + [] == HunksAt(scan.byPath, path);
    } else {
      var f := files[0];
      ScanTextAppend(scan, FileLines(f), DiffLines(files[1..]));
      ScanFile(scan, f);
      var scan1 := ScanText(scan, FileLines(f));
      PushAllGains(scan.(current := f.target), f.hunks, path);
      ScanFiles(scan1, files[1..], path);
      GainedTwice(scan, scan1, ScanText(scan1, DiffLines(files[1..])), path,
                  if f.target == Some(path) then HunksIn(f.hunks) else [], HunksFor(files[1..], path));
    }
  }

  // ---- whole diffs ----

  lemma {:induction false} HunkLinesWhole(hunks: seq<HunkText>)
    requires forall i | 0 <= i < |hunks| :: PrintedHunk(hunks[i])
    ensures forall i | 0 <= i < |HunkLines(hunks)| :: LF !in HunkLines(hunks)[i]
  {
    if hunks != [] {
      HeaderLineWhole(hunks[0]);
      HunkLinesWhole(hunks[1..]);
    }
  }

  lemma FileLinesWhole(f: FileText)
    requires PrintedFile(f)
    ensures forall i | 0 <= i < |FileLines(f)| :: LF !in FileLines(f)[i]
  {
    TargetLineWhole(f);
    HunkLinesWhole(f.hunks);
  }

  lemma {:induction false} DiffLinesWhole(files: seq<FileText>)
    requires forall i | 0 <= i < |files| :: PrintedFile(files[i])
    ensures forall i | 0 <= i < |DiffLines(files)| :: LF !in DiffLines(files)[i]
  {
    if files != [] {
      FileLinesWhole(files[0]);
      DiffLinesWhole(files[1..]);
    }
  }

  /** The scan of a printed diff finds each path's hunks, in order, and no other path; nothing for `/dev/null`. */
  lemma ScanOfRender(files: seq<FileText>, path: string)
    requires forall i | 0 <= i < |files| :: PrintedFile(files[i])
    ensures var byPath := ScanAll(START, Lines(Render(files))).byPath;
            && (path in byPath <==> HunksFor(files, path) != [])
            && HunksAt(byPath, path) == HunksFor(files, path)
  {
    DiffLinesWhole(files);
    LinesOfUnlines(DiffLines(files));
    ScanFiles(START, files, path);
    assert HunksAt(START.byPath, path) + HunksFor(files, path) == HunksFor(files, path);
  }
}
