/**
 * The sentinel-delimited block that `brick agent` keeps inside a user's memory file
 * (crates/cli/src/agent.rs). The instructions inside the block are a parameter `body`: all that
 * matters about them is that they do not contain the end marker.
 */
module ManagedBlock {
  import opened Base
  import opened Text

  const BLOCK_START_PREFIX := "<" + "!-- brick:managed:start"
  const BLOCK_END := "<!-- brick:managed:end -->"
  const VERSION_TAIL := " v=12 -->"

  /**
   * The two sentinels. The laws below hold for any pair that is `Proper`: neither spans a line, the
   * start marker's first character does not recur in it, and it does not end in whitespace.
   */
  datatype Markers = Markers(start: string, end: string) {
    predicate Proper() {
      && start != "" && end != ""
      && '\n' !in start && '\n' !in end
      && start[0] !in start[1..]
      && !IsWhitespace(start[|start| - 1])
    }
  }

  const BRICK := Markers(BLOCK_START_PREFIX, BLOCK_END)

  lemma SentinelChars(first: char, rest: string)
    requires first !in rest && first != '\n' && '\n' !in rest
    requires rest != "" && !IsWhitespace(rest[|rest| - 1])
    ensures var start := [first] + rest;
            && '\n' !in start && start[0] !in start[1..] && !IsWhitespace(start[|start| - 1])
  {
  }

  lemma BrickMarkersProper()
    ensures BRICK.Proper()
  {
    var rest := "!-- brick:managed:start";
    assert '<' !in rest && '\n' !in rest;
    assert rest[|rest| - 1] == 't';
    SentinelChars('<', rest);
    assert '\n' !in BLOCK_END;
  }

  datatype Span = Span(start: nat, end: nat)

  /** The words an operation reports. */
  datatype Action = Installed | Updated | Unchanged | Removed | Present | Stale | Absent

  datatype Outcome = Outcome(action: Action, text: string)

  ghost predicate BodyOk(body: string) {
    !Contains(TrimEnd(body), BLOCK_END)
  }

  function RenderBlock(m: Markers, versionTail: string, middle: string): string {
    m.start + versionTail + ['\n'] + middle + ['\n'] + m.end
  }

  function ManagedBlock(body: string): string {
    RenderBlock(BRICK, VERSION_TAIL, TrimEnd(body))
  }

  function FindBlock(m: Markers, content: string): (r: Option<Span>)
    ensures r.Some? ==> r.value.start <= r.value.end <= |content|
  {
    match Find(content, m.start)
    case None => None
    case Some(start) =>
      match FindFrom(content, m.end, start)
      case None => None
      case Some(endMarker) => Some(Span(start, endMarker + |m.end|))
  }

  function AppendBlock(existing: string, block: string): string {
    if Trim(existing) == "" then block + "\n" else TrimEnd(existing) + "\n\n" + block + "\n"
  }

  function InstallText(m: Markers, existing: string, block: string, force: bool): Outcome {
    match FindBlock(m, existing)
    case Some(span) =>
      if !force && existing[span.start..span.end] == block then Outcome(Unchanged, existing)
      else Outcome(Updated, existing[..span.start] + block + existing[span.end..])
    case None => Outcome(Installed, AppendBlock(existing, block))
  }

  function UninstallText(m: Markers, existing: string): Outcome {
    match FindBlock(m, existing)
    case None => Outcome(Absent, existing)
    case Some(span) =>
      var updated := WithoutSpan(existing, span);
      Outcome(Removed, if Trim(updated) == "" then "" else updated)
  }

  /** Cuts the span out, with one newline of a blank line before it and the newline after it. */
  function WithoutSpan(existing: string, span: Span): string
    requires span.start <= span.end <= |existing|
  {
    var start := if EndsWith(existing[..span.start], "\n\n") then span.start - 1 else span.start;
    var end := if StartsWith(existing[span.end..], "\n") then span.end + 1 else span.end;
    existing[..start] + existing[end..]
  }

  function StatusText(m: Markers, existing: string, block: string): Action {
    match FindBlock(m, existing)
    case Some(span) => if existing[span.start..span.end] == block then Present else Stale
    case None => Absent
  }

  /** A memory file on disk; `contents` is `None` while the file does not exist. */
  class MemoryFile {
    var contents: Option<string>
    const body: string

    constructor (contents: Option<string>, body: string)
      ensures this.contents == contents && this.body == body
    {
      this.contents := contents;
      this.body := body;
    }

    /** What reading the file yields: a missing file reads as empty. */
    function Read(): string
      reads this
    {
      if contents.Some? then contents.value else ""
    }

    method Install(force: bool) returns (action: Action)
      modifies this
      ensures var o := InstallText(BRICK, old(Read()), ManagedBlock(body), force);
              && action == o.action
              && contents == if o.action == Unchanged then old(contents) else Some(o.text)
    {
      var existing := Read();
      var block := ManagedBlock(body);
      var found := FindBlock(BRICK, existing);
      if found.Some? {
        var span := found.value;
        if !force && existing[span.start..span.end] == block {
          return Unchanged;
        }
        var updated := existing[..span.start];
        updated := updated + block;
        updated := updated + existing[span.end..];
        contents := Some(updated);
        action := Updated;
      } else {
        contents := Some(AppendBlock(existing, block));
        action := Installed;
      }
    }

    method Uninstall() returns (action: Action)
      modifies this
      ensures var o := UninstallText(BRICK, old(Read()));
              && action == o.action
              && contents == if o.action == Absent then old(contents) else Some(o.text)
    {
      var existing := Read();
      var found := FindBlock(BRICK, existing);
      if found.None? {
        return Absent;
      }
      var start := found.value.start;
      if EndsWith(existing[..start], "\n\n") {
        start := start - 1;
      }
      var end := found.value.end;
      if StartsWith(existing[end..], "\n") {
        end := end + 1;
      }
      var updated := existing[..start];
      updated := updated + existing[end..];
      assert updated == WithoutSpan(existing, found.value);
      if Trim(updated) == "" {
        updated := "";
      }
      contents := Some(updated);
      action := Removed;
    }

    method Status() returns (action: Action)
      ensures action == StatusText(BRICK, Read(), ManagedBlock(body))
    {
      var existing := Read();
      var found := FindBlock(BRICK, existing);
      if found.None? {
        action := Absent;
      } else if existing[found.value.start..found.value.end] == ManagedBlock(body) {
        action := Present;
      } else {
        action := Stale;
      }
    }
  }

  // ---- where the markers can match ----

  /** A start marker with no end marker after it. */
  predicate OrphanStart(m: Markers, t: string) {
    Find(t, m.start).Some? && FindBlock(m, t).None?
  }

  /** What the edits rely on: the block opens with the start marker and its first end marker closes it. */
  predicate Framed(m: Markers, block: string) {
    && StartsWith(block, m.start)
    && |m.end| <= |block|
    && Find(block, m.end) == Some(|block| - |m.end|)
  }

  lemma EndNotInFirstLine(i: nat)
    ensures !Occurs(BLOCK_START_PREFIX + VERSION_TAIL, BLOCK_END, i)
  {
    var line := BLOCK_START_PREFIX + VERSION_TAIL;
    if Occurs(line, BLOCK_END, i) {
      OccurrenceChar(line, BLOCK_END, i, 0);
      OccurrenceChar(line, BLOCK_END, i, 19);
    }
  }

  lemma RenderedIsFramed(m: Markers, versionTail: string, middle: string)
    requires m.Proper()
    requires !Contains(m.start + versionTail, m.end) && !Contains(middle, m.end)
    ensures Framed(m, RenderBlock(m, versionTail, middle))
  {
    var first := m.start + versionTail;
    var inner := middle + ['\n'] + m.end;
    var s := RenderBlock(m, versionTail, middle);
    assert s == first + ['\n'] + inner;
    var e := |s| - |m.end|;
    assert s[e..e + |m.end|] == m.end;
    forall i | 0 <= i < e
      ensures !Occurs(s, m.end, i)
    {
      NoMatchAcross(first, '\n', inner, m.end, i);
      if i > |first| {
        NoMatchAcross(middle, '\n', m.end, m.end, i - |first| - 1);
      }
    }
    FindUnique(s, m.end, 0, e);
  }

  /** The rendered block is framed when its instructions do not contain the end marker. */
  lemma ManagedBlockFramed(body: string)
    requires BodyOk(body)
    ensures Framed(BRICK, ManagedBlock(body))
  {
    BrickMarkersProper();
    forall i | 0 <= i <= |BLOCK_START_PREFIX + VERSION_TAIL| {
      EndNotInFirstLine(i);
    }
    RenderedIsFramed(BRICK, VERSION_TAIL, TrimEnd(body));
  }

  lemma NoStartIn(m: Markers, t: string, n: nat)
    requires m.Proper()
    requires n <= |t|
    requires forall i | 0 <= i <= |t| && i < n :: !Occurs(t, m.start, i)
    ensures !Contains(t[..n], m.start)
  {
    forall i | 0 <= i <= n
      ensures !Occurs(t[..n], m.start, i)
    {
      if i + |m.start| <= n {
        OccursInPrefix(t, n, m.start, i);
      }
    }
  }

  /** The start marker cannot match across the point where a text is followed by a start marker. */
  lemma StartSeam(m: Markers, pre: string, rest: string)
    requires m.Proper()
    requires StartsWith(rest, m.start)
    requires !Contains(pre, m.start)
    ensures Find(pre + rest, m.start) == Some(|pre|)
  {
    var s := pre + rest;
    assert s[|pre|] == rest[0] == m.start[0];
    forall i | 0 <= i < |pre|
      ensures !Occurs(s, m.start, i)
    {
      if Occurs(s, m.start, i) {
        if i + |m.start| <= |pre| {
          assert s[..|pre|] == pre;
          OccursInPrefix(s, |pre|, m.start, i);
        } else {
          OccurrenceChar(s, m.start, i, |pre| - i);
        }
      }
    }
    assert s[|pre|..|pre| + |m.start|] == m.start;
    FindUnique(s, m.start, 0, |pre|);
  }

  /** The first end marker at or after `from` is the block's own, when no earlier one starts in `pre`. */
  lemma FirstEnd(m: Markers, pre: string, block: string, post: string, from: nat)
    requires m.Proper()
    requires Framed(m, block) && from <= |pre|
    requires forall i | from <= i < |pre| :: !Occurs(pre + block + post, m.end, i)
    ensures FindFrom(pre + block + post, m.end, from) == Some(|pre| + |block| - |m.end|)
  {
    var s := pre + block + post;
    var e := |block| - |m.end|;
    forall i | from <= i <= |pre| + e
      ensures Occurs(s, m.end, i) <==> i == |pre| + e
    {
      if |pre| <= i {
        var k := i - |pre|;
        assert Occurs(block, m.end, k) <==> k == e by {
          FindFirst(block, m.end, 0);
        }
        OccursInMiddle(pre, block, post, m.end, k);
        assert i == |pre| + k;
      }
    }
    FindUnique(s, m.end, from, |pre| + e);
  }

  lemma BlockSpan(m: Markers, pre: string, block: string, post: string)
    requires m.Proper()
    requires Framed(m, block) && !Contains(pre, m.start)
    ensures FindBlock(m, pre + block + post) == Some(Span(|pre|, |pre| + |block|))
  {
    var rest := block + post;
    assert pre + block + post == pre + rest;
    assert rest[..|m.start|] == block[..|m.start|];
    StartSeam(m, pre, rest);
    FirstEnd(m, pre, block, post, |pre|);
  }

  // ---- what install does ----

  /** The text an install leaves in front of the block. */
  function Before(m: Markers, t: string): string {
    match FindBlock(m, t)
    case Some(span) => t[..span.start]
    case None => if Trim(t) == "" then "" else TrimEnd(t) + "\n\n"
  }

  /** The text an install leaves behind the block. */
  function After(m: Markers, t: string): string {
    match FindBlock(m, t)
    case Some(span) => t[span.end..]
    case None => "\n"
  }

  lemma InstallShape(m: Markers, t: string, block: string, force: bool)
    requires m.Proper()
    ensures InstallText(m, t, block, force).text == Before(m, t) + block + After(m, t)
  {
    var found := FindBlock(m, t);
    if found.Some? {
      var span := found.value;
      if t[span.start..span.end] == block {
        assert t == t[..span.start] + block + t[span.end..];
      }
    }
  }

  lemma BeforeHasNoStart(m: Markers, t: string)
    requires m.Proper()
    requires !OrphanStart(m, t)
    ensures !Contains(Before(m, t), m.start)
  {
    FindFirst(t, m.start, 0);
    match FindBlock(m, t) {
      case Some(span) =>
        NoStartIn(m, t, span.start);
      case None =>
        var pre := Before(m, t);
        forall i | 0 <= i <= |pre|
          ensures !Occurs(pre, m.start, i)
        {
          if Trim(t) != "" {
            TrimmedHasNoStart(m, t, i);
          }
        }
    }
  }

  lemma TrimmedHasNoStart(m: Markers, t: string, i: nat)
    requires m.Proper()
    requires Find(t, m.start).None?
    ensures !Occurs(TrimEnd(t) + "\n\n", m.start, i)
  {
    var kept := TrimEnd(t);
    TrimEndSpec(t);
    FindFirst(t, m.start, 0);
    assert kept + "\n\n" == kept + ['\n'] + "\n";
    NoMatchAcross(kept, '\n', "\n", m.start, i);
    if i + |m.start| <= |kept| {
      OccursInPrefix(t, |kept|, m.start, i);
    }
  }

  /** An orphan start marker survives the trimming that precedes an append. */
  lemma OrphanIsKept(m: Markers, t: string)
    requires m.Proper()
    requires Find(t, m.start).Some?
    ensures Find(t, m.start).value + |m.start| <= |TrimEnd(t)|
    ensures Trim(t) != ""
  {
    var s := Find(t, m.start).value;
    var n := |m.start|;
    FindFirst(t, m.start, 0);
    OccurrenceChar(t, m.start, s, n - 1);
    TrimEndSpec(t);
    assert t == TrimEnd(t) + t[|TrimEnd(t)|..];
    TrimBlank(t);
    TrimEndBlank(t);
  }

  lemma NoEndInKept(m: Markers, t: string, kept: string, text: string, i: nat)
    requires m.Proper()
    requires kept <= t && kept <= text && |kept| + 2 <= |text|
    requires text[|kept|] == '\n' && text[|kept| + 1] == '\n'
    requires i < |kept| + 2 && !Occurs(t, m.end, i)
    ensures !Occurs(text, m.end, i)
  {
  }

  /** A text that extends `kept` has the same first start marker as `t`, when that marker lies in `kept`. */
  lemma OrphanStaysFirst(m: Markers, t: string, kept: string, text: string, s: nat)
    requires m.Proper()
    requires kept <= t && kept <= text
    requires Find(t, m.start) == Some(s) && s + |m.start| <= |kept|
    ensures Find(text, m.start) == Some(s)
  {
    FindFirst(t, m.start, 0);
    var n := |kept|;
    assert text[..n] == t[..n];
    forall i | 0 <= i <= s
      ensures Occurs(text, m.start, i) <==> Occurs(t, m.start, i)
    {
      OccursInPrefix(text, n, m.start, i);
      OccursInPrefix(t, n, m.start, i);
    }
    FindUnique(text, m.start, 0, s);
  }

  /** Once a block is appended behind an orphan start marker, the span found starts at the orphan. */
  lemma OrphanSpan(m: Markers, t: string, kept: string, block: string, s: nat)
    requires m.Proper()
    requires Framed(m, block) && OrphanStart(m, t) && kept <= t
    requires Find(t, m.start) == Some(s) && s + |m.start| <= |kept|
    ensures FindBlock(m, kept + "\n\n" + block + "\n") == Some(Span(s, |kept| + 2 + |block|))
  {
    var pre := kept + "\n\n";
    var text := pre + block + "\n";
    assert kept <= pre <= text;
    assert Find(text, m.start) == Some(s) by {
      OrphanStaysFirst(m, t, kept, text, s);
    }
    assert FindFrom(text, m.end, s) == Some(|pre| + |block| - |m.end|) by {
      forall i | s <= i < |pre|
        ensures !Occurs(text, m.end, i)
      {
        FindFirst(t, m.end, s);
        NoEndInKept(m, t, kept, text, i);
      }
      FirstEnd(m, pre, block, "\n", s);
    }
  }

  /** What an append does to a text with an orphan start marker at `s`. */
  lemma OrphanAppend(m: Markers, t: string, block: string, force: bool) returns (kept: string, s: nat)
    requires m.Proper()
    requires Framed(m, block) && OrphanStart(m, t)
    ensures Find(t, m.start) == Some(s)
    ensures kept == TrimEnd(t) && kept <= t && s + |m.start| <= |kept|
    ensures InstallText(m, t, block, force).text == kept + "\n\n" + block + "\n"
    ensures FindBlock(m, kept + "\n\n" + block + "\n") == Some(Span(s, |kept| + 2 + |block|))
  {
    OrphanIsKept(m, t);
    TrimEndSpec(t);
    kept := TrimEnd(t);
    s := Find(t, m.start).value;
    OrphanSpan(m, t, kept, block, s);
  }

  // ---- the laws ----

  /** An install is followed by status "present" exactly when the text has no orphan start marker. */
  lemma InstallThenPresent(m: Markers, t: string, block: string, force: bool)
    requires m.Proper()
    requires Framed(m, block)
    ensures StatusText(m, InstallText(m, t, block, force).text, block) == Present <==> !OrphanStart(m, t)
  {
    InstallShape(m, t, block, force);
    var text := InstallText(m, t, block, force).text;
    if OrphanStart(m, t) {
      var kept, s := OrphanAppend(m, t, block, force);
    } else {
      BeforeHasNoStart(m, t);
      BlockSpan(m, Before(m, t), block, After(m, t));
      assert text[|Before(m, t)|..|Before(m, t)| + |block|] == block;
    }
  }

  /** A second install changes nothing exactly when the text has no orphan start marker. */
  lemma InstallIdempotent(m: Markers, t: string, block: string, force: bool, again: bool)
    requires m.Proper()
    requires Framed(m, block)
    ensures var once := InstallText(m, t, block, force).text;
            InstallText(m, once, block, again).text == once <==> !OrphanStart(m, t)
  {
    if OrphanStart(m, t) {
      var kept, s := OrphanAppend(m, t, block, force);
      OrphanReplaced(m, kept, s, block, again);
    } else {
      InstallShape(m, t, block, force);
      SecondInstall(m, t, block, again);
    }
  }

  /** Installing over a block that is found in place changes nothing. */
  lemma SecondInstall(m: Markers, t: string, block: string, force: bool)
    requires m.Proper()
    requires Framed(m, block) && !OrphanStart(m, t)
    ensures var once := Before(m, t) + block + After(m, t);
            InstallText(m, once, block, force).text == once
  {
    var pre, post := Before(m, t), After(m, t);
    BeforeHasNoStart(m, t);
    BlockSpan(m, pre, block, post);
    var text := pre + block + post;
    assert text[..|pre|] == pre;
    assert text[|pre| + |block|..] == post;
  }

  /**
   * With an orphan start marker the second install removes the user's text from that marker on:
   * only what stood before it survives.
   */
  lemma OrphanInstallLosesText(m: Markers, t: string, block: string, force: bool, again: bool)
    requires m.Proper()
    requires Framed(m, block) && OrphanStart(m, t)
    ensures var s := Find(t, m.start).value;
            var once := InstallText(m, t, block, force).text;
            InstallText(m, once, block, again).text == t[..s] + block + "\n"
  {
    var kept, s := OrphanAppend(m, t, block, force);
    assert kept[..s] == t[..s];
    OrphanReplaced(m, kept, s, block, again);
  }

  /** From then on the block is found behind what is left, so nothing more is lost. */
  lemma BlockBehindPrefix(m: Markers, t: string, s: nat, block: string)
    requires m.Proper()
    requires Framed(m, block) && Find(t, m.start) == Some(s)
    ensures FindBlock(m, t[..s] + block + "\n") == Some(Span(s, s + |block|))
  {
    FindFirst(t, m.start, 0);
    NoStartIn(m, t, s);
    BlockSpan(m, t[..s], block, "\n");
  }

  lemma OrphanReplaced(m: Markers, kept: string, s: nat, block: string, again: bool)
    requires m.Proper()
    requires s < |kept|
    requires FindBlock(m, kept + "\n\n" + block + "\n") == Some(Span(s, |kept| + 2 + |block|))
    ensures InstallText(m, kept + "\n\n" + block + "\n", block, again).text == kept[..s] + block + "\n"
    ensures kept + "\n\n" + block + "\n" != kept[..s] + block + "\n"
  {
  }

  /** Refreshing an existing block keeps the text before and after it, and the block is found in place. */
  lemma RefreshKeepsSurroundings(m: Markers, t: string, block: string, force: bool)
    requires m.Proper()
    requires Framed(m, block) && FindBlock(m, t).Some?
    ensures var span := FindBlock(m, t).value;
            var o := InstallText(m, t, block, force);
            && o.action != Installed
            && o.text == t[..span.start] + block + t[span.end..]
            && FindBlock(m, o.text) == Some(Span(span.start, span.start + |block|))
  {
    var span := FindBlock(m, t).value;
    var pre, post := t[..span.start], t[span.end..];
    assert t == pre + t[span.start..span.end] + post;
    assert !Contains(pre, m.start) by {
      FindFirst(t, m.start, 0);
      NoStartIn(m, t, span.start);
    }
    BlockSpan(m, pre, block, post);
  }

  /**
   * On a text without a block, uninstall undoes install up to trailing whitespace: it gives back
   * the trimmed text and one newline, exactly when the text holds no orphan start marker.
   */
  lemma UninstallUndoesInstall(m: Markers, t: string, block: string, force: bool)
    requires m.Proper()
    requires Framed(m, block) && FindBlock(m, t).None? && !Blank(t)
    ensures UninstallText(m, InstallText(m, t, block, force).text).text == TrimEnd(t) + "\n" <==> !OrphanStart(m, t)
  {
    if OrphanStart(m, t) {
      UninstallWithOrphan(m, t, block, force);
    } else {
      UninstallWithoutOrphan(m, t, block, force);
    }
  }

  lemma UninstallWithOrphan(m: Markers, t: string, block: string, force: bool)
    requires m.Proper()
    requires Framed(m, block) && OrphanStart(m, t)
    ensures UninstallText(m, InstallText(m, t, block, force).text).text != TrimEnd(t) + "\n"
  {
    var kept, s := OrphanAppend(m, t, block, force);
    OrphanRemoved(m, kept, s, block);
    assert |TrimEnd(t) + "\n"| > s;
  }

  lemma UninstallWithoutOrphan(m: Markers, t: string, block: string, force: bool)
    requires m.Proper()
    requires Framed(m, block) && FindBlock(m, t).None? && !Blank(t) && !OrphanStart(m, t)
    ensures UninstallText(m, InstallText(m, t, block, force).text).text == TrimEnd(t) + "\n"
  {
    TrimBlank(t);
    TrimEndBlank(t);
    TrimEndSpec(t);
    BeforeHasNoStart(m, t);
    BlockRemoved(m, TrimEnd(t), block);
  }

  lemma OrphanRemoved(m: Markers, kept: string, s: nat, block: string)
    requires m.Proper()
    requires s < |kept|
    requires FindBlock(m, kept + "\n\n" + block + "\n") == Some(Span(s, |kept| + 2 + |block|))
    ensures |UninstallText(m, kept + "\n\n" + block + "\n").text| <= s
  {
  }

  lemma BlockRemoved(m: Markers, kept: string, block: string)
    requires m.Proper()
    requires Framed(m, block) && !Contains(kept + "\n\n", m.start)
    requires kept != "" && !IsWhitespace(kept[|kept| - 1])
    ensures UninstallText(m, kept + "\n\n" + block + "\n") == Outcome(Removed, kept + "\n")
  {
    BlockSpan(m, kept + "\n\n", block, "\n");
    RemovedBlock(kept, block);
    var left := kept + "\n";
    assert !Blank(left) by {
      assert left[|kept| - 1] == kept[|kept| - 1];
    }
    TrimBlank(left);
  }

  lemma RemovedBlock(kept: string, block: string)
    ensures var pre := kept + "\n\n";
            WithoutSpan(pre + block + "\n", Span(|pre|, |pre| + |block|)) == kept + "\n"
  {
  }

  /** A text that already ends in exactly one newline comes back unchanged. */
  lemma UninstallRestores(m: Markers, t: string, block: string, force: bool)
    requires m.Proper()
    requires Framed(m, block) && FindBlock(m, t).None? && !Blank(t) && !OrphanStart(m, t)
    requires t == TrimEnd(t) + "\n"
    ensures UninstallText(m, InstallText(m, t, block, force).text) == Outcome(Removed, t)
  {
    UninstallUndoesInstall(m, t, block, force);
    InstallThenPresent(m, t, block, force);
  }

  /** A blank text comes back empty. */
  lemma UninstallOfBlank(m: Markers, t: string, block: string, force: bool)
    requires m.Proper()
    requires Framed(m, block) && FindBlock(m, t).None? && Blank(t)
    ensures UninstallText(m, InstallText(m, t, block, force).text) == Outcome(Removed, "")
  {
    TrimBlank(t);
    var text := "" + block + "\n";
    assert InstallText(m, t, block, force).text == text;
    BlockSpan(m, "", block, "\n");
    assert text[|block|..] == "\n";
    assert WithoutSpan(text, Span(0, |block|)) == "";
  }

  /** `updated` is `t` without `span` and at most one newline on each side of it. */
  ghost predicate CutsOnlyNewlines(t: string, span: Span, updated: string) {
    exists i, j | 0 <= i <= span.start <= span.end <= j <= |t| ::
      && span.start <= i + 1 && j <= span.end + 1
      && (i < span.start ==> t[i] == '\n')
      && (span.end < j ==> t[span.end] == '\n')
      && updated == t[..i] + t[j..]
  }

  lemma WithoutSpanCuts(t: string, span: Span)
    requires span.start <= span.end <= |t|
    ensures CutsOnlyNewlines(t, span, WithoutSpan(t, span))
  {
  }

  /** Removing a block takes nothing of the user's text but at most one newline on each side. */
  lemma UninstallKeepsUserText(m: Markers, t: string)
    requires m.Proper()
    ensures FindBlock(m, t).None? ==> UninstallText(m, t) == Outcome(Absent, t)
    ensures FindBlock(m, t).Some? ==>
              exists kept :: CutsOnlyNewlines(t, FindBlock(m, t).value, kept)
                && UninstallText(m, t) == Outcome(Removed, if Blank(kept) then "" else kept)
  {
    if FindBlock(m, t).Some? {
      var kept := WithoutSpan(t, FindBlock(m, t).value);
      WithoutSpanCuts(t, FindBlock(m, t).value);
      TrimBlank(kept);
      assert UninstallText(m, t) == Outcome(Removed, if Blank(kept) then "" else kept);
    }
  }
}
