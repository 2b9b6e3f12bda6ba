/** The string operations of the standard library that the parsers and the text editor rely on. */
module Text {
  import opened Base

  /** `char::is_whitespace`: the Unicode White_Space property. */
  predicate IsWhitespace(c: char) {
    || '\U{0009}' <= c <= '\U{000D}' || c == ' ' || c == '\U{0085}' || c == '\U{00A0}' || c == '\U{1680}'
    || '\U{2000}' <= c <= '\U{200A}' || c == '\U{2028}' || c == '\U{2029}' || c == '\U{202F}' || c == '\U{205F}'
    || c == '\U{3000}'
  }

  predicate Blank(s: string) {
    forall i | 0 <= i < |s| :: IsWhitespace(s[i])
  }

  predicate StartsWith(s: string, prefix: string) {
    prefix <= s
  }

  predicate EndsWith(s: string, suffix: string) {
    |suffix| <= |s| && s[|s| - |suffix|..] == suffix
  }

  function TrimEnd(s: string): (r: string)
    ensures |r| <= |s|
  {
    if s != "" && IsWhitespace(s[|s| - 1]) then TrimEnd(s[..|s| - 1]) else s
  }

  function TrimStart(s: string): (r: string)
    ensures |r| <= |s|
  {
    if s != "" && IsWhitespace(s[0]) then TrimStart(s[1..]) else s
  }

  lemma {:induction false} TrimEndSpec(s: string)
    ensures var r := TrimEnd(s);
            r <= s && Blank(s[|r|..]) && (r != "" ==> !IsWhitespace(r[|r| - 1]))
  {
    if s != "" && IsWhitespace(s[|s| - 1]) {
      TrimEndSpec(s[..|s| - 1]);
      var r := TrimEnd(s);
      assert s[|r|..] == s[..|s| - 1][|r|..] + [s[|s| - 1]];
    }
  }

  lemma {:induction false} TrimStartSpec(s: string)
    ensures var r := TrimStart(s);
            r == s[|s| - |r|..] && Blank(s[..|s| - |r|]) && (r != "" ==> !IsWhitespace(r[0]))
  {
    if s != "" && IsWhitespace(s[0]) {
      TrimStartSpec(s[1..]);
      var r := TrimStart(s);
      assert s[..|s| - |r|] == [s[0]] + s[1..][..|s| - 1 - |r|];
    }
  }

  function Trim(s: string): string {
    TrimEnd(TrimStart(s))
  }

  /** Neither end of `s` is whitespace, so trimming leaves it alone. */
  predicate Trimmed(s: string) {
    s == "" || (!IsWhitespace(s[0]) && !IsWhitespace(s[|s| - 1]))
  }

  lemma TrimOfTrimmed(s: string)
    requires Trimmed(s)
    ensures Trim(s) == s && TrimStart(s) == s && TrimEnd(s) == s
  {
  }

  lemma TrimStartPlain(s: string)
    requires s != "" && !IsWhitespace(s[0])
    ensures TrimStart(s) == s
  {
  }

  lemma TrimEndBlank(s: string)
    ensures TrimEnd(s) == "" <==> Blank(s)
  {
  }

  /** A text trims to nothing exactly when every character is whitespace. */
  lemma TrimBlank(s: string)
    ensures Trim(s) == "" <==> Blank(s)
  {
    TrimStartSpec(s);
    var front := TrimStart(s);
    TrimEndBlank(front);
    assert Blank(front) <==> front == "";
    if front == "" {
      assert s[..|s|] == s;
    } else {
      assert s[|s| - |front|] == front[0];
    }
  }

  lemma TrimEndUnique(s: string, r: string)
    requires r <= s && Blank(s[|r|..])
    requires r != "" ==> !IsWhitespace(r[|r| - 1])
    ensures TrimEnd(s) == r
  {
  }

  predicate Occurs(s: string, pattern: string, i: nat) {
    i + |pattern| <= |s| && s[i..i + |pattern|] == pattern
  }

  predicate Contains(s: string, pattern: string) {
    exists i | 0 <= i <= |s| :: Occurs(s, pattern, i)
  }

  /** `str::find`: the first occurrence at or after `from`. */
  function FindFrom(s: string, pattern: string, from: nat): (r: Option<nat>)
    requires from <= |s|
    ensures r.Some? ==> from <= r.value && r.value + |pattern| <= |s|
    decreases |s| - from
  {
    if Occurs(s, pattern, from) then Some(from)
    else if from == |s| then None
    else FindFrom(s, pattern, from + 1)
  }

  function Find(s: string, pattern: string): (r: Option<nat>)
    ensures r.Some? ==> r.value + |pattern| <= |s|
  {
    FindFrom(s, pattern, 0)
  }

  /** What is found is an occurrence, and the first one; nothing is found only when there is none. */
  lemma {:induction false} FindFirst(s: string, pattern: string, from: nat)
    requires from <= |s|
    ensures var r := FindFrom(s, pattern, from);
            && (r.Some? ==> Occurs(s, pattern, r.value))
            && forall i | from <= i <= |s| && (r.Some? ==> i < r.value) :: !Occurs(s, pattern, i)
    decreases |s| - from
  {
    if !Occurs(s, pattern, from) && from < |s| {
      FindFirst(s, pattern, from + 1);
    }
  }

  lemma FindUnique(s: string, pattern: string, from: nat, at: nat)
    requires from <= at && Occurs(s, pattern, at)
    requires forall i | from <= i < at :: !Occurs(s, pattern, i)
    ensures FindFrom(s, pattern, from) == Some(at)
  {
    FindFirst(s, pattern, from);
  }

  lemma OccurrenceChar(s: string, pattern: string, i: nat, k: nat)
    requires Occurs(s, pattern, i) && k < |pattern|
    ensures pattern[k] == s[i + k]
  {
  }

  lemma OccursInPrefix(s: string, n: nat, pattern: string, i: nat)
    requires n <= |s| && i + |pattern| <= n
    ensures Occurs(s, pattern, i) <==> Occurs(s[..n], pattern, i)
  {
  }

  lemma OccursInMiddle(pre: string, middle: string, post: string, pattern: string, k: nat)
    requires k + |pattern| <= |middle|
    ensures Occurs(pre + middle + post, pattern, |pre| + k) <==> Occurs(middle, pattern, k)
  {
  }

  /**
   * A pattern that lacks a character cannot match across it: every occurrence in `a + [c] + b`
   * lies wholly before or wholly after the `c`.
   */
  lemma NoMatchAcross(a: string, c: char, b: string, pattern: string, i: nat)
    requires c !in pattern && pattern != ""
    ensures Occurs(a + [c] + b, pattern, i)
      <==> (Occurs(a, pattern, i) || (i > |a| && Occurs(b, pattern, i - |a| - 1)))
  {
    var s := a + [c] + b;
    if Occurs(s, pattern, i) {
      if i <= |a| < i + |pattern| {
        OccurrenceChar(s, pattern, i, |a| - i);
      } else if i > |a| {
        assert b[i - |a| - 1..i - |a| - 1 + |pattern|] == s[i..i + |pattern|];
      } else {
        assert a[i..i + |pattern|] == s[i..i + |pattern|];
      }
    }
    if Occurs(a, pattern, i) {
      assert a[i..i + |pattern|] == s[i..i + |pattern|];
    }
    if i > |a| && Occurs(b, pattern, i - |a| - 1) {
      assert b[i - |a| - 1..i - |a| - 1 + |pattern|] == s[i..i + |pattern|];
    }
  }

  // ---- order ----

  /** `str` comparison: by code point, a prefix before what it prefixes. */
  predicate StringLe(a: string, b: string) {
    a == "" || (b != "" && (a[0] < b[0] || (a[0] == b[0] && StringLe(a[1..], b[1..]))))
  }

  lemma {:induction false} StringLeTotal(a: string, b: string)
    ensures StringLe(a, b) || StringLe(b, a)
  {
    if a != "" && b != "" {
      StringLeTotal(a[1..], b[1..]);
    }
  }

  lemma {:induction false} StringLeTransitive(a: string, b: string, c: string)
    requires StringLe(a, b) && StringLe(b, c)
    ensures StringLe(a, c)
  {
    if a != "" && a[0] == b[0] == c[0] {
      StringLeTransitive(a[1..], b[1..], c[1..]);
    }
  }

  lemma {:induction false} StringLeAntisymmetric(a: string, b: string)
    requires StringLe(a, b) && StringLe(b, a)
    ensures a == b
  {
    if a != "" && b != "" {
      StringLeAntisymmetric(a[1..], b[1..]);
      assert a == [a[0]] + a[1..] && b == [b[0]] + b[1..];
    }
  }

  // ---- splitting at a character ----

  /** `str::split(c)`: the pieces between the separators, one more than there are of them. */
  function Split(s: string, c: char): (pieces: seq<string>)
    ensures pieces != []
  {
    if s == "" then [""]
    else
      var rest := Split(s[1..], c);
      if s[0] == c then [""] + rest else Extended(s[0], rest)
  }

  /** A character in front of the first piece. */
  function Extended(x: char, pieces: seq<string>): (r: seq<string>)
    requires pieces != []
    ensures |r| == |pieces|
  {
    [[x] + pieces[0]] + pieces[1..]
  }

  lemma ExtendedAppend(x: char, a: seq<string>, b: seq<string>)
    requires a != []
    ensures Extended(x, a + b) == Extended(x, a) + b
  {
  }

  function Join(pieces: seq<string>, c: char): string
    requires pieces != []
  {
    if |pieces| == 1 then pieces[0] else pieces[0] + [c] + Join(pieces[1..], c)
  }

  lemma {:induction false} JoinOfSplit(s: string, c: char)
    ensures Join(Split(s, c), c) == s
  {
    if s != "" {
      var rest := Split(s[1..], c);
      JoinOfSplit(s[1..], c);
      if s[0] == c {
        assert Split(s, c)[1..] == rest;
      } else {
        assert Split(s, c)[1..] == rest[1..];
      }
    }
  }

  lemma {:induction false} SplitAppend(a: string, b: string, c: char)
    ensures Split(a + [c] + b, c) == Split(a, c) + Split(b, c)
  {
    var s := a + [c] + b;
    if a == "" {
      assert s[1..] == b;
    } else {
      assert s[0] == a[0] && s[1..] == a[1..] + [c] + b;
      SplitAppend(a[1..], b, c);
      if a[0] == c {
        assert [""] + (Split(a[1..], c) + Split(b, c)) == [""] + Split(a[1..], c) + Split(b, c);
      } else {
        ExtendedAppend(a[0], Split(a[1..], c), Split(b, c));
      }
    }
  }

  lemma {:induction false} SplitNone(s: string, c: char)
    requires c !in s
    ensures Split(s, c) == [s]
  {
    if s != "" {
      assert s == [s[0]] + s[1..];
      SplitNone(s[1..], c);
    }
  }

  lemma {:induction false} JoinAppend(a: seq<string>, b: seq<string>, c: char)
    requires a != [] && b != []
    ensures Join(a + b, c) == Join(a, c) + [c] + Join(b, c)
  {
    if |a| == 1 {
      assert (a + b)[1..] == b;
    } else {
      assert (a + b)[1..] == a[1..] + b;
      JoinAppend(a[1..], b, c);
    }
  }

  /** The text before the first `c` and the text after it. */
  function SplitOnce(s: string, c: char): Option<(string, string)> {
    if s == "" then None
    else if s[0] == c then Some(("", s[1..]))
    else
      match SplitOnce(s[1..], c)
      case None => None
      case Some((a, b)) => Some(([s[0]] + a, b))
  }

  lemma {:induction false} SplitOnceAt(a: string, b: string, c: char)
    requires c !in a
    ensures SplitOnce(a + [c] + b, c) == Some((a, b))
  {
    var s := a + [c] + b;
    if a == "" {
      assert s[1..] == b;
    } else {
      assert s[0] == a[0] && s[0] != c && s[1..] == a[1..] + [c] + b;
      SplitOnceAt(a[1..], b, c);
      assert [a[0]] + a[1..] == a;
    }
  }

  lemma {:induction false} SplitOnceIs(s: string, c: char)
    ensures SplitOnce(s, c).Some? ==> var (a, b) := SplitOnce(s, c).value; s == a + [c] + b
  {
    if s != "" && s[0] != c {
      SplitOnceIs(s[1..], c);
      assert s == [s[0]] + s[1..];
    } else if s != "" {
      assert s == [c] + s[1..];
    }
  }

  // ---- words ----

  /** The pieces between whitespace characters, empty ones included. */
  function Pieces(s: string): (pieces: seq<string>)
    ensures pieces != []
  {
    if s == "" then [""]
    else if IsWhitespace(s[0]) then [""] + Pieces(s[1..])
    else Extended(s[0], Pieces(s[1..]))
  }

  predicate IsWord(s: string) {
    s != ""
  }

  /** `split_whitespace`. */
  function Words(s: string): seq<string> {
    Filter(IsWord, Pieces(s))
  }

  predicate NoSpace(s: string) {
    forall i | 0 <= i < |s| :: !IsWhitespace(s[i])
  }

  lemma {:induction false} PiecesNone(s: string)
    requires NoSpace(s)
    ensures Pieces(s) == [s]
  {
    if s != "" {
      assert s == [s[0]] + s[1..];
      PiecesNone(s[1..]);
    }
  }

  lemma {:induction false} PiecesAppend(a: string, c: char, b: string)
    requires NoSpace(a) && IsWhitespace(c)
    ensures Pieces(a + [c] + b) == [a] + Pieces(b)
  {
    var s := a + [c] + b;
    if a == "" {
      assert s[1..] == b;
    } else {
      assert s[0] == a[0] && s[1..] == a[1..] + [c] + b && a == [a[0]] + a[1..];
      PiecesAppend(a[1..], c, b);
      assert ([a[1..]] + Pieces(b))[1..] == Pieces(b);
    }
  }

  lemma TwoWords(a: string, c: char, b: string)
    requires NoSpace(a) && IsWhitespace(c) && NoSpace(b) && a != "" && b != ""
    ensures Words(a + [c] + b) == [a, b]
  {
    PiecesAppend(a, c, b);
    PiecesNone(b);
    FilterAppend(IsWord, [a], [b]);
    FilterCons(IsWord, a, []);
    FilterCons(IsWord, b, []);
    assert [a] + [] == [a] && [b] + [] == [b];
  }

  // ---- lines ----

  const TAB: char := '\t'
  const LF: char := '\n'
  const CR: char := '\r'

  function StripCr(line: string): string {
    if line != "" && line[|line| - 1] == CR then line[..|line| - 1] else line
  }

  function StripAll(lines: seq<string>): (r: seq<string>)
    ensures |r| == |lines| && forall i | 0 <= i < |r| :: r[i] == StripCr(lines[i])
  {
    seq(|lines|, i requires 0 <= i < |lines| => StripCr(lines[i]))
  }

  /** `str::lines`: a line ends with a line feed or a carriage return and a line feed; the last may lack its end. */
  function Lines(s: string): seq<string> {
    var pieces := Split(s, LF);
    var front, last := pieces[..|pieces| - 1], pieces[|pieces| - 1];
    StripAll(front) + if last == "" then [] else [last]
  }

  function Unlines(lines: seq<string>): string {
    if lines == [] then "" else lines[0] + [LF] + Unlines(lines[1..])
  }

  lemma {:induction false} SplitOfUnlines(lines: seq<string>)
    requires forall i | 0 <= i < |lines| :: LF !in lines[i]
    ensures Split(Unlines(lines), LF) == lines + [""]
  {
    if lines != [] {
      SplitOfUnlines(lines[1..]);
      SplitAppend(lines[0], Unlines(lines[1..]), LF);
      SplitNone(lines[0], LF);
      assert [lines[0]] + (lines[1..] + [""]) == lines + [""];
    }
  }

  lemma LinesOfUnlines(lines: seq<string>)
    requires forall i | 0 <= i < |lines| :: LF !in lines[i]
    ensures Lines(Unlines(lines)) == StripAll(lines)
  {
    SplitOfUnlines(lines);
    assert (lines + [""])[..|lines|] == lines;
  }

  // ---- pieces put together ----

  /** The texts of the elements, one after the other. */
  function Concat<T>(text: T -> string, s: seq<T>): string {
    if s == [] then "" else Concat(text, s[..|s| - 1]) + text(s[|s| - 1])
  }

  lemma Reassociate(a: string, b: string, c: string)
    ensures a + b + c == a + (b + c)
  {
  }

  lemma {:induction false} ConcatAppend<T>(text: T -> string, a: seq<T>, b: seq<T>)
    ensures Concat(text, a + b) == Concat(text, a) + Concat(text, b)
  {
    if b == [] {
      assert a + b == a;
    } else {
      var front, last := b[..|b| - 1], b[|b| - 1];
      assert (a + b)[..|a + b| - 1] == a + front;
      ConcatAppend(text, a, front);
      Reassociate(Concat(text, a), Concat(text, front), text(last));
    }
  }
}
