/**
 * Querying blame rows by file or folder (crates/core/src/sqlite_index.rs): LIKE escaping, the folder
 * pattern, and the choice of the path a row reports. `fold` is what LIKE compares characters by.
 */
module FolderQuery {
  import opened Base
  import opened Text

  // ---- LIKE ----

  type Fold = char -> char

  function SameCase(c: char): char {
    c
  }

  /** SQLite's LIKE unless `case_sensitive_like` is set. */
  function AsciiLower(c: char): char {
    if 'A' <= c <= 'Z' then (c as int + 32) as char else c
  }

  /** `text LIKE pattern ESCAPE '\'`. */
  predicate Like(fold: Fold, pattern: string, text: string)
    decreases |pattern| + |text|
  {
    if pattern == "" then text == ""
    else if pattern[0] == '%' then Like(fold, pattern[1..], text) || (text != "" && Like(fold, pattern, text[1..]))
    else if pattern[0] == '_' then text != "" && Like(fold, pattern[1..], text[1..])
    else if pattern[0] == '\\' then
      |pattern| > 1 && text != "" && fold(pattern[1]) == fold(text[0]) && Like(fold, pattern[2..], text[1..])
    else text != "" && fold(pattern[0]) == fold(text[0]) && Like(fold, pattern[1..], text[1..])
  }

  predicate FoldEqual(fold: Fold, a: string, b: string) {
    |a| == |b| && forall i | 0 <= i < |a| :: fold(a[i]) == fold(b[i])
  }

  // ---- escaping ----

  /** `str::replace` of one character. */
  function Replace(s: string, c: char, sub: string): string {
    if s == "" then "" else (if s[0] == c then sub else [s[0]]) + Replace(s[1..], c, sub)
  }

  /** Three replacements, the escape character's own first. */
  function EscapeLike(s: string): string {
    Replace(Replace(Replace(s, '\\', "\\\\"), '%', "\\%"), '_', "\\_")
  }

  predicate IsSpecial(c: char) {
    c == '\\' || c == '%' || c == '_'
  }

  function EscapedChar(c: char): string {
    if IsSpecial(c) then ['\\', c] else [c]
  }

  function Escaped(s: string): string {
    if s == "" then "" else EscapedChar(s[0]) + Escaped(s[1..])
  }

  lemma {:induction false} ReplaceAppend(a: string, b: string, c: char, sub: string)
    ensures Replace(a + b, c, sub) == Replace(a, c, sub) + Replace(b, c, sub)
  {
    if a == "" {
      assert a + b == b;
    } else {
      assert (a + b)[1..] == a[1..] + b;
      ReplaceAppend(a[1..], b, c, sub);
    }
  }

  lemma {:induction false} ReplaceAbsent(s: string, c: char, sub: string)
    requires c !in s
    ensures Replace(s, c, sub) == s
  {
    if s != "" {
      assert s == [s[0]] + s[1..];
      ReplaceAbsent(s[1..], c, sub);
    }
  }

  lemma ReplaceOne(x: char, c: char, sub: string)
    ensures Replace([x], c, sub) == if x == c then sub else [x]
  {
  }

  lemma EscapeOneChar(x: char)
    ensures EscapeLike([x]) == EscapedChar(x)
  {
    ReplaceOne(x, '\\', "\\\\");
    ReplaceOne(x, '%', "\\%");
    ReplaceOne(x, '_', "\\_");
    if x == '\\' {
      ReplaceAbsent("\\\\", '%', "\\%");
      ReplaceAbsent("\\\\", '_', "\\_");
    } else if x == '%' {
      ReplaceAbsent("\\%", '_', "\\_");
    }
  }

  /** The three replacements in a row are one pass over the characters. */
  lemma {:induction false} EscapeIsOnePass(s: string)
    ensures EscapeLike(s) == Escaped(s)
  {
    if s != "" {
      var x, rest := [s[0]], s[1..];
      assert s == x + rest;
      ReplaceAppend(x, rest, '\\', "\\\\");
      var x1, r1 := Replace(x, '\\', "\\\\"), Replace(rest, '\\', "\\\\");
      ReplaceAppend(x1, r1, '%', "\\%");
      var x2, r2 := Replace(x1, '%', "\\%"), Replace(r1, '%', "\\%");
      ReplaceAppend(x2, r2, '_', "\\_");
      EscapeOneChar(s[0]);
      EscapeIsOnePass(rest);
    }
  }

  lemma LikeEscapedChar(fold: Fold, c: char, pattern: string, text: string)
    ensures Like(fold, EscapedChar(c) + pattern, text)
       <==> text != "" && fold(c) == fold(text[0]) && Like(fold, pattern, text[1..])
  {
  }

  /** An escaped text matches itself and nothing else, and leaves the rest of the pattern to the rest of the text. */
  lemma {:induction false} LikeEscaped(fold: Fold, s: string, pattern: string, text: string)
    ensures Like(fold, Escaped(s) + pattern, text)
       <==> |s| <= |text| && FoldEqual(fold, s, text[..|s|]) && Like(fold, pattern, text[|s|..])
  {
    if s == "" {
      assert Escaped(s) + pattern == pattern && text[..0] == "" && text[0..] == text;
    } else {
      var more := Escaped(s[1..]) + pattern;
      assert Escaped(s) + pattern == EscapedChar(s[0]) + more;
      LikeEscapedChar(fold, s[0], more, text);
      if text != "" {
        LikeEscaped(fold, s[1..], pattern, text[1..]);
        if |s| <= |text| {
          EscapedStep(fold, s, text);
          assert text[1..][|s[1..]|..] == text[|s|..];
        }
      }
    }
  }

  lemma EscapedStep(fold: Fold, s: string, text: string)
    requires s != "" && text != "" && |s| <= |text|
    ensures FoldEqual(fold, s, text[..|s|])
       <==> fold(s[0]) == fold(text[0]) && FoldEqual(fold, s[1..], text[1..][..|s| - 1])
  {
  }

  /** `LIKE escape_like(s)` accepts exactly the texts equal to `s` up to the folding. */
  lemma EscapeIsExact(fold: Fold, s: string, text: string)
    ensures Like(fold, EscapeLike(s), text) <==> FoldEqual(fold, s, text)
  {
    EscapeIsOnePass(s);
    LikeEscaped(fold, s, "", text);
    assert Escaped(s) + "" == Escaped(s);
    if |s| == |text| {
      assert text[..|s|] == text;
    }
  }

  // ---- folders ----

  function TrimEndSlashes(s: string): string {
    if s != "" && s[|s| - 1] == '/' then TrimEndSlashes(s[..|s| - 1]) else s
  }

  function FolderLikePattern(query: string): string {
    EscapeLike(TrimEndSlashes(query)) + "/%"
  }

  predicate PathMatchesFolder(path: string, query: string) {
    var q := TrimEndSlashes(query);
    q != "" && path != q && StartsWith(path, q) && StartsWith(path[|q|..], "/")
  }

  lemma {:induction false} LikeAnything(fold: Fold, text: string)
    ensures Like(fold, "%", text)
  {
    assert "%"[1..] == "";
    if text != "" {
      LikeAnything(fold, text[1..]);
    }
  }

  /** Nothing but a slash folds to what a slash folds to. */
  ghost predicate SlashIsPlain(fold: Fold) {
    forall c :: fold(c) == fold('/') ==> c == '/'
  }

  /** The pattern accepts exactly the texts under the folder, up to the folding. */
  lemma FolderPatternMeans(fold: Fold, query: string, text: string)
    requires SlashIsPlain(fold)
    ensures var q := TrimEndSlashes(query);
            Like(fold, FolderLikePattern(query), text)
            <==> |q| < |text| && FoldEqual(fold, q, text[..|q|]) && text[|q|] == '/'
  {
    var q := TrimEndSlashes(query);
    EscapeIsOnePass(q);
    LikeEscaped(fold, q, "/%", text);
    if |q| < |text| {
      var tail := text[|q|..];
      assert "/%"[1..] == "%";
      LikeAnything(fold, tail[1..]);
      assert Like(fold, "/%", tail) <==> fold('/') == fold(tail[0]);
    } else if |q| == |text| {
      assert !Like(fold, "/%", "");
      assert text[|q|..] == "";
    }
  }

  /** Compared case-sensitively, the pattern agrees with the path test on every path exactly when the query is more than slashes. */
  lemma FolderPatternAgreesIff(query: string)
    ensures (forall path :: Like(SameCase, FolderLikePattern(query), path) <==> PathMatchesFolder(path, query))
       <==> TrimEndSlashes(query) != ""
  {
    var q := TrimEndSlashes(query);
    forall path
      ensures Like(SameCase, FolderLikePattern(query), path) <==> StartsWith(path, q) && StartsWith(path[|q|..], "/")
    {
      FolderPatternMeans(SameCase, query, path);
      SameCaseEqual(q, path);
    }
    if q == "" {
      assert StartsWith("/", q) && "/"[0..] == "/" && StartsWith("/", "/");
      assert !PathMatchesFolder("/", query);
    }
  }

  lemma SameCaseEqual(q: string, path: string)
    ensures |q| < |path| && FoldEqual(SameCase, q, path[..|q|]) && path[|q|] == '/'
       <==> StartsWith(path, q) && StartsWith(path[|q|..], "/")
  {
  }

  // ---- the path a row reports ----

  datatype DiffRow = DiffRow(path: string, oldPath: Option<string>)

  predicate Selected(fold: Fold, row: DiffRow, query: string) {
    || row.path == query || row.oldPath == Some(query)
    || Like(fold, FolderLikePattern(query), row.path)
    || (row.oldPath.Some? && Like(fold, FolderLikePattern(query), row.oldPath.value))
  }

  predicate MatchesQuery(path: string, query: string) {
    path == query || PathMatchesFolder(path, query)
  }

  function ReportedPath(row: DiffRow, query: string): string {
    if MatchesQuery(row.path, query) then row.path
    else if row.oldPath.Some? then row.oldPath.value
    else row.path
  }

  ghost predicate ReportsMatch(fold: Fold, query: string) {
    forall row | Selected(fold, row, query) :: MatchesQuery(ReportedPath(row, query), query)
  }

  /** Under a case-sensitive LIKE the reported path always matches exactly when the query is more than slashes. */
  lemma CaseSensitiveReportsMatchIff(query: string)
    ensures ReportsMatch(SameCase, query) <==> TrimEndSlashes(query) != ""
  {
    FolderPatternAgreesIff(query);
    if TrimEndSlashes(query) == "" {
      var path :| Like(SameCase, FolderLikePattern(query), path) && !PathMatchesFolder(path, query);
      BlankQueryMisses(query);
    }
  }

  lemma BlankQueryMisses(query: string)
    requires TrimEndSlashes(query) == ""
    ensures !ReportsMatch(SameCase, query) && !ReportsMatch(AsciiLower, query)
  {
    var row := DiffRow("/" + query + "x", None);
    FolderPatternMeans(SameCase, query, row.path);
    FolderPatternMeans(AsciiLower, query, row.path);
    assert row.path[0] == '/' && row.path[..0] == "";
    assert Selected(SameCase, row, query) && Selected(AsciiLower, row, query);
    assert !MatchesQuery(ReportedPath(row, query), query);
  }

  predicate IsLetter(c: char) {
    'a' <= c <= 'z' || 'A' <= c <= 'Z'
  }

  function OtherCase(c: char): (d: char)
    ensures IsLetter(c) ==> d != c && AsciiLower(d) == AsciiLower(c)
  {
    if 'a' <= c <= 'z' then (c as int - 32) as char else AsciiLower(c)
  }

  lemma FoldEqualNoLetters(q: string, t: string)
    requires forall i | 0 <= i < |q| :: !IsLetter(q[i])
    ensures FoldEqual(AsciiLower, q, t) <==> q == t
  {
  }

  /**
   * SQLite's LIKE folds ASCII case and nothing turns that off, so the reported path always matches
   * exactly when the query, less its trailing slashes, is non-empty and has no ASCII letter.
   */
  lemma DefaultReportsMatchIff(query: string)
    ensures var q := TrimEndSlashes(query);
            ReportsMatch(AsciiLower, query) <==> q != "" && forall i | 0 <= i < |q| :: !IsLetter(q[i])
  {
    var q := TrimEndSlashes(query);
    if q == "" {
      BlankQueryMisses(query);
    } else if i :| 0 <= i < |q| && IsLetter(q[i]) {
      OtherCaseMisses(query, i);
    } else {
      forall row | Selected(AsciiLower, row, query)
        ensures MatchesQuery(ReportedPath(row, query), query)
      {
        LetterlessPattern(query, row.path);
        if row.oldPath.Some? {
          LetterlessPattern(query, row.oldPath.value);
        }
      }
    }
  }

  lemma LetterlessPattern(query: string, path: string)
    requires var q := TrimEndSlashes(query); q != "" && forall i | 0 <= i < |q| :: !IsLetter(q[i])
    ensures Like(AsciiLower, FolderLikePattern(query), path) <==> PathMatchesFolder(path, query)
  {
    var q := TrimEndSlashes(query);
    FolderPatternMeans(AsciiLower, query, path);
    if |q| < |path| {
      FoldEqualNoLetters(q, path[..|q|]);
    }
  }

  lemma {:induction false} TrimEndSlashesPrefix(s: string)
    ensures TrimEndSlashes(s) <= s
  {
    if s != "" && s[|s| - 1] == '/' {
      TrimEndSlashesPrefix(s[..|s| - 1]);
    }
  }

  lemma OtherCaseMisses(query: string, i: nat)
    requires var q := TrimEndSlashes(query); i < |q| && IsLetter(q[i])
    ensures !ReportsMatch(AsciiLower, query)
  {
    var q := TrimEndSlashes(query);
    var other := q[i := OtherCase(q[i])];
    var path := other + "/x";
    assert path[..|q|] == other && path[|q|] == '/';
    FolderPatternMeans(AsciiLower, query, path);
    var row := DiffRow(path, None);
    assert Selected(AsciiLower, row, query);
    TrimEndSlashesPrefix(query);
    assert path[i] != q[i] && q[i] == query[i];
    assert !StartsWith(path, q);
    assert !MatchesQuery(ReportedPath(row, query), query);
  }
}
