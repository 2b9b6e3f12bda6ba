/** `git diff --numstat -z` output and the file changes it lists (crates/core/src/diff_capture.rs), over decoded text. */
module Numstat {
  import opened Base
  import opened Decimal
  import opened Events
  import opened Text

  const NUL: char := '\0'

  // ---- parsing ----

  predicate NonEmpty(s: string) {
    s != ""
  }

  function FieldsOf(output: string): seq<string> {
    Filter(NonEmpty, Split(output, NUL))
  }

  function ParseCount(raw: string): Result<Option<nat>> {
    if raw == "-" then Ok(None)
    else
      match ParseU64(Trim(raw))
      case Some(n) => Ok(Some(n))
      case None => Err("invalid numstat count")
  }

  datatype Header = Header(additions: Option<nat>, deletions: Option<nat>, path: string)

  function ParseCounts(additions: string, deletions: string, path: string): Result<Header> {
    match ParseCount(additions)
    case Err(m) => Err(m)
    case Ok(a) =>
      match ParseCount(deletions)
      case Err(m) => Err(m)
      case Ok(d) => Ok(Header(a, d, path))
  }

  /** Splits at the first two tabs; a header without the second has an empty path. */
  function ParseHeader(h: string): Result<Header> {
    match SplitOnce(h, TAB)
    case None => (match ParseCount(h) case Err(m) => Err(m) case Ok(_) => Err("missing numstat deletions"))
    case Some((additions, rest)) =>
      match SplitOnce(rest, TAB)
      case None => ParseCounts(additions, rest, "")
      case Some((deletions, path)) => ParseCounts(additions, deletions, path)
  }

  function Modification(h: Header): FileChange {
    FileChange(h.path, None, Modified, h.additions, h.deletions, [], None)
  }

  function Rename(h: Header, oldPath: string, path: string): FileChange {
    FileChange(path, Some(oldPath), Renamed, h.additions, h.deletions, [], None)
  }

  /** The next change and the number of fields it takes: after an empty path the next two are the old and the new path. */
  function Next(fields: seq<string>): (r: Result<(FileChange, nat)>)
    requires fields != []
    ensures r.Ok? ==> 1 <= r.value.1 <= |fields|
  {
    match ParseHeader(fields[0])
    case Err(m) => Err(m)
    case Ok(h) =>
      if h.path != "" then Ok((Modification(h), 1))
      else if |fields| < 3 then Err("git numstat rename entry was missing paths")
      else Ok((Rename(h, fields[1], fields[2]), 3))
  }

  function Changes(fields: seq<string>): Result<seq<FileChange>>
    decreases |fields|
  {
    if fields == [] then Ok([])
    else
      match Next(fields)
      case Err(m) => Err(m)
      case Ok((change, taken)) => Followed(change, Changes(fields[taken..]))
  }

  function Followed(change: FileChange, rest: Result<seq<FileChange>>): Result<seq<FileChange>> {
    match rest
    case Err(m) => Err(m)
    case Ok(changes) => Ok([change] + changes)
  }

  function Parse(output: string): Result<seq<FileChange>> {
    Changes(FieldsOf(output))
  }

  /** What the loop has pushed so far, in front of what the remaining fields give. */
  function After(done: seq<FileChange>, rest: Result<seq<FileChange>>): Result<seq<FileChange>> {
    match rest
    case Err(m) => Err(m)
    case Ok(changes) => Ok(done + changes)
  }

  lemma AfterOne(done: seq<FileChange>, change: FileChange, rest: Result<seq<FileChange>>)
    ensures After(done, Followed(change, rest)) == After(done + [change], rest)
  {
    if rest.Ok? {
      assert done + ([change] + rest.value) == done + [change] + rest.value;
    }
  }

  lemma AfterNone(rest: Result<seq<FileChange>>)
    ensures After([], rest) == rest
  {
    if rest.Ok? {
      assert [] + rest.value == rest.value;
    }
  }

  lemma NoFields()
    ensures FieldsOf("") == []
  {
  }

  /** One turn of the loop: the header at `index`, and the two paths after it if its own is empty. */
  method TakeChange(fields: seq<string>, index: nat) returns (change: Result<FileChange>, index': nat)
    requires index < |fields|
    ensures match Next(fields[index..])
            case Err(m) => change == Err(m)
            case Ok((c, taken)) => change == Ok(c) && index' == index + taken
  {
    ghost var rest := fields[index..];
    assert rest[0] == fields[index];
    index' := index + 1;
    var header := ParseHeader(fields[index]);
    if header.Err? {
      return Err(header.message), index';
    }
    if header.value.path == "" {
      if index' + 1 >= |fields| {
        return Err("git numstat rename entry was missing paths"), index';
      }
      assert rest[1] == fields[index'] && rest[2] == fields[index' + 1];
      change := Ok(Rename(header.value, fields[index'], fields[index' + 1]));
      index' := index' + 2;
    } else {
      change := Ok(Modification(header.value));
    }
  }

  lemma ChangesFrom(fields: seq<string>, index: nat, done: seq<FileChange>)
    requires index < |fields|
    ensures match Next(fields[index..])
            case Err(m) => After(done, Changes(fields[index..])) == Err(m)
            case Ok((c, taken)) =>
              After(done, Changes(fields[index..])) == After(done + [c], Changes(fields[index + taken..]))
  {
    var rest := fields[index..];
    if Next(rest).Ok? {
      var (c, taken) := Next(rest).value;
      assert rest[taken..] == fields[index + taken..];
      AfterOne(done, c, Changes(rest[taken..]));
    }
  }

  /** `parse_numstat`: an index runs over the fields, one or three at a time. */
  method ParseNumstat(output: string) returns (r: Result<seq<FileChange>>)
    ensures r == Parse(output)
  {
    if output == "" {
      NoFields();
      return Ok([]);
    }
    var fields := FieldsOf(output);
    var changes: seq<FileChange> := [];
    var index := 0;
    ghost var parsed := Changes(fields);
    assert fields[0..] == fields;
    AfterNone(parsed);
    while index < |fields|
      invariant 0 <= index <= |fields|
      invariant parsed == After(changes, Changes(fields[index..]))
    {
      ChangesFrom(fields, index, changes);
      var change;
      change, index := TakeChange(fields, index);
      if change.Err? {
        return Err(change.message);
      }
      changes := changes + [change.value];
    }
    assert fields[index..] == [] && changes + [] == changes;
    r := Ok(changes);
  }

  // ---- what git prints ----

  function CountText(count: Option<nat>): string {
    if count.Some? then ToString(count.value) else "-"
  }

  function HeaderText(change: FileChange): string {
    CountText(change.additions) + [TAB] + (CountText(change.deletions) + [TAB] + if change.oldPath.None? then change.path else "")
  }

  function RecordFields(change: FileChange): seq<string> {
    if change.oldPath.None? then [HeaderText(change)] else [HeaderText(change), change.oldPath.value, change.path]
  }

  function Terminated(fields: seq<string>): string {
    if fields == [] then "" else fields[0] + [NUL] + Terminated(fields[1..])
  }

  function Render(changes: seq<FileChange>): string {
    if changes == [] then "" else Terminated(RecordFields(changes[0])) + Render(changes[1..])
  }

  predicate IsPath(path: string) {
    path != "" && NUL !in path
  }

  predicate IsCount(count: Option<nat>) {
    count.Some? ==> count.value < U64_LIMIT
  }

  /** A text, binary or renamed file as numstat can list it. Tabs in paths are allowed. */
  predicate Listable(change: FileChange) {
    && IsPath(change.path) && (change.oldPath.Some? ==> IsPath(change.oldPath.value))
    && IsCount(change.additions) && IsCount(change.deletions)
    && change == FileChange(change.path, change.oldPath, if change.oldPath.None? then Modified else Renamed,
                            change.additions, change.deletions, [], None)
  }

  predicate AllListable(changes: seq<FileChange>) {
    forall i | 0 <= i < |changes| :: Listable(changes[i])
  }

  // ---- fields ----

  lemma FieldsAppend(a: string, b: string)
    ensures FieldsOf(a + [NUL] + b) == FieldsOf(a) + FieldsOf(b)
  {
    SplitAppend(a, b, NUL);
    FilterAppend(NonEmpty, Split(a, NUL), Split(b, NUL));
  }

  lemma OneField(field: string)
    requires IsPath(field)
    ensures FieldsOf(field) == [field]
  {
    SplitNone(field, NUL);
    FilterCons(NonEmpty, field, []);
    assert [field] + [] == [field];
  }

  lemma TerminatedCons(fields: seq<string>, rest: string)
    requires fields != []
    ensures Terminated(fields) + rest == fields[0] + [NUL] + (Terminated(fields[1..]) + rest)
  {
  }

  lemma ConsAgain(fields: seq<string>, more: seq<string>)
    requires fields != []
    ensures [fields[0]] + (fields[1..] + more) == fields + more
  {
  }

  lemma {:induction false} FieldsOfTerminated(fields: seq<string>, rest: string)
    requires forall i | 0 <= i < |fields| :: IsPath(fields[i])
    ensures FieldsOf(Terminated(fields) + rest) == fields + FieldsOf(rest)
  {
    if fields == [] {
      assert Terminated(fields) + rest == rest;
    } else {
      var more := Terminated(fields[1..]) + rest;
      TerminatedCons(fields, rest);
      FieldsAppend(fields[0], more);
      OneField(fields[0]);
      FieldsOfTerminated(fields[1..], rest);
      ConsAgain(fields, FieldsOf(rest));
    }
  }

  // ---- headers ----

  lemma CountTextReads(count: Option<nat>)
    requires IsCount(count)
    ensures ParseCount(CountText(count)) == Ok(count)
    ensures TAB !in CountText(count) && NUL !in CountText(count) && CountText(count) != ""
  {
    if count.Some? {
      var s := ToString(count.value);
      ToStringDigits(count.value);
      ParseOfToString(count.value);
      DigitsAreTrimmed(s);
      assert IsDigit(s[0]);
    }
  }

  lemma HeaderTextReads(change: FileChange)
    requires Listable(change)
    ensures ParseHeader(HeaderText(change))
         == Ok(Header(change.additions, change.deletions, if change.oldPath.None? then change.path else ""))
    ensures IsPath(HeaderText(change))
  {
    var tail := if change.oldPath.None? then change.path else "";
    var rest := CountText(change.deletions) + [TAB] + tail;
    CountTextReads(change.additions);
    CountTextReads(change.deletions);
    SplitOnceAt(CountText(change.additions), rest, TAB);
    SplitOnceAt(CountText(change.deletions), tail, TAB);
  }

  // ---- round trip ----

  lemma {:induction false} RenderedFields(changes: seq<FileChange>)
    requires AllListable(changes)
    ensures Changes(FieldsOf(Render(changes))) == Ok(changes)
  {
    if changes == [] {
      NoFields();
    } else {
      var change, rest := changes[0], Render(changes[1..]);
      HeaderTextReads(change);
      FieldsOfTerminated(RecordFields(change), rest);
      RenderedFields(changes[1..]);
      RecordReads(change, FieldsOf(rest), changes[1..]);
      assert changes == [change] + changes[1..];
    }
  }

  lemma RecordReads(change: FileChange, fields: seq<string>, changes: seq<FileChange>)
    requires Listable(change) && Changes(fields) == Ok(changes)
    ensures Changes(RecordFields(change) + fields) == Ok([change] + changes)
  {
    HeaderTextReads(change);
    var all := RecordFields(change) + fields;
    assert all[0] == HeaderText(change);
    if change.oldPath.None? {
      assert all[1..] == fields;
    } else {
      assert all[1] == change.oldPath.value && all[2] == change.path && all[3..] == fields;
    }
  }

  /** Parsing what git prints for any list of text, binary and renamed files gives that list. */
  lemma ParseOfRender(changes: seq<FileChange>)
    requires AllListable(changes)
    ensures Parse(Render(changes)) == Ok(changes)
  {
    RenderedFields(changes);
  }

  // ---- what can be parsed ----

  lemma {:induction false} SplitPieces(s: string, c: char)
    ensures forall i | 0 <= i < |Split(s, c)| :: c !in Split(s, c)[i]
  {
    if s != "" {
      SplitPieces(s[1..], c);
    }
  }

  lemma FieldsArePaths(output: string)
    ensures forall i | 0 <= i < |FieldsOf(output)| :: IsPath(FieldsOf(output)[i])
  {
    SplitPieces(output, NUL);
    FilterMembers(NonEmpty, Split(output, NUL));
    forall i | 0 <= i < |FieldsOf(output)|
      ensures IsPath(FieldsOf(output)[i])
    {
      assert FieldsOf(output)[i] in FieldsOf(output);
    }
  }

  lemma HeaderParts(h: string)
    requires NUL !in h && ParseHeader(h).Ok?
    ensures var p := ParseHeader(h).value; NUL !in p.path && IsCount(p.additions) && IsCount(p.deletions)
  {
    SplitOnceIs(h, TAB);
    var (a, rest) := SplitOnce(h, TAB).value;
    SplitOnceIs(rest, TAB);
    assert forall c | c in rest :: c in h;
    if SplitOnce(rest, TAB).Some? {
      var (d, path) := SplitOnce(rest, TAB).value;
      assert forall c | c in path :: c in rest;
    }
  }

  lemma {:induction false} ChangesAreListable(fields: seq<string>)
    requires forall i | 0 <= i < |fields| :: IsPath(fields[i])
    requires Changes(fields).Ok?
    ensures AllListable(Changes(fields).value)
    decreases |fields|
  {
    if fields != [] {
      HeaderParts(fields[0]);
      ChangesAreListable(fields[Next(fields).value.1..]);
    }
  }

  /**
   * Whatever parses is listable, so the parsed lists are exactly the listable ones, and printing a
   * parsed list and parsing it again gives the same list.
   */
  lemma ParsedIsListable(output: string)
    requires Parse(output).Ok?
    ensures AllListable(Parse(output).value)
    ensures Parse(Render(Parse(output).value)) == Parse(output)
  {
    FieldsArePaths(output);
    ChangesAreListable(FieldsOf(output));
    ParseOfRender(Parse(output).value);
  }

  // ---- concatenation ----

  lemma NextAppend(a: seq<string>, b: seq<string>)
    requires a != [] && Next(a).Ok?
    ensures Next(a + b) == Next(a)
  {
  }

  lemma AfterFollowed(change: FileChange, mine: seq<FileChange>, rest: Result<seq<FileChange>>)
    ensures Followed(change, After(mine, rest)) == After([change] + mine, rest)
  {
    if rest.Ok? {
      assert [change] + (mine + rest.value) == [change] + mine + rest.value;
    }
  }

  lemma DropAppend(a: seq<string>, b: seq<string>, k: nat)
    requires k <= |a|
    ensures (a + b)[k..] == a[k..] + b
  {
  }

  lemma {:induction false} ChangesAppend(a: seq<string>, b: seq<string>)
    requires Changes(a).Ok?
    ensures Changes(a + b) == After(Changes(a).value, Changes(b))
    decreases |a|
  {
    if a == [] {
      assert a + b == b;
      AfterNone(Changes(b));
    } else {
      NextAppend(a, b);
      var (change, taken) := Next(a).value;
      DropAppend(a, b, taken);
      ChangesAppend(a[taken..], b);
      AfterFollowed(change, Changes(a[taken..]).value, Changes(b));
    }
  }

  /** Streams of whole records can be parsed apart: the lists are concatenated, and an error in the second is an error. */
  lemma ParseAppend(a: string, b: string)
    requires a == "" || a[|a| - 1] == NUL
    requires Parse(a).Ok?
    ensures Parse(a + b) == After(Parse(a).value, Parse(b))
  {
    NoFields();
    if a == "" {
      assert a + b == b;
      AfterNone(Parse(b));
    } else {
      var front := a[..|a| - 1];
      assert a == front + [NUL] + "" && a + b == front + [NUL] + b;
      FieldsAppend(front, "");
      FieldsAppend(front, b);
      assert FieldsOf(a) == FieldsOf(front);
      ChangesAppend(FieldsOf(a), FieldsOf(b));
    }
  }
}
