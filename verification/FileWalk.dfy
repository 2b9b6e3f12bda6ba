/**
 * Walking a source's directories with an explicit stack (crates/core/src/native_source.rs). A tree
 * is finite; reading a directory and parsing a file always succeed here.
 */
module FileWalk {
  import opened Base

  datatype File = File(path: string, mtime: Option<Instant>)

  datatype Entry = Leaf(file: File) | Directory(entries: seq<Entry>)

  /** Unreadable times are never skipped. */
  predicate SkipByMtime(file: File, since: Option<Instant>) {
    since.Some? && file.mtime.Some? && file.mtime.value <= since.value
  }

  function Wanted(included: string -> bool, since: Option<Instant>): File -> bool {
    (file: File) => included(file.path) && !SkipByMtime(file, since)
  }

  // ---- sizes ----

  function Size(e: Entry): nat
    decreases e
  {
    match e
    case Leaf(_) => 1
    case Directory(entries) => 1 + SizeAll(entries)
  }

  function SizeAll(entries: seq<Entry>): nat
    decreases entries
  {
    if entries == [] then 0 else SizeAll(entries[..|entries| - 1]) + Size(entries[|entries| - 1])
  }

  function StackSize(stack: seq<seq<Entry>>): nat {
    if stack == [] then 0 else StackSize(stack[..|stack| - 1]) + 1 + SizeAll(stack[|stack| - 1])
  }

  // ---- the order of the walk ----

  /** The wanted files that stand directly in a directory. */
  function FilesIn(want: File -> bool, entries: seq<Entry>): seq<File> {
    if entries == [] then []
    else
      var last := entries[|entries| - 1];
      FilesIn(want, entries[..|entries| - 1]) + if last.Leaf? && want(last.file) then [last.file] else []
  }

  function DirectoriesIn(entries: seq<Entry>): (r: seq<seq<Entry>>)
    ensures StackSize(r) <= SizeAll(entries)
  {
    if entries == [] then []
    else
      var last := entries[|entries| - 1];
      var front := DirectoriesIn(entries[..|entries| - 1]);
      if last.Directory? then
        assert (front + [last.entries])[..|front|] == front;
        front + [last.entries]
      else front
  }

  lemma {:induction false} StackSizeAppend(a: seq<seq<Entry>>, b: seq<seq<Entry>>)
    ensures StackSize(a + b) == StackSize(a) + StackSize(b)
  {
    if b == [] {
      assert a + b == a;
    } else {
      assert (a + b)[..|a + b| - 1] == a + b[..|b| - 1];
      StackSizeAppend(a, b[..|b| - 1]);
    }
  }

  /** Files of the top directory first, then everything on the stack with its subdirectories pushed. */
  function Visit(want: File -> bool, stack: seq<seq<Entry>>): seq<File>
    decreases StackSize(stack)
  {
    if stack == [] then []
    else
      var below, top := stack[..|stack| - 1], stack[|stack| - 1];
      StackSizeAppend(below, DirectoriesIn(top));
      FilesIn(want, top) + Visit(want, below + DirectoriesIn(top))
  }

  // ---- the recursive walk ----

  function Walk(want: File -> bool, e: Entry): seq<File>
    decreases e
  {
    match e
    case Leaf(file) => if want(file) then [file] else []
    case Directory(entries) => WalkAll(want, entries)
  }

  function WalkAll(want: File -> bool, entries: seq<Entry>): seq<File>
    decreases entries
  {
    if entries == [] then [] else WalkAll(want, entries[..|entries| - 1]) + Walk(want, entries[|entries| - 1])
  }

  function WalkStack(want: File -> bool, stack: seq<seq<Entry>>): seq<File> {
    if stack == [] then [] else WalkStack(want, stack[..|stack| - 1]) + WalkAll(want, stack[|stack| - 1])
  }

  lemma {:induction false} WalkStackAppend(want: File -> bool, a: seq<seq<Entry>>, b: seq<seq<Entry>>)
    ensures WalkStack(want, a + b) == WalkStack(want, a) + WalkStack(want, b)
  {
    if b == [] {
      assert a + b == a;
    } else {
      assert (a + b)[..|a + b| - 1] == a + b[..|b| - 1];
      WalkStackAppend(want, a, b[..|b| - 1]);
    }
  }

  lemma WalkStackMore(want: File -> bool, stack: seq<seq<Entry>>, entries: seq<Entry>)
    ensures WalkStack(want, stack + [entries]) == WalkStack(want, stack) + WalkAll(want, entries)
  {
  }

  /** A directory's walk is its own files and the walks of its subdirectories. */
  lemma {:induction false} WalkParts(want: File -> bool, entries: seq<Entry>)
    ensures multiset(WalkAll(want, entries))
         == multiset(FilesIn(want, entries)) + multiset(WalkStack(want, DirectoriesIn(entries)))
  {
    if entries != [] {
      var front, last := entries[..|entries| - 1], entries[|entries| - 1];
      WalkParts(want, front);
      if last.Directory? {
        WalkStackMore(want, DirectoriesIn(front), last.entries);
        assert FilesIn(want, entries) == FilesIn(want, front) + [] == FilesIn(want, front);
      }
    }
  }

  /** The stack visits the same files as the recursive walk, as often. */
  lemma {:induction false} VisitIsWalk(want: File -> bool, stack: seq<seq<Entry>>)
    ensures multiset(Visit(want, stack)) == multiset(WalkStack(want, stack))
    decreases StackSize(stack)
  {
    if stack != [] {
      var below, top := stack[..|stack| - 1], stack[|stack| - 1];
      StackSizeAppend(below, DirectoriesIn(top));
      VisitIsWalk(want, below + DirectoriesIn(top));
      WalkStackAppend(want, below, DirectoriesIn(top));
      WalkParts(want, top);
    }
  }

  // ---- the loop ----

  /** How many of the files still to come a limit lets through: it is looked at after each one. */
  function Room(limit: Option<nat>, have: nat, more: nat): (n: nat)
    ensures n <= more
  {
    if limit.None? then more
    else
      var left := if limit.value > have then limit.value - have else 1;
      if left < more then left else more
  }

  lemma FilesInStep(want: File -> bool, entries: seq<Entry>, i: nat)
    requires i < |entries|
    ensures FilesIn(want, entries[..i + 1])
         == FilesIn(want, entries[..i]) + if entries[i].Leaf? && want(entries[i].file) then [entries[i].file] else []
    ensures DirectoriesIn(entries[..i + 1])
         == DirectoriesIn(entries[..i]) + if entries[i].Directory? then [entries[i].entries] else []
  {
    assert entries[..i + 1][..i] == entries[..i];
  }

  lemma {:induction false} FilesInPrefix(want: File -> bool, entries: seq<Entry>, i: nat)
    requires i <= |entries|
    ensures FilesIn(want, entries[..i]) <= FilesIn(want, entries)
    decreases |entries| - i
  {
    if i < |entries| {
      FilesInPrefix(want, entries, i + 1);
      FilesInStep(want, entries, i);
    } else {
      assert entries[..i] == entries;
    }
  }

  lemma FullHere(want: File -> bool, limit: Option<nat>, entries: seq<Entry>, i: nat, have: nat)
    requires i < |entries| && limit.Some? && entries[i].Leaf? && want(entries[i].file)
    requires var before := have + |FilesIn(want, entries[..i])|; before < limit.value || before == 0
    requires have + |FilesIn(want, entries[..i])| + 1 >= limit.value
    ensures FilesIn(want, entries) != []
    ensures FilesIn(want, entries)[..Room(limit, have, |FilesIn(want, entries)|)]
         == FilesIn(want, entries[..i]) + [entries[i].file]
  {
    FilesInStep(want, entries, i);
    FilesInPrefix(want, entries, i + 1);
    var taken, all := FilesIn(want, entries[..i + 1]), FilesIn(want, entries);
    assert taken == all[..|taken|] && Room(limit, have, |all|) == |taken|;
  }

  /** Whether the directory's files were all taken; if not, the limit was reached and `sessions` is full. */
  method CollectDirectory(want: File -> bool, limit: Option<nat>, entries: seq<Entry>,
                          sessions: seq<File>, stack: seq<seq<Entry>>)
    returns (sessions': seq<File>, stack': seq<seq<Entry>>, full: bool)
    requires limit.Some? ==> |sessions| < limit.value || |sessions| == 0
    ensures !full ==> sessions' == sessions + FilesIn(want, entries) && stack' == stack + DirectoriesIn(entries)
    ensures !full && limit.Some? ==> |sessions'| < limit.value || |sessions'| == 0
    ensures full ==> FilesIn(want, entries) != []
    ensures full ==> var n := Room(limit, |sessions|, |FilesIn(want, entries)|);
                     limit.Some? && sessions' == sessions + FilesIn(want, entries)[..n] && |sessions'| >= limit.value
  {
    sessions', stack', full := sessions, stack, false;
    assert DirectoriesIn(entries[..0]) == [] && stack + [] == stack && sessions + [] == sessions;
    for i := 0 to |entries|
      invariant sessions' == sessions + FilesIn(want, entries[..i]) && stack' == stack + DirectoriesIn(entries[..i])
      invariant limit.Some? ==> |sessions'| < limit.value || |sessions'| == 0
    {
      FilesInStep(want, entries, i);
      if entries[i].Directory? {
        stack' := stack' + [entries[i].entries];
        assert FilesIn(want, entries[..i + 1]) == FilesIn(want, entries[..i]);
        continue;
      }
      assert DirectoriesIn(entries[..i + 1]) == DirectoriesIn(entries[..i]);
      if !want(entries[i].file) {
        assert FilesIn(want, entries[..i + 1]) == FilesIn(want, entries[..i]);
        continue;
      }
      assert sessions' + [entries[i].file] == sessions + (FilesIn(want, entries[..i]) + [entries[i].file]);
      sessions' := sessions' + [entries[i].file];
      if limit.Some? && |sessions'| >= limit.value {
        full := true;
        FullHere(want, limit, entries, i, |sessions|);
        return;
      }
    }
    assert entries[..|entries|] == entries;
  }

  /** Everything a root holds, in the walk's order: a missing root nothing, a file itself. */
  function VisitRoot(want: File -> bool, root: Option<Entry>): seq<File> {
    match root
    case None => []
    case Some(Leaf(file)) => if want(file) then [file] else []
    case Some(Directory(entries)) => Visit(want, [entries])
  }

  /** `collect_session_files`: as much of the walk as the limit allows. */
  method CollectSessionFiles(want: File -> bool, limit: Option<nat>, root: Option<Entry>, sessions: seq<File>)
    returns (sessions': seq<File>)
    requires limit.Some? ==> |sessions| < limit.value || |sessions| == 0
    ensures var found := VisitRoot(want, root); sessions' == sessions + found[..Room(limit, |sessions|, |found|)]
  {
    sessions' := sessions;
    if root.None? {
      return;
    }
    if root.value.Leaf? {
      if want(root.value.file) {
        sessions' := sessions' + [root.value.file];
      }
      return;
    }
    sessions' := CollectStack(want, limit, [root.value.entries], sessions);
  }

  /** One turn of the loop moves the top directory's files from what is to come to what is done. */
  lemma StackTurn(want: File -> bool, stack: seq<seq<Entry>>, done: seq<File>)
    requires stack != []
    ensures var below, top := stack[..|stack| - 1], stack[|stack| - 1];
            && StackSize(below + DirectoriesIn(top)) < StackSize(stack)
            && done + Visit(want, stack) == (done + FilesIn(want, top)) + Visit(want, below + DirectoriesIn(top))
  {
    var below, top := stack[..|stack| - 1], stack[|stack| - 1];
    StackSizeAppend(below, DirectoriesIn(top));
  }

  /** When the limit is reached inside a directory, what was taken is as much of the whole walk as the limit allows. */
  lemma LimitReached(limit: Option<nat>, sessions: seq<File>, done: seq<File>, files: seq<File>, later: seq<File>)
    requires limit.Some? && files != [] && (|sessions| + |done| < limit.value || |sessions| + |done| == 0)
    requires |sessions| + |done| + Room(limit, |sessions| + |done|, |files|) >= limit.value
    ensures var found := done + files + later;
            sessions + done + files[..Room(limit, |sessions| + |done|, |files|)]
            == sessions + found[..Room(limit, |sessions|, |found|)]
  {
  }

  /** One turn of the loop: the top directory is popped and read. */
  method CollectTop(want: File -> bool, limit: Option<nat>, stack: seq<seq<Entry>>, sessions: seq<File>,
                    ghost start: seq<File>, ghost done: seq<File>)
    returns (sessions': seq<File>, stack': seq<seq<Entry>>, full: bool, ghost done': seq<File>)
    requires stack != [] && sessions == start + done
    requires limit.Some? ==> |sessions| < limit.value || |sessions| == 0
    ensures var found := done + Visit(want, stack);
            if full then sessions' == start + found[..Room(limit, |start|, |found|)]
            else done' + Visit(want, stack') == found && sessions' == start + done' && StackSize(stack') < StackSize(stack)
    ensures !full && limit.Some? ==> |sessions'| < limit.value || |sessions'| == 0
  {
    var top := stack[|stack| - 1];
    ghost var files, later := FilesIn(want, top), Visit(want, stack[..|stack| - 1] + DirectoriesIn(top));
    StackTurn(want, stack, done);
    sessions', stack', full := CollectDirectory(want, limit, top, sessions, stack[..|stack| - 1]);
    done' := done + files;
    if full {
      LimitReached(limit, start, done, files, later);
    } else {
      assert start + done + files == start + done';
    }
  }

  method CollectStack(want: File -> bool, limit: Option<nat>, start: seq<seq<Entry>>, sessions: seq<File>)
    returns (sessions': seq<File>)
    requires limit.Some? ==> |sessions| < limit.value || |sessions| == 0
    ensures var found := Visit(want, start); sessions' == sessions + found[..Room(limit, |sessions|, |found|)]
  {
    sessions' := sessions;
    var stack := start;
    ghost var done: seq<File> := [];
    assert done + Visit(want, start) == Visit(want, start) && sessions + done == sessions;
    while stack != []
      invariant done + Visit(want, stack) == Visit(want, start) && sessions' == sessions + done
      invariant limit.Some? ==> |sessions'| < limit.value || |sessions'| == 0
      decreases StackSize(stack)
    {
      var full;
      sessions', stack, full, done := CollectTop(want, limit, stack, sessions', sessions, done);
      if full {
        return;
      }
    }
    assert done + [] == done;
  }
}
