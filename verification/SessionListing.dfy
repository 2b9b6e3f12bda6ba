/** Listing a source's session files: walk the roots, sort newest first, drop adjacent repeats of a path, cut to the limit. */
module SessionListing {
  import opened Base
  import opened Dedup
  import opened FileWalk
  import opened Sorting

  /** Descending file time; a file without one comes last. */
  predicate NewestFirst(x: File, y: File) {
    y.mtime.None? || (x.mtime.Some? && x.mtime.value >= y.mtime.value)
  }

  lemma NewestFirstIsPreorder()
    ensures TotalPreorder(NewestFirst)
  {
  }

  /** `dedup_by` on the path: of a run of files with one path the first is kept. */
  function AdjacentDedup(s: seq<File>): seq<File>
    decreases |s|
  {
    if |s| <= 1 then s
    else if s[0].path == s[1].path then AdjacentDedup([s[0]] + s[2..])
    else [s[0]] + AdjacentDedup(s[1..])
  }

  /** Everything the roots hold, in the order found. */
  function Found(want: File -> bool, roots: seq<Option<Entry>>): seq<File> {
    if roots == [] then [] else Found(want, roots[..|roots| - 1]) + VisitRoot(want, roots[|roots| - 1])
  }

  function Cut(s: seq<File>, limit: Option<nat>): seq<File> {
    if limit.Some? && limit.value < |s| then s[..limit.value] else s
  }

  function Arranged(found: seq<File>): seq<File> {
    AdjacentDedup(Sort(NewestFirst, found))
  }

  function Listing(want: File -> bool, roots: seq<Option<Entry>>, limit: Option<nat>): seq<File> {
    var found := Found(want, roots);
    Cut(Arranged(found[..Room(limit, 0, |found|)]), limit)
  }

  lemma {:induction false} FoundPrefix(want: File -> bool, roots: seq<Option<Entry>>, i: nat)
    requires i <= |roots|
    ensures Found(want, roots[..i]) <= Found(want, roots)
    decreases |roots| - i
  {
    if i < |roots| {
      FoundPrefix(want, roots, i + 1);
      assert roots[..i + 1][..i] == roots[..i];
    } else {
      assert roots[..i] == roots;
    }
  }

  method CollectRoot(want: File -> bool, limit: Option<nat>, roots: seq<Option<Entry>>, i: nat, sessions: seq<File>)
    returns (sessions': seq<File>, reached: bool)
    requires i < |roots| && sessions == Found(want, roots[..i])
    requires limit.Some? ==> |sessions| < limit.value || |sessions| == 0
    ensures reached <==> limit.Some? && |sessions'| >= limit.value
    ensures !reached ==> sessions' == Found(want, roots[..i + 1])
    ensures reached && limit != Some(0) ==> var found := Found(want, roots); sessions' == found[..Room(limit, 0, |found|)]
  {
    FoundStep(want, roots, i);
    sessions' := CollectSessionFiles(want, limit, roots[i], sessions);
    RootTaken(limit, sessions, VisitRoot(want, roots[i]), Found(want, roots), sessions');
    reached := limit.Some? && |sessions'| >= limit.value;
  }

  /** The roots in turn, until the limit is reached; a limit of 0 counts as reached by a first root that holds nothing. */
  method CollectRoots(want: File -> bool, limit: Option<nat>, roots: seq<Option<Entry>>) returns (sessions: seq<File>)
    ensures limit != Some(0) ==> var found := Found(want, roots); sessions == found[..Room(limit, 0, |found|)]
  {
    sessions := [];
    for i := 0 to |roots|
      invariant sessions == Found(want, roots[..i])
      invariant limit.Some? ==> |sessions| < limit.value || |sessions| == 0
    {
      var reached;
      sessions, reached := CollectRoot(want, limit, roots, i, sessions);
      if reached {
        return;
      }
    }
    assert roots[..|roots|] == roots;
    TookAll(limit, [], Found(want, roots));
  }

  lemma RootTaken(limit: Option<nat>, before: seq<File>, more: seq<File>, found: seq<File>, sessions: seq<File>)
    requires before + more <= found && (limit.Some? ==> |before| < limit.value || |before| == 0)
    requires sessions == before + more[..Room(limit, |before|, |more|)]
    ensures limit.Some? && 0 < limit.value <= |sessions| ==> sessions == found[..Room(limit, 0, |found|)]
    ensures (limit.Some? ==> |sessions| < limit.value) ==> sessions == before + more
  {
  }

  lemma FoundStep(want: File -> bool, roots: seq<Option<Entry>>, i: nat)
    requires i < |roots|
    ensures Found(want, roots[..i + 1]) == Found(want, roots[..i]) + VisitRoot(want, roots[i]) <= Found(want, roots)
  {
    assert roots[..i + 1][..i] == roots[..i];
    FoundPrefix(want, roots, i + 1);
  }

  lemma TookAll(limit: Option<nat>, before: seq<File>, more: seq<File>)
    requires limit.Some? ==> |before| + Room(limit, |before|, |more|) < limit.value || |more| == 0
    ensures before + more[..Room(limit, |before|, |more|)] == before + more
  {
  }

  method ListFileSourceSessions(included: string -> bool, since: Option<Instant>, roots: seq<Option<Entry>>, limit: Option<nat>)
    returns (sessions: seq<File>)
    ensures sessions == Listing(Wanted(included, since), roots, limit)
  {
    sessions := CollectRoots(Wanted(included, since), limit, roots);
    sessions := AdjacentDedup(Sort(NewestFirst, sessions));
    if limit.Some? && limit.value < |sessions| {
      sessions := sessions[..limit.value];
    }
  }

  // ---- what the walk finds ----

  function WalkRoot(want: File -> bool, root: Option<Entry>): seq<File> {
    if root.Some? then Walk(want, root.value) else []
  }

  function WalkRoots(want: File -> bool, roots: seq<Option<Entry>>): seq<File> {
    if roots == [] then [] else WalkRoots(want, roots[..|roots| - 1]) + WalkRoot(want, roots[|roots| - 1])
  }

  lemma VisitRootIsWalk(want: File -> bool, root: Option<Entry>)
    ensures multiset(VisitRoot(want, root)) == multiset(WalkRoot(want, root))
  {
    if root.Some? && root.value.Directory? {
      var entries := root.value.entries;
      VisitIsWalk(want, [entries]);
      assert [entries][..0] == [] && WalkStack(want, []) == [];
      assert [] + WalkAll(want, entries) == WalkAll(want, entries);
    }
  }

  /** Without a limit the stack walk finds exactly what a recursive walk of the roots does, each file as often. */
  lemma {:induction false} FoundIsWalk(want: File -> bool, roots: seq<Option<Entry>>)
    ensures multiset(Found(want, roots)) == multiset(WalkRoots(want, roots))
  {
    if roots != [] {
      FoundIsWalk(want, roots[..|roots| - 1]);
      VisitRootIsWalk(want, roots[|roots| - 1]);
    }
  }

  // ---- dropping adjacent repeats ----

  ghost predicate DistinctPaths(s: seq<File>) {
    forall i, j | 0 <= i < j < |s| :: s[i].path != s[j].path
  }

  ghost predicate BrokenAt(s: seq<File>, i: nat, j: nat, k: nat) {
    i < j < k < |s| && s[i].path == s[k].path && s[j].path != s[i].path
  }

  /** A path comes again after another one. */
  ghost predicate Broken(s: seq<File>) {
    exists i: nat, j: nat, k: nat :: BrokenAt(s, i, j, k)
  }

  function Paths(s: seq<File>): set<string> {
    set f | f in s :: f.path
  }

  lemma PathsCons(x: File, s: seq<File>)
    ensures Paths([x] + s) == {x.path} + Paths(s)
  {
  }

  lemma {:induction false} DedupKeepsPaths(s: seq<File>)
    ensures Paths(AdjacentDedup(s)) == Paths(s)
    ensures forall f | f in AdjacentDedup(s) :: f in s
    ensures |s| > 0 ==> |AdjacentDedup(s)| > 0 && AdjacentDedup(s)[0] == s[0]
    decreases |s|
  {
    if |s| > 1 {
      if s[0].path == s[1].path {
        DedupKeepsPaths([s[0]] + s[2..]);
        PathsCons(s[0], s[2..]);
        PathsCons(s[1], s[2..]);
        PathsCons(s[0], [s[1]] + s[2..]);
        assert s == [s[0]] + ([s[1]] + s[2..]);
      } else {
        DedupKeepsPaths(s[1..]);
        PathsCons(s[0], s[1..]);
        PathsCons(s[0], AdjacentDedup(s[1..]));
        assert s == [s[0]] + s[1..];
      }
    }
  }

  lemma BrokenWithoutRepeat(s: seq<File>)
    requires |s| > 1 && s[0].path == s[1].path
    ensures Broken([s[0]] + s[2..]) <==> Broken(s)
  {
    var t := [s[0]] + s[2..];
    if i: nat, j: nat, k: nat :| BrokenAt(t, i, j, k) {
      assert BrokenAt(s, if i == 0 then 0 else i + 1, j + 1, k + 1);
    }
    if i: nat, j: nat, k: nat :| BrokenAt(s, i, j, k) {
      assert j >= 2;
      assert BrokenAt(t, if i <= 1 then 0 else i - 1, j - 1, k - 1);
    }
  }

  lemma BrokenHead(s: seq<File>)
    requires |s| > 1 && s[0].path != s[1].path
    ensures Broken(s) <==> Broken(s[1..]) || s[0].path in Paths(s[1..])
  {
    var t := s[1..];
    if i: nat, j: nat, k: nat :| BrokenAt(t, i, j, k) {
      assert BrokenAt(s, i + 1, j + 1, k + 1);
    }
    if s[0].path in Paths(t) {
      var f :| f in t && f.path == s[0].path;
      var k :| 0 <= k < |t| && t[k] == f;
      assert BrokenAt(s, 0, 1, k + 1);
    }
    if i: nat, j: nat, k: nat :| BrokenAt(s, i, j, k) {
      if i == 0 {
        assert t[k - 1] == s[k];
      } else {
        assert BrokenAt(t, i - 1, j - 1, k - 1);
      }
    }
  }

  lemma DistinctCons(x: File, s: seq<File>)
    ensures DistinctPaths([x] + s) <==> DistinctPaths(s) && x.path !in Paths(s)
  {
    var t := [x] + s;
    if DistinctPaths(t) {
      forall i, j | 0 <= i < j < |s|
        ensures s[i].path != s[j].path
      {
        assert t[i + 1].path != t[j + 1].path;
      }
      forall f | f in s
        ensures f.path != x.path
      {
        var k :| 0 <= k < |s| && s[k] == f;
        assert t[0].path != t[k + 1].path;
      }
    }
  }

  /** The repeats of a path are all dropped exactly when they stand together. */
  lemma {:induction false} DedupDistinctIff(s: seq<File>)
    ensures DistinctPaths(AdjacentDedup(s)) <==> !Broken(s)
    decreases |s|
  {
    if |s| > 1 {
      if s[0].path == s[1].path {
        DedupDistinctIff([s[0]] + s[2..]);
        BrokenWithoutRepeat(s);
      } else {
        DedupDistinctIff(s[1..]);
        DedupKeepsPaths(s[1..]);
        DistinctCons(s[0], AdjacentDedup(s[1..]));
        BrokenHead(s);
      }
    }
  }

  // ---- sorting and repeats ----

  function SameTime(mtime: Option<Instant>): File -> bool {
    (f: File) => f.mtime == mtime
  }

  lemma SameTimeIsClass(f: File)
    ensures IsClass(NewestFirst, f, SameTime(f.mtime))
  {
  }

  lemma BrokenInFilter(p: File -> bool, s: seq<File>)
    requires Broken(Filter(p, s))
    ensures exists i: nat, j: nat, k: nat :: BrokenAt(s, i, j, k) && p(s[i]) && p(s[j])
  {
    var t := Filter(p, s);
    var picks := FilterInOrder(p, s);
    FilterMembers(p, s);
    var i: nat, j: nat, k: nat :| BrokenAt(t, i, j, k);
    assert t[i] in t && t[j] in t;
    assert BrokenAt(s, picks[i], picks[j], picks[k]);
  }

  lemma BrokenThroughFilter(p: File -> bool, s: seq<File>, i: nat, j: nat, k: nat)
    requires BrokenAt(s, i, j, k) && p(s[i]) && p(s[j]) && p(s[k])
    ensures Broken(Filter(p, s))
  {
    FilterRank(p, s, i);
    FilterRank(p, s, j);
    FilterRank(p, s, k);
    assert BrokenAt(Filter(p, s), |Filter(p, s[..i])|, |Filter(p, s[..j])|, |Filter(p, s[..k])|);
  }

  /** A path always has the same time. */
  ghost predicate TimesAgree(s: seq<File>) {
    forall x, y | x in s && y in s && x.path == y.path :: x.mtime == y.mtime
  }

  /** A path comes again after another one of the same time. */
  ghost predicate BrokenAtOneTime(s: seq<File>) {
    exists i: nat, j: nat, k: nat :: BrokenAt(s, i, j, k) && s[i].mtime == s[j].mtime
  }

  lemma SortedSameTime(s: seq<File>, i: nat, j: nat, k: nat)
    requires Sorted(NewestFirst, s) && i < j < k < |s| && s[i].mtime == s[k].mtime
    ensures s[j].mtime == s[i].mtime
  {
  }

  /** Sorting brings repeats of a path together except where another file of the same time stands between them. */
  lemma SortBreaksIff(s: seq<File>)
    requires TimesAgree(s)
    ensures Broken(Sort(NewestFirst, s)) <==> BrokenAtOneTime(s)
  {
    NewestFirstIsPreorder();
    var r := Sort(NewestFirst, s);
    SortSorted(NewestFirst, s);
    MultisetMembers(r, s);
    if i: nat, j: nat, k: nat :| BrokenAt(r, i, j, k) {
      assert r[i] in s && r[k] in s;
      SortedSameTime(r, i, j, k);
      var p := SameTime(r[i].mtime);
      SameTimeIsClass(r[i]);
      SortStable(NewestFirst, r[i], p, s);
      BrokenThroughFilter(p, r, i, j, k);
      BrokenInFilter(p, s);
    }
    if i: nat, j: nat, k: nat :| BrokenAt(s, i, j, k) && s[i].mtime == s[j].mtime {
      assert s[i] in s && s[k] in s;
      var p := SameTime(s[i].mtime);
      SameTimeIsClass(s[i]);
      SortStable(NewestFirst, s[i], p, s);
      BrokenThroughFilter(p, s, i, j, k);
      BrokenInFilter(p, r);
    }
  }

  /**
   * The files found are listed newest first, and each path once exactly when no path was found again
   * after another one of the same time. Different times for different paths are enough.
   */
  lemma ArrangedIff(found: seq<File>)
    requires TimesAgree(found)
    ensures DistinctPaths(Arranged(found)) <==> !BrokenAtOneTime(found)
    ensures Paths(Arranged(found)) == Paths(found)
    ensures forall f | f in Arranged(found) :: f in found
    ensures Sorted(NewestFirst, Arranged(found))
  {
    NewestFirstIsPreorder();
    var r := Sort(NewestFirst, found);
    SortBreaksIff(found);
    DedupDistinctIff(r);
    DedupKeepsPaths(r);
    MultisetMembers(r, found);
    SortSorted(NewestFirst, found);
    DedupSorted(r);
  }

  lemma {:induction false} DedupSorted(s: seq<File>)
    requires Sorted(NewestFirst, s)
    ensures Sorted(NewestFirst, AdjacentDedup(s))
    decreases |s|
  {
    if |s| > 1 {
      if s[0].path == s[1].path {
        DedupSorted([s[0]] + s[2..]);
      } else {
        DedupSorted(s[1..]);
        DedupKeepsPaths(s[1..]);
        var t := AdjacentDedup(s[1..]);
        forall i | 0 <= i < |t|
          ensures NewestFirst(s[0], t[i])
        {
          assert t[i] in t && t[i] in s[1..];
          var k :| 0 <= k < |s[1..]| && s[1..][k] == t[i];
          assert s[k + 1] == t[i];
        }
      }
    }
  }

  // ---- a tree listed twice ----

  lemma FoundTwice(want: File -> bool, root: Option<Entry>)
    ensures Found(want, [root]) == VisitRoot(want, root)
    ensures Found(want, [root, root]) == VisitRoot(want, root) + VisitRoot(want, root)
  {
    var one, two := [root], [root, root];
    assert one[..0] == [] && two[..1] == one && Found(want, []) == [];
    assert [] + VisitRoot(want, root) == VisitRoot(want, root);
  }

  lemma ListingWithoutLimit(want: File -> bool, roots: seq<Option<Entry>>)
    ensures Listing(want, roots, None) == Arranged(Found(want, roots))
  {
    var found := Found(want, roots);
    assert found[..|found|] == found;
  }

  /** Two files of one time stand between the repeats of each other. */
  lemma TwiceBreaksIff(s: seq<File>)
    requires DistinctPaths(s)
    ensures TimesAgree(s + s)
    ensures BrokenAtOneTime(s + s) <==> exists x, y | x in s && y in s :: x != y && x.mtime == y.mtime
  {
    var t := s + s;
    forall f | f in t
      ensures f in s
    {
    }
    if i: nat, j: nat, k: nat :| BrokenAt(t, i, j, k) && t[i].mtime == t[j].mtime {
      assert t[i] in t && t[j] in t;
    }
    if x, y :| x in s && y in s && x != y && x.mtime == y.mtime {
      EqualTimesBreak(s, x, y);
    }
  }

  lemma EqualTimesBreak(s: seq<File>, x: File, y: File)
    requires DistinctPaths(s) && x in s && y in s && x != y && x.mtime == y.mtime
    ensures BrokenAtOneTime(s + s)
  {
    var t := s + s;
    var i :| 0 <= i < |s| && s[i] == x;
    var j :| 0 <= j < |s| && s[j] == y;
    var lo, hi := if i < j then i else j, if i < j then j else i;
    assert t[lo] == s[lo] && t[hi] == s[hi] && t[|s| + lo] == s[lo];
    assert BrokenAt(t, lo, hi, |s| + lo);
  }

  /**
   * When a tree is listed under two roots, each of its paths is listed once exactly when no two of
   * its wanted files have the same time.
   */
  lemma RootTwiceIff(want: File -> bool, root: Option<Entry>)
    requires DistinctPaths(VisitRoot(want, root))
    ensures DistinctPaths(Listing(want, [root, root], None))
       <==> !exists x, y | x in VisitRoot(want, root) && y in VisitRoot(want, root) :: x != y && x.mtime == y.mtime
  {
    FoundTwice(want, root);
    ListingWithoutLimit(want, [root, root]);
    TwiceBreaksIff(VisitRoot(want, root));
    ArrangedIff(VisitRoot(want, root) + VisitRoot(want, root));
  }

  lemma DedupStep(s: seq<File>, rest: seq<File>)
    requires |s| > 1 && s[0].path != s[1].path && s[1..] == rest
    ensures AdjacentDedup(s) == [s[0]] + AdjacentDedup(rest)
  {
  }

  lemma FourApart(a: File, b: File)
    requires a.path != b.path
    ensures AdjacentDedup([a, b, a, b]) == [a, b, a, b]
  {
    DedupStep([a, b, a, b], [b, a, b]);
    DedupStep([b, a, b], [a, b]);
    DedupStep([a, b], [b]);
  }

  lemma TwoFilesVisited(older: File, newer: File, want: File -> bool)
    requires want(older) && want(newer)
    ensures Visit(want, [[Leaf(older), Leaf(newer)]]) == [older, newer]
  {
    var entries := [Leaf(older), Leaf(newer)];
    var stack: seq<seq<Entry>> := [entries];
    FilesInStep(want, entries, 0);
    FilesInStep(want, entries, 1);
    assert entries[..0] == [] && entries[..2] == entries;
    assert FilesIn(want, entries) == [older, newer] && DirectoriesIn(entries) == [];
    assert stack[..0] == [] && stack[..0] + DirectoriesIn(entries) == [];
  }

  /** Two files of one time in a directory that is listed under two roots are listed twice each. */
  lemma EqualTimesListTwice(a: File, b: File, want: File -> bool)
    requires want(a) && want(b) && a.mtime == b.mtime && a.path != b.path
    ensures var root := Some(Directory([Leaf(a), Leaf(b)])); Listing(want, [root, root], None) == [a, b, a, b]
  {
    var root := Some(Directory([Leaf(a), Leaf(b)]));
    TwoFilesVisited(a, b, want);
    FoundTwice(want, root);
    ListingWithoutLimit(want, [root, root]);
    FourArranged(a, b);
  }

  lemma FourArranged(a: File, b: File)
    requires a.mtime == b.mtime && a.path != b.path
    ensures Arranged([a, b] + [a, b]) == [a, b, a, b]
  {
    var s := [a, b, a, b];
    assert [a, b] + [a, b] == s;
    SortOfSorted(NewestFirst, s);
    FourApart(a, b);
  }

  // ---- a limit ----

  /** Every file listed is at least as new as every file found and not listed. */
  ghost predicate KeepsNewest(listing: seq<File>, found: seq<File>) {
    forall x, y | x in listing && y in found && y !in listing :: NewestFirst(x, y)
  }

  lemma {:induction false} DistinctDedup(s: seq<File>)
    requires DistinctPaths(s)
    ensures AdjacentDedup(s) == s
    decreases |s|
  {
    if |s| > 1 {
      assert s == [s[0]] + s[1..] && s[0].path != s[1].path;
      DistinctCons(s[0], s[1..]);
      DistinctDedup(s[1..]);
    }
  }

  lemma SortedDistinctPaths(s: seq<File>)
    requires DistinctPaths(s)
    ensures DistinctPaths(Sort(NewestFirst, s))
  {
    var r := Sort(NewestFirst, s);
    forall i, j | 0 <= i < j < |r|
      ensures r[i].path != r[j].path
    {
      SortedPair(s, r, i, j);
    }
  }

  lemma SortedPair(s: seq<File>, r: seq<File>, i: nat, j: nat)
    requires DistinctPaths(s) && multiset(r) == multiset(s) && i < j < |r|
    ensures r[i].path != r[j].path
  {
    MultisetMembers(r, s);
    assert r[i] in r && r[j] in r;
    var k :| 0 <= k < |s| && s[k] == r[i];
    var l :| 0 <= l < |s| && s[l] == r[j];
    if k == l {
      TwiceInMultiset(r, i, j);
      OnceInMultiset(s, k);
    }
  }

  lemma TwiceInMultiset(s: seq<File>, i: nat, j: nat)
    requires i < j < |s| && s[i] == s[j]
    ensures multiset(s)[s[i]] >= 2
  {
    assert s == s[..j] + [s[j]] + s[j + 1..];
    assert s[i] in s[..j] && s[i] in multiset(s[..j]);
  }

  lemma OnceInMultiset(s: seq<File>, k: nat)
    requires DistinctPaths(s) && k < |s|
    ensures multiset(s)[s[k]] == 1
  {
    assert s == s[..k] + [s[k]] + s[k + 1..];
    assert s[k] !in s[..k] && s[k] !in s[k + 1..];
    assert s[k] !in multiset(s[..k]) && s[k] !in multiset(s[k + 1..]);
  }

  /** Under a limit exactly the files found first are listed, when the paths found are distinct. */
  lemma LimitedMembers(want: File -> bool, roots: seq<Option<Entry>>, limit: nat)
    requires limit > 0 && DistinctPaths(Found(want, roots))
    ensures var found := Found(want, roots);
            forall f :: f in Listing(want, roots, Some(limit)) <==> f in found[..Room(Some(limit), 0, |found|)]
  {
    var found := Found(want, roots);
    var first := found[..Room(Some(limit), 0, |found|)];
    assert DistinctPaths(first);
    SortedDistinctPaths(first);
    DistinctDedup(Sort(NewestFirst, first));
    MultisetMembers(Sort(NewestFirst, first), first);
  }

  lemma FirstOnesNewestIff(listing: seq<File>, found: seq<File>, n: nat)
    requires DistinctPaths(found) && n <= |found| && forall f :: f in listing <==> f in found[..n]
    ensures KeepsNewest(listing, found) <==> forall i, j | 0 <= i < n <= j < |found| :: NewestFirst(found[i], found[j])
  {
    var first := found[..n];
    assert forall k | 0 <= k < n :: first[k] == found[k] && found[k] in first;
    if KeepsNewest(listing, found) {
      forall i, j | 0 <= i < n <= j < |found|
        ensures NewestFirst(found[i], found[j])
      {
        assert found[j] !in first;
      }
    } else {
      var x, y :| x in listing && y in found && y !in listing && !NewestFirst(x, y);
      var i :| 0 <= i < |first| && first[i] == x;
      var j :| 0 <= j < |found| && found[j] == y;
    }
  }

  /** What a limit keeps are the newest files exactly when each file it lets through is as new as each one found later. */
  lemma LimitKeepsNewestIff(want: File -> bool, roots: seq<Option<Entry>>, limit: nat)
    requires limit > 0 && DistinctPaths(Found(want, roots))
    ensures var found := Found(want, roots);
            KeepsNewest(Listing(want, roots, Some(limit)), found)
            <==> forall i, j | 0 <= i < limit <= j < |found| :: NewestFirst(found[i], found[j])
  {
    var found := Found(want, roots);
    LimitedMembers(want, roots, limit);
    FirstOnesNewestIff(Listing(want, roots, Some(limit)), found, Room(Some(limit), 0, |found|));
  }

  /** A limit of one keeps the file found first, also when the other is newer. */
  lemma LimitKeepsFirstFound(first: File, second: File, want: File -> bool)
    requires want(first) && want(second)
    ensures var roots := [Some(Directory([Leaf(first), Leaf(second)]))];
            && Listing(want, roots, Some(1)) == [first]
            && (first.path != second.path ==> (KeepsNewest([first], Found(want, roots)) <==> NewestFirst(first, second)))
  {
    var roots: seq<Option<Entry>> := [Some(Directory([Leaf(first), Leaf(second)]))];
    TwoFilesVisited(first, second, want);
    assert roots[..0] == [] && Found(want, []) == [];
    assert Found(want, roots) == [first, second];
    assert [first, second][..1] == [first];
    SortOfSorted(NewestFirst, [first]);
  }
}
