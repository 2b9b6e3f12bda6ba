/**
 * The stable sort behind `sort_by` and `sort_by_key`, and behind a query's ORDER BY. `le` is the
 * comparison a call site passes: a total preorder, under which elements may tie without being
 * equal.
 */
module Sorting {
  import opened Base

  ghost predicate TotalPreorder<T(!new)>(le: (T, T) -> bool) {
    && (forall x, y :: le(x, y) || le(y, x))
    && (forall x, y, z :: le(x, y) && le(y, z) ==> le(x, z))
  }

  ghost predicate Sorted<T>(le: (T, T) -> bool, s: seq<T>) {
    forall i, j | 0 <= i < j < |s| :: le(s[i], s[j])
  }

  predicate Ties<T>(le: (T, T) -> bool, x: T, y: T) {
    le(x, y) && le(y, x)
  }

  /** Places `x` before the first element it does not exceed. */
  function Insert<T>(le: (T, T) -> bool, x: T, s: seq<T>): (r: seq<T>)
    ensures multiset(r) == multiset(s) + multiset{x}
  {
    if s == [] then [x]
    else if le(x, s[0]) then
      [x] + s
    else
      var rest := Insert(le, x, s[1..]);
      assert s == [s[0]] + s[1..];
      [s[0]] + rest
  }

  function Sort<T>(le: (T, T) -> bool, s: seq<T>): (r: seq<T>)
    ensures multiset(r) == multiset(s)
    ensures |r| == |s|
  {
    if s == [] then []
    else
      assert s == [s[0]] + s[1..];
      var r := Insert(le, s[0], Sort(le, s[1..]));
      MultisetMembers(r, s);
      r
  }

  lemma MultisetMembers<T>(a: seq<T>, b: seq<T>)
    requires multiset(a) == multiset(b)
    ensures |a| == |b|
    ensures forall y | y in a :: y in b
    ensures forall y | y in b :: y in a
  {
    assert |multiset(a)| == |a| && |multiset(b)| == |b|;
    forall y | y in a
      ensures y in b
    {
      assert y in multiset(a);
    }
    forall y | y in b
      ensures y in a
    {
      assert y in multiset(b);
    }
  }

  lemma {:induction false} InsertSorted<T(!new)>(le: (T, T) -> bool, x: T, s: seq<T>)
    requires TotalPreorder(le) && Sorted(le, s)
    ensures Sorted(le, Insert(le, x, s))
  {
    if s != [] {
      if le(x, s[0]) {
        forall i | 0 <= i < |s|
          ensures le(x, s[i])
        {
          assert i == 0 || le(s[0], s[i]);
        }
      } else {
        InsertSorted(le, x, s[1..]);
        var rest := Insert(le, x, s[1..]);
        forall i | 0 <= i < |rest|
          ensures le(s[0], rest[i])
        {
          assert rest[i] in multiset(rest);
          if rest[i] != x {
            assert rest[i] in multiset(s[1..]);
            var k :| 0 <= k < |s[1..]| && s[1..][k] == rest[i];
            assert s[k + 1] == rest[i];
          }
        }
      }
    }
  }

  lemma {:induction false} SortSorted<T(!new)>(le: (T, T) -> bool, s: seq<T>)
    requires TotalPreorder(le)
    ensures Sorted(le, Sort(le, s))
  {
    if s != [] {
      SortSorted(le, s[1..]);
      InsertSorted(le, s[0], Sort(le, s[1..]));
    }
  }

  /** `p` picks out the elements that tie with `k`. */
  ghost predicate IsClass<T(!new)>(le: (T, T) -> bool, k: T, p: T -> bool) {
    forall y :: p(y) <==> Ties(le, y, k)
  }

  lemma ClassNotSplit<T(!new)>(le: (T, T) -> bool, k: T, p: T -> bool, x: T, y: T)
    requires TotalPreorder(le) && IsClass(le, k, p) && p(x) && p(y)
    ensures le(x, y)
  {
  }

  lemma PrependEither<T>(a: seq<T>, b: seq<T>, rest: seq<T>)
    requires a == [] || b == []
    ensures b + (a + rest) == a + (b + rest)
  {
  }

  lemma {:induction false} InsertKeepsClass<T(!new)>(le: (T, T) -> bool, k: T, p: T -> bool, x: T, s: seq<T>)
    requires TotalPreorder(le) && IsClass(le, k, p)
    ensures Filter(p, Insert(le, x, s)) == (if p(x) then [x] else []) + Filter(p, s)
  {
    if s == [] || le(x, s[0]) {
      FilterCons(p, x, s);
    } else {
      InsertKeepsClass(le, k, p, x, s[1..]);
      FilterCons(p, s[0], Insert(le, x, s[1..]));
      assert !(p(x) && p(s[0])) by {
        if p(x) && p(s[0]) {
          ClassNotSplit(le, k, p, x, s[0]);
        }
      }
      PrependEither(if p(x) then [x] else [], if p(s[0]) then [s[0]] else [], Filter(p, s[1..]));
    }
  }

  /** Stability: elements that tie keep their original relative order. */
  lemma {:induction false} SortStable<T(!new)>(le: (T, T) -> bool, k: T, p: T -> bool, s: seq<T>)
    requires TotalPreorder(le) && IsClass(le, k, p)
    ensures Filter(p, Sort(le, s)) == Filter(p, s)
  {
    if s != [] {
      SortStable(le, k, p, s[1..]);
      InsertKeepsClass(le, k, p, s[0], Sort(le, s[1..]));
    }
  }

  lemma {:induction false} SortOfSorted<T(!new)>(le: (T, T) -> bool, s: seq<T>)
    requires Sorted(le, s)
    ensures Sort(le, s) == s
  {
    if s != [] {
      SortOfSorted(le, s[1..]);
      if |s| > 1 {
        assert le(s[0], s[1]);
      }
    }
  }

  lemma SortedHead<T(!new)>(le: (T, T) -> bool, a: seq<T>, y: T)
    requires TotalPreorder(le) && Sorted(le, a) && a != [] && y in multiset(a)
    ensures le(a[0], y)
  {
  }

  lemma TailMultiset<T>(s: seq<T>)
    requires s != []
    ensures multiset(s[1..]) == multiset(s) - multiset{s[0]}
  {
    assert s == [s[0]] + s[1..];
  }

  lemma SameLength<T>(a: seq<T>, b: seq<T>)
    requires multiset(a) == multiset(b)
    ensures |a| == |b|
  {
    assert |multiset(a)| == |a| && |multiset(b)| == |b|;
  }

  lemma SortedTail<T>(le: (T, T) -> bool, s: seq<T>)
    requires Sorted(le, s) && s != []
    ensures Sorted(le, s[1..])
  {
  }

  // ---- neighbours that tie ----

  lemma InsertStep<T>(le: (T, T) -> bool, z: T, x: T, s: seq<T>)
    ensures Insert(le, z, [x] + s) == if le(z, x) then [z] + ([x] + s) else [x] + Insert(le, z, s)
  {
    assert ([x] + s)[1..] == s;
  }

  function Around<T>(a: seq<T>, x: T, y: T, b: seq<T>): seq<T> {
    a + [x, y] + b
  }

  lemma AroundCons<T>(h: T, a: seq<T>, x: T, y: T, b: seq<T>)
    ensures [h] + Around(a, x, y, b) == Around([h] + a, x, y, b)
  {
  }

  lemma AroundNil<T>(x: T, y: T, b: seq<T>)
    ensures Around([], x, y, b) == [x] + ([y] + b)
  {
  }

  lemma AroundTail<T>(a: seq<T>, x: T, y: T, b: seq<T>)
    requires a != []
    ensures Around(a, x, y, b) == [a[0]] + Around(a[1..], x, y, b)
  {
    assert a == [a[0]] + a[1..];
  }

  lemma InsertBeforePair<T(!new)>(le: (T, T) -> bool, z: T, x: T, y: T, b: seq<T>) returns (a': seq<T>, b': seq<T>)
    requires TotalPreorder(le) && Ties(le, x, y)
    ensures Insert(le, z, Around([], x, y, b)) == Around(a', x, y, b')
    ensures Insert(le, z, Around([], y, x, b)) == Around(a', y, x, b')
  {
    AroundNil(x, y, b);
    AroundNil(y, x, b);
    InsertStep(le, z, x, [y] + b);
    InsertStep(le, z, y, [x] + b);
    if le(z, x) {
      a', b' := [z], b;
      AroundCons(z, [], x, y, b);
      AroundCons(z, [], y, x, b);
      assert [z] + [] == [z];
    } else {
      a', b' := [], Insert(le, z, b);
      InsertStep(le, z, y, b);
      InsertStep(le, z, x, b);
      AroundNil(x, y, b');
      AroundNil(y, x, b');
    }
  }

  /** An element is inserted before or after two neighbours that tie, whichever of them comes first. */
  lemma {:induction false} InsertAround<T(!new)>(le: (T, T) -> bool, z: T, a: seq<T>, x: T, y: T, b: seq<T>)
    returns (a': seq<T>, b': seq<T>)
    requires TotalPreorder(le) && Ties(le, x, y)
    ensures Insert(le, z, Around(a, x, y, b)) == Around(a', x, y, b')
    ensures Insert(le, z, Around(a, y, x, b)) == Around(a', y, x, b')
  {
    if a == [] {
      a', b' := InsertBeforePair(le, z, x, y, b);
    } else {
      AroundTail(a, x, y, b);
      AroundTail(a, y, x, b);
      InsertStep(le, z, a[0], Around(a[1..], x, y, b));
      InsertStep(le, z, a[0], Around(a[1..], y, x, b));
      if le(z, a[0]) {
        a', b' := [z] + a, b;
        AroundCons(z, a, x, y, b);
        AroundCons(z, a, y, x, b);
      } else {
        var c, d := InsertAround(le, z, a[1..], x, y, b);
        a', b' := [a[0]] + c, d;
        AroundCons(a[0], c, x, y, d);
        AroundCons(a[0], c, y, x, d);
      }
    }
  }

  /** Of two elements that tie, the one inserted last is placed right before the other. */
  lemma {:induction false} InsertPair<T(!new)>(le: (T, T) -> bool, x: T, y: T, s: seq<T>) returns (a: seq<T>, b: seq<T>)
    requires TotalPreorder(le) && Ties(le, x, y)
    ensures Insert(le, x, Insert(le, y, s)) == Around(a, x, y, b)
    ensures Insert(le, y, Insert(le, x, s)) == Around(a, y, x, b)
  {
    if s == [] || le(y, s[0]) {
      a, b := [], s;
      assert s != [] ==> le(x, s[0]);
      assert Insert(le, y, s) == [y] + s && Insert(le, x, s) == [x] + s;
      InsertStep(le, x, y, s);
      InsertStep(le, y, x, s);
      AroundNil(x, y, s);
      AroundNil(y, x, s);
    } else {
      var h, rest := s[0], s[1..];
      assert s == [h] + rest && !le(x, h);
      InsertStep(le, x, h, rest);
      InsertStep(le, y, h, rest);
      var c, d := InsertPair(le, x, y, rest);
      a, b := [h] + c, d;
      InsertStep(le, x, h, Insert(le, y, rest));
      InsertStep(le, y, h, Insert(le, x, rest));
      AroundCons(h, c, x, y, d);
      AroundCons(h, c, y, x, d);
    }
  }

  lemma SortStep<T>(le: (T, T) -> bool, h: T, s: seq<T>)
    ensures Sort(le, [h] + s) == Insert(le, h, Sort(le, s))
  {
    assert ([h] + s)[1..] == s;
  }

  /** Neighbours that tie stay neighbours: swapping them before the sort swaps them after it. */
  lemma {:induction false} SortSwap<T(!new)>(le: (T, T) -> bool, pre: seq<T>, x: T, y: T, post: seq<T>)
    returns (a: seq<T>, b: seq<T>)
    requires TotalPreorder(le) && Ties(le, x, y)
    ensures Sort(le, Around(pre, x, y, post)) == Around(a, x, y, b)
    ensures Sort(le, Around(pre, y, x, post)) == Around(a, y, x, b)
  {
    if pre == [] {
      AroundNil(x, y, post);
      AroundNil(y, x, post);
      SortStep(le, x, [y] + post);
      SortStep(le, y, [x] + post);
      SortStep(le, y, post);
      SortStep(le, x, post);
      a, b := InsertPair(le, x, y, Sort(le, post));
    } else {
      AroundTail(pre, x, y, post);
      AroundTail(pre, y, x, post);
      SortStep(le, pre[0], Around(pre[1..], x, y, post));
      SortStep(le, pre[0], Around(pre[1..], y, x, post));
      var c, d := SortSwap(le, pre[1..], x, y, post);
      a, b := InsertAround(le, pre[0], c, x, y, d);
    }
  }

  // ---- reading a keyed table in order ----

  ghost predicate TotalOrder<T(!new)>(le: (T, T) -> bool) {
    TotalPreorder(le) && forall x, y :: le(x, y) && le(y, x) ==> x == y
  }

  lemma {:induction false} LeastExists<T(!new)>(le: (T, T) -> bool, s: set<T>)
    requires TotalOrder(le) && s != {}
    ensures exists x :: x in s && forall y | y in s :: le(x, y)
  {
    var z :| z in s;
    var rest := s - {z};
    if rest == {} {
      assert s == {z};
      assert le(z, z);
    } else {
      LeastExists(le, rest);
      var x :| x in rest && forall y | y in rest :: le(x, y);
      var least := if le(x, z) then x else z;
      forall y | y in s
        ensures le(least, y)
      {
        assert le(z, z);
      }
    }
  }

  /** The members of `s` in ascending order. */
  function Ascending<T(!new, ==)>(le: (T, T) -> bool, s: set<T>): (r: seq<T>)
    requires TotalOrder(le)
    ensures |r| == |s|
  {
    if s == {} then []
    else
      LeastExists(le, s);
      var x :| x in s && forall y | y in s :: le(x, y);
      [x] + Ascending(le, s - {x})
  }

  /** It lists each member once, in order. */
  lemma {:induction false} AscendingLists<T(!new)>(le: (T, T) -> bool, s: set<T>)
    requires TotalOrder(le)
    ensures forall x :: x in Ascending(le, s) <==> x in s
    ensures Sorted(le, Ascending(le, s)) && Distinct(Ascending(le, s))
  {
    if s != {} {
      var r := Ascending(le, s);
      AscendingLists(le, s - {r[0]});
    }
  }

  lemma DistinctTail<T(!new)>(r: seq<T>)
    requires Distinct(r) && r != []
    ensures Distinct(r[1..]) && forall x :: x in r[1..] <==> x in r && x != r[0]
  {
  }

  lemma SortedFirstIsLeast<T(!new)>(le: (T, T) -> bool, r: seq<T>, x: T)
    requires TotalOrder(le) && Sorted(le, r) && x in r
    ensures le(r[0], x)
  {
  }

  /** Any listing of the members in order is that one. */
  lemma {:induction false} AscendingUnique<T(!new)>(le: (T, T) -> bool, s: set<T>, r: seq<T>)
    requires TotalOrder(le) && Sorted(le, r) && Distinct(r)
    requires forall x :: x in r <==> x in s
    ensures r == Ascending(le, s)
  {
    if r == [] {
      assert s == {};
    } else {
      assert r[0] in s;
      var a := Ascending(le, s);
      SortedFirstIsLeast(le, r, a[0]);
      assert r[0] == a[0];
      DistinctTail(r);
      AscendingUnique(le, s - {a[0]}, r[1..]);
    }
  }
}
