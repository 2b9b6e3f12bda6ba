/** Keeping the first element of each key: a filter that inserts every key it passes into a set of seen ones. */
module Dedup {
  import opened Base

  /** The elements whose key is neither seen nor repeated, in order. */
  function Firsts<T, K(==)>(key: T -> K, seen: set<K>, s: seq<T>): seq<T>
    decreases |s|
  {
    if s == [] then []
    else if key(s[0]) in seen then Firsts(key, seen, s[1..])
    else [s[0]] + Firsts(key, seen + {key(s[0])}, s[1..])
  }

  /** One step of the loop that computes it. */
  lemma FirstsFrom<T(!new), K>(key: T -> K, seen: set<K>, s: seq<T>, i: nat)
    requires i < |s|
    ensures Firsts(key, seen, s[i..])
         == if key(s[i]) in seen then Firsts(key, seen, s[i + 1..]) else [s[i]] + Firsts(key, seen + {key(s[i])}, s[i + 1..])
  {
  }

  function Keys<T(==), K>(key: T -> K, s: seq<T>): set<K> {
    set x | x in s :: key(x)
  }

  lemma KeysAppend<T, K>(key: T -> K, a: seq<T>, b: seq<T>)
    ensures Keys(key, a + b) == Keys(key, a) + Keys(key, b)
  {
  }

  lemma KeysCons<T, K>(key: T -> K, x: T, rest: seq<T>)
    ensures Keys(key, [x] + rest) == {key(x)} + Keys(key, rest)
  {
  }

  ghost predicate DistinctKeys<T(!new), K>(key: T -> K, s: seq<T>) {
    forall i, j | 0 <= i < j < |s| :: key(s[i]) != key(s[j])
  }

  /** What is kept has distinct unseen keys, and covers every unseen key. */
  lemma {:induction false} FirstsKeys<T(!new), K>(key: T -> K, seen: set<K>, s: seq<T>)
    ensures DistinctKeys(key, Firsts(key, seen, s))
    ensures Keys(key, Firsts(key, seen, s)) == Keys(key, s) - seen
    decreases |s|
  {
    if s != [] {
      var x, rest := s[0], s[1..];
      assert s == [x] + rest;
      KeysCons(key, x, rest);
      if key(x) in seen {
        FirstsKeys(key, seen, rest);
      } else {
        var more := Firsts(key, seen + {key(x)}, rest);
        FirstsKeys(key, seen + {key(x)}, rest);
        KeysCons(key, x, more);
        assert forall y | y in more :: key(y) in Keys(key, more);
      }
    }
  }

  /** `picks` lists positions of `from` in ascending order, and `s` is what stands there. */
  ghost predicate PicksOut<T(!new)>(picks: seq<nat>, s: seq<T>, from: seq<T>) {
    && |picks| == |s|
    && (forall i | 0 <= i < |s| :: picks[i] < |from| && from[picks[i]] == s[i])
    && (forall i, j | 0 <= i < j < |s| :: picks[i] < picks[j])
  }

  function Shifted(picks: seq<nat>): (r: seq<nat>)
    ensures |r| == |picks| && forall i | 0 <= i < |r| :: r[i] == picks[i] + 1
  {
    seq(|picks|, i requires 0 <= i < |picks| => picks[i] + 1)
  }

  lemma PickLater<T(!new)>(picks: seq<nat>, s: seq<T>, from: seq<T>)
    requires from != [] && PicksOut(picks, s, from[1..])
    ensures PicksOut(Shifted(picks), s, from)
  {
  }

  lemma PickFirst<T(!new)>(picks: seq<nat>, s: seq<T>, from: seq<T>)
    requires from != [] && PicksOut(picks, s, from[1..])
    ensures PicksOut([0] + Shifted(picks), [from[0]] + s, from)
  {
  }

  /** The order is kept. */
  lemma {:induction false} FirstsInOrder<T(!new), K>(key: T -> K, seen: set<K>, s: seq<T>) returns (picks: seq<nat>)
    ensures PicksOut(picks, Firsts(key, seen, s), s)
    decreases |s|
  {
    if s == [] {
      picks := [];
    } else if key(s[0]) in seen {
      var rest := FirstsInOrder(key, seen, s[1..]);
      PickLater(rest, Firsts(key, seen, s[1..]), s);
      picks := Shifted(rest);
    } else {
      var rest := FirstsInOrder(key, seen + {key(s[0])}, s[1..]);
      PickFirst(rest, Firsts(key, seen + {key(s[0])}, s[1..]), s);
      picks := [0] + Shifted(rest);
    }
  }

  lemma {:induction false} FirstsAreFrom<T(!new), K>(key: T -> K, seen: set<K>, s: seq<T>)
    ensures forall x | x in Firsts(key, seen, s) :: x in s && key(x) !in seen
    decreases |s|
  {
    if s != [] {
      FirstsAreFrom(key, seen, s[1..]);
      FirstsAreFrom(key, seen + {key(s[0])}, s[1..]);
    }
  }

  /** Having seen more keeps fewer of the same elements. `also` are the keys kept since, seen on both sides. */
  lemma {:induction false} SeeingMore<T(!new), K>(key: T -> K, seen: set<K>, more: set<K>, also: set<K>, s: seq<T>, p: T -> bool)
    requires also <= seen <= more + also && forall x: T :: p(x) <==> key(x) !in more
    ensures Firsts(key, more + also, s) == Filter(p, Firsts(key, seen, s))
    decreases |s|
  {
    if s != [] {
      var x, rest := s[0], s[1..];
      if key(x) in seen {
        SeeingMore(key, seen, more, also, rest, p);
      } else {
        FilterCons(p, x, Firsts(key, seen + {key(x)}, rest));
        if key(x) in more {
          SeeingMore(key, seen + {key(x)}, more, also, rest, p);
        } else {
          assert more + also + {key(x)} == more + (also + {key(x)});
          SeeingMore(key, seen + {key(x)}, more, also + {key(x)}, rest, p);
        }
      }
    }
  }

  lemma {:induction false} FirstsAppend<T(!new), K>(key: T -> K, seen: set<K>, s: seq<T>, x: T)
    ensures Firsts(key, seen, s + [x]) == Firsts(key, seen, s) + if key(x) in Keys(key, s) + seen then [] else [x]
    decreases |s|
  {
    if s == [] {
      assert s + [x] == [x] && [x][1..] == [];
    } else {
      assert (s + [x])[1..] == s[1..] + [x] && s == [s[0]] + s[1..];
      KeysCons(key, s[0], s[1..]);
      if key(s[0]) in seen {
        FirstsAppend(key, seen, s[1..], x);
      } else {
        FirstsAppend(key, seen + {key(s[0])}, s[1..], x);
      }
    }
  }

  lemma DistinctKeysAppend<T(!new), K>(key: T -> K, a: seq<T>, b: seq<T>)
    ensures DistinctKeys(key, a + b)
       <==> DistinctKeys(key, a) && DistinctKeys(key, b) && Keys(key, a) * Keys(key, b) == {}
  {
    var c := a + b;
    if DistinctKeys(key, c) {
      forall i, j | 0 <= i < |a| && 0 <= j < |b|
        ensures key(a[i]) != key(b[j])
      {
        assert key(c[i]) != key(c[|a| + j]);
      }
      forall i, j | 0 <= i < j < |a|
        ensures key(a[i]) != key(a[j])
      {
        assert key(c[i]) != key(c[j]);
      }
      forall i, j | 0 <= i < j < |b|
        ensures key(b[i]) != key(b[j])
      {
        assert key(c[|a| + i]) != key(c[|a| + j]);
      }
      assert forall x, y | x in a && y in b :: key(x) != key(y);
    } else {
      var i, j :| 0 <= i < j < |c| && key(c[i]) == key(c[j]);
      if i < |a| <= j && DistinctKeys(key, a) && DistinctKeys(key, b) {
        assert a[i] in a && b[j - |a|] in b;
        assert key(a[i]) in Keys(key, a) * Keys(key, b);
      }
    }
  }

  // ---- positions in a filtered sequence ----

  lemma {:induction false} FilterInOrder<T(!new)>(p: T -> bool, s: seq<T>) returns (picks: seq<nat>)
    ensures PicksOut(picks, Filter(p, s), s)
  {
    if s == [] {
      picks := [];
    } else {
      var rest := FilterInOrder(p, s[1..]);
      if p(s[0]) {
        PickFirst(rest, Filter(p, s[1..]), s);
        picks := [0] + Shifted(rest);
      } else {
        PickLater(rest, Filter(p, s[1..]), s);
        picks := Shifted(rest);
        assert Filter(p, s) == Filter(p, s[1..]);
      }
    }
  }

  lemma FilterRank<T>(p: T -> bool, s: seq<T>, i: nat)
    requires i < |s| && p(s[i])
    ensures |Filter(p, s[..i])| < |Filter(p, s)| && Filter(p, s)[|Filter(p, s[..i])|] == s[i]
    ensures forall j | i < j <= |s| :: |Filter(p, s[..i])| < |Filter(p, s[..j])|
  {
    FilterThrough(p, s, i, |s|);
    assert s[..|s|] == s;
    forall j | i < j <= |s|
      ensures |Filter(p, s[..i])| < |Filter(p, s[..j])|
    {
      FilterThrough(p, s, i, j);
    }
  }

  lemma FilterThrough<T>(p: T -> bool, s: seq<T>, i: nat, j: nat)
    requires i < j <= |s| && p(s[i])
    ensures |Filter(p, s[..i])| < |Filter(p, s[..j])| && Filter(p, s[..j])[|Filter(p, s[..i])|] == s[i]
  {
    assert s[..j] == s[..i] + ([s[i]] + s[i + 1..j]);
    FilterAppend(p, s[..i], [s[i]] + s[i + 1..j]);
    FilterCons(p, s[i], s[i + 1..j]);
  }
}
