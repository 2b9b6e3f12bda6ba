/** Two texts joined by a colon: when the joined text gives the two parts back. */
module ColonJoin {
  function Joined(a: string, b: string): string {
    a + [':'] + b
  }

  /** The first colon of a joined text is the separator when the left part has none. */
  lemma SplitAtFirst(a: string, x: string, b: string, y: string)
    requires ':' !in a && ':' !in b && Joined(a, x) == Joined(b, y)
    ensures a == b && x == y
  {
    var s := Joined(a, x);
    assert s[|a|] == ':' && s[|b|] == ':';
    assert forall k | 0 <= k < |a| :: s[k] == a[k] && s[k] != ':';
    assert forall k | 0 <= k < |b| :: s[k] == b[k] && s[k] != ':';
    assert |a| == |b|;
    assert a == s[..|a|] && b == s[..|b|];
    assert x == s[|a| + 1..] && y == s[|b| + 1..];
  }

  /** Likewise the last colon when the right part has none. */
  lemma SplitAtLast(a: string, x: string, b: string, y: string)
    requires ':' !in x && ':' !in y && Joined(a, x) == Joined(b, y)
    ensures a == b && x == y
  {
    var s := Joined(a, x);
    assert s[|a|] == ':' && s[|b|] == ':';
    assert forall k | |a| < k < |s| :: s[k] == x[k - |a| - 1] && s[k] != ':';
    assert forall k | |b| < k < |s| :: s[k] == y[k - |b| - 1] && s[k] != ':';
    assert |a| == |b|;
    assert a == s[..|a|] && b == s[..|b|];
    assert x == s[|a| + 1..] && y == s[|b| + 1..];
  }

  lemma JoinedTwice(a: string, b: string, c: string)
    ensures Joined(a, Joined(b, c)) == Joined(Joined(a, b), c)
  {
  }

  function Colons(s: string): nat {
    if s == "" then 0 else (if s[0] == ':' then 1 else 0) + Colons(s[1..])
  }

  lemma {:induction false} ColonsAppend(a: string, b: string)
    ensures Colons(a + b) == Colons(a) + Colons(b)
  {
    if a == "" {
      assert a + b == b;
    } else {
      assert (a + b)[1..] == a[1..] + b;
      ColonsAppend(a[1..], b);
    }
  }

  lemma {:induction false} ColonsNone(s: string)
    ensures Colons(s) == 0 <==> ':' !in s
  {
    if s != "" {
      ColonsNone(s[1..]);
      assert s == [s[0]] + s[1..];
    }
  }

  lemma ColonsJoined(a: string, b: string)
    ensures Colons(Joined(a, b)) == Colons(a) + 1 + Colons(b)
  {
    ColonsAppend(a + [':'], b);
    ColonsAppend(a, [':']);
    assert [':'][1..] == "";
    assert Colons([':']) == 1 + Colons("");
  }

  lemma CutAtColon(s: string) returns (a: string, b: string)
    requires ':' in s
    ensures s == Joined(a, b)
  {
    var i :| 0 <= i < |s| && s[i] == ':';
    a, b := s[..i], s[i + 1..];
  }

  /** A pair with a colon in either part shares its joined text with another pair. */
  lemma JoinedCollides(a: string, b: string) returns (a': string, b': string)
    requires ':' in a || ':' in b
    ensures Joined(a', b') == Joined(a, b) && (a' != a && b' != b)
  {
    if ':' in a {
      var x, y := CutAtColon(a);
      a', b' := x, Joined(y, b);
      JoinedTwice(x, y, b);
    } else {
      var x, y := CutAtColon(b);
      a', b' := Joined(a, x), y;
      JoinedTwice(a, x, y);
    }
  }

  /** A joined text comes from one pair only exactly when neither part has a colon. */
  lemma JoinedUniqueIff(a: string, b: string)
    ensures (forall a', b' | Joined(a', b') == Joined(a, b) :: a' == a && b' == b) <==> ':' !in a && ':' !in b
  {
    if ':' !in a && ':' !in b {
      forall a', b' | Joined(a', b') == Joined(a, b)
        ensures a' == a && b' == b
      {
        ColonsJoined(a, b);
        ColonsJoined(a', b');
        ColonsNone(a);
        ColonsNone(b);
        ColonsNone(a');
        SplitAtFirst(a, b, a', b');
      }
    } else {
      var a', b' := JoinedCollides(a, b);
    }
  }

  lemma OtherCut(a: string, b: string, a': string, b': string)
    requires a != "" && b != "" && a' != "" && b' != ""
    requires Joined(a', b') == Joined(a, b) && a' != a
    ensures ':' in a[1..] || ':' in b[..|b| - 1]
  {
    var s := Joined(a, b);
    assert s[|a'|] == ':' && a == s[..|a|] && a' == s[..|a'|];
    if |a'| < |a| {
      assert a[1..][|a'| - 1] == ':';
    } else {
      assert b[..|b| - 1][|a'| - |a| - 1] == ':';
    }
  }

  /** Of the pairs with both parts non-empty, exactly when no colon is left but at the outer ends. */
  lemma JoinedUniqueNonEmptyIff(a: string, b: string)
    requires a != "" && b != ""
    ensures (forall a', b' | a' != "" && b' != "" && Joined(a', b') == Joined(a, b) :: a' == a && b' == b)
       <==> ':' !in a[1..] && ':' !in b[..|b| - 1]
  {
    if ':' in a[1..] {
      var x, y := CutAtColon(a[1..]);
      var a', b' := [a[0]] + x, Joined(y, b);
      assert a == Joined(a', y);
      JoinedTwice(a', y, b);
      assert a' != a;
    } else if ':' in b[..|b| - 1] {
      var x, y := CutAtColon(b[..|b| - 1]);
      var a', b' := Joined(a, x), y + [b[|b| - 1]];
      assert b == Joined(x, b');
      JoinedTwice(a, x, b');
      assert a' != a;
    } else {
      forall a', b' | a' != "" && b' != "" && Joined(a', b') == Joined(a, b)
        ensures a' == a && b' == b
      {
        if a' != a {
          OtherCut(a, b, a', b');
        }
        assert b' == Joined(a', b')[|a'| + 1..] && b == Joined(a, b)[|a| + 1..];
      }
    }
  }

  /** Joined with the same text, two texts are joined alike only if they are the same. */
  lemma JoinedCancel(a: string, b: string, rest: string)
    ensures Joined(a, rest) == Joined(b, rest) <==> a == b
  {
    var x, y := Joined(a, rest), Joined(b, rest);
    if x == y {
      assert a == x[..|a|] && b == y[..|b|];
    }
  }
}
