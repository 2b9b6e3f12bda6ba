/** Result shapes shared by the modules: an absent value, and an operation that can fail. */
module Base {
  datatype Option<+T> = None | Some(value: T)

  /** `unwrap_or_default` of an optional text. */
  function OrEmpty(o: Option<string>): string {
    if o.Some? then o.value else ""
  }

  datatype Result<+T> = Ok(value: T) | Err(message: string)

  /** A point in time, in any unit. */
  type Instant = int

  /** Unsigned 64-bit integers are below this. */
  const U64_LIMIT: nat := 0x1_0000_0000_0000_0000

  /** Elements of a finite sequence as a set. */
  function Elements<T>(s: seq<T>): set<T> {
    set x | x in s
  }

  ghost predicate Distinct<T>(s: seq<T>) {
    forall i, j | 0 <= i < j < |s| :: s[i] != s[j]
  }

  /** The elements of `s` that satisfy `p`, in order: what `iter().filter().collect()` keeps. */
  function Filter<T>(p: T -> bool, s: seq<T>): (r: seq<T>)
    ensures |r| <= |s|
  {
    if s == [] then [] else (if p(s[0]) then [s[0]] else []) + Filter(p, s[1..])
  }

  lemma {:induction false} FilterMembers<T>(p: T -> bool, s: seq<T>)
    ensures forall x | x in Filter(p, s) :: x in s && p(x)
    ensures forall x | x in s && p(x) :: x in Filter(p, s)
  {
    if s != [] {
      FilterMembers(p, s[1..]);
      assert forall x | x in s :: x == s[0] || x in s[1..];
    }
  }

  lemma FilterCons<T>(p: T -> bool, x: T, s: seq<T>)
    ensures Filter(p, [x] + s) == (if p(x) then [x] else []) + Filter(p, s)
  {
  }

  lemma {:induction false} FilterAppend<T>(p: T -> bool, a: seq<T>, b: seq<T>)
    ensures Filter(p, a + b) == Filter(p, a) + Filter(p, b)
  {
    if a == [] {
      assert a + b == b;
    } else {
      var c := a + b;
      assert c[0] == a[0] && c[1..] == a[1..] + b;
      FilterAppend(p, a[1..], b);
      var head := if p(a[0]) then [a[0]] else [];
      assert Filter(p, c) == head + Filter(p, c[1..]);
      assert Filter(p, a) == head + Filter(p, a[1..]);
    }
  }

  lemma {:induction false} FilterNone<T>(p: T -> bool, s: seq<T>)
    requires forall x | x in s :: !p(x)
    ensures Filter(p, s) == []
  {
    if s != [] {
      FilterNone(p, s[1..]);
    }
  }

  lemma {:induction false} FilterAll<T>(p: T -> bool, s: seq<T>)
    requires forall x | x in s :: p(x)
    ensures Filter(p, s) == s
  {
    if s != [] {
      FilterAll(p, s[1..]);
    }
  }

  /** The last element that satisfies `p`. */
  function Last<T>(p: T -> bool, s: seq<T>): Option<T> {
    if s == [] then None
    else if p(s[|s| - 1]) then Some(s[|s| - 1])
    else Last(p, s[..|s| - 1])
  }

  ghost predicate LastIndex<T>(p: T -> bool, s: seq<T>, k: nat) {
    k < |s| && p(s[k]) && forall j | k < j < |s| :: !p(s[j])
  }

  lemma {:induction false} LastHasIndex<T>(p: T -> bool, s: seq<T>) returns (k: nat)
    ensures Last(p, s).None? <==> forall j | 0 <= j < |s| :: !p(s[j])
    ensures Last(p, s).Some? ==> LastIndex(p, s, k) && Last(p, s).value == s[k]
  {
    k := 0;
    if s != [] {
      if p(s[|s| - 1]) {
        k := |s| - 1;
      } else {
        k := LastHasIndex(p, s[..|s| - 1]);
      }
    }
  }

  lemma LastIs<T>(p: T -> bool, s: seq<T>, k: nat)
    requires LastIndex(p, s, k)
    ensures Last(p, s) == Some(s[k])
  {
  }
}
