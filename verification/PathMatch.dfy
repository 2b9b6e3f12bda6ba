/** When a recorded path and an anchor name the same file: suffixes that end at a component (crates/core/src/explain.rs). */
module PathMatch {
  import opened Base
  import opened Text

  function WithoutDot(path: string): string {
    if StartsWith(path, "./") then path[2..] else path
  }

  predicate PathMatchesRel(path: string, rel: string) {
    var p, r := WithoutDot(path), WithoutDot(rel);
    p == r || EndsWith(p, "/" + r) || EndsWith(r, "/" + p)
  }

  function Components(path: string): seq<string> {
    Split(path, '/')
  }

  predicate IsSuffix(s: seq<string>, of: seq<string>) {
    |s| <= |of| && of[|of| - |s|..] == s
  }

  lemma SuffixComponents(p: string, r: string)
    requires EndsWith(p, "/" + r)
    ensures |Components(r)| < |Components(p)| && IsSuffix(Components(r), Components(p))
  {
    var front := p[..|p| - |r| - 1];
    assert p == front + ['/'] + r;
    SplitAppend(front, r, '/');
    assert Components(p) == Components(front) + Components(r);
  }

  lemma ComponentsSuffix(p: string, r: string, front: seq<string>)
    requires front != [] && Components(p) == front + Components(r)
    ensures EndsWith(p, "/" + r)
  {
    var parts := Components(r);
    JoinAppend(front, parts, '/');
    JoinOfSplit(p, '/');
    JoinOfSplit(r, '/');
    EndsAfterSlash(Join(front, '/'), r);
  }

  lemma EndsAfterSlash(front: string, r: string)
    ensures EndsWith(front + ['/'] + r, "/" + r)
  {
    assert front + ['/'] + r == front + ("/" + r);
  }

  lemma EndsWithComponents(p: string, r: string)
    ensures EndsWith(p, "/" + r) <==> |Components(r)| < |Components(p)| && IsSuffix(Components(r), Components(p))
  {
    if EndsWith(p, "/" + r) {
      SuffixComponents(p, r);
    }
    var cp, cr := Components(p), Components(r);
    if |cr| < |cp| && IsSuffix(cr, cp) {
      assert cp == cp[..|cp| - |cr|] + cr;
      ComponentsSuffix(p, r, cp[..|cp| - |cr|]);
    }
  }

  /** Two paths match exactly when the components of one are the last components of the other. */
  lemma MatchIsComponentSuffix(path: string, rel: string)
    ensures PathMatchesRel(path, rel)
       <==> var p, r := Components(WithoutDot(path)), Components(WithoutDot(rel)); IsSuffix(r, p) || IsSuffix(p, r)
  {
    var p, r := WithoutDot(path), WithoutDot(rel);
    EndsWithComponents(p, r);
    EndsWithComponents(r, p);
    JoinOfSplit(p, '/');
    JoinOfSplit(r, '/');
    assert IsSuffix(Components(p), Components(r)) && |Components(p)| == |Components(r)| ==> Components(p) == Components(r);
    assert IsSuffix(Components(r), Components(p)) && |Components(p)| == |Components(r)| ==> Components(p) == Components(r);
  }
}
