/** Literal, global, left-to-right replacement of a pattern in a string: what
    `s.replace(new RegExp(p, 'g'), r)` does when `p` has no regular-expression
    metacharacters and `r` has no `$` replacement patterns. */
module Text {

  /** `p` occurs in `s` starting at index `i`. */
  predicate OccursAt(s: string, p: string, i: nat) {
    i + |p| <= |s| && s[i..i + |p|] == p
  }

  /** `p` occurs somewhere in `s`. */
  predicate Occurs(s: string, p: string) {
    exists i: nat | i <= |s| :: OccursAt(s, p, i)
  }

  /** No occurrence of `p` in `x + y` starts inside `x` and ends inside `y`. */
  predicate NoMatchAcross(x: string, y: string, p: string) {
    forall i: nat | i < |x| :: |x| < i + |p| ==> !OccursAt(x + y, p, i)
  }

  /** Scan `s` from the left; at every position where `p` matches, emit `r`
      and resume after the match, otherwise copy one character. Matches do not
      overlap and the emitted `r` is never re-scanned. */
  function ReplaceAll(s: string, p: string, r: string): (out: string)
    requires p != []
    ensures |r| == |p| ==> |out| == |s|
    decreases |s|
  {
    if |s| < |p| then s
    else if s[..|p|] == p then r + ReplaceAll(s[|p|..], p, r)
    else [s[0]] + ReplaceAll(s[1..], p, r)
  }

  /** A string in which the pattern does not occur is returned unchanged. */
  lemma {:induction false} ReplaceAllWithoutOccurrence(s: string, p: string, r: string)
    requires p != []
    requires !Occurs(s, p)
    ensures ReplaceAll(s, p, r) == s
    decreases |s|
  {
    if |s| >= |p| {
      assert !OccursAt(s, p, 0);
      assert !Occurs(s[1..], p) by {
        forall i: nat | OccursAt(s[1..], p, i) ensures false {
          assert s[1..][i..i + |p|] == s[i + 1..i + 1 + |p|];
          assert OccursAt(s, p, i + 1);
        }
      }
      ReplaceAllWithoutOccurrence(s[1..], p, r);
    }
  }

  /** Replacing a pattern by itself changes nothing. */
  lemma {:induction false} ReplaceAllByItself(s: string, p: string)
    requires p != []
    ensures ReplaceAll(s, p, p) == s
    decreases |s|
  {
    if |s| >= |p| {
      if s[..|p|] == p {
        ReplaceAllByItself(s[|p|..], p);
        assert s == s[..|p|] + s[|p|..];
      } else {
        ReplaceAllByItself(s[1..], p);
        assert s == [s[0]] + s[1..];
      }
    }
  }

  /** Dropping a prefix of `x` keeps the boundary free of straddling matches. */
  lemma NoMatchAcrossSuffix(x: string, y: string, p: string, d: nat)
    requires NoMatchAcross(x, y, p)
    requires d <= |x|
    ensures NoMatchAcross(x[d..], y, p)
  {
    var x' := x[d..];
    assert x' + y == (x + y)[d..];
    forall i: nat | i < |x'| && |x'| < i + |p| ensures !OccursAt(x' + y, p, i) {
      if i + |p| <= |x' + y| {
        assert (x' + y)[i..i + |p|] == (x + y)[i + d..i + d + |p|];
        assert !OccursAt(x + y, p, i + d);
      }
    }
  }

  /** When no match straddles the boundary between `x` and `y`, replacing in
      `x + y` is replacing in each part separately: the scan of `x + y` reaches
      the boundary exactly, and from there it is the scan of `y`. */
  lemma {:induction false} ReplaceAllSplit(x: string, y: string, p: string, r: string)
    requires p != []
    requires NoMatchAcross(x, y, p)
    ensures ReplaceAll(x + y, p, r) == ReplaceAll(x, p, r) + ReplaceAll(y, p, r)
    decreases |x|
  {
    var s := x + y;
    if x == [] {
      assert s == y;
    } else if |s| < |p| {
      assert ReplaceAll(s, p, r) == s;
    } else if s[..|p|] == p {
      assert OccursAt(s, p, 0);
      assert |p| <= |x|;
      assert x[..|p|] == p;
      var x' := x[|p|..];
      NoMatchAcrossSuffix(x, y, p, |p|);
      assert s[|p|..] == x' + y;
      ReplaceAllSplit(x', y, p, r);
      assert ReplaceAll(s, p, r) == r + ReplaceAll(x' + y, p, r);
      assert ReplaceAll(x, p, r) == r + ReplaceAll(x', p, r);
    } else {
      var x' := x[1..];
      NoMatchAcrossSuffix(x, y, p, 1);
      assert s[1..] == x' + y;
      ReplaceAllSplit(x', y, p, r);
      assert ReplaceAll(s, p, r) == [s[0]] + ReplaceAll(x' + y, p, r);
      if |x| >= |p| {
        assert x[..|p|] == s[..|p|];
        assert ReplaceAll(x, p, r) == [x[0]] + ReplaceAll(x', p, r);
      } else {
        assert ReplaceAll(x, p, r) == x;
        assert ReplaceAll(x', p, r) == x';
        assert x == [x[0]] + x';
      }
    }
  }
}
