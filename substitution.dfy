/** The plain-text rendering of `generateOutput`: starting from the template,
    each key of the form, in `Object.keys` order, has every `<key>` in the
    text so far replaced by its value. */
module Substitution {
  import opened Text
  import opened FormData

  /** The placeholder `<k>` for field `k`. */
  function Placeholder(k: string): string {
    "<" + k + ">"
  }

  /** `v[k] || ''`: the value of `k`, or the empty string for a missing key. */
  function ValueOf(vals: map<string, string>, k: string): string {
    if k in vals then vals[k] else ""
  }

  /** The field that holds the template. */
  const TemplateKey: string := "prompt_template"

  /** `v.prompt_template || ''`. */
  function TemplateOf(f: Form): string {
    ValueOf(f.values, TemplateKey)
  }

  /** The left fold over `ks`. Each step scans the text produced by the steps
      before it, so a value that contains `<k>` for a later key `k` is
      substituted again. */
  function Substitute(text: string, ks: seq<string>, vals: map<string, string>): (out: string)
    ensures text == "" ==> out == ""
    decreases |ks|
  {
    if ks == [] then text
    else
      var k := ks[|ks| - 1];
      ReplaceAll(Substitute(text, ks[..|ks| - 1], vals), Placeholder(k), ValueOf(vals, k))
  }

  /** The rendered text of a form. */
  function Render(f: Form): (text: string)
    ensures TemplateKey !in f.values ==> text == ""
  {
    Substitute(TemplateOf(f), f.keys, f.values)
  }

  /** A field name in which neither `<` nor `>` occurs. */
  predicate BracketFree(k: string) {
    forall i | 0 <= i < |k| :: k[i] != '<' && k[i] != '>'
  }

  /** A text containing no placeholder of any key is returned unchanged. */
  lemma {:induction false} SubstituteWithoutPlaceholders(text: string, ks: seq<string>, vals: map<string, string>)
    requires forall k | k in ks :: !Occurs(text, Placeholder(k))
    ensures Substitute(text, ks, vals) == text
    decreases |ks|
  {
    if ks != [] {
      var k := ks[|ks| - 1];
      SubstituteWithoutPlaceholders(text, ks[..|ks| - 1], vals);
      ReplaceAllWithoutOccurrence(text, Placeholder(k), ValueOf(vals, k));
    }
  }

  /** The placeholder of one field does not occur in that of another. */
  lemma PlaceholderNotInOther(c: string, k: string)
    requires BracketFree(c) && BracketFree(k) && c != k
    ensures !Occurs(Placeholder(c), Placeholder(k))
  {
    var pc, pk := Placeholder(c), Placeholder(k);
    assert pc[1..|pc| - 1] == c && pk[1..|pk| - 1] == k;
    forall i: nat | i <= |pc| ensures !OccursAt(pc, pk, i) {
      if i + |pk| <= |pc| {
        var w := pc[i..i + |pk|];
        if i > 0 {
          assert w[0] == pc[i] == c[i - 1] != pk[0];
        } else if |k| < |c| {
          assert w[|k| + 1] == c[|k|] != pk[|k| + 1];
        } else {
          assert w == pc != pk;
        }
      }
    }
  }

  /** A placeholder never straddles a boundary just before a `<`. */
  lemma NoMatchBeforeOpen(x: string, y: string, k: string)
    requires BracketFree(k)
    requires y != [] && y[0] == '<'
    ensures NoMatchAcross(x, y, Placeholder(k))
  {
    var pk := Placeholder(k);
    forall i: nat | i < |x| < i + |pk| ensures !OccursAt(x + y, pk, i) {
      if i + |pk| <= |x + y| {
        var j := |x| - i;
        assert (x + y)[i..i + |pk|][j] == (x + y)[|x|] == '<';
        if j <= |k| {
          assert pk[j] == k[j - 1] != '<';
        } else {
          assert pk[j] == '>';
        }
      }
    }
  }

  /** A placeholder never straddles a boundary just after a `>`. */
  lemma NoMatchAfterClose(x: string, y: string, k: string)
    requires BracketFree(k)
    requires x != [] && x[|x| - 1] == '>'
    ensures NoMatchAcross(x, y, Placeholder(k))
  {
    var pk := Placeholder(k);
    forall i: nat | i < |x| < i + |pk| ensures !OccursAt(x + y, pk, i) {
      if i + |pk| <= |x + y| {
        var j := |x| - 1 - i;
        assert (x + y)[i..i + |pk|][j] == (x + y)[|x| - 1] == '>';
        if j > 0 {
          assert pk[j] == k[j - 1] != '>';
        } else {
          assert pk[j] == '<';
        }
      }
    }
  }

  /** A placeholder never straddles a boundary followed by text without `>`. */
  lemma NoMatchBeforeNoClose(x: string, y: string, k: string)
    requires BracketFree(k)
    requires forall i | 0 <= i < |y| :: y[i] != '>'
    ensures NoMatchAcross(x, y, Placeholder(k))
  {
    var pk := Placeholder(k);
    forall i: nat | i < |x| < i + |pk| ensures !OccursAt(x + y, pk, i) {
      if i + |pk| <= |x + y| {
        var e := i + |pk| - 1;
        assert (x + y)[i..i + |pk|][|pk| - 1] == (x + y)[e] == y[e - |x|] != '>';
        assert pk[|pk| - 1] == '>';
      }
    }
  }

  /** A text without `<` contains no placeholder. */
  lemma NoPlaceholderWithoutOpen(s: string, k: string)
    requires forall i | 0 <= i < |s| :: s[i] != '<'
    ensures !Occurs(s, Placeholder(k))
  {
    var pk := Placeholder(k);
    forall i: nat | i <= |s| ensures !OccursAt(s, pk, i) {
      if i + |pk| <= |s| {
        assert s[i..i + |pk|][0] == s[i] != pk[0];
      }
    }
  }

  /** Replacing `<k>` leaves the placeholder of another field `c` in place and
      works on the text on either side of it separately. */
  lemma ReplaceAllAroundPlaceholder(a: string, c: string, b: string, k: string, r: string)
    requires BracketFree(c) && BracketFree(k) && c != k
    ensures ReplaceAll(a + Placeholder(c) + b, Placeholder(k), r)
         == ReplaceAll(a, Placeholder(k), r) + Placeholder(c) + ReplaceAll(b, Placeholder(k), r)
  {
    var pc, pk := Placeholder(c), Placeholder(k);
    NoMatchAfterClose(a + pc, b, k);
    ReplaceAllSplit(a + pc, b, pk, r);
    NoMatchBeforeOpen(a, pc, k);
    ReplaceAllSplit(a, pc, pk, r);
    PlaceholderNotInOther(c, k);
    ReplaceAllWithoutOccurrence(pc, pk, r);
  }

  /** A placeholder naming a field that is not a key stays literal, and the
      fold works on the text before and after it independently. */
  lemma {:induction false} SubstituteAroundUnknown(a: string, c: string, b: string, ks: seq<string>, vals: map<string, string>)
    requires BracketFree(c) && c !in ks
    requires forall k | k in ks :: BracketFree(k)
    ensures Substitute(a + Placeholder(c) + b, ks, vals)
         == Substitute(a, ks, vals) + Placeholder(c) + Substitute(b, ks, vals)
    decreases |ks|
  {
    if ks != [] {
      var k := ks[|ks| - 1];
      var init := ks[..|ks| - 1];
      assert forall j | j in init :: j in ks;
      SubstituteAroundUnknown(a, c, b, init, vals);
      ReplaceAllAroundPlaceholder(Substitute(a, init, vals), c, Substitute(b, init, vals), k, ValueOf(vals, k));
    }
  }

  /** `"<a> and <b>"` with `a = x` and `b = y` renders as `x + " and " + y`,
      provided `x` does not itself contain `<b>` (the fold would substitute
      that too). */
  lemma SubstituteExample(x: string, y: string)
    requires !Occurs(x, "<b>")
    ensures Substitute("<a> and <b>", ["a", "b"], map["a" := x, "b" := y]) == x + " and " + y
  {
    var vals := map["a" := x, "b" := y];
    var ks := ["a", "b"];
    assert ks[..1] == ["a"] && ks[..1][..0] == [];
    assert Placeholder("a") == "<a>" && Placeholder("b") == "<b>";
    assert ValueOf(vals, "a") == x && ValueOf(vals, "b") == y;
    ExampleFirstStep(x);
    assert Substitute("<a> and <b>", ["a"], vals) == x + " and <b>";
    ExampleSecondStep(x, y);
  }

  /** Only the leading `<a>` of `"<a> and <b>"` matches `<a>`. */
  lemma ExampleFirstStep(x: string)
    ensures ReplaceAll("<a> and <b>", "<a>", x) == x + " and <b>"
  {
    var pa, rest := "<a>", " and <b>";
    assert Placeholder("a") == pa;
    assert pa + rest == "<a> and <b>";
    NoMatchAfterClose(pa, rest, "a");
    ReplaceAllSplit(pa, rest, pa, x);
    assert ReplaceAll(pa, pa, x) == x + ReplaceAll([], pa, x) == x;
    ExampleFirstStepTail(x);
  }

  /** Only the trailing `<b>` of `x + " and <b>"` matches `<b>`. */
  lemma ExampleSecondStep(x: string, y: string)
    requires !Occurs(x, "<b>")
    ensures ReplaceAll(x + " and <b>", "<b>", y) == x + " and " + y
  {
    var pb, gap := "<b>", " and ";
    assert Placeholder("b") == pb;
    assert x + " and <b>" == (x + gap) + pb;
    NoMatchBeforeOpen(x + gap, pb, "b");
    ReplaceAllSplit(x + gap, pb, pb, y);
    NoMatchBeforeNoClose(x, gap, "b");
    ReplaceAllSplit(x, gap, pb, y);
    ReplaceAllWithoutOccurrence(x, pb, y);
    NoPlaceholderWithoutOpen(gap, "b");
    ReplaceAllWithoutOccurrence(gap, pb, y);
    assert ReplaceAll(pb, pb, y) == y + ReplaceAll([], pb, y) == y;
  }

  /** `<a>` does not occur in `" and <b>"`. */
  lemma ExampleFirstStepTail(x: string)
    ensures ReplaceAll(" and <b>", "<a>", x) == " and <b>"
  {
    var pa, pb, gap := "<a>", "<b>", " and ";
    assert Placeholder("a") == pa && Placeholder("b") == pb;
    assert gap + pb == " and <b>";
    NoMatchBeforeOpen(gap, pb, "a");
    ReplaceAllSplit(gap, pb, pa, x);
    NoPlaceholderWithoutOpen(gap, "a");
    ReplaceAllWithoutOccurrence(gap, pa, x);
    PlaceholderNotInOther("b", "a");
    ReplaceAllWithoutOccurrence(pb, pa, x);
  }

  /** The fold re-scans: with `a = "<b>"` and `b = "Y"`, the template `"<a>"`
      renders as `"Y"`, not as `"<b>"`. */
  lemma SubstituteRescans()
    ensures Substitute("<a>", ["a", "b"], map["a" := "<b>", "b" := "Y"]) == "Y"
  {
    var vals := map["a" := "<b>", "b" := "Y"];
    var ks := ["a", "b"];
    assert ks[..1] == ["a"] && ks[..1][..0] == [];
    assert ReplaceAll("<a>", "<a>", "<b>") == "<b>";
    assert Substitute("<a>", ["a"], vals) == "<b>";
    assert ReplaceAll("<b>", "<b>", "Y") == "Y";
  }
}
