/** The form's field values: a JavaScript object from field name to string,
    whose keys `Object.keys` lists in insertion order. */
module FormData {
  import opened Wrappers

  /** `keys` is the insertion order of the object's own keys, `values` what
      each key holds. */
  datatype Form = Form(keys: seq<string>, values: map<string, string>) {

    /** Every key listed once, and exactly the keys that hold a value. */
    predicate WellFormed() {
      && Distinct(keys)
      && (forall k | k in values :: k in keys)
      && (forall i | 0 <= i < |keys| :: keys[i] in values)
    }

    /** `formData[k]`, with `None` for `undefined`. */
    function Get(k: string): Option<string> {
      if k in values then Some(values[k]) else None
    }

    /** The assignment `formData[k] = v`: an existing key keeps its place in
        the order, a new key is appended. */
    function Set(k: string, v: string): (f: Form)
      requires WellFormed()
      ensures f.WellFormed()
      ensures f.Get(k) == Some(v)
      ensures forall j | j != k :: f.Get(j) == Get(j)
      ensures keys <= f.keys && |f.keys| <= |keys| + 1
    {
      Form(if k in values then keys else keys + [k], values[k := v])
    }
  }

  /** No key listed twice. */
  predicate Distinct(ks: seq<string>) {
    forall i, j | 0 <= i < j < |ks| :: ks[i] != ks[j]
  }

  lemma DistinctConcat(a: seq<string>, b: seq<string>)
    requires Distinct(a) && Distinct(b)
    requires forall i | 0 <= i < |b| :: b[i] !in a
    ensures Distinct(a + b)
  {
    forall i, j | 0 <= i < j < |a + b| ensures (a + b)[i] != (a + b)[j] {
      if j >= |a| {
        if i >= |a| {
          assert (a + b)[i] == b[i - |a|] && (a + b)[j] == b[j - |a|];
        } else {
          assert (a + b)[j] == b[j - |a|];
          assert (a + b)[i] == a[i];
        }
      }
    }
  }

  /** The keys of `ks`, in order, that `known` does not hold. */
  function NewKeys(ks: seq<string>, known: map<string, string>): (r: seq<string>)
    ensures forall k :: k in r <==> k in ks && k !in known
    decreases |ks|
  {
    if ks == [] then []
    else (if ks[0] in known then [] else [ks[0]]) + NewKeys(ks[1..], known)
  }

  lemma {:induction false} NewKeysDistinct(ks: seq<string>, known: map<string, string>)
    requires Distinct(ks)
    ensures Distinct(NewKeys(ks, known))
    decreases |ks|
  {
    if ks != [] {
      NewKeysDistinct(ks[1..], known);
      var rest := NewKeys(ks[1..], known);
      assert ks[0] !in ks[1..] by {
        forall j | 0 <= j < |ks[1..]| ensures ks[1..][j] != ks[0] {
          assert ks[1..][j] == ks[j + 1];
        }
      }
      var head := if ks[0] in known then [] else [ks[0]];
      DistinctConcat(head, rest);
    }
  }

  /** A sequence none of whose keys is known is kept whole. */
  lemma {:induction false} NewKeysOfUnknown(ks: seq<string>, known: map<string, string>)
    requires forall i | 0 <= i < |ks| :: ks[i] !in known
    ensures NewKeys(ks, known) == ks
    decreases |ks|
  {
    if ks != [] {
      NewKeysOfUnknown(ks[1..], known);
    }
  }

  /** A sequence all of whose keys are known contributes nothing. */
  lemma {:induction false} NewKeysOfKnown(ks: seq<string>, known: map<string, string>)
    requires forall i | 0 <= i < |ks| :: ks[i] in known
    ensures NewKeys(ks, known) == []
    decreases |ks|
  {
    if ks != [] {
      NewKeysOfKnown(ks[1..], known);
    }
  }

  /** `x` occurs in `ks` before `y` does. */
  predicate Precedes(ks: seq<string>, x: string, y: string) {
    exists a, b | 0 <= a < b < |ks| :: ks[a] == x && ks[b] == y
  }

  /** Putting a key in front keeps the order of the others. */
  lemma PrecedesCons(h: string, t: seq<string>, x: string, y: string)
    requires Precedes(t, x, y)
    ensures Precedes([h] + t, x, y)
  {
    var a, b :| 0 <= a < b < |t| && t[a] == x && t[b] == y;
    assert ([h] + t)[a + 1] == x && ([h] + t)[b + 1] == y;
  }

  /** The key put in front precedes every other key. */
  lemma PrecedesHead(h: string, t: seq<string>, y: string)
    requires y in t
    ensures Precedes([h] + t, h, y)
  {
    var b :| 0 <= b < |t| && t[b] == y;
    assert ([h] + t)[0] == h && ([h] + t)[b + 1] == y;
  }

  /** `NewKeys` keeps the order of `ks`: any two of its keys appear in `ks`
      in the same order. */
  lemma {:induction false} NewKeysInOrder(ks: seq<string>, known: map<string, string>)
    ensures forall i, j | 0 <= i < j < |NewKeys(ks, known)| ::
      Precedes(ks, NewKeys(ks, known)[i], NewKeys(ks, known)[j])
    decreases |ks|
  {
    if ks != [] {
      var h, t := ks[0], ks[1..];
      assert ks == [h] + t;
      var rest := NewKeys(t, known);
      NewKeysInOrder(t, known);
      if h in known {
        assert NewKeys(ks, known) == rest;
        forall i, j | 0 <= i < j < |rest| ensures Precedes(ks, rest[i], rest[j]) {
          PrecedesCons(h, t, rest[i], rest[j]);
        }
      } else {
        var r := [h] + rest;
        assert NewKeys(ks, known) == r;
        forall i, j | 0 <= i < j < |r| ensures Precedes(ks, r[i], r[j]) {
          if i == 0 {
            assert r[j] == rest[j - 1] && rest[j - 1] in t;
            PrecedesHead(h, t, rest[j - 1]);
          } else {
            assert r[i] == rest[i - 1] && r[j] == rest[j - 1];
            PrecedesCons(h, t, rest[i - 1], rest[j - 1]);
          }
        }
      }
    }
  }

  lemma {:induction false} NewKeysAppend(a: seq<string>, b: seq<string>, known: map<string, string>)
    ensures NewKeys(a + b, known) == NewKeys(a, known) + NewKeys(b, known)
    decreases |a|
  {
    if a == [] {
      assert a + b == b;
    } else {
      assert (a + b)[1..] == a[1..] + b;
      NewKeysAppend(a[1..], b, known);
    }
  }

  /** The spread `{ ...base, ...over }`: the keys of `base` in their order,
      then the keys only `over` has in theirs; on a shared key `over` wins. */
  function Merge(base: Form, over: Form): (m: Form)
    requires base.WellFormed() && over.WellFormed()
    ensures m.WellFormed()
    ensures base.keys <= m.keys
  {
    NewKeysDistinct(over.keys, base.values);
    DistinctConcat(base.keys, NewKeys(over.keys, base.values));
    Form(base.keys + NewKeys(over.keys, base.values), base.values + over.values)
  }

  /** The merged form has the keys of both; on a shared key `over` wins, and
      on the others each form's value is kept. */
  lemma MergeValues(base: Form, over: Form)
    requires base.WellFormed() && over.WellFormed()
    ensures var m := Merge(base, over);
      && (forall k :: k in m.values <==> k in base.values || k in over.values)
      && (forall k | k in over.values :: m.values[k] == over.values[k])
      && (forall k | k in base.values && k !in over.values :: m.values[k] == base.values[k])
  {
  }

  /** The keys of the merged form are those of `base` in their order, then
      those only `over` has, in theirs. */
  lemma MergeKeys(base: Form, over: Form)
    requires base.WellFormed() && over.WellFormed()
    ensures var m := Merge(base, over);
      && m.keys[..|base.keys|] == base.keys
      && (forall i | |base.keys| <= i < |m.keys| :: m.keys[i] in over.values && m.keys[i] !in base.values)
      && (forall i, j | |base.keys| <= i < j < |m.keys| :: Precedes(over.keys, m.keys[i], m.keys[j]))
  {
    MergeKeysNew(base, over);
    MergeKeysInOrder(base, over);
  }

  /** Past the keys of `base`, the merged form lists only keys of `over`
      that `base` lacks. */
  lemma MergeKeysNew(base: Form, over: Form)
    requires base.WellFormed() && over.WellFormed()
    ensures var m := Merge(base, over);
      forall i | |base.keys| <= i < |m.keys| :: m.keys[i] in over.values && m.keys[i] !in base.values
  {
    var m := Merge(base, over);
    assert m.keys == base.keys + NewKeys(over.keys, base.values);
    AppendedNewKeys(base.keys, over.keys, base.values);
    forall i | |base.keys| <= i < |m.keys| ensures m.keys[i] in over.values {
      var j :| 0 <= j < |over.keys| && over.keys[j] == m.keys[i];
    }
  }

  /** Keys appended after `prefix` by `NewKeys` come from `ks` and are not
      in `known`. */
  lemma AppendedNewKeys(prefix: seq<string>, ks: seq<string>, known: map<string, string>)
    ensures var s := prefix + NewKeys(ks, known);
      forall i | |prefix| <= i < |s| :: s[i] in ks && s[i] !in known
  {
    var extra := NewKeys(ks, known);
    var s := prefix + extra;
    forall i | |prefix| <= i < |s| ensures s[i] in ks && s[i] !in known {
      assert s[i] == extra[i - |prefix|];
    }
  }

  /** The keys only `over` has follow those of `base` in the order `over`
      lists them. */
  lemma MergeKeysInOrder(base: Form, over: Form)
    requires base.WellFormed() && over.WellFormed()
    ensures var m := Merge(base, over);
      forall i, j | |base.keys| <= i < j < |m.keys| :: Precedes(over.keys, m.keys[i], m.keys[j])
  {
    assert Merge(base, over).keys == base.keys + NewKeys(over.keys, base.values);
    AppendedNewKeysInOrder(base.keys, over.keys, base.values);
  }

  /** Keys appended after `prefix` by `NewKeys` keep the order of `ks`. */
  lemma AppendedNewKeysInOrder(prefix: seq<string>, ks: seq<string>, known: map<string, string>)
    ensures var s := prefix + NewKeys(ks, known);
      forall i, j | |prefix| <= i < j < |s| :: Precedes(ks, s[i], s[j])
  {
    var extra := NewKeys(ks, known);
    var s := prefix + extra;
    NewKeysInOrder(ks, known);
    forall i, j | |prefix| <= i < j < |s| ensures Precedes(ks, s[i], s[j]) {
      assert s[i] == extra[i - |prefix|] && s[j] == extra[j - |prefix|];
    }
  }

  /** Spreading a form over a prefix of its own keys gives the form back: the
      draft a session saves is the form it reloads. */
  lemma MergeOverOwnPrefix(base: Form, f: Form)
    requires base.WellFormed() && f.WellFormed()
    requires base.keys <= f.keys
    ensures Merge(base, f) == f
  {
    NewKeysOfPrefixExtension(base, f);
    forall k | k in base.values ensures k in f.values {
      var j :| 0 <= j < |base.keys| && base.keys[j] == k;
      assert f.keys[j] == k;
    }
    assert base.values + f.values == f.values;
  }

  lemma NewKeysOfPrefixExtension(base: Form, f: Form)
    requires base.WellFormed() && f.WellFormed()
    requires base.keys <= f.keys
    ensures base.keys + NewKeys(f.keys, base.values) == f.keys
  {
    var n := |base.keys|;
    var rest := f.keys[n..];
    assert f.keys == base.keys + rest;
    ExtensionKeysAreNew(base, f);
    forall i | 0 <= i < |rest| ensures rest[i] !in base.values {
      assert rest[i] == f.keys[n + i];
    }
    NewKeysOfKnownThenUnknown(base.keys, rest, base.values);
  }

  lemma NewKeysOfKnownThenUnknown(a: seq<string>, b: seq<string>, known: map<string, string>)
    requires forall i | 0 <= i < |a| :: a[i] in known
    requires forall i | 0 <= i < |b| :: b[i] !in known
    ensures NewKeys(a + b, known) == b
  {
    NewKeysAppend(a, b, known);
    NewKeysOfKnown(a, known);
    NewKeysOfUnknown(b, known);
  }

  /** The keys a form has beyond a prefix are not keys of that prefix. */
  lemma ExtensionKeysAreNew(base: Form, f: Form)
    requires base.WellFormed() && Distinct(f.keys)
    requires base.keys <= f.keys
    ensures forall i | |base.keys| <= i < |f.keys| :: f.keys[i] !in base.values
  {
    var n := |base.keys|;
    forall i | n <= i < |f.keys| ensures f.keys[i] !in base.values {
    }
  }
}
