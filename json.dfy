/** The value `JSON.parse` returns, as the importer inspects it. */
module Json {
  import opened Wrappers

  /** A parsed JSON value. An object keeps its members in document order;
      numbers are kept as reals. */
  datatype Json =
    | JNull
    | JBool(b: bool)
    | JNumber(n: real)
    | JString(s: string)
    | JArray(items: seq<Json>)
    | JObject(members: seq<(string, Json)>)

  /** JavaScript truthiness of a parsed value: `null`, `false`, `0` and `""`
      are falsy, every array and object is truthy. */
  predicate Truthy(j: Json): (t: bool)
    ensures IsContainer(j) ==> t
  {
    match j
    case JNull => false
    case JBool(b) => b
    case JNumber(n) => n != 0.0
    case JString(s) => s != ""
    case JArray(_) => true
    case JObject(_) => true
  }

  /** A value the `in` operator accepts as its right operand. */
  predicate IsContainer(j: Json) {
    j.JArray? || j.JObject?
  }

  /** The value of member `k`. When a name repeats, the last member wins, as
      it does for the object `JSON.parse` builds. */
  function Lookup(ms: seq<(string, Json)>, k: string): (r: Option<Json>)
    ensures r.None? <==> forall i | 0 <= i < |ms| :: ms[i].0 != k
    ensures r.Some? ==> exists i | 0 <= i < |ms| ::
      ms[i] == (k, r.value) && forall j | i < j < |ms| :: ms[j].0 != k
    decreases |ms|
  {
    if ms == [] then None
    else if ms[|ms| - 1].0 == k then Some(ms[|ms| - 1].1)
    else Lookup(ms[..|ms| - 1], k)
  }

  /** Member names no two of which are equal. */
  predicate DistinctNames(ms: seq<(string, Json)>) {
    forall i, j | 0 <= i < j < |ms| :: ms[i].0 != ms[j].0
  }

  /** With distinct names, looking up a member's name finds that member. */
  lemma LookupDistinct(ms: seq<(string, Json)>, i: nat)
    requires DistinctNames(ms)
    requires i < |ms|
    ensures Lookup(ms, ms[i].0) == Some(ms[i].1)
  {
  }

  /** `k in params && typeof params[k] === 'string'`: the string held under
      `k`, if any. An array has no such member for the field names of a form. */
  function StringMember(params: Json, k: string): (r: Option<string>)
    ensures r.Some? <==> params.JObject? && Lookup(params.members, k).Some? && Lookup(params.members, k).value.JString?
    ensures r.Some? ==> Lookup(params.members, k) == Some(JString(r.value))
  {
    match params
    case JObject(ms) =>
      (match Lookup(ms, k)
       case Some(JString(s)) => Some(s)
       case _ => None)
    case _ => None
  }
}
