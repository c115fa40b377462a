/** The record `generateOutput` derives from the form, and the reading of an
    imported JSON value back into the form. */
module Records {
  import opened Wrappers
  import opened Json
  import opened FormData
  import opened Substitution
  import opened ObjectId

  /** What the clock and the random source give one call: `Date.now()`,
      the digits of `Math.random().toString(16).slice(2)`, and the two
      `new Date().toISOString()` readings. */
  datatype Env = Env(nowMs: nat, randomDigits: string, createdAt: string, updatedAt: string)

  /** The constant `ai_type` of every record. */
  const AiType: string := "flux"

  /** The constant `_class` of every record. */
  const ClassName: string := "com.vidaxl.platformai.image.generation.domain.ImageGenerationPrompt"

  /** The object `generateOutput` serialises. */
  datatype PromptRecord = PromptRecord(
    oid: string,
    name: string,
    category: string,
    aiType: string,
    parameters: Form,
    template: string,
    createdAt: string,
    updatedAt: string,
    className: string)

  /** `v.k || fallback`. */
  function ValueOr(f: Form, k: string, fallback: string): string {
    var v := ValueOf(f.values, k);
    if v != "" then v else fallback
  }

  /** The record of form `f` under `env`. */
  function BuildRecord(f: Form, env: Env): (r: PromptRecord)
    ensures r.name != "" && r.category != ""
    ensures ValueOf(f.values, "product_description") != "" ==> r.name == f.values["product_description"]
    ensures ValueOf(f.values, "product_description") == "" ==> r.name == "Untitled"
    ensures ValueOf(f.values, "category") != "" ==> r.category == f.values["category"]
    ensures ValueOf(f.values, "category") == "" ==> r.category == "General"
    ensures r.parameters == f && r.template == TemplateOf(f)
    ensures r.oid == ObjectIdOf(env.nowMs, env.randomDigits)
    ensures r.aiType == AiType && r.className == ClassName
    ensures r.createdAt == env.createdAt && r.updatedAt == env.updatedAt
  {
    PromptRecord(
      ObjectIdOf(env.nowMs, env.randomDigits),
      ValueOr(f, "product_description", "Untitled"),
      ValueOr(f, "category", "General"),
      AiType,
      f,
      TemplateOf(f),
      env.createdAt,
      env.updatedAt,
      ClassName)
  }

  /** The members of the copy `{ ...v }`: one string member per key, in
      key order. */
  function FormMembers(ks: seq<string>, vals: map<string, string>): (ms: seq<(string, Json)>)
    ensures |ms| == |ks|
    ensures forall i | 0 <= i < |ks| :: ms[i] == (ks[i], JString(ValueOf(vals, ks[i])))
    decreases |ks|
  {
    if ks == [] then []
    else
      var k := ks[|ks| - 1];
      FormMembers(ks[..|ks| - 1], vals) + [(k, JString(ValueOf(vals, k)))]
  }

  /** The JSON value of a form. */
  function FormJson(f: Form): (j: Json)
    ensures j.JObject? && |j.members| == |f.keys|
    ensures f.WellFormed() ==> DistinctNames(j.members)
  {
    JObject(FormMembers(f.keys, f.values))
  }

  /** Looking up a key of the form in its JSON value finds the key's string. */
  lemma {:induction false} LookupFormMembers(ks: seq<string>, vals: map<string, string>, k: string)
    ensures Lookup(FormMembers(ks, vals), k) == if k in ks then Some(JString(ValueOf(vals, k))) else None
    decreases |ks|
  {
    if ks != [] {
      var init := ks[..|ks| - 1];
      assert ks == init + [ks[|ks| - 1]];
      LookupFormMembers(init, vals, k);
      assert FormMembers(ks, vals)[..|ks| - 1] == FormMembers(init, vals);
    }
  }

  /** The JSON value of a record, with members in the order of the object
      literal at line 90. */
  function RecordJson(r: PromptRecord): (j: Json)
    ensures j.JObject? && |j.members| == 9 && DistinctNames(j.members)
  {
    JObject([
      ("_id", JObject([("$oid", JString(r.oid))])),
      ("name", JString(r.name)),
      ("category", JString(r.category)),
      ("ai_type", JString(r.aiType)),
      ("prompt_parameters", FormJson(r.parameters)),
      ("prompt_template", JString(r.template)),
      ("createdAt", JObject([("$date", JString(r.createdAt))])),
      ("updatedAt", JObject([("$date", JString(r.updatedAt))])),
      ("_class", JString(r.className))])
  }

  /** What `JSON.parse` does with the imported text: it fails, or it gives a
      value. */
  datatype ParseResult = Malformed | Parsed(value: Json)

  /** The name of the member the importer reads the fields from. */
  const ParametersKey: string := "prompt_parameters"

  /** `data.prompt_parameters || data`, or `None` when reading the fields
      throws: `null.prompt_parameters` throws, and `key in params` throws when
      `params` is neither an object nor an array. */
  function ImportSource(input: ParseResult): (r: Option<Json>)
    ensures r.Some? ==> IsContainer(r.value)
    ensures r.None? <==>
      || input.Malformed?
      || !IsContainer(input.value)
      || (input.value.JObject?
          && var p := Lookup(input.value.members, ParametersKey);
          p.Some? && Truthy(p.value) && !IsContainer(p.value))
    ensures input.Parsed? && input.value.JObject? && r.Some? ==>
      var p := Lookup(input.value.members, ParametersKey);
      if p.Some? && Truthy(p.value) then r.value == p.value else r.value == input.value
    ensures input.Parsed? && input.value.JArray? ==> r == Some(input.value)
  {
    match input
    case Malformed => None
    case Parsed(data) =>
      match data
      case JObject(ms) =>
        (match Lookup(ms, ParametersKey)
         case Some(p) =>
           if !Truthy(p) then Some(data)
           else if IsContainer(p) then Some(p)
           else None
         case None => Some(data))
      case JArray(_) => Some(data)
      case _ => None
  }

  /** `if (key in params && typeof params[key] === 'string') formData[key] =
      params[key]`. */
  function AssignIfString(g: Form, params: Json, key: string): (h: Form)
    requires g.WellFormed()
    ensures h.WellFormed()
  {
    match StringMember(params, key)
    case Some(s) => g.Set(key, s)
    case None => g
  }

  /** The form after the import loop over the existing keys: same keys, and
      each takes the string the source holds for it, if any. */
  function ImportedFields(f: Form, params: Json): (g: Form)
    requires f.WellFormed()
    ensures g.WellFormed() && g.keys == f.keys
  {
    Form(f.keys, map k | k in f.values :: StringMember(params, k).GetOr(f.values[k]))
  }

  /** A form with the keys of `f` whose every value is the imported one is
      the result of the loop. */
  lemma ImportedFieldsPointwise(f: Form, params: Json, g: Form)
    requires f.WellFormed() && g.WellFormed() && g.keys == f.keys
    requires forall j | 0 <= j < |f.keys| :: g.values[f.keys[j]] == StringMember(params, f.keys[j]).GetOr(f.values[f.keys[j]])
    ensures g == ImportedFields(f, params)
  {
    var h := ImportedFields(f, params);
    forall k | k in g.values ensures g.values[k] == h.values[k] {
      var j :| 0 <= j < |f.keys| && f.keys[j] == k;
    }
    assert g.values == h.values;
  }

  /** The form after the import loop over the existing keys and the separate
      `prompt_template` step: a key the source holds a string for takes that
      string, every other key keeps its value, and the template is added when
      the form did not have it. */
  function ImportedForm(f: Form, params: Json): (g: Form)
    requires f.WellFormed()
    ensures g.WellFormed()
    ensures f.keys <= g.keys
    ensures forall k | k in f.values :: g.values[k] == StringMember(params, k).GetOr(f.values[k])
    ensures forall k | k in g.values :: k in f.values || k == TemplateKey
    ensures TemplateKey in g.values <==>
      TemplateKey in f.values || StringMember(params, TemplateKey).Some?
    ensures TemplateKey in g.values && StringMember(params, TemplateKey).Some? ==>
      g.values[TemplateKey] == StringMember(params, TemplateKey).value
    ensures g.keys == if TemplateKey !in f.values && StringMember(params, TemplateKey).Some?
      then f.keys + [TemplateKey] else f.keys
  {
    AssignIfString(ImportedFields(f, params), params, TemplateKey)
  }

  /** `importJson` on the result of parsing: `None` when it throws and the
      form is left as it was, otherwise the new form. */
  function ImportOutcome(f: Form, input: ParseResult): (r: Option<Form>)
    requires f.WellFormed()
    ensures r.None? <==> ImportSource(input).None?
    ensures r.Some? ==> r.value.WellFormed() && f.keys <= r.value.keys
  {
    match ImportSource(input)
    case None => None
    case Some(params) => Some(ImportedForm(f, params))
  }

  /** Exporting a form and importing the record gives the form back. */
  lemma ExportImportFixedPoint(f: Form, env: Env)
    requires f.WellFormed()
    ensures ImportOutcome(f, Parsed(RecordJson(BuildRecord(f, env)))) == Some(f)
  {
    var params := FormJson(f);
    RecordParameters(BuildRecord(f, env));
    ImportFormJson(f);
  }

  /** The importer finds the record's parameters under `prompt_parameters`. */
  lemma RecordParameters(r: PromptRecord)
    ensures ImportSource(Parsed(RecordJson(r))) == Some(FormJson(r.parameters))
  {
    var ms := RecordJson(r).members;
    var p := Lookup(ms, ParametersKey);
    assert ms[4] == (ParametersKey, FormJson(r.parameters));
    forall j | 0 <= j < |ms| && j != 4 ensures ms[j].0 != ParametersKey {
    }
    var i :| 0 <= i < |ms| && ms[i] == (ParametersKey, p.value) && forall j | i < j < |ms| :: ms[j].0 != ParametersKey;
    assert i == 4;
  }

  /** The string members of a form's JSON value are the form's values. */
  lemma StringMemberFormJson(f: Form, k: string)
    ensures StringMember(FormJson(f), k) == if k in f.keys then Some(ValueOf(f.values, k)) else None
  {
    LookupFormMembers(f.keys, f.values, k);
  }

  /** Importing the JSON value of a form into that form changes nothing. */
  lemma ImportFormJson(f: Form)
    requires f.WellFormed()
    ensures ImportedForm(f, FormJson(f)) == f
  {
    var params := FormJson(f);
    StringMemberFormJson(f, TemplateKey);
    forall k | k in f.values ensures StringMember(params, k).GetOr(f.values[k]) == f.values[k] {
      StringMemberFormJson(f, k);
    }
    ImportAgreeingSource(f, params);
  }

  /** A source that agrees with the form on every string it holds for the
      form's fields, and holds no template the form lacks, leaves the form
      as it was. */
  lemma ImportAgreeingSource(f: Form, params: Json)
    requires f.WellFormed()
    requires forall k | k in f.values :: StringMember(params, k).GetOr(f.values[k]) == f.values[k]
    requires StringMember(params, TemplateKey).Some? ==> TemplateKey in f.values
    ensures ImportedForm(f, params) == f
  {
    var fields := ImportedFields(f, params);
    assert fields.values == f.values;
    assert fields == f;
    match StringMember(params, TemplateKey) {
      case Some(s) =>
        assert f.values[TemplateKey] == s;
        assert f.values[TemplateKey := s] == f.values;
      case None =>
    }
  }

  /** Importing the same value a second time changes nothing more. */
  lemma ImportIdempotent(f: Form, params: Json)
    requires f.WellFormed()
    ensures ImportedForm(ImportedForm(f, params), params) == ImportedForm(f, params)
  {
    var g := ImportedForm(f, params);
    forall k | k in g.values ensures StringMember(params, k).GetOr(g.values[k]) == g.values[k] {
      if k in f.values {
        assert g.values[k] == StringMember(params, k).GetOr(f.values[k]);
      } else {
        assert k == TemplateKey;
      }
    }
    ImportAgreeingSource(g, params);
  }

  /** An array has no string members for the form's fields, so importing one
      leaves the form as it was. */
  lemma ImportArrayChangesNothing(f: Form, items: seq<Json>)
    requires f.WellFormed()
    ensures ImportedForm(f, JArray(items)) == f
  {
    var g := ImportedForm(f, JArray(items));
    assert g.values == f.values;
  }

  /** A field whose imported value is a number, a boolean, `null`, an array
      or an object keeps its value, whatever the source holds for other
      fields. */
  lemma ImportKeepsNonStringField(f: Form, ms: seq<(string, Json)>, k: string)
    requires f.WellFormed() && k in f.values
    requires Lookup(ms, k).Some? && !Lookup(ms, k).value.JString?
    ensures ImportedForm(f, JObject(ms)).values[k] == f.values[k]
  {
    assert StringMember(JObject(ms), k).None?;
  }

  /** A field the source holds no member for keeps its value. */
  lemma ImportKeepsMissingField(f: Form, ms: seq<(string, Json)>, k: string)
    requires f.WellFormed() && k in f.values
    requires Lookup(ms, k).None?
    ensures ImportedForm(f, JObject(ms)).values[k] == f.values[k]
  {
    assert StringMember(JObject(ms), k).None?;
  }

  /** A field the source holds a string for takes that string. */
  lemma ImportTakesStringField(f: Form, ms: seq<(string, Json)>, k: string, v: string)
    requires f.WellFormed() && k in f.values
    requires Lookup(ms, k) == Some(JString(v))
    ensures ImportedForm(f, JObject(ms)).values[k] == v
  {
    assert StringMember(JObject(ms), k) == Some(v);
  }

  /** A value that holds no string under any name changes nothing: fields
      whose imported values are numbers, booleans, `null`, arrays or objects
      keep their values. */
  lemma ImportIgnoresNonStrings(f: Form, ms: seq<(string, Json)>)
    requires f.WellFormed()
    requires forall i | 0 <= i < |ms| :: !ms[i].1.JString?
    ensures ImportedForm(f, JObject(ms)) == f
  {
    forall k ensures StringMember(JObject(ms), k).None? {
      var r := Lookup(ms, k);
      if r.Some? {
        var i :| 0 <= i < |ms| && ms[i] == (k, r.value);
        assert !r.value.JString?;
      }
    }
    var g := ImportedForm(f, JObject(ms));
    assert g.values == f.values;
  }
}
