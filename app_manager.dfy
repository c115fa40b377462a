/** The state half of `AppManager`: the form, the dirty flag, the draft kept
    under the draft storage key, and the two outputs derived from the form. */
module App {
  import opened Wrappers
  import opened Json
  import opened FormData
  import opened Text
  import opened Substitution
  import opened Records

  /** What reading the draft storage key gives: nothing (`null` or the empty
      string), text `JSON.parse` rejects, or a saved form. */
  datatype DraftRead = NoDraft | CorruptDraft | StoredDraft(form: Form)

  /** `#loadDraft`: the defaults with a saved draft spread over them; the
      defaults alone when there is no draft or it does not parse. */
  function LoadDraft(defaults: Form, stored: DraftRead): (f: Form)
    requires defaults.WellFormed()
    requires stored.StoredDraft? ==> stored.form.WellFormed()
    ensures f.WellFormed() && defaults.keys <= f.keys
    ensures !stored.StoredDraft? ==> f == defaults
  {
    match stored
    case StoredDraft(d) => Merge(defaults, d)
    case _ => defaults
  }

  /** A loaded draft has every default field and every field of the draft;
      the draft's values win, and defaults it lacks are kept. */
  lemma LoadDraftValues(defaults: Form, d: Form)
    requires defaults.WellFormed() && d.WellFormed()
    ensures var f := LoadDraft(defaults, StoredDraft(d));
      && (forall k :: k in f.values <==> k in defaults.values || k in d.values)
      && (forall k | k in d.values :: f.values[k] == d.values[k])
      && (forall k | k in defaults.values && k !in d.values :: f.values[k] == defaults.values[k])
  {
    MergeValues(defaults, d);
  }

  /** A saved form that extends the defaults is what the next session loads. */
  lemma ReloadAfterSave(defaults: Form, f: Form)
    requires defaults.WellFormed() && f.WellFormed()
    requires defaults.keys <= f.keys
    ensures LoadDraft(defaults, StoredDraft(f)) == f
  {
    MergeOverOwnPrefix(defaults, f);
  }

  /** The `forEach` of `generateOutput` over the keys of `v`: the text
      starts as the template and each key's placeholder is replaced in the
      text built so far. */
  method RenderText(v: Form) returns (text: string)
    ensures text == Render(v)
  {
    text := TemplateOf(v);
    var i := 0;
    while i < |v.keys|
      invariant 0 <= i <= |v.keys|
      invariant text == Substitute(TemplateOf(v), v.keys[..i], v.values)
    {
      var key := v.keys[i];
      assert v.keys[..i + 1][..i] == v.keys[..i];
      text := ReplaceAll(text, Placeholder(key), ValueOf(v.values, key));
      i := i + 1;
    }
    assert v.keys[..|v.keys|] == v.keys;
  }

  /** After `i` steps of the import loop: the first `i` keys of `f` took the
      source's strings, the others still hold their old values. */
  ghost predicate ImportedUpTo(f: Form, params: Json, g: Form, i: nat) {
    && f.WellFormed() && g.WellFormed() && g.keys == f.keys && i <= |f.keys|
    && forall j | 0 <= j < |f.keys| ::
      g.values[f.keys[j]] ==
        if j < i then StringMember(params, f.keys[j]).GetOr(f.values[f.keys[j]])
        else f.values[f.keys[j]]
  }

  /** One step of the import loop extends the prefix of imported keys. */
  lemma ImportStepExtends(f: Form, params: Json, g: Form, i: nat)
    requires ImportedUpTo(f, params, g, i) && i < |f.keys|
    ensures ImportedUpTo(f, params, AssignIfString(g, params, f.keys[i]), i + 1)
  {
    var key := f.keys[i];
    var h := AssignIfString(g, params, key);
    forall j | 0 <= j < |f.keys| ensures h.values[f.keys[j]] ==
      if j < i + 1 then StringMember(params, f.keys[j]).GetOr(f.values[f.keys[j]])
      else f.values[f.keys[j]]
    {
      if j != i {
        assert f.keys[j] != key;
        assert h.Get(f.keys[j]) == g.Get(f.keys[j]);
      } else {
        assert h.Get(key) == Some(StringMember(params, key).GetOr(g.values[key]));
      }
    }
  }

  /** The `forEach` of `importJson` over the keys of `f`, then its template
      step: each key the source holds a string for takes that string. */
  method ImportFields(f: Form, params: Json) returns (g: Form)
    requires f.WellFormed()
    ensures g == ImportedForm(f, params)
  {
    g := f;
    var keys := f.keys;
    var i := 0;
    while i < |keys|
      invariant ImportedUpTo(f, params, g, i)
    {
      ImportStepExtends(f, params, g, i);
      g := AssignIfString(g, params, keys[i]);
      i := i + 1;
    }
    ImportedFieldsPointwise(f, params, g);
    g := AssignIfString(g, params, TemplateKey);
  }

  class AppManager {
    /** `DEFAULT_VALUES` of the configuration. */
    const defaults: Form
    /** `#state.formData`. */
    var formData: Form
    /** `#isDirty`. */
    var isDirty: bool
    /** What the draft storage key holds. */
    var draft: DraftRead
    /** The object `#state.cleanJSON` is the serialisation of. */
    var record: PromptRecord
    /** `#state.cleanText`. */
    var cleanText: string

    /** Both forms are well formed, the form has every default field, and a
        stored draft is a well-formed form. */
    ghost predicate Valid()
      reads this`formData, this`draft
    {
      && defaults.WellFormed()
      && formData.WellFormed()
      && defaults.keys <= formData.keys
      && (draft.StoredDraft? ==> draft.form.WellFormed())
    }

    /** The application starts from the loaded draft with a clean flag and
        generates its outputs. */
    constructor (config: Form, stored: DraftRead, env: Env)
      requires config.WellFormed()
      requires stored.StoredDraft? ==> stored.form.WellFormed()
      ensures Valid()
      ensures record == BuildRecord(formData, env) && cleanText == Render(formData)
      ensures defaults == config && formData == LoadDraft(config, stored)
      ensures !isDirty && draft == stored
    {
      var loaded := LoadDraft(config, stored);
      defaults := config;
      formData := loaded;
      isDirty := false;
      draft := stored;
      new;
      GenerateOutput(env);
      assert formData == loaded && draft == stored && !isDirty;
    }

    /** `generateOutput`: the record of the form, and the template with each
        key's placeholder replaced, key by key, in the text built so far. */
    method GenerateOutput(env: Env)
      requires Valid()
      modifies this`record, this`cleanText
      ensures Valid()
      ensures record == BuildRecord(formData, env) && cleanText == Render(formData)
      ensures formData == old(formData) && isDirty == old(isDirty) && draft == old(draft)
    {
      record := BuildRecord(formData, env);
      cleanText := RenderText(formData);
    }

    /** `#saveDraft`: the form is written to the draft key and the flag is
        cleared. */
    method SaveDraft()
      requires Valid()
      modifies this`draft, this`isDirty
      ensures Valid()
      ensures draft == StoredDraft(formData) && !isDirty
      ensures formData == old(formData) && record == old(record) && cleanText == old(cleanText)
    {
      draft := StoredDraft(formData);
      isDirty := false;
    }

    /** `updateFormField`: a value equal to the current one changes nothing and
        nothing is regenerated or saved; any other value is stored, the
        outputs are regenerated, the draft is saved and the form ends dirty. */
    method UpdateFormField(field: string, value: string, env: Env)
      requires Valid()
      modifies this
      ensures Valid()
      ensures old(formData).Get(field) == Some(value) ==> unchanged(this)
      ensures old(formData).Get(field) != Some(value) ==>
        && formData == old(formData).Set(field, value)
        && record == BuildRecord(formData, env) && cleanText == Render(formData)
        && draft == StoredDraft(formData) && isDirty
    {
      if formData.Get(field) != Some(value) {
        var updated := formData.Set(field, value);
        formData := updated;
        GenerateOutput(env);
        ghost var generated := (record, cleanText);
        SaveDraft();
        assert formData == updated && generated == (record, cleanText);
        isDirty := true;
      }
    }

    /** `resetForm`: the form becomes a copy of the defaults, the outputs are
        regenerated, the draft is removed and the flag is cleared. */
    method ResetForm(env: Env)
      requires Valid()
      modifies this
      ensures Valid()
      ensures record == BuildRecord(formData, env) && cleanText == Render(formData)
      ensures formData == defaults && draft == NoDraft && !isDirty
      ensures LoadDraft(defaults, draft) == formData
    {
      formData := defaults;
      GenerateOutput(env);
      draft := NoDraft;
      isDirty := false;
    }

    /** `importJson`: when reading the fields throws (the text does not parse,
        or the value or its parameters are not objects) nothing changes;
        otherwise every existing key the source holds a string for takes it,
        then the template is taken from the source, the outputs are regenerated
        and the form is dirty. The draft is not saved. */
    method ImportJson(input: ParseResult, env: Env) returns (ok: bool)
      requires Valid()
      modifies this
      ensures Valid()
      ensures ok <==> ImportSource(input).Some?
      ensures !ok ==> unchanged(this)
      ensures ok ==>
        && Some(formData) == ImportOutcome(old(formData), input)
        && record == BuildRecord(formData, env) && cleanText == Render(formData)
        && isDirty && draft == old(draft)
    {
      var source := ImportSource(input);
      if source.None? {
        return false;
      }
      formData := ImportFields(formData, source.value);
      GenerateOutput(env);
      isDirty := true;
      ok := true;
    }
  }
}
