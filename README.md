# Prompt form generator: a Dafny model of the form state and its derived outputs

The application keeps a form of named string fields describing a furniture
product photo prompt. From that form it derives two outputs: a JSON record
and a plain-text prompt. The text is the form's `prompt_template` with every
`<field>` placeholder replaced by that field's value. The form can be edited
field by field, reset to its defaults, or filled by importing a previously
exported record. A draft of the form is kept in local storage, and a dirty
flag warns before the page is left with unsaved changes.

This project models the state-and-derivation half of `AppManager` in
`script.js`, plus the two pure string helpers of `UIManager`:

- `FormData` — the form as an ordered string-to-string object: insertion
  order of keys, assignment, and the `{ ...base, ...over }` spread.
- `AppConfig` — `APP_CONFIG`: default values and select options.
- `Json` — the value `JSON.parse` gives, with JavaScript truthiness and
  member lookup (the last duplicate name wins).
- `Text` — literal global replacement of a pattern (`replace` with a `g`
  regular expression that holds no metacharacters).
- `Substitution` — the text fold of `generateOutput`: starting from the
  template, each key in `Object.keys` order has its placeholder replaced in
  the text built so far. The fold re-scans earlier substitutions.
- `ObjectId` — the `#generateBsonObjectId` format, with the clock and the
  random digits passed in.
- `Records` — the record of `generateOutput` and how `importJson` reads a
  parsed value back into the form.
- `App` — the `AppManager` class: form, dirty flag, draft storage and the
  derived outputs, with `updateFormField`, `resetForm`, `importJson`,
  `generateOutput` and `#saveDraft` as methods. The two loops of the source
  (the substitution `forEach` and the import `forEach`) are methods with
  loop invariants, proved against the functions above.
- `UiText` — `#escapeHtml` and the download filename.

Behaviours of the code that the model keeps as written:

- Substitution re-scans substituted text: a value holding `<b>` is expanded
  again when `b` comes later in key order. `Substitution.SubstituteRescans`
  shows this.
- Field names go into the regular expression unescaped (script.js:94). The
  model treats every key as literal text; "## Left out" says what that
  leaves aside.
- The time part of the object id is 8 hex digits only while the time in
  seconds is below 2^32 (until the year 2106); after that the id is longer
  than 24 characters. `ObjectId.ObjectIdOf` states both cases.
- `importJson` adds `prompt_template` to the form when the source has a
  string for it and the form lacks the key (script.js:74-76). Every other
  key is only overwritten, never added.
- `updateFormField` accepts a field name the form does not have and appends
  it (script.js:50-51).
- After an edit the flag ends `true`, even though `#saveDraft` clears it:
  line 54 sets it again after the save at line 53.

## Model

| member | source | states |
|---|---|---|
| `FormData.Form.Set` | script.js:51 | `formData[k] = v` makes `k` hold `v`, changes no other key, keeps the order of existing keys and appends a new key at the end |
| `FormData.Merge` | script.js:99 | the spread `{ ...base, ...over }` is a well-formed form whose key order starts with the keys of `base` |
| `FormData.MergeValues` | script.js:99 | the merged form has the keys of both; on a shared key the draft wins, other keys keep their own value |
| `FormData.NewKeysInOrder` | script.js:99 | the keys a spread appends keep the order in which the spread object lists them |
| `FormData.MergeKeys` | script.js:99 | the merged keys are those of `base` in order, then the keys only `over` has, in the order `over` lists them |
| `FormData.MergeKeysNew` | script.js:99 | past the keys of `base`, every merged key belongs to `over` and not to `base` |
| `FormData.MergeKeysInOrder` | script.js:99 | the keys only `over` has appear in the merged form in the order `over` lists them |
| `FormData.MergeOverOwnPrefix` | script.js:99-100 | spreading a saved form over defaults that are a prefix of it gives the saved form back |
| `AppConfig.DefaultValuesWellFormed` | script.js:15-25 | `DEFAULT_VALUES` is a well-formed form, whatever its texts: its keys are the eleven default names, `prompt_template` among them |
| `AppConfig.DefaultKeysDistinct` | script.js:15-25 | `DEFAULT_VALUES` names eleven distinct fields, `prompt_template` among them |
| `AppConfig.DefaultsAmongOptions` | script.js:24-29 | the default style, category and camera view are each among their select options |
| `Json.Lookup` | script.js:70 | `params[key]` is absent exactly when no member has that name, and otherwise is the value of the last member with that name |
| `Json.Truthy` | script.js:67 | every array and object is truthy |
| `Json.StringMember` | script.js:70 | a string is found exactly when the value is an object whose member `k` (the last one with that name) is a string, and it is that string |
| `Json.LookupDistinct` | script.js:70 | with distinct names, looking up a member's name finds that member |
| `Text.ReplaceAll` | script.js:94 | a replacement as long as the pattern keeps the text's length; its other properties are the three `ReplaceAll` lemmas below |
| `Text.ReplaceAllWithoutOccurrence` | script.js:94 | replacing a pattern that does not occur returns the text unchanged |
| `Text.ReplaceAllByItself` | script.js:94 | replacing a pattern by itself returns the text unchanged |
| `Text.ReplaceAllSplit` | script.js:94 | when no match straddles the boundary, replacing in `x + y` is replacing in `x` and in `y` separately |
| `Substitution.Substitute` | script.js:92-95 | an empty template stays empty whatever the keys; the fold's other properties are the `Substitute` lemmas below |
| `Substitution.Render` | script.js:92-96 | `v.prompt_template \|\| ''`: a form without a template renders as empty text |
| `Substitution.SubstituteWithoutPlaceholders` | script.js:92-95 | a template holding no `<k>` for any key is returned unchanged |
| `Substitution.SubstituteAroundUnknown` | script.js:92-95 | a placeholder naming no key stays literal, and the text on each side of it is substituted independently |
| `Substitution.PlaceholderNotInOther` | script.js:94 | the placeholder of one bracket-free key never occurs inside that of another |
| `Substitution.ReplaceAllAroundPlaceholder` | script.js:94 | replacing `<k>` leaves another key's placeholder in place |
| `Substitution.SubstituteExample` | script.js:92-95 | template `"<a> and <b>"` with `a = x`, `b = y` renders as `x + " and " + y` when `x` holds no `<b>` |
| `Substitution.SubstituteRescans` | script.js:92-95 | the fold re-scans: with `a = "<b>"` and `b = "Y"`, `"<a>"` renders as `"Y"` |
| `ObjectId.ToHex` | script.js:101 | `n.toString(16)` is a non-empty string of lower-case hex digits |
| `ObjectId.FromHexToHex` | script.js:101 | the hex digits of `n` read back as `n` |
| `ObjectId.ToHexLength` | script.js:101 | `n` has at most `k` hex digits exactly when `n < 16^k` |
| `ObjectId.PadStart` | script.js:101 | `padStart(width, '0')` reaches `width`, ends with the original string and fills the front with `0` |
| `ObjectId.TimePart` | script.js:101 | the time field is hex, at least 8 long, and exactly 8 long iff the seconds are below 2^32 |
| `ObjectId.TimePartValue` | script.js:101 | the time field reads back as `floor(Date.now() / 1000)` |
| `ObjectId.RandomField` | script.js:101 | the random field is exactly 16 characters, hex when the random digits are |
| `ObjectId.RandomFieldDigits` | script.js:101 | the random field is the first 16 random digits behind `0` padding |
| `ObjectId.ObjectIdOf` | script.js:101 | the id is at least 24 long, exactly 24 iff the seconds are below 2^32, and all hex when the random digits are |
| `ObjectId.ObjectIdFields` | script.js:101 | the id's front reads back as the time in seconds and its last 16 characters are the random field |
| `Records.BuildRecord` | script.js:90 | `name` is `product_description` when that is non-empty and `"Untitled"` otherwise; `category` likewise falls back to `"General"`; the parameters are the form, the template is `prompt_template` or `""`, the id is the object id of the clock and random digits, `ai_type` and `_class` are the two constants, and the timestamps are the two clock readings |
| `Records.FormJson` | script.js:90 | the copy of the form has one member per key, with distinct names when the form is well formed |
| `Records.RecordJson` | script.js:90 | the record is an object of nine members with distinct names |
| `Records.FormMembers` | script.js:90 | the copy `{ ...v }` has one string member per key, in key order |
| `Records.LookupFormMembers` | script.js:90 | looking up a key in the copied form finds its string, and finds nothing for a non-key |
| `Records.ImportSource` | script.js:67-70 | the source is `data.prompt_parameters` when truthy, else `data`; reading fails exactly when parsing fails, `data` is not an object or array, or a truthy `prompt_parameters` is a primitive; an array is its own source |
| `Records.AssignIfString` | script.js:70-71 | a conditional assignment keeps the form well formed |
| `Records.ImportedFields` | script.js:69-73 | the import loop keeps the form's keys and order |
| `Records.ImportedFieldsPointwise` | script.js:69-73 | a form that took the source's string for every key, and kept every other value, is the loop's result |
| `Records.ImportedForm` | script.js:69-76 | each existing key takes the source's string if there is one, else keeps its value; no key is added except `prompt_template` |
| `Records.ExportImportFixedPoint` | script.js:68-90 | importing the record exported from a form gives that same form |
| `Records.RecordParameters` | script.js:90 | the importer finds an exported record's fields under `prompt_parameters` |
| `Records.StringMemberFormJson` | script.js:70 | the string members of a form's JSON value are exactly the form's values |
| `Records.ImportFormJson` | script.js:69-76 | importing a form's own JSON value changes nothing |
| `Records.ImportAgreeingSource` | script.js:69-76 | a source that agrees with the form on every string it holds leaves the form unchanged |
| `Records.ImportIdempotent` | script.js:69-76 | importing the same value twice changes nothing more than importing it once |
| `Records.ImportArrayChangesNothing` | script.js:68-76 | an imported array leaves every field unchanged |
| `Records.ImportIgnoresNonStrings` | script.js:70 | a source whose every member is a number, boolean, `null`, array or object leaves every field unchanged |
| `Records.ImportKeepsNonStringField` | script.js:70 | a field whose imported member is not a string keeps its value, whatever the other members hold |
| `Records.ImportKeepsMissingField` | script.js:70 | a field the source has no member for keeps its value, whatever the other members hold |
| `Records.ImportTakesStringField` | script.js:70-71 | a field whose imported member is a string takes that string |
| `Records.ImportOutcome` | script.js:65-84 | the import fails exactly when reading the source fails; otherwise it gives a well-formed form that starts with the existing keys in order |
| `App.LoadDraft` | script.js:99 | with no draft, or one that does not parse, the form is the defaults; otherwise it has every default key |
| `App.LoadDraftValues` | script.js:99 | a loaded draft has the keys of both; the draft's values win and defaults it lacks are kept |
| `App.ReloadAfterSave` | script.js:99-100 | a saved form that extends the defaults is exactly what the next load gives |
| `App.RenderText` | script.js:92-96 | the `forEach` over the keys computes the left fold `Render` of the form |
| `App.ImportStepExtends` | script.js:70-72 | one step of the import loop extends the prefix of imported keys by one |
| `App.ImportFields` | script.js:69-76 | the import `forEach` and the template step compute `ImportedForm` |
| `App.AppManager.constructor` | script.js:36-40 | the app starts from the loaded draft, clean, with its outputs generated |
| `App.AppManager.GenerateOutput` | script.js:88-98 | the record and text are those of the current form; the form, flag and draft are unchanged |
| `App.AppManager.SaveDraft` | script.js:100 | the draft holds the form and the flag is cleared |
| `App.AppManager.UpdateFormField` | script.js:49-56 | an equal value changes nothing at all; a different one is stored, the outputs regenerated, the draft saved, and the flag ends set |
| `App.AppManager.ResetForm` | script.js:57-64 | the form equals the defaults, the draft is removed, the flag is cleared and the outputs regenerated |
| `App.AppManager.ImportJson` | script.js:65-84 | when reading the fields throws nothing changes; otherwise the form is the imported one, the outputs regenerated, the flag set and the draft untouched |
| `UiText.EscapeHtml` | script.js:264 | the output holds no `<`, `>`, `"` or `'` and is never shorter than the input |
| `UiText.EscapeHtmlUnchanged` | script.js:264 | escaping leaves a text unchanged exactly when it holds none of `& < > " '`, and otherwise lengthens it |
| `UiText.EscapeHtmlConcat` | script.js:264 | escaping works piece by piece: it distributes over concatenation |
| `UiText.UnescapeEscapeHtml` | script.js:264 | decoding the five entities gives the original text back, so escaping loses nothing |
| `UiText.SanitizeFilename` | script.js:229 | each character outside `[A-Za-z0-9._-]` becomes `_`, every other is kept, and the length is unchanged |
| `UiText.SanitizeFilenameIdempotent` | script.js:229 | a sanitised name holds only filename characters, so sanitising again changes nothing |
| `UiText.DownloadFilename` | script.js:229 | the name is the first 40 characters of `product_description` (or `prompt` when it is empty), sanitised, then `.json` or `.txt` |
| `UiText.DownloadFilenameExample` | script.js:229 | the description `"Bed / Frame?!"` gives `"Bed___Frame__.json"` |

## Left out

- DOM work of `UIManager` is not modelled: element caching, icons, select population, event listeners, the modal, toasts, the theme, scroll sync and line numbers. It is browser presentation.
- `localStorage` is a field of the class (`draft`), not real storage, so the slot names `STORAGE_KEY_DRAFT` and `STORAGE_KEY_THEME` (script.js:13-14) are not modelled; the theme is presentation. The `beforeunload` handler, `FileReader` upload, Blob download and the clipboard are platform I/O and are left out.
- `JSON.parse` is not modelled: `importJson` and `#loadDraft` take its outcome (fails, or a parsed value). `JSON.stringify` is not modelled either: `cleanJSON` is represented by the record it serialises, not by its text.
- `#highlightJson` and the span-wrapped text preview (script.js:120-138) are presentation and are left out.
- `Date.now()`, `new Date().toISOString()` and `Math.random()` are parameters (`Records.Env`). The random part is the digit string `Math.random().toString(16).slice(2)`.
- The 250 ms debounce of field input is asynchronous scheduling and is left out; an edit is modelled as one `updateFormField` call.
- Substitution assumes regular-expression-free keys and `$`-free values: the model replaces literal text. A key with regular-expression metacharacters, or a value holding `$&` or `$1`, behaves differently in the code.
- JavaScript orders integer-like object keys (`"0"`, `"1"`) before other keys, and `in` also sees inherited names such as `toString`. Form field names are plain identifiers, so neither is modelled.
- `App.LoadDraft`: a stored draft is taken to be a string-valued object, as `#saveDraft` writes it. A draft edited by hand to hold a primitive, an array or non-string values is not modelled.
- `UiText.DownloadFilename`: `substring(0, 40)` counts UTF-16 code units, while the model counts characters. They differ only for characters outside the Basic Multilingual Plane.
- `Json.Truthy`: numbers are reals, so `NaN` (which `JSON.parse` never produces) is not represented.
- An exception thrown by `generateOutput` or the UI inside the `try` of `importJson` is not modelled.
- `App.AppManager.SaveDraft`: states the new draft and flag, not that the next load reproduces the form. That property is `App.ReloadAfterSave`, for forms that extend the defaults.
