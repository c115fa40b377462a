/** `APP_CONFIG`: the form's default values and the choices offered for
    the three select fields. */
module AppConfig {
  import opened FormData
  import opened Substitution

  /** The field names of `DEFAULT_VALUES`, in the order the object literal
      lists them. */
  const DefaultKeys: seq<string> := ["product_description", "preservation", "color", "setting", "scene_elements", "remove", "lighting", "prompt_template", "style", "category", "camera_view"]

  /** `DEFAULT_VALUES.product_description`. */
  const DefaultProductDescription: string := "Single bed + double bed (with headboard)"

  /** `DEFAULT_VALUES.preservation`. */
  const DefaultPreservation: string := "Absolutely do not alter the bed in any way.\nIts geometry, structure, length-to-width ratio, height, leg spacing, headboard design, material surface texture, wood grain or fabric pattern, and original color must remain 100% unchanged.\nNo smoothing, stylizing, color shifting, retexturing, or proportion editing is allowed."

  /** `DEFAULT_VALUES.color`. */
  const DefaultColor: string := "the overall room decor should adapt to the bed's color, ensuring everything complements the original design without altering the bed"

  /** `DEFAULT_VALUES.setting`. */
  const DefaultSetting: string := "ultra-bright and airy bedroom with pure white walls and pale wood flooring"

  /** `DEFAULT_VALUES.scene_elements`. */
  const DefaultSceneElements: string := "- Two matching minimalist bedside tables (white or neutral tone), symmetrically placed beside the bed\n- One large rectangular neutral-tone rug (cream, beige, or light gray), centered precisely under the bed and extending beyond its edges\n- Two abstract framed artworks centered directly above the headboard, in soft neutral colors\n- Sheer white or beige curtains, softly lit\n- (Optional) One tall indoor potted plant in the back corner, in a white or stone-colored ceramic pot"

  /** `DEFAULT_VALUES.remove`. */
  const DefaultRemove: string := "decorative throw pillows, footstools, window sill plants, bright-colored accents"

  /** `DEFAULT_VALUES.lighting`. */
  const DefaultLighting: string := "extremely bright natural daylight filling the room \U{00E2}\U{20AC}\U{201D} soft yet intense, with well-defined soft shadows and high overall ambient brightness"

  /** `DEFAULT_VALUES.prompt_template`. */
  const DefaultPromptTemplate: string := "Generate a realistic <style> -style bedroom interior scene featuring the exact same product: a <product_description> as in the reference image, placed against the wall as hero product.\n\n<preservation>\n\nStyle: <style>\n\nColor harmony: <color>\nSetting: <setting>\n\nScene Elements: <scene_elements>\n\nRemove: <remove>\nLighting: <lighting>\n\nCamera view: <camera_view>"

  /** `DEFAULT_VALUES.style`. */
  const DefaultStyle: string := "Modern"

  /** `DEFAULT_VALUES.category`. */
  const DefaultCategory: string := "Beds"

  /** `DEFAULT_VALUES.camera_view`. */
  const DefaultCameraView: string := "front-centered perspective, highlighting the overall bed design and symmetry"

  /** The values of `DEFAULT_VALUES`, in the order of `DefaultKeys`. */
  const DefaultTexts: seq<string> := [
    DefaultProductDescription,
    DefaultPreservation,
    DefaultColor,
    DefaultSetting,
    DefaultSceneElements,
    DefaultRemove,
    DefaultLighting,
    DefaultPromptTemplate,
    DefaultStyle,
    DefaultCategory,
    DefaultCameraView]

  /** `DEFAULT_VALUES`. */
  const DefaultValues: Form := FormOf(DefaultKeys, DefaultTexts)

  /** The object literal whose members are `ks[i]: texts[i]`, in order; a
      name without a text holds `""`. */
  function FormOf(ks: seq<string>, texts: seq<string>): (f: Form)
    ensures f.keys == ks
    ensures forall k :: k in f.values <==> k in ks
  {
    Form(ks, ValuesOf(ks, texts))
  }

  /** The name-to-value map of the literal `ks[i]: texts[i]`; a later
      member with a repeated name overrides an earlier one. */
  function ValuesOf(ks: seq<string>, texts: seq<string>): (m: map<string, string>)
    ensures forall k :: k in m <==> k in ks
    decreases |ks|
  {
    if ks == [] then map[]
    else
      var n := |ks| - 1;
      assert ks == ks[..n] + [ks[n]];
      ValuesOf(ks[..n], texts)[ks[n] := if n < |texts| then texts[n] else ""]
  }

  /** `SELECT_OPTIONS.style`. */
  const StyleOptions: seq<string> := ["Modern", "Scandinavian", "Modern Nordic", "Scandinavian Minimalist", "Light Industrial", "American Farmhouse"]

  /** `SELECT_OPTIONS.category`. */
  const CategoryOptions: seq<string> := ["Beds", "Chairs", "Tables", "Sofas", "Storage"]

  /** `SELECT_OPTIONS.camera_view`. */
  const CameraViewOptions: seq<string> := [
    "front-centered perspective, highlighting the overall bed design and symmetry",
    "front view from above",
    "slightly front-left perspective",
    "30-degree front-left perspective",
    "45-degree front-left perspective",
    "slightly front-right perspective",
    "30-degree front-right perspective",
    "45-degree front-right perspective",
    "direct left-side perspective, showing full side structure",
    "direct right-side perspective, showing full side structure",
    "slightly rear view",
    "top-down view"]

  /** The defaults name eleven distinct fields, among them the template. */
  lemma DefaultKeysDistinct()
    ensures Distinct(DefaultKeys) && |DefaultKeys| == 11
    ensures TemplateKey in DefaultKeys
  {
    assert DefaultKeys[7] == TemplateKey;
  }

  /** `DEFAULT_VALUES` is a well-formed form, so the application can be
      started with it. Its well-formedness depends only on its names, so it
      is stated for any texts, `DefaultTexts` among them. */
  lemma DefaultValuesWellFormed(texts: seq<string>)
    ensures var defaults := FormOf(DefaultKeys, texts);
      defaults.WellFormed() && defaults.keys == DefaultKeys && TemplateKey in defaults.values
  {
    DefaultKeysDistinct();
  }

  /** The default of each select field is one of its choices, so the
      populated form can show it. */
  lemma DefaultsAmongOptions()
    ensures DefaultStyle in StyleOptions
    ensures DefaultCategory in CategoryOptions
    ensures DefaultCameraView in CameraViewOptions
  {
    assert DefaultStyle == StyleOptions[0];
    assert DefaultCategory == CategoryOptions[0];
    assert DefaultCameraView == CameraViewOptions[0];
  }
}
