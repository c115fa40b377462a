/** The two pure string helpers of the `UIManager`: HTML escaping and the
    name of a downloaded file. */
module UiText {
  import opened FormData
  import opened Substitution

  /** The five characters that HTML escaping rewrites. */
  predicate IsHtmlSpecial(c: char) {
    c == '&' || c == '<' || c == '>' || c == '"' || c == '\''
  }

  /** The entity that stands for `c`, or `c` itself. */
  function EscapeChar(c: char): string {
    if c == '&' then "&amp;"
    else if c == '<' then "&lt;"
    else if c == '>' then "&gt;"
    else if c == '"' then "&quot;"
    else if c == '\'' then "&#039;"
    else [c]
  }

  /** `#escapeHtml`: every `& < > " '` becomes its entity, every other
      character is kept. */
  function EscapeHtml(s: string): (r: string)
    ensures forall i | 0 <= i < |r| :: r[i] != '<' && r[i] != '>' && r[i] != '"' && r[i] != '\''
    ensures |r| >= |s|
    decreases |s|
  {
    if s == [] then [] else EscapeChar(s[0]) + EscapeHtml(s[1..])
  }

  /** Escaping leaves a text unchanged exactly when none of the five special
      characters occurs in it; otherwise the text grows. */
  lemma {:induction false} EscapeHtmlUnchanged(s: string)
    ensures EscapeHtml(s) == s <==> forall i | 0 <= i < |s| :: !IsHtmlSpecial(s[i])
    ensures EscapeHtml(s) != s ==> |EscapeHtml(s)| > |s|
    decreases |s|
  {
    if s != [] {
      EscapeHtmlUnchanged(s[1..]);
      assert forall i | 1 <= i < |s| :: s[i] == s[1..][i - 1];
    }
  }

  /** Escaping one piece after another is escaping the whole. */
  lemma {:induction false} EscapeHtmlConcat(a: string, b: string)
    ensures EscapeHtml(a + b) == EscapeHtml(a) + EscapeHtml(b)
    decreases |a|
  {
    if a == [] {
      assert a + b == b;
    } else {
      assert (a + b)[0] == a[0] && (a + b)[1..] == a[1..] + b;
      EscapeHtmlConcat(a[1..], b);
    }
  }

  /** Decoding of the five entities `EscapeHtml` writes; any other text is
      copied. */
  function UnescapeHtml(s: string): string
    decreases |s|
  {
    if s == [] then []
    else if |s| >= 5 && s[..5] == "&amp;" then "&" + UnescapeHtml(s[5..])
    else if |s| >= 4 && s[..4] == "&lt;" then "<" + UnescapeHtml(s[4..])
    else if |s| >= 4 && s[..4] == "&gt;" then ">" + UnescapeHtml(s[4..])
    else if |s| >= 6 && s[..6] == "&quot;" then "\"" + UnescapeHtml(s[6..])
    else if |s| >= 6 && s[..6] == "&#039;" then "'" + UnescapeHtml(s[6..])
    else [s[0]] + UnescapeHtml(s[1..])
  }

  lemma UnescapeEscapeChar(c: char, t: string)
    ensures UnescapeHtml(EscapeChar(c) + t) == [c] + UnescapeHtml(t)
  {
    if c == '&' {
      UnescapeAmp(t);
    } else if c == '<' {
      UnescapeLt(t);
    } else if c == '>' {
      UnescapeGt(t);
    } else if c == '"' {
      UnescapeQuot(t);
    } else if c == '\'' {
      UnescapeApos(t);
    } else {
      var s := EscapeChar(c) + t;
      assert s[0] == c && s[1..] == t;
      assert |s| >= 5 ==> s[..5][0] == c;
      assert |s| >= 4 ==> s[..4][0] == c;
      assert |s| >= 6 ==> s[..6][0] == c;
    }
  }

  lemma UnescapeAmp(t: string)
    ensures UnescapeHtml("&amp;" + t) == "&" + UnescapeHtml(t)
  {
    var s := "&amp;" + t;
    assert s[..5] == "&amp;" && s[5..] == t;
  }

  lemma UnescapeLt(t: string)
    ensures UnescapeHtml("&lt;" + t) == "<" + UnescapeHtml(t)
  {
    var s := "&lt;" + t;
    assert s[..4] == "&lt;" && s[4..] == t;
    assert |s| >= 5 ==> s[..5][1] == 'l';
  }

  lemma UnescapeGt(t: string)
    ensures UnescapeHtml("&gt;" + t) == ">" + UnescapeHtml(t)
  {
    var s := "&gt;" + t;
    assert s[..4] == "&gt;" && s[4..] == t;
    assert |s| >= 5 ==> s[..5][1] == 'g';
    assert s[..4][1] == 'g';
  }

  lemma UnescapeQuot(t: string)
    ensures UnescapeHtml("&quot;" + t) == "\"" + UnescapeHtml(t)
  {
    var s := "&quot;" + t;
    assert s[..6] == "&quot;" && s[6..] == t;
    assert s[..5][1] == 'q' && s[..4][1] == 'q';
  }

  lemma UnescapeApos(t: string)
    ensures UnescapeHtml("&#039;" + t) == "'" + UnescapeHtml(t)
  {
    var s := "&#039;" + t;
    assert s[..6] == "&#039;" && s[6..] == t;
    assert s[..5][1] == '#' && s[..4][1] == '#' && s[..6][1] == '#';
  }


  /** Escaping loses nothing: decoding the entities gives the text back. */
  lemma {:induction false} UnescapeEscapeHtml(s: string)
    ensures UnescapeHtml(EscapeHtml(s)) == s
    decreases |s|
  {
    if s != [] {
      UnescapeEscapeChar(s[0], EscapeHtml(s[1..]));
      UnescapeEscapeHtml(s[1..]);
      assert s == [s[0]] + s[1..];
    }
  }

  /** A character the filename pattern `[a-z0-9._-]` (case-insensitive) keeps. */
  predicate IsFilenameChar(c: char) {
    'a' <= c <= 'z' || 'A' <= c <= 'Z' || '0' <= c <= '9' || c == '.' || c == '_' || c == '-'
  }

  /** `.replace(/[^a-z0-9._-]/gi, '_')`. */
  function SanitizeFilename(s: string): (r: string)
    ensures |r| == |s|
    ensures forall i | 0 <= i < |s| :: r[i] == if IsFilenameChar(s[i]) then s[i] else '_'
    decreases |s|
  {
    if s == [] then [] else [if IsFilenameChar(s[0]) then s[0] else '_'] + SanitizeFilename(s[1..])
  }

  /** A sanitised name holds only filename characters, so sanitising it
      again changes nothing. */
  lemma SanitizeFilenameIdempotent(s: string)
    ensures forall i | 0 <= i < |s| :: IsFilenameChar(SanitizeFilename(s)[i])
    ensures SanitizeFilename(SanitizeFilename(s)) == SanitizeFilename(s)
  {
    var r := SanitizeFilename(s);
    var rr := SanitizeFilename(r);
    assert forall i | 0 <= i < |r| :: rr[i] == r[i];
  }

  /** Which of the two outputs is downloaded. */
  datatype OutputKind = JsonOutput | TextOutput

  /** The longest length of a file's base name. */
  const MaxBaseLength: nat := 40

  /** The name `#downloadFile` gives the file: `(product_description ||
      'prompt').substring(0, 40)`, sanitised, then `.json` or `.txt`. */
  function DownloadFilename(f: Form, kind: OutputKind): (name: string)
    ensures var desc := ValueOf(f.values, "product_description");
      var source := if desc != "" then desc else "prompt";
      var n := if |source| < MaxBaseLength then |source| else MaxBaseLength;
      var ext := if kind == JsonOutput then ".json" else ".txt";
      && |name| == n + |ext| && name[n..] == ext
      && forall i | 0 <= i < n :: name[i] == if IsFilenameChar(source[i]) then source[i] else '_'
  {
    var desc := ValueOf(f.values, "product_description");
    var source := if desc != "" then desc else "prompt";
    var base := if |source| <= MaxBaseLength then source else source[..MaxBaseLength];
    SanitizeFilename(base) + (if kind == JsonOutput then ".json" else ".txt")
  }

  /** A form whose description is `"Bed / Frame?!"` is saved as `"Bed___Frame__.json"`. */
  lemma DownloadFilenameExample(f: Form)
    requires "product_description" in f.values
    requires f.values["product_description"] == "Bed / Frame?!"
    ensures DownloadFilename(f, JsonOutput) == "Bed___Frame__.json"
  {
    var source := f.values["product_description"];
    assert ValueOf(f.values, "product_description") == source;
    assert |source| == 13;
    SanitizeExample(source);
  }

  /** The space, `/`, `?` and `!` of `"Bed / Frame?!"` each become `_`. */
  lemma SanitizeExample(s: string)
    requires s == "Bed / Frame?!"
    ensures SanitizeFilename(s) == "Bed___Frame__"
  {
    var r := SanitizeFilename(s);
    assert r[0] == 'B' && r[1] == 'e' && r[2] == 'd';
    assert r[3] == '_' && r[4] == '_' && r[5] == '_';
    assert r[6] == 'F' && r[7] == 'r' && r[8] == 'a' && r[9] == 'm' && r[10] == 'e';
    assert r[11] == '_' && r[12] == '_';
  }
}
