/** `BasicLanguageResolver` (BasicLanguageResolver.kt): the language of a
    text, taken from the first of the page's tag, the user's default and
    the device locale that names a real language. */
module Language {
  import opened Text
  import opened Locales

  /** `Locale.forLanguageTag(tag).toLanguageTag()`, the canonical spelling
      of a tag, is an input of the model. */
  type Canonicalizer = String -> String

  /** `normalizeTag`: a missing or blank tag, or one whose language is
      empty or undetermined, gives nothing; any other tag its canonical
      spelling. */
  function NormalizeTag(tag: Option<String>, canonical: Canonicalizer): (r: Option<String>)
    ensures tag.None? || IsBlank(tag.value) ==> r.None?
    ensures tag.Some? && !IsBlank(tag.value) ==> (r.None? <==> LanguageOf(Trim(tag.value)) == [])
    ensures r.Some? ==> tag.Some? && r.value == canonical(Trim(tag.value))
  {
    match tag
    case None => None
    case Some(t) =>
      TrimEmptyIffBlank(t);
      var trimmed := Trim(t);
      if trimmed == [] then None
      else
        var language := LanguageOf(trimmed);
        if language == [] || language == "und" then None else Some(canonical(trimmed))
  }

  /** `firstOrNull { it != null }`. */
  function FirstPresent(xs: seq<Option<String>>): (r: Option<String>)
    ensures r.None? <==> forall i :: 0 <= i < |xs| ==> xs[i].None?
  {
    if xs == [] then None
    else if xs[0].Some? then xs[0]
    else
      assert forall i :: 0 <= i < |xs[1..]| ==> xs[1..][i] == xs[i + 1];
      FirstPresent(xs[1..])
  }

  /** What `FirstPresent` finds is an element with nothing present before
      it. */
  lemma {:induction false} FirstPresentIsFirst(xs: seq<Option<String>>)
    ensures FirstPresent(xs).Some? ==>
      exists i :: 0 <= i < |xs| && xs[i] == FirstPresent(xs) && forall j :: 0 <= j < i ==> xs[j].None?
  {
    if xs != [] && xs[0].None? {
      var tail := xs[1..];
      FirstPresentIsFirst(tail);
      if FirstPresent(tail).Some? {
        var i :| 0 <= i < |tail| && tail[i] == FirstPresent(tail) && forall j :: 0 <= j < i ==> tail[j].None?;
        assert xs[i + 1] == FirstPresent(xs);
        assert forall j :: 0 <= j < i + 1 ==> xs[j].None? by {
          forall j | 0 <= j < i + 1 ensures xs[j].None? {
            if j > 0 {
              assert xs[j] == tail[j - 1];
            }
          }
        }
      }
    } else if xs != [] {
      assert xs[0] == FirstPresent(xs);
    }
  }

  /** `resolve`: the first tag, in the order page, user default, device,
      that normalises to something. */
  function Resolve(htmlLanguageTag: Option<String>, userDefault: Option<String>, deviceLocaleTag: Option<String>,
                   canonical: Canonicalizer): Option<String>
  {
    FirstPresent([NormalizeTag(htmlLanguageTag, canonical), NormalizeTag(userDefault, canonical),
                  NormalizeTag(deviceLocaleTag, canonical)])
  }

  /** The page's tag wins when it is valid, then the user's default, then
      the device's; with none valid there is no language. */
  lemma ResolvePriority(html: Option<String>, user: Option<String>, device: Option<String>, canonical: Canonicalizer)
    ensures NormalizeTag(html, canonical).Some? ==> Resolve(html, user, device, canonical) == NormalizeTag(html, canonical)
    ensures NormalizeTag(html, canonical).None? && NormalizeTag(user, canonical).Some? ==>
      Resolve(html, user, device, canonical) == NormalizeTag(user, canonical)
    ensures NormalizeTag(html, canonical).None? && NormalizeTag(user, canonical).None? ==>
      Resolve(html, user, device, canonical) == NormalizeTag(device, canonical)
  {
    FirstOfThree(NormalizeTag(html, canonical), NormalizeTag(user, canonical), NormalizeTag(device, canonical));
  }

  lemma FirstOfThree(a: Option<String>, b: Option<String>, c: Option<String>)
    ensures FirstPresent([a, b, c]) == if a.Some? then a else if b.Some? then b else c
  {
    var xs := [a, b, c];
    assert xs[1..] == [b, c];
    assert xs[1..][1..] == [c];
    assert xs[1..][1..][1..] == [];
    assert FirstPresent([c]) == c;
    assert FirstPresent([b, c]) == if b.Some? then b else c;
  }

  /** A result is the canonical spelling of one of the three tags, trimmed,
      and that tag names a language. */
  lemma ResolveFromInput(html: Option<String>, user: Option<String>, device: Option<String>, canonical: Canonicalizer)
    ensures Resolve(html, user, device, canonical).Some? ==>
      exists t :: t in [html, user, device] && t.Some? && LanguageOf(Trim(t.value)) != [] &&
        Resolve(html, user, device, canonical) == Some(canonical(Trim(t.value)))
  {
    ResolvePriority(html, user, device, canonical);
    var r := Resolve(html, user, device, canonical);
    if r.Some? {
      var t := if NormalizeTag(html, canonical).Some? then html
               else if NormalizeTag(user, canonical).Some? then user else device;
      assert t in [html, user, device];
      assert NormalizeTag(t, canonical) == r;
    }
  }

  /** A tag without surrounding whitespace that names a language
      normalises to its canonical spelling. */
  lemma NormalizeValidTag(t: String, canonical: Canonicalizer)
    requires t != [] && !IsWhitespace(t[0]) && !IsWhitespace(t[|t| - 1]) && LanguageOf(t) != []
    ensures NormalizeTag(Some(t), canonical) == Some(canonical(t))
  {
    TrimUnchanged(t);
  }

  /** "und", the undetermined language, normalises to nothing. */
  lemma NormalizeUnd(canonical: Canonicalizer)
    ensures NormalizeTag(Some("und"), canonical) == None
  {
    TrimUnchanged("und");
    LanguageOfSmallLetters("und");
  }

  lemma LanguageOfEnUs()
    ensures LanguageOf("en-US") == "en"
  {
    FirstSubtagPrefix("en", "US");
    assert "en" + "-" + "US" == "en-US";
    assert "en-US"[..2] == "en";
  }

  /** The page's tag overrides the user's default: ("fr", "en", "de")
      resolves to "fr". */
  lemma ResolveHtmlFirst(canonical: Canonicalizer)
    requires canonical("fr") == "fr"
    ensures Resolve(Some("fr"), Some("en"), Some("de"), canonical) == Some("fr")
  {
    LanguageOfSmallLetters("fr");
    NormalizeValidTag("fr", canonical);
    ResolvePriority(Some("fr"), Some("en"), Some("de"), canonical);
  }

  /** The user's default overrides the device: (null, "en-US", "de")
      resolves to "en-US". */
  lemma ResolveUserDefault(canonical: Canonicalizer)
    requires canonical("en-US") == "en-US"
    ensures Resolve(None, Some("en-US"), Some("de"), canonical) == Some("en-US")
  {
    LanguageOfEnUs();
    NormalizeValidTag("en-US", canonical);
    ResolvePriority(None, Some("en-US"), Some("de"), canonical);
  }

  /** With nothing else the device's tag is used: (null, null, "de")
      resolves to "de". */
  lemma ResolveDevice(canonical: Canonicalizer)
    requires canonical("de") == "de"
    ensures Resolve(None, None, Some("de"), canonical) == Some("de")
  {
    LanguageOfSmallLetters("de");
    NormalizeValidTag("de", canonical);
    ResolvePriority(None, None, Some("de"), canonical);
  }

  /** A blank tag and "und" are skipped: (" ", "und", "en") resolves to
      "en". */
  lemma ResolveSkipsInvalid(canonical: Canonicalizer)
    requires canonical("en") == "en"
    ensures Resolve(Some(" "), Some("und"), Some("en"), canonical) == Some("en")
  {
    assert IsBlank(" ");
    NormalizeUnd(canonical);
    LanguageOfSmallLetters("en");
    NormalizeValidTag("en", canonical);
    ResolvePriority(Some(" "), Some("und"), Some("en"), canonical);
  }

  /** With every tag invalid there is no language: ("", "   ", "und"). */
  lemma ResolveAllInvalid(canonical: Canonicalizer)
    ensures Resolve(Some(""), Some("   "), Some("und"), canonical) == None
  {
    assert IsBlank("") && IsBlank("   ");
    NormalizeUnd(canonical);
    ResolvePriority(Some(""), Some("   "), Some("und"), canonical);
  }
}
