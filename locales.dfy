/** The part of `java.util.Locale` the core uses: the language of the locale
    that `Locale.forLanguageTag` builds from a BCP 47 tag, and the choice
    between a given tag and the device default. */
module Locales {
  import opened Text

  predicate IsAsciiLetter(c: char) {
    ('a' <= c <= 'z') || ('A' <= c <= 'Z')
  }

  /** Length of the first subtag: the characters before the first `-`. */
  function FirstSubtagLength(tag: String): (n: nat)
    ensures n <= |tag|
    ensures forall i :: 0 <= i < n ==> tag[i] != '-'
    ensures n < |tag| ==> tag[n] == '-'
  {
    if tag == [] || tag[0] == '-' then 0 else 1 + FirstSubtagLength(tag[1..])
  }

  /** `Locale.forLanguageTag(tag).language`: the first subtag, lower-cased,
      when it is a well-formed language subtag (two to eight ASCII letters)
      other than "und"; otherwise the empty language of the root locale. */
  function LanguageOf(tag: String): (lang: String)
    ensures lang != [] ==> 2 <= |lang| <= 8 && lang != "und"
    ensures lang != [] ==> lang == ToLower(tag[..FirstSubtagLength(tag)])
    ensures forall i :: 0 <= i < |lang| ==> 'a' <= lang[i] <= 'z'
  {
    var sub := tag[..FirstSubtagLength(tag)];
    if 2 <= |sub| <= 8 && (forall i :: 0 <= i < |sub| ==> IsAsciiLetter(sub[i])) then
      var lower := ToLower(sub);
      if lower == "und" then [] else lower
    else []
  }

  /** The locale language used by the tokenizer, the classifier and the
      hyphenator: the trimmed tag when it is not blank, else the device
      default (`Locale.getDefault()`), which is an input of the model. */
  function ResolveLanguage(tag: Option<String>, deviceLanguage: String): (lang: String)
    ensures (tag == None || IsBlank(tag.value)) ==> lang == deviceLanguage
    ensures tag.Some? && !IsBlank(tag.value) ==> lang == LanguageOf(Trim(tag.value))
  {
    match tag
    case None => deviceLanguage
    case Some(t) =>
      TrimEmptyIffBlank(t);
      var trimmed := Trim(t);
      if trimmed == [] then deviceLanguage else LanguageOf(trimmed)
  }

  /** A tag of two to eight small ASCII letters is its own language,
      except "und", which names none. */
  lemma LanguageOfSmallLetters(tag: String)
    requires 2 <= |tag| <= 8 && forall i :: 0 <= i < |tag| ==> 'a' <= tag[i] <= 'z'
    ensures LanguageOf(tag) == if tag == "und" then [] else tag
  {
    assert FirstSubtagLength(tag) == |tag|;
    assert tag[..|tag|] == tag;
    ToLowerKeepsSmall(tag);
  }

  /** Region, script, variant and extension subtags never change the language. */
  lemma LanguageIgnoresLaterSubtags(lang: String, rest: String)
    requires forall i :: 0 <= i < |lang| ==> lang[i] != '-'
    ensures LanguageOf(lang + "-" + rest) == LanguageOf(lang)
  {
    var t := lang + "-" + rest;
    FirstSubtagPrefix(lang, rest);
    assert t[..FirstSubtagLength(t)] == lang;
    assert lang[..FirstSubtagLength(lang)] == lang;
  }

  lemma {:induction false} FirstSubtagPrefix(lang: String, rest: String)
    requires forall i :: 0 <= i < |lang| ==> lang[i] != '-'
    ensures FirstSubtagLength(lang + "-" + rest) == |lang|
    ensures FirstSubtagLength(lang) == |lang|
  {
    if lang != [] {
      assert (lang + "-" + rest)[1..] == lang[1..] + "-" + rest;
      FirstSubtagPrefix(lang[1..], rest);
    }
  }
}
