/** Where pattern sets come from (HyphenationPatternRepository.kt): the
    language key of a tag, the table of bundled TeX pattern files, the parser
    of those files and the per-key cache. The class loader is an input of
    the model: a map from resource path to file text. */
module Repository {
  import opened Text
  import opened Locales
  import opened Trie
  import opened Liang

  // ---------------------------------------------------------------- tags

  function ReplaceChar(s: String, from: char, to: char): (r: String)
    ensures |r| == |s|
    ensures forall i :: 0 <= i < |s| ==> r[i] == (if s[i] == from then to else s[i])
  {
    seq(|s|, i requires 0 <= i < |s| => if s[i] == from then to else s[i])
  }

  /** `normalizeTag`: no key for a missing or blank tag; otherwise the
      language of the tag with `_` read as `-`, when it has one. */
  function NormalizeTag(tag: Option<String>): (key: Option<String>)
    ensures tag == None || IsBlank(tag.value) ==> key == None
    ensures key.Some? ==> key.value != [] && key.value != "und"
  {
    match tag
    case None => None
    case Some(t) =>
      TrimEmptyIffBlank(t);
      var trimmed := Trim(t);
      if trimmed == [] then None
      else
        var language := LanguageOf(ReplaceChar(trimmed, '_', '-'));
        if language == [] || language == "und" then None else Some(ToLower(language))
  }

  /** A tag keys as its language subtag: an underscore separates subtags
      like a hyphen, and region, script, variant and extension subtags do
      not count (`en_US` and `en-US-u-va-posix` both key as `en`). */
  lemma NormalizeTagIgnoresSubtags(lang: String, separator: char, rest: String)
    requires separator == '-' || separator == '_'
    requires 2 <= |lang| <= 8 && lang != "und" && forall i :: 0 <= i < |lang| ==> 'a' <= lang[i] <= 'z'
    requires rest == [] || !IsWhitespace(rest[|rest| - 1])
    ensures NormalizeTag(Some(lang + [separator] + rest)) == Some(lang)
  {
    var t := lang + [separator] + rest;
    TrimOfUnpadded(t);
    var fixed := ReplaceChar(rest, '_', '-');
    ReplaceAround(lang, separator, rest);
    LanguageIgnoresLaterSubtags(lang, fixed);
    LanguageOfPlain(lang);
    ToLowerKeepsSmall(lang);
    assert LanguageOf(ReplaceChar(Trim(t), '_', '-')) == lang;
  }

  lemma ReplaceAround(lang: String, separator: char, rest: String)
    requires separator == '-' || separator == '_'
    requires forall i :: 0 <= i < |lang| ==> 'a' <= lang[i] <= 'z'
    ensures ReplaceChar(lang + [separator] + rest, '_', '-') == lang + "-" + ReplaceChar(rest, '_', '-')
    ensures forall i :: 0 <= i < |lang| ==> lang[i] != '-'
  {
  }

  lemma LanguageOfPlain(lang: String)
    requires 2 <= |lang| <= 8 && lang != "und" && forall i :: 0 <= i < |lang| ==> 'a' <= lang[i] <= 'z'
    ensures LanguageOf(lang) == lang
  {
    FirstSubtagPrefix(lang, "");
    assert lang[..FirstSubtagLength(lang)] == lang;
    ToLowerKeepsSmall(lang);
  }

  lemma TrimOfUnpadded(t: String)
    requires t != [] && !IsWhitespace(t[0]) && !IsWhitespace(t[|t| - 1])
    ensures Trim(t) == t
  {
    assert LeadingWhitespace(t) == 0;
    assert t[0..] == t;
    assert TrailingWhitespace(t) == 0;
  }

  /** The base languages that have a bundled pattern file. */
  const BUNDLED_LANGUAGES: set<String> :=
    {"ar", "bn", "de", "en", "es", "fa", "fr", "hi", "id", "it", "mr", "pt", "ru", "ta", "te", "th", "tr", "vi"}

  /** The resource table of `loadFromResources`. */
  function ResourcePath(key: String): (path: Option<String>)
    ensures path.Some? <==> key in BUNDLED_LANGUAGES
  {
    match key
    case "ar" => Some("hyphenation/hyph-ar.tex")
    case "bn" => Some("hyphenation/hyph-bn.tex")
    case "de" => Some("hyphenation/hyph-de-1996.tex")
    case "en" => Some("hyphenation/hyph-en-us.tex")
    case "es" => Some("hyphenation/hyph-es.tex")
    case "fa" => Some("hyphenation/hyph-fa.tex")
    case "fr" => Some("hyphenation/hyph-fr.tex")
    case "hi" => Some("hyphenation/hyph-hi.tex")
    case "id" => Some("hyphenation/hyph-id.tex")
    case "it" => Some("hyphenation/hyph-it.tex")
    case "mr" => Some("hyphenation/hyph-mr.tex")
    case "pt" => Some("hyphenation/hyph-pt.tex")
    case "ru" => Some("hyphenation/hyph-ru.tex")
    case "ta" => Some("hyphenation/hyph-ta.tex")
    case "te" => Some("hyphenation/hyph-te.tex")
    case "th" => Some("hyphenation/hyph-th.tex")
    case "tr" => Some("hyphenation/hyph-tr.tex")
    case "vi" => Some("hyphenation/hyph-vi.tex")
    case _ => None
  }

  // ------------------------------------------------------------- parsing

  predicate IsLineBreak(c: char) {
    c == '\n' || c == '\r'
  }

  /** Offset of the first line break, or the length. */
  function LineEnd(s: String): (n: nat)
    ensures n <= |s|
    ensures forall i :: 0 <= i < n ==> !IsLineBreak(s[i])
    ensures n < |s| ==> IsLineBreak(s[n])
  {
    if s == [] || IsLineBreak(s[0]) then 0 else 1 + LineEnd(s[1..])
  }

  /** `lineSequence().map { it.substringBefore('%') }.joinToString("\n")`:
      from each `%` to the end of its line the text goes, and every line
      break (`\r\n`, `\n` or `\r`) becomes `\n`. */
  function Uncomment(s: String): (r: String)
    ensures forall i :: 0 <= i < |r| ==> r[i] != '%' && r[i] != '\r'
    decreases |s|
  {
    if s == [] then []
    else if s[0] == '%' then Uncomment(s[LineEnd(s)..])
    else if s[0] == '\r' && |s| >= 2 && s[1] == '\n' then "\n" + Uncomment(s[2..])
    else if s[0] == '\r' then "\n" + Uncomment(s[1..])
    else [s[0]] + Uncomment(s[1..])
  }

  /** `String.replace(oldValue, newValue)`: every occurrence, left to right, without overlap. */
  function ReplaceAll(s: String, target: String, replacement: String): String
    requires target != []
    decreases |s|
  {
    if |s| < |target| then s
    else if s[..|target|] == target then replacement + ReplaceAll(s[|target|..], target, replacement)
    else [s[0]] + ReplaceAll(s[1..], target, replacement)
  }

  /** A character outside both the text and the replacement stays out. */
  lemma {:induction false} ReplaceAllAvoids(s: String, target: String, replacement: String, c: char)
    requires target != [] && c !in s && c !in replacement
    ensures c !in ReplaceAll(s, target, replacement)
    decreases |s|
  {
    if |s| >= |target| {
      if s[..|target|] == target {
        assert c !in s[|target|..];
        ReplaceAllAvoids(s[|target|..], target, replacement, c);
      } else {
        assert c !in s[1..];
        ReplaceAllAvoids(s[1..], target, replacement, c);
      }
    }
  }

  /** Replacing a one-character string removes that character. */
  lemma {:induction false} ReplaceCharRemoves(s: String, c: char, replacement: String)
    requires c !in replacement
    ensures c !in ReplaceAll(s, [c], replacement)
    decreases |s|
  {
    if |s| >= 1 {
      if s[..1] == [c] {
        ReplaceCharRemoves(s[1..], c, replacement);
      } else {
        assert s[0] != c;
        ReplaceCharRemoves(s[1..], c, replacement);
      }
    }
  }

  /** The pattern text once comments, `\patterns`, `\hyphenation` and the
      braces are gone. */
  function Cleaned(text: String): String {
    var s := ReplaceAll(Uncomment(text), "\\patterns", " ");
    var s2 := ReplaceAll(s, "\\hyphenation", " ");
    var s3 := ReplaceAll(s2, "{", " ");
    ReplaceAll(s3, "}", " ")
  }

  /** No comment sign and no brace survives the cleaning. */
  lemma CleanedFacts(text: String)
    ensures '%' !in Cleaned(text) && '{' !in Cleaned(text) && '}' !in Cleaned(text)
  {
    var s0 := Uncomment(text);
    assert '%' !in s0;
    var s := ReplaceAll(s0, "\\patterns", " ");
    ReplaceAllAvoids(s0, "\\patterns", " ", '%');
    var s2 := ReplaceAll(s, "\\hyphenation", " ");
    ReplaceAllAvoids(s, "\\hyphenation", " ", '%');
    var s3 := ReplaceAll(s2, "{", " ");
    ReplaceAllAvoids(s2, "{", " ", '%');
    ReplaceCharRemoves(s2, '{', " ");
    ReplaceAllAvoids(s3, "}", " ", '%');
    ReplaceAllAvoids(s3, "}", " ", '{');
    ReplaceCharRemoves(s3, '}', " ");
  }

  /** `\s` of a Java regular expression: the ASCII white space. */
  predicate IsRegexSpace(c: char) {
    c == ' ' || c == '\t' || c == '\n' || c == '\U{000B}' || c == '\U{000C}' || c == '\r'
  }

  /** Length of the leading run without white space. */
  function FieldLength(s: String): (n: nat)
    ensures n <= |s|
    ensures forall i :: 0 <= i < n ==> !IsRegexSpace(s[i])
    ensures n < |s| ==> IsRegexSpace(s[n])
  {
    if s == [] || IsRegexSpace(s[0]) then 0 else 1 + FieldLength(s[1..])
  }

  /** The non-empty pieces of `split(Regex("\\s+"))`. */
  function Fields(s: String): (r: seq<String>)
    ensures forall k :: 0 <= k < |r| ==> r[k] != [] && forall i :: 0 <= i < |r[k]| ==> !IsRegexSpace(r[k][i])
    decreases |s|
  {
    if s == [] then []
    else
      var n := FieldLength(s);
      if n == 0 then Fields(s[1..]) else [s[..n]] + Fields(s[n..])
  }

  /** `tokens`: the fields that are not blank. */
  function NonBlank(fields: seq<String>): (r: seq<String>)
    ensures forall k :: 0 <= k < |r| ==> !IsBlank(r[k]) && r[k] in fields
    decreases |fields|
  {
    if fields == [] then []
    else
      var rest := NonBlank(fields[1..]);
      if IsBlank(fields[0]) then rest else [fields[0]] + rest
  }

  /** The tokens the parser hands to `insert`: no leading backslash, and
      nothing but letters, digits and dots. */
  predicate IsPatternToken(t: String) {
    !StartsWith(t, "\\") && forall i :: 0 <= i < |t| ==> IsLetterOrDigit(t[i]) || t[i] == '.'
  }

  /** The weights once the first tokens are inserted in order, the way
      `insert` changes the weight map. */
  function InsertAll(tokens: seq<String>): (vals: map<String, seq<int>>)
    ensures WellFormedWeights(vals)
    ensures forall w :: w in vals ==> exists t :: t in tokens && IsPatternToken(t) && !IsBlank(t) && w == Letters(t)
  {
    if tokens == [] then map[]
    else
      var init := InsertAll(tokens[..|tokens| - 1]);
      var t := tokens[|tokens| - 1];
      assert forall u :: u in tokens[..|tokens| - 1] ==> u in tokens;
      if IsPatternToken(t) && !IsBlank(t) then init[Letters(t) := Weights(t)] else init
  }

  /** An accepted token that no later token with the same letters overrides
      is looked up with its weights. */
  lemma LastTokenWins(tokens: seq<String>, t: String)
    requires tokens != [] && t == tokens[|tokens| - 1] && IsPatternToken(t) && !IsBlank(t)
    ensures Letters(t) in InsertAll(tokens) && InsertAll(tokens)[Letters(t)] == Weights(t)
  {
  }

  // ------------------------------------------------------- hyphen minima

  function AsciiLower(c: char): char {
    if 'A' <= c <= 'Z' then (c as int + 32) as char else c
  }

  function SkipSpaces(s: String, i: nat): (r: nat)
    requires i <= |s|
    ensures i <= r <= |s|
    ensures forall k :: i <= k < r ==> IsRegexSpace(s[k])
    ensures r < |s| ==> !IsRegexSpace(s[r])
    decreases |s| - i
  {
    if i == |s| || !IsRegexSpace(s[i]) then i else SkipSpaces(s, i + 1)
  }

  function DigitsEnd(s: String, i: nat): (r: nat)
    requires i <= |s|
    ensures i <= r <= |s|
    ensures forall k :: i <= k < r ==> IsDigit(s[k])
    ensures r < |s| ==> !IsDigit(s[r])
    decreases |s| - i
  {
    if i == |s| || !IsDigit(s[i]) then i else DigitsEnd(s, i + 1)
  }

  /** The text at `i` spells `word`, ignoring the case of ASCII letters. */
  predicate SpellsAt(s: String, i: nat, word: String) {
    i + |word| <= |s| && forall k :: 0 <= k < |word| ==> AsciiLower(s[i + k]) == word[k]
  }

  /** The digits of a match of `%\s*key:\s*(\d+)` starting at `i`. */
  function MatchAt(s: String, i: nat, key: String): (r: Option<String>)
    requires i < |s|
    ensures r.Some? ==> r.value != [] && forall k :: 0 <= k < |r.value| ==> IsDigit(r.value[k])
  {
    if s[i] != '%' then None
    else
      var a := SkipSpaces(s, i + 1);
      if !SpellsAt(s, a, key + ":") then None
      else
        var b := SkipSpaces(s, a + |key| + 1);
        var e := DigitsEnd(s, b);
        if e == b then None else Some(s[b..e])
  }

  /** The leftmost match at or after `i` (`Regex.find`). */
  function FindFrom(s: String, i: nat, key: String): (r: Option<String>)
    requires i <= |s|
    ensures r.Some? ==> r.value != [] && forall k :: 0 <= k < |r.value| ==> IsDigit(r.value[k])
    decreases |s| - i
  {
    if i == |s| then None
    else
      match MatchAt(s, i, key)
      case Some(d) => Some(d)
      case None => FindFrom(s, i + 1, key)
  }

  function DigitsValue(ds: String): (v: nat)
    requires forall k :: 0 <= k < |ds| ==> IsDigit(ds[k])
  {
    if ds == [] then 0 else DigitsValue(ds[..|ds| - 1]) * 10 + DigitValue(ds[|ds| - 1])
  }

  const INT_MAX: int := 0x7FFF_FFFF

  /** `parseHyphenMin`: the number after `%key:`, unless it does not fit in
      an `Int` (`toIntOrNull` gives null then). */
  function ParseHyphenMin(text: String, key: String): (r: Option<int>)
    ensures r.Some? ==> 0 <= r.value <= INT_MAX
  {
    match FindFrom(text, 0, key)
    case None => None
    case Some(ds) => if DigitsValue(ds) <= INT_MAX then Some(DigitsValue(ds)) else None
  }

  /** A text without `%` has no metadata. */
  lemma {:induction false} NoPercentNoMatch(text: String, i: nat, key: String)
    requires i <= |text| && '%' !in text
    ensures FindFrom(text, i, key) == None
    decreases |text| - i
  {
    if i < |text| {
      assert text[i] in text;
      NoPercentNoMatch(text, i + 1, key);
    }
  }

  /** The minima default to 2. */
  function HyphenMinOr2(m: Option<int>): int {
    match m
    case Some(v) => v
    case None => 2
  }

  /** What `HyphenationPatternsParser.parse` builds from a file. */
  function ParsedData(text: String): PatternData {
    PatternData(InsertAll(NonBlank(Fields(Cleaned(text)))),
                HyphenMinOr2(ParseHyphenMin(text, "left")),
                HyphenMinOr2(ParseHyphenMin(text, "right")))
  }

  /** A file without `%` metadata uses minima of 2 on both sides; the minima
      are never negative; every stored weight array belongs to a token the
      parser accepts. */
  lemma ParsedDataFacts(text: String)
    ensures '%' !in text ==> ParsedData(text).minLeft == 2 && ParsedData(text).minRight == 2
    ensures ParsedData(text).minLeft >= 0 && ParsedData(text).minRight >= 0
    ensures WellFormedWeights(ParsedData(text).values)
    ensures forall w :: w in ParsedData(text).values ==>
      exists t :: t in NonBlank(Fields(Cleaned(text))) && IsPatternToken(t) && w == Letters(t)
  {
    if '%' !in text {
      NoPercentNoMatch(text, 0, "left");
      NoPercentNoMatch(text, 0, "right");
    }
  }

  /** `HyphenationPatternsParser.parse`: insert every accepted token into a
      new trie. */
  method Parse(text: String) returns (s: PatternSet)
    ensures fresh(s.trie) && s.trie.Valid()
    ensures DataOf(s) == ParsedData(text)
  {
    var minLeft := HyphenMinOr2(ParseHyphenMin(text, "left"));
    var minRight := HyphenMinOr2(ParseHyphenMin(text, "right"));
    var trie := new PatternTrie();
    var tokens := NonBlank(Fields(Cleaned(text)));
    for i := 0 to |tokens|
      invariant trie.Valid() && trie.values == InsertAll(tokens[..i])
    {
      var token := tokens[i];
      InsertAllSnoc(tokens, i);
      if StartsWith(token, "\\") {
        continue;
      }
      if !(forall k :: 0 <= k < |token| ==> IsLetterOrDigit(token[k]) || token[k] == '.') {
        continue;
      }
      trie.Insert(token);
    }
    assert tokens[..|tokens|] == tokens;
    s := PatternSet(trie, minLeft, minRight);
    assert DataOf(s) == PatternData(InsertAll(tokens), minLeft, minRight);
  }

  lemma InsertAllSnoc(tokens: seq<String>, i: nat)
    requires i < |tokens|
    ensures InsertAll(tokens[..i + 1]) ==
      if IsPatternToken(tokens[i]) && !IsBlank(tokens[i]) then InsertAll(tokens[..i])[Letters(tokens[i]) := Weights(tokens[i])]
      else InsertAll(tokens[..i])
  {
    assert tokens[..i + 1][..i] == tokens[..i];
  }

  // ----------------------------------------------------------- the cache

  /** What loading a key yields: the parsed bundled file, when the key has
      one and the loader finds it. */
  function LoadKey(resources: map<String, String>, key: String): Option<PatternData> {
    match ResourcePath(key)
    case None => None
    case Some(path) => if path in resources then Some(ParsedData(resources[path])) else None
  }

  /** What `load(languageTag)` yields. */
  function LoadTag(resources: map<String, String>, tag: Option<String>): Option<PatternData> {
    match NormalizeTag(tag)
    case None => None
    case Some(key) => LoadKey(resources, key)
  }

  /** A blank or missing tag, and a language without a bundled file, load
      nothing. */
  lemma LoadTagNone(resources: map<String, String>, tag: Option<String>)
    ensures tag == None || IsBlank(tag.value) ==> LoadTag(resources, tag) == None
    ensures NormalizeTag(tag).Some? && NormalizeTag(tag).value !in BUNDLED_LANGUAGES ==> LoadTag(resources, tag) == None
  {
  }

  class PatternRepository {
    const resources: map<String, String>
    var cache: map<String, PatternSet>

    ghost function Tries(): set<object>
      reads this
    {
      set k | k in cache :: cache[k].trie
    }

    /** Every cached set is a well-formed trie holding what loading its key yields. */
    ghost predicate Valid()
      reads this, Tries()
    {
      forall k :: k in cache ==> cache[k].trie in Tries() && cache[k].trie.Valid() && LoadKey(resources, k) == Some(DataOf(cache[k]))
    }

    constructor (resources: map<String, String>)
      ensures Valid() && this.resources == resources && cache == map[]
    {
      this.resources := resources;
      cache := map[];
    }

    /** `load(languageTag)`: a key seen before is answered from the cache;
        otherwise the set is loaded and kept only when there is one. */
    method Load(tag: Option<String>) returns (r: Option<PatternSet>)
      requires Valid()
      modifies this
      ensures Valid()
      ensures r.Some? ==> r.value.trie.Valid() && LoadTag(resources, tag) == Some(DataOf(r.value))
      ensures r.None? ==> LoadTag(resources, tag) == None
      ensures NormalizeTag(tag).None? ==> cache == old(cache)
      ensures NormalizeTag(tag).Some? && NormalizeTag(tag).value in old(cache) ==>
        cache == old(cache) && r == Some(old(cache)[NormalizeTag(tag).value])
      ensures NormalizeTag(tag).Some? && NormalizeTag(tag).value !in old(cache) ==>
        cache == (if r.Some? then old(cache)[NormalizeTag(tag).value := r.value] else old(cache))
      ensures r.Some? ==> NormalizeTag(tag).value in cache && cache[NormalizeTag(tag).value] == r.value
    {
      var key := NormalizeTag(tag);
      if key.None? {
        return None;
      }
      var k := key.value;
      if k in cache {
        return Some(cache[k]);
      }
      var path := ResourcePath(k);
      if path.None? {
        return None;
      }
      if path.value !in resources {
        return None;
      }
      var s := Parse(resources[path.value]);
      cache := cache[k := s];
      return Some(s);
    }
  }
}
