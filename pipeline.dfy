/** `buildTokensForText` (TokenPipeline.kt): tokenize a non-blank text and
    split its over-long tokens. */
module Pipeline {
  import opened Text
  import opened Locales
  import opened Segments
  import opened Classifier
  import opened Tokenizer
  import opened Preparation

  /** What `buildTokensForText(text, tag, max, IcuTokenizer(), hyphenator)`
      returns. */
  function BuildTokens(env: TextEnv, text: String, tag: Option<String>, max: int, hyphenate: Hyphenator): seq<Token> {
    if IsBlank(text) then [] else SplitLong(env, Tokens(env, text, tag), tag, max, hyphenate)
  }

  /** A blank text gives no tokens; any other text gives the tokenizer's
      tokens with the long ones split. */
  lemma BuildTokensStages(env: TextEnv, text: String, tag: Option<String>, max: int, hyphenate: Hyphenator)
    ensures IsBlank(text) ==> BuildTokens(env, text, tag, max, hyphenate) == []
    ensures !IsBlank(text) ==> BuildTokens(env, text, tag, max, hyphenate) == SplitLong(env, Tokens(env, text, tag), tag, max, hyphenate)
  {
  }

  /** When no token of the tokenizer is longer than the cap, the result is
      exactly the tokenizer's output. */
  lemma BuildTokensFitting(env: TextEnv, text: String, tag: Option<String>, max: int, hyphenate: Hyphenator)
    requires forall k :: 0 <= k < |Tokens(env, text, tag)| ==> WordLength(env, Tokens(env, text, tag)[k].text, tag) <= max
    ensures BuildTokens(env, text, tag, max, hyphenate) == Tokens(env, text, tag)
  {
    FittingTokensUnchanged(env, Tokens(env, text, tag), tag, max, hyphenate);
  }

  function TextsOf(tokens: seq<Token>): (r: seq<String>)
    ensures |r| == |tokens|
  {
    seq(|tokens|, k requires 0 <= k < |tokens| => tokens[k].text)
  }

  /** "Status message" in English with a cap of 13 gives the tokens
      "Status" and "message", whatever the hyphenator, when the word
      boundary analysis puts boundaries around the space. */
  lemma StatusMessageExample(env: TextEnv, text: String, tag: Option<String>, hyphenate: Hyphenator)
    requires text == "Status message" && tag == Some("en")
    requires env.segmenter("en", text) == [0, 6, 7, 14]
    ensures TextsOf(BuildTokens(env, text, tag, 13, hyphenate)) == ["Status", "message"]
  {
    EnglishTag(tag, env.deviceLanguage);
    var a, b := "Status", "message";
    assert text == a + [' '] + b;
    AsciiWord(a);
    AsciiWord(b);
    TwoWordsBuilt(env, a, b, tag, 13, hyphenate);
  }

  /** Two words that fit the cap, with one space between them, come out of
      the pipeline as they are. */
  lemma TwoWordsBuilt(env: TextEnv, a: String, b: String, tag: Option<String>, max: int, hyphenate: Hyphenator)
    requires a != [] && b != [] && IsLetterOrDigit(a[0]) && IsLetterOrDigit(b[0]) && |a| <= max && |b| <= max
    requires forall k :: 0 <= k < |a| ==> !IsWhitespace(a[k])
    requires forall k :: 0 <= k < |b| ==> !IsWhitespace(b[k])
    requires IsSpaceDelimited(ResolveLanguage(tag, env.deviceLanguage))
    requires env.segmenter(ResolveLanguage(tag, env.deviceLanguage), a + [' '] + b) == [0, |a|, |a| + 1, |a| + 1 + |b|]
    ensures TextsOf(BuildTokens(env, a + [' '] + b, tag, max, hyphenate)) == [a, b]
  {
    var text := a + [' '] + b;
    TwoWords(env, a, b, tag);
    ShortTokensFit(env, Tokens(env, text, tag), tag, max);
    BuildTokensFitting(env, text, tag, max, hyphenate);
  }

  lemma ShortTokensFit(env: TextEnv, tokens: seq<Token>, tag: Option<String>, max: int)
    requires forall k :: 0 <= k < |tokens| ==> |TextsOf(tokens)[k]| <= max
    ensures forall k :: 0 <= k < |tokens| ==> WordLength(env, tokens[k].text, tag) <= max
  {
    forall k | 0 <= k < |tokens|
      ensures WordLength(env, tokens[k].text, tag) <= max
    {
      assert tokens[k].text == TextsOf(tokens)[k];
      WordLengthBound(env, tokens[k].text, tag);
    }
  }

  /** Two words with one space between them, split by the word boundary
      analysis around the space, are the two tokens of a space-delimited
      language. */
  lemma TwoWords(env: TextEnv, a: String, b: String, tag: Option<String>)
    requires a != [] && b != [] && IsLetterOrDigit(a[0]) && IsLetterOrDigit(b[0])
    requires forall k :: 0 <= k < |a| ==> !IsWhitespace(a[k])
    requires forall k :: 0 <= k < |b| ==> !IsWhitespace(b[k])
    requires IsSpaceDelimited(ResolveLanguage(tag, env.deviceLanguage))
    requires env.segmenter(ResolveLanguage(tag, env.deviceLanguage), a + [' '] + b) == [0, |a|, |a| + 1, |a| + 1 + |b|]
    ensures !IsBlank(a + [' '] + b)
    ensures TextsOf(Tokens(env, a + [' '] + b, tag)) == [a, b]
  {
    var text := a + [' '] + b;
    var lang := ResolveLanguage(tag, env.deviceLanguage);
    ClassesDisjoint(a[0]);
    assert text[0] == a[0];
    TwoWordSegments(env.segmenter, lang, a, b);
    TwoWordRuns(a, b);
    assert TokenTexts(env, text, tag) == [a, b];
  }

  lemma TwoWordSegments(seg: Segmenter, lang: String, a: String, b: String)
    requires a != [] && b != [] && IsLetterOrDigit(a[0]) && IsLetterOrDigit(b[0])
    requires forall k :: 0 <= k < |a| ==> !IsWhitespace(a[k])
    requires forall k :: 0 <= k < |b| ==> !IsWhitespace(b[k])
    requires seg(lang, a + [' '] + b) == [0, |a|, |a| + 1, |a| + 1 + |b|]
    ensures Segmentation(seg, lang, a + [' '] + b) == [Segment(a, false, true), Segment([' '], true, false), Segment(b, false, true)]
  {
    var text := a + [' '] + b;
    ClassesDisjoint(a[0]);
    ClassesDisjoint(b[0]);
    assert text[0..|a|] == a && text[|a|..|a| + 1] == [' '] && text[|a| + 1..|a| + 1 + |b|] == b;
    assert SegmentFrom(a) == Segment(a, false, true);
    assert SegmentFrom(b) == Segment(b, false, true);
    ClassesDisjoint(' ');
    assert SegmentFrom([' ']) == Segment([' '], true, false);
  }

  lemma TwoWordRuns(a: String, b: String)
    requires a != [] && b != []
    ensures SpaceTokens([Segment(a, false, true), Segment([' '], true, false), Segment(b, false, true)]) == [a, b]
  {
    var first, space, second := Segment(a, false, true), Segment([' '], true, false), Segment(b, false, true);
    var runs := [[first], [second]];
    assert JoinRuns(runs, space) == [first, space, second];
    OneText(first);
    OneText(second);
    SeparatedRuns(runs, space);
  }

  lemma EnglishTag(tag: Option<String>, deviceLanguage: String)
    requires tag == Some("en")
    ensures ResolveLanguage(tag, deviceLanguage) == "en"
  {
    assert Trim("en") == "en";
    LanguageOfSmallLetters("en");
  }
}
