/** Timing flags of a token (TokenClassifier.kt), derived from the word
    segments of its text. */
module Classifier {
  import opened Text
  import opened Locales
  import opened Segments

  datatype Token = Token(
    text: String,
    isSentenceEnd: bool,
    isOtherPunctuation: bool,
    isNumeric: bool,
    isShortWord: bool,
    isLongWord: bool)

  /** `segments.filter { it.isWordLike }`. */
  function WordLikeSegments(segs: seq<Segment>): (r: seq<Segment>)
    ensures forall k :: 0 <= k < |r| ==> r[k].isWordLike && r[k] in segs
    ensures forall k :: 0 <= k < |segs| && segs[k].isWordLike ==> segs[k] in r
  {
    if segs == [] then []
    else (if segs[0].isWordLike then [segs[0]] else []) + WordLikeSegments(segs[1..])
  }

  /** `segments.filter { !it.isWordLike && !it.isWhitespace }`. */
  function NonWordSegments(segs: seq<Segment>): (r: seq<Segment>)
    ensures r == [] <==> forall k :: 0 <= k < |segs| ==> segs[k].isWordLike || segs[k].isWhitespace
  {
    if segs == [] then []
    else (if !segs[0].isWordLike && !segs[0].isWhitespace then [segs[0]] else []) + NonWordSegments(segs[1..])
  }

  /** `sumOf { it.text.length }`. */
  function TotalLength(segs: seq<Segment>): (n: nat)
    ensures n == |Concat(Texts(segs))|
  {
    if segs == [] then 0 else |segs[0].text| + TotalLength(segs[1..])
  }

  /** The word length of a segment list: the characters of its word-like segments. */
  function SegmentsWordLength(segs: seq<Segment>): nat {
    TotalLength(WordLikeSegments(segs))
  }

  predicate ContainsSentenceEnd(s: String) {
    exists i :: 0 <= i < |s| && IsSentenceEndChar(s[i])
  }

  predicate AllDigits(s: String) {
    forall i :: 0 <= i < |s| ==> IsDigit(s[i])
  }

  predicate AllSegmentsDigits(segs: seq<Segment>) {
    forall k :: 0 <= k < |segs| ==> AllDigits(segs[k].text)
  }

  /** `classify` once the segments of the text are known. */
  function ClassifySegments(text: String, segs: seq<Segment>): (t: Token)
    ensures t.text == text
    ensures t.isSentenceEnd <==> segs != [] && ContainsSentenceEnd(segs[|segs| - 1].text)
    ensures t.isOtherPunctuation <==>
      (exists k :: 0 <= k < |segs| && !segs[k].isWordLike && !segs[k].isWhitespace) && !t.isSentenceEnd
    ensures t.isNumeric <==>
      (exists k :: 0 <= k < |segs| && segs[k].isWordLike) &&
      (forall k :: 0 <= k < |segs| && segs[k].isWordLike ==> AllDigits(segs[k].text))
    ensures t.isShortWord <==> SegmentsWordLength(segs) < SHORT_WORD_THRESHOLD
    ensures t.isLongWord <==> SegmentsWordLength(segs) >= LONG_WORD_THRESHOLD
  {
    var wordLike := WordLikeSegments(segs);
    var wordLength := TotalLength(wordLike);
    var lastSegment := if segs == [] then [] else segs[|segs| - 1].text;
    var endsSentence := ContainsSentenceEnd(lastSegment);
    var hasOtherPunc := NonWordSegments(segs) != [] && !endsSentence;
    var isNumeric := wordLike != [] && AllSegmentsDigits(wordLike);
    assert segs != [] ==> segs[0] in segs;
    Token(text, endsSentence, hasOtherPunc, isNumeric,
          wordLength < SHORT_WORD_THRESHOLD, wordLength >= LONG_WORD_THRESHOLD)
  }

  /** `classify(text, languageTag)`. */
  function Classify(env: TextEnv, text: String, tag: Option<String>): Token {
    ClassifySegments(text, SegmentsForTag(env, tag, text))
  }

  /** `wordLength(text, languageTag)`. */
  function WordLength(env: TextEnv, text: String, tag: Option<String>): nat {
    SegmentsWordLength(SegmentsForTag(env, tag, text))
  }

  /** `classify` and `wordLength` agree on the length thresholds, and the token
      keeps its text. */
  lemma ClassifyAgreesWithWordLength(env: TextEnv, text: String, tag: Option<String>)
    ensures Classify(env, text, tag).text == text
    ensures Classify(env, text, tag).isShortWord <==> WordLength(env, text, tag) < 5
    ensures Classify(env, text, tag).isLongWord <==> WordLength(env, text, tag) >= 9
  {
  }

  /** The flags that cannot hold together: a word is not both short and long,
      and sentence-ending punctuation is never also "other" punctuation. */
  lemma ExclusiveFlags(text: String, segs: seq<Segment>)
    ensures !(ClassifySegments(text, segs).isShortWord && ClassifySegments(text, segs).isLongWord)
    ensures !(ClassifySegments(text, segs).isSentenceEnd && ClassifySegments(text, segs).isOtherPunctuation)
  {
  }

  /** With no segments a token is short and carries no other flag. */
  lemma NoSegmentsToken(text: String)
    ensures ClassifySegments(text, []) == Token(text, false, false, false, true, false)
  {
  }

  /** The empty text is a short token with no other flag, whatever the locale. */
  lemma EmptyTextToken(env: TextEnv, tag: Option<String>)
    ensures Classify(env, [], tag) == Token([], false, false, false, true, false)
  {
    EmptyTextHasNoSegments(env.segmenter, ResolveLanguage(tag, env.deviceLanguage));
  }

  lemma {:induction false} TotalLengthAppend(a: seq<Segment>, b: seq<Segment>)
    ensures TotalLength(a + b) == TotalLength(a) + TotalLength(b)
  {
    if a == [] {
      assert a + b == b;
    } else {
      assert (a + b)[1..] == a[1..] + b;
      TotalLengthAppend(a[1..], b);
    }
  }

  /** Unfolds the word length by the first segment. */
  lemma WordLengthCons(segs: seq<Segment>)
    requires segs != []
    ensures SegmentsWordLength(segs) ==
      (if segs[0].isWordLike then |segs[0].text| else 0) + SegmentsWordLength(segs[1..])
  {
    var head: seq<Segment> := if segs[0].isWordLike then [segs[0]] else [];
    TotalLengthAppend(head, WordLikeSegments(segs[1..]));
  }

  lemma {:induction false} WordLikeLength(segs: seq<Segment>)
    ensures SegmentsWordLength(segs) <= TotalLength(segs)
  {
    if segs != [] {
      WordLengthCons(segs);
      WordLikeLength(segs[1..]);
    }
  }

  /** The word length never exceeds the length of the text. */
  lemma WordLengthBound(env: TextEnv, text: String, tag: Option<String>)
    ensures WordLength(env, text, tag) <= |text|
  {
    var segs := SegmentsForTag(env, tag, text);
    SegmentationFacts(env.segmenter, ResolveLanguage(tag, env.deviceLanguage), text);
    WordLikeLength(segs);
  }

  /** A text whose last character is `.`, `!`, `?` or one of the other
      sentence marks ends a sentence, whatever the segmentation; and a text
      flagged as ending a sentence contains such a mark. */
  lemma SentenceEndByText(env: TextEnv, text: String, tag: Option<String>)
    ensures text != [] && IsSentenceEndChar(text[|text| - 1]) ==> Classify(env, text, tag).isSentenceEnd
    ensures Classify(env, text, tag).isSentenceEnd ==> ContainsSentenceEnd(text)
  {
    var lang := ResolveLanguage(tag, env.deviceLanguage);
    var segs := SegmentsForTag(env, tag, text);
    SegmentationFacts(env.segmenter, lang, text);
    if text != [] {
      LastSegmentEndsText(env.segmenter, lang, text);
      var last := segs[|segs| - 1].text;
      assert last[|last| - 1] == text[|text| - 1];
      if Classify(env, text, tag).isSentenceEnd {
        var i :| 0 <= i < |last| && IsSentenceEndChar(last[i]);
        assert text[|text| - |last| + i] == last[i];
      }
    }
  }

  /** A numeric token has at least one character of word length. */
  lemma NumericHasWordLength(text: String, segs: seq<Segment>)
    requires forall k :: 0 <= k < |segs| ==> segs[k] == SegmentFrom(segs[k].text)
    ensures ClassifySegments(text, segs).isNumeric ==> SegmentsWordLength(segs) >= 1
  {
    if ClassifySegments(text, segs).isNumeric {
      var k :| 0 <= k < |segs| && segs[k].isWordLike;
      assert segs[k].text != [];
      WordLikeNonEmpty(segs, segs[k]);
    }
  }

  lemma {:induction false} WordLikeNonEmpty(segs: seq<Segment>, s: Segment)
    requires s in segs && s.isWordLike && s.text != []
    ensures SegmentsWordLength(segs) >= 1
  {
    WordLengthCons(segs);
    if segs[0] != s {
      WordLikeNonEmpty(segs[1..], s);
    }
  }
}
