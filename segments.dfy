/** Word segments of a text (TokenizerUtils.kt). The locale-sensitive word
    boundary analysis of `java.text.BreakIterator` is an input of the model:
    a `Segmenter` maps a locale language and a text to its boundary offsets. */
module Segments {
  import opened Text
  import opened Locales

  datatype Segment = Segment(text: String, isWhitespace: bool, isWordLike: bool)

  /** `Segment.from`: whitespace when every character is whitespace,
      word-like when some character is a letter or digit. */
  function SegmentFrom(text: String): (s: Segment)
    ensures s.text == text
  {
    Segment(text, AllWhitespace(text), HasLetterOrDigit(text))
  }

  /** A segment of at least one character is never both whitespace and word-like. */
  lemma SegmentFlagsExclusive(text: String)
    requires text != []
    ensures !(SegmentFrom(text).isWhitespace && SegmentFrom(text).isWordLike)
  {
    if SegmentFrom(text).isWordLike {
      var i :| 0 <= i < |text| && IsLetterOrDigit(text[i]);
      ClassesDisjoint(text[i]);
    }
  }

  /** The characters of `TRIVIAL_PUNCTUATION_REGEX`: punctuation or symbols,
      which include the CJK brackets and marks the pattern lists by name. */
  predicate IsTrivialPunctuationChar(c: char) {
    IsPunctuationOrSymbol(c) ||
    c in {'\U{3002}', '\U{3001}', '\U{30FB}', '\U{FF1A}', '\U{FF1B}', '\U{FF1F}', '\U{FF01}',
          '\U{300C}', '\U{300D}', '\U{FF08}', '\U{FF09}', '\U{3010}', '\U{3011}', '\U{300E}',
          '\U{300F}', '\U{FF3B}', '\U{FF3D}', '\U{3014}', '\U{3015}', '\U{3008}', '\U{3009}',
          '\U{300A}', '\U{300B}'}
  }

  /** `Segment.isTrivialPunctuation`: neither whitespace nor word-like, and the
      whole text (at least one character) matches the punctuation class. */
  predicate IsTrivialPunctuation(s: Segment) {
    !s.isWhitespace && !s.isWordLike && |s.text| >= 1 &&
    forall i :: 0 <= i < |s.text| ==> IsTrivialPunctuationChar(s.text[i])
  }

  /** For a segment built by `SegmentFrom`, the text alone decides triviality:
      a non-empty run of punctuation characters is neither whitespace nor word-like. */
  lemma TrivialFromPunctuation(text: String)
    requires text != []
    requires forall i :: 0 <= i < |text| ==> IsPunctuationOrSymbol(text[i])
    ensures IsTrivialPunctuation(SegmentFrom(text))
  {
    ClassesDisjoint(text[0]);
    forall i | 0 <= i < |text| ensures !IsLetterOrDigit(text[i]) {
      ClassesDisjoint(text[i]);
    }
  }

  const SHORT_WORD_THRESHOLD: nat := 5
  const LONG_WORD_THRESHOLD: nat := 9

  /** `SENTENCE_END_REGEX`: `. ! ?` and the ideographic, full-width and Arabic marks. */
  predicate IsSentenceEndChar(c: char) {
    c == '.' || c == '!' || c == '?' ||
    c == '\U{3002}' || c == '\U{FF01}' || c == '\U{FF1F}' || c == '\U{061F}'
  }

  /** What `substring` needs of the boundaries: ascending and inside the text. */
  predicate OrderedBoundaries(text: String, b: seq<nat>) {
    |b| >= 1 && (forall i :: 0 <= i < |b| ==> b[i] <= |text|) &&
    forall i, j :: 0 <= i <= j < |b| ==> b[i] <= b[j]
  }

  /** Boundaries as a word `BreakIterator` produces them: from 0 to the end
      of the text, strictly increasing (a text of length 0 has the single
      boundary 0 and no segments). */
  predicate ValidBoundaries(text: String, b: seq<nat>) {
    OrderedBoundaries(text, b) && b[0] == 0 && b[|b| - 1] == |text| &&
    forall i :: 0 < i < |b| ==> b[i - 1] < b[i]
  }

  function WholeText(lang: String, text: String): seq<nat> {
    if text == [] then [0] else [0, |text|]
  }

  type Segmenter = f: (String, String) -> seq<nat> | forall lang, text :: ValidBoundaries(text, f(lang, text))
    witness WholeText

  /** One segment per pair of adjacent boundaries. */
  function SegmentsOf(text: String, b: seq<nat>): (segs: seq<Segment>)
    requires OrderedBoundaries(text, b)
    ensures |segs| == |b| - 1
  {
    seq(|b| - 1, i requires 0 <= i < |b| - 1 => SegmentFrom(text[b[i]..b[i + 1]]))
  }

  /** The segmentation of `text` under the locale language `lang`. */
  function Segmentation(seg: Segmenter, lang: String, text: String): seq<Segment> {
    var b := seg(lang, text);
    assert ValidBoundaries(text, b);
    SegmentsOf(text, b)
  }

  /** What the text services of the device supply: the word boundary
      analysis and the language of `Locale.getDefault()`. */
  datatype TextEnv = TextEnv(segmenter: Segmenter, deviceLanguage: String)

  /** `segmentsFor(text, locale)` with the locale resolved from an optional tag
      as the tokenizer and the classifier resolve it. */
  function SegmentsForTag(env: TextEnv, tag: Option<String>, text: String): seq<Segment> {
    Segmentation(env.segmenter, ResolveLanguage(tag, env.deviceLanguage), text)
  }

  /** The empty text has no segments. */
  lemma EmptyTextHasNoSegments(seg: Segmenter, lang: String)
    ensures Segmentation(seg, lang, []) == []
  {
    assert ValidBoundaries([], seg(lang, []));
  }

  /** A valid segmentation splits the text into non-empty segments that
      concatenate back to it. */
  lemma SegmentationFacts(seg: Segmenter, lang: String, text: String)
    ensures var segs := Segmentation(seg, lang, text);
      Concat(Texts(segs)) == text && forall k :: 0 <= k < |segs| ==> segs[k].text != []
  {
    var b := seg(lang, text);
    assert ValidBoundaries(text, b);
    SegmentsCoverText(text, b);
  }

  /** A non-empty text has a last segment, and the text ends with it. */
  lemma LastSegmentEndsText(seg: Segmenter, lang: String, text: String)
    requires text != []
    ensures var segs := Segmentation(seg, lang, text);
      segs != [] && EndsWith(text, segs[|segs| - 1].text)
  {
    var b := seg(lang, text);
    assert ValidBoundaries(text, b);
    SegmentsCoverText(text, b);
  }

  function Texts(segs: seq<Segment>): (r: seq<String>)
    ensures |r| == |segs|
    ensures forall i :: 0 <= i < |segs| ==> r[i] == segs[i].text
  {
    if segs == [] then [] else [segs[0].text] + Texts(segs[1..])
  }

  /** `segmentsFor`: walks the boundary iterator, one segment per step. */
  method SegmentsFor(text: String, bounds: seq<nat>) returns (segs: seq<Segment>)
    requires OrderedBoundaries(text, bounds)
    ensures segs == SegmentsOf(text, bounds)
    ensures forall i :: 0 <= i < |segs| ==> segs[i].text == text[bounds[i]..bounds[i + 1]]
  {
    segs := [];
    var start := bounds[0];
    var k := 1;
    while k < |bounds|
      invariant 1 <= k <= |bounds|
      invariant start == bounds[k - 1]
      invariant |segs| == k - 1
      invariant forall i :: 0 <= i < k - 1 ==> segs[i] == SegmentFrom(text[bounds[i]..bounds[i + 1]])
    {
      var end := bounds[k];
      segs := segs + [SegmentFrom(text[start..end])];
      start := end;
      k := k + 1;
    }
  }

  /** Under valid boundaries the segments are non-empty and their texts
      concatenate back to the text. */
  lemma SegmentsCoverText(text: String, b: seq<nat>)
    requires ValidBoundaries(text, b)
    ensures Concat(Texts(SegmentsOf(text, b))) == text
    ensures forall i :: 0 <= i < |b| - 1 ==> SegmentsOf(text, b)[i].text != []
    ensures text != [] ==> |b| > 1 && SegmentsOf(text, b)[|b| - 2].text == text[b[|b| - 2]..]
  {
    SegmentsCoverRange(text, b);
    assert text[0..|text|] == text;
    SegmentsNonEmpty(text, b);
    if text != [] {
      LastSegmentText(text, b);
    }
  }

  lemma SegmentsNonEmpty(text: String, b: seq<nat>)
    requires ValidBoundaries(text, b)
    ensures forall i :: 0 <= i < |b| - 1 ==> SegmentsOf(text, b)[i].text != []
  {
    forall i | 0 <= i < |b| - 1
      ensures SegmentsOf(text, b)[i].text != []
    {
      assert b[i] < b[i + 1];
    }
  }

  lemma LastSegmentText(text: String, b: seq<nat>)
    requires ValidBoundaries(text, b) && text != []
    ensures |b| > 1 && SegmentsOf(text, b)[|b| - 2].text == text[b[|b| - 2]..]
  {
    assert b[|b| - 1] == |text|;
  }

  lemma {:induction false} SegmentsCoverRange(text: String, b: seq<nat>)
    requires OrderedBoundaries(text, b)
    ensures Concat(Texts(SegmentsOf(text, b))) == text[b[0]..b[|b| - 1]]
  {
    if |b| > 1 {
      var tail := b[1..];
      SegmentsOfCons(text, b);
      SegmentsCoverRange(text, tail);
      SliceJoin(text, b[0], b[1], b[|b| - 1]);
      assert tail[0] == b[1] && tail[|tail| - 1] == b[|b| - 1];
    }
  }

  lemma SegmentsOfCons(text: String, b: seq<nat>)
    requires OrderedBoundaries(text, b) && |b| > 1
    ensures OrderedBoundaries(text, b[1..])
    ensures Texts(SegmentsOf(text, b)) == [text[b[0]..b[1]]] + Texts(SegmentsOf(text, b[1..]))
  {
    var segs := SegmentsOf(text, b);
    var rest := SegmentsOf(text, b[1..]);
    assert segs[1..] == rest;
  }

  lemma TextsAppend(a: seq<Segment>, b: seq<Segment>)
    ensures Texts(a + b) == Texts(a) + Texts(b)
  {
  }
}
