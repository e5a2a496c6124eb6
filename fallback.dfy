/** Naive hyphenation (FallbackHyphenator.kt): the letters and digits of a
    word are cut into chunks of a fixed number of characters, and the
    punctuation around them stays on the first and the last chunk. The
    affix split and the chunking are shared with the pattern hyphenator. */
module Fallback {
  import opened Text

  /** Where the forward scan of `splitAffixes` stops: the first letter or
      digit at or after `i`, or the end of the text. */
  function ScanForward(s: String, i: nat): (r: nat)
    requires i <= |s|
    ensures i <= r <= |s|
    ensures forall k :: i <= k < r ==> !IsLetterOrDigit(s[k])
    ensures r < |s| ==> IsLetterOrDigit(s[r])
    decreases |s| - i
  {
    if i == |s| || IsLetterOrDigit(s[i]) then i else ScanForward(s, i + 1)
  }

  /** Where the backward scan stops: just after the last letter or digit
      before `j`, or 0. */
  function ScanBackward(s: String, j: nat): (r: nat)
    requires j <= |s|
    ensures r <= j
    ensures forall k :: r <= k < j ==> !IsLetterOrDigit(s[k])
    ensures r > 0 ==> IsLetterOrDigit(s[r - 1])
  {
    if j == 0 || IsLetterOrDigit(s[j - 1]) then j else ScanBackward(s, j - 1)
  }

  datatype Affixed = Affixed(prefix: String, core: String, suffix: String)

  /** The split of `splitAffixes`: the core runs from the first to the last
      letter or digit; a text without any has three empty parts. */
  function Affixes(text: String): Affixed {
    var a := ScanForward(text, 0);
    var b := ScanBackward(text, |text|);
    if b <= a then Affixed([], [], []) else Affixed(text[..a], text[a..b], text[b..])
  }

  /** The core is empty exactly when the text has no letter or digit, and
      then so are the affixes; otherwise the three parts rebuild the text,
      the core starts and ends with a letter or digit and the affixes hold
      none. */
  lemma AffixesFacts(text: String)
    ensures Affixes(text).core == [] <==> !HasLetterOrDigit(text)
    ensures Affixes(text).core == [] ==> Affixes(text) == Affixed([], [], [])
    ensures Affixes(text).core != [] ==> Affixes(text).prefix + Affixes(text).core + Affixes(text).suffix == text
    ensures Affixes(text).core != [] ==>
      IsLetterOrDigit(Affixes(text).core[0]) && IsLetterOrDigit(Affixes(text).core[|Affixes(text).core| - 1])
    ensures forall i :: 0 <= i < |Affixes(text).prefix| ==> !IsLetterOrDigit(Affixes(text).prefix[i])
    ensures forall i :: 0 <= i < |Affixes(text).suffix| ==> !IsLetterOrDigit(Affixes(text).suffix[i])
  {
    var a := ScanForward(text, 0);
    var b := ScanBackward(text, |text|);
    if a == |text| {
      assert !HasLetterOrDigit(text);
    } else {
      assert IsLetterOrDigit(text[a]);
      AffixesSome(text, a, b);
    }
  }

  lemma AffixesSome(text: String, a: nat, b: nat)
    requires a == ScanForward(text, 0) < |text| && b == ScanBackward(text, |text|)
    ensures a < b && Affixes(text) == Affixed(text[..a], text[a..b], text[b..])
    ensures HasLetterOrDigit(text)
    ensures text[..a] + text[a..b] + text[b..] == text
    ensures IsLetterOrDigit(text[a..b][0]) && IsLetterOrDigit(text[a..b][b - a - 1])
    ensures forall i :: 0 <= i < |text[b..]| ==> !IsLetterOrDigit(text[b..][i])
  {
    ScanOrder(text, a, b);
    CoreEnds(text, a, b);
    SplitThree(text, a, b);
    SuffixNoAlnum(text, b);
  }

  /** The last letter or digit is not before the first one. */
  lemma ScanOrder(text: String, a: nat, b: nat)
    requires a == ScanForward(text, 0) < |text| && b == ScanBackward(text, |text|)
    ensures a < b && HasLetterOrDigit(text)
  {
    var c := text[a];
    assert IsLetterOrDigit(c);
  }

  lemma CoreEnds(text: String, a: nat, b: nat)
    requires a == ScanForward(text, 0) < b == ScanBackward(text, |text|)
    ensures IsLetterOrDigit(text[a..b][0]) && IsLetterOrDigit(text[a..b][b - a - 1])
  {
    assert text[a..b][0] == text[a];
    assert text[a..b][b - a - 1] == text[b - 1];
  }

  lemma SuffixNoAlnum(text: String, b: nat)
    requires b <= |text|
    requires forall k :: b <= k < |text| ==> !IsLetterOrDigit(text[k])
    ensures forall i :: 0 <= i < |text[b..]| ==> !IsLetterOrDigit(text[b..][i])
  {
    forall i | 0 <= i < |text[b..]| ensures !IsLetterOrDigit(text[b..][i]) {
      assert text[b..][i] == text[b + i];
    }
  }

  /** `splitAffixes`: one scan forward for the first letter or digit and one
      scan back for the last. */
  method SplitAffixes(text: String) returns (prefix: String, core: String, suffix: String)
    ensures Affixed(prefix, core, suffix) == Affixes(text)
  {
    var start := 0;
    while start < |text| && !IsLetterOrDigit(text[start])
      invariant 0 <= start <= |text|
      invariant forall i :: 0 <= i < start ==> !IsLetterOrDigit(text[i])
    {
      start := start + 1;
    }
    var end := |text| - 1;
    while end >= start && !IsLetterOrDigit(text[end])
      invariant start - 1 <= end <= |text| - 1
      invariant forall i :: end < i < |text| ==> !IsLetterOrDigit(text[i])
    {
      end := end - 1;
    }
    if start > end {
      return [], [], [];
    }
    assert start == ScanForward(text, 0) by {
      assert IsLetterOrDigit(text[start]);
    }
    assert end + 1 == ScanBackward(text, |text|) by {
      assert IsLetterOrDigit(text[end]);
    }
    prefix := text[..start];
    core := text[start..end + 1];
    suffix := text[end + 1..];
  }

  /** The pieces of `splitByCodePoints`: `max` characters each, the last
      one what remains. */
  function Chunks(text: String, max: nat): (r: seq<String>)
    requires max > 0
    decreases |text|
  {
    if text == [] then []
    else if |text| <= max then [text]
    else [text[..max]] + Chunks(text[max..], max)
  }

  /** One step of `splitByCodePoints`: the first chunk is `min(max, |text|)`
      characters long. */
  lemma ChunksCons(text: String, max: nat)
    requires max > 0 && text != []
    ensures var step := if max < |text| then max else |text|;
      Chunks(text, max) == [text[..step]] + Chunks(text[step..], max)
  {
    if |text| <= max {
      assert text[..|text|] == text;
      assert text[|text|..] == [];
    }
  }

  /** `splitByCodePoints`: steps of `min(max, remaining)` characters. */
  method SplitByCodePoints(text: String, max: nat) returns (chunks: seq<String>)
    requires max > 0
    ensures chunks == Chunks(text, max)
  {
    if text == [] {
      return [];
    }
    chunks := [];
    var index := 0;
    while index < |text|
      invariant 0 <= index <= |text|
      invariant chunks + Chunks(text[index..], max) == Chunks(text, max)
    {
      var remaining := |text| - index;
      var step := if max < remaining then max else remaining;
      var next := index + step;
      ChunksCons(text[index..], max);
      assert text[index..][step..] == text[next..];
      assert text[index..][..step] == text[index..next];
      assert chunks + Chunks(text[index..], max) == (chunks + [text[index..next]]) + Chunks(text[next..], max);
      chunks := chunks + [text[index..next]];
      index := next;
    }
    assert text[|text|..] == [];
    assert chunks + [] == chunks;
  }

  /** The chunks concatenate to the text. */
  lemma {:induction false} ChunksConcat(text: String, max: nat)
    requires max > 0
    ensures Concat(Chunks(text, max)) == text
    decreases |text|
  {
    if |text| > max {
      ChunksConcat(text[max..], max);
      assert Chunks(text, max)[1..] == Chunks(text[max..], max);
      assert text[..max] + text[max..] == text;
    } else if text != [] {
      assert Concat([text]) == text + Concat([]);
    }
  }

  /** There are as many chunks as `max` goes into the length, rounded up:
      one chunk fewer would hold less than the text, and these hold it all. */
  lemma {:induction false} ChunksCount(text: String, max: nat)
    requires max > 0
    ensures text == [] ==> Chunks(text, max) == []
    ensures text != [] ==> (|Chunks(text, max)| - 1) * max < |text| <= |Chunks(text, max)| * max
    decreases |text|
  {
    if |text| > max {
      var rest := text[max..];
      ChunksCount(rest, max);
      var c := |Chunks(rest, max)|;
      assert |Chunks(text, max)| == c + 1;
      assert (c + 1) * max == c * max + max;
    }
  }

  /** Every chunk but the last holds exactly `max` characters, the last one
      between 1 and `max`. */
  lemma {:induction false} ChunksSizes(text: String, max: nat)
    requires max > 0
    ensures forall k :: 0 <= k < |Chunks(text, max)| - 1 ==> |Chunks(text, max)[k]| == max
    ensures forall k :: 0 <= k < |Chunks(text, max)| ==> 1 <= |Chunks(text, max)[k]| <= max
    ensures text != [] <==> Chunks(text, max) != []
    decreases |text|
  {
    if |text| > max {
      var rest := text[max..];
      ChunksSizes(rest, max);
      var cs := Chunks(text, max);
      assert cs[1..] == Chunks(rest, max);
      assert forall k :: 1 <= k < |cs| ==> cs[k] == Chunks(rest, max)[k - 1];
    }
  }

  /** The pieces with the prefix glued to the first and the suffix to the last. */
  function Attached(prefix: String, pieces: seq<String>, suffix: String): (r: seq<String>)
    ensures |r| == |pieces|
  {
    seq(|pieces|, i requires 0 <= i < |pieces| =>
      (if i == 0 then prefix + pieces[i] else pieces[i]) + (if i == |pieces| - 1 then suffix else []))
  }

  /** The loop that builds the result of `split` from the chunks. */
  method AttachAffixes(prefix: String, pieces: seq<String>, suffix: String) returns (result: seq<String>)
    ensures result == Attached(prefix, pieces, suffix)
  {
    result := [];
    for i := 0 to |pieces|
      invariant result == Attached(prefix, pieces, suffix)[..i]
    {
      var withPrefix := if i == 0 then prefix + pieces[i] else pieces[i];
      var withSuffix := if i == |pieces| - 1 then withPrefix + suffix else withPrefix;
      assert Attached(prefix, pieces, suffix)[i] == withSuffix;
      assert Attached(prefix, pieces, suffix)[..i + 1] == Attached(prefix, pieces, suffix)[..i] + [withSuffix];
      result := result + [withSuffix];
    }
    assert Attached(prefix, pieces, suffix)[..|pieces|] == Attached(prefix, pieces, suffix);
  }

  /** Gluing the affixes on keeps the concatenation: the prefix ends up in
      front of it and the suffix behind it. */
  lemma AttachedConcat(prefix: String, pieces: seq<String>, suffix: String)
    requires pieces != []
    ensures Concat(Attached(prefix, pieces, suffix)) == prefix + Concat(pieces) + suffix
  {
    var n := |pieces|;
    if n == 1 {
      assert Attached(prefix, pieces, suffix) == [prefix + pieces[0] + suffix];
      assert Concat([prefix + pieces[0] + suffix]) == prefix + pieces[0] + suffix + Concat([]);
      assert Concat(pieces) == pieces[0] + Concat(pieces[1..]);
    } else {
      var first, middle, last := pieces[0], pieces[1..n - 1], pieces[n - 1];
      AttachedSplit(prefix, pieces, suffix);
      assert pieces == [first] + middle + [last];
      ConcatMiddle(prefix + first, middle, last + suffix);
      ConcatMiddle(first, middle, last);
      var m := Concat(middle);
      assert (prefix + first) + m + (last + suffix) == prefix + (first + m + last) + suffix;
    }
  }

  lemma AttachedSplit(prefix: String, pieces: seq<String>, suffix: String)
    requires |pieces| >= 2
    ensures Attached(prefix, pieces, suffix) ==
      [prefix + pieces[0]] + pieces[1..|pieces| - 1] + [pieces[|pieces| - 1] + suffix]
  {
    var n := |pieces|;
    var r := Attached(prefix, pieces, suffix);
    var t := [prefix + pieces[0]] + pieces[1..n - 1] + [pieces[n - 1] + suffix];
    assert r[0] == prefix + pieces[0] + [];
    assert forall k :: 0 < k < n - 1 ==> r[k] == pieces[k] + [];
    assert r[n - 1] == pieces[n - 1] + suffix;
    assert forall k :: 0 < k < n - 1 ==> t[k] == pieces[k];
    assert |t| == n && t[0] == prefix + pieces[0] && t[n - 1] == pieces[n - 1] + suffix;
    assert forall k :: 0 <= k < n ==> r[k] == t[k];
    assert r == t;
  }

  /** The first piece gets the prefix, the last the suffix, the others stay. */
  lemma AttachedPieces(prefix: String, pieces: seq<String>, suffix: String)
    requires pieces != []
    ensures var r := Attached(prefix, pieces, suffix);
      r[0] == prefix + pieces[0] + (if |pieces| == 1 then suffix else []) &&
      r[|r| - 1] == (if |pieces| == 1 then prefix else []) + pieces[|pieces| - 1] + suffix &&
      forall k :: 0 < k < |r| - 1 ==> r[k] == pieces[k]
  {
  }

  lemma ConcatMiddle(first: String, middle: seq<String>, last: String)
    ensures Concat([first] + middle + [last]) == first + Concat(middle) + last
  {
    ConcatSnoc([first] + middle, last);
    assert ([first] + middle)[1..] == middle;
  }

  /** What `FallbackHyphenator.split` returns; the language tag plays no part. */
  function FallbackSplit(word: String, max: int): seq<String> {
    if max <= 0 || word == [] then [word]
    else
      var a := Affixes(word);
      if a.core == [] then [word]
      else
        var chunks := Chunks(a.core, max);
        if chunks == [] then [word] else Attached(a.prefix, chunks, a.suffix)
  }

  /** `FallbackHyphenator.split`. */
  method Split(word: String, languageTag: Option<String>, max: int) returns (pieces: seq<String>)
    ensures pieces == FallbackSplit(word, max)
  {
    if max <= 0 {
      return [word];
    }
    if word == [] {
      return [word];
    }
    var prefix, core, suffix := SplitAffixes(word);
    if core == [] {
      return [word];
    }
    var chunks := SplitByCodePoints(core, max);
    if chunks == [] {
      return [word];
    }
    pieces := AttachAffixes(prefix, chunks, suffix);
  }

  /** Guards: no positive length, an empty word or a word without letters and
      digits all give the word itself. */
  lemma FallbackGuards(word: String, max: int)
    requires max <= 0 || word == [] || !HasLetterOrDigit(word)
    ensures FallbackSplit(word, max) == [word]
  {
  }

  /** Otherwise the result is the chunked core with the affixes glued on. */
  lemma FallbackChunked(word: String, max: int)
    requires max > 0 && HasLetterOrDigit(word)
    ensures Chunks(Affixes(word).core, max) != []
    ensures FallbackSplit(word, max) == Attached(Affixes(word).prefix, Chunks(Affixes(word).core, max), Affixes(word).suffix)
  {
    AffixesFacts(word);
    ChunksSizes(Affixes(word).core, max);
  }

  /** The pieces concatenate to the word. */
  lemma FallbackConcat(word: String, max: int)
    ensures Concat(FallbackSplit(word, max)) == word
  {
    if max <= 0 || word == [] || !HasLetterOrDigit(word) {
      assert Concat([word]) == word + Concat([]);
    } else {
      var a := Affixes(word);
      var chunks := Chunks(a.core, max);
      FallbackChunked(word, max);
      AffixesFacts(word);
      ChunksConcat(a.core, max);
      AttachedConcat(a.prefix, chunks, a.suffix);
    }
  }

  /** A non-empty word gives no empty piece. */
  lemma FallbackNonEmpty(word: String, max: int)
    requires word != []
    ensures forall k :: 0 <= k < |FallbackSplit(word, max)| ==> FallbackSplit(word, max)[k] != []
  {
    if max > 0 && HasLetterOrDigit(word) {
      var a := Affixes(word);
      var chunks := Chunks(a.core, max);
      FallbackChunked(word, max);
      ChunksSizes(a.core, max);
      var r := Attached(a.prefix, chunks, a.suffix);
      forall k | 0 <= k < |r| ensures r[k] != [] {
        assert chunks[k] != [];
        assert |r[k]| >= |chunks[k]|;
      }
    }
  }

  /** A word whose core fits in `max` characters comes back whole; a longer
      core gives as many pieces as `max` goes into its length, rounded up. */
  lemma FallbackCount(word: String, max: int)
    requires max > 0 && HasLetterOrDigit(word)
    ensures (|FallbackSplit(word, max)| - 1) * max < |Affixes(word).core| <= |FallbackSplit(word, max)| * max
    ensures |Affixes(word).core| <= max ==> FallbackSplit(word, max) == [word]
  {
    var a := Affixes(word);
    var chunks := Chunks(a.core, max);
    FallbackChunked(word, max);
    assert |FallbackSplit(word, max)| == |chunks|;
    ChunksCount(a.core, max);
    if |a.core| <= max {
      AffixesFacts(word);
      assert chunks == [a.core];
      AttachedSingle(a.prefix, a.core, a.suffix);
    }
  }

  /** A single chunk comes back with both affixes attached. */
  lemma AttachedSingle(prefix: String, piece: String, suffix: String)
    ensures Attached(prefix, [piece], suffix) == [prefix + piece + suffix]
  {
  }

  /** The first piece carries the prefix, the last the suffix, and every piece
      in between is exactly `max` characters of the core. */
  lemma FallbackPieces(word: String, max: int)
    requires max > 0 && HasLetterOrDigit(word)
    ensures var a := Affixes(word);
      var chunks := Chunks(a.core, max);
      var pieces := FallbackSplit(word, max);
      |pieces| == |chunks| &&
      pieces[0] == a.prefix + chunks[0] + (if |chunks| == 1 then a.suffix else []) &&
      pieces[|pieces| - 1] == (if |chunks| == 1 then a.prefix else []) + chunks[|chunks| - 1] + a.suffix &&
      forall k :: 0 < k < |pieces| - 1 ==> pieces[k] == chunks[k] && |pieces[k]| == max
  {
    var a := Affixes(word);
    var chunks := Chunks(a.core, max);
    FallbackChunked(word, max);
    ChunksSizes(a.core, max);
    AttachedPieces(a.prefix, chunks, a.suffix);
  }
}
