/** `PatternHyphenator` (PatternHyphenator.kt): strip the affixes, look up
    the language's pattern set, and cut the core at the rightmost Liang
    break that keeps a segment within the length cap, falling back to fixed
    chunks where no break is in reach. The affix split and the fixed
    chunking are the same code as in FallbackHyphenator.kt and are shared
    with module `Fallback`. */
module PatternHyphenator {
  import opened Text
  import opened Fallback
  import opened Liang
  import opened Repository

  /** `sorted.lastOrNull { it > lo && it <= hi }`: the largest breakpoint in
      `(lo, hi]`, if any. */
  function RightmostIn(bps: seq<int>, lo: int, hi: int): (r: Option<int>)
    ensures r.None? <==> forall k :: 0 <= k < |bps| ==> !(lo < bps[k] <= hi)
    ensures r.Some? ==> lo < r.value <= hi && r.value in bps
    ensures r.Some? ==> forall k :: 0 <= k < |bps| && lo < bps[k] <= hi ==> bps[k] <= r.value
    decreases |bps|
  {
    if bps == [] then None
    else
      var rest := RightmostIn(bps[1..], lo, hi);
      assert forall k :: 1 <= k < |bps| ==> bps[k] == bps[1..][k - 1];
      if lo < bps[0] <= hi && (rest.None? || rest.value < bps[0]) then Some(bps[0]) else rest
  }

  /** Where the segment that starts at `start` ends: the end of the core
      when the rest fits, else the rightmost breakpoint within reach, else
      exactly `max` characters on. */
  function NextCut(core: String, bps: seq<int>, max: nat, start: nat): (end: nat)
    requires max > 0 && start < |core|
    ensures start < end <= |core| && end - start <= max
  {
    if |core| - start <= max then |core|
    else
      match RightmostIn(bps, start, start + max)
      case None => start + max
      case Some(cut) => cut
  }

  /** The segments the loop of `splitWithBreakpoints` emits from `start` on. */
  function BreakSegments(core: String, bps: seq<int>, max: nat, start: nat): seq<String>
    requires max > 0 && start <= |core|
    decreases |core| - start
  {
    if start == |core| then []
    else
      var end := NextCut(core, bps, max, start);
      [core[start..end]] + BreakSegments(core, bps, max, end)
  }

  /** What `splitWithBreakpoints(core, breakpoints, max)` returns. */
  function WithBreakpoints(core: String, bps: seq<int>, max: nat): seq<String>
    requires max > 0
  {
    if bps == [] then Chunks(core, max) else NonEmpty(BreakSegments(core, bps, max, 0))
  }

  /** `splitWithBreakpoints`. */
  method SplitWithBreakpoints(core: String, bps: seq<int>, max: nat) returns (segments: seq<String>)
    requires max > 0
    ensures segments == WithBreakpoints(core, bps, max)
  {
    if bps == [] {
      segments := SplitByCodePoints(core, max);
      return;
    }
    var collected: seq<String> := [];
    var start := 0;
    while start < |core|
      invariant 0 <= start <= |core|
      invariant collected + BreakSegments(core, bps, max, start) == BreakSegments(core, bps, max, 0)
      decreases |core| - start
    {
      var remaining := |core| - start;
      var maxEnd := if remaining <= max then |core| else start + max;
      if maxEnd == |core| {
        BreakSegmentsLast(core, bps, max, start);
        collected := collected + [core[start..]];
        break;
      }
      var segment, next := NextSegment(core, bps, max, start);
      assert BreakSegments(core, bps, max, start) == [segment] + BreakSegments(core, bps, max, next);
      collected := collected + [segment];
      start := next;
    }
    assert collected == BreakSegments(core, bps, max, 0);
    segments := NonEmpty(collected);
  }

  /** A rest that fits is the last segment. */
  lemma BreakSegmentsLast(core: String, bps: seq<int>, max: nat, start: nat)
    requires max > 0 && start < |core| && |core| - start <= max
    ensures BreakSegments(core, bps, max, start) == [core[start..]]
  {
    assert NextCut(core, bps, max, start) == |core|;
    assert core[start..|core|] == core[start..];
    assert BreakSegments(core, bps, max, |core|) == [];
  }

  /** One pass of the loop of `splitWithBreakpoints` when the rest is longer
      than `max`: cut at the rightmost breakpoint within reach, or take the
      first fixed chunk of the rest. */
  method NextSegment(core: String, bps: seq<int>, max: nat, start: nat) returns (segment: String, next: nat)
    requires max > 0 && start < |core| && |core| - start > max
    ensures next == NextCut(core, bps, max, start) && segment == core[start..next]
  {
    var splitAt := RightmostIn(bps, start, start + max);
    if splitAt.None? {
      var fallbackSegments := SplitByCodePoints(core[start..], max);
      ChunksCons(core[start..], max);
      segment := fallbackSegments[0];
      next := start + |segment|;
    } else {
      segment := core[start..splitAt.value];
      next := splitAt.value;
    }
  }

  /** The cut rule: with the rest longer than `max`, the segment ends at a
      breakpoint in `(start, start + max]` with none beyond it in that
      range, or, when that range holds no breakpoint, after exactly `max`
      characters. */
  lemma NextCutFacts(core: String, bps: seq<int>, max: nat, start: nat)
    requires max > 0 && start < |core|
    ensures var end := NextCut(core, bps, max, start);
      (|core| - start <= max ==> end == |core|) &&
      (|core| - start > max ==>
        (end in bps && forall k :: 0 <= k < |bps| && start < bps[k] <= start + max ==> bps[k] <= end) ||
        (end == start + max && forall k :: 0 <= k < |bps| ==> !(start < bps[k] <= start + max)))
  {
  }

  /** The segments concatenate to the rest of the core. */
  lemma {:induction false} BreakSegmentsConcat(core: String, bps: seq<int>, max: nat, start: nat)
    requires max > 0 && start <= |core|
    ensures Concat(BreakSegments(core, bps, max, start)) == core[start..]
    decreases |core| - start
  {
    if start < |core| {
      var next := NextCut(core, bps, max, start);
      var rest := BreakSegments(core, bps, max, next);
      assert BreakSegments(core, bps, max, start) == [core[start..next]] + rest;
      BreakSegmentsConcat(core, bps, max, next);
      assert ([core[start..next]] + rest)[1..] == rest;
      assert core[start..next] + core[next..] == core[start..];
    }
  }

  /** Every segment has between 1 and `max` characters. */
  lemma {:induction false} BreakSegmentsSizes(core: String, bps: seq<int>, max: nat, start: nat)
    requires max > 0 && start <= |core|
    ensures forall k :: 0 <= k < |BreakSegments(core, bps, max, start)| ==>
      1 <= |BreakSegments(core, bps, max, start)[k]| <= max
    ensures start < |core| ==> BreakSegments(core, bps, max, start) != []
    decreases |core| - start
  {
    if start < |core| {
      var next := NextCut(core, bps, max, start);
      var rest := BreakSegments(core, bps, max, next);
      assert BreakSegments(core, bps, max, start) == [core[start..next]] + rest;
      BreakSegmentsSizes(core, bps, max, next);
    }
  }

  /** The segments of a non-empty core are non-empty, at most `max` long and
      concatenate to the core, with or without breakpoints. */
  lemma WithBreakpointsFacts(core: String, bps: seq<int>, max: nat)
    requires max > 0
    ensures Concat(WithBreakpoints(core, bps, max)) == core
    ensures forall k :: 0 <= k < |WithBreakpoints(core, bps, max)| ==> 1 <= |WithBreakpoints(core, bps, max)[k]| <= max
    ensures core != [] <==> WithBreakpoints(core, bps, max) != []
  {
    if bps == [] {
      ChunksConcat(core, max);
      ChunksSizes(core, max);
    } else {
      var segs := BreakSegments(core, bps, max, 0);
      BreakSegmentsConcat(core, bps, max, 0);
      BreakSegmentsSizes(core, bps, max, 0);
      NonEmptyConcat(segs);
      NonEmptyKeeps(segs);
      assert core[0..] == core;
    }
  }

  /** Dropping empty strings from a list without any changes nothing. */
  lemma {:induction false} NonEmptyKeeps(parts: seq<String>)
    requires forall k :: 0 <= k < |parts| ==> parts[k] != []
    ensures NonEmpty(parts) == parts
  {
    if parts != [] {
      NonEmptyKeeps(parts[1..]);
    }
  }

  /** What `PatternHyphenator.split(word, tag, max)` returns when loading
      the tag's patterns yields `data`. */
  function PatternSplit(word: String, data: Option<PatternData>, max: int): seq<String> {
    if max <= 0 || word == [] then [word]
    else
      var a := Affixes(word);
      if a.core == [] then [word]
      else if data.None? then FallbackSplit(word, max)
      else if |a.core| <= max then [word]
      else
        var segments := WithBreakpoints(a.core, Points(data.value, a.core), max);
        if segments == [] then FallbackSplit(word, max) else Attached(a.prefix, segments, a.suffix)
  }

  /** `PatternHyphenator.split`. The patterns are only loaded once the
      guards have passed, so the cache is left alone by a word that the
      guards answer. */
  method Split(repo: PatternRepository, word: String, languageTag: Option<String>, max: int) returns (pieces: seq<String>)
    requires repo.Valid()
    modifies repo
    ensures repo.Valid()
    ensures pieces == PatternSplit(word, LoadTag(repo.resources, languageTag), max)
    ensures max <= 0 || word == [] || !HasLetterOrDigit(word) ==> repo.cache == old(repo.cache)
  {
    if max <= 0 {
      return [word];
    }
    if word == [] {
      return [word];
    }
    var prefix, core, suffix := SplitAffixes(word);
    AffixesFacts(word);
    if core == [] {
      return [word];
    }
    var patternSet := repo.Load(languageTag);
    if patternSet.None? {
      pieces := Fallback.Split(word, languageTag, max);
      return;
    }
    if |core| <= max {
      return [word];
    }
    var breakpoints := HyphenationPoints(patternSet.value, core, languageTag);
    var segments := SplitWithBreakpoints(core, breakpoints, max);
    if segments == [] {
      pieces := Fallback.Split(word, languageTag, max);
      return;
    }
    pieces := AttachAffixes(prefix, segments, suffix);
  }

  /** No positive cap, an empty word or a word without letters and digits
      give the word itself, whatever the patterns. */
  lemma PatternGuards(word: String, data: Option<PatternData>, max: int)
    requires max <= 0 || word == [] || !HasLetterOrDigit(word)
    ensures PatternSplit(word, data, max) == [word]
  {
    AffixesFacts(word);
  }

  /** Without a pattern set the result is exactly the fallback's. */
  lemma PatternWithoutData(word: String, max: int)
    ensures PatternSplit(word, None, max) == FallbackSplit(word, max)
  {
  }

  /** With a pattern set, a word whose core fits comes back whole. */
  lemma PatternFits(word: String, data: PatternData, max: int)
    requires |Affixes(word).core| <= max
    ensures PatternSplit(word, Some(data), max) == [word]
  {
  }

  /** With a pattern set and a core too long for the cap, the core is cut by
      the breakpoints and the affixes go on the first and last segment. */
  lemma PatternCut(word: String, data: PatternData, max: int)
    requires max > 0 && |Affixes(word).core| > max
    ensures var a := Affixes(word);
      PatternSplit(word, Some(data), max) == Attached(a.prefix, WithBreakpoints(a.core, Points(data, a.core), max), a.suffix)
  {
    var a := Affixes(word);
    AffixesFacts(word);
    assert word != [];
    var segments := WithBreakpoints(a.core, Points(data, a.core), max);
    WithBreakpointsFacts(a.core, Points(data, a.core), max);
    assert segments != [];
  }

  /** Whatever the patterns, the pieces concatenate to the word. */
  lemma PatternConcat(word: String, data: Option<PatternData>, max: int)
    ensures Concat(PatternSplit(word, data, max)) == word
  {
    var a := Affixes(word);
    if max <= 0 || word == [] || a.core == [] || data.None? || |a.core| <= max {
      FallbackConcat(word, max);
      assert Concat([word]) == word + Concat([]);
    } else {
      var segments := WithBreakpoints(a.core, Points(data.value, a.core), max);
      AffixesFacts(word);
      WithBreakpointsFacts(a.core, Points(data.value, a.core), max);
      AttachedConcat(a.prefix, segments, a.suffix);
    }
  }

  /** Where the core is cut by patterns, every piece between the first and
      the last is a segment of the core of 1 to `max` characters. */
  lemma PatternInnerPieces(word: String, data: PatternData, max: int)
    requires max > 0 && |Affixes(word).core| > max
    ensures var a := Affixes(word);
      var segments := WithBreakpoints(a.core, Points(data, a.core), max);
      var pieces := PatternSplit(word, Some(data), max);
      |pieces| == |segments| && pieces != [] &&
      pieces[0] == a.prefix + segments[0] + (if |segments| == 1 then a.suffix else []) &&
      pieces[|pieces| - 1] == (if |segments| == 1 then a.prefix else []) + segments[|segments| - 1] + a.suffix &&
      forall k :: 0 < k < |pieces| - 1 ==> pieces[k] == segments[k] && 1 <= |pieces[k]| <= max
  {
    var a := Affixes(word);
    var segments := WithBreakpoints(a.core, Points(data, a.core), max);
    PatternCut(word, data, max);
    WithBreakpointsFacts(a.core, Points(data, a.core), max);
    AttachedPieces(a.prefix, segments, a.suffix);
  }
}
