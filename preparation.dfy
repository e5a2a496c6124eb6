/** Splitting of over-long tokens (TokenPreparation.kt): a token whose word
    length exceeds the cap is cut at literal hyphens first, and whatever is
    still too long goes to the hyphenator, whose non-final pieces get a
    trailing `-`. */
module Preparation {
  import opened Text
  import opened Segments
  import opened Classifier

  /** `Hyphenator.split(word, languageTag, maxLength)`. */
  type Hyphenator = (String, Option<String>, int) -> seq<String>

  /** `HYPHEN_CHARS`: hyphen-minus, hyphen, non-breaking hyphen, figure
      dash, en dash and minus sign. */
  const HYPHEN_CHARS: set<char> := {'-', '\U{2010}', '\U{2011}', '\U{2012}', '\U{2013}', '\U{2212}'}

  /** No hyphen character is a letter or a digit. */
  lemma HyphensAreNotAlnum(c: char)
    ensures c in HYPHEN_CHARS ==> !IsLetterOrDigit(c)
  {
    if c in HYPHEN_CHARS {
      NotLetter(c);
    }
  }

  predicate HasHyphen(text: String) {
    exists i :: 0 <= i < |text| && text[i] in HYPHEN_CHARS
  }

  // ---------------------------------------------------------------------
  // nextWordRunLength

  /** The length of the run of letters and digits that starts at `start`:
      0 past the end or at a character that is neither. */
  function RunLength(text: String, start: nat): (n: nat)
    ensures n > 0 ==> start + n <= |text|
    ensures forall k :: start <= k < start + n ==> k < |text| && IsLetterOrDigit(text[k])
    ensures start + n < |text| ==> !IsLetterOrDigit(text[start + n])
    decreases |text| - start
  {
    if start >= |text| || !IsLetterOrDigit(text[start]) then 0 else 1 + RunLength(text, start + 1)
  }

  /** `nextWordRunLength`. */
  method NextWordRunLength(text: String, startIndex: nat) returns (n: nat)
    ensures n == RunLength(text, startIndex)
  {
    if startIndex >= |text| {
      return 0;
    }
    if !IsLetterOrDigit(text[startIndex]) {
      return 0;
    }
    var i := startIndex;
    while i < |text| && IsLetterOrDigit(text[i])
      invariant startIndex <= i <= |text|
      invariant RunLength(text, startIndex) == (i - startIndex) + RunLength(text, i)
    {
      i := i + 1;
    }
    n := i - startIndex;
  }

  /** A run of `n` letters and digits from `start` makes the run there at
      least `n` long. */
  lemma {:induction false} RunLengthAtLeast(text: String, start: nat, n: nat)
    requires start + n <= |text|
    requires forall k :: start <= k < start + n ==> IsLetterOrDigit(text[k])
    ensures RunLength(text, start) >= n
    decreases n
  {
    if n > 0 {
      RunLengthAtLeast(text, start + 1, n - 1);
    }
  }

  // ---------------------------------------------------------------------
  // splitAtHyphenBoundaries

  /** Whether the loop of `splitAtHyphenBoundaries` cuts after the hyphen at
      `i`, having counted `count` letters and digits since the last cut: a
      run of letters or digits follows and would take the count past the cap. */
  predicate CutsAt(text: String, max: int, i: nat, count: nat)
    requires i < |text|
  {
    text[i] in HYPHEN_CHARS && RunLength(text, i + 1) > 0 && count + RunLength(text, i + 1) > max
  }

  /** The pieces the loop emits from position `i` on, with `buffer` holding
      the current piece and `count` its letters and digits; the last piece
      is flushed at the end. */
  function HyphenScan(text: String, max: int, i: nat, buffer: String, count: nat): seq<String>
    requires i <= |text|
    decreases |text| - i
  {
    if i == |text| then (if buffer != [] then [buffer] else [])
    else if CutsAt(text, max, i, count) then [buffer + [text[i]]] + HyphenScan(text, max, i + 1, [], 0)
    else HyphenScan(text, max, i + 1, buffer + [text[i]], if IsLetterOrDigit(text[i]) then count + 1 else count)
  }

  /** What `splitAtHyphenBoundaries(text, max)` returns: nothing without a
      hyphen or when the scan yields a single piece. */
  function HyphenPieces(text: String, max: int): Option<seq<String>> {
    if !HasHyphen(text) then None
    else
      var r := HyphenScan(text, max, 0, [], 0);
      if |r| > 1 then Some(r) else None
  }

  /** `splitAtHyphenBoundaries`. */
  method SplitAtHyphenBoundaries(text: String, max: int) returns (pieces: Option<seq<String>>)
    ensures pieces == HyphenPieces(text, max)
  {
    if !HasHyphen(text) {
      return None;
    }
    var result: seq<String> := [];
    var buffer: String := [];
    var wordCharCount: nat := 0;
    var i := 0;
    while i < |text|
      invariant i <= |text|
      invariant result + HyphenScan(text, max, i, buffer, wordCharCount) == HyphenScan(text, max, 0, [], 0)
    {
      var current := text[i];
      if current in HYPHEN_CHARS {
        var nextWordLen := NextWordRunLength(text, i + 1);
        if nextWordLen > 0 {
          var prospectiveLen := wordCharCount + nextWordLen;
          if prospectiveLen > max {
            buffer := buffer + [current];
            if buffer != [] {
              result := result + [buffer];
            }
            buffer := [];
            wordCharCount := 0;
            i := i + 1;
            continue;
          }
        }
      }
      buffer := buffer + [current];
      if IsLetterOrDigit(current) {
        wordCharCount := wordCharCount + 1;
      }
      i := i + 1;
    }
    assert HyphenScan(text, max, i, buffer, wordCharCount) == (if buffer != [] then [buffer] else []);
    if buffer != [] {
      result := result + [buffer];
    } else {
      assert result + [] == result;
    }
    pieces := if |result| > 1 then Some(result) else None;
  }

  /** The pieces concatenate to the buffer and the rest of the text. */
  lemma {:induction false} HyphenScanConcat(text: String, max: int, i: nat, buffer: String, count: nat)
    requires i <= |text|
    ensures Concat(HyphenScan(text, max, i, buffer, count)) == buffer + text[i..]
    decreases |text| - i
  {
    if i == |text| {
      assert text[i..] == [] && buffer + [] == buffer;
      if buffer != [] {
        assert Concat([buffer]) == buffer + Concat([]);
      }
    } else {
      DropCons(text, i);
      AppendAssoc(buffer, [text[i]], text[i + 1..]);
      if CutsAt(text, max, i, count) {
        var rest := HyphenScan(text, max, i + 1, [], 0);
        HyphenScanConcat(text, max, i + 1, [], 0);
        assert [] + text[i + 1..] == text[i + 1..];
        ConcatCons(buffer + [text[i]], rest);
      } else {
        HyphenScanConcat(text, max, i + 1, buffer + [text[i]], if IsLetterOrDigit(text[i]) then count + 1 else count);
      }
    }
  }

  /** A non-empty buffer starts the first piece. */
  lemma {:induction false} HyphenScanFirst(text: String, max: int, i: nat, buffer: String, count: nat)
    requires i <= |text| && buffer != []
    ensures HyphenScan(text, max, i, buffer, count) != []
    ensures |buffer| <= |HyphenScan(text, max, i, buffer, count)[0]|
    ensures HyphenScan(text, max, i, buffer, count)[0][..|buffer|] == buffer
    decreases |text| - i
  {
    if i < |text| && !CutsAt(text, max, i, count) {
      var b := buffer + [text[i]];
      HyphenScanFirst(text, max, i + 1, b, if IsLetterOrDigit(text[i]) then count + 1 else count);
      assert b[..|buffer|] == buffer;
    }
  }

  /** A run of letters and digits is never cut: it goes whole into the
      current piece. */
  lemma {:induction false} HyphenScanKeepsRun(text: String, max: int, i: nat, buffer: String, count: nat, n: nat)
    requires i + n <= |text| && (n > 0 || buffer != [])
    requires forall k :: i <= k < i + n ==> IsLetterOrDigit(text[k])
    ensures HyphenScan(text, max, i, buffer, count) != []
    ensures |buffer| + n <= |HyphenScan(text, max, i, buffer, count)[0]|
    ensures HyphenScan(text, max, i, buffer, count)[0][..|buffer| + n] == buffer + text[i..i + n]
    decreases n
  {
    if n == 0 {
      HyphenScanFirst(text, max, i, buffer, count);
      assert text[i..i] == [];
      assert buffer + [] == buffer;
    } else {
      HyphensAreNotAlnum(text[i]);
      var b := buffer + [text[i]];
      HyphenScanKeepsRun(text, max, i + 1, b, if IsLetterOrDigit(text[i]) then count + 1 else count, n - 1);
      assert b + text[i + 1..i + n] == buffer + text[i..i + n];
    }
  }

  /** Appending a character adds one to the letter-and-digit count when it
      is a letter or digit. */
  lemma AlnumCountSnoc(s: String, c: char)
    ensures AlnumCount(s + [c]) == AlnumCount(s) + (if IsLetterOrDigit(c) then 1 else 0)
  {
    AlnumCountAppend(s, [c]);
    assert AlnumCount([c]) == (if IsLetterOrDigit(c) then 1 else 0) + AlnumCount([]);
  }

  /** A cut between two pieces as the loop makes it: the first ends with
      the hyphen it was cut at, the second starts with a run of letters or
      digits, and that run would have taken the letters and digits of the
      first past the cap. */
  predicate ProperCut(piece: String, next: String, max: int) {
    piece != [] && piece[|piece| - 1] in HYPHEN_CHARS &&
    RunLength(next, 0) > 0 && AlnumCount(piece) + RunLength(next, 0) > max
  }

  /** Every cut in a list of pieces is a proper one. */
  predicate ProperCuts(r: seq<String>, max: int) {
    forall k :: 0 <= k < |r| - 1 ==> ProperCut(r[k], r[k + 1], max)
  }

  /** Every cut the scan makes is a proper one. */
  lemma {:induction false} HyphenScanCuts(text: String, max: int, i: nat, buffer: String, count: nat)
    requires i <= |text| && count == AlnumCount(buffer)
    ensures ProperCuts(HyphenScan(text, max, i, buffer, count), max)
    decreases |text| - i
  {
    if i == |text| {
    } else if CutsAt(text, max, i, count) {
      var rest := HyphenScan(text, max, i + 1, [], 0);
      HyphenScanCuts(text, max, i + 1, [], 0);
      CutHead(text, max, i, buffer, count);
      var r := [buffer + [text[i]]] + rest;
      assert HyphenScan(text, max, i, buffer, count) == r;
      forall k | 0 <= k < |r| - 1
        ensures ProperCut(r[k], r[k + 1], max)
      {
        if k > 0 {
          assert r[k] == rest[k - 1] && r[k + 1] == rest[k];
        }
      }
    } else {
      var c := if IsLetterOrDigit(text[i]) then count + 1 else count;
      AlnumCountSnoc(buffer, text[i]);
      var r := HyphenScan(text, max, i + 1, buffer + [text[i]], c);
      assert HyphenScan(text, max, i, buffer, count) == r;
      HyphenScanCuts(text, max, i + 1, buffer + [text[i]], c);
    }
  }

  /** The cut at `i` is proper. */
  lemma CutHead(text: String, max: int, i: nat, buffer: String, count: nat)
    requires i < |text| && count == AlnumCount(buffer) && CutsAt(text, max, i, count)
    ensures var rest := HyphenScan(text, max, i + 1, [], 0);
      rest != [] && ProperCut(buffer + [text[i]], rest[0], max)
  {
    var rest := HyphenScan(text, max, i + 1, [], 0);
    var n := RunLength(text, i + 1);
    HyphenScanKeepsRun(text, max, i + 1, [], 0, n);
    assert [] + text[i + 1..i + 1 + n] == text[i + 1..i + 1 + n];
    RunOfCopy(rest[0], text, i + 1, n);
    HyphensAreNotAlnum(text[i]);
    AlnumCountSnoc(buffer, text[i]);
  }

  /** A piece that starts with a copy of a run of letters or digits starts
      with a run at least as long. */
  lemma RunOfCopy(piece: String, text: String, start: nat, n: nat)
    requires start + n <= |text| && n <= |piece|
    requires piece[..n] == text[start..start + n]
    requires forall k :: start <= k < start + n ==> IsLetterOrDigit(text[k])
    ensures RunLength(piece, 0) >= n
  {
    assert forall k :: 0 <= k < n ==> piece[k] == piece[..n][k] == text[start + k];
    RunLengthAtLeast(piece, 0, n);
  }

  /** No piece is empty. */
  lemma {:induction false} HyphenScanNonEmpty(text: String, max: int, i: nat, buffer: String, count: nat)
    requires i <= |text|
    ensures forall k :: 0 <= k < |HyphenScan(text, max, i, buffer, count)| ==> HyphenScan(text, max, i, buffer, count)[k] != []
    decreases |text| - i
  {
    if i == |text| {
    } else if CutsAt(text, max, i, count) {
      HyphenScanNonEmpty(text, max, i + 1, [], 0);
    } else {
      HyphenScanNonEmpty(text, max, i + 1, buffer + [text[i]], if IsLetterOrDigit(text[i]) then count + 1 else count);
    }
  }

  /** `splitAtHyphenBoundaries`: nothing without a hyphen; otherwise, when
      there is more than one piece, the pieces are non-empty, concatenate to
      the text, and each but the last ends at a hyphen after which a run of
      letters or digits would have gone past the cap. */
  lemma HyphenPiecesFacts(text: String, max: int)
    ensures !HasHyphen(text) ==> HyphenPieces(text, max).None?
    ensures HyphenPieces(text, max).Some? ==>
      var r := HyphenPieces(text, max).value;
      |r| > 1 && Concat(r) == text &&
      (forall k :: 0 <= k < |r| ==> r[k] != []) &&
      ProperCuts(r, max)
  {
    HyphenScanConcat(text, max, 0, [], 0);
    HyphenScanNonEmpty(text, max, 0, [], 0);
    HyphenScanCuts(text, max, 0, [], 0);
    assert text[0..] == text;
  }

  // ---------------------------------------------------------------------
  // appendHyphen and splitTokenByHyphenation

  /** `appendHyphen`: a `-` goes after a piece that ends in a letter or a
      digit; any other piece is left as it is. */
  function AppendHyphen(segment: String): (r: String)
    ensures segment != [] && IsLetterOrDigit(segment[|segment| - 1]) ==> r == segment + ['-']
    ensures !(segment != [] && IsLetterOrDigit(segment[|segment| - 1])) ==> r == segment
  {
    if segment == [] then segment
    else
      var last := segment[|segment| - 1];
      if last in HYPHEN_CHARS then
        HyphensAreNotAlnum(last);
        segment
      else if IsLetterOrDigit(last) then segment + ['-']
      else segment
  }

  /** The tokens of the cleaned pieces: every piece but the last goes
      through `appendHyphen`. */
  function HyphenatedTokens(env: TextEnv, cleaned: seq<String>, tag: Option<String>): (r: seq<Token>)
    ensures |r| == |cleaned|
  {
    seq(|cleaned|, i requires 0 <= i < |cleaned| =>
      Classify(env, if i < |cleaned| - 1 then AppendHyphen(cleaned[i]) else cleaned[i], tag))
  }

  /** What `splitTokenByHyphenation(text, …)` returns. */
  function ByHyphenation(env: TextEnv, text: String, tag: Option<String>, max: int, hyphenate: Hyphenator): seq<Token> {
    var segments := hyphenate(text, tag, max);
    if segments == [] then [Classify(env, text, tag)]
    else
      var cleaned := NonEmpty(segments);
      if cleaned == [] then [Classify(env, text, tag)] else HyphenatedTokens(env, cleaned, tag)
  }

  /** When the hyphenator gives only empty pieces, or none, the result is
      the text as one classified token; otherwise there is one token per
      non-empty piece, the non-final ones with a `-` exactly when they end
      in a letter or digit. */
  lemma ByHyphenationFacts(env: TextEnv, text: String, tag: Option<String>, max: int, hyphenate: Hyphenator)
    ensures var cleaned := NonEmpty(hyphenate(text, tag, max));
      var r := ByHyphenation(env, text, tag, max, hyphenate);
      (cleaned == [] ==> r == [Classify(env, text, tag)]) &&
      (cleaned != [] ==>
        |r| == |cleaned| &&
        forall i :: 0 <= i < |r| ==>
          r[i] == Classify(env, r[i].text, tag) &&
          r[i].text == cleaned[i] + (if i < |r| - 1 && IsLetterOrDigit(cleaned[i][|cleaned[i]| - 1]) then ['-'] else []))
  {
    var segments := hyphenate(text, tag, max);
    if segments == [] {
      assert NonEmpty(segments) == [];
    }
  }

  // ---------------------------------------------------------------------
  // splitLongTokens

  /** The tokens for one piece of a hyphen split. */
  function PieceTokens(env: TextEnv, piece: String, tag: Option<String>, max: int, hyphenate: Hyphenator): seq<Token> {
    if WordLength(env, piece, tag) <= max then [Classify(env, piece, tag)]
    else ByHyphenation(env, piece, tag, max, hyphenate)
  }

  /** The tokens for the pieces of a hyphen split, in order. */
  function PiecesTokens(env: TextEnv, pieces: seq<String>, tag: Option<String>, max: int, hyphenate: Hyphenator): seq<Token> {
    FlatMap(piece => PieceTokens(env, piece, tag, max, hyphenate), pieces)
  }

  /** The tokens one input token turns into. */
  function PrepareToken(env: TextEnv, token: Token, tag: Option<String>, max: int, hyphenate: Hyphenator): seq<Token> {
    if WordLength(env, token.text, tag) <= max then [token]
    else
      match HyphenPieces(token.text, max)
      case Some(pieces) => PiecesTokens(env, pieces, tag, max, hyphenate)
      case None => ByHyphenation(env, token.text, tag, max, hyphenate)
  }

  /** The tokens of a list: each input token's outputs, in input order. */
  function PrepareAll(env: TextEnv, tokens: seq<Token>, tag: Option<String>, max: int, hyphenate: Hyphenator): seq<Token> {
    FlatMap(token => PrepareToken(env, token, tag, max, hyphenate), tokens)
  }

  /** What `splitLongTokens(tokens, tag, max, hyphenator)` returns. */
  function SplitLong(env: TextEnv, tokens: seq<Token>, tag: Option<String>, max: int, hyphenate: Hyphenator): seq<Token> {
    if tokens == [] then []
    else if max <= 0 then tokens
    else PrepareAll(env, tokens, tag, max, hyphenate)
  }

  /** `splitLongTokens`. */
  method SplitLongTokens(env: TextEnv, tokens: seq<Token>, tag: Option<String>, max: int, hyphenate: Hyphenator)
    returns (result: seq<Token>)
    ensures result == SplitLong(env, tokens, tag, max, hyphenate)
  {
    if tokens == [] {
      return [];
    }
    if max <= 0 {
      return tokens;
    }
    result := [];
    for t := 0 to |tokens|
      invariant result == PrepareAll(env, tokens[..t], tag, max, hyphenate)
    {
      var token := tokens[t];
      assert tokens[..t + 1][..t] == tokens[..t];
      var wordLength := WordLength(env, token.text, tag);
      if wordLength <= max {
        result := result + [token];
        continue;
      }
      var hyphenSplit := SplitAtHyphenBoundaries(token.text, max);
      if hyphenSplit.Some? {
        var pieceTokens := TokensOfPieces(env, hyphenSplit.value, tag, max, hyphenate);
        result := result + pieceTokens;
        continue;
      }
      result := result + ByHyphenation(env, token.text, tag, max, hyphenate);
    }
    assert tokens[..|tokens|] == tokens;
  }

  /** The `forEach` over the pieces of a hyphen split in `splitLongTokens`. */
  method TokensOfPieces(env: TextEnv, pieces: seq<String>, tag: Option<String>, max: int, hyphenate: Hyphenator)
    returns (result: seq<Token>)
    ensures result == PiecesTokens(env, pieces, tag, max, hyphenate)
  {
    result := [];
    for j := 0 to |pieces|
      invariant result == PiecesTokens(env, pieces[..j], tag, max, hyphenate)
    {
      var segment := pieces[j];
      assert pieces[..j + 1][..j] == pieces[..j];
      if WordLength(env, segment, tag) <= max {
        result := result + [Classify(env, segment, tag)];
      } else {
        result := result + ByHyphenation(env, segment, tag, max, hyphenate);
      }
    }
    assert pieces[..|pieces|] == pieces;
  }

  /** The outputs of a concatenation are the outputs of its parts, one after
      the other: each token's pieces stay together and in order. */
  lemma PrepareAllAppend(env: TextEnv, a: seq<Token>, b: seq<Token>, tag: Option<String>, max: int, hyphenate: Hyphenator)
    ensures PrepareAll(env, a + b, tag, max, hyphenate) == PrepareAll(env, a, tag, max, hyphenate) + PrepareAll(env, b, tag, max, hyphenate)
  {
    FlatMapAppend(token => PrepareToken(env, token, tag, max, hyphenate), a, b);
  }

  /** A token that fits passes through untouched, and a list whose tokens
      all fit comes back unchanged. */
  lemma FittingTokensUnchanged(env: TextEnv, tokens: seq<Token>, tag: Option<String>, max: int, hyphenate: Hyphenator)
    requires forall k :: 0 <= k < |tokens| ==> WordLength(env, tokens[k].text, tag) <= max
    ensures SplitLong(env, tokens, tag, max, hyphenate) == tokens
    ensures PrepareAll(env, tokens, tag, max, hyphenate) == tokens
  {
    FittingPrepared(env, tokens, tag, max, hyphenate);
  }

  lemma {:induction false} FittingPrepared(env: TextEnv, tokens: seq<Token>, tag: Option<String>, max: int, hyphenate: Hyphenator)
    requires forall k :: 0 <= k < |tokens| ==> WordLength(env, tokens[k].text, tag) <= max
    ensures PrepareAll(env, tokens, tag, max, hyphenate) == tokens
    decreases |tokens|
  {
    if tokens != [] {
      var init, last := tokens[..|tokens| - 1], tokens[|tokens| - 1];
      assert forall k :: 0 <= k < |init| ==> init[k] == tokens[k];
      FittingPrepared(env, init, tag, max, hyphenate);
      PrepareFitting(env, last, tag, max, hyphenate);
      PrepareAllSnoc(env, tokens, tag, max, hyphenate);
      SnocLast(tokens);
    }
  }


  lemma PrepareFitting(env: TextEnv, token: Token, tag: Option<String>, max: int, hyphenate: Hyphenator)
    requires WordLength(env, token.text, tag) <= max
    ensures PrepareToken(env, token, tag, max, hyphenate) == [token]
  {
  }

  lemma PrepareAllSnoc(env: TextEnv, tokens: seq<Token>, tag: Option<String>, max: int, hyphenate: Hyphenator)
    requires tokens != []
    ensures PrepareAll(env, tokens, tag, max, hyphenate) ==
      PrepareAll(env, tokens[..|tokens| - 1], tag, max, hyphenate) + PrepareToken(env, tokens[|tokens| - 1], tag, max, hyphenate)
  {
  }

  /** No input gives no output; a cap that is not positive leaves the list
      alone. */
  lemma SplitLongGuards(env: TextEnv, tokens: seq<Token>, tag: Option<String>, max: int, hyphenate: Hyphenator)
    ensures tokens == [] ==> SplitLong(env, tokens, tag, max, hyphenate) == []
    ensures max <= 0 ==> SplitLong(env, tokens, tag, max, hyphenate) == tokens
  {
  }

  /** A token that is too long turns into at least one token, and into the
      tokens of its hyphen pieces, in order, when it has a hyphen split. */
  lemma PrepareLongToken(env: TextEnv, token: Token, tag: Option<String>, max: int, hyphenate: Hyphenator)
    requires WordLength(env, token.text, tag) > max
    ensures PrepareToken(env, token, tag, max, hyphenate) != []
    ensures HyphenPieces(token.text, max).Some? ==>
      PrepareToken(env, token, tag, max, hyphenate) == PiecesTokens(env, HyphenPieces(token.text, max).value, tag, max, hyphenate)
  {
    match HyphenPieces(token.text, max)
    case Some(pieces) =>
      HyphenPiecesFacts(token.text, max);
      PiecesTokensNonEmpty(env, pieces, tag, max, hyphenate);
    case None =>
      ByHyphenationFacts(env, token.text, tag, max, hyphenate);
  }

  lemma PiecesTokensNonEmpty(env: TextEnv, pieces: seq<String>, tag: Option<String>, max: int, hyphenate: Hyphenator)
    requires pieces != []
    ensures PiecesTokens(env, pieces, tag, max, hyphenate) != []
  {
    var last := pieces[|pieces| - 1];
    if WordLength(env, last, tag) > max {
      ByHyphenationFacts(env, last, tag, max, hyphenate);
    }
  }
}
