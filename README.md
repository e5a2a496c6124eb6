# Stutter core in Dafny

Stutter is an RSVP (rapid serial visual presentation) reader for Android. It
takes a pasted text or a fetched page, cuts it into tokens, splits words that
are too long, and flashes the tokens one at a time. Each token stays on
screen for a time that depends on the reading rate and on what kind of token
it is, and one letter of each word is highlighted.

This project models that core and proves properties of the model:

- **Hyphenation.**
  - `fallback.dfy` models the fixed-width chunking of `FallbackHyphenator`.
  - `liang.dfy` and `trie.dfy` model Liang's TeX pattern hyphenation (`PatternTrie`, `hyphenationPoints`).
  - `pattern_hyphenator.dfy` models the cut at the rightmost breakpoint within the length cap (`PatternHyphenator`).
  - `repository.dfy` models the pattern-file parser, the language-to-resource table and the per-language cache.
- **Token preparation.**
  - `segments.dfy` models word segments over the boundaries a word break iterator gives.
  - `classifier.dfy` models the timing flags of a token.
  - `tokenizer.dfy` models the two tokenizer modes: space-delimited, and grouped for scripts without spaces.
  - `preparation.dfy` models the cutting of over-long tokens at hyphens and then by a hyphenator.
  - `pipeline.dfy` composes these stages.
- **Playback.** `scheduler.dfy` models `SchedulerImpl`: per-token delays, the prefix-sum schedule, and the player as a class with an explicit clock reading and a `Tick` step.
- **Settings and small helpers.**
  - `settings.dfy`: clamping and normalising.
  - `appearance.dfy`: colour schemes.
  - `language.dfy`: first valid language tag.
  - `word_layout.dfy`: highlighted-letter layout.
  - `color_hex.dfy`: colour hex parsing and formatting.
  - `url.dfy`: web-address test.
  - `text.dfy`, `locales.dfy` and `ints.dfy` model the Kotlin/Java library behaviour these rely on.

Where the source loops or mutates, the model does too. A method is proved
equal to a specification function, and lemmas state the properties of that
function.

## Model

Source paths are relative to the repository root.

| member | source | states |
|---|---|---|
| Fallback.ScanForward | app/src/main/java/org/tomasino/stutter/hyphenation/FallbackHyphenator.kt:25-28 | the first letter or digit at or after `i`, or the end; nothing before it is a letter or digit |
| Fallback.ScanBackward | app/src/main/java/org/tomasino/stutter/hyphenation/FallbackHyphenator.kt:29-32 | the position just after the last letter or digit before `j`, or 0; nothing after it is a letter or digit |
| Fallback.SplitAffixes | app/src/main/java/org/tomasino/stutter/hyphenation/FallbackHyphenator.kt:24-42 | the two scanning loops yield the affix split that `AffixesFacts` characterises |
| Fallback.AffixesFacts | app/src/main/java/org/tomasino/stutter/hyphenation/FallbackHyphenator.kt:24-42 | the core is empty exactly when the text has no letter or digit, and then all three parts are empty; otherwise prefix + core + suffix is the text, the core starts and ends with a letter or digit, and the affixes hold none |
| Fallback.SplitByCodePoints | app/src/main/java/org/tomasino/stutter/hyphenation/FallbackHyphenator.kt:44-56 | the chunking loop yields the chunks `ChunksConcat`, `ChunksSizes` and `ChunksCount` describe |
| Fallback.ChunksConcat | app/src/main/java/org/tomasino/stutter/hyphenation/FallbackHyphenator.kt:44-56 | the chunks concatenate back to the text |
| Fallback.ChunksSizes | app/src/main/java/org/tomasino/stutter/hyphenation/FallbackHyphenator.kt:44-56 | every chunk but the last has exactly `max` characters; all have 1 to `max`; there are none exactly when the text is empty |
| Fallback.ChunksCount | app/src/main/java/org/tomasino/stutter/hyphenation/FallbackHyphenator.kt:44-56 | the number of chunks is the ceiling of length / `max` |
| Fallback.AttachAffixes | app/src/main/java/org/tomasino/stutter/hyphenation/FallbackHyphenator.kt:14-21 | the attaching loop yields one piece per chunk, as `AttachedPieces` describes |
| Fallback.AttachedConcat | app/src/main/java/org/tomasino/stutter/hyphenation/FallbackHyphenator.kt:14-21 | the attached pieces concatenate to prefix + the chunks + suffix |
| Fallback.AttachedPieces | app/src/main/java/org/tomasino/stutter/hyphenation/FallbackHyphenator.kt:14-21 | the prefix goes on the first piece only, the suffix on the last only, and the middle pieces are the chunks unchanged |
| Fallback.Split | app/src/main/java/org/tomasino/stutter/hyphenation/FallbackHyphenator.kt:4-22 | the result is `FallbackSplit(word, max)`, which does not depend on the language tag |
| Fallback.FallbackGuards | app/src/main/java/org/tomasino/stutter/hyphenation/FallbackHyphenator.kt:5-9 | a cap of 0 or less, an empty word, or a word with no letter or digit gives `[word]` |
| Fallback.FallbackChunked | app/src/main/java/org/tomasino/stutter/hyphenation/FallbackHyphenator.kt:11-21 | otherwise the core has chunks, and the result is those chunks with the affixes attached |
| Fallback.FallbackConcat | app/src/main/java/org/tomasino/stutter/hyphenation/FallbackHyphenator.kt:4-22 | the pieces always concatenate back to the word |
| Fallback.FallbackNonEmpty | app/src/main/java/org/tomasino/stutter/hyphenation/FallbackHyphenator.kt:44-56 | no piece of a non-empty word is empty |
| Fallback.FallbackCount | app/src/main/java/org/tomasino/stutter/hyphenation/FallbackHyphenator.kt:11-21 | the piece count is the ceiling of core length / `max`, so a core that fits gives `[word]` |
| Fallback.FallbackPieces | app/src/main/java/org/tomasino/stutter/hyphenation/FallbackHyphenator.kt:11-21 | one piece per chunk: prefix on the first, suffix on the last, every middle piece exactly `max` core characters |
| PatternHyphenator.RightmostIn | app/src/main/java/org/tomasino/stutter/hyphenation/PatternHyphenator.kt:70 | the largest breakpoint in `(lo, hi]`, or none exactly when no breakpoint lies there |
| PatternHyphenator.NextCut | app/src/main/java/org/tomasino/stutter/hyphenation/PatternHyphenator.kt:62-82 | each cut moves strictly forward by at most `max` and stays inside the core, so the loop ends |
| PatternHyphenator.NextCutFacts | app/src/main/java/org/tomasino/stutter/hyphenation/PatternHyphenator.kt:62-82 | when the rest fits, the cut is the end; otherwise it is the rightmost breakpoint in `(start, start + max]`, or exactly `max` further when that range holds no breakpoint |
| PatternHyphenator.NextSegment | app/src/main/java/org/tomasino/stutter/hyphenation/PatternHyphenator.kt:69-81 | one loop step: the segment up to `NextCut` and the new start |
| PatternHyphenator.SplitWithBreakpoints | app/src/main/java/org/tomasino/stutter/hyphenation/PatternHyphenator.kt:54-84 | the loop, empty-breakpoint branch and final filter yield `WithBreakpoints`, which `WithBreakpointsFacts` characterises |
| PatternHyphenator.BreakSegmentsConcat | app/src/main/java/org/tomasino/stutter/hyphenation/PatternHyphenator.kt:62-82 | the segments from `start` concatenate to the core from `start` |
| PatternHyphenator.BreakSegmentsSizes | app/src/main/java/org/tomasino/stutter/hyphenation/PatternHyphenator.kt:62-82 | every segment has 1 to `max` characters, and there is one when the core is not used up |
| PatternHyphenator.WithBreakpointsFacts | app/src/main/java/org/tomasino/stutter/hyphenation/PatternHyphenator.kt:54-84 | the segments concatenate to the core, each has 1 to `max` characters, and there are none exactly when the core is empty |
| PatternHyphenator.Split | app/src/main/java/org/tomasino/stutter/hyphenation/PatternHyphenator.kt:9-32 | the result is `PatternSplit` on the patterns the repository loads for the tag; the guards answer before the cache is touched |
| PatternHyphenator.PatternGuards | app/src/main/java/org/tomasino/stutter/hyphenation/PatternHyphenator.kt:10-14 | a cap of 0 or less, an empty word, or a word with no letter or digit gives `[word]` |
| PatternHyphenator.PatternWithoutData | app/src/main/java/org/tomasino/stutter/hyphenation/PatternHyphenator.kt:16 | with no pattern set the result is exactly the fallback hyphenator's |
| PatternHyphenator.PatternFits | app/src/main/java/org/tomasino/stutter/hyphenation/PatternHyphenator.kt:17-18 | a core no longer than the cap gives `[word]` |
| PatternHyphenator.PatternCut | app/src/main/java/org/tomasino/stutter/hyphenation/PatternHyphenator.kt:20-31 | a longer core gives the breakpoint segments of the core with the affixes attached |
| PatternHyphenator.PatternConcat | app/src/main/java/org/tomasino/stutter/hyphenation/PatternHyphenator.kt:9-32 | the pieces always concatenate back to the word |
| PatternHyphenator.PatternInnerPieces | app/src/main/java/org/tomasino/stutter/hyphenation/PatternHyphenator.kt:24-31 | prefix only on the first piece, suffix only on the last, and every middle piece a segment of 1 to `max` characters |
| PatternHyphenator.NonEmptyKeeps | app/src/main/java/org/tomasino/stutter/hyphenation/PatternHyphenator.kt:83 | filtering out empty strings keeps a list with no empty string unchanged |
| Liang.ScanBestIsMax | app/src/main/java/org/tomasino/stutter/hyphenation/PatternHyphenator.kt:119-136 | a slot's score is at least the weight every pattern match gives it, and is either 0 or the weight of one match |
| Liang.StartBestIsMax | app/src/main/java/org/tomasino/stutter/hyphenation/PatternHyphenator.kt:120-135 | for one start position, the best weight is the maximum over the matches starting there, attained or 0 |
| Liang.StartBestStops | app/src/main/java/org/tomasino/stutter/hyphenation/PatternHyphenator.kt:122-124 | once the trie has no child for the next letter, no longer match from that start exists, so stopping the walk loses nothing |
| Liang.ApplyPattern | app/src/main/java/org/tomasino/stutter/hyphenation/PatternHyphenator.kt:127-132 | each covered slot becomes the maximum of its old value and the pattern's weight, other slots are kept, and no slot decreases |
| Liang.ScanStart | app/src/main/java/org/tomasino/stutter/hyphenation/PatternHyphenator.kt:120-135 | after the walk from start `i`, each slot is the maximum of its old value and the best match from `i` |
| Liang.Score | app/src/main/java/org/tomasino/stutter/hyphenation/PatternHyphenator.kt:117-136 | the weight array is `Scores`: each slot is the maximum over all matches covering it, by `ScanBestIsMax` |
| Liang.BreaksBelow | app/src/main/java/org/tomasino/stutter/hyphenation/PatternHyphenator.kt:138-148 | exactly the positions below `k` with enough letters on both sides and an odd slot weight, in ascending order |
| Liang.BreaksBelowStep | app/src/main/java/org/tomasino/stutter/hyphenation/PatternHyphenator.kt:139-147 | one iteration of the breakpoint loop adds position `k` exactly when it qualifies |
| Liang.PointsCharacterised | app/src/main/java/org/tomasino/stutter/hyphenation/PatternHyphenator.kt:106-149 | a word no longer than `minLeft + minRight` has no break; otherwise the breaks are ascending and are exactly the `k` with `minLeft <= k`, `len - k >= minRight` and an odd weight at slot `k + 1` of `.word.` |
| Liang.HyphenationPoints | app/src/main/java/org/tomasino/stutter/hyphenation/PatternHyphenator.kt:106-149 | the method over the trie and the weight array returns `Points` of the trie's patterns |
| Trie.Letters | app/src/main/java/org/tomasino/stutter/hyphenation/PatternHyphenator.kt:158-167 | the letters of a pattern are its characters other than digits |
| Trie.Weights | app/src/main/java/org/tomasino/stutter/hyphenation/PatternHyphenator.kt:158-167 | the weight list has one slot more than the letters, each slot 0 to 9 |
| Trie.ParsePattern | app/src/main/java/org/tomasino/stutter/hyphenation/PatternHyphenator.kt:158-167 | the parsing loop gives the letters and weights |
| Trie.PatternSnoc | app/src/main/java/org/tomasino/stutter/hyphenation/PatternHyphenator.kt:160-166 | a digit overwrites the last slot and a letter adds a slot with 0 |
| Trie.DigitBetween | app/src/main/java/org/tomasino/stutter/hyphenation/PatternHyphenator.kt:160-166 | in `a d b` the digit's weight sits in the slot between `a` and `b`, every other slot is 0 |
| Trie.PlainSuffix | app/src/main/java/org/tomasino/stutter/hyphenation/PatternHyphenator.kt:160-166 | letters after the last digit add zero slots |
| Trie.PatternTrie.constructor | app/src/main/java/org/tomasino/stutter/hyphenation/PatternHyphenator.kt:152-154 | a new trie has only the root and no weights |
| Trie.PatternTrie.Insert | app/src/main/java/org/tomasino/stutter/hyphenation/PatternHyphenator.kt:156-173 | a blank pattern changes nothing; otherwise every prefix of the letters becomes a node, existing nodes stay, and only the node for the letters gets the pattern's weights |
| Repository.NormalizeTag | app/src/main/java/org/tomasino/stutter/hyphenation/HyphenationPatternRepository.kt:47-53 | a missing or blank tag has no key, and a key is never empty or `und` |
| Repository.NormalizeTagIgnoresSubtags | app/src/main/java/org/tomasino/stutter/hyphenation/HyphenationPatternRepository.kt:49-52 | `_` counts as `-`, and region, script, variant and extension subtags are dropped: `en-US-u-va-posix` and `en_US` key as `en` |
| Repository.ResourcePath | app/src/main/java/org/tomasino/stutter/hyphenation/HyphenationPatternRepository.kt:22-42 | a key has a pattern file exactly when it is one of the 18 bundled languages |
| Repository.Uncomment | app/src/main/java/org/tomasino/stutter/hyphenation/HyphenationPatternRepository.kt:63-65 | no `%` survives once each line is cut at its first `%` |
| Repository.ReplaceAllAvoids | app/src/main/java/org/tomasino/stutter/hyphenation/HyphenationPatternRepository.kt:66-69 | a replacement never brings in a character that neither the text nor the replacement has |
| Repository.CleanedFacts | app/src/main/java/org/tomasino/stutter/hyphenation/HyphenationPatternRepository.kt:62-69 | the cleaned text holds no `%`, `{` or `}` |
| Repository.Fields | app/src/main/java/org/tomasino/stutter/hyphenation/HyphenationPatternRepository.kt:70 | the fields are non-empty and hold no white space |
| Repository.NonBlank | app/src/main/java/org/tomasino/stutter/hyphenation/HyphenationPatternRepository.kt:70 | what remains is the non-blank fields |
| Repository.InsertAll | app/src/main/java/org/tomasino/stutter/hyphenation/HyphenationPatternRepository.kt:71-75 | every stored weight list comes from an accepted token (no leading `\`, only letters, digits and `.`) and has one slot per gap |
| Repository.InsertAllSnoc | app/src/main/java/org/tomasino/stutter/hyphenation/HyphenationPatternRepository.kt:71-75 | one loop step inserts an accepted token and skips any other |
| Repository.LastTokenWins | app/src/main/java/org/tomasino/stutter/hyphenation/HyphenationPatternRepository.kt:71-75 | a later pattern with the same letters replaces the earlier weights |
| Repository.ParseHyphenMin | app/src/main/java/org/tomasino/stutter/hyphenation/HyphenationPatternRepository.kt:79-82 | a found minimum is a non-negative `Int`; digits that overflow give none |
| Repository.NoPercentNoMatch | app/src/main/java/org/tomasino/stutter/hyphenation/HyphenationPatternRepository.kt:80 | a text without `%` has no `%left:`/`%right:` match |
| Repository.ParsedDataFacts | app/src/main/java/org/tomasino/stutter/hyphenation/HyphenationPatternRepository.kt:57-77 | without metadata both minima are 2; the minima are never negative; weights are well formed and come from accepted tokens |
| Repository.Parse | app/src/main/java/org/tomasino/stutter/hyphenation/HyphenationPatternRepository.kt:57-77 | the insertion loop builds a fresh valid trie whose patterns and minima are `ParsedData` of the text |
| Repository.LoadTagNone | app/src/main/java/org/tomasino/stutter/hyphenation/HyphenationPatternRepository.kt:16-45 | a missing or blank tag, or a language without a bundled file, loads nothing |
| Repository.PatternRepository.constructor | app/src/main/java/org/tomasino/stutter/hyphenation/HyphenationPatternRepository.kt:7-14 | a new repository over given resources has an empty cache |
| Repository.PatternRepository.Load | app/src/main/java/org/tomasino/stutter/hyphenation/HyphenationPatternRepository.kt:16-19 | the result is what the tag's file parses to; a cached set is returned again with the cache unchanged; only a found set is stored |
| Preparation.HyphensAreNotAlnum | app/src/main/java/org/tomasino/stutter/tokenizer/TokenPreparation.kt:142 | none of the six hyphen characters is a letter or digit |
| Preparation.RunLength | app/src/main/java/org/tomasino/stutter/tokenizer/TokenPreparation.kt:125-133 | the length of the maximal letter/digit run at the index, 0 past the end or at any other character |
| Preparation.NextWordRunLength | app/src/main/java/org/tomasino/stutter/tokenizer/TokenPreparation.kt:125-133 | the loop counts exactly that run |
| Preparation.RunLengthAtLeast | app/src/main/java/org/tomasino/stutter/tokenizer/TokenPreparation.kt:128-131 | a run of `n` letters or digits gives a length of at least `n` |
| Preparation.SplitAtHyphenBoundaries | app/src/main/java/org/tomasino/stutter/tokenizer/TokenPreparation.kt:83-123 | the buffered loop yields `HyphenPieces`, which `HyphenPiecesFacts` characterises |
| Preparation.HyphenScanConcat | app/src/main/java/org/tomasino/stutter/tokenizer/TokenPreparation.kt:93-121 | the buffer and the pieces from `i` concatenate to the buffer + the rest of the text |
| Preparation.HyphenScanCuts | app/src/main/java/org/tomasino/stutter/tokenizer/TokenPreparation.kt:95-108 | every cut is proper: the piece ends with its hyphen, a letter/digit run follows, and count + run exceeds the cap |
| Preparation.HyphenScanNonEmpty | app/src/main/java/org/tomasino/stutter/tokenizer/TokenPreparation.kt:101-103 | no piece is empty |
| Preparation.HyphenPiecesFacts | app/src/main/java/org/tomasino/stutter/tokenizer/TokenPreparation.kt:83-123 | no hyphen gives none; a result has more than one non-empty piece, concatenates to the text, and every cut is proper |
| Preparation.AppendHyphen | app/src/main/java/org/tomasino/stutter/tokenizer/TokenPreparation.kt:135-140 | `-` is added exactly when the piece ends with a letter or digit |
| Preparation.ByHyphenationFacts | app/src/main/java/org/tomasino/stutter/tokenizer/TokenPreparation.kt:59-81 | no non-empty hyphenator piece gives the text as one classified token; otherwise one classified token per non-empty piece, with `-` on non-final ones ending in a letter or digit |
| Preparation.SplitLongTokens | app/src/main/java/org/tomasino/stutter/tokenizer/TokenPreparation.kt:5-57 | the loop over tokens yields `SplitLong` |
| Preparation.TokensOfPieces | app/src/main/java/org/tomasino/stutter/tokenizer/TokenPreparation.kt:28-42 | the loop over hyphen pieces yields each piece's tokens in order |
| Preparation.SplitLongGuards | app/src/main/java/org/tomasino/stutter/tokenizer/TokenPreparation.kt:12-13 | no tokens give none, and a cap of 0 or less returns the input unchanged |
| Preparation.PrepareAllAppend | app/src/main/java/org/tomasino/stutter/tokenizer/TokenPreparation.kt:16-55 | each input token's outputs are contiguous and in input order |
| Preparation.PrepareFitting | app/src/main/java/org/tomasino/stutter/tokenizer/TokenPreparation.kt:17-21 | a token whose word length fits is passed through untouched |
| Preparation.FittingTokensUnchanged | app/src/main/java/org/tomasino/stutter/tokenizer/TokenPreparation.kt:16-21 | a list whose tokens all fit is returned unchanged |
| Preparation.PrepareLongToken | app/src/main/java/org/tomasino/stutter/tokenizer/TokenPreparation.kt:23-54 | a long token gives at least one token, and the hyphen split, when there is one, decides the tokens |
| Preparation.PiecesTokensNonEmpty | app/src/main/java/org/tomasino/stutter/tokenizer/TokenPreparation.kt:28-42 | hyphen pieces always give at least one token |
| Pipeline.BuildTokensStages | app/src/main/java/org/tomasino/stutter/tokenizer/TokenPipeline.kt:12-19 | blank text gives no tokens; other text gives the tokenizer's tokens with the long ones split |
| Pipeline.BuildTokensFitting | app/src/main/java/org/tomasino/stutter/tokenizer/TokenPipeline.kt:13-19 | when no raw token is too long, the output is the tokenizer's output |
| Pipeline.ShortTokensFit | app/src/main/java/org/tomasino/stutter/tokenizer/TokenClassifier.kt:32-36 | a token no longer than the cap has a word length within the cap |
| Pipeline.TwoWords | app/src/main/java/org/tomasino/stutter/tokenizer/IcuTokenizer.kt:8-47 | two words around one space, with the boundaries a word break iterator gives, tokenize to the two words |
| Pipeline.TwoWordsBuilt | app/src/main/java/org/tomasino/stutter/tokenizer/TokenPipeline.kt:5-20 | two such words within the cap come out of the pipeline unchanged |
| Pipeline.StatusMessageExample | app/src/test/java/org/tomasino/stutter/tokenizer/TokenPipelineTest.kt:22-31 | "Status message" under `en` with cap 13 gives `["Status", "message"]`, whatever the hyphenator |
| Tokenizer.TokenizeSpaceDelimited | app/src/main/java/org/tomasino/stutter/tokenizer/IcuTokenizer.kt:30-47 | the buffered loop yields `SpaceTokens`: the non-empty texts of the runs between whitespace segments |
| Tokenizer.RunsHaveNoWhitespace | app/src/main/java/org/tomasino/stutter/tokenizer/IcuTokenizer.kt:33-42 | no run holds a whitespace segment |
| Tokenizer.RunsSplitAtWhitespace | app/src/main/java/org/tomasino/stutter/tokenizer/IcuTokenizer.kt:33-42 | there is one run more than whitespace segments, and the runs laid end to end are the non-whitespace segments |
| Tokenizer.SpaceTokensCover | app/src/main/java/org/tomasino/stutter/tokenizer/IcuTokenizer.kt:30-47 | no space-mode token is empty, and the tokens concatenate to the non-whitespace segments |
| Tokenizer.SingleRunIsOneToken | app/src/test/java/org/tomasino/stutter/tokenizer/TokenizerTest.kt:24-30 | a text with no whitespace segment, such as a German compound, is one token |
| Tokenizer.SuffixEnd | app/src/main/java/org/tomasino/stutter/tokenizer/IcuTokenizer.kt:77-80 | the suffix takes every trivial punctuation segment that follows |
| Tokenizer.GroupEnd | app/src/main/java/org/tomasino/stutter/tokenizer/IcuTokenizer.kt:58-80 | a group consumes at least one segment, so the outer loop ends |
| Tokenizer.GroupShape | app/src/main/java/org/tomasino/stutter/tokenizer/IcuTokenizer.kt:62-80 | a group has no whitespace and at most one core; leading punctuation joins only directly before a core, otherwise the group is all trivial punctuation; the group ends at a non-trivial segment or the end |
| Tokenizer.TakeGroup | app/src/main/java/org/tomasino/stutter/tokenizer/IcuTokenizer.kt:58-82 | the prefix, core and suffix loops end at `GroupEnd` with the trimmed text of the group |
| Tokenizer.GroupsOrdered | app/src/main/java/org/tomasino/stutter/tokenizer/IcuTokenizer.kt:52-86 | groups follow one another without overlap |
| Tokenizer.GroupsCover | app/src/main/java/org/tomasino/stutter/tokenizer/IcuTokenizer.kt:52-86 | every non-whitespace segment lies in some group |
| Tokenizer.NonSpaceTokensStep | app/src/main/java/org/tomasino/stutter/tokenizer/IcuTokenizer.kt:58-85 | one outer iteration adds the trimmed group text when it is not empty |
| Tokenizer.TokenizeNonSpaceDelimited | app/src/main/java/org/tomasino/stutter/tokenizer/IcuTokenizer.kt:49-89 | the outer loop yields `NonSpaceTokens` |
| Tokenizer.NonSpaceTokensTrimmed | app/src/main/java/org/tomasino/stutter/tokenizer/IcuTokenizer.kt:82-85 | non-space tokens are trimmed and never empty |
| Tokenizer.ClassifyAll | app/src/main/java/org/tomasino/stutter/tokenizer/IcuTokenizer.kt:27 | one token per string, each classified with the caller's tag |
| Tokenizer.Tokenize | app/src/main/java/org/tomasino/stutter/tokenizer/IcuTokenizer.kt:8-28 | blank text gives no tokens, and no token has empty text |
| Tokenizer.TokensByMode | app/src/main/java/org/tomasino/stutter/tokenizer/IcuTokenizer.kt:17-27 | non-space mode is used exactly for ja, zh, th, lo, km and my, and each token keeps its string |
| Tokenizer.SpaceTokensRebuildText | app/src/main/java/org/tomasino/stutter/tokenizer/IcuTokenizer.kt:21-22 | in space mode the tokens concatenate to the text without its whitespace segments |
| Tokenizer.EnglishSegmentsFlags | app/src/main/java/org/tomasino/stutter/tokenizer/TokenizerUtils.kt:16-20 | the segments of the English example carry the flags `Segment.from` gives them |
| Tokenizer.EnglishExample | app/src/test/java/org/tomasino/stutter/tokenizer/TokenizerTest.kt:13-22 | "Hello, world! This is a test." gives six tokens with the punctuation attached |
| Segments.SegmentFlagsExclusive | app/src/main/java/org/tomasino/stutter/tokenizer/TokenizerUtils.kt:17-18 | a non-empty segment is never both whitespace and word-like |
| Segments.TrivialFromPunctuation | app/src/main/java/org/tomasino/stutter/tokenizer/TokenizerUtils.kt:11-13 | a non-empty run of punctuation is trivial punctuation, so neither whitespace nor word-like |
| Segments.SegmentsOf | app/src/main/java/org/tomasino/stutter/tokenizer/TokenizerUtils.kt:24-37 | one segment per pair of adjacent boundaries |
| Segments.SegmentsFor | app/src/main/java/org/tomasino/stutter/tokenizer/TokenizerUtils.kt:24-37 | the boundary loop yields, for each adjacent pair, the segment of the text between them |
| Segments.SegmentsCoverText | app/src/main/java/org/tomasino/stutter/tokenizer/TokenizerUtils.kt:24-37 | under boundaries from 0 to the length, the segments are non-empty, concatenate to the text, and the last one ends it |
| Segments.SegmentationFacts | app/src/main/java/org/tomasino/stutter/tokenizer/TokenizerUtils.kt:24-37 | any segmentation splits the text into non-empty segments that concatenate back to it |
| Segments.LastSegmentEndsText | app/src/main/java/org/tomasino/stutter/tokenizer/TokenizerUtils.kt:24-37 | a non-empty text has a last segment, and the text ends with it |
| Segments.EmptyTextHasNoSegments | app/src/main/java/org/tomasino/stutter/tokenizer/TokenizerUtils.kt:24-37 | the empty text has no segments |
| Classifier.WordLikeSegments | app/src/main/java/org/tomasino/stutter/tokenizer/TokenClassifier.kt:9 | exactly the word-like segments are kept |
| Classifier.NonWordSegments | app/src/main/java/org/tomasino/stutter/tokenizer/TokenClassifier.kt:15 | the filter is empty exactly when every segment is word-like or whitespace |
| Classifier.TotalLength | app/src/main/java/org/tomasino/stutter/tokenizer/TokenClassifier.kt:10 | the summed lengths are the length of the concatenated texts |
| Classifier.ClassifySegments | app/src/main/java/org/tomasino/stutter/tokenizer/TokenClassifier.kt:6-30 | text kept; sentence end iff the last segment has `. ! ? 。 ！ ？ ؟`; other punctuation iff a non-word, non-whitespace segment exists and not sentence end; numeric iff there is a word-like segment and all are digits; short iff word length < 5; long iff >= 9 |
| Classifier.ClassifyAgreesWithWordLength | app/src/main/java/org/tomasino/stutter/tokenizer/TokenClassifier.kt:32-36 | `classify`'s length flags agree with `wordLength`, and the text is kept |
| Classifier.ExclusiveFlags | app/src/main/java/org/tomasino/stutter/tokenizer/TokenClassifier.kt:15-20 | never both short and long, never both sentence end and other punctuation |
| Classifier.NoSegmentsToken | app/src/main/java/org/tomasino/stutter/tokenizer/TokenClassifier.kt:12-20 | with no segments a token is short and carries no other flag |
| Classifier.EmptyTextToken | app/src/main/java/org/tomasino/stutter/tokenizer/TokenClassifier.kt:6-30 | the empty text is a short token with no other flag, whatever the locale |
| Classifier.WordLikeLength | app/src/main/java/org/tomasino/stutter/tokenizer/TokenClassifier.kt:32-36 | the word length never exceeds the total segment length |
| Classifier.WordLengthBound | app/src/main/java/org/tomasino/stutter/tokenizer/TokenClassifier.kt:32-36 | the word length never exceeds the text length |
| Classifier.SentenceEndByText | app/src/main/java/org/tomasino/stutter/tokenizer/TokenClassifier.kt:12-13 | a text ending in a sentence mark ends a sentence, and a sentence-ending text contains such a mark |
| Classifier.NumericHasWordLength | app/src/main/java/org/tomasino/stutter/tokenizer/TokenClassifier.kt:18 | a numeric token has a word length of at least one |
| Locales.FirstSubtagLength | app/src/main/java/org/tomasino/stutter/hyphenation/HyphenationPatternRepository.kt:50-51 | the characters before the first `-` |
| Locales.LanguageOf | app/src/main/java/org/tomasino/stutter/language/BasicLanguageResolver.kt:19-20 | a language is 2 to 8 lower-case ASCII letters other than `und`, the lower-cased first subtag |
| Locales.LanguageOfSmallLetters | app/src/main/java/org/tomasino/stutter/language/BasicLanguageResolver.kt:19-20 | a tag of 2 to 8 small ASCII letters is its own language, and `und` names none |
| Locales.LanguageIgnoresLaterSubtags | app/src/main/java/org/tomasino/stutter/hyphenation/HyphenationPatternRepository.kt:50-51 | subtags after the first never change the language |
| Locales.ResolveLanguage | app/src/main/java/org/tomasino/stutter/tokenizer/TokenClassifier.kt:38-44 | a missing or blank tag uses the device language; otherwise the language of the trimmed tag |
| Scheduling.TruncateBounds | app/src/main/java/org/tomasino/stutter/scheduler/SchedulerImpl.kt:183 | `toLong` truncates toward zero |
| Scheduling.SlowStartFactor | app/src/main/java/org/tomasino/stutter/scheduler/SchedulerImpl.kt:178-181 | the factor is at least 1, and exactly 1 without slow start or past its window |
| Scheduling.FlagStepsInOrder | app/src/main/java/org/tomasino/stutter/scheduler/SchedulerImpl.kt:171-176 | the five multipliers apply in source order, each only when its flag is set |
| Scheduling.ComputeDelayMs | app/src/main/java/org/tomasino/stutter/scheduler/SchedulerImpl.kt:170-184 | the accumulating method returns `Delay`, which `DelaySlowStart` and `DelayPlain` characterise |
| Scheduling.ApplyStepsNonNegative | app/src/main/java/org/tomasino/stutter/scheduler/SchedulerImpl.kt:172-176 | non-negative multipliers keep a delay non-negative |
| Scheduling.ApplyStepsOnes | app/src/main/java/org/tomasino/stutter/scheduler/SchedulerImpl.kt:172-176 | multipliers of 1 change nothing |
| Scheduling.SlowStartFactorMonotone | app/src/main/java/org/tomasino/stutter/scheduler/SchedulerImpl.kt:178-181 | the slow-start factor never grows with the index |
| Scheduling.DelaySlowStart | app/src/main/java/org/tomasino/stutter/scheduler/SchedulerImpl.kt:170-184 | delays are never negative, and an earlier token in the slow-start window waits at least as long |
| Scheduling.DelayPlain | app/src/main/java/org/tomasino/stutter/scheduler/SchedulerImpl.kt:170-184 | with all multipliers 1 and no slow start the delay is `60000 / wpm` truncated: 1000 at 60 wpm |
| Scheduling.Delays | app/src/main/java/org/tomasino/stutter/scheduler/SchedulerImpl.kt:159 | one delay per token, by its index |
| Scheduling.OffsetsPrefixSum | app/src/main/java/org/tomasino/stutter/scheduler/SchedulerImpl.kt:157-168 | one offset per token, the first 0, each the previous plus the previous token's delay |
| Scheduling.OffsetsNonDecreasing | app/src/main/java/org/tomasino/stutter/scheduler/SchedulerImpl.kt:157-168 | with non-negative multipliers the offsets never decrease |
| Scheduling.OffsetsAtSixtyWpm | app/src/test/java/org/tomasino/stutter/scheduler/SchedulerTest.kt:101-117 | at 60 wpm with plain options, token `i` is due at `1000 * i` |
| Scheduling.ComputeOffsets | app/src/main/java/org/tomasino/stutter/scheduler/SchedulerImpl.kt:157-168 | the running-sum loop returns `Offsets` |
| Scheduling.AtMost | app/src/main/java/org/tomasino/stutter/scheduler/SchedulerImpl.kt:56 | `coerceAtMost` is the smaller of the value and the bound |
| Scheduling.Scheduler.constructor | app/src/main/java/org/tomasino/stutter/scheduler/SchedulerImpl.kt:22-35 | idle, no tokens, default options, index 0, nothing emitted |
| Scheduling.Scheduler.Load | app/src/main/java/org/tomasino/stutter/scheduler/SchedulerImpl.kt:37-46 | stores tokens, options and their offsets; index 0, offset 0, last emitted -1, Idle |
| Scheduling.Scheduler.StartJob | app/src/main/java/org/tomasino/stutter/scheduler/SchedulerImpl.kt:125-130 | the start reference is `now - elapsed`; Playing while tokens remain, else Finished |
| Scheduling.Scheduler.BaseIndexForUpdate | app/src/main/java/org/tomasino/stutter/scheduler/SchedulerImpl.kt:54-59 | Playing: last emitted clamped to the list; Finished: the last index; else the current index capped |
| Scheduling.Scheduler.UpdateOptions | app/src/main/java/org/tomasino/stutter/scheduler/SchedulerImpl.kt:48-67 | options always stored; with tokens the offsets are recomputed and the position rebased to the base index; a running loop restarts so that position is due now |
| Scheduling.Scheduler.Play | app/src/main/java/org/tomasino/stutter/scheduler/SchedulerImpl.kt:69-80 | no-op without tokens or while playing; from Finished it starts over; otherwise it goes on from the current position |
| Scheduling.Scheduler.Pause | app/src/main/java/org/tomasino/stutter/scheduler/SchedulerImpl.kt:82-87 | only from Playing: stores `max(0, now - start)` and becomes Paused; the index is kept |
| Scheduling.Scheduler.Resume | app/src/main/java/org/tomasino/stutter/scheduler/SchedulerImpl.kt:89-92 | only from Paused: restarts from the stored offset with the index kept |
| Scheduling.Scheduler.Restart | app/src/main/java/org/tomasino/stutter/scheduler/SchedulerImpl.kt:94-100 | with tokens: index 0, offset 0, nothing emitted, playing from `now` |
| Scheduling.Scheduler.SkipBy | app/src/main/java/org/tomasino/stutter/scheduler/SchedulerImpl.kt:110-123 | moves from the last emitted token while playing, else from the current one, by `delta` clamped to the list; the offset becomes that token's; only a running loop restarts |
| Scheduling.Scheduler.SkipForward | app/src/main/java/org/tomasino/stutter/scheduler/SchedulerImpl.kt:102-104 | a skip by `skipCount` |
| Scheduling.Scheduler.SkipBack | app/src/main/java/org/tomasino/stutter/scheduler/SchedulerImpl.kt:106-108 | a skip by `-skipCount` |
| Scheduling.Scheduler.Tick | app/src/main/java/org/tomasino/stutter/scheduler/SchedulerImpl.kt:131-148 | while playing and once the target time has come, emits the current token with target start + offset, advances by one, and finishes after the last |
| Scheduling.PauseThenResume | app/src/main/java/org/tomasino/stutter/scheduler/SchedulerImpl.kt:82-92 | pausing at `t1` and resuming at `t2` shifts every later target by exactly `t2 - t1` and keeps the position |
| Scheduling.EmitsTokensInOrder | app/src/test/java/org/tomasino/stutter/scheduler/SchedulerTest.kt:19-34 | three tokens come out with indices 0, 1, 2 and targets 0, 1000, 2000 |
| Scheduling.PauseResumePreservesIndex | app/src/test/java/org/tomasino/stutter/scheduler/SchedulerTest.kt:36-60 | nothing comes while paused, and the second token follows the resume by one second |
| Scheduling.RestartResetsToZero | app/src/test/java/org/tomasino/stutter/scheduler/SchedulerTest.kt:62-78 | a restart after the first token shows the first token again |
| Scheduling.SkipForwardBackward | app/src/test/java/org/tomasino/stutter/scheduler/SchedulerTest.kt:80-98 | with skip count 2 over four tokens the indices shown are 2 then 0 |
| Settings.ClampInt | app/src/main/java/org/tomasino/stutter/settings/SettingsModels.kt:145-147 | min below the range, max above it, the value inside it |
| Settings.ClampReal | app/src/main/java/org/tomasino/stutter/settings/SettingsModels.kt:149-151 | the same for the delay factors |
| Settings.ClampedPlayback | app/src/main/java/org/tomasino/stutter/settings/SettingsModels.kt:13-24 | every field in its range; in-range fields kept; an out-of-range rate goes to the nearer bound |
| Settings.ClampedPlaybackIdempotent | app/src/main/java/org/tomasino/stutter/settings/SettingsModels.kt:13-24 | in-range options are unchanged, so clamping twice is clamping once |
| Settings.DefaultPlaybackInRange | app/src/main/java/org/tomasino/stutter/settings/SettingsModels.kt:44-53 | the defaults are in range and clamp to themselves |
| Settings.ClampedTextHandling | app/src/main/java/org/tomasino/stutter/settings/SettingsModels.kt:61-63 | the length cap is forced into [5, 50]; the flanker switch is kept |
| Settings.ClampedTextHandlingIdempotent | app/src/main/java/org/tomasino/stutter/settings/SettingsModels.kt:61-72 | clamping is idempotent, and the default clamps to itself |
| Settings.NormalizedLanguage | app/src/main/java/org/tomasino/stutter/settings/SettingsModels.kt:80-83 | a missing or blank tag becomes none, any other tag is trimmed; the detection switch is kept |
| Settings.NormalizedLanguageIdempotent | app/src/main/java/org/tomasino/stutter/settings/SettingsModels.kt:80-83 | normalising twice is normalising once |
| Appearance.FirstLabel | app/src/main/java/org/tomasino/stutter/settings/AppearanceSchemes.kt:27 | the label of the first option with the id, none exactly when no option has it |
| Appearance.SchemeIdsDistinct | app/src/main/java/org/tomasino/stutter/settings/AppearanceSchemes.kt:16-23 | the scheme ids are pairwise distinct |
| Appearance.ColorSchemeLabel | app/src/main/java/org/tomasino/stutter/settings/AppearanceSchemes.kt:25-28 | a known id gives its label; missing or unknown gives "Solarized" |
| Appearance.ThemeVariants | app/src/main/java/org/tomasino/stutter/settings/AppearanceSchemes.kt:60-69 | exactly Monokai and Dracula look the same in dark and light themes |
| Appearance.ResolvedSchemeId | app/src/main/java/org/tomasino/stutter/settings/AppearanceSchemes.kt:35-36 | a known id is kept; anything else becomes the default; the result is always known |
| Appearance.ApplyColorScheme | app/src/main/java/org/tomasino/stutter/settings/AppearanceSchemes.kt:30-48 | the name becomes a known id (`solarized` for missing or unknown); the seven colours become that scheme's for the theme; every other field is kept |
| Appearance.ApplyColorSchemeIdempotent | app/src/main/java/org/tomasino/stutter/settings/AppearanceSchemes.kt:30-48 | applying the same id and theme twice is applying it once |
| Appearance.ApplyColorSchemeIgnoresBase | app/src/main/java/org/tomasino/stutter/settings/AppearanceSchemes.kt:37-47 | the resulting name and colours depend only on the id and theme, never on the base |
| Appearance.SchemeColorsAreInts | app/src/main/java/org/tomasino/stutter/settings/AppearanceSchemes.kt:71-189 | every scheme colour is a 32-bit `Int` |
| WordLayout.OrpIndex | app/src/main/java/org/tomasino/stutter/reader/WordLayout.kt:28-36 | the highlight index is 0 to 4, and inside a word of at least one letter |
| WordLayout.OrpIndexBands | app/src/main/java/org/tomasino/stutter/reader/WordLayout.kt:28-36 | longer words never move the highlight left, and the bands <2, <5, <9, <14 give 0, 1, 2, 3, else 4 |
| WordLayout.LeadingNonWord | app/src/main/java/org/tomasino/stutter/reader/WordLayout.kt:38-45 | the number of characters before the first letter or digit |
| WordLayout.CountLeadingNonWord | app/src/main/java/org/tomasino/stutter/reader/WordLayout.kt:38-45 | the counting loop returns that number |
| WordLayout.LeadingNonWordUnique | app/src/main/java/org/tomasino/stutter/reader/WordLayout.kt:40-43 | only one prefix length ends at a letter, a digit or the end |
| WordLayout.CountWordChars | app/src/main/java/org/tomasino/stutter/reader/WordLayout.kt:47-53 | the counting loop returns the number of letters and digits |
| WordLayout.NoAlnum | app/src/main/java/org/tomasino/stutter/reader/WordLayout.kt:47-53 | a text with no letter or digit counts 0 |
| WordLayout.AllAlnum | app/src/main/java/org/tomasino/stutter/reader/WordLayout.kt:47-53 | a text of letters and digits counts its length |
| WordLayout.CenterIndex | app/src/main/java/org/tomasino/stutter/reader/WordLayout.kt:13-20 | the highlight index lies inside the text |
| WordLayout.Layout | app/src/main/java/org/tomasino/stutter/reader/WordLayout.kt:10-26 | empty text gives three empty parts; otherwise left + centre + right is the text, the centre is one character, and the left part's length is the centre index |
| WordLayout.Split | app/src/main/java/org/tomasino/stutter/reader/WordLayout.kt:10-26 | the method returns `Layout` |
| WordLayout.LayoutOfPunctuatedWord | app/src/main/java/org/tomasino/stutter/reader/WordLayout.kt:13-24 | behind leading punctuation the highlight falls on the word's ORP letter, with the punctuation on the left |
| WordLayout.LayoutOfLowerCaseWord | app/src/main/java/org/tomasino/stutter/reader/WordLayout.kt:13-24 | a plain word is cut around its ORP letter |
| WordLayout.LayoutReading | app/src/test/java/org/tomasino/stutter/reader/ReaderViewLogicTest.kt:10-16 | "reading" gives re / a / ding |
| WordLayout.LayoutParenthesized | app/src/test/java/org/tomasino/stutter/reader/ReaderViewLogicTest.kt:19-25 | "(hello" gives (he / l / lo |
| WordLayout.LayoutSingle | app/src/test/java/org/tomasino/stutter/reader/ReaderViewLogicTest.kt:28-34 | "A" gives "" / A / "" |
| Language.NormalizeTag | app/src/main/java/org/tomasino/stutter/language/BasicLanguageResolver.kt:17-25 | missing or blank gives none; otherwise none exactly when the trimmed tag names no language (empty or `und`); a result is the canonical form of the trimmed tag |
| Language.FirstPresent | app/src/main/java/org/tomasino/stutter/language/BasicLanguageResolver.kt:14 | none exactly when every entry is none |
| Language.FirstPresentIsFirst | app/src/main/java/org/tomasino/stutter/language/BasicLanguageResolver.kt:14 | what is found is an entry with nothing present before it |
| Language.ResolvePriority | app/src/main/java/org/tomasino/stutter/language/BasicLanguageResolver.kt:6-15 | the page's tag wins when valid, then the user's default, then the device's |
| Language.ResolveFromInput | app/src/main/java/org/tomasino/stutter/language/BasicLanguageResolver.kt:6-15 | a result is the canonical form of one of the three trimmed inputs, which names a language |
| Language.NormalizeValidTag | app/src/main/java/org/tomasino/stutter/language/BasicLanguageResolver.kt:17-25 | a tag without surrounding whitespace that names a language normalises to its canonical form |
| Language.NormalizeUnd | app/src/main/java/org/tomasino/stutter/language/BasicLanguageResolver.kt:21-22 | `und` normalises to none |
| Language.ResolveHtmlFirst | app/src/test/java/org/tomasino/stutter/language/LanguageResolverTest.kt:10-15 | ("fr", "en", "de") gives "fr" |
| Language.ResolveUserDefault | app/src/test/java/org/tomasino/stutter/language/LanguageResolverTest.kt:17-22 | (none, "en-US", "de") gives "en-US" |
| Language.ResolveDevice | app/src/test/java/org/tomasino/stutter/language/LanguageResolverTest.kt:24-29 | (none, none, "de") gives "de" |
| Language.ResolveSkipsInvalid | app/src/test/java/org/tomasino/stutter/language/LanguageResolverTest.kt:31-36 | (" ", "und", "en") gives "en" |
| Language.ResolveAllInvalid | app/src/test/java/org/tomasino/stutter/language/LanguageResolverTest.kt:38-43 | ("", "   ", "und") gives none |
| ColorHex.HexChar | app/src/main/java/org/tomasino/stutter/MainActivity.kt:1058 | the upper-case digit of a value below 16 reads back as that value |
| ColorHex.HexNumber | app/src/main/java/org/tomasino/stutter/MainActivity.kt:1050 | `n` digits denote a number below `16^n` |
| ColorHex.ParseHexLong | app/src/main/java/org/tomasino/stutter/MainActivity.kt:1050 | `toLongOrNull(16)`: empty gives none; plain digits give their number; an unsigned result is non-negative |
| ColorHex.WithOpaqueAlpha | app/src/main/java/org/tomasino/stutter/MainActivity.kt:1052 | setting the alpha byte gives a 32-bit `Int` |
| ColorHex.OrSetsTopByte | app/src/main/java/org/tomasino/stutter/MainActivity.kt:1052 | or-ing `0xFF shl 24` sets the top byte and keeps the low three |
| ColorHex.ColorBody | app/src/main/java/org/tomasino/stutter/MainActivity.kt:1045-1048 | blank gives none; a body has 6 or 8 characters |
| ColorHex.ColorBodyOfTrimmed | app/src/main/java/org/tomasino/stutter/MainActivity.kt:1047-1048 | the body is the text, or what follows its one `#`, when of length 6 or 8 |
| ColorHex.ParseBody | app/src/main/java/org/tomasino/stutter/MainActivity.kt:1049-1055 | a parsed colour is a 32-bit `Int` |
| ColorHex.ParseColorHex | app/src/main/java/org/tomasino/stutter/MainActivity.kt:1044-1056 | blank or wrong-length input gives none; a result is a 32-bit `Int` |
| ColorHex.HexDigits | app/src/main/java/org/tomasino/stutter/MainActivity.kt:1058 | `width` upper-case hexadecimal digits |
| ColorHex.ToHexString | app/src/main/java/org/tomasino/stutter/MainActivity.kt:1058 | `#` and eight upper-case hexadecimal digits |
| ColorHex.HexDigitsRoundTrip | app/src/main/java/org/tomasino/stutter/MainActivity.kt:1058 | reading the digits back gives the number when it fits |
| ColorHex.UpperHexUnchanged | app/src/main/java/org/tomasino/stutter/MainActivity.kt:1049 | upper-casing leaves upper-case digits alone |
| ColorHex.ParseHexBody | app/src/main/java/org/tomasino/stutter/MainActivity.kt:1049-1055 | six digits give the colour with alpha 0xFF; eight give the `Int` with those 32 bits |
| ColorHex.ParseOfToHexString | app/src/main/java/org/tomasino/stutter/MainActivity.kt:1044-1058 | parsing the formatted colour gives the same colour, for every 32-bit `Int` |
| ColorHex.ParseDigits | app/src/main/java/org/tomasino/stutter/MainActivity.kt:1047-1055 | `#` and six or eight digits give the colour they spell, opaque when six |
| ColorHex.HashOptional | app/src/main/java/org/tomasino/stutter/MainActivity.kt:1047 | a body reads the same with and without one `#` |
| ColorHex.CaseInsensitive | app/src/main/java/org/tomasino/stutter/MainActivity.kt:1049 | lower-case digits read as their upper-case forms |
| ColorHex.RejectedExamples | app/src/main/java/org/tomasino/stutter/MainActivity.kt:1048-1050 | `#FFF` (wrong length) and `#GGGGGG` (not hexadecimal) give none |
| ColorHex.PaddedLowerCaseExample | app/src/main/java/org/tomasino/stutter/MainActivity.kt:1045-1055 | `  #ff0000 ` gives opaque red |
| ColorHex.SignedExample | app/src/main/java/org/tomasino/stutter/MainActivity.kt:1050-1052 | a sign is accepted as `toLongOrNull` does: `-00001` gives -1 |
| Ints.ToInt32 | app/src/main/java/org/tomasino/stutter/MainActivity.kt:1054 | `Long.toInt()` keeps the low 32 bits: a 32-bit result congruent to the input, and the input itself when it fits |
| Ints.Unsigned32 | app/src/main/java/org/tomasino/stutter/MainActivity.kt:1058 | the bits of an `Int` read unsigned, below `2^32` and congruent to it |
| Ints.UnsignedRoundTrip | app/src/main/java/org/tomasino/stutter/MainActivity.kt:1058 | wrapping the unsigned reading back gives the same `Int` |
| Url.IsUrl | app/src/main/java/org/tomasino/stutter/ReaderActivity.kt:480-484 | blank text is not a web address; otherwise a web address iff the trimmed text starts with `http://` or `https://` |
| Url.IsUrlIgnoresSurroundingWhitespace | app/src/main/java/org/tomasino/stutter/ReaderActivity.kt:481 | surrounding whitespace makes no difference |
| Url.IsUrlOfTrimmed | app/src/main/java/org/tomasino/stutter/ReaderActivity.kt:483 | a text without surrounding whitespace is an address iff it starts with one of the two schemes |
| Url.SecureAddress | app/src/main/java/org/tomasino/stutter/ReaderActivity.kt:483 | `https://a.b` is an address |
| Url.PaddedAddress | app/src/main/java/org/tomasino/stutter/ReaderActivity.kt:481-483 | ` http://a.b ` is an address |
| Url.UpperCaseScheme | app/src/main/java/org/tomasino/stutter/ReaderActivity.kt:483 | the test is case-sensitive: `HTTP://a.b` is not an address |
| Url.OtherScheme | app/src/main/java/org/tomasino/stutter/ReaderActivity.kt:483 | `ftp://a.b` is not an address |
| Text.TrimIdempotent | app/src/main/java/org/tomasino/stutter/settings/SettingsModels.kt:81 | trimming twice is trimming once |
| Text.LowerCaseCapitals | app/src/main/java/org/tomasino/stutter/hyphenation/PatternHyphenator.kt:115 | the capitals of the bundled Russian, Turkish and Vietnamese patterns (Ё, Ş, Đ, Ơ, Ạ) and Ł lower-case to their small letters before the scan |
| Text.TrimEmptyIffBlank | app/src/main/java/org/tomasino/stutter/settings/SettingsModels.kt:81 | the trimmed text is empty exactly when the text is blank |

## Left out

- Coroutines, `Job` cancellation and the event and state flows of `SchedulerImpl` are not modelled. The loop of `startJob` is the `Tick` step, which the caller drives with the clock reading, and `stopJob` has nothing to cancel. `startJob` sets Playing at once instead of inside the coroutine.
- Scheduling.ComputeDelayMs: `Float` arithmetic is modelled with exact reals, then truncated toward zero. The model does not capture `Float` rounding. It also requires a positive rate. The source divides by zero for a rate of 0 (giving `Long.MAX_VALUE`), which clamped options never reach.
- The clock (`MonotonicClock`) is an input: each scheduler method takes `now`.
- `java.text.BreakIterator` is an input. A `Segmenter` gives, for a language and a text, boundaries from 0 to the text length in strict increase. The model proves the segmentation facts from that contract only.
- `Locale.forLanguageTag`, `Locale.getDefault` and `toLanguageTag` are abstracted:
  - The language is the first subtag when it is 2 to 8 ASCII letters other than `und`, lower-cased.
  - The device language is an input.
  - The canonical tag spelling is a function parameter.
  - `lowercase(locale)` is replaced by the locale-independent, one-character-for-one lower-casing `Text.ToLowerChar`, whose coverage the `Liang.HyphenationPoints` line below gives.
- Unicode character classes are approximated. `isLetterOrDigit`, `isDigit` and `\p{P}\p{S}` use fixed tables of code-point ranges. `isWhitespace` follows Kotlin's definition.
- Strings hold one `char` per code point. The UTF-16 `length` versus `codePointCount` distinction is not modelled.
- Resource loading is a map from resource path to file text. A missing resource gives nothing. The `ConcurrentHashMap` concurrency of the cache is not modelled.
- Trie.PatternTrie: the trie is its set of paths plus a map from a path to its weight list, not child node objects. Sharing and aliasing between node objects is therefore not captured.
- The hyphenator used by token preparation is a function parameter. The two hyphenators are modelled on their own.
- Network fetching, HTML extraction, persistence, rendering, HSV and luminance colour maths and the rest of the UI code are not modelled.
- Liang.HyphenationPoints: `word.lowercase(locale)` is modelled by `Text.ToLowerChar`, and the breakpoints differ from the source's where the two lower-case differently:
  - `Text.ToLowerChar` lower-cases the capitals of Basic Latin, Latin-1, Latin Extended-A, Ơ and Ư, Latin Extended Additional, Greek, Cyrillic, Cyrillic Supplement and Armenian. Capitals of other blocks (most of Latin Extended-B, ẞ, Georgian, Cherokee, Deseret, fullwidth forms) are kept as they are.
  - The locale rules are not modelled. Under a Turkish or Azeri tag the source lower-cases `I` to `ı` and `İ` to `i`; the model gives `i` and keeps `İ`. Lithuanian dot rules and Greek final sigma (`ς`) are not modelled either.
  - Lower-casings that change the length (`İ` to `i̇` outside Turkish) are not modelled: the model keeps one character for one.
- ColorHex.ParseHexLong: digits are the ASCII `0-9` and `A-F` only. `toLongOrNull(16)` uses `Character.digit`, which also takes other Unicode decimal digits (for example Arabic-Indic `٠`) and fullwidth `Ａ-Ｆ`/`ａ-ｆ`, so such text parses in the source and gives none in the model.
- ColorHex.ParseBody: `uppercase()` is modelled for ASCII `a-z` only, which is all the ASCII-only digit set above can use.
- Repository.ParseHyphenMin: the `IGNORE_CASE` flag is modelled for ASCII letters only.
