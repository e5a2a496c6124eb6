/** The option records of SettingsModels.kt and their clamping and
    normalisation. `Float` fields are reals. */
module Settings {
  import opened Text
  import opened Appearance

  /** `clampInt` (`coerceIn`), which fails when the range is empty. */
  function ClampInt(value: int, min: int, max: int): (r: int)
    requires min <= max
    ensures min <= r <= max
    ensures value < min ==> r == min
    ensures value > max ==> r == max
    ensures min <= value <= max ==> r == value
  {
    if value < min then min else if value > max then max else value
  }

  /** `clampFloat`: `coerceIn` on the `Float` delay factors, here over
      reals; the same clamp as `ClampInt` on a different number type. */
  function ClampReal(value: real, min: real, max: real): (r: real)
    requires min <= max
    ensures min <= r <= max
    ensures value < min ==> r == min
    ensures value > max ==> r == max
    ensures min <= value <= max ==> r == value
  {
    if value < min then min else if value > max then max else value
  }

  datatype PlaybackOptions = PlaybackOptions(
    wpm: int,
    slowStartCount: int,
    sentenceDelay: real,
    otherPuncDelay: real,
    shortWordDelay: real,
    longWordDelay: real,
    numericDelay: real,
    skipCount: int)

  const MIN_WPM := 100
  const MAX_WPM := 1800
  const MIN_SLOW_START := 1
  const MAX_SLOW_START := 10
  const MIN_DELAY_FACTOR := 1.0
  const MAX_DELAY_FACTOR := 10.0
  const MIN_SKIP_COUNT := 0
  const MAX_SKIP_COUNT := 100

  const DEFAULT_PLAYBACK := PlaybackOptions(400, 5, 2.5, 1.5, 1.3, 1.4, 1.8, 10)

  predicate FactorInRange(f: real) {
    MIN_DELAY_FACTOR <= f <= MAX_DELAY_FACTOR
  }

  /** Every field within its documented range. */
  predicate PlaybackInRange(o: PlaybackOptions) {
    MIN_WPM <= o.wpm <= MAX_WPM && MIN_SLOW_START <= o.slowStartCount <= MAX_SLOW_START &&
    FactorInRange(o.sentenceDelay) && FactorInRange(o.otherPuncDelay) && FactorInRange(o.shortWordDelay) &&
    FactorInRange(o.longWordDelay) && FactorInRange(o.numericDelay) &&
    MIN_SKIP_COUNT <= o.skipCount <= MAX_SKIP_COUNT
  }

  /** `PlaybackOptions.clamped`: every field in its range, and a field that
      already was in range kept. */
  function ClampedPlayback(o: PlaybackOptions): (r: PlaybackOptions)
    ensures PlaybackInRange(r)
    ensures MIN_WPM <= o.wpm <= MAX_WPM ==> r.wpm == o.wpm
    ensures MIN_SLOW_START <= o.slowStartCount <= MAX_SLOW_START ==> r.slowStartCount == o.slowStartCount
    ensures FactorInRange(o.sentenceDelay) ==> r.sentenceDelay == o.sentenceDelay
    ensures FactorInRange(o.otherPuncDelay) ==> r.otherPuncDelay == o.otherPuncDelay
    ensures FactorInRange(o.shortWordDelay) ==> r.shortWordDelay == o.shortWordDelay
    ensures FactorInRange(o.longWordDelay) ==> r.longWordDelay == o.longWordDelay
    ensures FactorInRange(o.numericDelay) ==> r.numericDelay == o.numericDelay
    ensures MIN_SKIP_COUNT <= o.skipCount <= MAX_SKIP_COUNT ==> r.skipCount == o.skipCount
    ensures o.wpm < MIN_WPM ==> r.wpm == MIN_WPM
    ensures o.wpm > MAX_WPM ==> r.wpm == MAX_WPM
  {
    PlaybackOptions(
      ClampInt(o.wpm, MIN_WPM, MAX_WPM),
      ClampInt(o.slowStartCount, MIN_SLOW_START, MAX_SLOW_START),
      ClampReal(o.sentenceDelay, MIN_DELAY_FACTOR, MAX_DELAY_FACTOR),
      ClampReal(o.otherPuncDelay, MIN_DELAY_FACTOR, MAX_DELAY_FACTOR),
      ClampReal(o.shortWordDelay, MIN_DELAY_FACTOR, MAX_DELAY_FACTOR),
      ClampReal(o.longWordDelay, MIN_DELAY_FACTOR, MAX_DELAY_FACTOR),
      ClampReal(o.numericDelay, MIN_DELAY_FACTOR, MAX_DELAY_FACTOR),
      ClampInt(o.skipCount, MIN_SKIP_COUNT, MAX_SKIP_COUNT))
  }

  /** Clamping options that are in range changes nothing, so clamping twice
      is clamping once. */
  lemma ClampedPlaybackIdempotent(o: PlaybackOptions)
    ensures PlaybackInRange(o) ==> ClampedPlayback(o) == o
    ensures ClampedPlayback(ClampedPlayback(o)) == ClampedPlayback(o)
  {
  }

  /** The defaults are in range, so clamping keeps them. */
  lemma DefaultPlaybackInRange()
    ensures PlaybackInRange(DEFAULT_PLAYBACK)
    ensures ClampedPlayback(DEFAULT_PLAYBACK) == DEFAULT_PLAYBACK
  {
  }

  datatype TextHandlingOptions = TextHandlingOptions(maxWordLength: int, showFlankers: bool)

  const MIN_MAX_WORD_LENGTH := 5
  const MAX_MAX_WORD_LENGTH := 50

  const DEFAULT_TEXT_HANDLING := TextHandlingOptions(13, false)

  /** `TextHandlingOptions.clamped`: the length cap forced into [5, 50],
      the flanker switch kept. */
  function ClampedTextHandling(o: TextHandlingOptions): (r: TextHandlingOptions)
    ensures MIN_MAX_WORD_LENGTH <= r.maxWordLength <= MAX_MAX_WORD_LENGTH
    ensures MIN_MAX_WORD_LENGTH <= o.maxWordLength <= MAX_MAX_WORD_LENGTH ==> r.maxWordLength == o.maxWordLength
    ensures o.maxWordLength < MIN_MAX_WORD_LENGTH ==> r.maxWordLength == MIN_MAX_WORD_LENGTH
    ensures o.maxWordLength > MAX_MAX_WORD_LENGTH ==> r.maxWordLength == MAX_MAX_WORD_LENGTH
    ensures r.showFlankers == o.showFlankers
  {
    o.(maxWordLength := ClampInt(o.maxWordLength, MIN_MAX_WORD_LENGTH, MAX_MAX_WORD_LENGTH))
  }

  lemma ClampedTextHandlingIdempotent(o: TextHandlingOptions)
    ensures ClampedTextHandling(ClampedTextHandling(o)) == ClampedTextHandling(o)
    ensures ClampedTextHandling(DEFAULT_TEXT_HANDLING) == DEFAULT_TEXT_HANDLING
  {
  }

  datatype LanguageOptions = LanguageOptions(autoDetectFromHtml: bool, defaultLanguageTag: Option<String>)

  const DEFAULT_LANGUAGE := LanguageOptions(true, None)

  /** `LanguageOptions.normalized`: a missing or blank tag becomes null,
      any other tag is trimmed; the detection switch is kept. */
  function NormalizedLanguage(o: LanguageOptions): (r: LanguageOptions)
    ensures r.autoDetectFromHtml == o.autoDetectFromHtml
    ensures o.defaultLanguageTag.None? || IsBlank(o.defaultLanguageTag.value) ==> r.defaultLanguageTag.None?
    ensures o.defaultLanguageTag.Some? && !IsBlank(o.defaultLanguageTag.value) ==>
      r.defaultLanguageTag == Some(Trim(o.defaultLanguageTag.value))
    ensures r.defaultLanguageTag.Some? ==> !IsBlank(r.defaultLanguageTag.value)
  {
    match o.defaultLanguageTag
    case None => o
    case Some(tag) =>
      var trimmed := Trim(tag);
      TrimEmptyIffBlank(tag);
      TrimEmptyIffBlank(trimmed);
      o.(defaultLanguageTag := if IsBlank(trimmed) then None else Some(trimmed))
  }

  /** Normalising twice is normalising once. */
  lemma NormalizedLanguageIdempotent(o: LanguageOptions)
    ensures NormalizedLanguage(NormalizedLanguage(o)) == NormalizedLanguage(o)
  {
    if o.defaultLanguageTag.Some? && !IsBlank(o.defaultLanguageTag.value) {
      TrimIdempotent(o.defaultLanguageTag.value);
    }
  }

  /** All options together, and their defaults. */
  datatype StutterOptions = StutterOptions(
    playback: PlaybackOptions,
    textHandling: TextHandlingOptions,
    language: LanguageOptions,
    appearance: AppearanceOptions)

  const DEFAULT_OPTIONS := StutterOptions(DEFAULT_PLAYBACK, DEFAULT_TEXT_HANDLING, DEFAULT_LANGUAGE, DEFAULT_APPEARANCE)
}
