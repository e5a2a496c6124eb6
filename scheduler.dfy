/** The playback scheduler (SchedulerImpl.kt): a per-token delay schedule
    and a state machine over the playback position. The coroutine that
    sleeps until each token's target time is replaced by `Tick(now)`, one
    step of its loop; the clock is the `now` parameter of every operation
    that reads it. */
module Scheduling {
  import opened Text
  import opened Classifier
  import opened Settings

  datatype SchedulerState = Idle | Playing | Paused | Finished

  /** One "now showing token `index`" event. */
  datatype ScheduledToken = ScheduledToken(index: int, token: Token, targetTimeMs: int)

  /** `Float.toLong()`: truncation toward zero. */
  function Truncate(x: real): int {
    if x >= 0.0 then x.Floor else -((-x).Floor)
  }

  /** The truncation is the integer next to `x` on the side of zero. */
  lemma TruncateBounds(x: real)
    ensures x >= 0.0 ==> Truncate(x) >= 0 && Truncate(x) as real <= x < Truncate(x) as real + 1.0
    ensures x < 0.0 ==> Truncate(x) <= 0 && Truncate(x) as real - 1.0 < x <= Truncate(x) as real
  {
  }

  /** One multiplier step: the delay scaled by the multiplier when the flag
      is set. */
  function Scaled(d: real, flag: bool, multiplier: real): real {
    if flag then d * multiplier else d
  }

  /** The slow-start factor of position `index`: the tokens before
      `slowStartCount` are held `slowStartCount - index` times longer. */
  function SlowStartFactor(slowStartCount: int, index: int): (f: int)
    ensures f >= 1
    ensures slowStartCount <= 1 || index >= slowStartCount - 1 ==> f == 1
  {
    if slowStartCount > 1 then Max(1, slowStartCount - index) else 1
  }

  /** The multiplier steps of `computeDelayMs`, in its order: each flag
      of the token with the factor it applies. */
  function FlagSteps(token: Token, options: PlaybackOptions): seq<(bool, real)> {
    [(token.isSentenceEnd, options.sentenceDelay), (token.isOtherPunctuation, options.otherPuncDelay),
     (token.isShortWord, options.shortWordDelay), (token.isLongWord, options.longWordDelay),
     (token.isNumeric, options.numericDelay)]
  }

  /** A delay put through a series of multiplier steps. */
  function ApplySteps(d: real, steps: seq<(bool, real)>): real
    decreases |steps|
  {
    if steps == [] then d else ApplySteps(Scaled(d, steps[0].0, steps[0].1), steps[1..])
  }

  /** The delay of a flagged token before slow start and truncation. */
  function FlaggedDelay(token: Token, options: PlaybackOptions): real
    requires options.wpm > 0
  {
    ApplySteps(60000.0 / options.wpm as real, FlagSteps(token, options))
  }

  /** The delay of the token at position `index` before truncation. */
  function ExactDelay(token: Token, options: PlaybackOptions, index: int): real
    requires options.wpm > 0
  {
    FlaggedDelay(token, options) * SlowStartFactor(options.slowStartCount, index) as real
  }

  /** The delay, in milliseconds, of the token at position `index`. */
  function Delay(token: Token, options: PlaybackOptions, index: int): int
    requires options.wpm > 0
  {
    Truncate(ExactDelay(token, options, index))
  }

  /** The five steps of a token written out one after the other. */
  lemma FlagStepsInOrder(d0: real, token: Token, options: PlaybackOptions)
    ensures ApplySteps(d0, FlagSteps(token, options)) ==
      Scaled(Scaled(Scaled(Scaled(Scaled(d0, token.isSentenceEnd, options.sentenceDelay),
        token.isOtherPunctuation, options.otherPuncDelay), token.isShortWord, options.shortWordDelay),
        token.isLongWord, options.longWordDelay), token.isNumeric, options.numericDelay)
  {
    var steps := FlagSteps(token, options);
    var d1 := Scaled(d0, token.isSentenceEnd, options.sentenceDelay);
    var d2 := Scaled(d1, token.isOtherPunctuation, options.otherPuncDelay);
    var d3 := Scaled(d2, token.isShortWord, options.shortWordDelay);
    var d4 := Scaled(d3, token.isLongWord, options.longWordDelay);
    var d5 := Scaled(d4, token.isNumeric, options.numericDelay);
    assert ApplySteps(d0, steps) == ApplySteps(d1, steps[1..]);
    assert ApplySteps(d1, steps[1..]) == ApplySteps(d2, steps[2..]);
    assert ApplySteps(d2, steps[2..]) == ApplySteps(d3, steps[3..]);
    assert ApplySteps(d3, steps[3..]) == ApplySteps(d4, steps[4..]);
    assert ApplySteps(d4, steps[4..]) == ApplySteps(d5, steps[4..][1..]);
    assert steps[4..][1..] == [];
    assert ApplySteps(d5, []) == d5;
  }

  /** `computeDelayMs`: the base delay of the rate, multiplied by the
      factor of each flag and by the slow-start factor, then truncated. */
  method ComputeDelayMs(token: Token, options: PlaybackOptions, index: int) returns (delayMs: int)
    requires options.wpm > 0
    ensures delayMs == Delay(token, options, index)
  {
    var d := 60000.0 / options.wpm as real;
    FlagStepsInOrder(d, token, options);
    d := Scaled(d, token.isSentenceEnd, options.sentenceDelay);
    d := Scaled(d, token.isOtherPunctuation, options.otherPuncDelay);
    d := Scaled(d, token.isShortWord, options.shortWordDelay);
    d := Scaled(d, token.isLongWord, options.longWordDelay);
    d := Scaled(d, token.isNumeric, options.numericDelay);
    assert d == FlaggedDelay(token, options);
    if options.slowStartCount > 1 {
      var slowStartRemaining := Max(1, options.slowStartCount - index);
      d := d * slowStartRemaining as real;
    } else {
      assert d == d * 1 as real;
    }
    assert d == ExactDelay(token, options, index);
    delayMs := Truncate(d);
  }

  predicate NonNegativeFactors(options: PlaybackOptions) {
    options.sentenceDelay >= 0.0 && options.otherPuncDelay >= 0.0 && options.shortWordDelay >= 0.0 &&
    options.longWordDelay >= 0.0 && options.numericDelay >= 0.0
  }

  /** Non-negative multipliers keep a non-negative delay non-negative. */
  lemma {:induction false} ApplyStepsNonNegative(d: real, steps: seq<(bool, real)>)
    requires d >= 0.0
    requires forall k :: 0 <= k < |steps| ==> steps[k].1 >= 0.0
    ensures ApplySteps(d, steps) >= 0.0
    decreases |steps|
  {
    if steps != [] {
      var next := Scaled(d, steps[0].0, steps[0].1);
      assert next >= 0.0;
      assert forall k :: 0 <= k < |steps[1..]| ==> steps[1..][k] == steps[k + 1];
      ApplyStepsNonNegative(next, steps[1..]);
    }
  }

  /** Steps whose multipliers are all 1 change nothing. */
  lemma {:induction false} ApplyStepsOnes(d: real, steps: seq<(bool, real)>)
    requires forall k :: 0 <= k < |steps| ==> steps[k].1 == 1.0
    ensures ApplySteps(d, steps) == d
    decreases |steps|
  {
    if steps != [] {
      assert Scaled(d, steps[0].0, steps[0].1) == d;
      assert forall k :: 0 <= k < |steps[1..]| ==> steps[1..][k] == steps[k + 1];
      ApplyStepsOnes(d, steps[1..]);
    }
  }

  lemma FlaggedDelayNonNegative(token: Token, options: PlaybackOptions)
    requires options.wpm > 0 && NonNegativeFactors(options)
    ensures FlaggedDelay(token, options) >= 0.0
  {
    ApplyStepsNonNegative(60000.0 / options.wpm as real, FlagSteps(token, options));
  }

  lemma MulNonNeg(p: real, q: real)
    requires p >= 0.0 && q >= 0.0
    ensures p * q >= 0.0
  {
  }

  /** Scaling by a larger factor never gives a shorter truncated delay. */
  lemma ScaledTruncateMonotone(p: real, a: int, b: int)
    requires p >= 0.0 && a >= b >= 0
    ensures Truncate(p * a as real) >= Truncate(p * b as real) >= 0
  {
    var x, y := p * a as real, p * b as real;
    MulNonNeg(p, b as real);
    MulNonNeg(p, (a - b) as real);
    assert x == y + p * (a - b) as real;
    assert x >= y >= 0.0;
    TruncateBounds(x);
    TruncateBounds(y);
  }

  lemma SlowStartFactorMonotone(slowStartCount: int, i: int, j: int)
    requires i <= j
    ensures SlowStartFactor(slowStartCount, i) >= SlowStartFactor(slowStartCount, j)
  {
  }

  /** With non-negative multipliers no delay is negative, and a token
      earlier in the slow-start window waits at least as long as the same
      token later. */
  lemma DelaySlowStart(token: Token, options: PlaybackOptions, i: int, j: int)
    requires options.wpm > 0 && NonNegativeFactors(options) && i <= j
    ensures Delay(token, options, i) >= Delay(token, options, j) >= 0
  {
    var f := FlaggedDelay(token, options);
    var a, b := SlowStartFactor(options.slowStartCount, i), SlowStartFactor(options.slowStartCount, j);
    FlaggedDelayNonNegative(token, options);
    SlowStartFactorMonotone(options.slowStartCount, i, j);
    ScaledTruncateMonotone(f, a, b);
    assert Delay(token, options, i) == Truncate(f * a as real);
    assert Delay(token, options, j) == Truncate(f * b as real);
  }

  /** With every flag factor at 1 and no slow start, each token waits
      `60000 / wpm` milliseconds, truncated: 1000 at 60 words a minute. */
  lemma DelayPlain(token: Token, options: PlaybackOptions, index: int)
    requires options.wpm > 0 && options.slowStartCount <= 1
    requires options.sentenceDelay == options.otherPuncDelay == options.shortWordDelay == 1.0
    requires options.longWordDelay == options.numericDelay == 1.0
    ensures Delay(token, options, index) == Truncate(60000.0 / options.wpm as real)
    ensures options.wpm == 60 ==> Delay(token, options, index) == 1000
  {
    var base := 60000.0 / options.wpm as real;
    ApplyStepsOnes(base, FlagSteps(token, options));
    assert FlaggedDelay(token, options) * 1 as real == base;
  }

  /** The per-token delays (`tokens.mapIndexed { ... }`). */
  function Delays(tokens: seq<Token>, options: PlaybackOptions): (d: seq<int>)
    requires options.wpm > 0
    ensures |d| == |tokens|
    ensures forall i :: 0 <= i < |tokens| ==> d[i] == Delay(tokens[i], options, i)
  {
    seq(|tokens|, i requires 0 <= i < |tokens| => Delay(tokens[i], options, i))
  }

  /** The sum of the first `n` delays. */
  function Sum(d: seq<int>, n: nat): int
    requires n <= |d|
  {
    if n == 0 then 0 else Sum(d, n - 1) + d[n - 1]
  }

  /** The schedule: the offset of each token from the start of playback,
      the sum of the delays of the tokens before it. */
  function Offsets(tokens: seq<Token>, options: PlaybackOptions): seq<int>
    requires options.wpm > 0
  {
    var d := Delays(tokens, options);
    seq(|tokens|, i requires 0 <= i < |tokens| => Sum(d, i))
  }

  /** One offset per token, the first 0, each the previous plus the
      previous token's delay. */
  lemma OffsetsPrefixSum(tokens: seq<Token>, options: PlaybackOptions)
    requires options.wpm > 0
    ensures |Offsets(tokens, options)| == |tokens|
    ensures |tokens| > 0 ==> Offsets(tokens, options)[0] == 0
    ensures forall i :: 0 < i < |tokens| ==>
      Offsets(tokens, options)[i] == Offsets(tokens, options)[i - 1] + Delay(tokens[i - 1], options, i - 1)
  {
  }

  lemma {:induction false} SumMonotone(d: seq<int>, i: nat, j: nat)
    requires i <= j <= |d|
    requires forall k :: 0 <= k < |d| ==> d[k] >= 0
    ensures Sum(d, i) <= Sum(d, j)
    decreases j
  {
    if i < j {
      SumMonotone(d, i, j - 1);
    }
  }

  /** With non-negative multipliers the target times never go backwards. */
  lemma OffsetsNonDecreasing(tokens: seq<Token>, options: PlaybackOptions)
    requires options.wpm > 0 && NonNegativeFactors(options)
    ensures forall i, j :: 0 <= i <= j < |tokens| ==> Offsets(tokens, options)[i] <= Offsets(tokens, options)[j]
  {
    var d := Delays(tokens, options);
    forall k | 0 <= k < |d| ensures d[k] >= 0 {
      DelaySlowStart(tokens[k], options, k, k);
    }
    forall i, j | 0 <= i <= j < |tokens| ensures Offsets(tokens, options)[i] <= Offsets(tokens, options)[j] {
      SumMonotone(d, i, j);
    }
  }

  lemma {:induction false} SumConstant(d: seq<int>, n: nat, c: int)
    requires n <= |d|
    requires forall k :: 0 <= k < |d| ==> d[k] == c
    ensures Sum(d, n) == c * n
  {
    if n > 0 {
      SumConstant(d, n - 1, c);
    }
  }

  /** At 60 words a minute with every factor at 1 and no slow start, token
      `i` is due `1000 * i` milliseconds after the start. */
  lemma OffsetsAtSixtyWpm(tokens: seq<Token>, options: PlaybackOptions)
    requires options.wpm == 60 && options.slowStartCount <= 1
    requires options.sentenceDelay == options.otherPuncDelay == options.shortWordDelay == 1.0
    requires options.longWordDelay == options.numericDelay == 1.0
    ensures forall i :: 0 <= i < |tokens| ==> Offsets(tokens, options)[i] == 1000 * i
  {
    var d := Delays(tokens, options);
    forall k | 0 <= k < |d| ensures d[k] == 1000 {
      DelayPlain(tokens[k], options, k);
    }
    forall i | 0 <= i < |tokens| ensures Offsets(tokens, options)[i] == 1000 * i {
      SumConstant(d, i, 1000);
    }
  }

  /** `computeOffsets`: the delays, then their running sum. */
  method ComputeOffsets(tokens: seq<Token>, options: PlaybackOptions) returns (offsets: seq<int>)
    requires options.wpm > 0
    ensures offsets == Offsets(tokens, options)
  {
    if |tokens| == 0 {
      return [];
    }
    var delays: seq<int> := [];
    for index := 0 to |tokens|
      invariant delays == Delays(tokens, options)[..index]
    {
      var d := ComputeDelayMs(tokens[index], options, index);
      delays := delays + [d];
    }
    assert delays == Delays(tokens, options);
    var running := 0;
    offsets := [0];
    for i := 1 to |tokens|
      invariant running == Sum(delays, i - 1)
      invariant offsets == Offsets(tokens, options)[..i]
    {
      running := running + delays[i - 1];
      offsets := offsets + [running];
    }
    assert offsets == Offsets(tokens, options)[..|tokens|];
  }

  /** `coerceAtMost`. */
  function AtMost(value: int, max: int): (r: int)
    ensures r <= max && r <= value
    ensures r == value || r == max
  {
    if value > max then max else value
  }

  class Scheduler {
    var tokens: seq<Token>
    var options: PlaybackOptions
    var offsets: seq<int>
    var currentIndex: int
    var elapsedOffsetMs: int
    var startTimeMs: int
    var lastEmittedIndex: int
    var state: SchedulerState

    /** The schedule belongs to the current tokens and options; the indices
        are positions of the token list; playback only ever runs or pauses
        on a non-empty list, before its end. */
    ghost predicate Valid()
      reads this
    {
      options.wpm > 0 && offsets == Offsets(tokens, options) &&
      0 <= currentIndex <= |tokens| && -1 <= lastEmittedIndex < |tokens| &&
      (state != Idle ==> |tokens| > 0) &&
      (state == Playing || state == Paused ==> currentIndex < |tokens|)
    }

    constructor()
      ensures Valid()
      ensures tokens == [] && options == DEFAULT_PLAYBACK && offsets == []
      ensures currentIndex == 0 && elapsedOffsetMs == 0 && startTimeMs == 0 && lastEmittedIndex == -1
      ensures state == Idle
    {
      tokens := [];
      options := DEFAULT_PLAYBACK;
      offsets := [];
      currentIndex := 0;
      elapsedOffsetMs := 0;
      startTimeMs := 0;
      lastEmittedIndex := -1;
      state := Idle;
    }

    /** `load`: new tokens and options with their schedule, back at the
        start, idle; any running loop is stopped. */
    method Load(tokens: seq<Token>, options: PlaybackOptions)
      requires options.wpm > 0
      modifies this
      ensures Valid()
      ensures this.tokens == tokens && this.options == options && offsets == Offsets(tokens, options)
      ensures currentIndex == 0 && elapsedOffsetMs == 0 && lastEmittedIndex == -1 && state == Idle
      ensures startTimeMs == old(startTimeMs)
    {
      var newOffsets := ComputeOffsets(tokens, options);
      this.tokens := tokens;
      this.options := options;
      offsets := newOffsets;
      currentIndex := 0;
      elapsedOffsetMs := 0;
      lastEmittedIndex := -1;
      state := Idle;
    }

    /** `startJob`: the loop starts at `now`, as if it had been running for
        the elapsed offset already; with no token left it finishes at once. */
    method StartJob(now: int)
      requires Valid() && |tokens| > 0
      modifies this
      ensures Valid()
      ensures startTimeMs == now - elapsedOffsetMs
      ensures state == (if currentIndex < |tokens| then Playing else Finished)
      ensures tokens == old(tokens) && options == old(options) && offsets == old(offsets)
      ensures currentIndex == old(currentIndex) && elapsedOffsetMs == old(elapsedOffsetMs)
      ensures lastEmittedIndex == old(lastEmittedIndex)
    {
      startTimeMs := now - elapsedOffsetMs;
      state := if currentIndex < |tokens| then Playing else Finished;
    }

    /** The position `updateOptions` keeps, by state: the token shown last
        while playing, the end when finished, else the current position. */
    function BaseIndexForUpdate(): (r: int)
      requires Valid() && |tokens| > 0
      reads this
      ensures 0 <= r < |tokens|
      ensures state == Playing ==> r == Settings.ClampInt(lastEmittedIndex, 0, |tokens| - 1)
      ensures state == Finished ==> r == |tokens| - 1
      ensures state == Paused || state == Idle ==> r == AtMost(currentIndex, |tokens| - 1)
    {
      match state
      case Playing => AtMost(Max(lastEmittedIndex, 0), |tokens| - 1)
      case Paused => AtMost(currentIndex, |tokens| - 1)
      case Finished => |tokens| - 1
      case Idle => AtMost(currentIndex, |tokens| - 1)
    }

    /** `updateOptions`: the options are always replaced; with tokens the
        schedule is recomputed and the position kept, its new offset becoming
        the reference, and a running loop restarts from it, so that the kept
        token is due at once. */
    method UpdateOptions(options: PlaybackOptions, now: int)
      requires Valid() && options.wpm > 0
      modifies this
      ensures Valid()
      ensures this.options == options && tokens == old(tokens)
      ensures |tokens| == 0 ==> (offsets == old(offsets) && currentIndex == old(currentIndex) &&
        elapsedOffsetMs == old(elapsedOffsetMs) && startTimeMs == old(startTimeMs) &&
        lastEmittedIndex == old(lastEmittedIndex) && state == old(state))
      ensures |tokens| > 0 ==> (offsets == Offsets(tokens, options) &&
        currentIndex == old(BaseIndexForUpdate()) && elapsedOffsetMs == offsets[currentIndex] &&
        lastEmittedIndex == -1 && state == old(state))
      ensures |tokens| > 0 && old(state) == Playing ==> startTimeMs == now - elapsedOffsetMs
      ensures |tokens| > 0 && old(state) != Playing ==> startTimeMs == old(startTimeMs)
      ensures |tokens| > 0 && old(state) == Playing ==> startTimeMs + offsets[currentIndex] == now
    {
      if |tokens| == 0 {
        this.options := options;
        return;
      }
      var baseIndex := BaseIndexForUpdate();
      this.options := options;
      var newOffsets := ComputeOffsets(tokens, options);
      var wasPlaying := state == Playing;
      offsets := newOffsets;
      currentIndex := baseIndex;
      elapsedOffsetMs := offsets[currentIndex];
      lastEmittedIndex := -1;
      if wasPlaying {
        StartJob(now);
      }
    }

    /** `play`: nothing without tokens or while playing; from the end it
        starts over; otherwise it goes on from the current position. */
    method Play(now: int)
      requires Valid()
      modifies this
      ensures Valid()
      ensures tokens == old(tokens) && options == old(options) && offsets == old(offsets)
      ensures lastEmittedIndex == old(lastEmittedIndex)
      ensures |tokens| == 0 || old(state) == Playing ==> (
        currentIndex == old(currentIndex) && elapsedOffsetMs == old(elapsedOffsetMs) &&
        startTimeMs == old(startTimeMs) && state == old(state))
      ensures |tokens| > 0 && old(state) == Finished ==> currentIndex == 0 && elapsedOffsetMs == 0
      ensures |tokens| > 0 && (old(state) == Idle || old(state) == Paused) ==> (
        currentIndex == old(currentIndex) && elapsedOffsetMs == old(elapsedOffsetMs))
      ensures |tokens| > 0 && old(state) != Playing ==> (
        startTimeMs == now - elapsedOffsetMs && state == (if currentIndex < |tokens| then Playing else Finished))
    {
      if |tokens| == 0 {
        return;
      }
      if state == Playing {
        return;
      }
      if state == Finished {
        currentIndex := 0;
        elapsedOffsetMs := 0;
      }
      StartJob(now);
    }

    /** `pause`: only while playing; keeps how far playback had got, never
        less than nothing, and the position. */
    method Pause(now: int)
      requires Valid()
      modifies this
      ensures Valid()
      ensures tokens == old(tokens) && options == old(options) && offsets == old(offsets)
      ensures currentIndex == old(currentIndex) && lastEmittedIndex == old(lastEmittedIndex)
      ensures startTimeMs == old(startTimeMs)
      ensures old(state) != Playing ==> elapsedOffsetMs == old(elapsedOffsetMs) && state == old(state)
      ensures old(state) == Playing ==> elapsedOffsetMs == Max(0, now - startTimeMs) && state == Paused
    {
      if state != Playing {
        return;
      }
      elapsedOffsetMs := Max(0, now - startTimeMs);
      state := Paused;
    }

    /** `resume`: only while paused; the loop goes on from the position
        and the elapsed offset where it stopped. */
    method Resume(now: int)
      requires Valid()
      modifies this
      ensures Valid()
      ensures tokens == old(tokens) && options == old(options) && offsets == old(offsets)
      ensures currentIndex == old(currentIndex) && lastEmittedIndex == old(lastEmittedIndex)
      ensures elapsedOffsetMs == old(elapsedOffsetMs)
      ensures old(state) != Paused ==> startTimeMs == old(startTimeMs) && state == old(state)
      ensures old(state) == Paused ==> startTimeMs == now - elapsedOffsetMs && state == Playing
    {
      if state != Paused {
        return;
      }
      StartJob(now);
    }

    /** `restart`: with tokens, back to the first one with no history, and
        playing. */
    method Restart(now: int)
      requires Valid()
      modifies this
      ensures Valid()
      ensures tokens == old(tokens) && options == old(options) && offsets == old(offsets)
      ensures |tokens| == 0 ==> (currentIndex == old(currentIndex) && elapsedOffsetMs == old(elapsedOffsetMs) &&
        lastEmittedIndex == old(lastEmittedIndex) && startTimeMs == old(startTimeMs) && state == old(state))
      ensures |tokens| > 0 ==> (currentIndex == 0 && elapsedOffsetMs == 0 && lastEmittedIndex == -1 &&
        startTimeMs == now && state == Playing)
    {
      if |tokens| == 0 {
        return;
      }
      currentIndex := 0;
      elapsedOffsetMs := 0;
      lastEmittedIndex := -1;
      StartJob(now);
    }

    /** The position a skip moves from: the token shown last while playing,
        else the current position. */
    function SkipBase(): int
      reads this
    {
      if state == Playing && lastEmittedIndex >= 0 then lastEmittedIndex else currentIndex
    }

    /** `skipBy`: with tokens, move by `delta` from the skip base, clamped
        to the list, with the offset of the new position; a running loop
        restarts there, so that the new token is due at once. */
    method SkipBy(delta: int, now: int)
      requires Valid()
      modifies this
      ensures Valid()
      ensures tokens == old(tokens) && options == old(options) && offsets == old(offsets) && state == old(state)
      ensures |tokens| == 0 ==> (currentIndex == old(currentIndex) && elapsedOffsetMs == old(elapsedOffsetMs) &&
        lastEmittedIndex == old(lastEmittedIndex) && startTimeMs == old(startTimeMs))
      ensures |tokens| > 0 ==> (currentIndex == Settings.ClampInt(old(SkipBase()) + delta, 0, |tokens| - 1) &&
        elapsedOffsetMs == offsets[currentIndex] && lastEmittedIndex == -1)
      ensures |tokens| > 0 && old(state) == Playing ==> (startTimeMs == now - elapsedOffsetMs &&
        startTimeMs + offsets[currentIndex] == now)
      ensures |tokens| > 0 && old(state) != Playing ==> startTimeMs == old(startTimeMs)
    {
      if |tokens| == 0 {
        return;
      }
      var baseIndex := SkipBase();
      currentIndex := Settings.ClampInt(baseIndex + delta, 0, |tokens| - 1);
      elapsedOffsetMs := offsets[currentIndex];
      lastEmittedIndex := -1;
      if state == Playing {
        StartJob(now);
      }
    }

    /** `skipForward`. */
    method SkipForward(now: int)
      requires Valid()
      modifies this
      ensures Valid()
      ensures tokens == old(tokens) && options == old(options) && offsets == old(offsets) && state == old(state)
      ensures |tokens| == 0 ==> (currentIndex == old(currentIndex) && elapsedOffsetMs == old(elapsedOffsetMs) &&
        lastEmittedIndex == old(lastEmittedIndex) && startTimeMs == old(startTimeMs))
      ensures |tokens| > 0 ==> (currentIndex == Settings.ClampInt(old(SkipBase()) + options.skipCount, 0, |tokens| - 1) &&
        elapsedOffsetMs == offsets[currentIndex] && lastEmittedIndex == -1)
      ensures |tokens| > 0 && old(state) == Playing ==> startTimeMs == now - elapsedOffsetMs
      ensures |tokens| > 0 && old(state) != Playing ==> startTimeMs == old(startTimeMs)
    {
      SkipBy(options.skipCount, now);
    }

    /** `skipBack`. */
    method SkipBack(now: int)
      requires Valid()
      modifies this
      ensures Valid()
      ensures tokens == old(tokens) && options == old(options) && offsets == old(offsets) && state == old(state)
      ensures |tokens| == 0 ==> (currentIndex == old(currentIndex) && elapsedOffsetMs == old(elapsedOffsetMs) &&
        lastEmittedIndex == old(lastEmittedIndex) && startTimeMs == old(startTimeMs))
      ensures |tokens| > 0 ==> (currentIndex == Settings.ClampInt(old(SkipBase()) - options.skipCount, 0, |tokens| - 1) &&
        elapsedOffsetMs == offsets[currentIndex] && lastEmittedIndex == -1)
      ensures |tokens| > 0 && old(state) == Playing ==> startTimeMs == now - elapsedOffsetMs
      ensures |tokens| > 0 && old(state) != Playing ==> startTimeMs == old(startTimeMs)
    {
      SkipBy(-options.skipCount, now);
    }

    /** One step of the loop of `startJob` at time `now`: while playing and
        once the current token's target time has come, emit it with that
        target (the start reference plus its offset), remember it as shown,
        move on, and finish after the last token. Otherwise nothing. */
    method Tick(now: int) returns (event: Option<ScheduledToken>)
      requires Valid()
      modifies this
      ensures Valid()
      ensures tokens == old(tokens) && options == old(options) && offsets == old(offsets)
      ensures elapsedOffsetMs == old(elapsedOffsetMs) && startTimeMs == old(startTimeMs)
      ensures old(state) != Playing || now < old(startTimeMs + offsets[currentIndex]) ==> (
        event == None && currentIndex == old(currentIndex) && lastEmittedIndex == old(lastEmittedIndex) &&
        state == old(state))
      ensures old(state) == Playing && old(startTimeMs + offsets[currentIndex]) <= now ==> (
        event == Some(ScheduledToken(old(currentIndex), tokens[old(currentIndex)], startTimeMs + offsets[old(currentIndex)])) &&
        lastEmittedIndex == old(currentIndex) && currentIndex == old(currentIndex) + 1 &&
        state == (if currentIndex == |tokens| then Finished else Playing))
    {
      if state != Playing {
        return None;
      }
      var targetTime := startTimeMs + offsets[currentIndex];
      if now < targetTime {
        return None;
      }
      event := Some(ScheduledToken(currentIndex, tokens[currentIndex], targetTime));
      lastEmittedIndex := currentIndex;
      currentIndex := currentIndex + 1;
      if currentIndex == |tokens| {
        state := Finished;
      }
    }
  }

  /** Pausing at `t1` and resuming at `t2` moves every later target time by
      exactly the paused time `t2 - t1`, and keeps the position. */
  method PauseThenResume(s: Scheduler, t1: int, t2: int)
    requires s.Valid() && s.state == Playing && s.startTimeMs <= t1
    modifies s
    ensures s.Valid() && s.state == Playing
    ensures s.currentIndex == old(s.currentIndex) && s.lastEmittedIndex == old(s.lastEmittedIndex)
    ensures s.offsets == old(s.offsets)
    ensures s.startTimeMs == old(s.startTimeMs) + (t2 - t1)
  {
    s.Pause(t1);
    s.Resume(t2);
  }

  /** The playback options of the scheduler's unit tests: 60 words a minute,
      no slow start and every factor 1, so each token waits one second. */
  const PLAIN_SIXTY_WPM := DEFAULT_PLAYBACK.(wpm := 60, slowStartCount := 1, sentenceDelay := 1.0,
    otherPuncDelay := 1.0, shortWordDelay := 1.0, longWordDelay := 1.0, numericDelay := 1.0)

  /** Three tokens played from time 0 come out in order, each due one
      second after the one before: targets 0, 1000 and 2000. */
  method EmitsTokensInOrder(tokens: seq<Token>) returns (events: seq<ScheduledToken>)
    requires |tokens| == 3
    ensures |events| == 3
    ensures forall k :: 0 <= k < 3 ==> events[k].index == k && events[k].token == tokens[k]
    ensures forall k :: 0 <= k < 3 ==> events[k].targetTimeMs == 1000 * k
  {
    var s := new Scheduler();
    s.Load(tokens, PLAIN_SIXTY_WPM);
    OffsetsAtSixtyWpm(tokens, PLAIN_SIXTY_WPM);
    s.Play(0);
    var e0 := s.Tick(0);
    var e1 := s.Tick(1000);
    var e2 := s.Tick(2000);
    events := [e0.value, e1.value, e2.value];
    assert s.state == Finished;
  }

  /** Play at 0, pause at 0 after the first token, resume at 2000: nothing
      comes while paused, and the second token is due one second after the
      resume. */
  method PauseResumePreservesIndex(tokens: seq<Token>) returns (events: seq<ScheduledToken>)
    requires |tokens| == 2
    ensures |events| == 2
    ensures events[0].index == 0 && events[1].index == 1
    ensures events[0].targetTimeMs == 0 && events[1].targetTimeMs == 3000
  {
    var s := new Scheduler();
    s.Load(tokens, PLAIN_SIXTY_WPM);
    OffsetsAtSixtyWpm(tokens, PLAIN_SIXTY_WPM);
    s.Play(0);
    var e0 := s.Tick(0);
    s.Pause(0);
    var none := s.Tick(2000);
    assert none == None;
    s.Resume(2000);
    var early := s.Tick(2999);
    assert early == None;
    var e1 := s.Tick(3000);
    events := [e0.value, e1.value];
  }

  /** A restart after the first token shows the first token again. */
  method RestartResetsToZero(tokens: seq<Token>) returns (events: seq<ScheduledToken>)
    requires |tokens| == 2
    ensures |events| == 2
    ensures events[0].index == 0 && events[1].index == 0
  {
    var s := new Scheduler();
    s.Load(tokens, PLAIN_SIXTY_WPM);
    OffsetsAtSixtyWpm(tokens, PLAIN_SIXTY_WPM);
    s.Play(0);
    var e0 := s.Tick(0);
    s.Restart(0);
    var e1 := s.Tick(0);
    events := [e0.value, e1.value];
  }

  /** With a skip count of 2 over four tokens: a skip forward before
      playing starts at the third token, and a skip back after it is shown
      returns to the first. */
  method SkipForwardBackward(tokens: seq<Token>) returns (events: seq<ScheduledToken>)
    requires |tokens| == 4
    ensures |events| == 2
    ensures events[0].index == 2 && events[1].index == 0
  {
    var s := new Scheduler();
    var options := PLAIN_SIXTY_WPM.(skipCount := 2);
    s.Load(tokens, options);
    OffsetsAtSixtyWpm(tokens, options);
    s.SkipForward(0);
    s.Play(0);
    var e0 := s.Tick(0);
    s.SkipBack(0);
    var e1 := s.Tick(0);
    events := [e0.value, e1.value];
  }
}
