/** Grouping of word segments into display tokens (IcuTokenizer.kt). Languages
    written with spaces group maximal runs of non-whitespace segments; the
    languages written without spaces group a word with the punctuation
    around it. */
module Tokenizer {
  import opened Text
  import opened Locales
  import opened Segments
  import opened Classifier

  /** The languages whose text is not delimited by spaces. */
  const NO_SPACE_LANGUAGES: set<String> := {"ja", "zh", "th", "lo", "km", "my"}

  // ---------------------------------------------------------------------
  // Space-delimited mode

  /** The runs of segments between whitespace segments: one more run than
      there are whitespace segments, and none of them holds whitespace. */
  function Runs(segs: seq<Segment>): (r: seq<seq<Segment>>)
    ensures |r| >= 1
  {
    if segs == [] then [[]]
    else
      var rest := Runs(segs[1..]);
      if segs[0].isWhitespace then [[]] + rest else [[segs[0]] + rest[0]] + rest[1..]
  }

  function RunTexts(runs: seq<seq<Segment>>): (r: seq<String>)
    ensures |r| == |runs|
    ensures forall k :: 0 <= k < |runs| ==> r[k] == Concat(Texts(runs[k]))
  {
    if runs == [] then [] else [Concat(Texts(runs[0]))] + RunTexts(runs[1..])
  }

  /** The tokens of the space-delimited mode: the non-empty concatenations of
      the runs of non-whitespace segments. */
  function SpaceTokens(segs: seq<Segment>): seq<String> {
    NonEmpty(RunTexts(Runs(segs)))
  }

  /** `tokenizeSpaceDelimited`: a buffer collects segment texts and is flushed
      at every whitespace segment and at the end. */
  method TokenizeSpaceDelimited(segs: seq<Segment>) returns (tokens: seq<String>)
    ensures tokens == SpaceTokens(segs)
  {
    tokens := [];
    var buffer: String := [];
    var i := 0;
    SpaceStart(segs);
    while i < |segs|
      invariant 0 <= i <= |segs|
      invariant tokens + SpaceProgress(segs[i..], buffer) == SpaceTokens(segs)
    {
      assert segs[i..][1..] == segs[i + 1..];
      if segs[i].isWhitespace {
        SpaceStepWhitespace(segs[i..], buffer);
        NonEmptySingle(buffer);
        if buffer != [] {
          assert tokens + ([buffer] + SpaceProgress(segs[i + 1..], [])) ==
            (tokens + [buffer]) + SpaceProgress(segs[i + 1..], []);
          tokens := tokens + [buffer];
          buffer := [];
        } else {
          assert [] + SpaceProgress(segs[i + 1..], []) == SpaceProgress(segs[i + 1..], []);
        }
        i := i + 1;
        continue;
      }
      SpaceStepSegment(segs[i..], buffer);
      buffer := buffer + segs[i].text;
      i := i + 1;
    }
    SpaceEnd(buffer);
    NonEmptySingle(buffer);
    if buffer != [] {
      tokens := tokens + [buffer];
    } else {
      assert tokens + [] == tokens;
    }
  }

  lemma NonEmptySingle(x: String)
    ensures NonEmpty([x]) == if x == [] then [] else [x]
  {
    assert [x][1..] == [];
  }

  /** The tokens still to come when `buffer` has been collected and `rest`
      remains: the buffer joins the first run. */
  function SpaceProgress(rest: seq<Segment>, buffer: String): seq<String> {
    var runs := Runs(rest);
    NonEmpty([buffer + Concat(Texts(runs[0]))] + RunTexts(runs[1..]))
  }

  lemma SpaceStart(segs: seq<Segment>)
    ensures SpaceProgress(segs, []) == SpaceTokens(segs)
  {
    var runs := Runs(segs);
    assert [] + Concat(Texts(runs[0])) == Concat(Texts(runs[0]));
    assert RunTexts(runs) == [Concat(Texts(runs[0]))] + RunTexts(runs[1..]);
  }

  lemma SpaceEnd(buffer: String)
    ensures SpaceProgress([], buffer) == NonEmpty([buffer])
  {
    assert Runs([]) == [[]];
    assert Concat(Texts([])) == [];
    assert buffer + [] == buffer;
    assert RunTexts([]) == [];
    assert [buffer] + [] == [buffer];
  }

  /** A whitespace segment flushes the buffer. */
  lemma SpaceStepWhitespace(rest: seq<Segment>, buffer: String)
    requires rest != [] && rest[0].isWhitespace
    ensures SpaceProgress(rest, buffer) == NonEmpty([buffer]) + SpaceProgress(rest[1..], [])
  {
    var after := Runs(rest[1..]);
    assert Runs(rest) == [[]] + after;
    assert Concat(Texts([])) == [];
    assert buffer + [] == buffer;
    assert [] + Concat(Texts(after[0])) == Concat(Texts(after[0]));
    assert RunTexts(after) == [Concat(Texts(after[0]))] + RunTexts(after[1..]);
    assert ([[]] + after)[1..] == after;
    assert [buffer] + RunTexts(after) == [buffer] + ([Concat(Texts(after[0]))] + RunTexts(after[1..]));
    NonEmptyAppend([buffer], [Concat(Texts(after[0]))] + RunTexts(after[1..]));
  }

  /** Any other segment is appended to the buffer. */
  lemma SpaceStepSegment(rest: seq<Segment>, buffer: String)
    requires rest != [] && !rest[0].isWhitespace
    ensures SpaceProgress(rest, buffer) == SpaceProgress(rest[1..], buffer + rest[0].text)
  {
    var after := Runs(rest[1..]);
    var first := [rest[0]] + after[0];
    assert Runs(rest) == [first] + after[1..];
    assert Texts(first) == [rest[0].text] + Texts(after[0]);
    assert Concat(Texts(first)) == rest[0].text + Concat(Texts(after[0]));
    assert buffer + Concat(Texts(first)) == (buffer + rest[0].text) + Concat(Texts(after[0]));
  }

  /** No run holds a whitespace segment. */
  lemma {:induction false} RunsHaveNoWhitespace(segs: seq<Segment>)
    ensures forall k, j :: 0 <= k < |Runs(segs)| && 0 <= j < |Runs(segs)[k]| ==> !Runs(segs)[k][j].isWhitespace
  {
    if segs != [] {
      RunsHaveNoWhitespace(segs[1..]);
    }
  }

  /** A run followed by a whitespace segment is one token (when not empty),
      and the tokens of what follows come after it. */
  lemma RunThenWhitespace(run: seq<Segment>, w: Segment, rest: seq<Segment>)
    requires forall k :: 0 <= k < |run| ==> !run[k].isWhitespace
    requires w.isWhitespace
    ensures SpaceTokens(run + [w] + rest) == NonEmpty([Concat(Texts(run))]) + SpaceTokens(rest)
  {
    var tail := [w] + rest;
    assert run + [w] + rest == run + tail;
    RunThenRest(run, tail);
    WhitespaceThenRest(w, rest, Concat(Texts(run)));
  }

  lemma RunThenRest(run: seq<Segment>, tail: seq<Segment>)
    requires forall k :: 0 <= k < |run| ==> !run[k].isWhitespace
    ensures SpaceTokens(run + tail) == SpaceProgress(tail, Concat(Texts(run)))
  {
    SpaceStart(run + tail);
    RunPrefix(run, tail, []);
    assert [] + Concat(Texts(run)) == Concat(Texts(run));
  }

  lemma WhitespaceThenRest(w: Segment, rest: seq<Segment>, buffer: String)
    requires w.isWhitespace
    ensures SpaceProgress([w] + rest, buffer) == NonEmpty([buffer]) + SpaceTokens(rest)
  {
    assert ([w] + rest)[1..] == rest;
    SpaceStepWhitespace([w] + rest, buffer);
    SpaceStart(rest);
  }

  /** Collecting a run of non-whitespace segments appends their texts to
      the buffer. */
  lemma {:induction false} RunPrefix(run: seq<Segment>, rest: seq<Segment>, buffer: String)
    requires forall k :: 0 <= k < |run| ==> !run[k].isWhitespace
    ensures SpaceProgress(run + rest, buffer) == SpaceProgress(rest, buffer + Concat(Texts(run)))
    decreases |run|
  {
    if run == [] {
      assert run + rest == rest;
      assert Concat(Texts(run)) == [];
      assert buffer + [] == buffer;
    } else {
      assert (run + rest)[1..] == run[1..] + rest;
      SpaceStepSegment(run + rest, buffer);
      RunPrefix(run[1..], rest, buffer + run[0].text);
      assert Texts(run) == [run[0].text] + Texts(run[1..]);
      assert buffer + run[0].text + Concat(Texts(run[1..])) == buffer + Concat(Texts(run));
    }
  }

  /** A final run of non-whitespace segments is the last token. */
  lemma LastRun(run: seq<Segment>)
    requires forall k :: 0 <= k < |run| ==> !run[k].isWhitespace
    ensures SpaceTokens(run) == NonEmpty([Concat(Texts(run))])
  {
    assert run + [] == run;
    RunPrefix(run, [], []);
    SpaceStart(run);
    SpaceEnd([] + Concat(Texts(run)));
    assert [] + Concat(Texts(run)) == Concat(Texts(run));
  }

  /** The segments the space-delimited mode keeps. */
  function NonWhitespace(segs: seq<Segment>): (r: seq<Segment>)
    ensures forall k :: 0 <= k < |r| ==> !r[k].isWhitespace
  {
    if segs == [] then []
    else (if segs[0].isWhitespace then [] else [segs[0]]) + NonWhitespace(segs[1..])
  }

  function WhitespaceCount(segs: seq<Segment>): nat {
    if segs == [] then 0 else (if segs[0].isWhitespace then 1 else 0) + WhitespaceCount(segs[1..])
  }

  /** The runs are exactly separated by the whitespace segments, and laid end
      to end they are the non-whitespace segments in order. */
  lemma {:induction false} RunsSplitAtWhitespace(segs: seq<Segment>)
    ensures |Runs(segs)| == WhitespaceCount(segs) + 1
    ensures Concat(RunTexts(Runs(segs))) == Concat(Texts(NonWhitespace(segs)))
  {
    if segs != [] {
      RunsSplitAtWhitespace(segs[1..]);
      if segs[0].isWhitespace {
        RunsWhitespaceStep(segs);
      } else {
        RunsSegmentStep(segs);
      }
    }
  }

  lemma RunsWhitespaceStep(segs: seq<Segment>)
    requires segs != [] && segs[0].isWhitespace
    requires Concat(RunTexts(Runs(segs[1..]))) == Concat(Texts(NonWhitespace(segs[1..])))
    ensures Concat(RunTexts(Runs(segs))) == Concat(Texts(NonWhitespace(segs)))
  {
    var rest := Runs(segs[1..]);
    assert NonWhitespace(segs) == NonWhitespace(segs[1..]);
    assert Runs(segs) == [[]] + rest;
    ConcatRunTextsCons([[]] + rest);
    assert ([[]] + rest)[1..] == rest;
  }

  lemma RunsSegmentStep(segs: seq<Segment>)
    requires segs != [] && !segs[0].isWhitespace
    requires Concat(RunTexts(Runs(segs[1..]))) == Concat(Texts(NonWhitespace(segs[1..])))
    ensures Concat(RunTexts(Runs(segs))) == Concat(Texts(NonWhitespace(segs)))
  {
    var rest := Runs(segs[1..]);
    var nw := NonWhitespace(segs[1..]);
    assert NonWhitespace(segs) == [segs[0]] + nw;
    var first := [segs[0]] + rest[0];
    var runs := [first] + rest[1..];
    assert Runs(segs) == runs;
    assert runs[0] == first && runs[1..] == rest[1..];
    ConcatRunTextsCons(runs);
    ConcatTextsCons(segs[0], rest[0]);
    ConcatRunTextsCons(rest);
    ConcatTextsCons(segs[0], nw);
    var x, y := Concat(Texts(rest[0])), Concat(RunTexts(rest[1..]));
    assert Concat(RunTexts(runs)) == (segs[0].text + x) + y;
    assert Concat(RunTexts(rest)) == x + y;
    AppendAssoc(segs[0].text, x, y);
  }

  lemma ConcatRunTextsCons(runs: seq<seq<Segment>>)
    requires runs != []
    ensures Concat(RunTexts(runs)) == Concat(Texts(runs[0])) + Concat(RunTexts(runs[1..]))
  {
  }

  lemma ConcatTextsCons(s: Segment, rest: seq<Segment>)
    ensures Concat(Texts([s] + rest)) == s.text + Concat(Texts(rest))
  {
    assert ([s] + rest)[1..] == rest;
  }

  /** Space-delimited tokens are never empty and concatenate to the
      non-whitespace segments. */
  lemma SpaceTokensCover(segs: seq<Segment>)
    ensures forall k :: 0 <= k < |SpaceTokens(segs)| ==> SpaceTokens(segs)[k] != []
    ensures Concat(SpaceTokens(segs)) == Concat(Texts(NonWhitespace(segs)))
  {
    NonEmptyConcat(RunTexts(Runs(segs)));
    RunsSplitAtWhitespace(segs);
  }

  /** Without whitespace segments the whole text is one token (the German
      compound stays whole). */
  lemma SingleRunIsOneToken(segs: seq<Segment>)
    requires forall k :: 0 <= k < |segs| ==> !segs[k].isWhitespace
    requires Concat(Texts(segs)) != []
    ensures SpaceTokens(segs) == [Concat(Texts(segs))]
  {
    LastRun(segs);
  }

  // ---------------------------------------------------------------------
  // Non-space-delimited mode

  /** A segment that can be the core of a token. */
  predicate IsCore(s: Segment) {
    !s.isWhitespace && !IsTrivialPunctuation(s)
  }

  /** End of the prefix of a group starting at `i`: a trivial punctuation
      segment joins it only when the next segment is a core. */
  function PrefixEnd(segs: seq<Segment>, i: nat): nat
    requires i < |segs|
  {
    if IsTrivialPunctuation(segs[i]) && i + 1 < |segs| && IsCore(segs[i + 1]) then i + 1 else i
  }

  /** End of the core: one core segment, if there is one at `p`. */
  function CoreEnd(segs: seq<Segment>, p: nat): nat
    requires p <= |segs|
  {
    if p < |segs| && IsCore(segs[p]) then p + 1 else p
  }

  /** End of the suffix: every trivial punctuation segment from `c` on. */
  function SuffixEnd(segs: seq<Segment>, c: nat): (r: nat)
    requires c <= |segs|
    ensures c <= r <= |segs|
    ensures forall k :: c <= k < r ==> IsTrivialPunctuation(segs[k])
    ensures r < |segs| ==> !IsTrivialPunctuation(segs[r])
    decreases |segs| - c
  {
    if c < |segs| && IsTrivialPunctuation(segs[c]) then SuffixEnd(segs, c + 1) else c
  }

  /** End of the group of segments that makes one token, starting at a
      non-whitespace segment; every group takes at least one segment. */
  function GroupEnd(segs: seq<Segment>, i: nat): (r: nat)
    requires i < |segs| && !segs[i].isWhitespace
    ensures i < r <= |segs|
  {
    SuffixEnd(segs, CoreEnd(segs, PrefixEnd(segs, i)))
  }

  function GroupText(segs: seq<Segment>, a: nat, b: nat): String
    requires a <= b <= |segs|
  {
    Concat(Texts(segs[a..b]))
  }

  /** The groups from `i` on, as `(start, end)` pairs, whitespace skipped. */
  function GroupsFrom(segs: seq<Segment>, i: nat): (gs: seq<(nat, nat)>)
    requires i <= |segs|
    ensures forall k :: 0 <= k < |gs| ==> i <= gs[k].0 < gs[k].1 <= |segs|
    decreases |segs| - i
  {
    if i == |segs| then []
    else if segs[i].isWhitespace then GroupsFrom(segs, i + 1)
    else [(i, GroupEnd(segs, i))] + GroupsFrom(segs, GroupEnd(segs, i))
  }

  /** The trimmed texts of the groups. */
  function GroupTokens(segs: seq<Segment>, gs: seq<(nat, nat)>): (r: seq<String>)
    requires forall k :: 0 <= k < |gs| ==> gs[k].0 <= gs[k].1 <= |segs|
    ensures |r| == |gs|
    ensures forall k :: 0 <= k < |gs| ==> r[k] == Trim(GroupText(segs, gs[k].0, gs[k].1))
  {
    if gs == [] then [] else [Trim(GroupText(segs, gs[0].0, gs[0].1))] + GroupTokens(segs, gs[1..])
  }

  /** The tokens of the non-space-delimited mode from segment `i` on. */
  function NonSpaceTokensFrom(segs: seq<Segment>, i: nat): seq<String>
    requires i <= |segs|
  {
    NonEmpty(GroupTokens(segs, GroupsFrom(segs, i)))
  }

  function NonSpaceTokens(segs: seq<Segment>): seq<String> {
    NonSpaceTokensFrom(segs, 0)
  }

  lemma GroupTextSnoc(segs: seq<Segment>, a: nat, b: nat)
    requires a <= b < |segs|
    ensures GroupText(segs, a, b + 1) == GroupText(segs, a, b) + segs[b].text
  {
    assert segs[a..b + 1] == segs[a..b] + [segs[b]];
    TextsAppend(segs[a..b], [segs[b]]);
    assert Texts([segs[b]]) == [segs[b].text];
    ConcatSnoc(Texts(segs[a..b]), segs[b].text);
  }

  lemma GroupTextSplit(segs: seq<Segment>, a: nat, b: nat, c: nat)
    requires a <= b <= c <= |segs|
    ensures GroupText(segs, a, c) == GroupText(segs, a, b) + GroupText(segs, b, c)
  {
    assert segs[a..c] == segs[a..b] + segs[b..c];
    TextsAppend(segs[a..b], segs[b..c]);
    ConcatAppend(Texts(segs[a..b]), Texts(segs[b..c]));
  }

  lemma GroupTextOne(segs: seq<Segment>, a: nat)
    requires a < |segs|
    ensures GroupText(segs, a, a + 1) == segs[a].text
  {
    GroupTextSnoc(segs, a, a);
  }

  /** How the tokens from a non-whitespace segment start: the trimmed text of
      its group, when not empty, then the tokens after the group. */
  lemma NonSpaceTokensStep(segs: seq<Segment>, i: nat)
    requires i < |segs| && !segs[i].isWhitespace
    ensures NonSpaceTokensFrom(segs, i) ==
      NonEmpty([Trim(GroupText(segs, i, GroupEnd(segs, i)))]) + NonSpaceTokensFrom(segs, GroupEnd(segs, i))
  {
    var e := GroupEnd(segs, i);
    var gs := GroupsFrom(segs, e);
    assert GroupTokens(segs, [(i, e)] + gs) == [Trim(GroupText(segs, i, e))] + GroupTokens(segs, gs) by {
      assert ([(i, e)] + gs)[1..] == gs;
    }
    NonEmptyAppend([Trim(GroupText(segs, i, e))], GroupTokens(segs, gs));
  }

  /** `tokenizeNonSpaceDelimited`: each turn of the outer loop skips one
      whitespace segment or takes one group. */
  method TokenizeNonSpaceDelimited(segs: seq<Segment>) returns (tokens: seq<String>)
    ensures tokens == NonSpaceTokens(segs)
  {
    tokens := [];
    var i := 0;
    while i < |segs|
      invariant 0 <= i <= |segs|
      invariant tokens + NonSpaceTokensFrom(segs, i) == NonSpaceTokens(segs)
      decreases |segs| - i
    {
      if segs[i].isWhitespace {
        i := i + 1;
        continue;
      }
      ghost var start := i;
      var token;
      token, i := TakeGroup(segs, i);
      NonSpaceTokensStep(segs, start);
      NonEmptySingle(token);
      if token != [] {
        assert tokens + ([token] + NonSpaceTokensFrom(segs, i)) == (tokens + [token]) + NonSpaceTokensFrom(segs, i);
        tokens := tokens + [token];
      } else {
        assert [] + NonSpaceTokensFrom(segs, i) == NonSpaceTokensFrom(segs, i);
      }
    }
  }

  /** One turn of the outer loop of `tokenizeNonSpaceDelimited` from a
      non-whitespace segment: at most one leading punctuation segment, the
      core, the trailing punctuation, and the trimmed text of the three. */
  method TakeGroup(segs: seq<Segment>, start: nat) returns (token: String, i: nat)
    requires start < |segs| && !segs[start].isWhitespace
    ensures i == GroupEnd(segs, start)
    ensures token == Trim(GroupText(segs, start, i))
  {
    i := start;
    var prefix: String := [];
    var core: String := [];
    var suffix: String := [];
    while i < |segs| && IsTrivialPunctuation(segs[i])
      invariant start <= i <= start + 1
      invariant i == start ==> prefix == []
      invariant i == start + 1 ==> PrefixEnd(segs, start) == i && prefix == segs[start].text
    {
      if i + 1 < |segs| && IsCore(segs[i + 1]) {
        prefix := prefix + segs[i].text;
        i := i + 1;
      } else {
        break;
      }
    }
    ghost var p := i;
    assert p == PrefixEnd(segs, start);
    assert prefix == GroupText(segs, start, p) by {
      if p == start + 1 {
        GroupTextOne(segs, start);
      }
    }
    if i < |segs| && IsCore(segs[i]) {
      core := segs[i].text;
      GroupTextOne(segs, i);
      i := i + 1;
    }
    ghost var c := i;
    assert core == GroupText(segs, p, c);
    while i < |segs| && IsTrivialPunctuation(segs[i])
      invariant c <= i <= |segs|
      invariant forall k :: c <= k < i ==> IsTrivialPunctuation(segs[k])
      invariant suffix == GroupText(segs, c, i)
    {
      GroupTextSnoc(segs, c, i);
      suffix := suffix + segs[i].text;
      i := i + 1;
    }
    SuffixEndUnique(segs, c, i);
    GroupTextSplit(segs, start, p, c);
    GroupTextSplit(segs, start, c, i);
    token := Trim(prefix + core + suffix);
  }

  /** The suffix ends at the first segment that is not trivial punctuation. */
  lemma {:induction false} SuffixEndUnique(segs: seq<Segment>, c: nat, i: nat)
    requires c <= i <= |segs|
    requires forall k :: c <= k < i ==> IsTrivialPunctuation(segs[k])
    requires i < |segs| ==> !IsTrivialPunctuation(segs[i])
    ensures SuffixEnd(segs, c) == i
    decreases i - c
  {
    if c < i {
      SuffixEndUnique(segs, c + 1, i);
    }
  }

  /** The shape of a group: no whitespace segment, at most one core segment,
      leading punctuation only directly before the core, and the trailing
      punctuation taken as far as it goes. */
  lemma GroupShape(segs: seq<Segment>, i: nat)
    requires i < |segs| && !segs[i].isWhitespace
    ensures forall k :: i <= k < GroupEnd(segs, i) ==> !segs[k].isWhitespace
    ensures forall k, j ::
      (i <= k < GroupEnd(segs, i) && i <= j < GroupEnd(segs, i) && IsCore(segs[k]) && IsCore(segs[j])) ==> k == j
    ensures IsTrivialPunctuation(segs[i]) && i + 1 < |segs| && IsCore(segs[i + 1]) ==> i + 1 < GroupEnd(segs, i)
    ensures IsTrivialPunctuation(segs[i]) && !(i + 1 < |segs| && IsCore(segs[i + 1])) ==>
      forall k :: i <= k < GroupEnd(segs, i) ==> IsTrivialPunctuation(segs[k])
    ensures GroupEnd(segs, i) < |segs| ==> !IsTrivialPunctuation(segs[GroupEnd(segs, i)])
  {
  }

  /** Every group lies after the previous one, and every non-whitespace
      segment from `i` on belongs to a group. */
  lemma {:induction false} GroupsOrdered(segs: seq<Segment>, i: nat)
    requires i <= |segs|
    ensures forall k :: 0 <= k < |GroupsFrom(segs, i)| - 1 ==>
      GroupsFrom(segs, i)[k].1 <= GroupsFrom(segs, i)[k + 1].0
    decreases |segs| - i
  {
    if i < |segs| {
      if segs[i].isWhitespace {
        GroupsOrdered(segs, i + 1);
      } else {
        var e := GroupEnd(segs, i);
        GroupsOrdered(segs, e);
        var rest := GroupsFrom(segs, e);
        var gs := GroupsFrom(segs, i);
        assert gs == [(i, e)] + rest;
        forall k | 0 <= k < |gs| - 1
          ensures gs[k].1 <= gs[k + 1].0
        {
          if k > 0 {
            assert gs[k] == rest[k - 1] && gs[k + 1] == rest[k];
          }
        }
      }
    }
  }

  lemma {:induction false} GroupsCover(segs: seq<Segment>, i: nat)
    requires i <= |segs|
    ensures forall j :: i <= j < |segs| && !segs[j].isWhitespace ==>
      exists k :: 0 <= k < |GroupsFrom(segs, i)| && GroupsFrom(segs, i)[k].0 <= j < GroupsFrom(segs, i)[k].1
    decreases |segs| - i
  {
    if i < |segs| {
      if segs[i].isWhitespace {
        GroupsCover(segs, i + 1);
        assert GroupsFrom(segs, i) == GroupsFrom(segs, i + 1);
      } else {
        var e := GroupEnd(segs, i);
        GroupsCover(segs, e);
        var rest := GroupsFrom(segs, e);
        var gs := GroupsFrom(segs, i);
        assert gs == [(i, e)] + rest;
        forall j | i <= j < |segs| && !segs[j].isWhitespace
          ensures exists k :: 0 <= k < |gs| && gs[k].0 <= j < gs[k].1
        {
          if j < e {
            assert gs[0].0 <= j < gs[0].1;
          } else {
            var k :| 0 <= k < |rest| && rest[k].0 <= j < rest[k].1;
            assert gs[k + 1] == rest[k];
          }
        }
      }
    }
  }

  /** Non-space-delimited tokens are trimmed and never empty. */
  lemma NonSpaceTokensTrimmed(segs: seq<Segment>)
    ensures forall k :: 0 <= k < |NonSpaceTokens(segs)| ==>
      NonSpaceTokens(segs)[k] != [] && Trim(NonSpaceTokens(segs)[k]) == NonSpaceTokens(segs)[k]
  {
    var gs := GroupsFrom(segs, 0);
    var ts := GroupTokens(segs, gs);
    forall k | 0 <= k < |ts|
      ensures Trim(ts[k]) == ts[k]
    {
      TrimIdempotent(GroupText(segs, gs[k].0, gs[k].1));
    }
    TrimmedKept(ts);
  }

  lemma {:induction false} TrimmedKept(ts: seq<String>)
    requires forall k :: 0 <= k < |ts| ==> Trim(ts[k]) == ts[k]
    ensures forall k :: 0 <= k < |NonEmpty(ts)| ==> Trim(NonEmpty(ts)[k]) == NonEmpty(ts)[k]
  {
    if ts != [] {
      TrimmedKept(ts[1..]);
      assert NonEmpty(ts) == (if ts[0] == [] then [] else [ts[0]]) + NonEmpty(ts[1..]);
    }
  }

  // ---------------------------------------------------------------------
  // tokenize

  predicate IsSpaceDelimited(lang: String) {
    lang !in NO_SPACE_LANGUAGES
  }

  /** Token strings of a text in the mode its language calls for. */
  function TokenTexts(env: TextEnv, text: String, tag: Option<String>): seq<String> {
    var lang := ResolveLanguage(tag, env.deviceLanguage);
    var segs := Segmentation(env.segmenter, lang, text);
    if IsSpaceDelimited(lang) then SpaceTokens(segs) else NonSpaceTokens(segs)
  }

  /** Classifies every token string with the caller's language tag. */
  function ClassifyAll(env: TextEnv, texts: seq<String>, tag: Option<String>): (r: seq<Token>)
    ensures |r| == |texts|
    ensures forall k :: 0 <= k < |texts| ==> r[k] == Classify(env, texts[k], tag)
  {
    if texts == [] then [] else [Classify(env, texts[0], tag)] + ClassifyAll(env, texts[1..], tag)
  }

  /** What `tokenize` returns. */
  function Tokens(env: TextEnv, text: String, tag: Option<String>): seq<Token> {
    if IsBlank(text) then [] else ClassifyAll(env, TokenTexts(env, text, tag), tag)
  }

  /** `IcuTokenizer.tokenize`. */
  method Tokenize(env: TextEnv, text: String, tag: Option<String>) returns (tokens: seq<Token>)
    ensures tokens == Tokens(env, text, tag)
    ensures IsBlank(text) ==> tokens == []
    ensures forall k :: 0 <= k < |tokens| ==> tokens[k].text != []
  {
    if IsBlank(text) {
      return [];
    }
    var lang := ResolveLanguage(tag, env.deviceLanguage);
    var segs := Segmentation(env.segmenter, lang, text);
    var texts;
    if IsSpaceDelimited(lang) {
      texts := TokenizeSpaceDelimited(segs);
      SpaceTokensCover(segs);
    } else {
      texts := TokenizeNonSpaceDelimited(segs);
      NonSpaceTokensTrimmed(segs);
    }
    tokens := ClassifyAll(env, texts, tag);
  }

  /** The mode is chosen by the resolved language alone, and every token is
      classified with the original tag and keeps its text. */
  lemma TokensByMode(env: TextEnv, text: String, tag: Option<String>)
    requires !IsBlank(text)
    ensures var lang := ResolveLanguage(tag, env.deviceLanguage);
      var segs := Segmentation(env.segmenter, lang, text);
      Tokens(env, text, tag) == ClassifyAll(env,
        if lang in NO_SPACE_LANGUAGES then NonSpaceTokens(segs) else SpaceTokens(segs), tag)
    ensures forall k :: 0 <= k < |Tokens(env, text, tag)| ==>
      Tokens(env, text, tag)[k].text == TokenTexts(env, text, tag)[k]
  {
  }

  /** In a space-delimited language the tokens concatenate to the text without
      its whitespace segments. */
  lemma SpaceTokensRebuildText(env: TextEnv, text: String, tag: Option<String>)
    requires IsSpaceDelimited(ResolveLanguage(tag, env.deviceLanguage))
    ensures var segs := Segmentation(env.segmenter, ResolveLanguage(tag, env.deviceLanguage), text);
      Concat(TokenTexts(env, text, tag)) == Concat(Texts(NonWhitespace(segs)))
  {
    SpaceTokensCover(Segmentation(env.segmenter, ResolveLanguage(tag, env.deviceLanguage), text));
  }

  /** The word segments of "Hello, world! This is a test." in English. */
  function EnglishSegments(): seq<Segment> {
    [Segment("Hello", false, true), Segment(",", false, false), Segment(" ", true, false),
     Segment("world", false, true), Segment("!", false, false), Segment(" ", true, false),
     Segment("This", false, true), Segment(" ", true, false), Segment("is", false, true),
     Segment(" ", true, false), Segment("a", false, true), Segment(" ", true, false),
     Segment("test", false, true), Segment(".", false, false)]
  }

  /** Those segments carry the flags `Segment.from` gives their texts. */
  lemma EnglishSegmentsFlags()
    ensures forall k :: 0 <= k < |EnglishSegments()| ==>
      EnglishSegments()[k] == SegmentFrom(EnglishSegments()[k].text)
  {
    var segs := EnglishSegments();
    forall k | 0 <= k < |segs|
      ensures segs[k] == SegmentFrom(segs[k].text)
    {
      var t := segs[k].text;
      if segs[k].isWordLike {
        WordSegment(t);
      } else {
        MarkSegment(t[0]);
        assert t == [t[0]];
      }
    }
  }

  /** A word of ASCII letters is a word-like segment. */
  lemma WordSegment(t: String)
    requires t != [] && forall k :: 0 <= k < |t| ==> ('a' <= t[k] <= 'z') || ('A' <= t[k] <= 'Z')
    ensures SegmentFrom(t) == Segment(t, false, true)
  {
    AsciiWord(t);
    assert IsLetterOrDigit(t[0]) && !IsWhitespace(t[0]);
  }

  /** A single ASCII character that is neither a letter nor a digit is a
      segment that is not word-like. */
  lemma MarkSegment(c: char)
    requires c < '\U{0080}' && !('a' <= c <= 'z') && !('A' <= c <= 'Z') && !IsDigit(c)
    ensures SegmentFrom([c]) == Segment([c], IsWhitespace(c), false)
  {
    AsciiLetter(c);
    assert [c][0] == c;
  }

  lemma PairText(a: Segment, b: Segment)
    ensures Concat(Texts([a, b])) == a.text + b.text
  {
    assert Texts([a, b]) == [a.text, b.text];
    assert Concat([b.text]) == b.text + Concat([]);
  }

  lemma OneText(a: Segment)
    ensures Concat(Texts([a])) == a.text
  {
    assert Texts([a]) == [a.text];
  }

  /** Runs separated by single whitespace segments are the tokens, one each. */
  lemma {:induction false} SeparatedRuns(runs: seq<seq<Segment>>, sp: Segment)
    requires runs != [] && sp.isWhitespace
    requires forall k, j :: 0 <= k < |runs| && 0 <= j < |runs[k]| ==> !runs[k][j].isWhitespace
    requires forall k :: 0 <= k < |runs| ==> Concat(Texts(runs[k])) != []
    ensures SpaceTokens(JoinRuns(runs, sp)) == RunTexts(runs)
  {
    if |runs| == 1 {
      LastRun(runs[0]);
      NonEmptySingle(Concat(Texts(runs[0])));
    } else {
      SeparatedRuns(runs[1..], sp);
      RunThenWhitespace(runs[0], sp, JoinRuns(runs[1..], sp));
      NonEmptySingle(Concat(Texts(runs[0])));
    }
  }

  /** The runs laid out with `sp` between each two. */
  function JoinRuns(runs: seq<seq<Segment>>, sp: Segment): seq<Segment>
    requires runs != []
  {
    if |runs| == 1 then runs[0] else runs[0] + [sp] + JoinRuns(runs[1..], sp)
  }

  /** The same segments as runs between the spaces. */
  function EnglishRuns(): seq<seq<Segment>> {
    [[Segment("Hello", false, true), Segment(",", false, false)],
     [Segment("world", false, true), Segment("!", false, false)],
     [Segment("This", false, true)], [Segment("is", false, true)], [Segment("a", false, true)],
     [Segment("test", false, true), Segment(".", false, false)]]
  }

  lemma EnglishRunsJoin(runs: seq<seq<Segment>>)
    requires runs == EnglishRuns()
    ensures JoinRuns(runs, Segment(" ", true, false)) == EnglishSegments()
  {
  }

  lemma EnglishRunTexts(runs: seq<seq<Segment>>)
    requires runs == EnglishRuns()
    ensures RunTexts(runs) == ["Hello,", "world!", "This", "is", "a", "test."]
  {
    var texts := RunTexts(runs);
    EnglishPunctuatedRuns(runs, texts);
    EnglishPlainRuns(runs, texts);
  }

  lemma EnglishPunctuatedRuns(runs: seq<seq<Segment>>, texts: seq<String>)
    requires runs == EnglishRuns() && texts == RunTexts(runs)
    ensures texts[0] == "Hello," && texts[1] == "world!" && texts[5] == "test."
  {
    PairText(runs[0][0], runs[0][1]);
    assert "Hello" + "," == "Hello,";
    PairText(runs[1][0], runs[1][1]);
    assert "world" + "!" == "world!";
    PairText(runs[5][0], runs[5][1]);
    assert "test" + "." == "test.";
  }

  lemma EnglishPlainRuns(runs: seq<seq<Segment>>, texts: seq<String>)
    requires runs == EnglishRuns() && texts == RunTexts(runs)
    ensures texts[2] == "This" && texts[3] == "is" && texts[4] == "a"
  {
    OneText(runs[2][0]);
    OneText(runs[3][0]);
    OneText(runs[4][0]);
  }

  lemma EnglishRunsShape(runs: seq<seq<Segment>>)
    requires runs == EnglishRuns()
    requires RunTexts(runs) == ["Hello,", "world!", "This", "is", "a", "test."]
    ensures forall k, j :: 0 <= k < |runs| && 0 <= j < |runs[k]| ==> !runs[k][j].isWhitespace
    ensures forall k :: 0 <= k < |runs| ==> Concat(Texts(runs[k])) != []
  {
    EnglishRunsNonEmpty(runs, RunTexts(runs));
  }

  lemma EnglishRunsNonEmpty(runs: seq<seq<Segment>>, texts: seq<String>)
    requires |runs| == |texts| == 6
    requires forall k :: 0 <= k < 6 ==> texts[k] == Concat(Texts(runs[k]))
    requires texts == ["Hello,", "world!", "This", "is", "a", "test."]
    ensures forall k :: 0 <= k < |runs| ==> Concat(Texts(runs[k])) != []
  {
    forall k | 0 <= k < 6
      ensures Concat(Texts(runs[k])) != []
    {
      assert |texts[k]| > 0;
    }
  }

  /** "Hello, world! This is a test." gives six tokens with their punctuation
      attached. */
  lemma EnglishExample(segs: seq<Segment>)
    requires segs == EnglishSegments()
    ensures SpaceTokens(segs) == ["Hello,", "world!", "This", "is", "a", "test."]
  {
    var runs := EnglishRuns();
    EnglishRunsJoin(runs);
    EnglishRunTexts(runs);
    EnglishRunsShape(runs);
    SeparatedRuns(runs, Segment(" ", true, false));
  }
}
