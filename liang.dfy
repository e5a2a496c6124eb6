/** `HyphenationPatternSet.hyphenationPoints` (PatternHyphenator.kt): Liang's
    scoring. The lower-cased word is padded as `.word.`; every trie node
    reached from every start position adds its weights, slot by slot, taking
    the maximum; a break goes where the weight is odd and both sides keep the
    minimum number of letters. */
module Liang {
  import opened Text
  import opened Trie

  datatype PatternSet = PatternSet(trie: PatternTrie, minLeft: int, minRight: int)

  /** The content of a pattern set as a value. */
  datatype PatternData = PatternData(values: map<String, seq<int>>, minLeft: int, minRight: int)

  /** What a weight map read from patterns looks like: one slot more than
      letters, every slot a digit value. */
  predicate WellFormedWeights(vals: map<String, seq<int>>) {
    (forall w :: w in vals ==> |vals[w]| == |w| + 1) &&
    (forall w, k :: w in vals && 0 <= k < |vals[w]| ==> 0 <= vals[w][k] <= 9)
  }

  /** The weight that the match of `work[i..i + len]` gives slot `j`. */
  function MatchWeight(vals: map<String, seq<int>>, work: String, i: nat, len: nat, j: int): int
    requires i + len <= |work|
  {
    var w := work[i..i + len];
    if len >= 1 && w in vals && i <= j < i + |vals[w]| then vals[w][j - i] else 0
  }

  /** The best weight for slot `j` among the matches starting at `i` with at
      most `n` letters. */
  function StartBest(vals: map<String, seq<int>>, work: String, i: nat, n: nat, j: int): (r: int)
    requires i + n <= |work|
    ensures r >= 0
  {
    if n == 0 then 0 else Max(StartBest(vals, work, i, n - 1, j), MatchWeight(vals, work, i, n, j))
  }

  /** The best weight for slot `j` among the matches starting before `m`. */
  function ScanBest(vals: map<String, seq<int>>, work: String, m: nat, j: int): (r: int)
    requires m <= |work|
    ensures r >= 0
  {
    if m == 0 then 0 else Max(ScanBest(vals, work, m - 1, j), StartBest(vals, work, m - 1, |work| - (m - 1), j))
  }

  /** The weights after the scan: `values` of `hyphenationPoints`. */
  function Scores(vals: map<String, seq<int>>, work: String): (r: seq<int>)
    ensures |r| == |work| + 1
  {
    seq(|work| + 1, j requires 0 <= j <= |work| => ScanBest(vals, work, |work|, j))
  }

  /** Every slot is at least the weight any match gives it, and it is 0 or
      the weight of one of the matches: the maximum over all matches. */
  lemma {:induction false} ScanBestIsMax(vals: map<String, seq<int>>, work: String, m: nat, j: int)
    requires m <= |work|
    ensures forall i, len :: 0 <= i < m && i + len <= |work| ==>
      MatchWeight(vals, work, i, len, j) <= ScanBest(vals, work, m, j)
    ensures ScanBest(vals, work, m, j) == 0 ||
      exists i, len :: 0 <= i < m && i + len <= |work| && ScanBest(vals, work, m, j) == MatchWeight(vals, work, i, len, j)
  {
    if m > 0 {
      ScanBestIsMax(vals, work, m - 1, j);
      StartBestIsMax(vals, work, m - 1, |work| - (m - 1), j);
    }
  }

  lemma {:induction false} StartBestIsMax(vals: map<String, seq<int>>, work: String, i: nat, n: nat, j: int)
    requires i + n <= |work|
    ensures forall len :: 0 <= len <= n ==> MatchWeight(vals, work, i, len, j) <= StartBest(vals, work, i, n, j)
    ensures StartBest(vals, work, i, n, j) == 0 ||
      exists len :: 0 <= len <= n && StartBest(vals, work, i, n, j) == MatchWeight(vals, work, i, len, j)
  {
    if n > 0 {
      StartBestIsMax(vals, work, i, n - 1, j);
    }
  }

  /** A start whose walk leaves the trie after `n0` letters gains nothing
      from longer matches: every stored node has all its prefixes in the trie. */
  lemma {:induction false} StartBestStops(vals: map<String, seq<int>>, paths: set<String>, work: String, i: nat, n0: nat, n: nat, j: int)
    requires i + n <= |work| && n0 < n
    requires work[i..i + n0 + 1] !in paths
    requires forall w, k :: w in paths && 0 <= k <= |w| ==> w[..k] in paths
    requires forall w :: w in vals ==> w in paths
    ensures StartBest(vals, work, i, n, j) == StartBest(vals, work, i, n0, j)
    decreases n
  {
    if n - 1 > n0 {
      StartBestStops(vals, paths, work, i, n0, n - 1, j);
    }
    var w := work[i..i + n];
    assert w[..n0 + 1] == work[i..i + n0 + 1];
    assert w !in vals;
  }

  /** The innermost loop: the weights of one match, slot by slot, where the
      slot exists. */
  method ApplyPattern(arr: array<int>, i: nat, pattern: seq<int>)
    modifies arr
    ensures forall j :: 0 <= j < arr.Length ==>
      arr[j] == (if i <= j < i + |pattern| then Max(old(arr[j]), pattern[j - i]) else old(arr[j]))
    ensures forall j :: 0 <= j < arr.Length ==> old(arr[j]) <= arr[j]
  {
    for offset := 0 to |pattern|
      invariant forall j :: 0 <= j < arr.Length ==>
        arr[j] == (if i <= j < i + offset then Max(old(arr[j]), pattern[j - i]) else old(arr[j]))
    {
      var target := i + offset;
      if target < arr.Length {
        arr[target] := Max(arr[target], pattern[offset]);
      }
    }
  }

  /** One iteration of the outer loop: walk the trie along `work` from `i`. */
  method ScanStart(trie: PatternTrie, work: String, i: nat, arr: array<int>)
    requires trie.Valid() && i < |work| && arr.Length == |work| + 1
    requires forall j :: 0 <= j < arr.Length ==> arr[j] >= 0
    modifies arr
    ensures forall j :: 0 <= j < arr.Length ==>
      arr[j] == Max(old(arr[j]), StartBest(trie.values, work, i, |work| - i, j))
  {
    ghost var olds := arr[..];
    var node: String := [];
    var index := i;
    while index < |work|
      invariant i <= index <= |work|
      invariant node == work[i..index] && node in trie.paths
      invariant forall j :: 0 <= j < arr.Length ==> arr[j] == Max(olds[j], StartBest(trie.values, work, i, index - i, j))
    {
      var next := node + [work[index]];
      assert next == work[i..index + 1];
      if next !in trie.paths {
        WalkStops(trie.values, trie.paths, work, i, index - i, olds, arr[..]);
        return;
      }
      node := next;
      ghost var before := arr[..];
      if node in trie.values {
        ApplyPattern(arr, i, trie.values[node]);
      }
      WalkStep(trie.values, work, i, index + 1 - i, olds, before, arr[..]);
      index := index + 1;
    }
  }

  /** Where the walk leaves the trie, the weights gathered so far are final. */
  lemma WalkStops(vals: map<String, seq<int>>, paths: set<String>, work: String, i: nat, n0: nat, olds: seq<int>, cur: seq<int>)
    requires i + n0 < |work| && |olds| == |cur|
    requires work[i..i + n0 + 1] !in paths
    requires forall w, k :: w in paths && 0 <= k <= |w| ==> w[..k] in paths
    requires forall w :: w in vals ==> w in paths
    requires forall j :: 0 <= j < |cur| ==> cur[j] == Max(olds[j], StartBest(vals, work, i, n0, j))
    ensures forall j :: 0 <= j < |cur| ==> cur[j] == Max(olds[j], StartBest(vals, work, i, |work| - i, j))
  {
    forall j | 0 <= j < |cur|
      ensures StartBest(vals, work, i, |work| - i, j) == StartBest(vals, work, i, n0, j)
    {
      StartBestStops(vals, paths, work, i, n0, |work| - i, j);
    }
  }

  /** One node of the walk: applying the weights stored at
      `work[i..i + len]`, if any, extends the best weights from the matches of
      fewer letters to the matches of up to `len` letters. */
  lemma WalkStep(vals: map<String, seq<int>>, work: String, i: nat, len: nat, olds: seq<int>, before: seq<int>, after: seq<int>)
    requires 1 <= len && i + len <= |work| && |olds| == |before| == |after|
    requires forall j :: 0 <= j < |olds| ==> olds[j] >= 0
    requires forall j :: 0 <= j < |before| ==> before[j] == Max(olds[j], StartBest(vals, work, i, len - 1, j))
    requires forall j :: 0 <= j < |after| ==>
      after[j] == (if work[i..i + len] in vals && i <= j < i + |vals[work[i..i + len]]|
                   then Max(before[j], vals[work[i..i + len]][j - i]) else before[j])
    ensures forall j :: 0 <= j < |after| ==> after[j] == Max(olds[j], StartBest(vals, work, i, len, j))
  {
  }

  /** The scan of `hyphenationPoints`: every start position of `work`, and
      the weights end as `Scores`. */
  method Score(trie: PatternTrie, work: String) returns (arr: array<int>)
    requires trie.Valid()
    ensures fresh(arr) && arr[..] == Scores(trie.values, work)
  {
    arr := new int[|work| + 1](_ => 0);
    for i := 0 to |work|
      invariant arr.Length == |work| + 1
      invariant forall j :: 0 <= j < arr.Length ==> arr[j] == ScanBest(trie.values, work, i, j)
    {
      ScanStart(trie, work, i, arr);
    }
  }

  /** Whether position `k` of an `n`-letter word is a break: both sides long
      enough and the weight of the slot before letter `k` odd. */
  predicate IsBreak(n: int, minLeft: int, minRight: int, scores: seq<int>, k: int) {
    1 <= k < n && k + 1 < |scores| && k >= minLeft && n - k >= minRight && scores[k + 1] % 2 == 1
  }

  /** The breaks among the positions `1 .. k - 1`, in ascending order. */
  function BreaksBelow(n: int, minLeft: int, minRight: int, scores: seq<int>, k: int): (r: seq<int>)
    ensures forall x :: x in r <==> x < k && IsBreak(n, minLeft, minRight, scores, x)
    ensures forall a, b :: 0 <= a < b < |r| ==> r[a] < r[b]
    decreases k
  {
    if k <= 1 then []
    else
      var init := BreaksBelow(n, minLeft, minRight, scores, k - 1);
      assert forall a :: 0 <= a < |init| ==> init[a] < k - 1 by {
        forall a | 0 <= a < |init| ensures init[a] < k - 1 {
          assert init[a] in init;
        }
      }
      init + (if IsBreak(n, minLeft, minRight, scores, k - 1) then [k - 1] else [])
  }

  /** Position `k` joins the breaks below it when it has enough letters on
      both sides and an odd weight in its slot. */
  lemma BreaksBelowStep(n: int, minLeft: int, minRight: int, scores: seq<int>, k: int)
    requires 1 <= k < n && |scores| == n + 3
    ensures BreaksBelow(n, minLeft, minRight, scores, k + 1) ==
      BreaksBelow(n, minLeft, minRight, scores, k) + (if k >= minLeft && n - k >= minRight && scores[k + 1] % 2 == 1 then [k] else [])
  {
  }

  /** The padded word the scan runs over. */
  function Padded(word: String): (r: String)
    ensures |r| == |word| + 2
  {
    ['.'] + ToLower(word) + ['.']
  }

  /** What `hyphenationPoints(word, tag)` returns for a pattern set. */
  function Points(data: PatternData, word: String): seq<int> {
    if word == [] || |word| <= data.minLeft + data.minRight then []
    else BreaksBelow(|word|, data.minLeft, data.minRight, Scores(data.values, Padded(word)), |word|)
  }

  /** A word no longer than `minLeft + minRight` has no break; otherwise
      the breaks are, in ascending order, exactly the positions with enough
      letters on both sides whose slot carries an odd weight. */
  lemma PointsCharacterised(data: PatternData, word: String)
    ensures |word| <= data.minLeft + data.minRight ==> Points(data, word) == []
    ensures forall a, b :: 0 <= a < b < |Points(data, word)| ==> Points(data, word)[a] < Points(data, word)[b]
    ensures |word| > data.minLeft + data.minRight ==> forall k :: k in Points(data, word) <==>
      1 <= k < |word| && k >= data.minLeft && |word| - k >= data.minRight &&
      ScanBest(data.values, Padded(word), |word| + 2, k + 1) % 2 == 1
  {
  }

  function DataOf(s: PatternSet): PatternData
    reads s.trie
  {
    PatternData(s.trie.values, s.minLeft, s.minRight)
  }

  /** `hyphenationPoints`. The language tag only chooses the locale of
      the lower-casing. */
  method HyphenationPoints(s: PatternSet, word: String, languageTag: Option<String>) returns (points: seq<int>)
    requires s.trie.Valid()
    ensures points == Points(DataOf(s), word)
  {
    if word == [] {
      return [];
    }
    if |word| <= s.minLeft + s.minRight {
      return [];
    }
    var work := Padded(word);
    var values := Score(s.trie, work);
    points := [];
    for i := 1 to |word|
      invariant values[..] == Scores(s.trie.values, work)
      invariant points == BreaksBelow(|word|, s.minLeft, s.minRight, values[..], i)
    {
      BreaksBelowStep(|word|, s.minLeft, s.minRight, values[..], i);
      var leftSize := i;
      var rightSize := |word| - i;
      if leftSize < s.minLeft || rightSize < s.minRight {
        continue;
      }
      var value := values[i + 1];
      if value % 2 == 1 {
        points := points + [i];
      }
    }
    assert DataOf(s) == PatternData(s.trie.values, s.minLeft, s.minRight);
  }
}
