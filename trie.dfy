/** The pattern trie of Liang's hyphenation scheme (`PatternTrie` in
    PatternHyphenator.kt). A node of the trie is identified by the letters
    on the path from the root to it: `paths` holds the nodes that exist and
    `values` the weight arrays stored at some of them. */
module Trie {
  import opened Text

  /** The letters of a pattern: every character that is not a digit. */
  function Letters(p: String): (r: String)
    ensures |r| <= |p|
    ensures forall k :: 0 <= k < |r| ==> !IsDigit(r[k])
  {
    if p == [] then []
    else
      var init := Letters(p[..|p| - 1]);
      if IsDigit(p[|p| - 1]) then init else init + [p[|p| - 1]]
  }

  /** The weights of a pattern, one slot before each letter and one after
      the last: a digit sets the slot in front of the next letter (the last
      digit wins), every other slot is 0. */
  function Weights(p: String): (r: seq<int>)
    ensures |r| == |Letters(p)| + 1
    ensures forall k :: 0 <= k < |r| ==> 0 <= r[k] <= 9
  {
    if p == [] then [0]
    else
      var init := Weights(p[..|p| - 1]);
      if IsDigit(p[|p| - 1]) then init[..|init| - 1] + [DigitValue(p[|p| - 1])] else init + [0]
  }

  /** The loop of `insert` that separates the letters from the weights. */
  method ParsePattern(p: String) returns (letters: String, values: seq<int>)
    ensures letters == Letters(p) && values == Weights(p)
  {
    letters, values := [], [0];
    for i := 0 to |p|
      invariant letters == Letters(p[..i]) && values == Weights(p[..i])
    {
      assert p[..i + 1][..i] == p[..i];
      if IsDigit(p[i]) {
        values := values[..|values| - 1] + [DigitValue(p[i])];
      } else {
        letters := letters + [p[i]];
        values := values + [0];
      }
    }
    assert p[..|p|] == p;
  }

  predicate NoDigits(s: String) {
    forall k :: 0 <= k < |s| ==> !IsDigit(s[k])
  }

  function Zeros(n: nat): (r: seq<int>)
    ensures |r| == n && forall k :: 0 <= k < n ==> r[k] == 0
  {
    seq(n, _ => 0)
  }

  lemma ZerosCons(n: nat)
    ensures [0] + Zeros(n) == Zeros(n + 1)
  {
  }

  lemma ZerosSnoc(n: nat)
    ensures Zeros(n) + [0] == Zeros(n + 1)
  {
  }

  lemma ZerosPrefix(n: nat)
    ensures Zeros(n + 1)[..n] == Zeros(n)
  {
  }

  /** Characters that are not digits are letters, each with a 0 slot after
      it. */
  lemma {:induction false} PlainSuffix(q: String, b: String)
    requires NoDigits(b)
    ensures Letters(q + b) == Letters(q) + b
    ensures Weights(q + b) == Weights(q) + Zeros(|b|)
    decreases |b|
  {
    if b != [] {
      var front, c := b[..|b| - 1], b[|b| - 1];
      PlainSuffix(q, front);
      PatternSnoc(q + front, c);
      SnocLast(b);
      AppendAssoc(q, front, [c]);
      AppendAssoc(Letters(q), front, [c]);
      AppendAssoc(Weights(q), Zeros(|front|), [0]);
      ZerosSnoc(|front|);
    } else {
      assert q + b == q && Letters(q) + b == Letters(q);
      assert Weights(q) + Zeros(0) == Weights(q);
    }
  }

  /** A digit between two runs of letters is the weight of the slot between
      them (TeX writes `hy3ph` for weight 3 between `y` and `p`); every
      other slot is 0. */
  lemma DigitBetween(a: String, d: char, b: String)
    requires NoDigits(a) && NoDigits(b) && IsDigit(d)
    ensures Letters(a + [d] + b) == a + b
    ensures Weights(a + [d] + b) == Zeros(|a|) + [DigitValue(d)] + Zeros(|b|)
  {
    PlainSuffix([], a);
    assert [] + a == a;
    ZerosCons(|a|);
    PatternSnoc(a, d);
    ZerosPrefix(|a|);
    PlainSuffix(a + [d], b);
  }

  /** One more character of a pattern: a digit replaces the last weight, any
      other character is a letter with a fresh 0 slot after it. */
  lemma PatternSnoc(p: String, c: char)
    ensures Letters(p + [c]) == if IsDigit(c) then Letters(p) else Letters(p) + [c]
    ensures Weights(p + [c]) ==
      if IsDigit(c) then Weights(p)[..|Weights(p)| - 1] + [DigitValue(c)] else Weights(p) + [0]
  {
    assert (p + [c])[..|p|] == p;
  }

  /** The nodes on the path to `w`: all its prefixes. */
  function Prefixes(w: String): (r: set<String>)
    ensures [] in r && w in r
  {
    assert w[..0] == [] && w[..|w|] == w;
    set k | 0 <= k <= |w| :: w[..k]
  }

  class PatternTrie {
    var paths: set<String>
    var values: map<String, seq<int>>

    /** The root exists, every node's parent exists, weights are stored only
        at nodes, and each weight array has one slot more than its node has
        letters, each slot a digit value. */
    ghost predicate Valid()
      reads this
    {
      [] in paths &&
      (forall w, k :: w in paths && 0 <= k <= |w| ==> w[..k] in paths) &&
      (forall w :: w in values ==> w in paths && |values[w]| == |w| + 1) &&
      (forall w, k :: w in values && 0 <= k < |values[w]| ==> 0 <= values[w][k] <= 9)
    }

    /** `PatternTrie()`: the root alone. */
    constructor ()
      ensures Valid()
      ensures paths == {[]} && values == map[]
    {
      paths := {[]};
      values := map[];
    }

    /** `insert(pattern)`: a blank pattern changes nothing; otherwise the
        nodes along the letters are added where missing (existing children
        stay) and the terminal node gets the weights. */
    method Insert(pattern: String)
      requires Valid()
      modifies this
      ensures Valid()
      ensures IsBlank(pattern) ==> paths == old(paths) && values == old(values)
      ensures !IsBlank(pattern) ==> paths == old(paths) + Prefixes(Letters(pattern))
      ensures !IsBlank(pattern) ==> values == old(values)[Letters(pattern) := Weights(pattern)]
    {
      if IsBlank(pattern) {
        return;
      }
      var letters, weights := ParsePattern(pattern);
      var node: String := [];
      for i := 0 to |letters|
        invariant node == letters[..i]
        invariant paths == old(paths) + Prefixes(letters[..i])
        invariant values == old(values)
        invariant Valid()
      {
        assert letters[..i + 1] == node + [letters[i]];
        PrefixesSnoc(node, letters[i]);
        node := node + [letters[i]];
        if node !in paths {
          ExtendKeepsClosed(paths, node);
          paths := paths + {node};
        }
      }
      assert node == letters;
      values := values[node := weights];
    }
  }

  /** The prefixes of `w + [c]` are those of `w` and `w + [c]` itself. */
  lemma PrefixesSnoc(w: String, c: char)
    ensures Prefixes(w + [c]) == Prefixes(w) + {w + [c]}
  {
    var v := w + [c];
    forall u | u in Prefixes(v) ensures u in Prefixes(w) + {v} {
      var k :| 0 <= k <= |v| && u == v[..k];
      if k <= |w| {
        assert v[..k] == w[..k];
      } else {
        assert v[..k] == v;
      }
    }
    forall u | u in Prefixes(w) ensures u in Prefixes(v) {
      var k :| 0 <= k <= |w| && u == w[..k];
      assert v[..k] == w[..k];
    }
  }

  /** Adding a child of an existing node keeps the node set closed under
      prefixes. */
  lemma ExtendKeepsClosed(paths: set<String>, v: String)
    requires v != [] && v[..|v| - 1] in paths
    requires forall w, k :: w in paths && 0 <= k <= |w| ==> w[..k] in paths
    ensures forall w, k :: w in paths + {v} && 0 <= k <= |w| ==> w[..k] in paths + {v}
  {
    forall w, k | w in paths + {v} && 0 <= k <= |w| ensures w[..k] in paths + {v} {
      if w == v && k < |v| {
        var parent := v[..|v| - 1];
        assert w[..k] == parent[..k];
        assert parent[..k] in paths;
      } else if w == v {
        assert w[..k] == v;
      }
    }
  }
}
