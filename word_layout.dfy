/** The optimal-recognition-point layout of `WordLayoutCalculator`
    (WordLayout.kt): a word cut into the letters before the highlighted
    one, the highlighted one, and the rest. */
module WordLayout {
  import opened Text
  import Settings

  datatype WordParts = WordParts(left: String, center: String, right: String)

  /** `computeOrpIndex`: the highlighted letter's position within the word,
      by the word's letter count. */
  function OrpIndex(wordLength: int): (r: int)
    ensures 0 <= r <= 4
    ensures wordLength >= 1 ==> r < wordLength
  {
    if wordLength < 2 then 0
    else if wordLength < 5 then 1
    else if wordLength < 9 then 2
    else if wordLength < 14 then 3
    else 4
  }

  /** A longer word never has its highlight further left, and each length
      band of the source gives its own position. */
  lemma OrpIndexBands(n: int, m: int)
    requires n <= m
    ensures OrpIndex(n) <= OrpIndex(m)
    ensures OrpIndex(1) == 0 && OrpIndex(4) == 1 && OrpIndex(8) == 2 && OrpIndex(13) == 3 && OrpIndex(14) == 4
  {
  }

  /** The number of characters before the first letter or digit. */
  function LeadingNonWord(s: String): (r: nat)
    ensures r <= |s|
    ensures forall k :: 0 <= k < r ==> !IsLetterOrDigit(s[k])
    ensures r < |s| ==> IsLetterOrDigit(s[r])
  {
    if s == [] || IsLetterOrDigit(s[0]) then 0 else 1 + LeadingNonWord(s[1..])
  }

  /** `countLeadingNonWord`: count characters until the first letter or
      digit. */
  method CountLeadingNonWord(text: String) returns (count: int)
    ensures count == LeadingNonWord(text)
  {
    count := 0;
    while count < |text|
      invariant 0 <= count <= |text|
      invariant forall k :: 0 <= k < count ==> !IsLetterOrDigit(text[k])
    {
      if IsLetterOrDigit(text[count]) {
        break;
      }
      count := count + 1;
    }
    LeadingNonWordUnique(text, count);
  }

  /** There is only one length of non-word prefix that ends at a letter or
      digit or at the end. */
  lemma {:induction false} LeadingNonWordUnique(s: String, n: nat)
    requires n <= |s|
    requires forall k :: 0 <= k < n ==> !IsLetterOrDigit(s[k])
    requires n < |s| ==> IsLetterOrDigit(s[n])
    ensures LeadingNonWord(s) == n
  {
    if n > 0 {
      assert !IsLetterOrDigit(s[0]);
      assert forall k :: 0 <= k < |s[1..]| ==> s[1..][k] == s[k + 1];
      LeadingNonWordUnique(s[1..], n - 1);
    }
  }

  /** `countWordChars`: the number of letters and digits anywhere in the
      text. */
  method CountWordChars(text: String) returns (count: int)
    ensures count == AlnumCount(text)
  {
    count := 0;
    for i := 0 to |text|
      invariant count == AlnumCount(text[..i])
    {
      AlnumCountAppend(text[..i], [text[i]]);
      assert text[..i + 1] == text[..i] + [text[i]];
      if IsLetterOrDigit(text[i]) {
        count := count + 1;
      }
    }
    assert text[..|text|] == text;
  }

  /** The position of the highlighted character: the ORP index of the
      letter count, moved right past the leading punctuation, kept inside
      the text. */
  function CenterIndex(text: String): (r: int)
    requires text != []
    ensures 0 <= r < |text|
  {
    Settings.ClampInt(OrpIndex(AlnumCount(text)) + LeadingNonWord(text), 0, |text| - 1)
  }

  /** What `split` returns. */
  function Layout(text: String): (r: WordParts)
    ensures text == [] ==> r == WordParts("", "", "")
    ensures r.left + r.center + r.right == text
    ensures text != [] ==> |r.center| == 1 && |r.left| == CenterIndex(text)
  {
    if text == [] then WordParts("", "", "")
    else
      var i := CenterIndex(text);
      assert text[..i] + text[i..i + 1] + text[i + 1..] == text;
      WordParts(text[..i], text[i..i + 1], text[i + 1..])
  }

  /** `split`: the empty text gives three empty parts; otherwise the parts
      around the centre index. */
  method Split(text: String) returns (parts: WordParts)
    ensures parts == Layout(text)
  {
    if |text| == 0 {
      return WordParts("", "", "");
    }
    var prefixLength := CountLeadingNonWord(text);
    var wordLength := CountWordChars(text);
    var baseIndex := OrpIndex(wordLength);
    var index := baseIndex;
    if prefixLength > 0 {
      index := index + prefixLength;
    }
    var clampedIndex := Settings.ClampInt(index, 0, |text| - 1);
    parts := WordParts(text[..clampedIndex], text[clampedIndex..clampedIndex + 1], text[clampedIndex + 1..]);
  }

  /** A word of letters and digits behind some punctuation: the highlight
      falls on the word's ORP letter, and everything before it, the
      punctuation included, is on the left. */
  lemma {:induction false} LayoutOfPunctuatedWord(prefix: String, word: String)
    requires word != []
    requires forall k :: 0 <= k < |prefix| ==> !IsLetterOrDigit(prefix[k])
    requires forall k :: 0 <= k < |word| ==> IsLetterOrDigit(word[k])
    ensures Layout(prefix + word).left == prefix + word[..OrpIndex(|word|)]
    ensures Layout(prefix + word).center == [word[OrpIndex(|word|)]]
    ensures Layout(prefix + word).right == word[OrpIndex(|word|) + 1..]
  {
    var text := prefix + word;
    LeadingNonWordUnique(text, |prefix|);
    AlnumCountAppend(prefix, word);
    NoAlnum(prefix);
    AllAlnum(word);
    var i := OrpIndex(|word|) + |prefix|;
    assert CenterIndex(text) == i;
    assert text[..i] == prefix + word[..OrpIndex(|word|)];
    assert text[i + 1..] == word[OrpIndex(|word|) + 1..];
  }

  lemma {:induction false} NoAlnum(s: String)
    requires forall k :: 0 <= k < |s| ==> !IsLetterOrDigit(s[k])
    ensures AlnumCount(s) == 0
  {
    if s != [] {
      assert forall k :: 0 <= k < |s[1..]| ==> s[1..][k] == s[k + 1];
      NoAlnum(s[1..]);
    }
  }

  lemma {:induction false} AllAlnum(s: String)
    requires forall k :: 0 <= k < |s| ==> IsLetterOrDigit(s[k])
    ensures AlnumCount(s) == |s|
  {
    if s != [] {
      assert forall k :: 0 <= k < |s[1..]| ==> s[1..][k] == s[k + 1];
      AllAlnum(s[1..]);
    }
  }

  /** "reading": seven letters, so the third is highlighted. */
  lemma LayoutReading(w: String)
    requires w == "reading"
    ensures Layout(w) == WordParts("re", "a", "ding")
  {
    LayoutOfLowerCaseWord(w);
    assert |w| == 7;
    assert w[..2] == "re" && [w[2]] == "a" && w[3..] == "ding";
  }

  /** A word of lower-case ASCII letters is laid out around its ORP letter. */
  lemma LayoutOfLowerCaseWord(w: String)
    requires w != []
    requires forall k :: 0 <= k < |w| ==> 'a' <= w[k] <= 'z'
    ensures Layout(w) == WordParts(w[..OrpIndex(|w|)], [w[OrpIndex(|w|)]], w[OrpIndex(|w|) + 1..])
  {
    AsciiWord(w);
    LayoutOfPunctuatedWord("", w);
    assert "" + w == w;
  }

  /** "(hello": the opening parenthesis moves the highlight one to the
      right. */
  lemma LayoutParenthesized(text: String, w: String)
    requires text == "(hello" && w == "hello"
    ensures Layout(text) == WordParts("(he", "l", "lo")
  {
    AsciiWord(w);
    AsciiLetter('(');
    LayoutOfPunctuatedWord("(", w);
    assert "(" + w == text;
    assert OrpIndex(|w|) == 2;
    assert "(" + w[..2] == "(he" && [w[2]] == "l" && w[3..] == "lo";
  }

  /** "A": a single character is the highlight. */
  lemma LayoutSingle()
    ensures Layout("A") == WordParts("", "A", "")
  {
    assert IsLetterOrDigit('A');
    LayoutOfPunctuatedWord("", "A");
    assert "" + "A" == "A";
  }
}
