/** Characters and strings as the Kotlin standard library sees them.
    Strings are sequences of code points (one `char` each). */
module Text {

  datatype Option<T> = None | Some(value: T)

  type String = seq<char>

  /** Kotlin's `Char.isWhitespace()`: Java whitespace or a Unicode space separator. */
  predicate IsWhitespace(c: char) {
    ('\t' <= c <= '\r') || ('\U{001C}' <= c <= ' ') || c == '\U{00A0}' || c == '\U{1680}' ||
    ('\U{2000}' <= c <= '\U{200A}') || c == '\U{2028}' || c == '\U{2029}' || c == '\U{202F}' ||
    c == '\U{205F}' || c == '\U{3000}'
  }

  /** `Char.isDigit()`, restricted to the ASCII decimal digits. */
  predicate IsDigit(c: char) {
    '0' <= c <= '9'
  }

  /** The value of a decimal digit (`Char.digitToInt`). */
  function DigitValue(c: char): (v: int)
    requires IsDigit(c)
    ensures 0 <= v <= 9
  {
    c as int - '0' as int
  }

  /** `Char.isLetter()`, approximated by the letter blocks of the scripts the
      application ships hyphenation patterns or tokenizer modes for. The
      blocks are listed as a table of code-point ranges. */
  predicate IsLetter(c: char) {
    LetterFrom(c, 0)
  }

  const LETTER_RANGES: nat := 22

  /** The `k`-th letter block (0-based). */
  function LetterRange(k: nat): (char, char) {
    match k
    case 0 => ('a', 'z')
    case 1 => ('A', 'Z')
    case 2 => ('\U{00AA}', '\U{00AA}')
    case 3 => ('\U{00B5}', '\U{00B5}')
    case 4 => ('\U{00BA}', '\U{00BA}')
    case 5 => ('\U{00C0}', '\U{00D6}')
    case 6 => ('\U{00D8}', '\U{00F6}')
    case 7 => ('\U{00F8}', '\U{02AF}')
    case 8 => ('\U{0386}', '\U{0481}')
    case 9 => ('\U{048A}', '\U{052F}')
    case 10 => ('\U{05D0}', '\U{05EA}')
    case 11 => ('\U{0620}', '\U{064A}')
    case 12 => ('\U{0904}', '\U{0939}')
    case 13 => ('\U{0980}', '\U{09B9}')
    case 14 => ('\U{0B80}', '\U{0BB9}')
    case 15 => ('\U{0C05}', '\U{0C39}')
    case 16 => ('\U{0E01}', '\U{0E30}')
    case 17 => ('\U{1E00}', '\U{1FFF}')
    case 18 => ('\U{3041}', '\U{3096}')
    case 19 => ('\U{30A1}', '\U{30FA}')
    case 20 => ('\U{4E00}', '\U{9FFF}')
    case _ => ('\U{AC00}', '\U{D7A3}')
  }

  /** Whether `c` lies in one of the letter blocks from the `k`-th on. */
  predicate LetterFrom(c: char, k: nat)
    decreases LETTER_RANGES - k
  {
    k < LETTER_RANGES && ((LetterRange(k).0 <= c <= LetterRange(k).1) || LetterFrom(c, k + 1))
  }

  /** A letter lies in one of the letter blocks. */
  lemma {:induction false} LetterBlock(c: char, k: nat)
    requires LetterFrom(c, k)
    ensures exists j :: k <= j < LETTER_RANGES && LetterRange(j).0 <= c <= LetterRange(j).1
    decreases LETTER_RANGES - k
  {
    if !(LetterRange(k).0 <= c <= LetterRange(k).1) {
      LetterBlock(c, k + 1);
    }
  }

  /** A character outside every letter block is not a letter. */
  lemma NotLetter(c: char)
    requires forall j :: 0 <= j < LETTER_RANGES ==> !(LetterRange(j).0 <= c <= LetterRange(j).1)
    ensures !IsLetter(c)
  {
    if IsLetter(c) {
      LetterBlock(c, 0);
    }
  }

  /** The only ASCII letters are `a`-`z` and `A`-`Z`. */
  lemma AsciiLetter(c: char)
    requires c < '\U{0080}'
    ensures IsLetter(c) <==> ('a' <= c <= 'z') || ('A' <= c <= 'Z')
  {
    if !(('a' <= c <= 'z') || ('A' <= c <= 'Z')) {
      NotLetter(c);
    }
  }

  predicate IsLetterOrDigit(c: char) {
    IsLetter(c) || IsDigit(c)
  }

  /** Punctuation and symbols (`\p{P}` and `\p{S}`), approximated by the
      ASCII, Latin-1, general-punctuation, Arabic and CJK blocks. */
  predicate IsPunctuationOrSymbol(c: char) {
    PunctuationFrom(c, 0)
  }

  const PUNCTUATION_RANGES: nat := 27

  /** The `k`-th punctuation or symbol block (0-based). */
  function PunctuationRange(k: nat): (char, char) {
    match k
    case 0 => ('!', '/')
    case 1 => (':', '@')
    case 2 => ('[', '`')
    case 3 => ('{', '~')
    case 4 => ('\U{00A1}', '\U{00A9}')
    case 5 => ('\U{00AB}', '\U{00AC}')
    case 6 => ('\U{00AE}', '\U{00B1}')
    case 7 => ('\U{00B4}', '\U{00B4}')
    case 8 => ('\U{00B6}', '\U{00B8}')
    case 9 => ('\U{00BB}', '\U{00BB}')
    case 10 => ('\U{00BF}', '\U{00BF}')
    case 11 => ('\U{00D7}', '\U{00D7}')
    case 12 => ('\U{00F7}', '\U{00F7}')
    case 13 => ('\U{060C}', '\U{060C}')
    case 14 => ('\U{061B}', '\U{061B}')
    case 15 => ('\U{061F}', '\U{061F}')
    case 16 => ('\U{2010}', '\U{2027}')
    case 17 => ('\U{2030}', '\U{205E}')
    case 18 => ('\U{2212}', '\U{2212}')
    case 19 => ('\U{3001}', '\U{3003}')
    case 20 => ('\U{3008}', '\U{3011}')
    case 21 => ('\U{3014}', '\U{301F}')
    case 22 => ('\U{30FB}', '\U{30FB}')
    case 23 => ('\U{FF01}', '\U{FF0F}')
    case 24 => ('\U{FF1A}', '\U{FF20}')
    case 25 => ('\U{FF3B}', '\U{FF40}')
    case _ => ('\U{FF5B}', '\U{FF65}')
  }

  predicate PunctuationFrom(c: char, k: nat)
    decreases PUNCTUATION_RANGES - k
  {
    k < PUNCTUATION_RANGES && ((PunctuationRange(k).0 <= c <= PunctuationRange(k).1) || PunctuationFrom(c, k + 1))
  }

  lemma {:induction false} PunctuationBlock(c: char, k: nat)
    requires PunctuationFrom(c, k)
    ensures exists j :: k <= j < PUNCTUATION_RANGES && PunctuationRange(j).0 <= c <= PunctuationRange(j).1
    decreases PUNCTUATION_RANGES - k
  {
    if !(PunctuationRange(k).0 <= c <= PunctuationRange(k).1) {
      PunctuationBlock(c, k + 1);
    }
  }

  /** The one fact about the character classes the model relies on:
      whitespace, letters/digits and punctuation are pairwise disjoint. */
  lemma ClassesDisjoint(c: char)
    ensures IsWhitespace(c) ==> !IsLetterOrDigit(c) && !IsPunctuationOrSymbol(c)
    ensures IsPunctuationOrSymbol(c) ==> !IsLetterOrDigit(c)
  {
    if IsLetter(c) {
      LetterBlock(c, 0);
      var j :| 0 <= j < LETTER_RANGES && LetterRange(j).0 <= c <= LetterRange(j).1;
      LetterBlockNotWhitespace(c, j);
      if IsPunctuationOrSymbol(c) {
        PunctuationBlock(c, 0);
        var m :| 0 <= m < PUNCTUATION_RANGES && PunctuationRange(m).0 <= c <= PunctuationRange(m).1;
        BlocksDisjoint(c, j, m);
      }
    }
    if IsPunctuationOrSymbol(c) {
      PunctuationBlock(c, 0);
      var m :| 0 <= m < PUNCTUATION_RANGES && PunctuationRange(m).0 <= c <= PunctuationRange(m).1;
      PunctuationBlockNotWhitespaceOrDigit(c, m);
    }
  }

  /** A word of ASCII letters is all letters and has no whitespace. */
  lemma AsciiWord(w: String)
    requires forall k :: 0 <= k < |w| ==> ('a' <= w[k] <= 'z') || ('A' <= w[k] <= 'Z')
    ensures forall k :: 0 <= k < |w| ==> IsLetterOrDigit(w[k]) && !IsWhitespace(w[k])
  {
    forall k | 0 <= k < |w|
      ensures IsLetterOrDigit(w[k]) && !IsWhitespace(w[k])
    {
      AsciiLetter(w[k]);
      ClassesDisjoint(w[k]);
    }
  }

  lemma LetterBlockNotWhitespace(c: char, j: nat)
    requires j < LETTER_RANGES && LetterRange(j).0 <= c <= LetterRange(j).1
    ensures !IsWhitespace(c) && !IsDigit(c)
  {
  }

  lemma PunctuationBlockNotWhitespaceOrDigit(c: char, m: nat)
    requires m < PUNCTUATION_RANGES && PunctuationRange(m).0 <= c <= PunctuationRange(m).1
    ensures !IsWhitespace(c) && !IsDigit(c)
  {
  }

  lemma BlocksDisjoint(c: char, j: nat, m: nat)
    requires j < LETTER_RANGES && m < PUNCTUATION_RANGES
    requires LetterRange(j).0 <= c <= LetterRange(j).1
    ensures !(PunctuationRange(m).0 <= c <= PunctuationRange(m).1)
  {
  }

  predicate AllWhitespace(s: String) {
    forall i :: 0 <= i < |s| ==> IsWhitespace(s[i])
  }

  predicate HasLetterOrDigit(s: String) {
    exists i :: 0 <= i < |s| && IsLetterOrDigit(s[i])
  }

  /** `String.isBlank()`. */
  predicate IsBlank(s: String) {
    AllWhitespace(s)
  }

  /** Number of leading whitespace characters. */
  function LeadingWhitespace(s: String): (n: nat)
    ensures n <= |s|
    ensures forall i :: 0 <= i < n ==> IsWhitespace(s[i])
    ensures n < |s| ==> !IsWhitespace(s[n])
  {
    if |s| == 0 || !IsWhitespace(s[0]) then 0 else 1 + LeadingWhitespace(s[1..])
  }

  /** Number of trailing whitespace characters. */
  function TrailingWhitespace(s: String): (n: nat)
    ensures n <= |s|
    ensures forall i :: |s| - n <= i < |s| ==> IsWhitespace(s[i])
    ensures n < |s| ==> !IsWhitespace(s[|s| - n - 1])
  {
    if |s| == 0 || !IsWhitespace(s[|s| - 1]) then 0 else 1 + TrailingWhitespace(s[..|s| - 1])
  }

  /** `String.trim()`: drops leading and trailing whitespace. */
  function Trim(s: String): (t: String)
    ensures |t| <= |s|
  {
    var a := LeadingWhitespace(s);
    var rest := s[a..];
    rest[..|rest| - TrailingWhitespace(rest)]
  }

  /** `Trim` removes a whitespace border and nothing else: the result is a
      slice of the input whose ends are not whitespace, and what it drops
      is whitespace. */
  lemma TrimSlice(s: String)
    ensures exists a, b ::
      (0 <= a <= b <= |s| && Trim(s) == s[a..b] &&
       (forall i :: 0 <= i < a ==> IsWhitespace(s[i])) &&
       (forall i :: b <= i < |s| ==> IsWhitespace(s[i])))
    ensures Trim(s) != [] ==> !IsWhitespace(Trim(s)[0]) && !IsWhitespace(Trim(s)[|Trim(s)| - 1])
  {
    var a := LeadingWhitespace(s);
    var rest := s[a..];
    var b := a + |rest| - TrailingWhitespace(rest);
    assert Trim(s) == s[a..b];
    forall i | b <= i < |s| ensures IsWhitespace(s[i]) {
      assert s[i] == rest[i - a];
    }
    if Trim(s) != [] {
      assert |rest| - TrailingWhitespace(rest) > 0;
      assert Trim(s)[0] == rest[0];
    }
  }

  /** A string is blank exactly when trimming empties it. */
  lemma TrimEmptyIffBlank(s: String)
    ensures Trim(s) == [] <==> IsBlank(s)
  {
    var a := LeadingWhitespace(s);
    var rest := s[a..];
    if Trim(s) == [] {
      assert TrailingWhitespace(rest) == |rest|;
      assert a == |s|;
    } else {
      assert a < |s|;
      assert !IsWhitespace(s[a]);
    }
  }

  /** Trimming a string twice is trimming it once. */
  lemma TrimIdempotent(s: String)
    ensures Trim(Trim(s)) == Trim(s)
  {
    var t := Trim(s);
    TrimSlice(s);
    if t != [] {
      assert LeadingWhitespace(t) == 0;
      assert t[0..] == t;
      assert TrailingWhitespace(t) == 0;
    }
  }

  /** A string with no whitespace at either end is its own trim, and is not
      blank. */
  lemma TrimUnchanged(s: String)
    requires s != [] && !IsWhitespace(s[0]) && !IsWhitespace(s[|s| - 1])
    ensures Trim(s) == s && !IsBlank(s)
  {
    assert LeadingWhitespace(s) == 0;
    assert s[0..] == s;
    assert TrailingWhitespace(s) == 0;
  }

  /** A text made of whitespace around a core of non-whitespace ends
      trims to that core. */
  lemma TrimSliceOf(s: String, a: nat, b: nat)
    requires a < b <= |s|
    requires forall i :: 0 <= i < a ==> IsWhitespace(s[i])
    requires forall i :: b <= i < |s| ==> IsWhitespace(s[i])
    requires !IsWhitespace(s[a]) && !IsWhitespace(s[b - 1])
    ensures Trim(s) == s[a..b]
  {
    assert LeadingWhitespace(s) == a by {
      LeadingWhitespaceUnique(s, a);
    }
    var rest := s[a..];
    TrailingWhitespaceUnique(rest, |s| - b);
    assert rest[..|rest| - (|s| - b)] == s[a..b];
  }

  lemma {:induction false} LeadingWhitespaceUnique(s: String, n: nat)
    requires n < |s|
    requires forall i :: 0 <= i < n ==> IsWhitespace(s[i])
    requires !IsWhitespace(s[n])
    ensures LeadingWhitespace(s) == n
  {
    if n > 0 {
      assert forall i :: 0 <= i < |s[1..]| ==> s[1..][i] == s[i + 1];
      LeadingWhitespaceUnique(s[1..], n - 1);
    }
  }

  lemma {:induction false} TrailingWhitespaceUnique(s: String, n: nat)
    requires n < |s|
    requires forall i :: |s| - n <= i < |s| ==> IsWhitespace(s[i])
    requires !IsWhitespace(s[|s| - n - 1])
    ensures TrailingWhitespace(s) == n
  {
    if n > 0 {
      var init := s[..|s| - 1];
      assert forall i :: 0 <= i < |init| ==> init[i] == s[i];
      TrailingWhitespaceUnique(init, n - 1);
    }
  }
  function StartsWith(s: String, prefix: String): bool {
    |prefix| <= |s| && s[..|prefix|] == prefix
  }

  function EndsWith(s: String, suffix: String): bool {
    |suffix| <= |s| && s[|s| - |suffix|..] == suffix
  }

  /** Locale-independent simple lower-casing of one character. It covers the
      capitals of Basic Latin, Latin-1, Latin Extended-A, the Vietnamese
      letters of Latin Extended-B (U+01A0, U+01AF), Latin Extended
      Additional, Greek, Cyrillic and Cyrillic Supplement, and Armenian;
      any other character is kept. */
  function ToLowerChar(c: char): char {
    var n := c as int;
    if ('A' <= c <= 'Z') || (0xC0 <= n <= 0xDE && n != 0xD7) ||
       (0x391 <= n <= 0x3AB && n != 0x3A2) || (0x410 <= n <= 0x42F)
    then (n + 32) as char
    else if 0x400 <= n <= 0x40F then (n + 0x50) as char
    else if 0x531 <= n <= 0x556 then (n + 48) as char
    else if 0x388 <= n <= 0x38A then (n + 37) as char
    else if n == 0x386 then 0x3AC as char
    else if n == 0x38C then 0x3CC as char
    else if n == 0x38E || n == 0x38F then (n + 63) as char
    else if n == 0x178 then 0xFF as char
    else if PairedCapital(n) then (n + 1) as char
    else c
  }

  /** Capitals directly followed by their small letter. */
  predicate PairedCapital(n: int) {
    (n % 2 == 0 &&
      (0x100 <= n <= 0x12F || 0x132 <= n <= 0x137 || 0x14A <= n <= 0x177 ||
       0x3D8 <= n <= 0x3EF || 0x460 <= n <= 0x481 || 0x48A <= n <= 0x4BF ||
       0x4D0 <= n <= 0x52F || 0x1E00 <= n <= 0x1E95 || 0x1EA0 <= n <= 0x1EFF)) ||
    (n % 2 == 1 && (0x139 <= n <= 0x148 || 0x179 <= n <= 0x17E || 0x4C1 <= n <= 0x4CE)) ||
    n == 0x1A0 || n == 0x1AF
  }

  /** Capitals of the bundled Russian, Turkish and Vietnamese patterns
      lower-case to their small letters: Ё, Ş, Đ, Ơ and Ạ. */
  lemma LowerCaseCapitals()
    ensures ToLowerChar('\U{0401}') == '\U{0451}' && ToLowerChar('\U{015E}') == '\U{015F}'
    ensures ToLowerChar('\U{0110}') == '\U{0111}' && ToLowerChar('\U{01A0}') == '\U{01A1}'
    ensures ToLowerChar('\U{1EA0}') == '\U{1EA1}' && ToLowerChar('\U{0141}') == '\U{0142}'
  {
  }

  function ToLower(s: String): (r: String)
    ensures |r| == |s|
    ensures forall i :: 0 <= i < |s| ==> r[i] == ToLowerChar(s[i])
  {
    if s == [] then [] else [ToLowerChar(s[0])] + ToLower(s[1..])
  }

  /** Small ASCII letters are already lower case. */
  lemma ToLowerKeepsSmall(s: String)
    requires forall i :: 0 <= i < |s| ==> 'a' <= s[i] <= 'z'
    ensures ToLower(s) == s
  {
  }

  function ToUpperAsciiChar(c: char): char {
    if 'a' <= c <= 'z' then (c as int - 32) as char else c
  }

  function ToUpperAscii(s: String): (r: String)
    ensures |r| == |s|
    ensures forall i :: 0 <= i < |s| ==> r[i] == ToUpperAsciiChar(s[i])
  {
    if s == [] then [] else [ToUpperAsciiChar(s[0])] + ToUpperAscii(s[1..])
  }

  /** Joins a list of strings (`joinToString("")`). */
  function Concat(parts: seq<String>): String {
    if parts == [] then [] else parts[0] + Concat(parts[1..])
  }

  lemma ConcatCons(x: String, rest: seq<String>)
    ensures Concat([x] + rest) == x + Concat(rest)
  {
    assert ([x] + rest)[1..] == rest;
  }

  lemma {:induction false} ConcatAppend(a: seq<String>, b: seq<String>)
    ensures Concat(a + b) == Concat(a) + Concat(b)
  {
    if a == [] {
      assert a + b == b;
    } else {
      assert (a + b)[1..] == a[1..] + b;
      ConcatAppend(a[1..], b);
    }
  }

  lemma ConcatSnoc(a: seq<String>, x: String)
    ensures Concat(a + [x]) == Concat(a) + x
  {
    ConcatAppend(a, [x]);
    assert Concat([x]) == x + Concat([]);
  }

  /** Keeps the non-empty strings (`filter { it.isNotEmpty() }`). */
  function NonEmpty(parts: seq<String>): (r: seq<String>)
    ensures forall i :: 0 <= i < |r| ==> r[i] != []
    ensures |r| <= |parts|
  {
    if parts == [] then []
    else if parts[0] == [] then NonEmpty(parts[1..])
    else [parts[0]] + NonEmpty(parts[1..])
  }

  lemma {:induction false} NonEmptyAppend(a: seq<String>, b: seq<String>)
    ensures NonEmpty(a + b) == NonEmpty(a) + NonEmpty(b)
  {
    if a == [] {
      assert a + b == b;
    } else {
      assert (a + b)[1..] == a[1..] + b;
      NonEmptyAppend(a[1..], b);
    }
  }

  /** Dropping empty strings does not change the concatenation. */
  lemma {:induction false} NonEmptyConcat(parts: seq<String>)
    ensures Concat(NonEmpty(parts)) == Concat(parts)
  {
    if parts != [] {
      NonEmptyConcat(parts[1..]);
    }
  }

  /** Number of letters and digits in a string. */
  function AlnumCount(s: String): (n: nat)
    ensures n <= |s|
  {
    if s == [] then 0 else (if IsLetterOrDigit(s[0]) then 1 else 0) + AlnumCount(s[1..])
  }

  lemma {:induction false} AlnumCountAppend(a: String, b: String)
    ensures AlnumCount(a + b) == AlnumCount(a) + AlnumCount(b)
  {
    if a == [] {
      assert a + b == b;
    } else {
      assert (a + b)[1..] == a[1..] + b;
      AlnumCountAppend(a[1..], b);
    }
  }

  /** Adjacent slices join into one. */
  lemma SliceJoin<T>(s: seq<T>, i: nat, j: nat, k: nat)
    requires i <= j <= k <= |s|
    ensures s[i..j] + s[j..k] == s[i..k]
  {
  }

  /** Three adjacent slices rebuild the sequence. */
  lemma SplitThree<T>(s: seq<T>, a: nat, b: nat)
    requires a <= b <= |s|
    ensures s[..a] + s[a..b] + s[b..] == s
  {
    assert s[..a] + s[a..b] == s[..b];
  }

  /** A non-empty sequence is its front followed by its last element. */
  lemma SnocLast<T>(s: seq<T>)
    requires s != []
    ensures s[..|s| - 1] + [s[|s| - 1]] == s
  {
  }

  lemma AppendAssoc<T>(a: seq<T>, b: seq<T>, c: seq<T>)
    ensures (a + b) + c == a + (b + c)
  {
  }

  /** A prefix extended by the next element is the longer prefix. */
  lemma SliceSnoc<T>(s: seq<T>, k: nat)
    requires k < |s|
    ensures s[..k] + [s[k]] == s[..k + 1]
  {
  }

  /** A non-empty suffix is its first element followed by the rest. */
  lemma DropCons<T>(s: seq<T>, i: nat)
    requires i < |s|
    ensures s[i..] == [s[i]] + s[i + 1..]
  {
  }

  /** The results of `f` on the elements of `xs`, one after the other. */
  function FlatMap<T, U>(f: T -> seq<U>, xs: seq<T>): seq<U> {
    if xs == [] then [] else FlatMap(f, xs[..|xs| - 1]) + f(xs[|xs| - 1])
  }

  lemma {:induction false} FlatMapAppend<T, U>(f: T -> seq<U>, a: seq<T>, b: seq<T>)
    ensures FlatMap(f, a + b) == FlatMap(f, a) + FlatMap(f, b)
    decreases |b|
  {
    if b == [] {
      assert a + b == a;
    } else {
      var ab := a + b;
      assert ab[..|ab| - 1] == a + b[..|b| - 1] && ab[|ab| - 1] == b[|b| - 1];
      FlatMapAppend(f, a, b[..|b| - 1]);
    }
  }

  function Max(a: int, b: int): int {
    if a >= b then a else b
  }
}
