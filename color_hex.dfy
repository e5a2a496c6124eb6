/** The colour fields of the settings screen (MainActivity.kt): `#RRGGBB`
    or `#AARRGGBB` text read into a 32-bit ARGB `Int`, and an `Int`
    written back as `#AARRGGBB`. */
module ColorHex {
  import opened Text
  import opened Ints

  /** A hexadecimal digit once the text is upper-cased. */
  predicate IsHexDigit(c: char) {
    ('0' <= c <= '9') || ('A' <= c <= 'F')
  }

  function HexValue(c: char): (v: nat)
    requires IsHexDigit(c)
    ensures v < 16
  {
    if '0' <= c <= '9' then c as int - '0' as int else c as int - 'A' as int + 10
  }

  /** The upper-case digit of a value below 16. */
  function HexChar(v: nat): (c: char)
    requires v < 16
    ensures IsHexDigit(c) && HexValue(c) == v
  {
    if v < 10 then ('0' as int + v) as char else ('A' as int + v - 10) as char
  }

  predicate AllHexDigits(s: String) {
    forall i :: 0 <= i < |s| ==> IsHexDigit(s[i])
  }

  /** The number a string of hexadecimal digits denotes, most significant
      digit first. */
  function HexNumber(s: String): (n: nat)
    requires AllHexDigits(s)
    ensures n < Pow16(|s|)
  {
    if s == [] then 0 else 16 * HexNumber(s[..|s| - 1]) + HexValue(s[|s| - 1])
  }

  function Pow16(n: nat): (p: nat)
    ensures p >= 1
  {
    if n == 0 then 1 else 16 * Pow16(n - 1)
  }

  /** `toLongOrNull(16)` on a string of at most eight characters (so that
      no `Long` overflow can happen): an optional `+` or `-` before at
      least one hexadecimal digit, and nothing else. */
  function ParseHexLong(s: String): (r: Option<int>)
    ensures r.Some? && s != [] && s[0] != '-' ==> r.value >= 0
    ensures s != [] && AllHexDigits(s) ==> r == Some(HexNumber(s))
    ensures s == [] ==> r.None?
  {
    if s == [] then None
    else if s[0] < '0' then
      if |s| == 1 then None
      else if s[0] == '-' && AllHexDigits(s[1..]) then Some(-(HexNumber(s[1..]) as int))
      else if s[0] == '+' && AllHexDigits(s[1..]) then Some(HexNumber(s[1..]))
      else None
    else if AllHexDigits(s) then Some(HexNumber(s))
    else None
  }

  /** `(0xFF shl 24) or x`: the low 24 bits of `x` under an opaque alpha
      byte (`OrSetsTopByte` is the identity in 32-bit arithmetic). */
  function WithOpaqueAlpha(x: int): (r: int)
    ensures IsInt32(r)
  {
    ToInt32(0xFF00_0000 + Unsigned32(x) % 0x100_0000)
  }

  /** Or-ing the alpha mask into 32 bits sets the top byte and keeps the
      other three. */
  lemma OrSetsTopByte(x: bv32)
    ensures 0xFF00_0000 | x == 0xFF00_0000 + (x & 0xFF_FFFF)
  {
  }

  /** The six or eight characters after trimming and dropping one `#`,
      or nothing. */
  function ColorBody(value: String): (r: Option<String>)
    ensures IsBlank(value) ==> r.None?
    ensures r.Some? ==> |r.value| == 6 || |r.value| == 8
  {
    TrimEmptyIffBlank(value);
    var trimmed := Trim(value);
    if trimmed == [] then None
    else
      var normalized := if StartsWith(trimmed, "#") then trimmed[1..] else trimmed;
      if |normalized| != 6 && |normalized| != 8 then None else Some(normalized)
  }

  /** The body upper-cased and read base 16; six digits get the opaque
      alpha, eight are the 32 bits of the colour. */
  function ParseBody(body: String): (r: Option<int>)
    ensures r.Some? ==> IsInt32(r.value)
  {
    var hex := ToUpperAscii(body);
    match ParseHexLong(hex)
    case None => None
    case Some(colorLong) =>
      if |hex| == 6 then Some(WithOpaqueAlpha(ToInt32(colorLong))) else Some(ToInt32(colorLong))
  }

  /** `parseColorHex`: trimmed, one optional `#` dropped, then six or eight
      characters read base 16 case-insensitively; six digits get an opaque
      alpha. Anything else gives null. */
  function ParseColorHex(value: String): (r: Option<int>)
    ensures IsBlank(value) ==> r.None?
    ensures r.Some? ==> IsInt32(r.value)
    ensures ColorBody(value).None? ==> r.None?
  {
    match ColorBody(value)
    case None => None
    case Some(body) => ParseBody(body)
  }

  /** The body of a text with no whitespace at its ends: the text itself,
      or what follows its `#`, when of the right length. */
  lemma ColorBodyOfTrimmed(s: String)
    requires s != [] && !IsWhitespace(s[0]) && !IsWhitespace(s[|s| - 1])
    ensures s[0] == '#' ==> ColorBody(s) == (if |s| - 1 == 6 || |s| - 1 == 8 then Some(s[1..]) else None)
    ensures s[0] != '#' ==> ColorBody(s) == (if |s| == 6 || |s| == 8 then Some(s) else None)
  {
    TrimUnchanged(s);
    assert StartsWith(s, "#") <==> s[0] == '#';
  }

  /** The `width` low hexadecimal digits of `n`, upper-case, most
      significant first. */
  function HexDigits(n: nat, width: nat): (s: String)
    ensures |s| == width && AllHexDigits(s)
  {
    if width == 0 then [] else HexDigits(n / 16, width - 1) + [HexChar(n % 16)]
  }

  /** `toHexString`: `String.format("#%08X", this)`, the 32 bits of the
      `Int` as eight upper-case digits. */
  function ToHexString(c: int): (s: String)
    ensures |s| == 9 && s[0] == '#' && AllHexDigits(s[1..])
  {
    "#" + HexDigits(Unsigned32(c), 8)
  }

  /** Reading the digits back gives the number, when it fits the width. */
  lemma {:induction false} HexDigitsRoundTrip(n: nat, width: nat)
    requires n < Pow16(width)
    ensures HexNumber(HexDigits(n, width)) == n
  {
    if width > 0 {
      var s := HexDigits(n, width);
      assert s[..|s| - 1] == HexDigits(n / 16, width - 1);
      HexDigitsRoundTrip(n / 16, width - 1);
    }
  }

  /** Upper-casing leaves upper-case hexadecimal digits alone. */
  lemma UpperHexUnchanged(s: String)
    requires AllHexDigits(s)
    ensures ToUpperAscii(s) == s
  {
  }

  /** A body of hexadecimal digits: six give the colour with alpha 0xFF,
      eight the `Int` with those 32 bits. */
  lemma ParseHexBody(body: String)
    requires |body| == 6 || |body| == 8
    requires AllHexDigits(body)
    ensures |body| == 8 ==> ParseBody(body) == Some(ToInt32(HexNumber(body)))
    ensures |body| == 6 ==> ParseBody(body) == Some(ToInt32(0xFF00_0000 + HexNumber(body)))
  {
    UpperHexUnchanged(body);
    if |body| == 6 {
      assert Pow16(6) == 0x100_0000 by {
        assert Pow16(3) == 0x1000;
      }
      var v := HexNumber(body);
      assert ToInt32(v) == v;
      assert Unsigned32(v) == v;
    }
  }

  /** Writing a colour and reading it back gives the same colour. */
  lemma ParseOfToHexString(c: int)
    requires IsInt32(c)
    ensures ParseColorHex(ToHexString(c)) == Some(c)
  {
    var s := ToHexString(c);
    var digits := HexDigits(Unsigned32(c), 8);
    assert s[1..] == digits;
    ColorBodyOfTrimmed(s);
    assert Pow16(8) == TWO_32 by {
      assert Pow16(4) == 0x1_0000;
    }
    HexDigitsRoundTrip(Unsigned32(c), 8);
    ParseHexBody(digits);
    UnsignedRoundTrip(c);
  }

  /** "#" and six or eight digits: the colour the digits spell, opaque when
      there are six. */
  lemma ParseDigits(body: String)
    requires |body| == 6 || |body| == 8
    requires AllHexDigits(body)
    ensures |body| == 8 ==> ParseColorHex("#" + body) == Some(ToInt32(HexNumber(body)))
    ensures |body| == 6 ==> ParseColorHex("#" + body) == Some(ToInt32(0xFF00_0000 + HexNumber(body)))
  {
    var s := "#" + body;
    assert s[1..] == body;
    ColorBodyOfTrimmed(s);
    ParseHexBody(body);
  }

  /** The `#` is optional: a body reads the same with and without it. */
  lemma HashOptional(body: String)
    requires body != [] && body[0] != '#'
    requires !IsWhitespace(body[0]) && !IsWhitespace(body[|body| - 1])
    ensures ParseColorHex("#" + body) == ParseColorHex(body)
  {
    var s := "#" + body;
    assert s[1..] == body;
    ColorBodyOfTrimmed(s);
    ColorBodyOfTrimmed(body);
  }

  /** Lower-case letters read as their upper-case forms. */
  lemma CaseInsensitive(body: String)
    ensures ParseBody(body) == ParseBody(ToUpperAscii(body))
  {
    var up := ToUpperAscii(body);
    assert ToUpperAscii(up) == up;
  }

  /** Bodies of the wrong length, and bodies that are not hexadecimal, are
      rejected. */
  lemma RejectedExamples()
    ensures ParseColorHex("#FFF") == None
    ensures ParseColorHex("#GGGGGG") == None
  {
    ColorBodyOfTrimmed("#FFF");
    ColorBodyOfTrimmed("#GGGGGG");
    assert "#GGGGGG"[1..] == "GGGGGG";
    assert ToUpperAscii("GGGGGG") == "GGGGGG";
    assert !AllHexDigits("GGGGGG");
  }

  /** Whitespace around the text and lower-case digits are accepted. */
  lemma PaddedLowerCaseExample()
    ensures ParseColorHex("  #ff0000 ") == Some(ToInt32(0xFFFF_0000))
  {
    PaddedBody();
    RedBody();
  }

  lemma PaddedBody()
    ensures ColorBody("  #ff0000 ") == Some("ff0000")
  {
    var red := "  #ff0000 ";
    TrimSliceOf(red, 2, 9);
    assert red[2..9] == "#ff0000";
    assert StartsWith("#ff0000", "#");
    assert "#ff0000"[1..] == "ff0000";
  }

  lemma RedBody()
    ensures ParseBody("ff0000") == Some(ToInt32(0xFFFF_0000))
  {
    assert ToUpperAscii("ff0000") == "FF0000";
    assert AllHexDigits("FF0000");
    assert HexNumber("FF0000") == 0xFF_0000 by {
      assert HexNumber("FF") == 0xFF;
      assert "FF0000"[..5] == "FF000" && "FF000"[..4] == "FF00";
      assert "FF00"[..3] == "FF0" && "FF0"[..2] == "FF";
    }
    ParseHexBody("FF0000");
    CaseInsensitive("ff0000");
  }

  /** As in `toLongOrNull`, a sign before the digits is accepted: "-00001"
      reads as -1, which with the alpha byte set is still -1, opaque
      white. */
  lemma SignedExample()
    ensures ParseColorHex("-00001") == Some(-1)
  {
    ColorBodyOfTrimmed("-00001");
    MinusOneParsed();
    assert WithOpaqueAlpha(-1) == -1 by {
      assert Unsigned32(-1) == 0xFFFF_FFFF;
    }
  }

  lemma MinusOneParsed()
    ensures ParseHexLong(ToUpperAscii("-00001")) == Some(-1)
  {
    assert ToUpperAscii("-00001") == "-00001";
    assert "-00001"[1..] == "00001";
    assert AllHexDigits("00001");
    assert HexNumber("00001") == 1 by {
      assert "00001"[..4] == "0000" && "0000"[..3] == "000" && "000"[..2] == "00" && "00"[..1] == "0";
    }
  }
}
