/** `isUrl` (ReaderActivity.kt): whether the text pasted into the reader
    is a web address to fetch rather than text to read. */
module Url {
  import opened Text

  /** `isUrl`: the trimmed text is not empty and starts with `http://` or
      `https://`, letter case counting. */
  function IsUrl(value: String): (r: bool)
    ensures IsBlank(value) ==> !r
    ensures r <==> StartsWith(Trim(value), "http://") || StartsWith(Trim(value), "https://")
  {
    TrimEmptyIffBlank(value);
    var trimmed := Trim(value);
    if trimmed == [] then false
    else StartsWith(trimmed, "http://") || StartsWith(trimmed, "https://")
  }

  /** Only the trimmed text counts: whitespace around it, which `Trim`
      removes and nothing else, makes no difference. */
  lemma IsUrlIgnoresSurroundingWhitespace(value: String)
    ensures IsUrl(value) == IsUrl(Trim(value))
  {
    TrimIdempotent(value);
  }

  /** A text with no whitespace at its ends is a web address exactly
      when it starts with one of the two schemes. */
  lemma IsUrlOfTrimmed(s: String)
    requires s != [] && !IsWhitespace(s[0]) && !IsWhitespace(s[|s| - 1])
    ensures IsUrl(s) <==> StartsWith(s, "http://") || StartsWith(s, "https://")
  {
    TrimUnchanged(s);
  }

  lemma SecureAddress()
    ensures IsUrl("https://a.b")
  {
    var s := "https://a.b";
    IsUrlOfTrimmed(s);
    assert s[..8] == "https://";
  }

  lemma PaddedAddress()
    ensures IsUrl(" http://a.b ")
  {
    var s := " http://a.b ";
    TrimSliceOf(s, 1, 11);
    assert s[1..11] == "http://a.b";
    assert "http://a.b"[..7] == "http://";
  }

  /** The scheme test is case-sensitive. */
  lemma UpperCaseScheme()
    ensures !IsUrl("HTTP://a.b")
  {
    var s := "HTTP://a.b";
    IsUrlOfTrimmed(s);
    assert s[0] != 'h';
  }

  /** Only the two web schemes count. */
  lemma OtherScheme()
    ensures !IsUrl("ftp://a.b")
  {
    var s := "ftp://a.b";
    IsUrlOfTrimmed(s);
    assert s[0] != 'h';
  }
}
