/** The Content-Length and Content-Type header values. */
module Content {
  import opened Common
  import Text
  import Numbers

  /** What parseContentLength hands back: the header (always present) and
      strconv's error. */
  datatype ContentLengthResult = ContentLengthResult(length: nat, err: Option<Error>)

  /** parseContentLength: a 32-bit unsigned decimal after trimming white
      space; on error the header still carries strconv's value. */
  function ParseContentLength(text: string): (r: ContentLengthResult)
    ensures var t := Text.TrimSpace(text);
            (r.err.None? <==> t != [] && Numbers.AllDigits(t) && Numbers.DigitsValue(t) <= Numbers.MaxUint32)
            && (r.err.None? ==> r.length == Numbers.DigitsValue(t))
            && (r.err.Some? ==> r.err == Some(NumberSyntax(t)) || r.err == Some(NumberRange(t)))
            && r.length <= Numbers.MaxUint32
  {
    var n := Numbers.ParseUint32(Text.TrimSpace(text));
    ContentLengthResult(n.value, n.err)
  }

  /** A printed length, padded with white space, reads back. */
  lemma ContentLengthRoundTrip(a: string, n: nat, b: string)
    requires Text.AllSpace(a) && Text.AllSpace(b) && n <= Numbers.MaxUint32
    ensures ParseContentLength(a + Numbers.NatToString(n) + b) == ContentLengthResult(n, None)
  {
    var d := Numbers.NatToString(n);
    assert !Text.IsSpace(d[0]) && !Text.IsSpace(d[|d| - 1]);
    Text.TrimSpacePadded(a, d, b);
    Numbers.ParseUint32OfNatToString(n);
  }

  /** parseContentType: the trimmed text; it never fails. */
  function ParseContentType(text: string): (r: string)
    ensures r == [] || (!Text.IsSpace(r[0]) && !Text.IsSpace(r[|r| - 1]))
    ensures exists i, j :: 0 <= i <= j <= |text| && r == text[i..j]
  {
    Text.TrimSpace(text)
  }

  /** Re-parsing a parsed Content-Type gives the same value. */
  lemma ContentTypeIdempotent(text: string)
    ensures ParseContentType(ParseContentType(text)) == ParseContentType(text)
  {
    Text.TrimSpaceIdempotent(text);
  }

  /** White space around a Content-Type is dropped and nothing else. */
  lemma ContentTypePadded(a: string, t: string, b: string)
    requires Text.AllSpace(a) && Text.AllSpace(b)
    requires t == [] || (!Text.IsSpace(t[0]) && !Text.IsSpace(t[|t| - 1]))
    ensures ParseContentType(a + t + b) == t
  {
    Text.TrimSpacePadded(a, t, b);
  }
}
