/** The CSeq header value: "<sequence number> <method>". */
module CSeq {
  import opened Common
  import Text
  import Numbers

  /** Section 8.1.1.5 of RFC 3261: a CSeq number is below 2**31. */
  const MaxCSeq: nat := 0x7FFF_FFFF

  /** The white-space characters of the ABNF (SP and HTAB). */
  const Whitespace: set<char> := {' ', '\t'}

  datatype CSeqHeader = CSeqHeader(seqNo: nat, methodName: string)

  /** parseCSeq: split at the first white-space character, read the number
      before it as a 32-bit unsigned decimal and keep everything after it,
      untrimmed, as the method. strconv's error is returned as it is. */
  function ParseCSeq(text: string): (r: Result<CSeqHeader>)
    ensures r.Ok? ==>
              var k := |text| - |r.value.methodName| - 1;
              1 <= k && |r.value.methodName| >= 1 && text[k] in Whitespace
              && Numbers.AllDigits(text[..k]) && Numbers.DigitsValue(text[..k]) == r.value.seqNo
              && r.value.seqNo <= MaxCSeq && text[k + 1..] == r.value.methodName
    ensures (forall i :: 0 <= i < |text| ==> text[i] !in Whitespace) ==> r == Err(BadCSeq(text))
    ensures r.Err? ==> r.error.BadCSeq? || r.error.NumberSyntax? || r.error.NumberRange? || r.error.CSeqTooLarge?
  {
    var ind := Text.IndexOfAny(text, Whitespace);
    if ind < 1 || |text| - ind < 2 then Err(BadCSeq(text))
    else
      var n := Numbers.ParseUint32(text[..ind]);
      if n.err.Some? then Err(n.err.value)
      else if n.value > MaxCSeq then Err(CSeqTooLarge(n.value))
      else Ok(CSeqHeader(n.value, text[ind + 1..]))
  }

  /** The method text is everything after the first white-space character. */
  lemma {:induction false} ParseCSeqOfPrint(n: nat, sep: char, m: string)
    requires sep in Whitespace && m != []
    ensures ParseCSeq(Numbers.NatToString(n) + [sep] + m)
            == if n <= MaxCSeq then Ok(CSeqHeader(n, m))
               else if n <= Numbers.MaxUint32 then Err(CSeqTooLarge(n))
               else Err(NumberRange(Numbers.NatToString(n)))
  {
    var d := Numbers.NatToString(n);
    var text := d + [sep] + m;
    assert forall i :: 0 <= i < |d| ==> text[i] == d[i] && Numbers.IsDigit(d[i]);
    assert text[|d|] == sep;
    assert Text.IndexOfAny(text, Whitespace) == |d|;
    assert text[..|d|] == d;
    assert text[|d| + 1..] == m;
    Numbers.DigitsValueOfNatToString(n);
  }

  /** A number in range followed by one blank and a method reads back. */
  lemma CSeqRoundTrip(h: CSeqHeader)
    requires h.seqNo <= MaxCSeq && h.methodName != []
    ensures ParseCSeq(Numbers.NatToString(h.seqNo) + " " + h.methodName) == Ok(h)
  {
    ParseCSeqOfPrint(h.seqNo, ' ', h.methodName);
  }

  /** A sequence number at the start of the text, or a method of fewer than
      one character, is rejected. */
  lemma CSeqNeedsBothParts(text: string)
    requires |text| > 0 && text[0] in Whitespace
    ensures ParseCSeq(text) == Err(BadCSeq(text))
  {
  }
}
