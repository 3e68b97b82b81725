/** The address parser of From, To, Contact, Route and Record-Route values
    (name-addr and addr-spec of section 20.10 of RFC 3261): one character
    scan that tracks where the display name, the URI and the header
    parameters start and end, then a URI parse of the bracketed (or leading)
    text. */
module SipAddress {
  import opened Common
  import Text
  import HP = HeaderParams
  import SipUri

  /** How the scan stopped: still running when the text ran out, returned
      early at a '*', or stopped by a Go run-time panic. */
  datatype Outcome = Running | Wildcard | Panicked(reason: string)

  /** The caller's header-parameter map; `None` is a Go nil map, which
      reads as empty and panics when written. */
  type ParamMap = Option<HP.Params>

  /** Go's message for a write into a nil map. */
  const NilMapWrite: string := "assignment to entry in nil map"

  /** The scan's loop variables, plus the header parameters the loop adds to
      the caller's map. Index variables use -1 for "not seen". */
  datatype Scan = Scan(
    semicolon: int,
    equal: int,
    startQuote: int,
    endQuote: int,
    name: string,
    displayName: string,
    uriStart: nat,
    uriEnd: int,
    inBrackets: bool,
    params: ParamMap,
    outcome: Outcome)

  function Start(p: ParamMap): Scan {
    Scan(-1, -1, -1, -1, "", "", 0, -1, false, p, Running)
  }

  /** The ranges the index variables stay in after `n` characters. */
  predicate Bounded(s: Scan, n: nat) {
    -1 <= s.semicolon < n && -1 <= s.equal < n
    && -1 <= s.startQuote <= s.endQuote < n && (s.startQuote < 0 <==> s.endQuote < 0)
    && s.uriStart <= n && -1 <= s.uriEnd < n
  }

  /** One iteration of the scan, on the character at index `i`. */
  function Step(text: string, i: nat, s: Scan): (r: Scan)
    requires i < |text| && Bounded(s, i)
    ensures Bounded(r, i + 1)
  {
    var c := text[i];
    if c == '"' then
      s.(startQuote := if s.startQuote < 0 then i else s.startQuote, endQuote := i)
    else if c == '<' then
      if s.uriStart > 0 then s
      else if s.endQuote > 0 then
        if s.startQuote + 1 > s.endQuote then s.(outcome := Panicked("slice bounds out of range"))
        else s.(displayName := text[s.startQuote + 1..s.endQuote], startQuote := -1, endQuote := -1,
                uriStart := i + 1, inBrackets := true)
      else s.(displayName := Text.TrimSpace(text[..i]), uriStart := i + 1, inBrackets := true)
    else if c == '>' then
      s.(uriEnd := i, equal := -1, inBrackets := false)
    else if c == ';' then
      if s.inBrackets then s.(semicolon := i)
      else if s.uriEnd < 0 then s.(semicolon := i, uriEnd := i)
      else if s.equal > 0 then
        if s.params.None? then s.(outcome := Panicked(NilMapWrite))
        else s.(semicolon := i, params := Some(HP.Add(s.params.value, s.name, text[s.equal + 1..i])), name := "", equal := 0)
      else s.(semicolon := i)
    else if c == '=' then
      s.(name := text[s.semicolon + 1..i], equal := i)
    else if c == '*' then
      if s.startQuote > 0 || s.uriStart > 0 then s else s.(outcome := Wildcard)
    else s
  }

  /** The scan state after the first `n` characters; it stays put once the
      scan has stopped. */
  function ScanTo(text: string, n: nat, p: ParamMap): (s: Scan)
    requires n <= |text|
    ensures Bounded(s, n)
  {
    if n == 0 then Start(p)
    else
      var s := ScanTo(text, n - 1, p);
      if s.outcome.Running? then Step(text, n - 1, s) else s
  }

  /** What ParseAddressValue hands back: the display name, the caller's Uri
      as written, the caller's header parameters as written, and the error. */
  datatype AddressResult = AddressResult(displayName: string, uri: SipUri.Uri, params: ParamMap, err: Option<Error>)

  /** What happens after the scan: the URI text is parsed into the caller's
      Uri, and a pending last parameter is added when that succeeds. */
  function Finish(text: string, s: Scan, uri: SipUri.Uri): AddressResult
    requires Bounded(s, |text|)
  {
    match s.outcome
    case Wildcard => AddressResult(s.displayName, uri, s.params, None)
    case Panicked(why) => AddressResult(s.displayName, uri, s.params, Some(Panic(why)))
    case Running =>
      var uriEnd := if s.uriEnd < 0 then |text| else s.uriEnd;
      if s.uriStart > uriEnd then
        AddressResult(s.displayName, uri, s.params, Some(Panic("slice bounds out of range")))
      else
        var u := SipUri.Run(SipUri.SipPrefix, uri, text[s.uriStart..uriEnd]);
        if u.err.Some? then AddressResult(s.displayName, u.uri, s.params, u.err)
        else if s.equal > 0 then
          if s.params.None? then AddressResult(s.displayName, u.uri, s.params, Some(Panic(NilMapWrite)))
          else AddressResult(s.displayName, u.uri, Some(HP.Add(s.params.value, s.name, text[s.equal + 1..])), None)
        else AddressResult(s.displayName, u.uri, s.params, None)
  }

  /** ParseAddressValue as a function of its inputs. */
  function AddressValue(text: string, uri: SipUri.Uri, p: ParamMap): AddressResult {
    Finish(text, ScanTo(text, |text|, p), uri)
  }

  /** One more character: a running scan takes one step. */
  lemma ScanNextStep(text: string, n: nat, p: ParamMap)
    requires n < |text| && ScanTo(text, n, p).outcome.Running?
    ensures ScanTo(text, n + 1, p) == Step(text, n, ScanTo(text, n, p))
  {
  }

  /** Once the scan has stopped it stays stopped. */
  lemma {:induction false} ScanStops(text: string, n: nat, m: nat, p: ParamMap)
    requires n <= m <= |text| && !ScanTo(text, n, p).outcome.Running?
    ensures ScanTo(text, m, p) == ScanTo(text, n, p)
    decreases m - n
  {
    if n < m {
      ScanStops(text, n, m - 1, p);
    }
  }

  /** The body of the scan loop: the switch on the character at `i`, over
      the loop variables held in `s`. A '*' that counts, and a display-name
      slice whose bounds are reversed, end the scan. */
  method ScanChar(text: string, i: nat, s: Scan) returns (t: Scan)
    requires i < |text| && Bounded(s, i) && s.outcome.Running?
    ensures t == Step(text, i, s)
  {
    var semicolon, equal, startQuote, endQuote := s.semicolon, s.equal, s.startQuote, s.endQuote;
    var name, displayName := s.name, s.displayName;
    var uriStart, uriEnd := s.uriStart, s.uriEnd;
    var inBrackets := s.inBrackets;
    var p := s.params;
    var c := text[i];
    if c == '"' {
      if startQuote < 0 {
        startQuote := i;
      }
      endQuote := i;
    } else if c == '<' {
      if uriStart == 0 {
        if endQuote > 0 {
          if startQuote + 1 > endQuote {
            return s.(outcome := Panicked("slice bounds out of range"));
          }
          displayName := text[startQuote + 1..endQuote];
          startQuote, endQuote := -1, -1;
        } else {
          displayName := Text.TrimSpace(text[..i]);
        }
        uriStart := i + 1;
        inBrackets := true;
      }
    } else if c == '>' {
      uriEnd := i;
      equal := -1;
      inBrackets := false;
    } else if c == ';' {
      semicolon := i;
      if !inBrackets {
        if uriEnd < 0 {
          uriEnd := i;
        } else if equal > 0 {
          if p.None? {
            return s.(outcome := Panicked(NilMapWrite));
          }
          p := Some(HP.Add(p.value, name, text[equal + 1..i]));
          name := "";
          equal := 0;
        }
      }
    } else if c == '=' {
      name := text[semicolon + 1..i];
      equal := i;
    } else if c == '*' {
      if !(startQuote > 0 || uriStart > 0) {
        return s.(outcome := Wildcard);
      }
    }
    t := Scan(semicolon, equal, startQuote, endQuote, name, displayName, uriStart, uriEnd, inBrackets, p, Running);
  }

  /** ParseAddressValue: scan, then parse the URI text into the caller's
      Uri and add the pending last parameter. The header parameters are the
      caller's map, so the result carries them as written even on error. */
  method ParseAddressValue(text: string, uri: SipUri.Uri, params: ParamMap) returns (r: AddressResult)
    ensures r == AddressValue(text, uri, params)
  {
    var s := Start(params);
    var i := 0;
    while i < |text|
      invariant 0 <= i <= |text| && s == ScanTo(text, i, params) && s.outcome.Running?
    {
      ScanNextStep(text, i, params);
      s := ScanChar(text, i, s);
      if !s.outcome.Running? {
        ScanStops(text, i + 1, |text|, params);
        var err := if s.outcome.Wildcard? then None else Some(Panic(s.outcome.reason));
        return AddressResult(s.displayName, uri, s.params, err);
      }
      i := i + 1;
    }
    var uriEnd := s.uriEnd;
    if uriEnd < 0 {
      uriEnd := |text|;
    }
    if s.uriStart > uriEnd {
      return AddressResult(s.displayName, uri, s.params, Some(Panic("slice bounds out of range")));
    }
    var u := SipUri.ParseUri(text[s.uriStart..uriEnd], uri);
    if u.err.Some? {
      return AddressResult(s.displayName, u.uri, s.params, u.err);
    }
    var p := s.params;
    if s.equal > 0 {
      if p.None? {
        return AddressResult(s.displayName, u.uri, p, Some(Panic(NilMapWrite)));
      }
      p := Some(HP.Add(p.value, s.name, text[s.equal + 1..]));
    }
    r := AddressResult(s.displayName, u.uri, p, None);
  }

  // ---------------------------------------------------------------------
  // What the index variables hold while the scan runs.

  /** A scan still running after `n + 1` characters was running after `n`,
      and took one step. */
  lemma ScanNext(text: string, n: nat, p: ParamMap)
    requires n < |text| && ScanTo(text, n + 1, p).outcome.Running?
    ensures ScanTo(text, n, p).outcome.Running?
    ensures ScanTo(text, n + 1, p) == Step(text, n, ScanTo(text, n, p))
  {
  }

  /** The URI starts after the first '<', and the scan is inside brackets
      only after one. */
  predicate UriStartMeaning(seen: string, s: Scan) {
    s.uriStart == Text.IndexOf(seen, '<') + 1 && (s.inBrackets ==> '<' in seen)
  }

  /** A seen '>' ends the URI at the last one. */
  predicate UriEndMeaning(seen: string, s: Scan) {
    '>' in seen ==> s.uriEnd == Text.LastIndexOf(seen, '>')
  }

  /** Before any '<', the quote indexes are those of the first and the last
      '"'. */
  predicate QuoteMeaning(seen: string, s: Scan) {
    '<' !in seen ==>
      !s.inBrackets && s.startQuote == Text.IndexOf(seen, '"') && s.endQuote == Text.LastIndexOf(seen, '"')
  }

  /** With neither '<' nor '>', the URI ends at the first ';'. */
  predicate BareMeaning(seen: string, s: Scan) {
    '<' !in seen && '>' !in seen ==> s.uriEnd == Text.IndexOf(seen, ';')
  }

  predicate Meaning(seen: string, s: Scan) {
    UriStartMeaning(seen, s) && UriEndMeaning(seen, s) && QuoteMeaning(seen, s) && BareMeaning(seen, s)
  }

  lemma StepUriStartMeaning(text: string, i: nat, s: Scan)
    requires i < |text| && Bounded(s, i) && UriStartMeaning(text[..i], s) && Step(text, i, s).outcome.Running?
    ensures UriStartMeaning(text[..i + 1], Step(text, i, s))
  {
    assert text[..i + 1] == text[..i] + [text[i]];
    Text.IndexOfSnoc(text[..i], '<', text[i]);
  }

  lemma StepUriEndMeaning(text: string, i: nat, s: Scan)
    requires i < |text| && Bounded(s, i) && UriEndMeaning(text[..i], s)
    ensures UriEndMeaning(text[..i + 1], Step(text, i, s))
  {
    assert text[..i + 1] == text[..i] + [text[i]];
    Text.LastIndexOfSnoc(text[..i], '>', text[i]);
  }

  lemma StepQuotes(text: string, i: nat, s: Scan)
    requires i < |text| && Bounded(s, i) && text[i] != '<' && s.uriStart == 0
    ensures Step(text, i, s).startQuote == if text[i] == '"' && s.startQuote < 0 then i else s.startQuote
    ensures Step(text, i, s).endQuote == if text[i] == '"' then i else s.endQuote
    ensures !s.inBrackets ==> !Step(text, i, s).inBrackets
  {
  }

  lemma QuoteMeaningNext(seen: string, c: char, s: Scan, t: Scan)
    requires QuoteMeaning(seen, s) && UriStartMeaning(seen, s)
    requires c != '<' && s.uriStart == 0 ==>
               !t.inBrackets && t.startQuote == (if c == '"' && s.startQuote < 0 then |seen| else s.startQuote)
               && t.endQuote == (if c == '"' then |seen| else s.endQuote)
    ensures QuoteMeaning(seen + [c], t)
  {
    if '<' !in seen + [c] {
      assert c in seen + [c];
      assert '<' !in seen by {
        assert forall x :: x in seen ==> x in seen + [c];
      }
      Text.IndexOfSnoc(seen, '"', c);
      Text.LastIndexOfSnoc(seen, '"', c);
    }
  }

  lemma StepQuoteMeaning(text: string, i: nat, s: Scan)
    requires i < |text| && Bounded(s, i) && QuoteMeaning(text[..i], s) && UriStartMeaning(text[..i], s)
    ensures QuoteMeaning(text[..i + 1], Step(text, i, s))
  {
    assert text[..i + 1] == text[..i] + [text[i]];
    if text[i] != '<' && s.uriStart == 0 {
      StepQuotes(text, i, s);
    }
    QuoteMeaningNext(text[..i], text[i], s, Step(text, i, s));
  }

  lemma StepBare(text: string, i: nat, s: Scan)
    requires i < |text| && Bounded(s, i) && text[i] != '<' && text[i] != '>' && !s.inBrackets
    ensures Step(text, i, s).uriEnd == if s.uriEnd < 0 && text[i] == ';' then i else s.uriEnd
  {
  }

  lemma BareMeaningNext(seen: string, c: char, s: Scan, t: Scan)
    requires BareMeaning(seen, s) && QuoteMeaning(seen, s)
    requires c != '<' && c != '>' && !s.inBrackets ==> t.uriEnd == if s.uriEnd < 0 && c == ';' then |seen| else s.uriEnd
    ensures BareMeaning(seen + [c], t)
  {
    if '<' !in seen + [c] && '>' !in seen + [c] {
      assert c in seen + [c];
      assert '<' !in seen && '>' !in seen by {
        assert forall x :: x in seen ==> x in seen + [c];
      }
      Text.IndexOfSnoc(seen, ';', c);
    }
  }

  lemma StepBareMeaning(text: string, i: nat, s: Scan)
    requires i < |text| && Bounded(s, i) && BareMeaning(text[..i], s) && QuoteMeaning(text[..i], s)
    ensures BareMeaning(text[..i + 1], Step(text, i, s))
  {
    assert text[..i + 1] == text[..i] + [text[i]];
    if text[i] != '<' && text[i] != '>' && !s.inBrackets {
      StepBare(text, i, s);
    }
    BareMeaningNext(text[..i], text[i], s, Step(text, i, s));
  }

  /** Every running scan state has that meaning, one part at a time. */
  lemma {:induction false} ScanUriStartMeaning(text: string, n: nat, p: ParamMap)
    requires n <= |text| && ScanTo(text, n, p).outcome.Running?
    ensures UriStartMeaning(text[..n], ScanTo(text, n, p))
  {
    if n > 0 {
      ScanNext(text, n - 1, p);
      ScanUriStartMeaning(text, n - 1, p);
      ScanUriStartNext(text, n - 1, p);
    } else {
      MeaningAtStart(text, p);
    }
  }

  lemma {:induction false} ScanUriEndMeaning(text: string, n: nat, p: ParamMap)
    requires n <= |text| && ScanTo(text, n, p).outcome.Running?
    ensures UriEndMeaning(text[..n], ScanTo(text, n, p))
  {
    if n > 0 {
      ScanNext(text, n - 1, p);
      ScanUriEndMeaning(text, n - 1, p);
      ScanUriEndNext(text, n - 1, p);
    } else {
      MeaningAtStart(text, p);
    }
  }

  lemma {:induction false} ScanQuoteMeaning(text: string, n: nat, p: ParamMap)
    requires n <= |text| && ScanTo(text, n, p).outcome.Running?
    ensures QuoteMeaning(text[..n], ScanTo(text, n, p))
  {
    if n > 0 {
      ScanNext(text, n - 1, p);
      ScanQuoteMeaning(text, n - 1, p);
      ScanUriStartMeaning(text, n - 1, p);
      ScanQuoteNext(text, n - 1, p);
    } else {
      MeaningAtStart(text, p);
    }
  }

  lemma {:induction false} ScanBareMeaning(text: string, n: nat, p: ParamMap)
    requires n <= |text| && ScanTo(text, n, p).outcome.Running?
    ensures BareMeaning(text[..n], ScanTo(text, n, p))
  {
    if n > 0 {
      ScanNext(text, n - 1, p);
      ScanBareMeaning(text, n - 1, p);
      ScanQuoteMeaning(text, n - 1, p);
      ScanBareNext(text, n - 1, p);
    } else {
      MeaningAtStart(text, p);
    }
  }

  lemma ScanUriStartNext(text: string, n: nat, p: ParamMap)
    requires n < |text| && ScanTo(text, n + 1, p).outcome.Running?
    requires UriStartMeaning(text[..n], ScanTo(text, n, p))
    ensures UriStartMeaning(text[..n + 1], ScanTo(text, n + 1, p))
  {
    ScanNext(text, n, p);
    StepUriStartMeaning(text, n, ScanTo(text, n, p));
  }

  lemma ScanUriEndNext(text: string, n: nat, p: ParamMap)
    requires n < |text| && ScanTo(text, n + 1, p).outcome.Running?
    requires UriEndMeaning(text[..n], ScanTo(text, n, p))
    ensures UriEndMeaning(text[..n + 1], ScanTo(text, n + 1, p))
  {
    ScanNext(text, n, p);
    StepUriEndMeaning(text, n, ScanTo(text, n, p));
  }

  lemma ScanQuoteNext(text: string, n: nat, p: ParamMap)
    requires n < |text| && ScanTo(text, n + 1, p).outcome.Running?
    requires QuoteMeaning(text[..n], ScanTo(text, n, p)) && UriStartMeaning(text[..n], ScanTo(text, n, p))
    ensures QuoteMeaning(text[..n + 1], ScanTo(text, n + 1, p))
  {
    ScanNext(text, n, p);
    StepQuoteMeaning(text, n, ScanTo(text, n, p));
  }

  lemma ScanBareNext(text: string, n: nat, p: ParamMap)
    requires n < |text| && ScanTo(text, n + 1, p).outcome.Running?
    requires BareMeaning(text[..n], ScanTo(text, n, p)) && QuoteMeaning(text[..n], ScanTo(text, n, p))
    ensures BareMeaning(text[..n + 1], ScanTo(text, n + 1, p))
  {
    ScanNext(text, n, p);
    StepBareMeaning(text, n, ScanTo(text, n, p));
  }

  lemma ScanMeaning(text: string, n: nat, p: ParamMap)
    requires n <= |text| && ScanTo(text, n, p).outcome.Running?
    ensures Meaning(text[..n], ScanTo(text, n, p))
  {
    ScanUriStartMeaning(text, n, p);
    ScanUriEndMeaning(text, n, p);
    ScanQuoteMeaning(text, n, p);
    ScanBareMeaning(text, n, p);
  }

  lemma MeaningAtStart(text: string, p: ParamMap)
    ensures Meaning(text[..0], Start(p))
  {
    assert text[..0] == [];
    assert Text.IndexOf([], '<') == -1 && Text.IndexOf([], '"') == -1 && Text.IndexOf([], ';') == -1;
    assert Text.LastIndexOf([], '"') == -1;
  }

  /** While the scan runs, the URI starts right after the first '<' (at 0
      when there is none); later '<' characters are ignored. */
  lemma UriStartAfterFirstBracket(text: string, n: nat, p: ParamMap)
    requires n <= |text| && ScanTo(text, n, p).outcome.Running?
    ensures ScanTo(text, n, p).uriStart == Text.IndexOf(text[..n], '<') + 1
    ensures ScanTo(text, n, p).inBrackets ==> '<' in text[..n]
  {
    ScanMeaning(text, n, p);
  }

  /** Once a '>' has been seen, the URI ends at the last one. */
  lemma UriEndAtLastCloser(text: string, n: nat, p: ParamMap)
    requires n <= |text| && ScanTo(text, n, p).outcome.Running?
    ensures '>' in text[..n] ==> ScanTo(text, n, p).uriEnd == Text.LastIndexOf(text[..n], '>')
  {
    ScanMeaning(text, n, p);
  }

  /** Without any '<' or '>', the URI ends at the first ';' (the end of the
      text when there is none), and the scan is never inside brackets. */
  lemma BareUriEndsAtSemicolon(text: string, n: nat, p: ParamMap)
    requires n <= |text| && ScanTo(text, n, p).outcome.Running?
    requires '<' !in text[..n] && '>' !in text[..n]
    ensures ScanTo(text, n, p).uriEnd == Text.IndexOf(text[..n], ';')
    ensures !ScanTo(text, n, p).inBrackets && ScanTo(text, n, p).uriStart == 0
  {
    ScanMeaning(text, n, p);
  }

  // ---------------------------------------------------------------------
  // The display name.

  /** At the first '<' the display name is set: the text between the first
      and the last '"' when the last one sits at an index above 0, and the
      trimmed text before the '<' otherwise. */
  lemma DisplayNameAtFirstBracket(text: string, a: nat, p: ParamMap)
    requires a < |text| && text[a] == '<' && '<' !in text[..a]
    requires ScanTo(text, a + 1, p).outcome.Running?
    ensures var q := Text.LastIndexOf(text[..a], '"'); q > 0 ==> Text.IndexOf(text[..a], '"') < q
    ensures var q := Text.LastIndexOf(text[..a], '"');
            ScanTo(text, a + 1, p).displayName
            == if q > 0 then text[Text.IndexOf(text[..a], '"') + 1..q] else Text.TrimSpace(text[..a])
    ensures ScanTo(text, a + 1, p).uriStart == a + 1 && ScanTo(text, a + 1, p).inBrackets
  {
    ScanNext(text, a, p);
    ScanMeaning(text, a, p);
  }

  lemma StepKeepsName(text: string, i: nat, s: Scan)
    requires i < |text| && Bounded(s, i) && s.uriStart > 0 && Step(text, i, s).outcome.Running?
    ensures Step(text, i, s).displayName == s.displayName && Step(text, i, s).uriStart == s.uriStart
  {
  }

  /** Once the URI has started, the display name no longer changes. */
  lemma {:induction false} DisplayNameKept(text: string, a: nat, b: nat, p: ParamMap)
    requires a <= b <= |text| && ScanTo(text, b, p).outcome.Running? && ScanTo(text, a, p).uriStart > 0
    ensures ScanTo(text, b, p).displayName == ScanTo(text, a, p).displayName
    ensures ScanTo(text, b, p).uriStart == ScanTo(text, a, p).uriStart
    decreases b - a
  {
    if a < b {
      ScanNext(text, b - 1, p);
      DisplayNameKept(text, a, b - 1, p);
      StepKeepsName(text, b - 1, ScanTo(text, b - 1, p));
    }
  }

  // ---------------------------------------------------------------------
  // Header parameters.

  /** A ';' outside brackets ends a URI that has no end yet; after the URI
      it adds the pending parameter, whose value runs from after its '=' up
      to this ';'. */
  lemma ParamAddedAtSemicolon(text: string, a: nat, p: ParamMap)
    requires a < |text| && text[a] == ';'
    requires ScanTo(text, a, p).outcome.Running? && !ScanTo(text, a, p).inBrackets
    ensures var s := ScanTo(text, a, p);
            ScanTo(text, a + 1, p)
            == if s.uriEnd < 0 then s.(semicolon := a, uriEnd := a)
               else if s.equal > 0 then
                 if s.params.None? then s.(outcome := Panicked(NilMapWrite))
                 else s.(semicolon := a, params := Some(HP.Add(s.params.value, s.name, text[s.equal + 1..a])), name := "", equal := 0)
               else s.(semicolon := a)
  {
    ScanNextStep(text, a, p);
  }

  /** A ';' inside brackets neither ends the URI nor adds a parameter. */
  lemma SemicolonInBrackets(text: string, a: nat, p: ParamMap)
    requires a < |text| && text[a] == ';'
    requires ScanTo(text, a, p).outcome.Running? && ScanTo(text, a, p).inBrackets
    ensures ScanTo(text, a + 1, p) == ScanTo(text, a, p).(semicolon := a)
  {
    ScanNextStep(text, a, p);
  }

  /** An '=' names the pending parameter: the text from after the last ';'
      up to the '='. */
  lemma ParamNamedAtEqual(text: string, b: nat, p: ParamMap)
    requires b < |text| && text[b] == '=' && ScanTo(text, b, p).outcome.Running?
    ensures var s := ScanTo(text, b, p);
            ScanTo(text, b + 1, p) == s.(name := text[s.semicolon + 1..b], equal := b)
  {
    ScanNextStep(text, b, p);
  }

  /** Characters that leave a scan past the URI's start as it is. */
  predicate Inert(c: char) {
    c != ';' && c != '=' && c != '>' && c != '"'
  }

  predicate InertText(s: string) {
    forall i :: 0 <= i < |s| ==> Inert(s[i])
  }

  /** Once the URI has started, a stretch of inert characters changes
      nothing. */
  lemma {:induction false} InertStretch(text: string, a: nat, b: nat, p: ParamMap)
    requires a <= b <= |text| && forall i :: a <= i < b ==> Inert(text[i])
    requires ScanTo(text, a, p).outcome.Running? && ScanTo(text, a, p).uriStart > 0
    ensures ScanTo(text, b, p) == ScanTo(text, a, p)
    decreases b - a
  {
    if a < b {
      InertStretch(text, a, b - 1, p);
      ScanNextStep(text, b - 1, p);
    }
  }

  /** Inside the brackets opened by a leading '<': no display name, the URI
      starts at 1 and has no end yet, and no parameter has been added. */
  predicate InUri(s: Scan, p: ParamMap) {
    s.outcome.Running? && s.uriStart == 1 && s.uriEnd == -1 && s.inBrackets && s.params == p && s.displayName == ""
  }

  lemma {:induction false} ScanInUri(text: string, n: nat, p: ParamMap)
    requires 1 <= n <= |text| && text[0] == '<'
    requires forall i :: 1 <= i < n ==> text[i] != '>'
    ensures InUri(ScanTo(text, n, p), p)
  {
    var s := ScanTo(text, n - 1, p);
    if n == 1 {
      assert s == Start(p);
      OpeningBracket(text, s, p);
    } else {
      ScanInUri(text, n - 1, p);
      StepInUri(text, n - 1, s, p);
    }
    assert ScanTo(text, n, p) == Step(text, n - 1, s);
  }

  lemma OpeningBracket(text: string, s: Scan, p: ParamMap)
    requires 0 < |text| && text[0] == '<' && s == Start(p)
    ensures InUri(Step(text, 0, s), p)
  {
    var t := Step(text, 0, s);
    assert t.outcome == Running;
    assert t.uriStart == 1 && t.uriEnd == -1 && t.inBrackets;
    assert t.params == p;
    assert t.displayName == "" by {
      assert text[..0] == [];
    }
  }

  lemma StepInUri(text: string, i: nat, s: Scan, p: ParamMap)
    requires i < |text| && Bounded(s, i) && InUri(s, p) && text[i] != '>'
    ensures InUri(Step(text, i, s), p)
  {
  }

  /** A header parameter `;name=value` from `a` up to `b`, once the URI has
      ended outside brackets: the ';' does what it does to the pending
      parameter, then the '=' makes the text between them the pending name. */
  lemma ParamSegment(text: string, a: nat, e: nat, b: nat, p: ParamMap)
    requires a < e < b <= |text| && text[a] == ';' && text[e] == '='
    requires forall i :: a < i < e ==> Inert(text[i])
    requires forall i :: e < i < b ==> Inert(text[i])
    requires var s := ScanTo(text, a, p); s.outcome.Running? && s.uriStart > 0 && s.uriEnd >= 0 && !s.inBrackets
    ensures ScanTo(text, a + 1, p) == Step(text, a, ScanTo(text, a, p))
    ensures var t := ScanTo(text, a + 1, p);
            ScanTo(text, b, p) == if t.outcome.Running? then t.(name := text[a + 1..e], equal := e) else t
  {
    var s := ScanTo(text, a, p);
    ScanNextStep(text, a, p);
    var t := ScanTo(text, a + 1, p);
    SemicolonAfterUri(text, a, s);
    if t.outcome.Running? {
      InertStretch(text, a + 1, e, p);
      ScanNextStep(text, e, p);
      InertStretch(text, e + 1, b, p);
    } else {
      ScanStops(text, a + 1, b, p);
    }
  }

  /** A ';' once the URI has ended outside brackets keeps the URI where it
      is and records its own position. */
  lemma SemicolonAfterUri(text: string, a: nat, s: Scan)
    requires a < |text| && text[a] == ';' && Bounded(s, a) && s.uriEnd >= 0 && !s.inBrackets
    ensures var t := Step(text, a, s);
            t.outcome.Running? ==> t.uriStart == s.uriStart && t.semicolon == a && !t.inBrackets && t.uriEnd == s.uriEnd
  {
  }

  /** The positions in `<u>;k1=v1;k2=v2`. */
  lemma TwoParamsLayout(u: string, k1: string, v1: string, k2: string, v2: string)
    returns (text: string, l: nat, a1: nat, e1: nat, a2: nat, e2: nat)
    ensures text == "<" + u + ">;" + k1 + "=" + v1 + ";" + k2 + "=" + v2
    ensures l == |u| + 1 && a1 == l + 1 && e1 == a1 + 1 + |k1| && a2 == e1 + 1 + |v1| && e2 == a2 + 1 + |k2|
    ensures |text| == e2 + 1 + |v2|
    ensures text[0] == '<' && text[1..l] == u && text[l] == '>' && text[a1] == ';' && text[e1] == '='
    ensures text[a2] == ';' && text[e2] == '='
    ensures text[a1 + 1..e1] == k1 && text[e1 + 1..a2] == v1 && text[a2 + 1..e2] == k2 && text[e2 + 1..] == v2
  {
    text := "<" + u + ">;" + k1 + "=" + v1 + ";" + k2 + "=" + v2;
    l := |u| + 1;
    a1 := l + 1;
    e1 := a1 + 1 + |k1|;
    a2 := e1 + 1 + |v1|;
    e2 := a2 + 1 + |k2|;
    var p1 := "<" + u;
    var p2 := p1 + ">;" + k1;
    var p3 := p2 + "=" + v1;
    var p4 := p3 + ";" + k2;
    assert text == p4 + "=" + v2;
    assert text[..|p4|] == p4 && p4[..|p3|] == p3 && p3[..|p2|] == p2 && p2[..|p1|] == p1;
    assert p1[1..] == u && p2[a1 + 1..] == k1 && p3[e1 + 1..] == v1 && p4[a2 + 1..] == k2;
  }

  /** A bracketed URI and two header parameters, `<u>;k1=v1;k2=v2`: no
      display name, the URI is the parse of `u`, the first parameter is
      added by the scan, and the second only when `u` parsed without error.
      Into a nil map, the first add panics. */
  lemma TwoHeaderParams(u: string, k1: string, v1: string, k2: string, v2: string, q: HP.Params)
    requires '>' !in u && InertText(k1) && InertText(v1) && InertText(k2) && InertText(v2)
    ensures var pu := SipUri.Run(SipUri.SipPrefix, SipUri.EmptyUri, u);
            AddressValue("<" + u + ">;" + k1 + "=" + v1 + ";" + k2 + "=" + v2, SipUri.EmptyUri, Some(q))
            == AddressResult("", pu.uri, Some(if pu.err.Some? then HP.Add(q, k1, v1) else HP.Add(HP.Add(q, k1, v1), k2, v2)), pu.err)
    ensures AddressValue("<" + u + ">;" + k1 + "=" + v1 + ";" + k2 + "=" + v2, SipUri.EmptyUri, None).err
            == Some(Panic(NilMapWrite))
  {
    var text, l, a1, e1, a2, e2 := TwoParamsLayout(u, k1, v1, k2, v2);
    assert forall i :: 1 <= i < l ==> text[i] == u[i - 1];
    assert forall i :: a1 < i < e1 ==> text[i] == k1[i - a1 - 1];
    assert forall i :: e1 < i < a2 ==> text[i] == v1[i - e1 - 1];
    assert forall i :: a2 < i < e2 ==> text[i] == k2[i - a2 - 1];
    assert forall i :: e2 < i < |text| ==> text[i] == v2[i - e2 - 1];
    UriThenParams(text, l, a1, e1, a2, e2, Some(q));
    UriThenParams(text, l, a1, e1, a2, e2, None);
  }

  /** After the URI `text[1..l]` closed at `l`, with `m` the map, `name`
      the pending parameter's name and `equal` its '='. */
  predicate PastUri(s: Scan, l: nat, m: ParamMap, name: string, equal: int) {
    && s.outcome.Running? && s.uriStart == 1 && s.uriEnd == l && !s.inBrackets
    && s.params == m && s.displayName == "" && s.name == name && s.equal == equal
  }

  /** The '>' at `l` closes the URI opened at 0. */
  lemma UriClosed(text: string, l: nat, p: ParamMap)
    requires 0 < l < |text| && text[0] == '<' && text[l] == '>'
    requires forall i :: 1 <= i < l ==> text[i] != '>'
    ensures PastUri(ScanTo(text, l + 1, p), l, p, ScanTo(text, l, p).name, -1)
  {
    ScanInUri(text, l, p);
    var s := ScanTo(text, l, p);
    ScanNextStep(text, l, p);
    var t := ScanTo(text, l + 1, p);
    assert t == s.(uriEnd := l, equal := -1, inBrackets := false);
    assert t.outcome.Running? && t.uriStart == 1 && t.uriEnd == l && !t.inBrackets;
    assert t.params == p && t.displayName == "";
  }

  /** One parameter `;k=v` from `a` up to `b`, after the URI. */
  lemma NextParam(text: string, l: nat, a: nat, e: nat, b: nat, p: ParamMap, name: string, equal: int)
    requires a < e < b <= |text| && text[a] == ';' && text[e] == '='
    requires forall i :: a < i < e ==> Inert(text[i])
    requires forall i :: e < i < b ==> Inert(text[i])
    requires l < a && equal < a && PastUri(ScanTo(text, a, p), l, p, name, equal)
    ensures equal <= 0 ==> PastUri(ScanTo(text, b, p), l, p, text[a + 1..e], e)
    ensures equal > 0 && p.None? ==> ScanTo(text, b, p).outcome == Panicked(NilMapWrite)
    ensures equal > 0 && p.Some? ==>
              PastUri(ScanTo(text, b, p), l, Some(HP.Add(p.value, name, text[equal + 1..a])), text[a + 1..e], e)
  {
    var s := ScanTo(text, a, p);
    ParamSegment(text, a, e, b, p);
    var t := Step(text, a, s);
    var r := ScanTo(text, b, p);
    if equal <= 0 {
      assert t == s.(semicolon := a);
      assert r == s.(semicolon := a, name := text[a + 1..e], equal := e);
      assert r.outcome.Running? && r.uriStart == 1 && r.uriEnd == l && !r.inBrackets;
      assert r.params == p && r.displayName == "";
    } else if p.None? {
      assert t.outcome == Panicked(NilMapWrite);
    } else {
      var m := Some(HP.Add(p.value, name, text[equal + 1..a]));
      assert t == s.(semicolon := a, params := m, name := "", equal := 0);
      assert r == s.(semicolon := a, params := m, name := text[a + 1..e], equal := e);
      assert r.outcome.Running? && r.uriStart == 1 && r.uriEnd == l && !r.inBrackets;
      assert r.params == m && r.displayName == "";
    }
  }

  /** The scan of `<u>;k1=v1;k2=v2` given its positions. */
  lemma UriThenParams(text: string, l: nat, a1: nat, e1: nat, a2: nat, e2: nat, p: ParamMap)
    requires 0 < l && a1 == l + 1 && a1 < e1 < a2 < e2 < |text|
    requires text[0] == '<' && text[l] == '>' && text[a1] == ';' && text[e1] == '=' && text[a2] == ';' && text[e2] == '='
    requires forall i :: 1 <= i < l ==> text[i] != '>'
    requires forall i :: a1 < i < e1 ==> Inert(text[i])
    requires forall i :: e1 < i < a2 ==> Inert(text[i])
    requires forall i :: a2 < i < e2 ==> Inert(text[i])
    requires forall i :: e2 < i < |text| ==> Inert(text[i])
    ensures p.Some? ==>
              var pu := SipUri.Run(SipUri.SipPrefix, SipUri.EmptyUri, text[1..l]);
              var first := HP.Add(p.value, text[a1 + 1..e1], text[e1 + 1..a2]);
              AddressValue(text, SipUri.EmptyUri, p)
              == AddressResult("", pu.uri,
                               Some(if pu.err.Some? then first else HP.Add(first, text[a2 + 1..e2], text[e2 + 1..])), pu.err)
    ensures p.None? ==> AddressValue(text, SipUri.EmptyUri, p).err == Some(Panic(NilMapWrite))
  {
    UriClosed(text, l, p);
    NextParam(text, l, a1, e1, a2, p, ScanTo(text, l, p).name, -1);
    NextParam(text, l, a2, e2, |text|, p, text[a1 + 1..e1], e1);
    if p.Some? {
      var first := HP.Add(p.value, text[a1 + 1..e1], text[e1 + 1..a2]);
      FinishPastUri(text, l, ScanTo(text, |text|, p), Some(first), text[a2 + 1..e2], e2);
    }
  }

  /** What Finish makes of a scan past a bracketed URI with a pending
      parameter. */
  lemma FinishPastUri(text: string, l: nat, s: Scan, m: ParamMap, name: string, equal: nat)
    requires 0 < l < equal < |text| && Bounded(s, |text|) && PastUri(s, l, m, name, equal) && m.Some?
    ensures var pu := SipUri.Run(SipUri.SipPrefix, SipUri.EmptyUri, text[1..l]);
            Finish(text, s, SipUri.EmptyUri)
            == AddressResult("", pu.uri, if pu.err.Some? then m else Some(HP.Add(m.value, name, text[equal + 1..])), pu.err)
  {
  }

  /** What Finish makes of a scan past a bracketed URI whose pending
      parameter would go into a nil map. */
  lemma FinishPastUriNil(text: string, l: nat, s: Scan, name: string, equal: nat)
    requires 0 < l < equal < |text| && Bounded(s, |text|) && PastUri(s, l, None, name, equal)
    ensures var pu := SipUri.Run(SipUri.SipPrefix, SipUri.EmptyUri, text[1..l]);
            Finish(text, s, SipUri.EmptyUri)
            == AddressResult("", pu.uri, None, if pu.err.Some? then pu.err else Some(Panic(NilMapWrite)))
  {
  }

  /** The positions in `<u>;k=v`. */
  lemma OneParamLayout(u: string, k: string, v: string) returns (text: string, l: nat, a: nat, e: nat)
    ensures text == "<" + u + ">;" + k + "=" + v
    ensures l == |u| + 1 && a == l + 1 && e == a + 1 + |k| && |text| == e + 1 + |v|
    ensures text[0] == '<' && text[1..l] == u && text[l] == '>' && text[a] == ';' && text[e] == '='
    ensures text[a + 1..e] == k && text[e + 1..] == v
  {
    text := "<" + u + ">;" + k + "=" + v;
    l := |u| + 1;
    a := l + 1;
    e := a + 1 + |k|;
    var p1 := "<" + u;
    var p2 := p1 + ">;" + k;
    assert text == p2 + "=" + v;
    assert text[..|p2|] == p2 && p2[..|p1|] == p1;
    assert p1[1..] == u && p2[a + 1..] == k;
  }

  /** A bracketed URI and one header parameter, `<u>;k=v`: the parameter is
      added only once `u` has parsed without error. Into a nil map that add
      is a panic, so the value fails exactly when `u` parses. */
  lemma OneHeaderParam(u: string, k: string, v: string, q: HP.Params)
    requires '>' !in u && InertText(k) && InertText(v)
    ensures var pu := SipUri.Run(SipUri.SipPrefix, SipUri.EmptyUri, u);
            AddressValue("<" + u + ">;" + k + "=" + v, SipUri.EmptyUri, Some(q))
            == AddressResult("", pu.uri, Some(if pu.err.Some? then q else HP.Add(q, k, v)), pu.err)
    ensures var pu := SipUri.Run(SipUri.SipPrefix, SipUri.EmptyUri, u);
            AddressValue("<" + u + ">;" + k + "=" + v, SipUri.EmptyUri, None)
            == AddressResult("", pu.uri, None, if pu.err.Some? then pu.err else Some(Panic(NilMapWrite)))
  {
    var text, l, a, e := OneParamLayout(u, k, v);
    assert forall i :: 1 <= i < l ==> text[i] == u[i - 1];
    assert forall i :: a < i < e ==> text[i] == k[i - a - 1];
    assert forall i :: e < i < |text| ==> text[i] == v[i - e - 1];
    UriClosed(text, l, Some(q));
    NextParam(text, l, a, e, |text|, Some(q), ScanTo(text, l, Some(q)).name, -1);
    FinishPastUri(text, l, ScanTo(text, |text|, Some(q)), Some(q), k, e);
    UriClosed(text, l, None);
    NextParam(text, l, a, e, |text|, None, ScanTo(text, l, None).name, -1);
    FinishPastUriNil(text, l, ScanTo(text, |text|, None), k, e);
  }

  // ---------------------------------------------------------------------
  // A nil parameter map.

  /** One step into a nil map is the step into an empty map, until that
      step would add a parameter: then it panics. */
  lemma StepShadow(text: string, i: nat, b: Scan)
    requires i < |text| && Bounded(b, i) && b.params == Some([])
    ensures var a := Step(text, i, b.(params := None));
            var b' := Step(text, i, b);
            && b'.params.Some?
            && ((b'.params == Some([]) && a == b'.(params := None))
                || (b'.params.value != [] && a.outcome == Panicked(NilMapWrite)))
  {
    var a := Step(text, i, b.(params := None));
    var b' := Step(text, i, b);
    if text[i] == ';' && !b.inBrackets && b.uriEnd >= 0 && b.equal > 0 {
      assert a.outcome == Panicked(NilMapWrite);
      assert b'.params == Some(HP.Add([], b.name, text[b.equal + 1..i]));
    } else {
      StepKeepsMap(text, i, b);
    }
  }

  /** A step that adds no parameter is the same whatever the map. */
  lemma StepKeepsMap(text: string, i: nat, b: Scan)
    requires i < |text| && Bounded(b, i)
    requires !(text[i] == ';' && !b.inBrackets && b.uriEnd >= 0 && b.equal > 0)
    ensures Step(text, i, b).params == b.params
    ensures Step(text, i, b.(params := None)) == Step(text, i, b).(params := None)
  {
    StepIgnoresMap(text, i, b);
  }

  lemma StepIgnoresMap(text: string, i: nat, b: Scan)
    requires i < |text| && Bounded(b, i)
    requires !(text[i] == ';' && !b.inBrackets && b.uriEnd >= 0 && b.equal > 0)
    ensures Step(text, i, b.(params := None)) == Step(text, i, b).(params := None)
  {
    var c := text[i];
    if c == ';' {
      StepSemicolonIgnoresMap(text, i, b);
    } else if c == '<' {
      StepBracketIgnoresMap(text, i, b);
    } else {
      StepOtherIgnoresMap(text, i, b);
    }
  }

  lemma StepSemicolonIgnoresMap(text: string, i: nat, b: Scan)
    requires i < |text| && Bounded(b, i) && text[i] == ';'
    requires b.inBrackets || b.uriEnd < 0 || b.equal <= 0
    ensures Step(text, i, b.(params := None)) == Step(text, i, b).(params := None)
  {
  }

  lemma StepBracketIgnoresMap(text: string, i: nat, b: Scan)
    requires i < |text| && Bounded(b, i) && text[i] == '<'
    ensures Step(text, i, b.(params := None)) == Step(text, i, b).(params := None)
  {
  }

  lemma StepOtherIgnoresMap(text: string, i: nat, b: Scan)
    requires i < |text| && Bounded(b, i) && text[i] != ';' && text[i] != '<'
    ensures Step(text, i, b.(params := None)) == Step(text, i, b).(params := None)
  {
  }

  /** Once a parameter is in the map it stays there. */
  lemma StepKeepsParams(text: string, i: nat, b: Scan)
    requires i < |text| && Bounded(b, i) && b.params.Some? && b.params.value != []
    ensures Step(text, i, b).params.Some? && Step(text, i, b).params.value != []
  {
  }

  /** A scan into a nil map equals the scan into an empty map as long as
      no parameter has been added, and has panicked once one would be. */
  lemma {:induction false} NilScanShadows(text: string, n: nat)
    requires n <= |text|
    ensures var a := ScanTo(text, n, None);
            var b := ScanTo(text, n, Some([]));
            && b.params.Some?
            && ((b.params == Some([]) && a == b.(params := None))
                || (b.params.value != [] && a.outcome == Panicked(NilMapWrite)))
  {
    if n > 0 {
      NilScanShadows(text, n - 1);
      var a := ScanTo(text, n - 1, None);
      var b := ScanTo(text, n - 1, Some([]));
      if b.params == Some([]) && a == b.(params := None) {
        if b.outcome.Running? {
          StepShadow(text, n - 1, b);
        }
      } else if b.outcome.Running? {
        StepKeepsParams(text, n - 1, b);
      }
    }
  }

  /** ParseAddressValue into a nil map (the Route and Record-Route case)
      gives what it gives into an empty map (the Contact case) on every
      value without header parameters, and panics on every value with
      one. */
  lemma NilParamsFailAtFirstParam(text: string, uri: SipUri.Uri)
    ensures var a := AddressValue(text, uri, None);
            var b := AddressValue(text, uri, Some([]));
            && b.params.Some?
            && (b.params == Some([]) ==> a == b.(params := None))
            && (b.params != Some([]) ==> a.err == Some(Panic(NilMapWrite)))
  {
    NilScanShadows(text, |text|);
  }

  // ---------------------------------------------------------------------
  // The '*' wildcard.

  /** A '*' before any '<' (and not after a '"' at an index above 0) stops
      the scan with no error, before the URI is parsed. */
  lemma WildcardStopsScan(text: string, a: nat, p: ParamMap)
    requires a < |text| && text[a] == '*' && ScanTo(text, a, p).outcome.Running?
    requires ScanTo(text, a, p).startQuote <= 0 && ScanTo(text, a, p).uriStart == 0
    ensures AddressValue(text, SipUri.EmptyUri, p).err == None
    ensures AddressValue(text, SipUri.EmptyUri, p).uri == SipUri.EmptyUri
  {
    ScanNextStep(text, a, p);
    ScanStops(text, a + 1, |text|, p);
  }

  /** ParseAddressValue never sets the caller's wildcard flag: the early
      return at '*' leaves the Uri untouched, and ParseUri does not write
      the flag either. */
  lemma WildcardNeverSet(text: string, uri: SipUri.Uri, p: ParamMap)
    ensures AddressValue(text, uri, p).uri.wildcard == uri.wildcard
  {
    var s := ScanTo(text, |text|, p);
    if s.outcome.Running? {
      var uriEnd := if s.uriEnd < 0 then |text| else s.uriEnd;
      if s.uriStart <= uriEnd {
        SipUri.ParseKeepsWildcard(uri, text[s.uriStart..uriEnd]);
      }
    }
  }

  // ---------------------------------------------------------------------
  // To and From.

  /** A To, From or Contact header: display name, address and parameters. */
  datatype AddressHeader = AddressHeader(displayName: string, address: SipUri.Uri, params: HP.Params)

  /** What a header parser hands back: the header (None = Go nil) and the
      error. */
  datatype HeaderParse<T> = HeaderParse(header: Option<T>, err: Option<Error>)

  /** A header's parameters: its map, a nil one read as empty. */
  function HeaderOf(r: AddressResult): AddressHeader {
    AddressHeader(r.displayName, r.uri, if r.params.Some? then r.params.value else [])
  }

  /** parseToAddressHeader: the header is returned together with the
      error; a wildcard address would be rejected. */
  function ToValue(text: string): HeaderParse<AddressHeader> {
    var r := AddressValue(text, SipUri.EmptyUri, Some([]));
    if r.uri.wildcard then HeaderParse(None, Some(WildcardNotPermitted(text)))
    else HeaderParse(Some(HeaderOf(r)), r.err)
  }

  /** parseFromAddressHeader: no header on error; a wildcard address would
      be rejected. */
  function FromValue(text: string): HeaderParse<AddressHeader> {
    var r := AddressValue(text, SipUri.EmptyUri, Some([]));
    if r.err.Some? then HeaderParse(None, r.err)
    else if r.uri.wildcard then HeaderParse(None, Some(WildcardNotPermitted(text)))
    else HeaderParse(Some(HeaderOf(r)), None)
  }

  method ParseTo(text: string) returns (r: HeaderParse<AddressHeader>)
    ensures r == ToValue(text)
  {
    var a := ParseAddressValue(text, SipUri.EmptyUri, Some([]));
    if a.uri.wildcard {
      return HeaderParse(None, Some(WildcardNotPermitted(text)));
    }
    r := HeaderParse(Some(HeaderOf(a)), a.err);
  }

  method ParseFrom(text: string) returns (r: HeaderParse<AddressHeader>)
    ensures r == FromValue(text)
  {
    var a := ParseAddressValue(text, SipUri.EmptyUri, Some([]));
    if a.err.Some? {
      return HeaderParse(None, a.err);
    }
    if a.uri.wildcard {
      return HeaderParse(None, Some(WildcardNotPermitted(text)));
    }
    r := HeaderParse(Some(HeaderOf(a)), None);
  }

  /** The parsed address, display name and parameters of a To value are
      ParseAddressValue's, and a header is always returned: the wildcard
      check never fires. */
  lemma ToIsAddressValue(text: string)
    ensures ToValue(text).header == Some(HeaderOf(AddressValue(text, SipUri.EmptyUri, Some([]))))
    ensures ToValue(text).err == AddressValue(text, SipUri.EmptyUri, Some([])).err
  {
    WildcardNeverSet(text, SipUri.EmptyUri, Some([]));
  }

  /** A From value yields a header exactly when it parses without error,
      and the wildcard check never fires. */
  lemma FromIsAddressValue(text: string)
    ensures FromValue(text).err == AddressValue(text, SipUri.EmptyUri, Some([])).err
    ensures FromValue(text).header.Some? <==> FromValue(text).err.None?
    ensures FromValue(text).header.Some? ==> FromValue(text).header.value == HeaderOf(AddressValue(text, SipUri.EmptyUri, Some([])))
  {
    WildcardNeverSet(text, SipUri.EmptyUri, Some([]));
  }

  /** To and From accept "*": the scan stops at the '*' with no error and
      the address stays the empty Uri. */
  lemma ToAndFromAcceptStar()
    ensures ToValue("*") == HeaderParse(Some(AddressHeader("", SipUri.EmptyUri, [])), None)
    ensures FromValue("*") == HeaderParse(Some(AddressHeader("", SipUri.EmptyUri, [])), None)
  {
    WildcardStopsScan("*", 0, Some([]));
    assert ScanTo("*", 1, Some([])).outcome.Wildcard?;
  }

  /** ParseAddressValue with the '*' branch writing the caller's Uri, as the
      To and From checks expect. */
  function AddressValueFixed(text: string, uri: SipUri.Uri, p: ParamMap): (r: AddressResult)
    ensures ScanTo(text, |text|, p).outcome.Wildcard? ==> r.uri == SipUri.EmptyUri.(wildcard := true) && r.err.None?
    ensures !ScanTo(text, |text|, p).outcome.Wildcard? ==> r == AddressValue(text, uri, p)
  {
    var s := ScanTo(text, |text|, p);
    if s.outcome.Wildcard? then AddressResult(s.displayName, SipUri.EmptyUri.(wildcard := true), s.params, None)
    else Finish(text, s, uri)
  }

  /** parseToAddressHeader over the corrected ParseAddressValue. */
  function ToValueFixed(text: string): HeaderParse<AddressHeader> {
    var r := AddressValueFixed(text, SipUri.EmptyUri, Some([]));
    if r.uri.wildcard then HeaderParse(None, Some(WildcardNotPermitted(text)))
    else HeaderParse(Some(HeaderOf(r)), r.err)
  }

  /** parseFromAddressHeader over the corrected ParseAddressValue. */
  function FromValueFixed(text: string): HeaderParse<AddressHeader> {
    var r := AddressValueFixed(text, SipUri.EmptyUri, Some([]));
    if r.err.Some? then HeaderParse(None, r.err)
    else if r.uri.wildcard then HeaderParse(None, Some(WildcardNotPermitted(text)))
    else HeaderParse(Some(HeaderOf(r)), None)
  }

  /** With the correction, To and From reject exactly the values whose scan
      stops at a '*', and agree with the code as written on all others. */
  lemma FixedRejectsWildcard(text: string)
    ensures ToValueFixed(text).err == Some(WildcardNotPermitted(text)) <==> ScanTo(text, |text|, Some([])).outcome.Wildcard?
    ensures FromValueFixed(text).err == Some(WildcardNotPermitted(text)) <==> ScanTo(text, |text|, Some([])).outcome.Wildcard?
    ensures !ScanTo(text, |text|, Some([])).outcome.Wildcard? ==> ToValueFixed(text) == ToValue(text) && FromValueFixed(text) == FromValue(text)
  {
    var s := ScanTo(text, |text|, Some([]));
    var r := AddressValue(text, SipUri.EmptyUri, Some([]));
    WildcardNeverSet(text, SipUri.EmptyUri, Some([]));
    if !s.outcome.Wildcard? {
      assert r.err != Some(WildcardNotPermitted(text)) by {
        ErrorNotWildcard(text, s);
      }
    }
  }

  /** The address parser itself never reports a wildcard error. */
  lemma ErrorNotWildcard(text: string, s: Scan)
    requires Bounded(s, |text|)
    ensures Finish(text, s, SipUri.EmptyUri).err != Some(WildcardNotPermitted(text))
  {
    if s.outcome.Running? {
      var uriEnd := if s.uriEnd < 0 then |text| else s.uriEnd;
      if s.uriStart <= uriEnd {
        SipUri.ParseErrors(SipUri.SipPrefix, SipUri.EmptyUri, text[s.uriStart..uriEnd]);
      }
    }
  }

  /** "*" is rejected once the correction is in place. */
  lemma FixedRejectsStar()
    ensures ToValueFixed("*") == HeaderParse(None, Some(WildcardNotPermitted("*")))
    ensures FromValueFixed("*") == HeaderParse(None, Some(WildcardNotPermitted("*")))
  {
    WildcardStopsScan("*", 0, Some([]));
    assert ScanTo("*", 1, Some([])).outcome.Wildcard?;
  }

  // ---------------------------------------------------------------------
  // Contact, Route and Record-Route: comma-separated lists.

  /** The splitter's loop variables; `sections` lists the sections the
      loop has handed to ParseAddressValue so far. */
  datatype Split = Split(prevIdx: nat, inBrackets: bool, inQuotes: bool, sections: seq<string>)

  /** One iteration of the splitter on the character at `idx`: '<' and '>'
      outside quotes open and close brackets, '"' toggles quoting, and a
      ',' outside both ends a section. */
  function SplitStep(addresses: string, idx: nat, st: Split): (r: Split)
    requires idx < |addresses| && st.prevIdx <= idx
    ensures r.prevIdx <= idx + 1
  {
    var c := addresses[idx];
    if c == '<' && !st.inQuotes then st.(inBrackets := true)
    else if c == '>' && !st.inQuotes then st.(inBrackets := false)
    else if c == '"' then st.(inQuotes := !st.inQuotes)
    else if !st.inQuotes && !st.inBrackets && c == ',' then
      Split(idx + 1, st.inBrackets, st.inQuotes, st.sections + [addresses[st.prevIdx..idx]])
    else st
  }

  function SplitTo(addresses: string, n: nat): (st: Split)
    requires n <= |addresses|
    ensures st.prevIdx <= n
  {
    if n == 0 then Split(0, false, false, []) else SplitStep(addresses, n - 1, SplitTo(addresses, n - 1))
  }

  /** The sections of a header value: the splitter runs over the text with
      a ',' appended. */
  function Sections(text: string): seq<string> {
    SplitTo(text + ",", |text| + 1).sections
  }

  /** The sections, each followed by its ',', then the unfinished rest. */
  function Rejoin(sections: seq<string>): string {
    if sections == [] then "" else Rejoin(sections[..|sections| - 1]) + sections[|sections| - 1] + ","
  }

  /** The text read so far is the sections so far, each with its comma,
      followed by the text since the last comma. */
  predicate Covers(addresses: string, n: nat, st: Split)
    requires st.prevIdx <= n <= |addresses|
  {
    Rejoin(st.sections) + addresses[st.prevIdx..n] == addresses[..n]
  }

  lemma CoverStep(addresses: string, i: nat, st: Split)
    requires i < |addresses| && st.prevIdx <= i && Covers(addresses, i, st)
    ensures Covers(addresses, i + 1, SplitStep(addresses, i, st))
  {
    var t := SplitStep(addresses, i, st);
    assert addresses[..i + 1] == addresses[..i] + [addresses[i]];
    if t.sections != st.sections {
      var sec := addresses[st.prevIdx..i];
      assert t.sections == st.sections + [sec] && t.prevIdx == i + 1 && addresses[i] == ',';
      assert t.sections[..|t.sections| - 1] == st.sections;
      assert Rejoin(t.sections) == Rejoin(st.sections) + sec + ",";
      assert addresses[t.prevIdx..i + 1] == [];
    } else {
      assert addresses[st.prevIdx..i + 1] == addresses[st.prevIdx..i] + [addresses[i]];
    }
  }

  /** Nothing is lost or reordered by the splitter. */
  lemma {:induction false} SplitCovers(addresses: string, n: nat)
    requires n <= |addresses|
    ensures Covers(addresses, n, SplitTo(addresses, n))
  {
    if n > 0 {
      SplitCovers(addresses, n - 1);
      CoverStep(addresses, n - 1, SplitTo(addresses, n - 1));
    } else {
      assert addresses[..0] == [] && addresses[0..0] == [];
    }
  }

  /** When the appended ',' ends the last section (quotes and brackets are
      balanced), the sections and their commas make up the whole text. */
  lemma SectionsRejoin(text: string)
    requires var st := SplitTo(text + ",", |text|); !st.inQuotes && !st.inBrackets
    ensures Rejoin(Sections(text)) == text + ","
  {
    var addresses := text + ",";
    var n := |addresses|;
    SplitCovers(addresses, n);
    var st := SplitTo(addresses, n);
    assert addresses[n - 1] == ',';
    assert st.prevIdx == n;
    assert addresses[..n] == addresses;
    assert addresses[st.prevIdx..n] == [];
  }

  /** The first error among the sections, in order. */
  function FirstFailure(sections: seq<string>, p: ParamMap): Option<Error> {
    if sections == [] then None
    else
      var e := FirstFailure(sections[..|sections| - 1], p);
      if e.Some? then e else AddressValue(sections[|sections| - 1], SipUri.EmptyUri, p).err
  }

  /** What the splitter loop computes: the first error, and the result of
      parsing the first section (the one parsed into the returned head). */
  datatype ListParse = ListParse(first: Option<AddressResult>, err: Option<Error>)

  function ListValue(text: string, p: ParamMap): ListParse {
    var secs := Sections(text);
    ListParse(FirstParsed(secs, p), FirstFailure(secs, p))
  }

  /** The parse of the first section, the one that goes into the head. */
  function FirstParsed(sections: seq<string>, p: ParamMap): Option<AddressResult> {
    if sections == [] then None else Some(AddressValue(sections[0], SipUri.EmptyUri, p))
  }

  /** The splitter loop shared by the three list headers: every section is
      parsed in turn, and the first error aborts. */
  method ParseSections(text: string, params: ParamMap) returns (r: ListParse)
    ensures r.err == ListValue(text, params).err
    ensures r.err.None? ==> r == ListValue(text, params)
  {
    var addresses := text + ",";
    var prevIdx := 0;
    var inBrackets := false;
    var inQuotes := false;
    var first: Option<AddressResult> := None;
    ghost var sections: seq<string> := [];
    var idx := 0;
    while idx < |addresses|
      invariant idx <= |addresses|
      invariant Split(prevIdx, inBrackets, inQuotes, sections) == SplitTo(addresses, idx)
      invariant FirstFailure(sections, params).None?
      invariant first == FirstParsed(sections, params)
    {
      var c := addresses[idx];
      if !inQuotes && !inBrackets && c == ',' && c != '<' && c != '>' && c != '"' {
        var a := ParseAddressValue(addresses[prevIdx..idx], SipUri.EmptyUri, params);
        SectionEnds(addresses, idx, SplitTo(addresses, idx), params);
        sections := sections + [addresses[prevIdx..idx]];
        if a.err.Some? {
          ListErrorLater(text, idx + 1, params);
          return ListParse(first, a.err);
        }
        if first.None? {
          first := Some(a);
        }
        prevIdx := idx + 1;
      } else if c == '<' && !inQuotes {
        inBrackets := true;
      } else if c == '>' && !inQuotes {
        inBrackets := false;
      } else if c == '"' {
        inQuotes := !inQuotes;
      }
      idx := idx + 1;
    }
    r := ListParse(first, None);
  }

  /** A ',' outside quotes and brackets ends a section: it is appended to
      the list, and its parse decides whether the list has failed so far. */
  lemma SectionEnds(addresses: string, idx: nat, st: Split, p: ParamMap)
    requires idx < |addresses| && st == SplitTo(addresses, idx)
    requires !st.inQuotes && !st.inBrackets && addresses[idx] == ','
    requires FirstFailure(st.sections, p).None?
    ensures var sec := addresses[st.prevIdx..idx];
            SplitTo(addresses, idx + 1) == Split(idx + 1, false, false, st.sections + [sec])
            && FirstFailure(st.sections + [sec], p) == AddressValue(sec, SipUri.EmptyUri, p).err
            && FirstParsed(st.sections + [sec], p)
               == if st.sections == [] then Some(AddressValue(sec, SipUri.EmptyUri, p)) else FirstParsed(st.sections, p)
  {
    var sec := addresses[st.prevIdx..idx];
    assert (st.sections + [sec])[..|st.sections|] == st.sections;
  }

  /** More characters only append sections. */
  lemma {:induction false} SplitExtends(addresses: string, n: nat, m: nat)
    requires n <= m <= |addresses|
    ensures SplitTo(addresses, n).sections <= SplitTo(addresses, m).sections
    decreases m - n
  {
    if n < m {
      SplitExtends(addresses, n, m - 1);
    }
  }

  /** An error in a prefix of the sections is the first error of all. */
  lemma {:induction false} FirstFailureExtends(secs: seq<string>, more: seq<string>, p: ParamMap)
    requires secs <= more && FirstFailure(secs, p).Some?
    ensures FirstFailure(more, p) == FirstFailure(secs, p)
    decreases |more|
  {
    if |more| > |secs| {
      assert secs <= more[..|more| - 1];
      FirstFailureExtends(secs, more[..|more| - 1], p);
    } else {
      assert secs == more;
    }
  }

  lemma ListErrorLater(text: string, n: nat, p: ParamMap)
    requires n <= |text| + 1 && FirstFailure(SplitTo(text + ",", n).sections, p).Some?
    ensures ListValue(text, p).err == FirstFailure(SplitTo(text + ",", n).sections, p)
  {
    SplitExtends(text + ",", n, |text| + 1);
    FirstFailureExtends(SplitTo(text + ",", n).sections, Sections(text), p);
  }

  lemma FirstFailureOfTwo(x: string, y: string, p: ParamMap)
    ensures FirstFailure([x, y], p)
            == if AddressValue(x, SipUri.EmptyUri, p).err.Some? then AddressValue(x, SipUri.EmptyUri, p).err
               else AddressValue(y, SipUri.EmptyUri, p).err
  {
    assert [x, y][..1] == [x] && [x, y][1] == y;
    assert [x][..0] == [] && [x][0] == x;
    assert FirstFailure([x], p) == AddressValue(x, SipUri.EmptyUri, p).err;
  }

  /** A Route or Record-Route entry: only the address is kept. */
  datatype RouteHeader = RouteHeader(address: SipUri.Uri)

  /** parseContactAddressHeader: the head holds the first section only; a
      head with no section parsed is returned empty. */
  function ContactValue(text: string): HeaderParse<AddressHeader> {
    var l := ListValue(text, Some([]));
    if l.err.Some? then HeaderParse(None, l.err)
    else HeaderParse(Some(if l.first.None? then AddressHeader("", SipUri.EmptyUri, []) else HeaderOf(l.first.value)), None)
  }

  /** parseRouteHeader and parseRecordRouteHeader: the same loop, keeping
      only the address of the first section. */
  function RouteValue(text: string): HeaderParse<RouteHeader> {
    var l := ListValue(text, None);
    if l.err.Some? then HeaderParse(None, l.err)
    else HeaderParse(Some(RouteHeader(if l.first.None? then SipUri.EmptyUri else l.first.value.uri)), None)
  }

  method ParseContact(text: string) returns (r: HeaderParse<AddressHeader>)
    ensures r == ContactValue(text)
  {
    var l := ParseSections(text, Some([]));
    if l.err.Some? {
      return HeaderParse(None, l.err);
    }
    var head := AddressHeader("", SipUri.EmptyUri, []);
    if l.first.Some? {
      head := HeaderOf(l.first.value);
    }
    r := HeaderParse(Some(head), None);
  }

  method ParseRoute(text: string) returns (r: HeaderParse<RouteHeader>)
    ensures r == RouteValue(text)
  {
    var l := ParseSections(text, None);
    if l.err.Some? {
      return HeaderParse(None, l.err);
    }
    var head := RouteHeader(SipUri.EmptyUri);
    if l.first.Some? {
      head := RouteHeader(l.first.value.uri);
    }
    r := HeaderParse(Some(head), None);
  }

  method ParseRecordRoute(text: string) returns (r: HeaderParse<RouteHeader>)
    ensures r == RouteValue(text)
  {
    r := ParseRoute(text);
  }

  /** Characters the splitter does not act on. */
  predicate Simple(s: string) {
    forall i :: 0 <= i < |s| ==> s[i] != '<' && s[i] != '>' && s[i] != '"' && s[i] != ','
  }

  lemma {:induction false} SplitSimple(addresses: string, a: nat, b: nat)
    requires a <= b <= |addresses| && SplitTo(addresses, a).prevIdx <= a
    requires forall i :: a <= i < b ==> addresses[i] != '<' && addresses[i] != '>' && addresses[i] != '"' && addresses[i] != ','
    ensures SplitTo(addresses, b) == SplitTo(addresses, a)
    decreases b - a
  {
    if a < b {
      SplitSimple(addresses, a, b - 1);
    }
  }

  /** Two simple sections separated by a comma split into exactly those
      two. */
  lemma SectionsOfTwo(x: string, y: string)
    requires Simple(x) && Simple(y)
    ensures Sections(x + "," + y) == [x, y]
  {
    var text := x + "," + y;
    var addresses := text + ",";
    var n := |x|;
    var m := |text|;
    assert forall i :: 0 <= i < n ==> addresses[i] == x[i];
    assert addresses[n] == ',';
    assert forall i :: n + 1 <= i < m ==> addresses[i] == y[i - n - 1];
    assert addresses[m] == ',';
    SplitSimple(addresses, 0, n);
    assert addresses[0..n] == x;
    SplitSimple(addresses, n + 1, m);
    assert addresses[n + 1..m] == y;
  }

  /** The head of a two-entry Contact value holds the first entry only: the
      second is parsed (its errors still abort) and then dropped. */
  lemma ContactKeepsOnlyFirst(x: string, y: string)
    requires Simple(x) && Simple(y)
    requires AddressValue(x, SipUri.EmptyUri, Some([])).err.None? && AddressValue(y, SipUri.EmptyUri, Some([])).err.None?
    ensures ContactValue(x + "," + y) == HeaderParse(Some(HeaderOf(AddressValue(x, SipUri.EmptyUri, Some([])))), None)
  {
    SectionsOfTwo(x, y);
    FirstFailureOfTwo(x, y, Some([]));
  }

  /** The same for Route and Record-Route. */
  lemma RouteKeepsOnlyFirst(x: string, y: string)
    requires Simple(x) && Simple(y)
    requires AddressValue(x, SipUri.EmptyUri, None).err.None? && AddressValue(y, SipUri.EmptyUri, None).err.None?
    ensures RouteValue(x + "," + y) == HeaderParse(Some(RouteHeader(AddressValue(x, SipUri.EmptyUri, None).uri)), None)
  {
    SectionsOfTwo(x, y);
    FirstFailureOfTwo(x, y, None);
  }

  /** A bracketed address followed by simple text is one section: the
      brackets shield nothing here, and the only ',' is the appended one. */
  lemma SectionsOfBracketed(u: string, rest: string)
    requires Simple(u) && Simple(rest)
    ensures Sections("<" + u + ">" + rest) == ["<" + u + ">" + rest]
  {
    var text := "<" + u + ">" + rest;
    var addresses := text + ",";
    var n := |u|;
    var m := |text|;
    assert addresses[0] == '<';
    assert forall i :: 1 <= i < n + 1 ==> addresses[i] == u[i - 1];
    assert addresses[n + 1] == '>';
    assert forall i :: n + 2 <= i < m ==> addresses[i] == rest[i - n - 2];
    assert addresses[m] == ',';
    assert SplitTo(addresses, 1) == Split(0, true, false, []);
    SplitSimple(addresses, 1, n + 1);
    assert SplitTo(addresses, n + 2) == Split(0, false, false, []);
    SplitSimple(addresses, n + 2, m);
    assert addresses[0..m] == text;
  }

  /** The entry `<u>;k=v` is a single section. */
  lemma BracketedParamSection(u: string, k: string, v: string)
    requires Simple(u) && Simple(k) && Simple(v)
    ensures Sections("<" + u + ">;" + k + "=" + v) == ["<" + u + ">;" + k + "=" + v]
  {
    var rest := ";" + k + "=" + v;
    assert "<" + u + ">;" + k + "=" + v == "<" + u + ">" + rest;
    assert Simple(rest) by {
      assert forall i :: 1 <= i < |k| + 1 ==> rest[i] == k[i - 1];
      assert forall i :: |k| + 2 <= i < |rest| ==> rest[i] == v[i - |k| - 2];
    }
    SectionsOfBracketed(u, rest);
  }

  /** A value that is one section parses as that section's address. */
  lemma RouteOfOne(text: string, p: ParamMap)
    requires Sections(text) == [text]
    ensures var a := AddressValue(text, SipUri.EmptyUri, p);
            ListValue(text, p) == ListParse(Some(a), a.err)
  {
    assert [text][..0] == [] && [text][0] == text;
    assert FirstFailure([text], p) == AddressValue(text, SipUri.EmptyUri, p).err;
    assert FirstParsed([text], p) == Some(AddressValue(text, SipUri.EmptyUri, p));
  }

  /** A Route or Record-Route entry with a header parameter after its
      address never parses: the map it is given is nil, so the parameter's
      write panics, unless the address itself failed first. */
  lemma RouteParamPanics(u: string, k: string, v: string)
    requires Simple(u) && Simple(k) && Simple(v) && InertText(k) && InertText(v)
    ensures var pu := SipUri.Run(SipUri.SipPrefix, SipUri.EmptyUri, u);
            RouteValue("<" + u + ">;" + k + "=" + v)
            == HeaderParse(None, if pu.err.Some? then pu.err else Some(Panic(NilMapWrite)))
  {
    var text := "<" + u + ">;" + k + "=" + v;
    BracketedParamSection(u, k, v);
    RouteOfOne(text, None);
    assert '>' !in u by {
      forall i | 0 <= i < |u| ensures u[i] != '>' { }
    }
    OneHeaderParam(u, k, v, []);
  }

  /** Route and Record-Route as evidently meant: the entry's parameters go
      into a map of their own that is then dropped. */
  function RouteValueFixed(text: string): HeaderParse<RouteHeader> {
    var l := ListValue(text, Some([]));
    if l.err.Some? then HeaderParse(None, l.err)
    else HeaderParse(Some(RouteHeader(if l.first.None? then SipUri.EmptyUri else l.first.value.uri)), None)
  }

  /** With the correction, a parameter after the address is accepted and
      the address is kept. */
  lemma RouteFixedKeepsAddress(u: string, k: string, v: string)
    requires Simple(u) && Simple(k) && Simple(v) && InertText(k) && InertText(v)
    ensures var pu := SipUri.Run(SipUri.SipPrefix, SipUri.EmptyUri, u);
            RouteValueFixed("<" + u + ">;" + k + "=" + v)
            == if pu.err.Some? then HeaderParse(None, pu.err) else HeaderParse(Some(RouteHeader(pu.uri)), None)
  {
    var text := "<" + u + ">;" + k + "=" + v;
    BracketedParamSection(u, k, v);
    RouteOfOne(text, Some([]));
    assert '>' !in u by {
      forall i | 0 <= i < |u| ensures u[i] != '>' { }
    }
    OneHeaderParam(u, k, v, []);
  }

  /** Where no entry carries a header parameter the correction changes
      nothing: a nil map and an empty one read alike. */
  lemma {:induction false} NilMapFailsAlike(sections: seq<string>)
    requires forall i :: 0 <= i < |sections| ==> AddressValue(sections[i], SipUri.EmptyUri, Some([])).params == Some([])
    ensures FirstFailure(sections, None) == FirstFailure(sections, Some([]))
  {
    if sections != [] {
      var init := sections[..|sections| - 1];
      assert forall i :: 0 <= i < |init| ==> init[i] == sections[i];
      NilMapFailsAlike(init);
      NilParamsFailAtFirstParam(sections[|sections| - 1], SipUri.EmptyUri);
    }
  }

  lemma RouteFixedAgrees(text: string)
    requires forall i :: 0 <= i < |Sections(text)| ==> AddressValue(Sections(text)[i], SipUri.EmptyUri, Some([])).params == Some([])
    ensures RouteValue(text) == RouteValueFixed(text)
  {
    var secs := Sections(text);
    NilMapFailsAlike(secs);
    if secs != [] {
      NilParamsFailAtFirstParam(secs[0], SipUri.EmptyUri);
    }
  }

  /** Contact with every section kept, in order, as the linked list of
      headers was meant to hold them. */
  function ContactListValue(text: string): (r: HeaderParse<seq<AddressHeader>>)
    ensures r.err == ListValue(text, Some([])).err
    ensures r.header.Some? <==> r.err.None?
    ensures r.header.Some? ==>
              |r.header.value| == |Sections(text)|
              && forall i :: 0 <= i < |Sections(text)| ==>
                   r.header.value[i] == HeaderOf(AddressValue(Sections(text)[i], SipUri.EmptyUri, Some([])))
  {
    var secs := Sections(text);
    var e := FirstFailure(secs, Some([]));
    if e.Some? then HeaderParse(None, e)
    else HeaderParse(Some(seq(|secs|, i requires 0 <= i < |secs| => HeaderOf(AddressValue(secs[i], SipUri.EmptyUri, Some([]))))), None)
  }

  /** Both entries of a two-entry Contact value are kept by the corrected
      splitter, and its first entry is the head the code returns. */
  lemma ContactListKeepsAll(x: string, y: string)
    requires Simple(x) && Simple(y)
    requires AddressValue(x, SipUri.EmptyUri, Some([])).err.None? && AddressValue(y, SipUri.EmptyUri, Some([])).err.None?
    ensures ContactListValue(x + "," + y)
            == HeaderParse(Some([HeaderOf(AddressValue(x, SipUri.EmptyUri, Some([]))), HeaderOf(AddressValue(y, SipUri.EmptyUri, Some([])))]), None)
  {
    SectionsOfTwo(x, y);
    FirstFailureOfTwo(x, y, Some([]));
    var r := ContactListValue(x + "," + y);
    assert r.header.Some?;
    assert r.header.value == [HeaderOf(AddressValue(x, SipUri.EmptyUri, Some([]))), HeaderOf(AddressValue(y, SipUri.EmptyUri, Some([])))];
  }

  /** Whenever the code as written succeeds on a non-empty list, its head
      is the first entry of the corrected list. */
  lemma ContactHeadIsFirstOfList(text: string)
    requires Sections(text) != [] && ContactValue(text).err.None?
    ensures ContactListValue(text).header.Some?
    ensures ContactValue(text).header == Some(ContactListValue(text).header.value[0])
  {
  }
}
