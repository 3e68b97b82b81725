/** The SIP URI parser: `sip:user:password@host:port;uri-parameters?headers`
    (section 19.1.1 of RFC 3261), a finite-state machine whose states each
    consume a prefix of the text, write some fields of the Uri and name the
    next state. */
module SipUri {
  import opened Common
  import Text
  import Numbers
  import HP = HeaderParams

  /** A parsed URI. `None` parameter lists are Go nil maps: states that never
      ran leave them unset. */
  datatype Uri = Uri(
    encrypted: bool,
    wildcard: bool,
    user: string,
    password: string,
    host: string,
    port: int,
    uriParams: Option<HP.Params>,
    headers: Option<HP.Params>)

  /** `sip.Uri{}`: the value every caller starts from. */
  const EmptyUri: Uri := Uri(false, false, "", "", "", 0, None, None)

  /** The parser's states. The source also declares a password state, but no
      state ever returns it, so it is not part of the machine. */
  datatype State = SipPrefix | UserInfo | Host | Port | UriParams | Headers

  function Rank(st: State): nat {
    match st
    case SipPrefix => 0
    case UserInfo => 1
    case Host => 2
    case Port => 3
    case UriParams => 4
    case Headers => 5
  }

  /** What one state function returns: the next state (None = stop), the
      Uri as it has written it, the rest of the text, and its error. */
  datatype Step = Step(next: Option<State>, uri: Uri, rest: string, err: Option<Error>)

  /** The outcome of ParseUri: the Uri as written so far, and the error. */
  datatype Parsed = Parsed(uri: Uri, err: Option<Error>)

  const HostDelimiters: set<char> := {':', ';', '?'}
  const PortDelimiters: set<char> := {';', '?'}

  predicate IsS(c: char) { c == 's' || c == 'S' }

  // ---------------------------------------------------------------------
  // What each state does, stated with index searches.

  /** uriStateSIP: a leading 's'/'S' is taken as the scheme ("sip:" or, when
      the fourth character is 's'/'S', "sips:"), nothing else of it is
      checked; any other first character means there is no scheme. Indexing
      past the end is a Go panic. */
  function SipPrefixSpec(u: Uri, s: string): Step {
    if |s| == 0 then Step(None, u, "", Some(Panic("index out of range [0]")))
    else if IsS(s[0]) then
      if |s| < 4 then Step(None, u, "", Some(Panic("index out of range [3]")))
      else if IsS(s[3]) then
        if |s| < 5 then Step(None, u, "", Some(Panic("slice bounds out of range [5:4]")))
        else Step(Some(UserInfo), u.(encrypted := true), s[5..], None)
      else Step(Some(UserInfo), u, s[4..], None)
    else Step(Some(Host), u, s, None)
  }

  /** uriStateUser: with an '@', the text before it is the user part, split
      into user and password at its last ':' when that ':' is not at index 0;
      without one, nothing is consumed. */
  function UserInfoSpec(u: Uri, s: string): Step {
    var at := Text.IndexOf(s, '@');
    if at < 0 then Step(Some(Host), u, s, None)
    else
      var colon := Text.LastIndexOf(s[..at], ':');
      if colon > 0 then
        Step(Some(Host), u.(user := s[..colon], password := s[colon + 1..at]), s[at + 1..], None)
      else
        Step(Some(Host), u.(user := s[..at]), s[at + 1..], None)
  }

  /** uriStateHost: the host runs to the first ':', ';' or '?', which selects
      the port, the URI parameters or the headers; with none, all of it is
      the host. */
  function HostSpec(u: Uri, s: string): Step {
    var k := Text.IndexOfAny(s, HostDelimiters);
    if k < 0 then Step(Some(UriParams), u.(host := s), "", None)
    else
      var next := if s[k] == ':' then Port else if s[k] == ';' then UriParams else Headers;
      Step(Some(next), u.(host := s[..k]), s[k + 1..], None)
  }

  /** uriStatePort: Atoi of the text up to the first ';' or '?', or of all of
      it, in which case parsing ends. The port is written even on error. */
  function PortSpec(u: Uri, s: string): Step {
    var k := Text.IndexOfAny(s, PortDelimiters);
    if k < 0 then
      var n := Numbers.Atoi(s);
      Step(None, u.(port := n.value), s, n.err)
    else
      var n := Numbers.Atoi(s[..k]);
      Step(Some(if s[k] == ';' then UriParams else Headers), u.(port := n.value), s[k + 1..], n.err)
  }

  /** uriStateUriParams: empty text gives empty parameters and headers;
      otherwise `;`-separated parameters up to a '?', after which come the
      headers. */
  function UriParamsSpec(u: Uri, s: string): Step {
    if |s| == 0 then Step(None, u.(uriParams := Some([]), headers := Some([])), s, None)
    else
      var d := HP.Unmarshal(s, ';', '?', []);
      var n := if d.consumed == |s| then d.consumed - 1 else d.consumed;
      if s[n] != '?' then Step(None, u.(uriParams := Some(d.params)), s, None)
      else Step(Some(Headers), u.(uriParams := Some(d.params)), s[n + 1..], None)
  }

  /** uriStateHeaders: `&`-separated headers to the end. */
  function HeadersSpec(u: Uri, s: string): Step {
    var d := HP.Unmarshal(s, '&', '\0', []);
    Step(None, u.(headers := Some(d.params)), s, None)
  }

  function StepSpec(st: State, u: Uri, s: string): (r: Step)
    ensures r.next.Some? ==> Rank(r.next.value) > Rank(st)
  {
    match st
    case SipPrefix => SipPrefixSpec(u, s)
    case UserInfo => UserInfoSpec(u, s)
    case Host => HostSpec(u, s)
    case Port => PortSpec(u, s)
    case UriParams => UriParamsSpec(u, s)
    case Headers => HeadersSpec(u, s)
  }

  /** The machine run from state `st`: apply states until one names no next
      state, stopping at the first error. */
  function Run(st: State, u: Uri, s: string): Parsed
    decreases 6 - Rank(st)
  {
    var r := StepSpec(st, u, s);
    if r.err.Some? then Parsed(r.uri, r.err)
    else if r.next.None? then Parsed(r.uri, None)
    else Run(r.next.value, r.uri, r.rest)
  }

  // ---------------------------------------------------------------------
  // The state functions and the dispatch loop.

  lemma LastIndexOfSnoc(s: string, i: nat, c: char)
    requires i < |s|
    ensures Text.LastIndexOf(s[..i + 1], c) == if s[i] == c then i else Text.LastIndexOf(s[..i], c)
  {
    assert s[..i + 1][..i] == s[..i];
  }

  method StateUser(u: Uri, s: string) returns (r: Step)
    ensures r == UserInfoSpec(u, s)
  {
    var userend := 0;
    var i := 0;
    while i < |s|
      invariant UserScan(s, i, userend)
    {
      if s[i] == '@' {
        UserScanFound(u, s, i, userend);
        var v: Uri;
        if userend > 0 {
          v := u.(user := s[..userend], password := s[userend + 1..i]);
        } else {
          v := u.(user := s[..i]);
        }
        return Step(Some(Host), v, s[i + 1..], None);
      }
      UserScanNext(s, i, userend);
      if s[i] == ':' {
        userend := i;
      }
      i := i + 1;
    }
    UserScanDone(u, s, userend);
    return Step(Some(Host), u, s, None);
  }

  /** The loop of uriStateUser after `i` characters: no '@' yet, and
      `userend` at the last ':' (0 when there is none). */
  predicate UserScan(s: string, i: nat, userend: int) {
    i <= |s| && '@' !in s[..i] && userend == if ':' in s[..i] then Text.LastIndexOf(s[..i], ':') else 0
  }

  lemma UserScanNext(s: string, i: nat, userend: int)
    requires UserScan(s, i, userend) && i < |s| && s[i] != '@'
    ensures UserScan(s, i + 1, if s[i] == ':' then i else userend)
  {
    LastIndexOfSnoc(s, i, ':');
    assert s[..i + 1] == s[..i] + [s[i]];
  }

  lemma UserScanFound(u: Uri, s: string, i: nat, userend: int)
    requires UserScan(s, i, userend) && i < |s| && s[i] == '@'
    ensures UserInfoSpec(u, s)
            == Step(Some(Host), if userend > 0 then u.(user := s[..userend], password := s[userend + 1..i])
                                 else u.(user := s[..i]), s[i + 1..], None)
  {
    IndexOfAt(s, '@', i);
  }

  lemma UserScanDone(u: Uri, s: string, userend: int)
    requires UserScan(s, |s|, userend)
    ensures UserInfoSpec(u, s) == Step(Some(Host), u, s, None)
  {
    assert s[..|s|] == s;
  }

  method StateHost(u: Uri, s: string) returns (r: Step)
    ensures r == HostSpec(u, s)
  {
    var i := 0;
    while i < |s|
      invariant 0 <= i <= |s|
      invariant forall j :: 0 <= j < i ==> s[j] !in HostDelimiters
    {
      if s[i] == ':' {
        return Step(Some(Port), u.(host := s[..i]), s[i + 1..], None);
      }
      if s[i] == ';' {
        return Step(Some(UriParams), u.(host := s[..i]), s[i + 1..], None);
      }
      if s[i] == '?' {
        return Step(Some(Headers), u.(host := s[..i]), s[i + 1..], None);
      }
      i := i + 1;
    }
    return Step(Some(UriParams), u.(host := s), "", None);
  }

  method StatePort(u: Uri, s: string) returns (r: Step)
    ensures r == PortSpec(u, s)
  {
    var i := 0;
    while i < |s|
      invariant 0 <= i <= |s|
      invariant forall j :: 0 <= j < i ==> s[j] !in PortDelimiters
    {
      if s[i] == ';' {
        var n := Numbers.Atoi(s[..i]);
        return Step(Some(UriParams), u.(port := n.value), s[i + 1..], n.err);
      }
      if s[i] == '?' {
        var n := Numbers.Atoi(s[..i]);
        return Step(Some(Headers), u.(port := n.value), s[i + 1..], n.err);
      }
      i := i + 1;
    }
    var n := Numbers.Atoi(s);
    return Step(None, u.(port := n.value), s, n.err);
  }

  method Apply(st: State, u: Uri, s: string) returns (r: Step)
    ensures r == StepSpec(st, u, s)
  {
    match st {
      case SipPrefix => r := SipPrefixSpec(u, s);
      case UserInfo => r := StateUser(u, s);
      case Host => r := StateHost(u, s);
      case Port => r := StatePort(u, s);
      case UriParams => r := UriParamsSpec(u, s);
      case Headers => r := HeadersSpec(u, s);
    }
  }

  /** ParseUri: writes the fields of `uri` that the text determines and
      returns the first error a state reports. */
  method ParseUri(text: string, uri: Uri) returns (r: Parsed)
    ensures r == Run(SipPrefix, uri, text)
  {
    var state: Option<State> := Some(SipPrefix);
    var str := text;
    var u := uri;
    while state.Some?
      invariant Run(SipPrefix, uri, text) == if state.Some? then Run(state.value, u, str) else Parsed(u, None)
      decreases if state.Some? then 6 - Rank(state.value) else 0
    {
      var step := Apply(state.value, u, str);
      state, str, u := step.next, step.rest, step.uri;
      if step.err.Some? {
        return Parsed(u, step.err);
      }
    }
    return Parsed(u, None);
  }

  // ---------------------------------------------------------------------
  // Properties of the machine.

  /** No state after the scheme touches the encrypted or wildcard flags. */
  lemma {:induction false} LaterStatesKeepFlags(st: State, u: Uri, s: string)
    requires st != SipPrefix
    ensures Run(st, u, s).uri.encrypted == u.encrypted
    ensures Run(st, u, s).uri.wildcard == u.wildcard
    decreases 6 - Rank(st)
  {
    var r := StepSpec(st, u, s);
    if r.err.None? && r.next.Some? {
      LaterStatesKeepFlags(r.next.value, r.uri, r.rest);
    }
  }

  /** No state sets the wildcard flag: ParseUri leaves it as the caller
      had it. */
  lemma ParseKeepsWildcard(u: Uri, s: string)
    ensures Run(SipPrefix, u, s).uri.wildcard == u.wildcard
  {
    var r := SipPrefixSpec(u, s);
    if r.err.None? && r.next.Some? {
      LaterStatesKeepFlags(r.next.value, r.uri, r.rest);
    }
  }

  /** The only errors the parser reports are Go panics (indexing past the
      end of a short scheme) and Atoi's errors on the port. */
  lemma {:induction false} ParseErrors(st: State, u: Uri, s: string)
    ensures Run(st, u, s).err.Some? ==>
              Run(st, u, s).err.value.Panic? || Run(st, u, s).err.value.NumberSyntax? || Run(st, u, s).err.value.NumberRange?
    decreases 6 - Rank(st)
  {
    var r := StepSpec(st, u, s);
    if r.err.None? && r.next.Some? {
      ParseErrors(r.next.value, r.uri, r.rest);
    }
  }

  /** No state after the user part touches the user or the password. */
  lemma {:induction false} LaterStatesKeepUser(st: State, u: Uri, s: string)
    requires Rank(st) >= 2
    ensures Run(st, u, s).uri.user == u.user
    ensures Run(st, u, s).uri.password == u.password
    decreases 6 - Rank(st)
  {
    var r := StepSpec(st, u, s);
    if r.err.None? && r.next.Some? {
      LaterStatesKeepUser(r.next.value, r.uri, r.rest);
    }
  }

  /** The URI is marked encrypted exactly when its first and fourth
      characters are 's' or 'S' (a "sips:" scheme); nothing else of the
      scheme is checked. */
  lemma EncryptedIffSipsScheme(text: string, u: Uri)
    requires !u.encrypted && |text| >= 5
    ensures Run(SipPrefix, u, text).uri.encrypted <==> IsS(text[0]) && IsS(text[3])
  {
    var r := SipPrefixSpec(u, text);
    LaterStatesKeepFlags(r.next.value, r.uri, r.rest);
  }

  /** Text that does not start with 's' or 'S' has no scheme: all of it goes
      to the host state and the URI stays unencrypted. */
  lemma NoSchemeStartsAtHost(text: string, u: Uri)
    requires |text| > 0 && !IsS(text[0])
    ensures Run(SipPrefix, u, text) == Run(Host, u, text)
    ensures Run(SipPrefix, u, text).uri.encrypted == u.encrypted
  {
    LaterStatesKeepFlags(Host, u, text);
  }

  /** Without an '@', no user part is written: the whole text reaches the
      host state. */
  lemma NoAtNoUser(s: string, u: Uri)
    requires '@' !in s
    ensures Run(UserInfo, u, s) == Run(Host, u, s)
    ensures Run(UserInfo, u, s).uri.user == u.user
    ensures Run(UserInfo, u, s).uri.password == u.password
  {
    LaterStatesKeepUser(Host, u, s);
  }

  /** A host with no ':', ';' or '?' after it is the whole rest, and the
      parameters and headers become empty. */
  lemma HostOnly(s: string, u: Uri)
    requires forall i :: 0 <= i < |s| ==> s[i] !in HostDelimiters
    ensures Run(Host, u, s) == Parsed(u.(host := s, uriParams := Some([]), headers := Some([])), None)
  {
  }

  /** A port that is the last component ends parsing: the port is Atoi of
      the rest (written even when that fails), and the parameters and headers
      are left as they were (nil for a fresh Uri). */
  lemma PortLast(s: string, u: Uri)
    requires forall i :: 0 <= i < |s| ==> s[i] !in PortDelimiters
    ensures Run(Port, u, s) == Parsed(u.(port := Numbers.Atoi(s).value), Numbers.Atoi(s).err)
    ensures Numbers.AllDigits(s) && s != [] && Numbers.DigitsValue(s) <= Numbers.MaxInt64 ==>
              Run(Port, u, s) == Parsed(u.(port := Numbers.DigitsValue(s)), None)
  {
    if Numbers.AllDigits(s) && s != [] {
      assert s[0] != '-' && s[0] != '+';
    }
  }

  /** The headers are reached only when the parameter decoder stopped at a
      '?'. */
  lemma HeadersOnlyAfterQuestionMark(s: string, u: Uri)
    requires s != [] && '?' !in s
    ensures Run(UriParams, u, s).uri.headers == u.headers
  {
    var d := HP.Unmarshal(s, ';', '?', []);
    assert d.consumed == |s|;
  }

  lemma IndexOfAnyAt(s: string, cs: set<char>, k: nat)
    requires k < |s| && s[k] in cs && forall i :: 0 <= i < k ==> s[i] !in cs
    ensures Text.IndexOfAny(s, cs) == k
  {
  }

  lemma IndexOfAt(s: string, c: char, k: nat)
    requires k < |s| && s[k] == c && c !in s[..k]
    ensures Text.IndexOf(s, c) == k
  {
  }

  lemma LastIndexOfAt(s: string, c: char, k: nat)
    requires k < |s| && s[k] == c && c !in s[k + 1..]
    ensures Text.LastIndexOf(s, c) == k
  {
  }

  /** The scheme text that EncodeUri-style callers write. */
  function Scheme(encrypted: bool): string {
    if encrypted then "sips:" else "sip:"
  }

  lemma UserStage(u: Uri, user: string, password: string, rest: string)
    requires user != "" && '@' !in user && '@' !in password && ':' !in password
    ensures UserInfoSpec(u, user + ":" + password + "@" + rest)
         == Step(Some(Host), u.(user := user, password := password), rest, None)
  {
    var ui := user + ":" + password;
    var usr := ui + "@" + rest;
    var at := |ui|;
    assert usr[..at] == ui;
    assert usr[at] == '@';
    assert '@' !in ui;
    IndexOfAt(usr, '@', at);
    assert ui[..|user|] == user;
    assert ui[|user| + 1..] == password;
    assert ui[|user|] == ':';
    LastIndexOfAt(ui, ':', |user|);
    assert usr[..|user|] == user;
    assert usr[|user| + 1..at] == password;
    assert usr[at + 1..] == rest;
  }

  lemma HostStage(u: Uri, host: string, rest: string)
    requires forall i :: 0 <= i < |host| ==> host[i] !in HostDelimiters
    ensures HostSpec(u, host + ":" + rest) == Step(Some(Port), u.(host := host), rest, None)
  {
    var hst := host + ":" + rest;
    IndexOfAnyAt(hst, HostDelimiters, |host|);
    assert hst[..|host|] == host && hst[|host| + 1..] == rest;
  }

  lemma PortStage(u: Uri, port: nat, rest: string)
    requires port <= Numbers.MaxInt64
    ensures PortSpec(u, Numbers.NatToString(port) + ";" + rest)
         == Step(Some(UriParams), u.(port := port), rest, None)
  {
    var ps := Numbers.NatToString(port);
    var prt := ps + ";" + rest;
    assert forall i :: 0 <= i < |ps| ==> prt[i] == ps[i] && Numbers.IsDigit(ps[i]);
    IndexOfAnyAt(prt, PortDelimiters, |ps|);
    assert prt[..|ps|] == ps && prt[|ps| + 1..] == rest;
    Numbers.AtoiOfIntToString(port);
  }

  lemma UriParamsStage(u: Uri, k: string, v: string, rest: string)
    requires k != "" && '=' !in k && ';' !in k && '?' !in k && ';' !in v && '?' !in v
    ensures UriParamsSpec(u, k + "=" + v + "?" + rest)
         == Step(Some(Headers), u.(uriParams := Some([(k, v)])), rest, None)
  {
    var prm := k + "=" + v + "?" + rest;
    assert prm == k + "=" + v + ("?" + rest);
    HP.UnmarshalSingle(k, v, "?" + rest, ';', '?');
    assert prm[|k| + 1 + |v|] == '?' && prm[|k| + 1 + |v| + 1..] == rest;
  }

  lemma HeadersStage(u: Uri, hk: string, hv: string)
    requires hk != "" && '=' !in hk && '&' !in hk && '\0' !in hk && '&' !in hv && '\0' !in hv
    ensures HeadersSpec(u, hk + "=" + hv)
         == Step(None, u.(headers := Some([(hk, hv)])), hk + "=" + hv, None)
  {
    assert hk + "=" + hv == hk + "=" + hv + [];
    HP.UnmarshalSingle(hk, hv, [], '&', '\0');
  }

  lemma SchemeStage(encrypted: bool, rest: string)
    ensures SipPrefixSpec(EmptyUri, Scheme(encrypted) + rest)
         == Step(Some(UserInfo), EmptyUri.(encrypted := encrypted), rest, None)
  {
    var text := Scheme(encrypted) + rest;
    assert text[|Scheme(encrypted)|..] == rest;
  }

  lemma RunScheme(u: Uri, s: string, u': Uri, s': string)
    requires SipPrefixSpec(u, s) == Step(Some(UserInfo), u', s', None)
    ensures Run(SipPrefix, u, s) == Run(UserInfo, u', s')
  {
  }

  lemma RunUser(u: Uri, s: string, u': Uri, s': string)
    requires UserInfoSpec(u, s) == Step(Some(Host), u', s', None)
    ensures Run(UserInfo, u, s) == Run(Host, u', s')
  {
  }

  lemma RunHost(u: Uri, s: string, u': Uri, s': string)
    requires HostSpec(u, s) == Step(Some(Port), u', s', None)
    ensures Run(Host, u, s) == Run(Port, u', s')
  {
  }

  lemma RunPort(u: Uri, s: string, u': Uri, s': string)
    requires PortSpec(u, s) == Step(Some(UriParams), u', s', None)
    ensures Run(Port, u, s) == Run(UriParams, u', s')
  {
  }

  lemma RunUriParams(u: Uri, s: string, u': Uri, s': string)
    requires UriParamsSpec(u, s) == Step(Some(Headers), u', s', None)
    ensures Run(UriParams, u, s) == Run(Headers, u', s')
  {
  }

  lemma RunHeaders(u: Uri, s: string, u': Uri)
    requires HeadersSpec(u, s) == Step(None, u', s, None)
    ensures Run(Headers, u, s) == Parsed(u', None)
  {
  }

  /** Six steps that each hand on to the next make one run. */
  lemma {:induction false} RunChain(text: string, usr: string, hst: string, prt: string, prm: string, hdr: string,
                 u0: Uri, u1: Uri, u2: Uri, u3: Uri, u4: Uri, u5: Uri)
    requires SipPrefixSpec(EmptyUri, text) == Step(Some(UserInfo), u0, usr, None)
    requires UserInfoSpec(u0, usr) == Step(Some(Host), u1, hst, None)
    requires HostSpec(u1, hst) == Step(Some(Port), u2, prt, None)
    requires PortSpec(u2, prt) == Step(Some(UriParams), u3, prm, None)
    requires UriParamsSpec(u3, prm) == Step(Some(Headers), u4, hdr, None)
    requires HeadersSpec(u4, hdr) == Step(None, u5, hdr, None)
    ensures Run(SipPrefix, EmptyUri, text) == Parsed(u5, None)
  {
    RunScheme(EmptyUri, text, u0, usr);
    RunUser(u0, usr, u1, hst);
    RunHost(u1, hst, u2, prt);
    RunPort(u2, prt, u3, prm);
    RunUriParams(u3, prm, u4, hdr);
    RunHeaders(u4, hdr, u5);
  }

  lemma Regroup(sc: string, user: string, password: string, host: string, ps: string,
                k: string, v: string, hk: string, hv: string)
    ensures sc + user + ":" + password + "@" + host + ":" + ps + ";" + k + "=" + v + "?" + hk + "=" + hv
         == sc + (user + ":" + password + "@" + (host + ":" + (ps + ";" + (k + "=" + v + "?" + (hk + "=" + hv)))))
  {
  }

  /** Round trip over structured fields: parsing
      `sip[s]:user:password@host:port;key=value?hkey=hvalue` recovers every
      field. */
  lemma {:induction false} ParseFullUri(encrypted: bool, user: string, password: string, host: string,
                                        port: nat, k: string, v: string, hk: string, hv: string)
    requires user != "" && '@' !in user
    requires '@' !in password && ':' !in password
    requires forall i :: 0 <= i < |host| ==> host[i] !in HostDelimiters
    requires port <= Numbers.MaxInt64
    requires k != "" && '=' !in k && ';' !in k && '?' !in k && ';' !in v && '?' !in v
    requires hk != "" && '=' !in hk && '&' !in hk && '\0' !in hk && '&' !in hv && '\0' !in hv
    ensures Run(SipPrefix, EmptyUri,
                Scheme(encrypted) + user + ":" + password + "@" + host + ":" + Numbers.NatToString(port)
                + ";" + k + "=" + v + "?" + hk + "=" + hv)
         == Parsed(Uri(encrypted, false, user, password, host, port, Some([(k, v)]), Some([(hk, hv)])), None)
  {
    var hdr := hk + "=" + hv;
    var prm := k + "=" + v + "?" + hdr;
    var prt := Numbers.NatToString(port) + ";" + prm;
    var hst := host + ":" + prt;
    var usr := user + ":" + password + "@" + hst;
    var text := Scheme(encrypted) + usr;
    Regroup(Scheme(encrypted), user, password, host, Numbers.NatToString(port), k, v, hk, hv);
    var u0 := EmptyUri.(encrypted := encrypted);
    var u1 := u0.(user := user, password := password);
    var u2 := u1.(host := host);
    var u3 := u2.(port := port);
    var u4 := u3.(uriParams := Some([(k, v)]));
    SchemeStage(encrypted, usr);
    UserStage(u0, user, password, hst);
    HostStage(u1, host, prt);
    PortStage(u2, port, prm);
    UriParamsStage(u3, k, v, hdr);
    HeadersStage(u4, hk, hv);
    RunChain(text, usr, hst, prt, prm, hdr, u0, u1, u2, u3, u4, u4.(headers := Some([(hk, hv)])));

  }
}
