/** SIP messages (section 7 of RFC 3261): the typed header list, requests
    and responses, their wire text, and how a request resolves the transport,
    source and destination it travels with. */
module Message {
  import opened Common
  import Text
  import Numbers
  import HP = HeaderParams
  import SipUri
  import SipAddress
  import CSeq

  const INVITE: string := "INVITE"
  const ACK: string := "ACK"
  const CANCEL: string := "CANCEL"
  const REGISTER: string := "REGISTER"
  const MESSAGE: string := "MESSAGE"
  const BYE: string := "BYE"

  const SipVersion: string := "SIP/2.0"

  /** The protocol used when neither the Via nor a URI names one. */
  const DefaultProtocol: string := "UDP"

  /** A Via hop: `SIP/2.0/UDP host:port;branch=...`. */
  datatype ViaHop = ViaHop(protocolName: string, protocolVersion: string, transport: string,
                           host: string, port: int, params: HP.Params)

  /** The header kinds the protocol engine reads or writes; every other
      header is kept by name and text. */
  datatype Header =
    | Via(hop: ViaHop)
    | From(from: SipAddress.AddressHeader)
    | To(to: SipAddress.AddressHeader)
    | Contact(contact: SipAddress.AddressHeader)
    | CallId(callId: string)
    | CSeqField(cseq: CSeq.CSeqHeader)
    | ContentType(mediaType: string)
    | ContentLength(length: nat)
    | MaxForwards(hops: nat)
    | Route(route: SipAddress.RouteHeader)
    | RecordRoute(recordRoute: SipAddress.RouteHeader)
    | Generic(name: string, contents: string)

  function Name(h: Header): string {
    match h
    case Via(_) => "Via"
    case From(_) => "From"
    case To(_) => "To"
    case Contact(_) => "Contact"
    case CallId(_) => "Call-ID"
    case CSeqField(_) => "CSeq"
    case ContentType(_) => "Content-Type"
    case ContentLength(_) => "Content-Length"
    case MaxForwards(_) => "Max-Forwards"
    case Route(_) => "Route"
    case RecordRoute(_) => "Record-Route"
    case Generic(n, _) => n
  }

  /** A request. `transport`, `source` and `destination` are the message's
      overrides: "" means not set. A `None` body is a Go nil body. */
  datatype Request = Request(methodName: string, recipient: SipUri.Uri, sipVersion: string,
                             headers: seq<Header>, body: Option<string>,
                             transport: string, source: string, destination: string)

  datatype Response = Response(sipVersion: string, statusCode: int, reason: string,
                               headers: seq<Header>, body: Option<string>,
                               transport: string, source: string, destination: string)

  /** What a connection carries. */
  datatype Msg = RequestMsg(request: Request) | ResponseMsg(response: Response)

  // ---------------------------------------------------------------------
  // The header list.

  /** The headers `keep` selects, in order. */
  function Filter(hs: seq<Header>, keep: Header -> bool): (r: seq<Header>)
    ensures |r| <= |hs|
    ensures forall i :: 0 <= i < |r| ==> keep(r[i])
  {
    if hs == [] then [] else (if keep(hs[0]) then [hs[0]] else []) + Filter(hs[1..], keep)
  }

  lemma {:induction false} FilterAppend(a: seq<Header>, b: seq<Header>, keep: Header -> bool)
    ensures Filter(a + b, keep) == Filter(a, keep) + Filter(b, keep)
    decreases |a|
  {
    if a == [] {
      assert a + b == b;
    } else {
      assert (a + b)[0] == a[0] && (a + b)[1..] == a[1..] + b;
      FilterAppend(a[1..], b, keep);
    }
  }

  lemma FilterOne(h: Header, keep: Header -> bool)
    ensures Filter([h], keep) == if keep(h) then [h] else []
  {
    assert [h][1..] == [];
  }

  /** Filter of a list with one header more at the end. */
  lemma FilterSnoc(hs: seq<Header>, h: Header, keep: Header -> bool)
    ensures Filter(hs + [h], keep) == Filter(hs, keep) + if keep(h) then [h] else []
  {
    FilterAppend(hs, [h], keep);
    FilterOne(h, keep);
  }

  /** Every selected header passes `keep`: a list of headers `keep` rejects
      filters to nothing. */
  lemma {:induction false} FilterNone(hs: seq<Header>, keep: Header -> bool)
    requires forall i :: 0 <= i < |hs| ==> !keep(hs[i])
    ensures Filter(hs, keep) == []
    decreases |hs|
  {
    if hs != [] {
      FilterNone(hs[1..], keep);
    }
  }

  lemma {:induction false} FilterAll(hs: seq<Header>, keep: Header -> bool)
    requires forall i :: 0 <= i < |hs| ==> keep(hs[i])
    ensures Filter(hs, keep) == hs
    decreases |hs|
  {
    if hs != [] {
      FilterAll(hs[1..], keep);
      assert [hs[0]] + hs[1..] == hs;
    }
  }

  predicate IsVia(h: Header) { h.Via? }
  predicate IsFrom(h: Header) { h.From? }
  predicate IsTo(h: Header) { h.To? }
  predicate IsContact(h: Header) { h.Contact? }
  predicate IsCallId(h: Header) { h.CallId? }
  predicate IsCSeq(h: Header) { h.CSeqField? }
  predicate IsContentLength(h: Header) { h.ContentLength? }
  predicate IsRoute(h: Header) { h.Route? }
  predicate IsRecordRoute(h: Header) { h.RecordRoute? }

  /** The first header of a kind (the typed getters `Via()`, `From()`, ...). */
  function First(hs: seq<Header>, keep: Header -> bool): (r: Option<Header>)
    ensures r.Some? ==> keep(r.value)
  {
    var f := Filter(hs, keep);
    if f == [] then None else Some(f[0])
  }

  /** More headers appended never change which one comes first. */
  lemma FirstSnoc(hs: seq<Header>, h: Header, keep: Header -> bool)
    ensures First(hs + [h], keep) == if First(hs, keep).Some? then First(hs, keep) else if keep(h) then Some(h) else None
  {
    FilterSnoc(hs, h, keep);
  }

  lemma FirstAppend(a: seq<Header>, b: seq<Header>, keep: Header -> bool)
    ensures First(a + b, keep) == if First(a, keep).Some? then First(a, keep) else First(b, keep)
  {
    FilterAppend(a, b, keep);
  }

  function TopVia(hs: seq<Header>): Option<ViaHop> {
    var h := First(hs, IsVia);
    if h.Some? then Some(h.value.hop) else None
  }

  function TopRoute(hs: seq<Header>): Option<SipUri.Uri> {
    var h := First(hs, IsRoute);
    if h.Some? then Some(h.value.route.address) else None
  }

  function FromOf(hs: seq<Header>): Option<SipAddress.AddressHeader> {
    var h := First(hs, IsFrom);
    if h.Some? then Some(h.value.from) else None
  }

  function ToOf(hs: seq<Header>): Option<SipAddress.AddressHeader> {
    var h := First(hs, IsTo);
    if h.Some? then Some(h.value.to) else None
  }

  function ContactOf(hs: seq<Header>): Option<SipAddress.AddressHeader> {
    var h := First(hs, IsContact);
    if h.Some? then Some(h.value.contact) else None
  }

  function CSeqOf(hs: seq<Header>): Option<CSeq.CSeqHeader> {
    var h := First(hs, IsCSeq);
    if h.Some? then Some(h.value.cseq) else None
  }

  function CallIdOf(hs: seq<Header>): Option<string> {
    var h := First(hs, IsCallId);
    if h.Some? then Some(h.value.callId) else None
  }

  /** GetHeader(name): the first header whose name matches, ignoring case. */
  function GetHeader(hs: seq<Header>, name: string): (r: Option<Header>)
    ensures r.Some? ==> r.value in hs && Text.ToLower(Name(r.value)) == Text.ToLower(name)
    ensures r.None? ==> forall i :: 0 <= i < |hs| ==> Text.ToLower(Name(hs[i])) != Text.ToLower(name)
  {
    if hs == [] then None
    else if Text.ToLower(Name(hs[0])) == Text.ToLower(name) then Some(hs[0])
    else
      var r := GetHeader(hs[1..], name);
      assert forall i :: 1 <= i < |hs| ==> hs[i] == hs[1..][i - 1];
      r
  }

  /** Header.Value(): the text after the colon. */
  function HeaderValue(h: Header): string {
    match h
    case Via(hop) => ViaText(hop)
    case From(a) => AddressText(a)
    case To(a) => AddressText(a)
    case Contact(a) => AddressText(a)
    case CallId(id) => id
    case CSeqField(c) => Numbers.NatToString(c.seqNo) + " " + c.methodName
    case ContentType(t) => t
    case ContentLength(n) => Numbers.NatToString(n)
    case MaxForwards(n) => Numbers.NatToString(n)
    case Route(r) => "<" + UriString(r.address) + ">"
    case RecordRoute(r) => "<" + UriString(r.address) + ">"
    case Generic(_, v) => v
  }

  /** `;k=v` for each parameter (`;k` when the value is empty). */
  function ParamsText(p: HP.Params, sep: string): string {
    if p == [] then ""
    else sep + p[0].0 + (if p[0].1 == "" then "" else "=" + p[0].1) + ParamsText(p[1..], sep)
  }

  /** Uri.String(). */
  function UriString(u: SipUri.Uri): string {
    if u.wildcard then "*"
    else
      (if u.encrypted then "sips:" else "sip:")
      + (if u.user == "" then "" else u.user + (if u.password == "" then "" else ":" + u.password) + "@")
      + u.host
      + (if u.port > 0 then ":" + Numbers.IntToString(u.port) else "")
      + (if u.uriParams.Some? then ParamsText(u.uriParams.value, ";") else "")
      + (if u.headers.Some? && u.headers.value != [] then "?" + ParamsText(u.headers.value, "&")[1..] else "")
  }

  function AddressText(a: SipAddress.AddressHeader): string {
    (if a.displayName == "" then "" else "\"" + a.displayName + "\" ")
    + "<" + UriString(a.address) + ">" + ParamsText(a.params, ";")
  }

  function ViaText(v: ViaHop): string {
    v.protocolName + "/" + v.protocolVersion + "/" + v.transport + " " + v.host
    + (if v.port > 0 then ":" + Numbers.IntToString(v.port) else "") + ParamsText(v.params, ";")
  }

  /** headers.StringWrite: one `Name: value` line per header, in order. */
  function HeadersText(hs: seq<Header>): string {
    if hs == [] then "" else Name(hs[0]) + ": " + HeaderValue(hs[0]) + Text.CRLF + HeadersText(hs[1..])
  }

  // ---------------------------------------------------------------------
  // Wire text.

  /** StartLineWrite: `Method SP Request-URI SP SIP-Version`. */
  function StartLine(req: Request): string {
    req.methodName + " " + UriString(req.recipient) + " " + req.sipVersion
  }

  /** Request.String(): the start line, CRLF, the headers, CRLF and the
      body when there is one, and a final CRLF. */
  function RequestText(req: Request): (r: string)
    ensures Text.IsPrefix(StartLine(req) + Text.CRLF, r)
    ensures Text.IsPrefix(StartLine(req) + Text.CRLF + HeadersText(req.headers), r)
    ensures |r| >= 2 && r[|r| - 2..] == Text.CRLF
  {
    var head := StartLine(req) + Text.CRLF + HeadersText(req.headers);
    var r := head + (if req.body.Some? then Text.CRLF + req.body.value else "") + Text.CRLF;
    assert r[..|head|] == head;
    assert r[..|StartLine(req) + Text.CRLF|] == StartLine(req) + Text.CRLF;
    r
  }

  /** What follows the headers is exactly CRLF, the body, CRLF when the
      body is set, and CRLF alone when it is nil. */
  lemma RequestTextTail(req: Request)
    ensures var n := |StartLine(req) + Text.CRLF + HeadersText(req.headers)|;
            RequestText(req)[n..] == if req.body.Some? then Text.CRLF + req.body.value + Text.CRLF else Text.CRLF
  {
  }

  /** The method and the version are recovered from the start line: the
      method ends at the first space and the version follows the last one,
      whenever neither holds a space (the URI text may). */
  lemma StartLineFields(req: Request)
    requires ' ' !in req.methodName && ' ' !in req.sipVersion
    ensures var line := StartLine(req);
            Text.IndexOf(line, ' ') == |req.methodName|
            && line[..Text.IndexOf(line, ' ')] == req.methodName
            && line[Text.LastIndexOf(line, ' ') + 1..] == req.sipVersion
  {
    var line := StartLine(req);
    var m := req.methodName;
    var u := UriString(req.recipient);
    var v := req.sipVersion;
    assert line == m + [' '] + (u + [' '] + v);
    Text.IndexOfSplit(m, ' ', u + [' '] + v);
    assert line == (m + [' '] + u) + [' '] + v;
    Text.LastIndexOfSplit(m + [' '] + u, ' ', v);
  }

  // ---------------------------------------------------------------------
  // Resolution of transport, source and destination.

  /** DefaultPort(transport). The helper's source is not part of this model:
      TLS and WSS use 5061, everything else 5060. */
  function DefaultPort(transport: string): (p: int)
    ensures p > 0
  {
    var t := Text.ToLower(transport);
    if t == "tls" || t == "wss" then 5061 else 5060
  }

  /** The URI that decides the transport and the destination: the top
      Route's address, else the recipient. */
  function NextHopUri(req: Request): SipUri.Uri {
    var route := TopRoute(req.headers);
    if route.Some? then route.value else req.recipient
  }

  /** Request.Transport(). */
  function Transport(req: Request): (tp: string)
    ensures req.transport != "" ==> tp == req.transport
    ensures tp != ""
    ensures req.transport == "" && NextHopUri(req).encrypted ==> tp != "TCP" && tp != "WS"
  {
    if req.transport != "" then req.transport
    else
      var via := TopVia(req.headers);
      var tp := if via.Some? && via.value.transport != "" then via.value.transport else DefaultProtocol;
      var uri := NextHopUri(req);
      var param := if uri.uriParams.Some? then HP.Get(uri.uriParams.value, "transport") else None;
      var tp := if param.Some? && param.value != "" then Text.ToUpper(param.value) else tp;
      if uri.encrypted && tp == "TCP" then "TLS"
      else if uri.encrypted && tp == "WS" then "WSS"
      else tp
  }

  /** `fmt.Sprintf("%v:%v", host, port)`. */
  function HostPort(host: string, port: int): string {
    host + ":" + Numbers.IntToString(port)
  }

  /** The inverse of HostPort: the host ends at the last ':' and the port is
      the decimal after it. */
  function SplitHostPort(s: string): Option<(string, int)> {
    var k := Text.LastIndexOf(s, ':');
    if k < 0 then None
    else
      var port := Numbers.Atoi(s[k + 1..]);
      if port.err.Some? then None else Some((s[..k], port.value))
  }

  lemma SplitHostPortOfHostPort(host: string, port: int)
    requires Numbers.MinInt64 <= port <= Numbers.MaxInt64
    ensures SplitHostPort(HostPort(host, port)) == Some((host, port))
  {
    var p := Numbers.IntToString(port);
    assert ':' !in p by {
      Numbers.IntToStringChars(port);
    }
    var s := HostPort(host, port);
    assert s == host + [':'] + p;
    Text.LastIndexOfSplit(host, ':', p);
    assert s[..|host|] == host && s[|host| + 1..] == p;
    Numbers.AtoiOfIntToString(port);
  }

  /** The host and port a request came from, when it has a Via: the Via's
      host and port (a port <= 0 falls back to the default port of the
      transport), a non-empty `received` replacing the host and a numeric
      `rport` the port. */
  function ViaAddress(req: Request, via: ViaHop): (string, int) {
    var port := if via.port > 0 then via.port else DefaultPort(Transport(req));
    var received := HP.Get(via.params, "received");
    var host := if received.Some? && received.value != "" then received.value else via.host;
    var rport := HP.Get(via.params, "rport");
    var parsed := if rport.Some? && rport.value != "" then Numbers.Atoi(rport.value) else Numbers.Parsed(0, Some(MissingHeader("rport")));
    (host, if parsed.err.None? then parsed.value else port)
  }

  /** Request.Source(). */
  function Source(req: Request): (src: string)
    ensures req.source != "" ==> src == req.source
    ensures src == "" <==> req.source == "" && TopVia(req.headers).None?
    ensures req.source == "" && TopVia(req.headers).Some? ==>
              src == HostPort(ViaAddress(req, TopVia(req.headers).value).0, ViaAddress(req, TopVia(req.headers).value).1)
  {
    if req.source != "" then req.source
    else
      var via := TopVia(req.headers);
      if via.None? then ""
      else
        var a := ViaAddress(req, via.value);
        HostPort(a.0, a.1)
  }

  /** Request.Destination(). The recipient is never nil here, so the empty
      destination of a request without one does not arise. */
  function Destination(req: Request): (dest: string)
    ensures req.destination != "" ==> dest == req.destination
    ensures dest != ""
  {
    if req.destination != "" then req.destination
    else
      var uri := NextHopUri(req);
      if uri.port > 0 then HostPort(uri.host, uri.port)
      else HostPort(uri.host, DefaultPort(Transport(req)))
  }

  /** Without an override, the destination names the next hop's host and
      its port (or the transport's default port). */
  lemma DestinationNamesNextHop(req: Request)
    requires req.destination == "" && Numbers.MinInt64 <= NextHopUri(req).port <= Numbers.MaxInt64
    ensures var uri := NextHopUri(req);
            SplitHostPort(Destination(req))
            == Some((uri.host, if uri.port > 0 then uri.port else DefaultPort(Transport(req))))
  {
    var uri := NextHopUri(req);
    SplitHostPortOfHostPort(uri.host, if uri.port > 0 then uri.port else DefaultPort(Transport(req)));
  }

  /** Without an override, the source names the Via's address. */
  lemma SourceNamesVia(req: Request)
    requires req.source == "" && TopVia(req.headers).Some?
    requires var v := TopVia(req.headers).value; Numbers.MinInt64 <= v.port <= Numbers.MaxInt64
    ensures SplitHostPort(Source(req)) == Some(ViaAddress(req, TopVia(req.headers).value))
  {
    var a := ViaAddress(req, TopVia(req.headers).value);
    SplitHostPortOfHostPort(a.0, a.1);
  }

  // ---------------------------------------------------------------------
  // Building messages.

  /** NewRequest: no headers, no body, no overrides. */
  function NewRequest(methodName: string, recipient: SipUri.Uri, sipVersion: string): Request {
    Request(methodName, recipient, sipVersion, [], None, "", "", "")
  }

  function AppendHeader(req: Request, h: Header): Request {
    req.(headers := req.headers + [h])
  }

  /** CopyHeaders(name, from, to): the headers of one kind, in order,
      appended to `to`. The helper's source is not part of this model. */
  function CopyHeaders(keep: Header -> bool, from: seq<Header>, to: Request): Request {
    to.(headers := to.headers + Filter(from, keep))
  }

  /** The index of the first header of a kind, or -1. */
  function IndexOfKind(hs: seq<Header>, keep: Header -> bool): (k: int)
    ensures -1 <= k < |hs|
    ensures k >= 0 ==> keep(hs[k]) && forall j :: 0 <= j < k ==> !keep(hs[j])
    ensures k < 0 ==> forall j :: 0 <= j < |hs| ==> !keep(hs[j])
  {
    if hs == [] then -1
    else if keep(hs[0]) then 0
    else
      var k := IndexOfKind(hs[1..], keep);
      assert forall j :: 1 <= j < |hs| ==> hs[j] == hs[1..][j - 1];
      if k < 0 then -1 else k + 1
  }

  /** The header names, in order. */
  function Names(hs: seq<Header>): (r: seq<string>)
    ensures |r| == |hs| && forall i :: 0 <= i < |hs| ==> r[i] == Name(hs[i])
  {
    seq(|hs|, i requires 0 <= i < |hs| => Name(hs[i]))
  }

  /** SetBody: stores the body and makes Content-Length its length,
      replacing the first Content-Length header or appending one. The
      helper's source is not part of this model. */
  function SetBody(req: Request, body: Option<string>): (r: Request)
    ensures r.body == body
    ensures |r.headers| >= |req.headers|
    ensures forall i :: 0 <= i < |req.headers| && !req.headers[i].ContentLength? ==> r.headers[i] == req.headers[i]
    ensures forall i :: |req.headers| <= i < |r.headers| ==> r.headers[i].ContentLength?
  {
    var n := if body.Some? then |body.value| else 0;
    var k := IndexOfKind(req.headers, IsContentLength);
    req.(body := body, headers := if k >= 0 then req.headers[k := ContentLength(n)] else req.headers + [ContentLength(n)])
  }

  /** Replacing a header that `keep` rejects by another one it rejects
      leaves the selection unchanged. */
  lemma {:induction false} FilterUpdate(hs: seq<Header>, k: nat, h: Header, keep: Header -> bool)
    requires k < |hs| && !keep(hs[k]) && !keep(h)
    ensures Filter(hs[k := h], keep) == Filter(hs, keep)
    decreases k
  {
    if k > 0 {
      assert hs[k := h][1..] == hs[1..][k - 1 := h];
      FilterUpdate(hs[1..], k - 1, h, keep);
    }
  }

  /** The first header of a kind is the one at `k` when none comes before. */
  lemma {:induction false} FirstAt(hs: seq<Header>, k: nat, keep: Header -> bool)
    requires k < |hs| && keep(hs[k]) && forall j :: 0 <= j < k ==> !keep(hs[j])
    ensures First(hs, keep) == Some(hs[k])
    decreases k
  {
    if k > 0 {
      FirstAt(hs[1..], k - 1, keep);
    }
  }

  /** Content-Length after SetBody is the length of the body. */
  lemma SetBodyLength(req: Request, body: Option<string>)
    ensures var r := SetBody(req, body);
            First(r.headers, IsContentLength) == Some(ContentLength(if body.Some? then |body.value| else 0))
  {
    var r := SetBody(req, body);
    var k := IndexOfKind(req.headers, IsContentLength);
    if k >= 0 {
      FirstAt(r.headers, k, IsContentLength);
    } else {
      FirstAt(r.headers, |req.headers|, IsContentLength);
    }
  }

  /** SetBody touches Content-Length only: every other kind of header reads
      the same afterwards. */
  lemma SetBodyKeeps(req: Request, body: Option<string>, keep: Header -> bool)
    requires forall h :: keep(h) ==> !h.ContentLength?
    ensures Filter(SetBody(req, body).headers, keep) == Filter(req.headers, keep)
  {
    var n := if body.Some? then |body.value| else 0;
    var k := IndexOfKind(req.headers, IsContentLength);
    if k >= 0 {
      FilterUpdate(req.headers, k, ContentLength(n), keep);
    } else {
      FilterSnoc(req.headers, ContentLength(n), keep);
    }
  }

  /** IsSuccess(): a 2xx status. The helper's source is not part of this
      model. */
  predicate IsSuccess(res: Response) {
    200 <= res.statusCode < 300
  }

  /** NewResponseFromRequest(req, code, reason, body): the response copies
      Record-Route, Via, From, To, Call-ID and CSeq, in that order, and is
      sent back where the request came from. The helper's source is not
      part of this model. */
  function NewResponseFromRequest(req: Request, code: int, reason: string, body: Option<string>): (res: Response)
    ensures res.statusCode == code && res.reason == reason && res.sipVersion == req.sipVersion
    ensures res.destination == Source(req)
  {
    var hs := Filter(req.headers, IsRecordRoute) + Filter(req.headers, IsVia) + Filter(req.headers, IsFrom)
              + Filter(req.headers, IsTo) + Filter(req.headers, IsCallId) + Filter(req.headers, IsCSeq);
    var n := if body.Some? then |body.value| else 0;
    Response(req.sipVersion, code, reason, hs + [ContentLength(n)], body, Transport(req), Destination(req), Source(req))
  }
}
