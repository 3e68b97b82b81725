/** The request builders: INVITE (and the catalog request, which is built
    the same way), ACK for an INVITE (section 13.2.2.4 of RFC 3261), CANCEL
    (section 9.1) and the deep copy of a request. The branch generator and
    the clock are inputs. */
module Builders {
  import opened Common
  import Text
  import Numbers
  import HP = HeaderParams
  import SipUri
  import SipAddress
  import CSeq
  import opened Message

  /** `Uri{User: u.User, Host: u.Host, Port: u.Port}`. */
  function PlainUri(u: SipUri.Uri): SipUri.Uri {
    SipUri.EmptyUri.(user := u.user, host := u.host, port := u.port)
  }

  /** The Call-ID the builders use: "gotest-" and the current time in
      RFC 3339 format with nanoseconds, which is an input here. */
  function InviteCallId(now: string): string {
    "gotest-" + now
  }

  /** `strconv.Itoa(3600)`: the Contact's expires parameter. */
  const ContactExpires: string := "3600"

  lemma ContactExpiresIsItoa()
    ensures Numbers.IntToString(3600) == ContactExpires
  {
    assert Numbers.NatToString(3) == "3";
    assert Numbers.NatToString(36) == "36";
    assert Numbers.NatToString(360) == "360";
  }

  /** The headers NewInviteRequest appends, in order. */
  function InviteHeaders(sender: SipUri.Uri, recipient: SipUri.Uri, transport: string, branch: string, now: string): seq<Header> {
    [ Via(ViaHop("SIP", "2.0", transport, sender.host, sender.port, HP.Add([], "branch", branch))),
      From(SipAddress.AddressHeader(Text.ToUpper(sender.user), PlainUri(sender), [])),
      To(SipAddress.AddressHeader(Text.ToUpper(recipient.user), PlainUri(recipient), [])),
      ContentType("application/sdp"),
      Contact(SipAddress.AddressHeader(Text.ToUpper(sender.user), PlainUri(sender), HP.Add([], "expires", ContactExpires))),
      CallId(InviteCallId(now)),
      CSeqField(CSeq.CSeqHeader(1, INVITE)) ]
  }

  /** What NewInviteRequest and NewCatalogRequest return. */
  function InviteRequest(sender: SipUri.Uri, recipient: SipUri.Uri, transport: string, body: Option<string>,
                         branch: string, now: string): Request {
    SetBody(NewRequest(INVITE, recipient, SipVersion).(headers := InviteHeaders(sender, recipient, transport, branch, now)), body)
  }

  method NewInviteRequest(sender: SipUri.Uri, recipient: SipUri.Uri, transport: string, body: Option<string>,
                          branch: string, now: string) returns (req: Request)
    ensures req == InviteRequest(sender, recipient, transport, body, branch, now)
  {
    req := NewRequest(INVITE, recipient, SipVersion);
    var params := HP.Add([], "branch", branch);
    req := AppendHeader(req, Via(ViaHop("SIP", "2.0", transport, sender.host, sender.port, params)));
    req := AppendHeader(req, From(SipAddress.AddressHeader(Text.ToUpper(sender.user), PlainUri(sender), [])));
    req := AppendHeader(req, To(SipAddress.AddressHeader(Text.ToUpper(recipient.user), PlainUri(recipient), [])));
    req := AppendHeader(req, ContentType("application/sdp"));
    var contactParams := HP.Add([], "expires", ContactExpires);
    req := AppendHeader(req, Contact(SipAddress.AddressHeader(Text.ToUpper(sender.user), PlainUri(sender), contactParams)));
    req := AppendHeader(req, CallId(InviteCallId(now)));
    req := AppendHeader(req, CSeqField(CSeq.CSeqHeader(1, INVITE)));
    assert req.headers == InviteHeaders(sender, recipient, transport, branch, now);
    req := SetBody(req, body);
  }

  /** NewCatalogRequest builds the very same request, method INVITE
      included. */
  method NewCatalogRequest(sender: SipUri.Uri, recipient: SipUri.Uri, transport: string, body: Option<string>,
                           branch: string, now: string) returns (req: Request)
    ensures req == InviteRequest(sender, recipient, transport, body, branch, now)
  {
    req := NewRequest(INVITE, recipient, SipVersion);
    var params := HP.Add([], "branch", branch);
    req := AppendHeader(req, Via(ViaHop("SIP", "2.0", transport, sender.host, sender.port, params)));
    req := AppendHeader(req, From(SipAddress.AddressHeader(Text.ToUpper(sender.user), PlainUri(sender), [])));
    req := AppendHeader(req, To(SipAddress.AddressHeader(Text.ToUpper(recipient.user), PlainUri(recipient), [])));
    req := AppendHeader(req, ContentType("application/sdp"));
    var contactParams := HP.Add([], "expires", ContactExpires);
    req := AppendHeader(req, Contact(SipAddress.AddressHeader(Text.ToUpper(sender.user), PlainUri(sender), contactParams)));
    req := AppendHeader(req, CallId(InviteCallId(now)));
    req := AppendHeader(req, CSeqField(CSeq.CSeqHeader(1, INVITE)));
    assert req.headers == InviteHeaders(sender, recipient, transport, branch, now);
    req := SetBody(req, body);
  }

  /** SetBody appends the Content-Length: the INVITE holds the seven
      headers above and then the length of the body. */
  lemma InviteIs(sender: SipUri.Uri, recipient: SipUri.Uri, transport: string, body: Option<string>, branch: string, now: string)
    ensures InviteRequest(sender, recipient, transport, body, branch, now)
            == Request(INVITE, recipient, SipVersion,
                       InviteHeaders(sender, recipient, transport, branch, now) + [ContentLength(if body.Some? then |body.value| else 0)],
                       body, "", "", "")
  {
    var hs := InviteHeaders(sender, recipient, transport, branch, now);
    assert IndexOfKind(hs, IsContentLength) < 0 by {
      assert forall j :: 0 <= j < |hs| ==> !IsContentLength(hs[j]);
    }
  }

  /** The INVITE's header names, in order. */
  lemma InviteShape(sender: SipUri.Uri, recipient: SipUri.Uri, transport: string, body: Option<string>, branch: string, now: string)
    ensures var req := InviteRequest(sender, recipient, transport, body, branch, now);
            Names(req.headers) == ["Via", "From", "To", "Content-Type", "Contact", "Call-ID", "CSeq", "Content-Length"]
  {
    InviteIs(sender, recipient, transport, body, branch, now);
  }

  /** The INVITE's CSeq is 1 INVITE, its Call-ID is built from the clock,
      and its top Via carries the transport and the branch. */
  lemma InviteSequencing(sender: SipUri.Uri, recipient: SipUri.Uri, transport: string, body: Option<string>, branch: string, now: string)
    ensures var hs := InviteRequest(sender, recipient, transport, body, branch, now).headers;
            && CSeqOf(hs) == Some(CSeq.CSeqHeader(1, INVITE))
            && CallIdOf(hs) == Some(InviteCallId(now))
            && TopVia(hs) == Some(ViaHop("SIP", "2.0", transport, sender.host, sender.port, [("branch", branch)]))
  {
    InviteIs(sender, recipient, transport, body, branch, now);
    var hs := InviteHeaders(sender, recipient, transport, branch, now) + [ContentLength(if body.Some? then |body.value| else 0)];
    assert HP.Add([], "branch", branch) == [("branch", branch)] by { assert !HP.HasKey([], "branch"); }
    FirstAt(hs, 0, IsVia);
    FirstAt(hs, 5, IsCallId);
    FirstAt(hs, 6, IsCSeq);
  }

  /** From and Contact name the sender and To the recipient, each with the
      user uppercased as display name; the Contact expires after 3600
      seconds. */
  lemma InviteParties(sender: SipUri.Uri, recipient: SipUri.Uri, transport: string, body: Option<string>, branch: string, now: string)
    ensures var hs := InviteRequest(sender, recipient, transport, body, branch, now).headers;
            && FromOf(hs) == Some(SipAddress.AddressHeader(Text.ToUpper(sender.user), PlainUri(sender), []))
            && ToOf(hs) == Some(SipAddress.AddressHeader(Text.ToUpper(recipient.user), PlainUri(recipient), []))
            && ContactOf(hs) == Some(SipAddress.AddressHeader(Text.ToUpper(sender.user), PlainUri(sender), [("expires", "3600")]))
  {
    InviteIs(sender, recipient, transport, body, branch, now);
    var hs := InviteHeaders(sender, recipient, transport, branch, now) + [ContentLength(if body.Some? then |body.value| else 0)];
    assert HP.Add([], "expires", ContactExpires) == [("expires", "3600")] by { assert !HP.HasKey([], "expires"); }
    FirstAt(hs, 1, IsFrom);
    FirstAt(hs, 2, IsTo);
    FirstAt(hs, 4, IsContact);
  }

  /** With no overrides set, the INVITE goes out over the given transport
      (UDP when none is given) to the recipient's host and port, from the
      sender's host and port, whenever the recipient is a plain `sip:` URI
      without parameters. */
  lemma InviteResolves(sender: SipUri.Uri, recipient: SipUri.Uri, transport: string, body: Option<string>, branch: string, now: string)
    requires !recipient.encrypted && recipient.uriParams.None?
    ensures var req := InviteRequest(sender, recipient, transport, body, branch, now);
            var tp := if transport != "" then transport else DefaultProtocol;
            && Transport(req) == tp
            && Source(req) == HostPort(sender.host, if sender.port > 0 then sender.port else DefaultPort(tp))
            && Destination(req) == HostPort(recipient.host, if recipient.port > 0 then recipient.port else DefaultPort(tp))
  {
    var req := InviteRequest(sender, recipient, transport, body, branch, now);
    InviteSequencing(sender, recipient, transport, body, branch, now);
    InviteIs(sender, recipient, transport, body, branch, now);
    assert TopRoute(req.headers).None? by {
      FilterNone(req.headers, IsRoute);
    }
    var via := TopVia(req.headers).value;
    assert HP.Get(via.params, "received") == None && HP.Get(via.params, "rport") == None;
  }

  // Section 8.1.1 of RFC 3261, quoted above NewInviteRequest: every request
  // carries To, From, CSeq, Call-ID, Max-Forwards and Via.

  predicate IsMaxForwards(h: Header) { h.MaxForwards? }

  predicate HasMandatoryHeaders(req: Request) {
    First(req.headers, IsTo).Some? && First(req.headers, IsFrom).Some? && First(req.headers, IsCSeq).Some?
    && First(req.headers, IsCallId).Some? && First(req.headers, IsMaxForwards).Some? && First(req.headers, IsVia).Some?
  }

  /** The INVITE as built carries no Max-Forwards header. */
  lemma InviteLacksMaxForwards(sender: SipUri.Uri, recipient: SipUri.Uri, transport: string, body: Option<string>, branch: string, now: string)
    ensures var req := InviteRequest(sender, recipient, transport, body, branch, now);
            First(req.headers, IsMaxForwards).None? && !HasMandatoryHeaders(req)
  {
    var req := InviteRequest(sender, recipient, transport, body, branch, now);
    InviteIs(sender, recipient, transport, body, branch, now);
    FilterNone(req.headers, IsMaxForwards);
  }

  /** The INVITE with Max-Forwards 70 after the Via, as the other builders
      add it. */
  function InviteRequestFixed(sender: SipUri.Uri, recipient: SipUri.Uri, transport: string, body: Option<string>,
                              branch: string, now: string): Request {
    var hs := InviteHeaders(sender, recipient, transport, branch, now);
    SetBody(NewRequest(INVITE, recipient, SipVersion).(headers := [hs[0], MaxForwards(70)] + hs[1..]), body)
  }

  /** A header of the kind anywhere in the list makes First find one. */
  lemma {:induction false} FirstFinds(hs: seq<Header>, k: nat, keep: Header -> bool)
    requires k < |hs| && keep(hs[k])
    ensures First(hs, keep).Some?
    decreases k
  {
    if !keep(hs[0]) {
      FirstFinds(hs[1..], k - 1, keep);
    }
  }

  lemma FixedInviteHasMandatoryHeaders(sender: SipUri.Uri, recipient: SipUri.Uri, transport: string, body: Option<string>, branch: string, now: string)
    ensures HasMandatoryHeaders(InviteRequestFixed(sender, recipient, transport, body, branch, now))
  {
    var hs := InviteHeaders(sender, recipient, transport, branch, now);
    var fixed := [hs[0], MaxForwards(70)] + hs[1..];
    var all := InviteRequestFixed(sender, recipient, transport, body, branch, now).headers;
    assert |all| >= 8 && all[..8] == fixed;
    FirstFinds(all, 0, IsVia);
    FirstFinds(all, 1, IsMaxForwards);
    FirstFinds(all, 2, IsFrom);
    FirstFinds(all, 3, IsTo);
    FirstFinds(all, 6, IsCallId);
    FirstFinds(all, 7, IsCSeq);
  }

  // ---------------------------------------------------------------------
  // ACK.

  function Reverse(s: seq<Header>): (r: seq<Header>)
    ensures |r| == |s| && forall i :: 0 <= i < |s| ==> r[i] == s[|s| - 1 - i]
  {
    if s == [] then [] else Reverse(s[1..]) + [s[0]]
  }

  /** The ACK goes to the response's Contact, unless the INVITE was sent
      over WebSocket. */
  function AckRecipient(invite: Request, response: Response): SipUri.Uri {
    var contact := ContactOf(response.headers);
    if contact.Some? && !Text.Contains(Text.ToLower(UriString(invite.recipient)), "transport=ws") then contact.value.address
    else invite.recipient
  }

  /** The INVITE's Via headers; after a 2xx the top one gets a new branch.
      None: a 2xx to an INVITE without Via, where the code dereferences
      nil. */
  function AckVias(invite: Request, response: Response, branch: string): (r: Option<seq<Header>>)
    ensures r.Some? ==> forall i :: 0 <= i < |r.value| ==> r.value[i].Via?
  {
    var vias := Filter(invite.headers, IsVia);
    if !IsSuccess(response) then Some(vias)
    else if vias == [] then None
    else Some(vias[0 := Via(vias[0].hop.(params := HP.Add(vias[0].hop.params, "branch", branch)))])
  }

  /** The INVITE's Route headers, or else the response's Record-Route
      headers in reverse order. */
  function AckRoutes(invite: Request, response: Response): (r: seq<Header>)
    ensures forall i :: 0 <= i < |r| ==> r[i].Route? || r[i].RecordRoute?
  {
    var routes := Filter(invite.headers, IsRoute);
    if routes != [] then routes else Reverse(Filter(response.headers, IsRecordRoute))
  }

  /** The first header of a kind, as a list of zero or one. */
  function Optional(hs: seq<Header>, keep: Header -> bool): seq<Header> {
    var h := First(hs, keep);
    if h.Some? then [h.value] else []
  }

  /** NewAckRequest. Err: the code dereferences nil (a 2xx to an INVITE
      without Via, or an INVITE without CSeq). */
  function AckRequest(invite: Request, response: Response, body: Option<string>, branch: string): Result<Request> {
    var vias := AckVias(invite, response, branch);
    var cseq := CSeqOf(invite.headers);
    if vias.None? then Err(Panic("nil Via"))
    else if cseq.None? then Err(Panic("nil CSeq"))
    else
      var hs := AckPrefix(invite, response, vias.value) + [CSeqField(cseq.value.(methodName := ACK))];
      var ack := SetBody(NewRequest(ACK, AckRecipient(invite, response), invite.sipVersion).(headers := hs), body);
      Ok(ack.(transport := Transport(invite), source := Source(invite), destination := Destination(invite)))
  }

  /** A list none of whose headers is a CSeq. */
  predicate NoCSeq(hs: seq<Header>) {
    forall i :: 0 <= i < |hs| ==> !hs[i].CSeqField?
  }

  /** In a list of Via headers only, the top Via is the first one. */
  lemma TopViaOfVias(vs: seq<Header>)
    requires forall i :: 0 <= i < |vs| ==> vs[i].Via?
    ensures TopVia(vs) == if vs == [] then None else Some(vs[0].hop)
  {
    FilterAll(vs, IsVia);
  }

  /** Everything the ACK carries before its CSeq: the Vias, the route set,
      Max-Forwards, From, To and Call-ID. */
  function AckPrefix(invite: Request, response: Response, vias: seq<Header>): seq<Header> {
    vias + AckRoutes(invite, response) + [MaxForwards(70)]
    + Optional(invite.headers, IsFrom) + Optional(response.headers, IsTo) + Optional(invite.headers, IsCallId)
  }

  /** The kinds of header an ACK carries before its CSeq. */
  predicate PrefixKind(h: Header) {
    h.Via? || h.Route? || h.RecordRoute? || h.MaxForwards? || h.From? || h.To? || h.CallId?
  }

  predicate AllPrefixKind(hs: seq<Header>) {
    forall i :: 0 <= i < |hs| ==> PrefixKind(hs[i])
  }

  lemma AllPrefixKindAppend(a: seq<Header>, b: seq<Header>)
    requires AllPrefixKind(a) && AllPrefixKind(b)
    ensures AllPrefixKind(a + b)
  {
    assert forall i :: |a| <= i < |a + b| ==> (a + b)[i] == b[i - |a|];
  }

  lemma AckPrefixKinds(invite: Request, response: Response, branch: string)
    requires AckVias(invite, response, branch).Some?
    ensures AllPrefixKind(AckPrefix(invite, response, AckVias(invite, response, branch).value))
  {
    var vias := AckVias(invite, response, branch).value;
    var routes := AckRoutes(invite, response);
    var from := Optional(invite.headers, IsFrom);
    var to := Optional(response.headers, IsTo);
    var callId := Optional(invite.headers, IsCallId);
    assert AllPrefixKind(vias);
    assert AllPrefixKind(routes);
    assert AllPrefixKind(from) && AllPrefixKind(to) && AllPrefixKind(callId);
    AllPrefixKindAppend(vias, routes);
    AllPrefixKindAppend(vias + routes, [MaxForwards(70)]);
    AllPrefixKindAppend(vias + routes + [MaxForwards(70)], from);
    AllPrefixKindAppend(vias + routes + [MaxForwards(70)] + from, to);
    AllPrefixKindAppend(vias + routes + [MaxForwards(70)] + from + to, callId);
  }

  /** A CSeq appended to a list without one is the list's first CSeq. */
  lemma CSeqAtEnd(pre: seq<Header>, c: Header)
    requires NoCSeq(pre) && c.CSeqField?
    ensures IndexOfKind(pre + [c], IsCSeq) == |pre|
  {
    var hs := pre + [c];
    assert IsCSeq(hs[|pre|]);
    assert forall j :: 0 <= j < |pre| ==> hs[j] == pre[j];
  }

  /** `if h, _ := from.X(); h != nil { to.AppendHeader(h.headerClone()) }`. */
  method AppendFirst(to: Request, from: seq<Header>, keep: Header -> bool) returns (r: Request)
    ensures r == to.(headers := to.headers + Optional(from, keep))
  {
    r := to;
    var h := First(from, keep);
    if h.Some? {
      r := AppendHeader(r, h.value);
    }
  }

  /** The ACK's recipient and its Via headers. */
  method AckViaPhase(invite: Request, response: Response, branch: string) returns (r: Result<Request>)
    ensures AckVias(invite, response, branch).None? ==> r == Err(Panic("nil Via"))
    ensures AckVias(invite, response, branch).Some? ==>
              r == Ok(NewRequest(ACK, AckRecipient(invite, response), invite.sipVersion).(headers := AckVias(invite, response, branch).value))
  {
    var recipient := invite.recipient;
    var contact := ContactOf(response.headers);
    if contact.Some? {
      if !Text.Contains(Text.ToLower(UriString(recipient)), "transport=ws") {
        recipient := contact.value.address;
      }
    }
    var ack := NewRequest(ACK, recipient, invite.sipVersion);
    ack := CopyHeaders(IsVia, invite.headers, ack);
    assert ack.headers == Filter(invite.headers, IsVia);
    if IsSuccess(response) {
      TopViaOfVias(ack.headers);
      var via := TopVia(ack.headers);
      if via.None? {
        return Err(Panic("nil Via"));
      }
      ack := ack.(headers := ack.headers[0 := Via(via.value.(params := HP.Add(via.value.params, "branch", branch)))]);
    }
    r := Ok(ack);
  }

  /** The INVITE's Route headers, or else the response's Record-Route
      headers from the last one back. */
  method AppendAckRoutes(invite: Request, response: Response, ack: Request) returns (r: Request)
    ensures r == ack.(headers := ack.headers + AckRoutes(invite, response))
  {
    r := ack;
    if |Filter(invite.headers, IsRoute)| > 0 {
      r := CopyHeaders(IsRoute, invite.headers, r);
    } else {
      var hdrs := Filter(response.headers, IsRecordRoute);
      var i := |hdrs| - 1;
      while i >= 0
        invariant -1 <= i < |hdrs|
        invariant r == ack.(headers := ack.headers + Reverse(hdrs[i + 1..]))
      {
        assert hdrs[i..][1..] == hdrs[i + 1..];
        r := AppendHeader(r, hdrs[i]);
        i := i - 1;
      }
      assert hdrs[0..] == hdrs;
    }
  }

  /** The ACK's CSeq: the INVITE's, appended and then renamed to ACK where
      the CSeq is found; no CSeq is a nil dereference. */
  method AckCSeqPhase(ack: Request, invite: Request) returns (r: Result<Request>)
    requires NoCSeq(ack.headers)
    ensures CSeqOf(invite.headers).None? ==> r == Err(Panic("nil CSeq"))
    ensures CSeqOf(invite.headers).Some? ==>
              r == Ok(ack.(headers := ack.headers + [CSeqField(CSeqOf(invite.headers).value.(methodName := ACK))]))
  {
    var a := ack;
    var cseq := First(invite.headers, IsCSeq);
    if cseq.Some? {
      a := AppendHeader(a, cseq.value);
      CSeqAtEnd(ack.headers, cseq.value);
    }
    var k := IndexOfKind(a.headers, IsCSeq);
    if k < 0 {
      return Err(Panic("nil CSeq"));
    }
    assert k == |ack.headers| && a.headers[k] == cseq.value;
    var renamed := CSeqField(a.headers[k].cseq.(methodName := ACK));
    assert a.headers[k := renamed] == ack.headers + [renamed];
    a := a.(headers := a.headers[k := renamed]);
    return Ok(a);
  }

  method NewAckRequest(invite: Request, response: Response, body: Option<string>, branch: string) returns (r: Result<Request>)
    ensures r == AckRequest(invite, response, body, branch)
  {
    var start := AckViaPhase(invite, response, branch);
    if start.Err? {
      return start;
    }
    var ack := start.value;
    ghost var vias := ack.headers;
    ack := AppendAckRoutes(invite, response, ack);
    ack := AppendHeader(ack, MaxForwards(70));
    ack := AppendFirst(ack, invite.headers, IsFrom);
    ack := AppendFirst(ack, response.headers, IsTo);
    ack := AppendFirst(ack, invite.headers, IsCallId);
    ghost var pre := AckPrefix(invite, response, vias);
    assert ack.headers == pre;
    AckPrefixKinds(invite, response, branch);
    var withCSeq := AckCSeqPhase(ack, invite);
    if withCSeq.Err? {
      return withCSeq;
    }
    ack := withCSeq.value;
    assert ack == NewRequest(ACK, AckRecipient(invite, response), invite.sipVersion)
                    .(headers := pre + [CSeqField(CSeqOf(invite.headers).value.(methodName := ACK))]);
    ack := SetBody(ack, body);
    ack := ack.(transport := Transport(invite), source := Source(invite), destination := Destination(invite));
    r := Ok(ack);
  }

  /** The ACK fails exactly when the code would dereference nil: a 2xx to
      an INVITE without Via, or an INVITE without CSeq. */
  lemma AckErrors(invite: Request, response: Response, body: Option<string>, branch: string)
    ensures AckRequest(invite, response, body, branch).Err?
            <==> (IsSuccess(response) && Filter(invite.headers, IsVia) == []) || CSeqOf(invite.headers).None?
  {
  }

  /** A list of ACK prefix kinds and a CSeq holds no Content-Length. */
  lemma NoContentLengthBefore(pre: seq<Header>, c: Header)
    requires AllPrefixKind(pre) && c.CSeqField?
    ensures IndexOfKind(pre + [c], IsContentLength) < 0
  {
    var hs := pre + [c];
    assert forall i :: 0 <= i < |hs| ==> !IsContentLength(hs[i]) by {
      assert forall i :: 0 <= i < |pre| ==> hs[i] == pre[i];
    }
  }

  /** A successful ACK holds the Vias, the route set, Max-Forwards 70,
      From, To and Call-ID, the CSeq renamed to ACK and the body's
      Content-Length, in that order. */
  lemma AckShape(invite: Request, response: Response, body: Option<string>, branch: string)
    requires AckRequest(invite, response, body, branch).Ok?
    ensures var r := AckRequest(invite, response, body, branch).value;
            && r.methodName == ACK && r.recipient == AckRecipient(invite, response)
            && r.sipVersion == invite.sipVersion && r.body == body
            && r.headers == AckPrefix(invite, response, AckVias(invite, response, branch).value)
                            + [CSeqField(CSeqOf(invite.headers).value.(methodName := ACK)),
                               ContentLength(if body.Some? then |body.value| else 0)]
  {
    AckPrefixKinds(invite, response, branch);
    NoContentLengthBefore(AckPrefix(invite, response, AckVias(invite, response, branch).value),
                          CSeqField(CSeqOf(invite.headers).value.(methodName := ACK)));
  }

  /** The first header of a kind, among headers of other kinds around at
      most one header of it, is that one. */
  lemma FirstThroughOptional(x: seq<Header>, hs: seq<Header>, y: seq<Header>, keep: Header -> bool)
    requires forall i :: 0 <= i < |x| ==> !keep(x[i])
    requires forall i :: 0 <= i < |y| ==> !keep(y[i])
    ensures First(x + Optional(hs, keep) + y, keep) == First(hs, keep)
  {
    var o := Optional(hs, keep);
    assert x + o + y == x + (o + y);
    FirstAppend(x, o + y, keep);
    FilterNone(x, keep);
    FirstAppend(o, y, keep);
    FilterNone(y, keep);
    if First(hs, keep).Some? {
      FirstAt(o, 0, keep);
    } else {
      FilterNone(o, keep);
    }
  }

  /** The layout ACK and CANCEL share, with its parts named: `vias` (Via
      only), `routes` (Route or Record-Route only), Max-Forwards 70, the
      first From and Call-ID of `ih`, the first To of `rh`, then `tail`: a
      CSeq and perhaps Content-Length. */
  predicate DialogLayout(hs: seq<Header>, vias: seq<Header>, routes: seq<Header>, ih: seq<Header>, rh: seq<Header>, tail: seq<Header>) {
    && (forall i :: 0 <= i < |vias| ==> vias[i].Via?)
    && (forall i :: 0 <= i < |routes| ==> routes[i].Route? || routes[i].RecordRoute?)
    && |tail| > 0 && tail[0].CSeqField? && (forall i :: 1 <= i < |tail| ==> tail[i].ContentLength?)
    && hs == vias + routes + [MaxForwards(70)] + Optional(ih, IsFrom) + Optional(rh, IsTo) + Optional(ih, IsCallId) + tail
  }

  lemma AckShapeLayout(invite: Request, response: Response, body: Option<string>, branch: string)
    requires AckRequest(invite, response, body, branch).Ok?
    ensures DialogLayout(AckRequest(invite, response, body, branch).value.headers,
                         AckVias(invite, response, branch).value, AckRoutes(invite, response), invite.headers, response.headers,
                         [CSeqField(CSeqOf(invite.headers).value.(methodName := ACK)), ContentLength(if body.Some? then |body.value| else 0)])
  {
    AckShape(invite, response, body, branch);
  }

  lemma LayoutFrom(hs: seq<Header>, vias: seq<Header>, routes: seq<Header>, ih: seq<Header>, rh: seq<Header>, tail: seq<Header>)
    requires DialogLayout(hs, vias, routes, ih, rh, tail)
    ensures FromOf(hs) == FromOf(ih)
  {
    var x := vias + routes + [MaxForwards(70)];
    var y := Optional(rh, IsTo) + Optional(ih, IsCallId) + tail;
    assert hs == x + Optional(ih, IsFrom) + y;
    FirstThroughOptional(x, ih, y, IsFrom);
  }

  lemma LayoutTo(hs: seq<Header>, vias: seq<Header>, routes: seq<Header>, ih: seq<Header>, rh: seq<Header>, tail: seq<Header>)
    requires DialogLayout(hs, vias, routes, ih, rh, tail)
    ensures ToOf(hs) == ToOf(rh)
  {
    var x := vias + routes + [MaxForwards(70)] + Optional(ih, IsFrom);
    var y := Optional(ih, IsCallId) + tail;
    assert hs == x + Optional(rh, IsTo) + y;
    FirstThroughOptional(x, rh, y, IsTo);
  }

  lemma LayoutCallId(hs: seq<Header>, vias: seq<Header>, routes: seq<Header>, ih: seq<Header>, rh: seq<Header>, tail: seq<Header>)
    requires DialogLayout(hs, vias, routes, ih, rh, tail)
    ensures CallIdOf(hs) == CallIdOf(ih)
  {
    var x := vias + routes + [MaxForwards(70)] + Optional(ih, IsFrom) + Optional(rh, IsTo);
    FirstThroughOptional(x, ih, tail, IsCallId);
  }

  lemma LayoutSequencing(hs: seq<Header>, vias: seq<Header>, routes: seq<Header>, ih: seq<Header>, rh: seq<Header>, tail: seq<Header>)
    requires DialogLayout(hs, vias, routes, ih, rh, tail)
    ensures First(hs, IsMaxForwards) == Some(MaxForwards(70)) && First(hs, IsCSeq) == Some(tail[0])
  {
    var x := vias + routes;
    assert forall i :: 0 <= i < |x| ==> hs[i] == x[i];
    FirstAt(hs, |x|, IsMaxForwards);
    var pre := x + [MaxForwards(70)] + Optional(ih, IsFrom) + Optional(rh, IsTo) + Optional(ih, IsCallId);
    assert forall i :: 0 <= i < |pre| ==> hs[i] == pre[i];
    assert forall i :: 0 <= i < |pre| ==> PrefixKind(pre[i]);
    FirstAt(hs, |pre|, IsCSeq);
  }

  /** The layout's top Via is the first of `vias`. */
  lemma LayoutTopVia(hs: seq<Header>, vias: seq<Header>, routes: seq<Header>, ih: seq<Header>, rh: seq<Header>, tail: seq<Header>)
    requires DialogLayout(hs, vias, routes, ih, rh, tail)
    ensures TopVia(hs) == if vias == [] then None else Some(vias[0].hop)
    ensures forall i :: |vias| <= i < |hs| ==> !hs[i].Via?
  {
    var pre := LayoutAfterVias(hs, vias, routes, ih, rh, tail);
    FirstAppend(vias, pre, IsVia);
    FilterNone(pre, IsVia);
    if vias != [] {
      FirstAt(vias, 0, IsVia);
    } else {
      FilterNone(vias, IsVia);
    }
  }

  /** Everything in the layout after the Via headers, none of them a Via. */
  lemma LayoutAfterVias(hs: seq<Header>, vias: seq<Header>, routes: seq<Header>, ih: seq<Header>, rh: seq<Header>, tail: seq<Header>)
    returns (pre: seq<Header>)
    requires DialogLayout(hs, vias, routes, ih, rh, tail)
    ensures hs == vias + pre
    ensures forall i :: 0 <= i < |pre| ==> !pre[i].Via?
    ensures forall i :: |vias| <= i < |hs| ==> !hs[i].Via?
  {
    var from, to, callId := Optional(ih, IsFrom), Optional(rh, IsTo), Optional(ih, IsCallId);
    var a := routes + [MaxForwards(70)];
    var b := a + from;
    var c := b + to;
    var d := c + callId;
    pre := d + tail;
    assert vias + routes + [MaxForwards(70)] == vias + a;
    assert vias + a + from == vias + b;
    assert vias + b + to == vias + c;
    assert vias + c + callId == vias + d;
    assert vias + d + tail == vias + pre;
    DialogTailNoVia(routes, from, to, callId, tail);
    NoViaAfter(vias, pre);
  }

  lemma DialogTailNoVia(routes: seq<Header>, from: seq<Header>, to: seq<Header>, callId: seq<Header>, tail: seq<Header>)
    requires forall i :: 0 <= i < |routes| ==> routes[i].Route? || routes[i].RecordRoute?
    requires NoVia(from) && NoVia(to) && NoVia(callId)
    requires forall i :: 0 <= i < |tail| ==> tail[i].CSeqField? || tail[i].ContentLength?
    ensures NoVia(routes + [MaxForwards(70)] + from + to + callId + tail)
  {
    NoViaAppend(routes, [MaxForwards(70)]);
    NoViaAppend(routes + [MaxForwards(70)], from);
    NoViaAppend(routes + [MaxForwards(70)] + from, to);
    NoViaAppend(routes + [MaxForwards(70)] + from + to, callId);
    NoViaAppend(routes + [MaxForwards(70)] + from + to + callId, tail);
  }

  lemma NoViaAfter(vias: seq<Header>, pre: seq<Header>)
    requires NoVia(pre)
    ensures forall i :: |vias| <= i < |vias + pre| ==> !(vias + pre)[i].Via?
  {
    assert forall i :: |vias| <= i < |vias + pre| ==> (vias + pre)[i] == pre[i - |vias|];
  }

  predicate NoVia(hs: seq<Header>) {
    forall i :: 0 <= i < |hs| ==> !hs[i].Via?
  }

  lemma NoViaAppend(a: seq<Header>, b: seq<Header>)
    requires NoVia(a) && NoVia(b)
    ensures NoVia(a + b)
  {
    assert forall i :: |a| <= i < |a + b| ==> (a + b)[i] == b[i - |a|];
  }

  /** The ACK's From and Call-ID are the INVITE's and its To is the
      response's (the one with the callee's tag). */
  lemma AckParties(invite: Request, response: Response, body: Option<string>, branch: string)
    requires AckRequest(invite, response, body, branch).Ok?
    ensures var hs := AckRequest(invite, response, body, branch).value.headers;
            && FromOf(hs) == FromOf(invite.headers)
            && ToOf(hs) == ToOf(response.headers)
            && CallIdOf(hs) == CallIdOf(invite.headers)
  {
    AckShapeLayout(invite, response, body, branch);
    var hs := AckRequest(invite, response, body, branch).value.headers;
    var vias := AckVias(invite, response, branch).value;
    var routes := AckRoutes(invite, response);
    var tail := [CSeqField(CSeqOf(invite.headers).value.(methodName := ACK)), ContentLength(if body.Some? then |body.value| else 0)];
    LayoutFrom(hs, vias, routes, invite.headers, response.headers, tail);
    LayoutTo(hs, vias, routes, invite.headers, response.headers, tail);
    LayoutCallId(hs, vias, routes, invite.headers, response.headers, tail);
  }

  /** The ACK carries Max-Forwards 70, and its CSeq keeps the INVITE's
      sequence number with method ACK. */
  lemma AckSequencing(invite: Request, response: Response, body: Option<string>, branch: string)
    requires AckRequest(invite, response, body, branch).Ok?
    ensures var hs := AckRequest(invite, response, body, branch).value.headers;
            && First(hs, IsMaxForwards) == Some(MaxForwards(70))
            && CSeqOf(hs) == Some(CSeq.CSeqHeader(CSeqOf(invite.headers).value.seqNo, ACK))
  {
    AckShapeLayout(invite, response, body, branch);
    var hs := AckRequest(invite, response, body, branch).value.headers;
    var tail := [CSeqField(CSeqOf(invite.headers).value.(methodName := ACK)), ContentLength(if body.Some? then |body.value| else 0)];
    LayoutSequencing(hs, AckVias(invite, response, branch).value, AckRoutes(invite, response), invite.headers, response.headers, tail);
  }

  /** Without Route headers in the INVITE, the ACK's route set is the
      response's Record-Route headers from the last one back. */
  lemma AckRouteSetReversed(invite: Request, response: Response)
    requires Filter(invite.headers, IsRoute) == []
    ensures var rr := Filter(response.headers, IsRecordRoute);
            var routes := AckRoutes(invite, response);
            |routes| == |rr| && forall i :: 0 <= i < |rr| ==> routes[i] == rr[|rr| - 1 - i]
  {
  }

  /** The ACK goes out over the INVITE's transport, from the INVITE's
      source to the INVITE's destination. */
  lemma AckResolvesLikeInvite(invite: Request, response: Response, body: Option<string>, branch: string)
    requires AckRequest(invite, response, body, branch).Ok?
    ensures var ack := AckRequest(invite, response, body, branch).value;
            && Transport(ack) == Transport(invite)
            && Destination(ack) == Destination(invite)
            && Source(ack) == Source(invite)
  {
    var ack := AckRequest(invite, response, body, branch).value;
    if Source(invite) == "" {
      AckShapeLayout(invite, response, body, branch);
      assert Filter(invite.headers, IsVia) == [];
      var tail := [CSeqField(CSeqOf(invite.headers).value.(methodName := ACK)), ContentLength(if body.Some? then |body.value| else 0)];
      LayoutTopVia(ack.headers, [], AckRoutes(invite, response), invite.headers, response.headers, tail);
    }
  }

  // ---------------------------------------------------------------------
  // CANCEL.

  /** NewCancelRequest: the top Via, the Route headers, Max-Forwards 70,
      From, To, Call-ID and the CSeq renamed to CANCEL, no body, over the
      original request's transport, source and destination. Err: the code
      dereferences nil (no Via, or no CSeq). */
  function CancelRequest(req: Request): Result<Request> {
    var via := TopVia(req.headers);
    var cseq := CSeqOf(req.headers);
    if via.None? then Err(Panic("nil Via"))
    else if cseq.None? then Err(Panic("nil CSeq"))
    else
      var hs := CancelPrefix(req, via.value) + [CSeqField(cseq.value.(methodName := CANCEL))];
      Ok(NewRequest(CANCEL, req.recipient, req.sipVersion)
           .(headers := hs, transport := Transport(req), source := Source(req), destination := Destination(req)))
  }

  /** Everything CANCEL carries before its CSeq. */
  function CancelPrefix(req: Request, via: ViaHop): seq<Header> {
    [Via(via)] + Filter(req.headers, IsRoute) + [MaxForwards(70)]
    + Optional(req.headers, IsFrom) + Optional(req.headers, IsTo) + Optional(req.headers, IsCallId)
  }

  lemma CancelPrefixKinds(req: Request, via: ViaHop)
    ensures AllPrefixKind(CancelPrefix(req, via))
  {
    var r := CancelPrefix(req, via);
    assert forall i :: 0 <= i < |r| ==> PrefixKind(r[i]);
  }

  /** The CANCEL up to its CSeq. */
  method CancelHead(req: Request, via: ViaHop) returns (r: Request)
    ensures r == NewRequest(CANCEL, req.recipient, req.sipVersion).(headers := CancelPrefix(req, via))
  {
    r := NewRequest(CANCEL, req.recipient, req.sipVersion);
    r := AppendHeader(r, Via(via));
    assert r.headers == [Via(via)];
    r := CopyHeaders(IsRoute, req.headers, r);
    r := AppendHeader(r, MaxForwards(70));
    ghost var head := [Via(via)] + Filter(req.headers, IsRoute) + [MaxForwards(70)];
    assert r.headers == head;
    r := AppendFirst(r, req.headers, IsFrom);
    r := AppendFirst(r, req.headers, IsTo);
    r := AppendFirst(r, req.headers, IsCallId);
    assert r.headers == head + Optional(req.headers, IsFrom) + Optional(req.headers, IsTo) + Optional(req.headers, IsCallId);
  }

  method NewCancelRequest(req: Request) returns (r: Result<Request>)
    ensures r == CancelRequest(req)
  {
    var via := TopVia(req.headers);
    if via.None? {
      return Err(Panic("nil Via"));
    }
    var cancel := CancelHead(req, via.value);
    ghost var pre := cancel.headers;
    CancelPrefixKinds(req, via.value);
    var cseq := First(req.headers, IsCSeq);
    if cseq.Some? {
      cancel := AppendHeader(cancel, cseq.value);
      CSeqAtEnd(pre, cseq.value);
    } else {
      assert NoCSeq(pre);
    }
    var k := IndexOfKind(cancel.headers, IsCSeq);
    if k < 0 {
      return Err(Panic("nil CSeq"));
    }
    cancel := cancel.(headers := cancel.headers[k := CSeqField(cancel.headers[k].cseq.(methodName := CANCEL))]);
    assert cancel.headers == pre + [CSeqField(CSeqOf(req.headers).value.(methodName := CANCEL))];
    cancel := cancel.(transport := Transport(req), source := Source(req), destination := Destination(req));
    r := Ok(cancel);
  }

  lemma CancelLayout(req: Request)
    requires CancelRequest(req).Ok?
    ensures DialogLayout(CancelRequest(req).value.headers, [Via(TopVia(req.headers).value)], Filter(req.headers, IsRoute),
                         req.headers, req.headers, [CSeqField(CSeqOf(req.headers).value.(methodName := CANCEL))])
  {
  }

  /** CANCEL fails exactly when the request has no Via or no CSeq. When it
      succeeds it matches the request it cancels, as section 9.1 of RFC
      3261 demands: the same Request-URI, Call-ID, From, To and CSeq number
      (method CANCEL), and a single Via, the request's top one; it carries
      Max-Forwards 70 and no body. */
  lemma CancelMatchesRequest(req: Request)
    ensures CancelRequest(req).Err? <==> TopVia(req.headers).None? || CSeqOf(req.headers).None?
    ensures CancelRequest(req).Ok? ==>
              var c := CancelRequest(req).value;
              && c.methodName == CANCEL && c.recipient == req.recipient && c.sipVersion == req.sipVersion
              && c.body.None?
              && FromOf(c.headers) == FromOf(req.headers)
              && ToOf(c.headers) == ToOf(req.headers)
              && CallIdOf(c.headers) == CallIdOf(req.headers)
              && CSeqOf(c.headers) == Some(CSeq.CSeqHeader(CSeqOf(req.headers).value.seqNo, CANCEL))
              && TopVia(c.headers) == TopVia(req.headers)
              && (forall i :: 1 <= i < |c.headers| ==> !c.headers[i].Via?)
              && First(c.headers, IsMaxForwards) == Some(MaxForwards(70))
  {
    if CancelRequest(req).Ok? {
      CancelLayout(req);
      var hs := CancelRequest(req).value.headers;
      var vias := [Via(TopVia(req.headers).value)];
      var routes := Filter(req.headers, IsRoute);
      var tail := [CSeqField(CSeqOf(req.headers).value.(methodName := CANCEL))];
      LayoutFrom(hs, vias, routes, req.headers, req.headers, tail);
      LayoutTo(hs, vias, routes, req.headers, req.headers, tail);
      LayoutCallId(hs, vias, routes, req.headers, req.headers, tail);
      LayoutSequencing(hs, vias, routes, req.headers, req.headers, tail);
      LayoutTopVia(hs, vias, routes, req.headers, req.headers, tail);
    }
  }

  /** CANCEL goes out over the cancelled request's transport, from its
      source to its destination. */
  lemma CancelResolvesLikeRequest(req: Request)
    requires CancelRequest(req).Ok?
    ensures var c := CancelRequest(req).value;
            Transport(c) == Transport(req) && Source(c) == Source(req) && Destination(c) == Destination(req)
  {
  }

  // ---------------------------------------------------------------------
  // Deep copy.

  /** cloneRequest: the same method, recipient, version and headers, the
      body set again (which rewrites Content-Length), and the original's
      resolved transport, source and destination as overrides. */
  function CloneRequest(req: Request): Request {
    SetBody(NewRequest(req.methodName, req.recipient, req.sipVersion).(headers := req.headers), req.body)
      .(transport := Transport(req), source := Source(req), destination := Destination(req))
  }

  method CopyRequest(req: Request) returns (r: Request)
    ensures r == CloneRequest(req)
  {
    r := NewRequest(req.methodName, req.recipient, req.sipVersion);
    for i := 0 to |req.headers|
      invariant r == NewRequest(req.methodName, req.recipient, req.sipVersion).(headers := req.headers[..i])
    {
      assert req.headers[..i + 1] == req.headers[..i] + [req.headers[i]];
      r := AppendHeader(r, req.headers[i]);
    }
    assert req.headers[..|req.headers|] == req.headers;
    r := SetBody(r, req.body);
    r := r.(transport := Transport(req), source := Source(req), destination := Destination(req));
  }

  /** IndexOfKind finds the first header of the kind. */
  lemma IndexOfKindIs(hs: seq<Header>, k: nat, keep: Header -> bool)
    requires k < |hs| && keep(hs[k]) && forall j :: 0 <= j < k ==> !keep(hs[j])
    ensures IndexOfKind(hs, keep) == k
  {
  }

  /** Setting the same body twice is setting it once. */
  lemma SetBodyIdempotent(req: Request, body: Option<string>)
    ensures SetBody(SetBody(req, body), body) == SetBody(req, body)
  {
    var n := if body.Some? then |body.value| else 0;
    var r := SetBody(req, body);
    var k := IndexOfKind(req.headers, IsContentLength);
    if k >= 0 {
      IndexOfKindIs(r.headers, k, IsContentLength);
    } else {
      IndexOfKindIs(r.headers, |req.headers|, IsContentLength);
    }
  }

  /** A request whose first Content-Length already gives its body's length
      keeps its headers when the body is set again. */
  lemma SetBodyConsistent(req: Request)
    requires First(req.headers, IsContentLength) == Some(ContentLength(if req.body.Some? then |req.body.value| else 0))
    ensures SetBody(req, req.body) == req
  {
    var k := IndexOfKind(req.headers, IsContentLength);
    if k < 0 {
      FilterNone(req.headers, IsContentLength);
    } else {
      FirstAt(req.headers, k, IsContentLength);
    }
  }

  /** The copy has the original's method, recipient, version and body,
      every header but Content-Length in its place, and Content-Length the
      body's length; a request whose Content-Length is right already is
      copied header for header. */
  lemma CloneKeeps(req: Request)
    ensures var c := CloneRequest(req);
            && c.methodName == req.methodName && c.recipient == req.recipient && c.sipVersion == req.sipVersion
            && c.body == req.body
            && (forall i :: 0 <= i < |req.headers| && !req.headers[i].ContentLength? ==> c.headers[i] == req.headers[i])
            && First(c.headers, IsContentLength) == Some(ContentLength(if req.body.Some? then |req.body.value| else 0))
    ensures First(req.headers, IsContentLength) == Some(ContentLength(if req.body.Some? then |req.body.value| else 0))
            ==> CloneRequest(req).headers == req.headers
  {
    var base := NewRequest(req.methodName, req.recipient, req.sipVersion).(headers := req.headers);
    SetBodyLength(base, req.body);
    if First(req.headers, IsContentLength) == Some(ContentLength(if req.body.Some? then |req.body.value| else 0)) {
      SetBodyConsistent(base.(body := req.body));
      assert SetBody(base.(body := req.body), req.body).headers == SetBody(base, req.body).headers;
    }
  }

  /** The copy resolves its transport, source and destination as the
      original does. */
  lemma CloneResolvesAlike(req: Request)
    ensures var c := CloneRequest(req);
            Transport(c) == Transport(req) && Source(c) == Source(req) && Destination(c) == Destination(req)
  {
    var c := CloneRequest(req);
    if Source(req) == "" {
      var base := NewRequest(req.methodName, req.recipient, req.sipVersion).(headers := req.headers);
      SetBodyKeeps(base, req.body, IsVia);
      assert TopVia(c.headers) == TopVia(req.headers);
    }
  }

  /** Copying a copy gives the copy again. */
  lemma CloneIdempotent(req: Request)
    ensures CloneRequest(CloneRequest(req)) == CloneRequest(req)
  {
    var c := CloneRequest(req);
    CloneResolvesAlike(req);
    var base := NewRequest(req.methodName, req.recipient, req.sipVersion).(headers := req.headers);
    SetBodyIdempotent(base, req.body);
    var base2 := NewRequest(c.methodName, c.recipient, c.sipVersion).(headers := c.headers);
    assert base2 == SetBody(base, req.body).(body := None);
    assert SetBody(base2, req.body).headers == SetBody(SetBody(base, req.body), req.body).headers;
  }
}
