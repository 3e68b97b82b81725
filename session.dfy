/** sip_server/session.go: one device's session. The server hands it the
    requests and responses that device sends; REGISTER arms the register
    timer, is answered 200 OK and, when the server is configured to pull
    at once, is followed by an INVITE for the device's live stream.

    The model has two layers. `SessionView` is the session's state as a
    value, and the `...Spec` functions say what each operation makes of it.
    The class `SipSession` holds the same state in fields. Its methods
    update those fields step by step, and each promises to leave
    `View()` equal to the specification's result. */
module Session {
  import opened Common
  import Numbers
  import SipUri
  import Message
  import Builders
  import Sdp
  import SipTimer
  import Fsm

  /** transport.Connection, seen only through what was written to it. */
  class Connection {
    var written: seq<Message.Msg>

    constructor ()
      ensures written == []
    {
      written := [];
    }

    /** WriteMsg: the message goes out after everything written before. The
        write error is ignored by every caller, so it is not modelled. */
    method WriteMsg(m: Message.Msg)
      modifies this
      ensures written == old(written) + [m]
    {
      written := written + [m];
    }
  }

  /** SipServerConf. */
  datatype ServerConf = ServerConf(serverId: string, serverPort: int, serverIp: string,
                                   serverRealm: string, pullImmediate: bool)

  /** The session's fields as one value. A timer is the nanoseconds it was
      last armed with, `None` while it is still a nil pointer; `written` is
      what the connection has carried. `requests` and `responses` are the
      contents of the request and response channels. */
  datatype SessionView = SessionView(
    clientId: string, transport: string, source: string, peerIp: string, peerPort: int,
    sipState: Fsm.SessionState, invitePlayState: Fsm.InviteState,
    registerRequest: Option<Message.Request>,
    timerRegister: Option<int>, timerKeepalive: Option<int>,
    requests: seq<Message.Request>, responses: seq<Message.Response>,
    written: seq<Message.Msg>)

  /** What Serve waits on: a timer firing, the context being cancelled, or
      a message arriving on one of the session's channels. A request carries
      the random branch, the clock reading and the random SSRC an INVITE
      sent while handling it would use. */
  datatype Event =
    | RegisterTimerFired
    | KeepaliveTimerFired
    | Cancelled
    | RequestArrived(req: Message.Request, branch: string, now: string, ssrc: string)
    | ResponseArrived(res: Message.Response)

  predicate IsStop(e: Event) {
    e.RegisterTimerFired? || e.KeepaliveTimerFired? || e.Cancelled?
  }

  /** The ends of a URI that sendInvite fills in: user, host and port. */
  function UriOf(user: string, host: string, port: int): SipUri.Uri {
    SipUri.EmptyUri.(user := user, host := host, port := port)
  }

  /** The SDP offer sendInvite sends: a receive-only live play towards the
      server's own address. */
  function PlayOffer(conf: ServerConf, ssrc: string): Sdp.SDP {
    Sdp.SDP(0, conf.serverId, conf.serverIp, conf.serverPort, ssrc, Sdp.RecvOnly, Sdp.Play)
  }

  /** The INVITE sendInvite writes, or the panic of reading the transport
      of a register request that was never stored. */
  function SessionInvite(v: SessionView, conf: ServerConf, branch: string, now: string, ssrc: string)
    : (r: Result<Message.Request>)
    ensures r.Err? <==> v.registerRequest.None?
    ensures r.Ok? ==> r.value.destination == v.source && r.value.transport == v.transport
  {
    if v.registerRequest.None? then Err(Panic("nil register request"))
    else
      var inv := Builders.InviteRequest(UriOf(conf.serverId, conf.serverIp, conf.serverPort),
                                        UriOf(v.clientId, v.peerIp, v.peerPort),
                                        Message.Transport(v.registerRequest.value),
                                        Some(Sdp.Builder(PlayOffer(conf, ssrc))), branch, now);
      Ok(inv.(destination := v.source, transport := v.transport))
  }

  /** sendInvite: the INVITE is written to the connection. */
  function SendInviteSpec(v: SessionView, conf: ServerConf, branch: string, now: string, ssrc: string)
    : Result<SessionView>
  {
    var inv := SessionInvite(v, conf, branch, now, ssrc);
    if inv.Err? then Err(inv.error)
    else Ok(v.(written := v.written + [Message.RequestMsg(inv.value)]))
  }

  /** refreshSessionInfo: the source is the request's, and the peer the top
      Via's host and port when there is one. */
  function RefreshSpec(v: SessionView, req: Message.Request): SessionView {
    var via := Message.TopVia(req.headers);
    var v' := v.(source := Message.Source(req));
    if via.Some? then v'.(peerIp := via.value.host, peerPort := via.value.port) else v'
  }

  /** The 200 OK a REGISTER is answered with. */
  function RegisterOk(req: Message.Request): Message.Response {
    Message.NewResponseFromRequest(req, 200, "OK", None)
  }

  /** The register timer's new duration: the expires value as Atoi reads
      it, and Atoi's value is used even when it reports an error. */
  function ExpiresNanos(h: Message.Header): int {
    SipTimer.Seconds(Numbers.Atoi(Message.HeaderValue(h)).value)
  }

  /** What a REGISTER with an expires header does once the register timer
      exists: re-arm it, answer 200 OK, keep the request, refresh the
      source and peer, and pull the stream when configured to. */
  function RegisteredSpec(v: SessionView, conf: ServerConf, req: Message.Request, expires: Message.Header,
                          branch: string, now: string, ssrc: string): Result<SessionView>
  {
    var v2 := Answered(v, req, expires);
    if conf.pullImmediate then SendInviteSpec(v2, conf, branch, now, ssrc) else Ok(v2)
  }

  /** The session once the REGISTER is answered, before any INVITE. */
  function Answered(v: SessionView, req: Message.Request, expires: Message.Header): SessionView {
    var v1 := v.(timerRegister := Some(ExpiresNanos(expires)),
                 written := v.written + [Message.ResponseMsg(RegisterOk(req))],
                 registerRequest := Some(req));
    RefreshSpec(v1, req)
  }

  /** processRequest. Only REGISTER changes anything; a MESSAGE body is
      decoded and printed, which touches no state. Resetting the register
      timer before Serve created it is a nil-pointer panic. */
  function ProcessRequestSpec(v: SessionView, conf: ServerConf, req: Message.Request,
                              branch: string, now: string, ssrc: string): Result<SessionView>
  {
    if req.methodName != Message.REGISTER then Ok(v)
    else
      var expires := Message.GetHeader(req.headers, "expires");
      if expires.None? then Ok(v)
      else if v.timerRegister.None? then Err(Panic("nil register timer"))
      else RegisteredSpec(v, conf, req, expires.value, branch, now, ssrc)
  }

  /** The loop of Serve: it returns on a timer or on cancellation, handles
      one request or response per iteration, and here also stops when no
      event is left. processResponse does nothing. */
  function ServeLoop(v: SessionView, conf: ServerConf, es: seq<Event>): Result<SessionView>
    decreases |es|
  {
    if es == [] || IsStop(es[0]) then Ok(v)
    else if es[0].ResponseArrived? then ServeLoop(v, conf, es[1..])
    else
      var r := ProcessRequestSpec(v, conf, es[0].req, es[0].branch, es[0].now, es[0].ssrc);
      if r.Err? then r else ServeLoop(r.value, conf, es[1..])
  }

  const RegisterTimeout: int := 60
  const KeepaliveTimeout: int := 3 * 60

  /** Serve: both timers are armed, then the loop runs. */
  function ServeSpec(v: SessionView, conf: ServerConf, es: seq<Event>): Result<SessionView> {
    ServeLoop(v.(timerRegister := Some(SipTimer.Seconds(RegisterTimeout)),
                 timerKeepalive := Some(SipTimer.Seconds(KeepaliveTimeout))), conf, es)
  }

  // ---------------------------------------------------------------------
  // Properties of the specification.

  /** A REGISTER without an expires header, any other method, and any
      state on a non-REGISTER leave the session exactly as it was. */
  lemma IgnoredRequests(v: SessionView, conf: ServerConf, req: Message.Request, branch: string, now: string, ssrc: string)
    requires req.methodName != Message.REGISTER || Message.GetHeader(req.headers, "expires").None?
    ensures ProcessRequestSpec(v, conf, req, branch, now, ssrc) == Ok(v)
  {
  }

  /** A REGISTER with an expires header, once the timer exists: the timer is
      re-armed for expires seconds, exactly one 200 OK is written, followed
      by one INVITE when the server pulls at once, the request is kept, the
      source and peer are refreshed from it, and nothing else changes. */
  lemma RegisterEffects(v: SessionView, conf: ServerConf, req: Message.Request, branch: string, now: string, ssrc: string)
    requires req.methodName == Message.REGISTER
    requires Message.GetHeader(req.headers, "expires").Some? && v.timerRegister.Some?
    ensures var r := ProcessRequestSpec(v, conf, req, branch, now, ssrc);
            var h := Message.GetHeader(req.headers, "expires").value;
            var via := Message.TopVia(req.headers);
            && r.Ok?
            && r.value.timerRegister == Some(SipTimer.Seconds(Numbers.Atoi(Message.HeaderValue(h)).value))
            && r.value.registerRequest == Some(req)
            && r.value.source == Message.Source(req)
            && (via.Some? ==> r.value.peerIp == via.value.host && r.value.peerPort == via.value.port)
            && (via.None? ==> r.value.peerIp == v.peerIp && r.value.peerPort == v.peerPort)
            && r.value.clientId == v.clientId && r.value.transport == v.transport
            && r.value.sipState == v.sipState && r.value.invitePlayState == v.invitePlayState
            && r.value.timerKeepalive == v.timerKeepalive
            && r.value.requests == v.requests && r.value.responses == v.responses
            && |r.value.written| == |v.written| + (if conf.pullImmediate then 2 else 1)
            && r.value.written[..|v.written| + 1] == v.written + [Message.ResponseMsg(RegisterOk(req))]
  {
    RegisteredShape(v, conf, Message.GetHeader(req.headers, "expires").value, req, branch, now, ssrc);
  }

  /** The written log of a REGISTER: the 200 OK, then the INVITE when the
      server pulls at once. */
  lemma RegisteredShape(v: SessionView, conf: ServerConf, h: Message.Header, req: Message.Request,
                        branch: string, now: string, ssrc: string)
    ensures var r := RegisteredSpec(v, conf, req, h, branch, now, ssrc);
            var via := Message.TopVia(req.headers);
            && r.Ok?
            && r.value.timerRegister == Some(ExpiresNanos(h))
            && r.value.registerRequest == Some(req)
            && r.value.source == Message.Source(req)
            && (via.Some? ==> r.value.peerIp == via.value.host && r.value.peerPort == via.value.port)
            && (via.None? ==> r.value.peerIp == v.peerIp && r.value.peerPort == v.peerPort)
            && r.value.clientId == v.clientId && r.value.transport == v.transport
            && r.value.sipState == v.sipState && r.value.invitePlayState == v.invitePlayState
            && r.value.timerKeepalive == v.timerKeepalive
            && r.value.requests == v.requests && r.value.responses == v.responses
            && |r.value.written| == |v.written| + (if conf.pullImmediate then 2 else 1)
            && r.value.written[..|v.written| + 1] == v.written + [Message.ResponseMsg(RegisterOk(req))]
  {
    var v2 := Answered(v, req, h);
    AnsweredFields(v, req, h);
    if conf.pullImmediate {
      var m := SendInviteAppends(v2, conf, branch, now, ssrc);
      assert (v2.written + [m])[..|v.written| + 1] == v2.written;
    }
  }

  /** A registered session's sendInvite appends one request and changes
      nothing else. */
  lemma SendInviteAppends(v: SessionView, conf: ServerConf, branch: string, now: string, ssrc: string)
    returns (m: Message.Msg)
    requires v.registerRequest.Some?
    ensures m.RequestMsg? && m.request == SessionInvite(v, conf, branch, now, ssrc).value
    ensures SendInviteSpec(v, conf, branch, now, ssrc) == Ok(v.(written := v.written + [m]))
  {
    m := Message.RequestMsg(SessionInvite(v, conf, branch, now, ssrc).value);
  }

  lemma AnsweredFields(v: SessionView, req: Message.Request, h: Message.Header)
    ensures var a := Answered(v, req, h);
            var via := Message.TopVia(req.headers);
            && a.timerRegister == Some(ExpiresNanos(h))
            && a.registerRequest == Some(req)
            && a.source == Message.Source(req)
            && (via.Some? ==> a.peerIp == via.value.host && a.peerPort == via.value.port)
            && (via.None? ==> a.peerIp == v.peerIp && a.peerPort == v.peerPort)
            && a.clientId == v.clientId && a.transport == v.transport
            && a.sipState == v.sipState && a.invitePlayState == v.invitePlayState
            && a.timerKeepalive == v.timerKeepalive
            && a.requests == v.requests && a.responses == v.responses
            && a.written == v.written + [Message.ResponseMsg(RegisterOk(req))]
  {
  }

  /** With pull-at-once, the INVITE written after the 200 OK goes to the
      device the REGISTER came from: its destination is the request's
      source and its transport the session's. */
  lemma RegisterPullsStream(v: SessionView, conf: ServerConf, req: Message.Request, branch: string, now: string, ssrc: string)
    requires req.methodName == Message.REGISTER && conf.pullImmediate
    requires Message.GetHeader(req.headers, "expires").Some? && v.timerRegister.Some?
    ensures var r := ProcessRequestSpec(v, conf, req, branch, now, ssrc);
            && r.Ok?
            && var last := r.value.written[|r.value.written| - 1];
            && last.RequestMsg?
            && last.request.methodName == Message.INVITE
            && last.request.destination == Message.Source(req)
            && last.request.transport == v.transport
  {
    RegisterEffects(v, conf, req, branch, now, ssrc);
  }

  /** A non-numeric expires value arms the register timer for zero. */
  lemma BadExpiresArmsZero(h: Message.Header)
    requires Numbers.Atoi(Message.HeaderValue(h)).err == Some(NumberSyntax(Message.HeaderValue(h)))
    ensures ExpiresNanos(h) == 0
  {
    SipTimer.SecondsExact(0);
  }

  /** The INVITE of a session that has registered: sent from the server's
      id and address to the device's id at its last known peer address,
      carrying the play offer and the session's overrides. */
  lemma InviteAddressesDevice(v: SessionView, conf: ServerConf, branch: string, now: string, ssrc: string)
    requires v.registerRequest.Some?
    ensures var r := SessionInvite(v, conf, branch, now, ssrc);
            && r.Ok?
            && r.value.methodName == Message.INVITE
            && r.value.recipient == UriOf(v.clientId, v.peerIp, v.peerPort)
            && r.value.body == Some(Sdp.Builder(PlayOffer(conf, ssrc)))
            && Message.FromOf(r.value.headers).Some?
            && Message.FromOf(r.value.headers).value.address == UriOf(conf.serverId, conf.serverIp, conf.serverPort)
            && Message.ToOf(r.value.headers).Some?
            && Message.ToOf(r.value.headers).value.address == UriOf(v.clientId, v.peerIp, v.peerPort)
            && (v.source != "" ==> Message.Destination(r.value) == v.source)
            && (v.transport != "" ==> Message.Transport(r.value) == v.transport)
  {
    var sender := UriOf(conf.serverId, conf.serverIp, conf.serverPort);
    var recipient := UriOf(v.clientId, v.peerIp, v.peerPort);
    var tp := Message.Transport(v.registerRequest.value);
    var body := Some(Sdp.Builder(PlayOffer(conf, ssrc)));
    Builders.InviteIs(sender, recipient, tp, body, branch, now);
    Builders.InviteParties(sender, recipient, tp, body, branch, now);
    assert Builders.PlainUri(sender) == sender && Builders.PlainUri(recipient) == recipient;
  }

  /** The play offer a session sends asks to receive a live stream at the
      server's address, with the SSRC it was given. */
  lemma PlayOfferLines(conf: ServerConf, ssrc: string)
    ensures var ls := Sdp.Lines(PlayOffer(conf, ssrc));
            && ls[2] == "s=Play" && ls[6] == "a=recv_only" && ls[10] == "y=" + ssrc
            && ls[1] == "o=" + conf.serverId + " 0 0 IN IP4 " + conf.serverIp
            && ls[3] == "c=IN IP4 " + conf.serverIp
  {
  }

  /** With no CR in the server's id and address or in the SSRC, the body
      the session sends cuts back into the offer's twelve lines. */
  lemma PlayOfferSplits(conf: ServerConf, ssrc: string)
    requires Sdp.NoCR(conf.serverId) && Sdp.NoCR(conf.serverIp) && Sdp.NoCR(ssrc)
    ensures Sdp.SplitLines(Sdp.Builder(PlayOffer(conf, ssrc))) == Sdp.Lines(PlayOffer(conf, ssrc))
  {
    assert Sdp.NoCR(Sdp.RecvOnly) && Sdp.NoCR(Sdp.Play);
    Sdp.BuilderSplits(PlayOffer(conf, ssrc));
  }

  /** processRequest keeps the register timer once it exists. */
  lemma ProcessKeepsTimer(v: SessionView, conf: ServerConf, req: Message.Request, branch: string, now: string, ssrc: string)
    requires v.timerRegister.Some?
    ensures var r := ProcessRequestSpec(v, conf, req, branch, now, ssrc);
            r.Ok? && r.value.timerRegister.Some?
  {
    if req.methodName == Message.REGISTER && Message.GetHeader(req.headers, "expires").Some? {
      RegisterEffects(v, conf, req, branch, now, ssrc);
    }
  }

  /** processRequest keeps what it never assigns: the identity of the
      device, both state-machine fields, the keepalive timer, the channels,
      and everything already written. */
  predicate Keeps(v: SessionView, w: SessionView) {
    && w.clientId == v.clientId && w.transport == v.transport
    && w.sipState == v.sipState && w.invitePlayState == v.invitePlayState
    && w.timerKeepalive == v.timerKeepalive
    && w.requests == v.requests && w.responses == v.responses
    && |v.written| <= |w.written| && w.written[..|v.written|] == v.written
  }

  lemma ProcessKeeps(v: SessionView, conf: ServerConf, req: Message.Request, branch: string, now: string, ssrc: string)
    requires ProcessRequestSpec(v, conf, req, branch, now, ssrc).Ok?
    ensures Keeps(v, ProcessRequestSpec(v, conf, req, branch, now, ssrc).value)
  {
    var expires := Message.GetHeader(req.headers, "expires");
    if req.methodName == Message.REGISTER && expires.Some? {
      assert ProcessRequestSpec(v, conf, req, branch, now, ssrc) == RegisteredSpec(v, conf, req, expires.value, branch, now, ssrc);
      RegisteredKeeps(v, conf, req, expires.value, branch, now, ssrc);
    } else {
      assert ProcessRequestSpec(v, conf, req, branch, now, ssrc) == Ok(v);
      assert v.written[..|v.written|] == v.written;
    }
  }

  lemma RegisteredKeeps(v: SessionView, conf: ServerConf, req: Message.Request, h: Message.Header,
                        branch: string, now: string, ssrc: string)
    ensures RegisteredSpec(v, conf, req, h, branch, now, ssrc).Ok?
    ensures Keeps(v, RegisteredSpec(v, conf, req, h, branch, now, ssrc).value)
  {
    RegisteredShape(v, conf, h, req, branch, now, ssrc);
    var w := RegisteredSpec(v, conf, req, h, branch, now, ssrc).value.written;
    assert w[..|v.written|] == w[..|v.written| + 1][..|v.written|];
  }

  lemma KeepsTransitive(u: SessionView, v: SessionView, w: SessionView)
    requires Keeps(u, v) && Keeps(v, w)
    ensures Keeps(u, w)
  {
    assert w.written[..|u.written|] == w.written[..|v.written|][..|u.written|];
  }

  /** Once the timers are armed the loop never panics: every REGISTER finds
      its timer. */
  lemma {:induction false} LoopNeverPanics(v: SessionView, conf: ServerConf, es: seq<Event>)
    requires v.timerRegister.Some?
    ensures ServeLoop(v, conf, es).Ok? && ServeLoop(v, conf, es).value.timerRegister.Some?
    decreases |es|
  {
    if es != [] && !IsStop(es[0]) {
      if es[0].ResponseArrived? {
        LoopNeverPanics(v, conf, es[1..]);
      } else {
        ProcessKeepsTimer(v, conf, es[0].req, es[0].branch, es[0].now, es[0].ssrc);
        var r := ProcessRequestSpec(v, conf, es[0].req, es[0].branch, es[0].now, es[0].ssrc);
        LoopNeverPanics(r.value, conf, es[1..]);
      }
    }
  }

  lemma ServeNeverPanics(v: SessionView, conf: ServerConf, es: seq<Event>)
    ensures ServeSpec(v, conf, es).Ok?
  {
    LoopNeverPanics(v.(timerRegister := Some(SipTimer.Seconds(RegisterTimeout)),
                       timerKeepalive := Some(SipTimer.Seconds(KeepaliveTimeout))), conf, es);
  }

  /** Serving never rewrites what was written, never changes who the device
      is, and never moves either state machine: session.go keeps its own
      copies of the state constants and calls none of the transitions. */
  lemma {:induction false} LoopKeeps(v: SessionView, conf: ServerConf, es: seq<Event>)
    requires ServeLoop(v, conf, es).Ok?
    ensures Keeps(v, ServeLoop(v, conf, es).value)
    decreases |es|
  {
    if es != [] && !IsStop(es[0]) {
      if es[0].ResponseArrived? {
        LoopKeeps(v, conf, es[1..]);
      } else {
        var r := ProcessRequestSpec(v, conf, es[0].req, es[0].branch, es[0].now, es[0].ssrc);
        ProcessKeeps(v, conf, es[0].req, es[0].branch, es[0].now, es[0].ssrc);
        LoopKeeps(r.value, conf, es[1..]);
        KeepsTransitive(v, r.value, ServeLoop(r.value, conf, es[1..]).value);
      }
    }
  }

  lemma ServeKeepsStates(v: SessionView, conf: ServerConf, es: seq<Event>)
    ensures ServeSpec(v, conf, es).Ok?
    ensures var w := ServeSpec(v, conf, es).value;
            w.sipState == v.sipState && w.invitePlayState == v.invitePlayState
            && w.clientId == v.clientId
            && |v.written| <= |w.written| && w.written[..|v.written|] == v.written
  {
    ServeNeverPanics(v, conf, es);
    LoopKeeps(v.(timerRegister := Some(SipTimer.Seconds(RegisterTimeout)),
                 timerKeepalive := Some(SipTimer.Seconds(KeepaliveTimeout))), conf, es);
  }

  /** Nothing after the first timer fire or cancellation is handled. */
  lemma {:induction false} LoopStopsAtStop(v: SessionView, conf: ServerConf, es: seq<Event>, i: nat)
    requires i < |es| && IsStop(es[i])
    ensures ServeLoop(v, conf, es) == ServeLoop(v, conf, es[..i])
    decreases i
  {
    if i > 0 && !IsStop(es[0]) {
      assert es[..i][0] == es[0] && es[..i][1..] == es[1..][..i - 1];
      if es[0].ResponseArrived? {
        LoopStopsAtStop(v, conf, es[1..], i - 1);
      } else {
        var r := ProcessRequestSpec(v, conf, es[0].req, es[0].branch, es[0].now, es[0].ssrc);
        if r.Ok? {
          LoopStopsAtStop(r.value, conf, es[1..], i - 1);
        }
      }
    }
  }

  /** Serve arms the register timer for 60 seconds and the keepalive timer
      for three minutes before the first event. */
  lemma ServeArmsTimers(v: SessionView, conf: ServerConf)
    ensures ServeSpec(v, conf, []) == Ok(v.(timerRegister := Some(60_000_000_000),
                                             timerKeepalive := Some(180_000_000_000)))
  {
    SipTimer.SecondsExact(RegisterTimeout);
    SipTimer.SecondsExact(KeepaliveTimeout);
  }

  /** A session whose first event is a REGISTER with an expires header
      answers it: Serve has armed the register timer, so the 200 OK is
      written after what the session had written, then the INVITE when the
      server pulls at once, and the request is kept as the register
      request. */
  lemma ServeAnswersRegister(v: SessionView, conf: ServerConf, req: Message.Request,
                             branch: string, now: string, ssrc: string)
    requires req.methodName == Message.REGISTER && Message.GetHeader(req.headers, "expires").Some?
    ensures var r := ServeSpec(v, conf, [RequestArrived(req, branch, now, ssrc)]);
            && r.Ok?
            && |r.value.written| == |v.written| + (if conf.pullImmediate then 2 else 1)
            && r.value.written[..|v.written| + 1] == v.written + [Message.ResponseMsg(RegisterOk(req))]
            && r.value.written[|v.written|] == Message.ResponseMsg(RegisterOk(req))
            && r.value.registerRequest == Some(req)
            && r.value.requests == v.requests
  {
    var armed := v.(timerRegister := Some(SipTimer.Seconds(RegisterTimeout)),
                    timerKeepalive := Some(SipTimer.Seconds(KeepaliveTimeout)));
    RegisterEffects(armed, conf, req, branch, now, ssrc);
    LoopOfOneRequest(armed, conf, RequestArrived(req, branch, now, ssrc));
    var w := ServeSpec(v, conf, [RequestArrived(req, branch, now, ssrc)]).value.written;
    assert w[|v.written|] == w[..|v.written| + 1][|v.written|];
  }

  /** A loop over one request is that request's handling. */
  lemma LoopOfOneRequest(v: SessionView, conf: ServerConf, e: Event)
    requires e.RequestArrived? && ProcessRequestSpec(v, conf, e.req, e.branch, e.now, e.ssrc).Ok?
    ensures ServeLoop(v, conf, [e]) == ProcessRequestSpec(v, conf, e.req, e.branch, e.now, e.ssrc)
  {
    var es := [e];
    assert es[0] == e && !IsStop(e) && !e.ResponseArrived?;
    assert es[1..] == [];
    var r := ProcessRequestSpec(v, conf, e.req, e.branch, e.now, e.ssrc);
    assert ServeLoop(v, conf, es) == ServeLoop(r.value, conf, []);
  }

  // ---------------------------------------------------------------------
  // The session object.

  class SipSession {
    var clientId: string
    var transport: string
    var source: string
    var peerIp: string
    var peerPort: int
    const conn: Connection
    var sipState: Fsm.SessionState
    var invitePlayState: Fsm.InviteState
    var registerRequest: Option<Message.Request>
    var timerRegister: Option<int>
    var timerKeepalive: Option<int>
    var requests: seq<Message.Request>
    var responses: seq<Message.Response>
    const conf: ServerConf

    function View(): SessionView
      reads this, conn
    {
      SessionView(clientId, transport, source, peerIp, peerPort, sipState, invitePlayState,
                  registerRequest, timerRegister, timerKeepalive, requests, responses, conn.written)
    }

    /** NewSipSession, once the connection was obtained: only the device id,
        the transport, the connection and the configuration are set; the
        peer address and source stay empty until a REGISTER. */
    constructor (clientId: string, transport: string, conn: Connection, conf: ServerConf)
      ensures this.conn == conn && this.conf == conf
      ensures View() == SessionView(clientId, transport, "", "", 0, Fsm.SessionInit, Fsm.InviteInit,
                                    None, None, None, [], [], conn.written)
    {
      this.clientId := clientId;
      this.transport := transport;
      source := "";
      peerIp := "";
      peerPort := 0;
      this.conn := conn;
      sipState := Fsm.SessionInit;
      invitePlayState := Fsm.InviteInit;
      registerRequest := None;
      timerRegister := None;
      timerKeepalive := None;
      requests := [];
      responses := [];
      this.conf := conf;
    }

    method RefreshSessionInfo(req: Message.Request)
      modifies this
      ensures View() == RefreshSpec(old(View()), req)
    {
      source := Message.Source(req);
      var via := Message.TopVia(req.headers);
      if via.Some? {
        peerIp := via.value.host;
        peerPort := via.value.port;
      }
    }

    method SendInvite(branch: string, now: string, ssrc: string) returns (err: Option<Error>)
      modifies conn
      ensures var s := SendInviteSpec(old(View()), conf, branch, now, ssrc);
              (s.Ok? ==> err.None? && View() == s.value) && (s.Err? ==> err == Some(s.error))
    {
      if registerRequest.None? {
        return Some(Panic("nil register request"));
      }
      var sender := UriOf(conf.serverId, conf.serverIp, conf.serverPort);
      var recipient := UriOf(clientId, peerIp, peerPort);
      var body := Sdp.Builder(PlayOffer(conf, ssrc));
      var req := Builders.NewInviteRequest(sender, recipient, Message.Transport(registerRequest.value),
                                           Some(body), branch, now);
      req := req.(destination := source);
      req := req.(transport := transport);
      conn.WriteMsg(Message.RequestMsg(req));
      return None;
    }

    /** The REGISTER branch of processRequest, past its two early exits. */
    method Register(req: Message.Request, expires: Message.Header, branch: string, now: string, ssrc: string)
      returns (err: Option<Error>)
      modifies this, conn
      ensures var s := RegisteredSpec(old(View()), conf, req, expires, branch, now, ssrc);
              (s.Ok? ==> err.None? && View() == s.value) && (s.Err? ==> err == Some(s.error))
    {
      // An Atoi error is only logged: its value is used regardless.
      ghost var v0 := View();
      var parsed := Numbers.Atoi(Message.HeaderValue(expires));
      timerRegister := Some(SipTimer.Seconds(parsed.value));
      conn.WriteMsg(Message.ResponseMsg(RegisterOk(req)));
      registerRequest := Some(req);
      assert View() == v0.(timerRegister := Some(ExpiresNanos(expires)),
                           written := v0.written + [Message.ResponseMsg(RegisterOk(req))],
                           registerRequest := Some(req));
      RefreshSessionInfo(req);
      assert View() == Answered(v0, req, expires);
      if conf.pullImmediate {
        err := SendInvite(branch, now, ssrc);
        return;
      }
      return None;
    }

    method ProcessRequest(req: Message.Request, branch: string, now: string, ssrc: string) returns (err: Option<Error>)
      modifies this, conn
      ensures var s := ProcessRequestSpec(old(View()), conf, req, branch, now, ssrc);
              (s.Ok? ==> err.None? && View() == s.value) && (s.Err? ==> err == Some(s.error))
    {
      if req.methodName == Message.REGISTER {
        var expires := Message.GetHeader(req.headers, "expires");
        if expires.None? {
          return None;
        }
        if timerRegister.None? {
          return Some(Panic("nil register timer"));
        }
        err := Register(req, expires.value, branch, now, ssrc);
        return;
      }
      // A MESSAGE body is decoded and printed, which changes nothing.
      return None;
    }

    /** processResponse has an empty body. */
    method ProcessResponse(res: Message.Response)
      ensures View() == old(View())
    {
    }

    method Serve(events: seq<Event>) returns (err: Option<Error>)
      modifies this, conn
      ensures var s := ServeSpec(old(View()), conf, events);
              (s.Ok? ==> err.None? && View() == s.value) && (s.Err? ==> err == Some(s.error))
    {
      timerRegister := Some(SipTimer.Seconds(RegisterTimeout));
      timerKeepalive := Some(SipTimer.Seconds(KeepaliveTimeout));
      var i := 0;
      while i < |events|
        invariant 0 <= i <= |events|
        invariant ServeLoop(View(), conf, events[i..]) == ServeSpec(old(View()), conf, events)
        decreases |events| - i
      {
        var e := events[i];
        assert events[i..][0] == e && events[i..][1..] == events[i + 1..];
        if IsStop(e) {
          return None;
        }
        if e.ResponseArrived? {
          ProcessResponse(e.res);
        } else {
          var failed := ProcessRequest(e.req, e.branch, e.now, e.ssrc);
          if failed.Some? {
            return failed;
          }
        }
        i := i + 1;
      }
      return None;
    }
  }
}
