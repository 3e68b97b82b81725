/** sip_server/server.go: the registry of device sessions. A request is
    routed by the user part of its From URI, a response by the user part of
    its To URI, and the HTTP side finds a session by device id.

    As written, a session created for an unknown device is started but
    never put in the map, so the device is never found again. The registry
    is modelled by its key set for the properties about that. */
module Server {
  import opened Common
  import Message
  import Session

  /** NewSipServer's configuration; the local address is an input. */
  function DefaultConf(serverIp: string): (c: Session.ServerConf)
    ensures c.serverIp == serverIp && c.pullImmediate
  {
    Session.ServerConf("34020000002000000001", 5060, serverIp, "3402000000", true)
  }

  /** What fetchOrCreateSession finds for a request. */
  datatype Lookup = NoFrom | Found(key: string) | Unknown(key: string)

  /** The registry key of a request: its From URI's user. */
  function LookupRequest(known: set<string>, req: Message.Request): (r: Lookup)
    ensures r.NoFrom? <==> Message.FromOf(req.headers).None?
    ensures !r.NoFrom? ==> r.key == Message.FromOf(req.headers).value.address.user
    ensures r.Found? <==> !r.NoFrom? && r.key in known
  {
    var from := Message.FromOf(req.headers);
    if from.None? then NoFrom
    else if from.value.address.user in known then Found(from.value.address.user)
    else Unknown(from.value.address.user)
  }

  /** The keys after one fetchOrCreateSession whose connection succeeded:
      as written (`store` false) nothing is added; the corrected registry
      adds the device it created a session for. */
  function KnownAfter(known: set<string>, req: Message.Request, store: bool): (r: set<string>)
    ensures known <= r
    ensures r == known <==> !store || !LookupRequest(known, req).Unknown?
  {
    var l := LookupRequest(known, req);
    if store && l.Unknown? then known + {l.key} else known
  }

  /** How many sessions a run of requests creates, every connection
      succeeding. */
  function Creations(known: set<string>, reqs: seq<Message.Request>, store: bool): (n: nat)
    ensures n <= |reqs|
    decreases |reqs|
  {
    if reqs == [] then 0
    else
      var here := if LookupRequest(known, reqs[0]).Unknown? then 1 else 0;
      here + Creations(KnownAfter(known, reqs[0], store), reqs[1..], store)
  }

  predicate AllFrom(reqs: seq<Message.Request>, device: string) {
    forall i :: 0 <= i < |reqs| ==>
      Message.FromOf(reqs[i].headers).Some? && Message.FromOf(reqs[i].headers).value.address.user == device
  }

  /** As written: every request of a device the registry does not know
      creates, and starts, a new session; the device is never known. */
  lemma {:induction false} EveryRequestCreates(known: set<string>, reqs: seq<Message.Request>, device: string)
    requires AllFrom(reqs, device) && device !in known
    ensures Creations(known, reqs, false) == |reqs|
    decreases |reqs|
  {
    if reqs != [] {
      assert AllFrom(reqs[1..], device) by {
        forall i | 0 <= i < |reqs[1..]| ensures Message.FromOf(reqs[1..][i].headers).Some? {
          assert reqs[1..][i] == reqs[i + 1];
        }
      }
      EveryRequestCreates(known, reqs[1..], device);
    }
  }

  /** Corrected: only the device's first request creates a session; every
      later one finds it. */
  lemma {:induction false} FirstRequestCreates(known: set<string>, reqs: seq<Message.Request>, device: string)
    requires AllFrom(reqs, device) && device !in known
    ensures Creations(known, reqs, true) == if reqs == [] then 0 else 1
  {
    if reqs != [] {
      var k := KnownAfter(known, reqs[0], true);
      assert device in k;
      assert AllFrom(reqs[1..], device) by {
        forall i | 0 <= i < |reqs[1..]| ensures Message.FromOf(reqs[1..][i].headers).Some? {
          assert reqs[1..][i] == reqs[i + 1];
        }
      }
      KnownDeviceNotCreated(k, reqs[1..], device);
    }
  }

  lemma {:induction false} KnownDeviceNotCreated(known: set<string>, reqs: seq<Message.Request>, device: string)
    requires AllFrom(reqs, device) && device in known
    ensures Creations(known, reqs, true) == 0
    decreases |reqs|
  {
    if reqs != [] {
      assert AllFrom(reqs[1..], device) by {
        forall i | 0 <= i < |reqs[1..]| ensures Message.FromOf(reqs[1..][i].headers).Some? {
          assert reqs[1..][i] == reqs[i + 1];
        }
      }
      KnownDeviceNotCreated(KnownAfter(known, reqs[0], true), reqs[1..], device);
    }
  }

  class SipServer {
    var sessions: map<string, Session.SipSession>
    const conf: Session.ServerConf

    /** The registry part of NewSipServer: no session yet. */
    constructor (conf: Session.ServerConf)
      ensures sessions == map[] && this.conf == conf
    {
      sessions := map[];
      this.conf := conf;
    }

    /** fetchSessionByDeviceId: the stored session, or an error naming the
        id. */
    function FetchSessionByDeviceId(id: string): (r: Result<Session.SipSession>)
      reads this
      ensures r.Ok? <==> id in sessions
      ensures r.Ok? ==> r.value == sessions[id]
      ensures r.Err? ==> r.error == SessionNotFound(id)
    {
      if id in sessions then Ok(sessions[id]) else Err(SessionNotFound(id))
    }

    /** fetchSessionByResponse: by the To URI's user; a response never
        creates a session. */
    function FetchSessionByResponse(res: Message.Response): (r: Result<Session.SipSession>)
      reads this
      ensures Message.ToOf(res.headers).None? ==> r == Err(MissingHeader("To"))
      ensures Message.ToOf(res.headers).Some? ==>
                var key := Message.ToOf(res.headers).value.address.user;
                r == FetchSessionByDeviceId(key)
    {
      var to := Message.ToOf(res.headers);
      if to.None? then Err(MissingHeader("To"))
      else FetchSessionByDeviceId(to.value.address.user)
    }

    /** fetchOrCreateSession, as written. `connected` says whether the
        transport gave NewSipSession a connection. A new session is started
        (its Serve loop is not part of this model) and returned, but the
        map is left as it was. */
    method FetchOrCreateSession(req: Message.Request, connected: bool) returns (r: Result<Session.SipSession>)
      ensures sessions == old(sessions)
      ensures sessions.Keys == KnownAfter(sessions.Keys, req, false)
      ensures var l := LookupRequest(sessions.Keys, req);
              && (l.NoFrom? ==> r == Err(MissingHeader("From")))
              && (l.Found? ==> r == Ok(sessions[l.key]))
              && (l.Unknown? && !connected ==> r == Err(SessionCreateFailed))
              && (l.Unknown? && connected ==>
                    r.Ok? && fresh(r.value) && fresh(r.value.conn) && r.value.conf == conf
                    && r.value.View() == NewSessionView(l.key, req))
    {
      var from := Message.FromOf(req.headers);
      if from.None? {
        return Err(MissingHeader("From"));
      }
      var clientId := from.value.address.user;
      if clientId in sessions {
        return Ok(sessions[clientId]);
      }
      r := NewSipSession(clientId, req, connected);
    }

    /** fetchOrCreateSession with the new session stored under its key. */
    method FetchOrCreateSessionFixed(req: Message.Request, connected: bool) returns (r: Result<Session.SipSession>)
      modifies this
      ensures var l := LookupRequest(old(sessions.Keys), req);
              && (l.NoFrom? ==> r == Err(MissingHeader("From")) && sessions == old(sessions))
              && (l.Found? ==> sessions == old(sessions) && r == Ok(sessions[l.key]))
              && (l.Unknown? && !connected ==> r == Err(SessionCreateFailed) && sessions == old(sessions))
              && (l.Unknown? && connected ==>
                    r.Ok? && fresh(r.value) && sessions == old(sessions)[l.key := r.value]
                    && sessions.Keys == KnownAfter(old(sessions.Keys), req, true)
                    && r.value.View() == NewSessionView(l.key, req))
    {
      var from := Message.FromOf(req.headers);
      if from.None? {
        return Err(MissingHeader("From"));
      }
      var clientId := from.value.address.user;
      if clientId in sessions {
        return Ok(sessions[clientId]);
      }
      r := NewSipSession(clientId, req, connected);
      if r.Ok? {
        sessions := sessions[clientId := r.value];
      }
    }

    /** What a session created for a request starts with. */
    static function NewSessionView(clientId: string, req: Message.Request): Session.SessionView {
      Session.SessionView(clientId, Message.Transport(req), "", "", 0, Session.Fsm.SessionInit,
                          Session.Fsm.InviteInit, None, None, None, [], [], [])
    }

    /** NewSipSession: nil when the transport has no connection for the
        request's transport and source. */
    method NewSipSession(clientId: string, req: Message.Request, connected: bool) returns (r: Result<Session.SipSession>)
      ensures !connected ==> r == Err(SessionCreateFailed)
      ensures connected ==> r.Ok? && fresh(r.value) && fresh(r.value.conn) && r.value.conf == conf
                            && r.value.View() == NewSessionView(clientId, req)
    {
      if !connected {
        return Err(SessionCreateFailed);
      }
      var conn := new Session.Connection();
      var sess := new Session.SipSession(clientId, Message.Transport(req), conn, conf);
      return Ok(sess);
    }

    /** handleRequest: the request is queued on the session found for it,
        or on the session created for it; the error is always nil. A new
        session (`created`) is not stored, so only its own Serve loop ever
        sees the request; every stored session is left as it was. */
    method HandleRequest(req: Message.Request, connected: bool) returns (err: Option<Error>, ghost created: Option<Session.SipSession>)
      modifies sessions.Values
      ensures err.None?
      ensures sessions == old(sessions)
      ensures var l := LookupRequest(sessions.Keys, req);
              && (l.Found? ==>
                    (created.None?
                     && sessions[l.key].View() == old(sessions[l.key].View()).(requests := old(sessions[l.key].requests) + [req])))
              && (l.Unknown? && connected ==>
                    (created.Some? && fresh(created.value)
                     && created.value.View() == NewSessionView(l.key, req).(requests := [req])))
              && ((l.NoFrom? || (l.Unknown? && !connected)) ==> created.None?)
              && (forall s :: s in sessions.Values && (l.Found? ==> s != sessions[l.key]) ==> s.View() == old(s.View()))
    {
      created := None;
      var r := FetchOrCreateSession(req, connected);
      if r.Ok? {
        var sess := r.value;
        sess.requests := sess.requests + [req];
        if LookupRequest(sessions.Keys, req).Unknown? {
          created := Some(sess);
        }
      }
      return None, created;
    }

    /** handleResponse: the response is queued on the session of its To
        user, or the lookup error is returned. */
    method HandleResponse(res: Message.Response) returns (err: Option<Error>)
      modifies sessions.Values
      ensures sessions == old(sessions)
      ensures var f := old(FetchSessionByResponse(res));
              && (f.Err? ==> err == Some(f.error))
              && (f.Ok? ==> err.None? && f.value.View() == old(f.value.View()).(responses := old(f.value.responses) + [res]))
              && (forall s :: s in sessions.Values && (f.Ok? ==> s != f.value) ==> s.View() == old(s.View()))
    {
      var f := FetchSessionByResponse(res);
      if f.Err? {
        return Some(f.error);
      }
      var sess := f.value;
      sess.responses := sess.responses + [res];
      return None;
    }

    /** OnDeviceDestroyed: only the given key leaves the map. */
    method OnDeviceDestroyed(device: string)
      modifies this
      ensures sessions == old(sessions) - {device}
    {
      sessions := sessions - {device};
    }

    /** OnRecvHttpInvite: the device's session sends its INVITE; without a
        session the lookup error comes back wrapped. A session that has not
        registered yet panics instead, which is returned here as its error. */
    method OnRecvHttpInvite(device: string, channel: string, branch: string, now: string, ssrc: string)
      returns (err: Option<Error>)
      modifies if device in sessions then {sessions[device].conn} else {}
      ensures sessions == old(sessions)
      ensures device !in sessions ==> err == Some(Wrapped("fetch sess by id", SessionNotFound(device)))
      ensures device in sessions ==>
                var s := Session.SendInviteSpec(old(sessions[device].View()), sessions[device].conf, branch, now, ssrc);
                (s.Ok? ==> err.None? && sessions[device].View() == s.value) && (s.Err? ==> err == Some(s.error))
    {
      var f := FetchSessionByDeviceId(device);
      if f.Err? {
        return Some(Wrapped("fetch sess by id", f.error));
      }
      err := f.value.SendInvite(branch, now, ssrc);
    }
  }

  /** The session created for an unknown device's REGISTER serves that one
      request: once Serve has armed its timers, the REGISTER is answered
      with 200 OK, followed by the INVITE when the server pulls at once. */
  lemma NewSessionAnswersRegister(key: string, req: Message.Request, conf: Session.ServerConf,
                                  branch: string, now: string, ssrc: string)
    requires req.methodName == Message.REGISTER && Message.GetHeader(req.headers, "expires").Some?
    ensures var r := Session.ServeSpec(SipServer.NewSessionView(key, req).(requests := [req]), conf,
                                       [Session.RequestArrived(req, branch, now, ssrc)]);
            && r.Ok?
            && |r.value.written| == (if conf.pullImmediate then 2 else 1)
            && r.value.written[0] == Message.ResponseMsg(Session.RegisterOk(req))
            && r.value.registerRequest == Some(req)
            && r.value.requests == [req]
  {
    var v := SipServer.NewSessionView(key, req).(requests := [req]);
    assert v.written == [];
    Session.ServeAnswersRegister(v, conf, req, branch, now, ssrc);

  }
}
