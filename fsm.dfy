/** The session and INVITE state machines of sip/spin_fsm.go: each event
    is a pointer-receiver method that overwrites the state. Here each is a
    case of a pure step function, and the machines are small classes whose
    methods apply it to their `state` field. */
module Fsm {

  /** SessionState, in iota order. */
  datatype SessionState = SessionInit | SessionRegister | SessionAlive | SessionDestroy

  /** InviteState, in iota order. */
  datatype InviteState = InviteInit | InviteStart | InviteTrying | InviteOk | InviteDone

  /** The constant's value in the Go iota block. */
  function SessionOrdinal(s: SessionState): nat {
    match s
    case SessionInit => 0
    case SessionRegister => 1
    case SessionAlive => 2
    case SessionDestroy => 3
  }

  function InviteOrdinal(s: InviteState): nat {
    match s
    case InviteInit => 0
    case InviteStart => 1
    case InviteTrying => 2
    case InviteOk => 3
    case InviteDone => 4
  }

  datatype SessionEvent = Timeout | Register | Unregister | Keepalive

  datatype InviteEvent = Invite | Trying | OK | Done

  /** OnTimeout and OnUnregister destroy the session from any state,
      OnRegister moves Init to Register and OnKeepalive Register to Alive;
      every other case leaves the state alone. */
  function SessionStep(s: SessionState, e: SessionEvent): SessionState {
    match e
    case Timeout => SessionDestroy
    case Unregister => SessionDestroy
    case Register => if s == SessionInit then SessionRegister else s
    case Keepalive => if s == SessionRegister then SessionAlive else s
  }

  /** OnInvite restarts from any state, Done included; OnInviteTrying moves
      Start to Trying, OnInviteOK Start or Trying to Ok, OnInviteDone Ok to
      Done. */
  function InviteStep(s: InviteState, e: InviteEvent): InviteState {
    match e
    case Invite => InviteStart
    case Trying => if s == InviteStart then InviteTrying else s
    case OK => if s == InviteStart || s == InviteTrying then InviteOk else s
    case Done => if s == InviteOk then InviteDone else s
  }

  function SessionRun(s: SessionState, es: seq<SessionEvent>): SessionState
    decreases |es|
  {
    if es == [] then s else SessionRun(SessionStep(s, es[0]), es[1..])
  }

  function InviteRun(s: InviteState, es: seq<InviteEvent>): InviteState
    decreases |es|
  {
    if es == [] then s else InviteRun(InviteStep(s, es[0]), es[1..])
  }

  /** Each session event changes the state exactly in the cases the source
      names: Destroy after Timeout or Unregister, Register only out of Init,
      Alive only out of Register. */
  lemma SessionStepCases(s: SessionState, e: SessionEvent)
    ensures (e == Timeout || e == Unregister) ==> SessionStep(s, e) == SessionDestroy
    ensures e == Register ==> (SessionStep(s, e) != s <==> s == SessionInit)
    ensures e == Register && s == SessionInit ==> SessionStep(s, e) == SessionRegister
    ensures e == Keepalive ==> (SessionStep(s, e) != s <==> s == SessionRegister)
    ensures e == Keepalive && s == SessionRegister ==> SessionStep(s, e) == SessionAlive
  {
  }

  /** A session never goes back: each event keeps or raises the state's
      ordinal. */
  lemma SessionStepForward(s: SessionState, e: SessionEvent)
    ensures SessionOrdinal(SessionStep(s, e)) >= SessionOrdinal(s)
  {
  }

  lemma {:induction false} SessionRunForward(s: SessionState, es: seq<SessionEvent>)
    ensures SessionOrdinal(SessionRun(s, es)) >= SessionOrdinal(s)
    decreases |es|
  {
    if es != [] {
      SessionStepForward(s, es[0]);
      SessionRunForward(SessionStep(s, es[0]), es[1..]);
    }
  }

  /** Destroy is absorbing: no sequence of events leads out of it. */
  lemma {:induction false} DestroyAbsorbing(es: seq<SessionEvent>)
    ensures SessionRun(SessionDestroy, es) == SessionDestroy
    decreases |es|
  {
    if es != [] {
      DestroyAbsorbing(es[1..]);
    }
  }

  /** A fresh session reaches Alive only by a Register followed, later, by
      a Keepalive. */
  lemma {:induction false} AliveNeedsRegisterThenKeepalive(s: SessionState, es: seq<SessionEvent>)
    requires s == SessionInit || s == SessionRegister
    requires SessionRun(s, es) == SessionAlive
    ensures s == SessionInit ==> exists i, j :: 0 <= i < j < |es| && es[i] == Register && es[j] == Keepalive
    ensures s == SessionRegister ==> exists j :: 0 <= j < |es| && es[j] == Keepalive
    decreases |es|
  {
    assert es != [];
    var t := SessionStep(s, es[0]);
    if t == SessionDestroy {
      DestroyAbsorbing(es[1..]);
    } else if t == SessionAlive {
      assert s == SessionRegister && es[0] == Keepalive;
    } else {
      AliveNeedsRegisterThenKeepalive(t, es[1..]);
      if s == SessionInit {
        if t == SessionInit {
          var i, j :| 0 <= i < j < |es[1..]| && es[1..][i] == Register && es[1..][j] == Keepalive;
          assert es[i + 1] == Register && es[j + 1] == Keepalive;
        } else {
          assert es[0] == Register;
          var j :| 0 <= j < |es[1..]| && es[1..][j] == Keepalive;
          assert es[j + 1] == Keepalive;
        }
      } else {
        var j :| 0 <= j < |es[1..]| && es[1..][j] == Keepalive;
        assert es[j + 1] == Keepalive;
      }
    }
  }

  /** Each INVITE event changes the state exactly in the cases the source
      names. */
  lemma InviteStepCases(s: InviteState, e: InviteEvent)
    ensures e == Invite ==> InviteStep(s, e) == InviteStart
    ensures e == Trying ==> (InviteStep(s, e) != s <==> s == InviteStart)
    ensures e == OK ==> (InviteStep(s, e) != s <==> s == InviteStart || s == InviteTrying)
    ensures e == OK && InviteStep(s, e) != s ==> InviteStep(s, e) == InviteOk
    ensures e == Done ==> (InviteStep(s, e) != s <==> s == InviteOk)
    ensures e == Done && s == InviteOk ==> InviteStep(s, e) == InviteDone
  {
  }

  /** Between two OnInvite events the INVITE state only goes forward. */
  lemma {:induction false} InviteRunForward(s: InviteState, es: seq<InviteEvent>)
    requires forall i :: 0 <= i < |es| ==> es[i] != Invite
    ensures InviteOrdinal(InviteRun(s, es)) >= InviteOrdinal(s)
    decreases |es|
  {
    if es != [] {
      assert InviteOrdinal(InviteStep(s, es[0])) >= InviteOrdinal(s);
      InviteRunForward(InviteStep(s, es[0]), es[1..]);
    }
  }

  /** Nothing leaves Init but OnInvite: an INVITE state that moved on has
      seen one. */
  lemma {:induction false} InviteNeedsOnInvite(es: seq<InviteEvent>)
    requires InviteRun(InviteInit, es) != InviteInit
    ensures exists i :: 0 <= i < |es| && es[i] == Invite
    decreases |es|
  {
    assert es != [];
    if es[0] != Invite {
      assert InviteStep(InviteInit, es[0]) == InviteInit;
      InviteNeedsOnInvite(es[1..]);
      var i :| 0 <= i < |es[1..]| && es[1..][i] == Invite;
      assert es[i + 1] == Invite;
    }
  }

  /** `*SessionState` with its four methods. */
  class SessionMachine {
    var state: SessionState

    constructor ()
      ensures state == SessionInit
    {
      state := SessionInit;
    }

    method OnTimeout()
      modifies this
      ensures state == SessionStep(old(state), Timeout)
    {
      state := SessionDestroy;
    }

    method OnRegister()
      modifies this
      ensures state == SessionStep(old(state), Register)
    {
      match state {
        case SessionInit => state := SessionRegister;
        case _ =>
      }
    }

    method OnUnregister()
      modifies this
      ensures state == SessionStep(old(state), Unregister)
    {
      state := SessionDestroy;
    }

    method OnKeepalive()
      modifies this
      ensures state == SessionStep(old(state), Keepalive)
    {
      match state {
        case SessionRegister => state := SessionAlive;
        case _ =>
      }
    }
  }

  /** `*InviteState` with its four methods. */
  class InviteMachine {
    var state: InviteState

    constructor ()
      ensures state == InviteInit
    {
      state := InviteInit;
    }

    method OnInvite()
      modifies this
      ensures state == InviteStep(old(state), Invite)
    {
      state := InviteStart;
    }

    method OnInviteTrying()
      modifies this
      ensures state == InviteStep(old(state), Trying)
    {
      match state {
        case InviteStart => state := InviteTrying;
        case _ =>
      }
    }

    method OnInviteOK()
      modifies this
      ensures state == InviteStep(old(state), OK)
    {
      match state {
        case InviteStart => state := InviteOk;
        case InviteTrying => state := InviteOk;
        case _ =>
      }
    }

    method OnInviteDone()
      modifies this
      ensures state == InviteStep(old(state), Done)
    {
      match state {
        case InviteOk => state := InviteDone;
        case _ =>
      }
    }
  }
}
