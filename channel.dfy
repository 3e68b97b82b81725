/** sip_server/channle.go: a video channel of a registered device. Its one
    operation sends the device the same live-play INVITE its session would,
    and remembers it. */
module Channel {
  import opened Common
  import Message
  import Builders
  import Sdp
  import Fsm
  import Session

  class SipChannel {
    const session: Session.SipSession
    var channelId: string
    var invitePlayState: Fsm.InviteState
    var invitePlayRequest: Option<Message.Request>
    var invitePlayResponse: Option<Message.Response>
    var channelPlayState: Fsm.InviteState
    var channelPlaybackState: Fsm.InviteState
    var channelDownloadState: Fsm.InviteState

    /** The zero value of the struct, tied to its session. */
    constructor (session: Session.SipSession, channelId: string)
      ensures this.session == session && this.channelId == channelId
      ensures invitePlayRequest.None? && invitePlayResponse.None?
      ensures invitePlayState == Fsm.InviteInit && channelPlayState == Fsm.InviteInit
      ensures channelPlaybackState == Fsm.InviteInit && channelDownloadState == Fsm.InviteInit
    {
      this.session := session;
      this.channelId := channelId;
      invitePlayState := Fsm.InviteInit;
      invitePlayRequest := None;
      invitePlayResponse := None;
      channelPlayState := Fsm.InviteInit;
      channelPlaybackState := Fsm.InviteInit;
      channelDownloadState := Fsm.InviteInit;
    }

    /** SipChannel.SendInvite: exactly one INVITE, the session's, is written
        to the session's connection and kept as the channel's play request;
        no state field of the channel moves, and the session changes only
        by what its connection carried. Before the session registered,
        reading its register request's transport panics and nothing is
        written. */
    method SendInvite(branch: string, now: string, ssrc: string) returns (err: Option<Error>)
      modifies this, session.conn
      ensures var inv := Session.SessionInvite(old(session.View()), session.conf, branch, now, ssrc);
              && (inv.Err? ==> err == Some(inv.error) && session.conn.written == old(session.conn.written)
                                 && invitePlayRequest == old(invitePlayRequest))
              && (inv.Ok? ==> err.None? && session.conn.written == old(session.conn.written) + [Message.RequestMsg(inv.value)]
                                && invitePlayRequest == Some(inv.value))
      ensures session.View() == old(session.View()).(written := session.conn.written)
      ensures channelId == old(channelId) && invitePlayResponse == old(invitePlayResponse)
      ensures invitePlayState == old(invitePlayState) && channelPlayState == old(channelPlayState)
      ensures channelPlaybackState == old(channelPlaybackState) && channelDownloadState == old(channelDownloadState)
    {
      var sess := session;
      if sess.registerRequest.None? {
        return Some(Panic("nil register request"));
      }
      var sender := Session.UriOf(sess.conf.serverId, sess.conf.serverIp, sess.conf.serverPort);
      var recipient := Session.UriOf(sess.clientId, sess.peerIp, sess.peerPort);
      var body := Sdp.Builder(Session.PlayOffer(sess.conf, ssrc));
      var req := Builders.NewInviteRequest(sender, recipient, Message.Transport(sess.registerRequest.value),
                                           Some(body), branch, now);
      req := req.(destination := sess.source);
      req := req.(transport := sess.transport);
      sess.conn.WriteMsg(Message.RequestMsg(req));
      invitePlayRequest := Some(req);
      return None;
    }
  }
}
