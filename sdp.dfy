/** body/sdp.go: the SDP body of a GB28181 INVITE, written by a fixed
    template of twelve CRLF-terminated lines. */
module Sdp {
  import Text
  import Numbers

  // The iota blocks the f= line reads. CRLF takes iota 0 in the first
  // block, so the codecs start at 2.
  const CODEC_MPEG4: int := 1 + 1
  const CODEC_H264: int := 2 + 1
  const RESOLUTION_1080P: int := 5 + 1
  const CBR: int := 0 + 1
  const G711: int := 0 + 1
  const AUDIO_BIT_RATE_64000: int := 7 + 1
  const AUDIO_SAMPLE_8000: int := 0 + 1

  /** Package variables, at their initial values: nothing in this model
      assigns them. */
  const FRAME_RATE: int := 25
  const BIT_RATE: int := 20

  const SendOnly: string := "send_only"
  const RecvOnly: string := "recv_only"
  const SendRecv: string := "sendrecv"
  const Play: string := "Play"
  const Playback: string := "Playback"
  const Download: string := "Download"
  const Talk: string := "Talk"

  datatype SDP = SDP(version: int, ownerId: string, ownerHost: string, ownerPort: int,
                     ssrc: string, sendOnly: string, session: string)

  /** The f= line: `f=v/codec/resolution/frame rate/bit rate type/bit
      rate` then `a/codec/bit rate/sample rate` for audio. */
  function FLine(): string {
    "f=v/" + Numbers.IntToString(CODEC_H264) + "/" + Numbers.IntToString(RESOLUTION_1080P)
    + "/" + Numbers.IntToString(FRAME_RATE) + "/" + Numbers.IntToString(CBR)
    + "/" + Numbers.IntToString(BIT_RATE) + "a/" + Numbers.IntToString(G711)
    + "/" + Numbers.IntToString(AUDIO_BIT_RATE_64000) + "/" + Numbers.IntToString(AUDIO_SAMPLE_8000)
  }

  /** The fmt.Sprintf results SDP.Builder writes, in order. */
  function Lines(sdp: SDP): seq<string> {
    [ "v=" + Numbers.IntToString(sdp.version),
      "o=" + sdp.ownerId + " 0 0 IN IP4 " + sdp.ownerHost,
      "s=" + sdp.session,
      "c=IN IP4 " + sdp.ownerHost,
      "t=" + Numbers.IntToString(0) + " " + Numbers.IntToString(0),
      "m=video " + Numbers.IntToString(sdp.ownerPort) + " RTP/AVP 96 97 98",
      "a=" + sdp.sendOnly,
      "a=rtpmap:96 PS/90000",
      "a=rtpmap:97 H264/90000",
      "a=rtpmap:98 MPEG4/90000",
      "y=" + sdp.ssrc,
      FLine() ]
  }

  /** SDP.Builder: each line written with CRLF after it. */
  function Builder(sdp: SDP): string {
    Terminated(Lines(sdp))
  }

  /** Lines, each followed by CRLF. */
  function Terminated(lines: seq<string>): string
    decreases |lines|
  {
    if lines == [] then "" else lines[0] + Text.CRLF + Terminated(lines[1..])
  }

  /** Text cut at each CRLF into the lines before it; whatever follows the
      last CRLF is a line of its own. */
  function SplitLines(t: string): seq<string>
    decreases |t|
  {
    if t == [] then []
    else
      var i := Text.IndexOf(t, '\r');
      if i < 0 || i + 1 >= |t| || t[i + 1] != '\n' then [t]
      else [t[..i]] + SplitLines(t[i + 2..])
  }

  predicate NoCR(s: string) { '\r' !in s }

  /** Cutting CRLF-terminated lines without a CR of their own gives the
      lines back. */
  lemma {:induction false} SplitTerminated(lines: seq<string>)
    requires forall k :: 0 <= k < |lines| ==> NoCR(lines[k])
    ensures SplitLines(Terminated(lines)) == lines
    decreases |lines|
  {
    if lines != [] {
      var rest := Terminated(lines[1..]);
      var t := Terminated(lines);
      assert t == lines[0] + ['\r'] + (['\n'] + rest);
      Text.IndexOfSplit(lines[0], '\r', ['\n'] + rest);
      var i := |lines[0]|;
      assert t[..i] == lines[0] && t[i + 1] == '\n' && t[i + 2..] == rest;
      SplitTerminated(lines[1..]);
    }
  }

  /** The constants print as the f= line the GB28181 template expects. */
  lemma FLineIsFixed()
    ensures FLine() == "f=v/3/6/25/1/20a/1/8/1"
  {
    assert Numbers.NatToString(2) == "2" && Numbers.NatToString(25) == "25" && Numbers.NatToString(20) == "20";
  }

  /** Each line is a one-letter type, then `=`. */
  lemma LinesTyped(sdp: SDP)
    ensures var ls := Lines(sdp);
            |ls| == 12 && forall k :: 0 <= k < 12 ==> |ls[k]| >= 2 && ls[k][1] == '='
  {
    var ls := Lines(sdp);
    assert |ls[0]| >= 2 && ls[0][1] == '=';
    assert |ls[5]| >= 2 && ls[5][1] == '=';
    assert |ls[11]| >= 2 && ls[11][1] == '=';
  }

  /** Builder writes twelve lines, v o s c t m a a a a y f. */
  lemma LinesShape(sdp: SDP)
    ensures var ls := Lines(sdp);
            && |ls| == 12
            && (forall k :: 0 <= k < 12 ==> |ls[k]| >= 2 && ls[k][1] == '=')
            && ls[0][0] == 'v' && ls[1][0] == 'o' && ls[2][0] == 's' && ls[3][0] == 'c'
            && ls[4][0] == 't' && ls[5][0] == 'm' && ls[10][0] == 'y' && ls[11][0] == 'f'
            && (forall k :: 6 <= k < 10 ==> ls[k][0] == 'a')
  {
    LinesTyped(sdp);
  }

  /** The t= line is always `t=0 0` and the f= line the fixed one. */
  lemma FixedLines(sdp: SDP)
    ensures Lines(sdp)[4] == "t=0 0" && Lines(sdp)[11] == "f=v/3/6/25/1/20a/1/8/1"
  {
    FLineIsFixed();
    assert Numbers.IntToString(0) == "0";
  }

  lemma NoCRAppend(a: string, b: string)
    ensures NoCR(a + b) <==> NoCR(a) && NoCR(b)
  {
  }

  lemma NumberNoCR(i: int)
    ensures NoCR(Numbers.IntToString(i))
  {
    Numbers.IntToStringChars(i);
  }

  /** The lines the template writes without a field have no CR. */
  lemma FixedLinesNoCR(sdp: SDP)
    ensures NoCR(Lines(sdp)[4]) && NoCR(Lines(sdp)[7]) && NoCR(Lines(sdp)[8])
    ensures NoCR(Lines(sdp)[9]) && NoCR(Lines(sdp)[11])
  {
    RtpmapLinesNoCR(sdp);
    FixedLines(sdp);
    assert NoCR("t=0 0");
    assert NoCR("f=v/3/6/25/1/20a/1/8/1");
  }

  lemma RtpmapLinesNoCR(sdp: SDP)
    ensures NoCR(Lines(sdp)[7]) && NoCR(Lines(sdp)[8]) && NoCR(Lines(sdp)[9])
  {
    assert Lines(sdp)[7] == "a=rtpmap:96 PS/90000";
    assert Lines(sdp)[8] == "a=rtpmap:97 H264/90000";
    assert Lines(sdp)[9] == "a=rtpmap:98 MPEG4/90000";
  }

  lemma LinesHaveNoCR(sdp: SDP)
    requires NoCR(sdp.ownerId) && NoCR(sdp.ownerHost) && NoCR(sdp.ssrc) && NoCR(sdp.sendOnly) && NoCR(sdp.session)
    ensures forall k :: 0 <= k < |Lines(sdp)| ==> NoCR(Lines(sdp)[k])
  {
    var ls := Lines(sdp);
    FixedLinesNoCR(sdp);
    assert NoCR(ls[0]) by { NumberNoCR(sdp.version); NoCRAppend("v=", Numbers.IntToString(sdp.version)); }
    assert NoCR(ls[1]) by {
      NoCRAppend("o=", sdp.ownerId);
      NoCRAppend("o=" + sdp.ownerId, " 0 0 IN IP4 ");
      NoCRAppend("o=" + sdp.ownerId + " 0 0 IN IP4 ", sdp.ownerHost);
    }
    assert NoCR(ls[2]) by { NoCRAppend("s=", sdp.session); }
    assert NoCR(ls[3]) by { NoCRAppend("c=IN IP4 ", sdp.ownerHost); }
    assert NoCR(ls[5]) by {
      var p := Numbers.IntToString(sdp.ownerPort);
      NumberNoCR(sdp.ownerPort);
      NoCRAppend("m=video ", p);
      NoCRAppend("m=video " + p, " RTP/AVP 96 97 98");
    }
    assert NoCR(ls[6]) by { NoCRAppend("a=", sdp.sendOnly); }
    assert NoCR(ls[10]) by { NoCRAppend("y=", sdp.ssrc); }
  }

  /** With no CR in the text fields, the body splits back into its twelve
      lines: the v= line carries the version, s= the session name, the
      first a= the direction and y= the SSRC. */
  lemma BuilderSplits(sdp: SDP)
    requires NoCR(sdp.ownerId) && NoCR(sdp.ownerHost) && NoCR(sdp.ssrc) && NoCR(sdp.sendOnly) && NoCR(sdp.session)
    ensures SplitLines(Builder(sdp)) == Lines(sdp)
    ensures var ls := SplitLines(Builder(sdp));
            && ls[0] == "v=" + Numbers.IntToString(sdp.version) && ls[2] == "s=" + sdp.session
            && ls[6] == "a=" + sdp.sendOnly && ls[10] == "y=" + sdp.ssrc
  {
    LinesHaveNoCR(sdp);
    SplitTerminated(Lines(sdp));
  }
}
