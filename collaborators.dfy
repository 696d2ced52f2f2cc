/**
  The opaque collaborators of a call session: the signalling client (AppRTCClient),
  the media client (PeerConnectionClient) and the values they exchange. Nothing here
  is interpreted; every call the core makes on a collaborator is recorded as a `Cmd`
  and every call it makes on its ConnectionListener as a `Note`.
 */
module Collaborators {

  import opened Wrappers

  /** A session description (SDP) as handed over by the media engine. */
  datatype Sdp = Sdp(kind: string, description: string)

  /** An ICE candidate as handed over by the media engine or the room. */
  datatype IceCandidate = IceCandidate(sdpMid: string, sdpMLineIndex: int, sdp: string)

  /** A video capturer produced by the activity; its identity is all the core sees. */
  datatype VideoCapturer = VideoCapturer(id: nat)

  /** What the room reports on joining: who offers, and what was already waiting there. */
  datatype SignalingParameters = SignalingParameters(
    initiator: bool,
    offerSdp: Option<Sdp>,
    iceCandidates: Option<seq<IceCandidate>>)

  /** The room a session joins: the server URL, the room id (null when no slot matched) and loopback. */
  datatype RoomConnectionParameters = RoomConnectionParameters(
    roomUrl: string,
    roomId: Option<string>,
    loopback: bool)

  /** The part of the peer-connection settings the session itself reads. */
  datatype PeerConnectionParameters = PeerConnectionParameters(
    videoCallEnabled: bool,
    videoMaxBitrate: int)

  /** The two signalling-client implementations. */
  datatype ClientKind = WebSocketClient | DirectClient

  /** The media client handle; it has no state the core can observe. */
  datatype MediaClient = PeerConnectionClient

  /** Every command the session issues to one of its two collaborators. */
  datatype Cmd =
    // signalling client
    | JoinRoom(room: RoomConnectionParameters)
    | SendOffer(offer: Sdp)
    | SendAnswer(answer: Sdp)
    | SendLocalCand(local: IceCandidate)
    | SendLocalCandRemovals(localRemoved: seq<IceCandidate>)
    | DisconnectFromRoom
    // media client
    | SetFactoryOptions(networkIgnoreMask: int)
    | CreateFactory(settings: PeerConnectionParameters)
    | CreatePc(capturer: Option<VideoCapturer>, signaling: SignalingParameters)
    | CreateOffer
    | SetRemote(remote: Sdp)
    | CreateAnswer
    | AddRemoteCand(remoteCand: IceCandidate)
    | RemoveRemoteCands(remoteRemoved: seq<IceCandidate>)
    | SetMaxBitrate(bitrate: int)
    | StopVideo
    | StartVideo
    | SetCaptureFormat(width: int, height: int, framerate: int)
    | SetAudio(enabled: bool)
    | ClosePc

  /** The five ConnectionListener notifications. */
  datatype Note =
    | ConnectionEstablished
    | ChannelClose
    | ChannelError
    | IceDisconnected
    | PeerConnectionError

  /** True of the commands that go to the signalling client. */
  predicate IsSignalingCmd(c: Cmd) {
    c.JoinRoom? || c.SendOffer? || c.SendAnswer? || c.SendLocalCand? ||
    c.SendLocalCandRemovals? || c.DisconnectFromRoom?
  }

  /** How often command `c` occurs in `log`. */
  function Count(log: seq<Cmd>, c: Cmd): (n: nat) {
    if log == [] then 0 else (if log[0] == c then 1 else 0) + Count(log[1..], c)
  }

  /** A command occurs in a log iff its count there is positive. */
  lemma {:induction false} CountZeroIffAbsent(log: seq<Cmd>, c: Cmd)
    ensures Count(log, c) == 0 <==> c !in log
    ensures Count(log, c) <= |log|
  {
    if log != [] {
      CountZeroIffAbsent(log[1..], c);
      assert c in log <==> log[0] == c || c in log[1..];
    }
  }

  lemma {:induction false} CountAppend(a: seq<Cmd>, b: seq<Cmd>, c: Cmd)
    ensures Count(a + b, c) == Count(a, c) + Count(b, c)
  {
    if a == [] {
      assert a + b == b;
    } else {
      assert (a + b)[1..] == a[1..] + b;
      CountAppend(a[1..], b, c);
    }
  }
}
