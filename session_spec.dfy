/**
  The behaviour of one Connection (one peer session) as pure functions of its state.
  Each function says what one handler or lifecycle operation of Connection.java does:
  which commands it issues to the signalling and media clients, which listener
  notification it emits, and how the flags and handles change. The class
  `Session.Connection` is proved to follow these functions step by step.
 */
module SessionSpec {

  import opened Wrappers
  import opened Collaborators

  /** What a Connection is constructed with and never changes. */
  datatype Config = Config(
    loopback: bool,
    screencaptureEnabled: bool,
    roomParams: RoomConnectionParameters,
    pcParams: PeerConnectionParameters,
    hasListener: bool)

  /** The mutable part of a Connection, together with the two logs of what it has done. */
  datatype SessionState = SessionState(
    appRtcClient: Option<ClientKind>,
    peerConnectionClient: Option<MediaClient>,
    signalingParameters: Option<SignalingParameters>,
    iceConnected: bool,
    disconnected: bool,
    commands: seq<Cmd>,
    notifications: seq<Note>)

  /** Client selection: the direct client only for a non-loopback room whose name looks like an IP. */
  function SelectClient(loopback: bool, room: Option<string>, ipPattern: string -> bool): (kind: ClientKind)
    requires loopback || room.Some?
  {
    if loopback || !ipPattern(room.value) then WebSocketClient else DirectClient
  }

  /** The commands the constructor issues to the media client. */
  function FactoryCmds(cfg: Config): (cmds: seq<Cmd>) {
    (if cfg.loopback then [SetFactoryOptions(0)] else []) + [CreateFactory(cfg.pcParams)]
  }

  /** The state right after construction. */
  function Initial(cfg: Config, ipPattern: string -> bool): (init: SessionState)
    requires cfg.loopback || cfg.roomParams.roomId.Some?
  {
    SessionState(
      Some(SelectClient(cfg.loopback, cfg.roomParams.roomId, ipPattern)),
      Some(PeerConnectionClient),
      None, false, false, FactoryCmds(cfg), [])
  }

  // ---- lifecycle operations -------------------------------------------------

  /** disconnect(): set the flag, release each collaborator still held, forget it. */
  function Disconnect(s: SessionState): (next: SessionState) {
    s.(disconnected := true,
       appRtcClient := None,
       peerConnectionClient := None,
       commands := s.commands
         + (if s.appRtcClient.Some? then [DisconnectFromRoom] else [])
         + (if s.peerConnectionClient.Some? then [ClosePc] else []))
  }

  /** Issue `c` to the media client if there still is one. */
  function ToMedia(s: SessionState, c: Cmd): (next: SessionState) {
    if s.peerConnectionClient.Some? then s.(commands := s.commands + [c]) else s
  }

  /** Issue `c` to the signalling client if there still is one. */
  function ToSignaling(s: SessionState, c: Cmd): (next: SessionState) {
    if s.appRtcClient.Some? then s.(commands := s.commands + [c]) else s
  }

  function OnStop(cfg: Config, s: SessionState): (next: SessionState) {
    if cfg.screencaptureEnabled then s else ToMedia(s, StopVideo)
  }

  function OnStart(cfg: Config, s: SessionState): (next: SessionState) {
    if cfg.screencaptureEnabled then s else ToMedia(s, StartVideo)
  }

  function ChangeCaptureFormat(s: SessionState, width: int, height: int, framerate: int): (next: SessionState) {
    ToMedia(s, SetCaptureFormat(width, height, framerate))
  }

  function SetAudioEnabled(s: SessionState, enabled: bool): (next: SessionState) {
    ToMedia(s, SetAudio(enabled))
  }

  /** connectToRoom() dereferences the signalling client unconditionally. */
  function ConnectToRoom(cfg: Config, s: SessionState): (next: SessionState)
    requires s.appRtcClient.Some?
  {
    s.(commands := s.commands + [JoinRoom(cfg.roomParams)])
  }

  // ---- signalling events ----------------------------------------------------

  /** The commands for each room candidate, in list order. */
  function AddRemoteCands(cs: seq<IceCandidate>): (cmds: seq<Cmd>)
    ensures |cmds| == |cs|
    ensures forall k :: 0 <= k < |cs| ==> cmds[k] == AddRemoteCand(cs[k])
  {
    if cs == [] then [] else [AddRemoteCand(cs[0])] + AddRemoteCands(cs[1..])
  }

  lemma AddRemoteCandsSnoc(cs: seq<IceCandidate>, c: IceCandidate)
    ensures AddRemoteCands(cs + [c]) == AddRemoteCands(cs) + [AddRemoteCand(c)]
  {
    assert |AddRemoteCands(cs + [c])| == |AddRemoteCands(cs) + [AddRemoteCand(c)]|;
  }

  /**
    Regrouping of appended command logs. Each handler appends its commands one call at
    a time; citing this once keeps those proofs from re-deriving sequence equality.
   */
  lemma AppendAssoc(a: seq<Cmd>, b: seq<Cmd>, c: seq<Cmd>)
    ensures a + b + c == a + (b + c)
  {
  }

  /** The commands a handler appended are the log's suffix past its old length. */
  lemma AppendedSuffix(log: seq<Cmd>, added: seq<Cmd>)
    ensures (log + added)[|log|..] == added
  {
  }

  /** What a non-initiator does on joining: answer a waiting offer, then add the room's candidates. */
  function AnswererCmds(params: SignalingParameters): (cmds: seq<Cmd>) {
    (if params.offerSdp.Some? then [SetRemote(params.offerSdp.value), CreateAnswer] else [])
      + (if params.iceCandidates.Some? then AddRemoteCands(params.iceCandidates.value) else [])
  }

  /** What joining the room makes the media client do, after creating the peer connection. */
  function RoomJoinedCmds(params: SignalingParameters, capturer: Option<VideoCapturer>): (cmds: seq<Cmd>) {
    [CreatePc(capturer, params)] + (if params.initiator then [CreateOffer] else AnswererCmds(params))
  }

  /**
    onConnectedToRoomInternal: cache the parameters, then drive the media client, which
    it dereferences unconditionally. `capturer` is what the activity's createVideoCapturer
    returns; it is asked for only in a video call.
   */
  function OnConnectedToRoom(cfg: Config, s: SessionState, params: SignalingParameters,
                             capturer: Option<VideoCapturer>): (next: SessionState)
    requires s.peerConnectionClient.Some?
  {
    var cam := if cfg.pcParams.videoCallEnabled then capturer else None;
    s.(signalingParameters := Some(params),
       commands := s.commands + RoomJoinedCmds(params, cam))
  }

  /** Remote SDP: applied, then answered unless initiator; reads the cached parameters. */
  function OnRemoteDescription(s: SessionState, sdp: Sdp): (next: SessionState)
    requires s.peerConnectionClient.Some? ==> s.signalingParameters.Some?
  {
    if s.peerConnectionClient.None? then s
    else s.(commands := s.commands + [SetRemote(sdp)]
              + (if !s.signalingParameters.value.initiator then [CreateAnswer] else []))
  }

  function OnRemoteIceCandidate(s: SessionState, c: IceCandidate): (next: SessionState) {
    ToMedia(s, AddRemoteCand(c))
  }

  function OnRemoteIceCandidatesRemoved(s: SessionState, cs: seq<IceCandidate>): (next: SessionState) {
    ToMedia(s, RemoveRemoteCands(cs))
  }

  /** Tell the listener, when there is one. */
  function Notify(cfg: Config, s: SessionState, n: Note): (next: SessionState) {
    if cfg.hasListener then s.(notifications := s.notifications + [n]) else s
  }

  function OnChannelClose(cfg: Config, s: SessionState): (next: SessionState) {
    Notify(cfg, Disconnect(s), ChannelClose)
  }

  function OnChannelError(cfg: Config, s: SessionState): (next: SessionState) {
    Notify(cfg, Disconnect(s), ChannelError)
  }

  // ---- media events ---------------------------------------------------------

  /** What local SDP makes the session issue: the offer or answer if signalling is held, then the cap if set. */
  function LocalSdpCmds(cfg: Config, s: SessionState, sdp: Sdp): (cmds: seq<Cmd>)
    requires s.appRtcClient.Some? ==> s.signalingParameters.Some?
  {
    (if s.appRtcClient.None? then []
     else if s.signalingParameters.value.initiator then [SendOffer(sdp)]
     else [SendAnswer(sdp)])
    + (if cfg.pcParams.videoMaxBitrate > 0 then [SetMaxBitrate(cfg.pcParams.videoMaxBitrate)] else [])
  }

  /**
    Local SDP: sent as offer or answer through the signalling client when there is one
    (reading the cached parameters), then the bitrate cap, which dereferences the media
    client unconditionally.
   */
  function OnLocalDescription(cfg: Config, s: SessionState, sdp: Sdp): (next: SessionState)
    requires s.appRtcClient.Some? ==> s.signalingParameters.Some?
    requires cfg.pcParams.videoMaxBitrate > 0 ==> s.peerConnectionClient.Some?
  {
    s.(commands := s.commands + LocalSdpCmds(cfg, s, sdp))
  }

  function OnIceCandidate(s: SessionState, c: IceCandidate): (next: SessionState) {
    ToSignaling(s, SendLocalCand(c))
  }

  function OnIceCandidatesRemoved(s: SessionState, cs: seq<IceCandidate>): (next: SessionState) {
    ToSignaling(s, SendLocalCandRemovals(cs))
  }

  function OnIceConnected(cfg: Config, s: SessionState): (next: SessionState) {
    Notify(cfg, s.(iceConnected := true), ConnectionEstablished)
  }

  function OnIceDisconnected(cfg: Config, s: SessionState): (next: SessionState) {
    Notify(cfg, Disconnect(s.(iceConnected := false)), IceDisconnected)
  }

  function OnPeerConnectionError(cfg: Config, s: SessionState): (next: SessionState) {
    Notify(cfg, Disconnect(s), PeerConnectionError)
  }

  // ---- every input a session reacts to --------------------------------------

  datatype Event =
    // lifecycle operations, called by Connections
    | Stop | Start | CaptureFormat(width: int, height: int, framerate: int) | Audio(enabled: bool)
    | Connect | Hangup
    // signalling events
    | RoomJoined(params: SignalingParameters, capturer: Option<VideoCapturer>)
    | RemoteSdp(remoteSdp: Sdp) | RemoteCandidate(remoteCand: IceCandidate)
    | RemoteRemovals(remoteRemoved: seq<IceCandidate>)
    | ChannelClosed | ChannelFailed
    // media events
    | LocalSdp(localSdp: Sdp) | LocalCandidate(localCand: IceCandidate)
    | LocalRemovals(localRemoved: seq<IceCandidate>)
    | IceUp | IceDown | PcClosed | PcStats | PcFailed

  /** The terminal events: each ends the session. */
  predicate IsTerminal(e: Event) {
    e.ChannelClosed? || e.ChannelFailed? || e.IceDown? || e.PcFailed?
  }

  /** The listener notification an event leads to, if any. */
  function NoteOf(e: Event): (note: Option<Note>) {
    match e
    case ChannelClosed => Some(ChannelClose)
    case ChannelFailed => Some(ChannelError)
    case IceDown => Some(IceDisconnected)
    case PcFailed => Some(PeerConnectionError)
    case IceUp => Some(ConnectionEstablished)
    case _ => None
  }

  /** When handling `e` does not dereference a null handle or null parameters. */
  predicate Pre(cfg: Config, s: SessionState, e: Event) {
    match e
    case Connect => s.appRtcClient.Some?
    case RoomJoined(_, _) => s.peerConnectionClient.Some?
    case RemoteSdp(_) => s.peerConnectionClient.Some? ==> s.signalingParameters.Some?
    case LocalSdp(_) =>
      && (s.appRtcClient.Some? ==> s.signalingParameters.Some?)
      && (cfg.pcParams.videoMaxBitrate > 0 ==> s.peerConnectionClient.Some?)
    case _ => true
  }

  /** The session after handling `e`. */
  function Step(cfg: Config, s: SessionState, e: Event): (next: SessionState)
    requires Pre(cfg, s, e)
  {
    match e
    case Stop => OnStop(cfg, s)
    case Start => OnStart(cfg, s)
    case CaptureFormat(w, h, f) => ChangeCaptureFormat(s, w, h, f)
    case Audio(b) => SetAudioEnabled(s, b)
    case Connect => ConnectToRoom(cfg, s)
    case Hangup => Disconnect(s)
    case RoomJoined(p, c) => OnConnectedToRoom(cfg, s, p, c)
    case RemoteSdp(sdp) => OnRemoteDescription(s, sdp)
    case RemoteCandidate(c) => OnRemoteIceCandidate(s, c)
    case RemoteRemovals(cs) => OnRemoteIceCandidatesRemoved(s, cs)
    case ChannelClosed => OnChannelClose(cfg, s)
    case ChannelFailed => OnChannelError(cfg, s)
    case LocalSdp(sdp) => OnLocalDescription(cfg, s, sdp)
    case LocalCandidate(c) => OnIceCandidate(s, c)
    case LocalRemovals(cs) => OnIceCandidatesRemoved(s, cs)
    case IceUp => OnIceConnected(cfg, s)
    case IceDown => OnIceDisconnected(cfg, s)
    case PcClosed => s
    case PcStats => s
    case PcFailed => OnPeerConnectionError(cfg, s)
  }

  /** A run of events, each handled without a null dereference. */
  predicate RunPre(cfg: Config, s: SessionState, es: seq<Event>)
    decreases |es|
  {
    es == [] || (Pre(cfg, s, es[0]) && RunPre(cfg, Step(cfg, s, es[0]), es[1..]))
  }

  function Run(cfg: Config, s: SessionState, es: seq<Event>): (next: SessionState)
    requires RunPre(cfg, s, es)
    decreases |es|
  {
    if es == [] then s else Run(cfg, Step(cfg, s, es[0]), es[1..])
  }

  // ---- the session invariant ------------------------------------------------

  /**
    Both handles are null exactly once the session is disconnected, and each
    collaborator has been released exactly when it was dropped: once, never twice.
   */
  predicate Inv(s: SessionState) {
    && (s.appRtcClient.None? <==> s.disconnected)
    && (s.peerConnectionClient.None? <==> s.disconnected)
    && Count(s.commands, DisconnectFromRoom) == (if s.disconnected then 1 else 0)
    && Count(s.commands, ClosePc) == (if s.disconnected then 1 else 0)
  }

  /** A fresh session holds both handles, is not disconnected and has released nothing. */
  lemma InitialInv(cfg: Config, ipPattern: string -> bool)
    requires cfg.loopback || cfg.roomParams.roomId.Some?
    ensures Inv(Initial(cfg, ipPattern))
    ensures Initial(cfg, ipPattern).appRtcClient == Some(SelectClient(cfg.loopback, cfg.roomParams.roomId, ipPattern))
  {
    CountZeroIffAbsent(FactoryCmds(cfg), DisconnectFromRoom);
    CountZeroIffAbsent(FactoryCmds(cfg), ClosePc);
  }

  /** Client selection: the WebSocket client iff loopback or the room is not IP-like. */
  lemma SelectClientIff(loopback: bool, room: Option<string>, ipPattern: string -> bool)
    requires loopback || room.Some?
    ensures SelectClient(loopback, room, ipPattern) == WebSocketClient <==> loopback || !ipPattern(room.value)
    ensures SelectClient(loopback, room, ipPattern) == DirectClient <==> !loopback && ipPattern(room.value)
  {
  }

  /** Appending commands that are not `c` does not change how often `c` occurs. */
  lemma CountUnchanged(log: seq<Cmd>, extra: seq<Cmd>, c: Cmd)
    requires c !in extra
    ensures Count(log + extra, c) == Count(log, c)
  {
    CountAppend(log, extra, c);
    CountZeroIffAbsent(extra, c);
  }

  /** The commands a step can append are never a release, except in Disconnect. */
  lemma RoomJoinedReleasesNothing(params: SignalingParameters, capturer: Option<VideoCapturer>)
    ensures DisconnectFromRoom !in RoomJoinedCmds(params, capturer)
    ensures ClosePc !in RoomJoinedCmds(params, capturer)
  {
  }

  /** disconnect() keeps the invariant: each collaborator is released at most once. */
  lemma DisconnectInv(s: SessionState)
    requires Inv(s)
    ensures Inv(Disconnect(s))
  {
    var d := if s.appRtcClient.Some? then [DisconnectFromRoom] else [];
    var c := if s.peerConnectionClient.Some? then [ClosePc] else [];
    CountAppend(s.commands + d, c, DisconnectFromRoom);
    CountAppend(s.commands, d, DisconnectFromRoom);
    CountAppend(s.commands + d, c, ClosePc);
    CountAppend(s.commands, d, ClosePc);
  }

  /** A step that only appends non-release commands keeps the invariant. */
  lemma AppendInv(s: SessionState, extra: seq<Cmd>)
    requires Inv(s)
    requires DisconnectFromRoom !in extra && ClosePc !in extra
    ensures Inv(s.(commands := s.commands + extra))
  {
    CountUnchanged(s.commands, extra, DisconnectFromRoom);
    CountUnchanged(s.commands, extra, ClosePc);
  }

  /** Every handler keeps the invariant. */
  lemma StepInv(cfg: Config, s: SessionState, e: Event)
    requires Inv(s) && Pre(cfg, s, e)
    ensures Inv(Step(cfg, s, e))
  {
    match e
    case Stop => if !cfg.screencaptureEnabled { AppendInv(s, [StopVideo]); }
    case Start => if !cfg.screencaptureEnabled { AppendInv(s, [StartVideo]); }
    case CaptureFormat(w, h, f) => AppendInv(s, [SetCaptureFormat(w, h, f)]);
    case Audio(b) => AppendInv(s, [SetAudio(b)]);
    case Connect => AppendInv(s, [JoinRoom(cfg.roomParams)]);
    case RemoteSdp(sdp) =>
      if s.peerConnectionClient.Some? {
        var answer := if !s.signalingParameters.value.initiator then [CreateAnswer] else [];
        AppendInv(s, [SetRemote(sdp)] + answer);
        AppendAssoc(s.commands, [SetRemote(sdp)], answer);
      }
    case RemoteCandidate(c) => AppendInv(s, [AddRemoteCand(c)]);
    case RemoteRemovals(cs) => AppendInv(s, [RemoveRemoteCands(cs)]);
    case LocalSdp(sdp) => AppendInv(s, LocalSdpCmds(cfg, s, sdp));
    case LocalCandidate(c) => AppendInv(s, [SendLocalCand(c)]);
    case LocalRemovals(cs) => AppendInv(s, [SendLocalCandRemovals(cs)]);
    case IceUp =>
    case PcClosed =>
    case PcStats =>
    case Hangup => DisconnectInv(s);
    case ChannelClosed => DisconnectInv(s);
    case ChannelFailed => DisconnectInv(s);
    case PcFailed => DisconnectInv(s);
    case IceDown => DisconnectInv(s.(iceConnected := false));
    case RoomJoined(p, c) =>
      var cam := if cfg.pcParams.videoCallEnabled then c else None;
      RoomJoinedReleasesNothing(p, cam);
      AppendInv(s, RoomJoinedCmds(p, cam));
  }

  /** Over any run of events the invariant holds, so each release is issued at most once. */
  lemma {:induction false} RunInv(cfg: Config, s: SessionState, es: seq<Event>)
    requires Inv(s) && RunPre(cfg, s, es)
    ensures Inv(Run(cfg, s, es))
    ensures Count(Run(cfg, s, es).commands, DisconnectFromRoom) <= 1
    ensures Count(Run(cfg, s, es).commands, ClosePc) <= 1
    decreases |es|
  {
    if es != [] {
      StepInv(cfg, s, es[0]);
      RunInv(cfg, Step(cfg, s, es[0]), es[1..]);
    }
  }

  /** Nothing ever clears the disconnected flag, over any run of events. */
  lemma {:induction false} RunKeepsDisconnected(cfg: Config, s: SessionState, es: seq<Event>)
    requires RunPre(cfg, s, es) && s.disconnected
    ensures Run(cfg, s, es).disconnected
    decreases |es|
  {
    if es != [] {
      RunKeepsDisconnected(cfg, Step(cfg, s, es[0]), es[1..]);
    }
  }

  /** disconnect() is idempotent: a second call changes nothing. */
  lemma DisconnectIdempotent(s: SessionState)
    ensures Disconnect(Disconnect(s)) == Disconnect(s)
    ensures Disconnect(s).disconnected
    ensures Disconnect(s).appRtcClient.None? && Disconnect(s).peerConnectionClient.None?
  {
  }

  /** A second disconnect of a session that is already down changes nothing at all. */
  lemma DisconnectWhenDown(s: SessionState)
    requires Inv(s) && s.disconnected
    ensures Disconnect(s) == s
  {
  }

  /** Once disconnected, a session issues no further command whatever happens to it. */
  lemma DisconnectedIsSilent(cfg: Config, s: SessionState, e: Event)
    requires Inv(s) && s.disconnected && Pre(cfg, s, e)
    ensures Step(cfg, s, e).commands == s.commands
    ensures Step(cfg, s, e).disconnected
  {
  }

  /** A screen-capture session keeps its video running across onStop and onStart. */
  lemma ScreencaptureKeepsVideo(cfg: Config, s: SessionState)
    requires cfg.screencaptureEnabled
    ensures OnStop(cfg, s) == s && OnStart(cfg, s) == s
  {
  }

  /** setAudioEnabled(b) reaches the media client with the same b iff the session still holds it. */
  lemma SetAudioReachesMedia(s: SessionState, b: bool)
    ensures SetAudioEnabled(s, b).commands
         == s.commands + (if s.peerConnectionClient.Some? then [SetAudio(b)] else [])
    ensures SetAudioEnabled(s, b).disconnected == s.disconnected
  {
  }

  /** Adding remote candidates issues nothing but candidate additions. */
  lemma OnlyCandidates(cs: seq<IceCandidate>)
    ensures forall x :: x in AddRemoteCands(cs) ==> x.AddRemoteCand?
  {
    forall x | x in AddRemoteCands(cs)
      ensures x.AddRemoteCand?
    {
      var k :| 0 <= k < |cs| && AddRemoteCands(cs)[k] == x;
    }
  }

  /**
    Room-joined handling: the peer connection is created first; an initiator then only
    creates an offer; otherwise a waiting offer is applied and answered, and the room's
    candidates follow in list order. Candidates are added only by a non-initiator.
   */
  lemma RoomJoinedOrder(params: SignalingParameters, capturer: Option<VideoCapturer>)
    ensures var cmds := RoomJoinedCmds(params, capturer);
      && cmds[0] == CreatePc(capturer, params)
      && (params.initiator ==> cmds == [CreatePc(capturer, params), CreateOffer])
      && (CreateOffer in cmds <==> params.initiator)
      && (CreateAnswer in cmds <==> !params.initiator && params.offerSdp.Some?)
      && (forall c :: AddRemoteCand(c) in cmds ==> !params.initiator)
    ensures !params.initiator && params.offerSdp.Some? ==>
      RoomJoinedCmds(params, capturer)[1..3] == [SetRemote(params.offerSdp.value), CreateAnswer]
    ensures !params.initiator && params.iceCandidates.Some? ==>
      var off := if params.offerSdp.Some? then 3 else 1;
      var cands := params.iceCandidates.value;
      && |RoomJoinedCmds(params, capturer)| == off + |cands|
      && forall k :: 0 <= k < |cands| ==> RoomJoinedCmds(params, capturer)[off + k] == AddRemoteCand(cands[k])
  {
    var cmds := RoomJoinedCmds(params, capturer);
    if !params.initiator {
      var rest := AnswererCmds(params);
      AnswererLayout(params);
      assert cmds == [CreatePc(capturer, params)] + rest;
      assert cmds[1..] == rest;
    }
  }

  /** A non-initiator's commands on joining: the answer first (if an offer waits), then the candidates. */
  lemma AnswererLayout(params: SignalingParameters)
    ensures var cmds := AnswererCmds(params);
      && CreateOffer !in cmds
      && (CreateAnswer in cmds <==> params.offerSdp.Some?)
      && (params.offerSdp.Some? ==> cmds[..2] == [SetRemote(params.offerSdp.value), CreateAnswer])
      && (params.iceCandidates.Some? ==>
            var off := if params.offerSdp.Some? then 2 else 0;
            var cands := params.iceCandidates.value;
            && |cmds| == off + |cands|
            && forall k :: 0 <= k < |cands| ==> cmds[off + k] == AddRemoteCand(cands[k]))
      && (params.iceCandidates.None? ==> |cmds| == if params.offerSdp.Some? then 2 else 0)
  {
    var cmds := AnswererCmds(params);
    var head := if params.offerSdp.Some? then [SetRemote(params.offerSdp.value), CreateAnswer] else [];
    var tail := if params.iceCandidates.Some? then AddRemoteCands(params.iceCandidates.value) else [];
    assert cmds == head + tail;
    if params.iceCandidates.Some? {
      OnlyCandidates(params.iceCandidates.value);
    }
    forall k | 0 <= k < |tail|
      ensures cmds[|head| + k] == tail[k]
    {
    }
  }

  /** Remote SDP is ignored without a media client; otherwise it is applied and answered iff not initiator. */
  lemma RemoteSdpHandling(s: SessionState, sdp: Sdp)
    requires s.peerConnectionClient.Some? ==> s.signalingParameters.Some?
    ensures s.peerConnectionClient.None? ==> OnRemoteDescription(s, sdp) == s
    ensures s.peerConnectionClient.Some? ==>
      var added := OnRemoteDescription(s, sdp).commands[|s.commands|..];
      && added[0] == SetRemote(sdp)
      && (CreateAnswer in added <==> !s.signalingParameters.value.initiator)
  {
    if s.peerConnectionClient.Some? {
      if s.signalingParameters.value.initiator {
        assert (s.commands + [SetRemote(sdp)])[|s.commands|..] == [SetRemote(sdp)];
      } else {
        assert (s.commands + [SetRemote(sdp)] + [CreateAnswer])[|s.commands|..] == [SetRemote(sdp), CreateAnswer];
      }
    }
  }

  /** Remote candidates and removals reach the media client iff there is one. */
  lemma RemoteCandidatesNeedMedia(s: SessionState, c: IceCandidate, cs: seq<IceCandidate>)
    ensures OnRemoteIceCandidate(s, c).commands
         == s.commands + (if s.peerConnectionClient.Some? then [AddRemoteCand(c)] else [])
    ensures OnRemoteIceCandidatesRemoved(s, cs).commands
         == s.commands + (if s.peerConnectionClient.Some? then [RemoveRemoteCands(cs)] else [])
  {
  }

  /**
    Local SDP goes out as an offer iff initiator and as an answer otherwise, and only
    through a signalling client that is still held; the bitrate cap is applied iff set.
   */
  lemma LocalSdpHandling(cfg: Config, s: SessionState, sdp: Sdp)
    requires s.appRtcClient.Some? ==> s.signalingParameters.Some?
    requires cfg.pcParams.videoMaxBitrate > 0 ==> s.peerConnectionClient.Some?
    ensures var added := OnLocalDescription(cfg, s, sdp).commands[|s.commands|..];
      && (SendOffer(sdp) in added <==> s.appRtcClient.Some? && s.signalingParameters.value.initiator)
      && (SendAnswer(sdp) in added <==> s.appRtcClient.Some? && !s.signalingParameters.value.initiator)
      && (SetMaxBitrate(cfg.pcParams.videoMaxBitrate) in added <==> cfg.pcParams.videoMaxBitrate > 0)
      && (forall c :: c in added && IsSignalingCmd(c) ==> s.appRtcClient.Some?)
  {
    AppendedSuffix(s.commands, LocalSdpCmds(cfg, s, sdp));
  }

  /** Local candidates and removals reach the signalling client iff there is one. */
  lemma LocalCandidatesNeedSignaling(s: SessionState, c: IceCandidate, cs: seq<IceCandidate>)
    ensures OnIceCandidate(s, c).commands
         == s.commands + (if s.appRtcClient.Some? then [SendLocalCand(c)] else [])
    ensures OnIceCandidatesRemoved(s, cs).commands
         == s.commands + (if s.appRtcClient.Some? then [SendLocalCandRemovals(cs)] else [])
  {
  }

  /**
    A terminal event disconnects first and then emits exactly its one notification;
    ICE connected sets iceConnected and notifies without disconnecting.
   */
  lemma EventNotifications(cfg: Config, s: SessionState, e: Event)
    requires Pre(cfg, s, e)
    ensures var t := Step(cfg, s, e);
      && (IsTerminal(e) ==> t.disconnected && t.commands == Disconnect(s).commands)
      && (IsTerminal(e) ==> t.appRtcClient.None? && t.peerConnectionClient.None?)
      && (e.IceDown? ==> !t.iceConnected)
      && (e.IceUp? ==> t.iceConnected && t.disconnected == s.disconnected && t.commands == s.commands)
      && t.notifications == s.notifications
           + (if cfg.hasListener && NoteOf(e).Some? then [NoteOf(e).value] else [])
  {
  }

  /** Only a terminal event or a hang-up sets the disconnected flag; nothing clears it. */
  lemma DisconnectedChangesOnlyByTeardown(cfg: Config, s: SessionState, e: Event)
    requires Pre(cfg, s, e)
    ensures s.disconnected ==> Step(cfg, s, e).disconnected
    ensures Step(cfg, s, e).disconnected != s.disconnected ==> IsTerminal(e) || e.Hangup?
  {
  }
}
