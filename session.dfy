/**
  One peer session (Connection.java): a signalling client and a media client for one
  pairwise room, the flags `iceConnected` and `disconnected`, and the cached room
  parameters. Every handler updates the fields in place; its contract ties the new
  state to the matching function of SessionSpec, whose properties are proved there.
  The collaborators are opaque: each call on them is appended to the ghost log
  `commands`, each call on the listener to the ghost log `notifications`.
 */
module Session {

  import opened Wrappers
  import opened Collaborators
  import Spec = SessionSpec

  class Connection {
    const config: Spec.Config
    var appRtcClient: Option<ClientKind>
    var peerConnectionClient: Option<MediaClient>
    var signalingParameters: Option<SignalingParameters>
    var iceConnected: bool
    var disconnected: bool
    ghost var commands: seq<Cmd>
    ghost var notifications: seq<Note>

    /** The session's state as a value. */
    ghost function State(): (s: Spec.SessionState)
      reads this
    {
      Spec.SessionState(appRtcClient, peerConnectionClient, signalingParameters,
                        iceConnected, disconnected, commands, notifications)
    }

    ghost predicate Valid()
      reads this
    {
      Spec.Inv(State())
    }

    /**
      Picks the signalling client from the room name, creates the media client and its
      factory. `ipPattern` stands for DirectRTCClient.IP_PATTERN; matching a null room
      throws, so a null room is admitted only in loopback.
     */
    constructor (loopback: bool, screencaptureEnabled: bool, room: Option<string>, roomUri: string,
                 pcParams: PeerConnectionParameters, hasListener: bool, ipPattern: string -> bool)
      requires loopback || room.Some?
      ensures config == Spec.Config(loopback, screencaptureEnabled,
                                    RoomConnectionParameters(roomUri, room, loopback), pcParams, hasListener)
      ensures State() == Spec.Initial(config, ipPattern)
      ensures Valid()
    {
      config := Spec.Config(loopback, screencaptureEnabled,
                            RoomConnectionParameters(roomUri, room, loopback), pcParams, hasListener);
      if loopback || !ipPattern(room.value) {
        appRtcClient := Some(WebSocketClient);
      } else {
        appRtcClient := Some(DirectClient);
      }
      peerConnectionClient := Some(PeerConnectionClient);
      signalingParameters := None;
      iceConnected, disconnected := false, false;
      commands := if loopback then [SetFactoryOptions(0)] else [];
      commands := commands + [CreateFactory(pcParams)];
      notifications := [];
      new;
      Spec.InitialInv(config, ipPattern);
    }

    // ---- lifecycle operations -----------------------------------------------

    method OnStop()
      requires Valid()
      modifies this
      ensures Valid() && State() == Spec.OnStop(config, old(State()))
    {
      ghost var s := State();
      if peerConnectionClient.Some? && !config.screencaptureEnabled {
        commands := commands + [StopVideo];
      }
      Spec.StepInv(config, s, Spec.Stop);
    }

    method OnStart()
      requires Valid()
      modifies this
      ensures Valid() && State() == Spec.OnStart(config, old(State()))
    {
      ghost var s := State();
      if peerConnectionClient.Some? && !config.screencaptureEnabled {
        commands := commands + [StartVideo];
      }
      Spec.StepInv(config, s, Spec.Start);
    }

    method ChangeCaptureFormat(width: int, height: int, framerate: int)
      requires Valid()
      modifies this
      ensures Valid() && State() == Spec.ChangeCaptureFormat(old(State()), width, height, framerate)
    {
      ghost var s := State();
      if peerConnectionClient.Some? {
        commands := commands + [SetCaptureFormat(width, height, framerate)];
      }
      Spec.StepInv(config, s, Spec.CaptureFormat(width, height, framerate));
    }

    method SetAudioEnabled(micEnabled: bool)
      requires Valid()
      modifies this
      ensures Valid() && State() == Spec.SetAudioEnabled(old(State()), micEnabled)
    {
      ghost var s := State();
      if peerConnectionClient.Some? {
        commands := commands + [SetAudio(micEnabled)];
      }
      Spec.StepInv(config, s, Spec.Audio(micEnabled));
    }

    /** Joins the room; the signalling client is dereferenced without a check. */
    method ConnectToRoom()
      requires Valid() && appRtcClient.Some?
      modifies this
      ensures Valid() && State() == Spec.ConnectToRoom(config, old(State()))
    {
      ghost var s := State();
      commands := commands + [JoinRoom(config.roomParams)];
      Spec.StepInv(config, s, Spec.Connect);
    }

    /** Sets the flag and releases each collaborator still held, then drops it. */
    method Disconnect()
      requires Valid()
      modifies this
      ensures Valid() && State() == Spec.Disconnect(old(State()))
    {
      ghost var s := State();
      disconnected := true;
      if appRtcClient.Some? {
        commands := commands + [DisconnectFromRoom];
        appRtcClient := None;
      }
      if peerConnectionClient.Some? {
        commands := commands + [ClosePc];
        peerConnectionClient := None;
      }
      Spec.StepInv(config, s, Spec.Hangup);
    }

    method IsDisconnected() returns (r: bool)
      ensures r == disconnected
    {
      r := disconnected;
    }

    // ---- signalling events --------------------------------------------------

    /**
      onConnectedToRoomInternal: caches the room parameters and drives the media client,
      which it dereferences without a check. `capturer` is what the activity's
      createVideoCapturer returns; it is used only in a video call.
     */
    method OnConnectedToRoom(params: SignalingParameters, capturer: Option<VideoCapturer>)
      requires Valid() && peerConnectionClient.Some?
      modifies this
      ensures Valid() && State() == Spec.OnConnectedToRoom(config, old(State()), params, capturer)
    {
      ghost var s := State();
      signalingParameters := Some(params);
      var videoCapturer: Option<VideoCapturer> := None;
      if config.pcParams.videoCallEnabled {
        videoCapturer := capturer;
      }
      DriveMediaClient(params, videoCapturer);
      Spec.StepInv(config, s, Spec.RoomJoined(params, capturer));
    }

    /** Creates the peer connection, then offers (initiator) or answers from the room. */
    method DriveMediaClient(params: SignalingParameters, videoCapturer: Option<VideoCapturer>)
      modifies this`commands
      ensures commands == old(commands) + Spec.RoomJoinedCmds(params, videoCapturer)
    {
      ghost var before := commands;
      ghost var pc := [CreatePc(videoCapturer, params)];
      commands := commands + pc;
      ghost var joined: seq<Cmd>;
      if params.initiator {
        commands := commands + [CreateOffer];
        joined := [CreateOffer];
      } else {
        AnswerFromRoom(params);
        joined := Spec.AnswererCmds(params);
      }
      Spec.AppendAssoc(before, pc, joined);
    }

    /** The non-initiator branch: answer a waiting offer, then add the room's candidates. */
    method AnswerFromRoom(params: SignalingParameters)
      modifies this`commands
      ensures commands == old(commands) + Spec.AnswererCmds(params)
    {
      ghost var before := commands;
      ghost var answer: seq<Cmd> := [];
      if params.offerSdp.Some? {
        commands := commands + [SetRemote(params.offerSdp.value)];
        commands := commands + [CreateAnswer];
        answer := [SetRemote(params.offerSdp.value), CreateAnswer];
      }
      assert commands == before + answer;
      ghost var added: seq<Cmd> := [];
      if params.iceCandidates.Some? {
        AddRoomCandidates(params.iceCandidates.value);
        added := Spec.AddRemoteCands(params.iceCandidates.value);
      }
      Spec.AppendAssoc(before, answer, added);
    }

    /** Adds each of the room's candidates to the media client, in list order. */
    method AddRoomCandidates(candidates: seq<IceCandidate>)
      modifies this`commands
      ensures commands == old(commands) + Spec.AddRemoteCands(candidates)
    {
      ghost var before := commands;
      for i := 0 to |candidates|
        invariant commands == before + Spec.AddRemoteCands(candidates[..i])
      {
        Spec.AddRemoteCandsSnoc(candidates[..i], candidates[i]);
        Spec.AppendAssoc(before, Spec.AddRemoteCands(candidates[..i]), [AddRemoteCand(candidates[i])]);
        assert candidates[..i + 1] == candidates[..i] + [candidates[i]];
        commands := commands + [AddRemoteCand(candidates[i])];
      }
      assert candidates[..|candidates|] == candidates;
    }

    /** Remote SDP; reads the cached parameters whenever the media client is held. */
    method OnRemoteDescription(sdp: Sdp)
      requires Valid()
      requires peerConnectionClient.Some? ==> signalingParameters.Some?
      modifies this
      ensures Valid() && State() == Spec.OnRemoteDescription(old(State()), sdp)
    {
      ghost var s := State();
      if peerConnectionClient.None? {
        return;
      }
      commands := commands + [SetRemote(sdp)];
      if !signalingParameters.value.initiator {
        commands := commands + [CreateAnswer];
      }
      Spec.StepInv(config, s, Spec.RemoteSdp(sdp));
      assert State() == Spec.Step(config, s, Spec.RemoteSdp(sdp));
    }

    method OnRemoteIceCandidate(candidate: IceCandidate)
      requires Valid()
      modifies this
      ensures Valid() && State() == Spec.OnRemoteIceCandidate(old(State()), candidate)
    {
      ghost var s := State();
      if peerConnectionClient.None? {
        return;
      }
      commands := commands + [AddRemoteCand(candidate)];
      Spec.StepInv(config, s, Spec.RemoteCandidate(candidate));
    }

    method OnRemoteIceCandidatesRemoved(candidates: seq<IceCandidate>)
      requires Valid()
      modifies this
      ensures Valid() && State() == Spec.OnRemoteIceCandidatesRemoved(old(State()), candidates)
    {
      ghost var s := State();
      if peerConnectionClient.None? {
        return;
      }
      commands := commands + [RemoveRemoteCands(candidates)];
      Spec.StepInv(config, s, Spec.RemoteRemovals(candidates));
    }

    /** Calls the listener, if there is one; returns what it was told. */
    method Notify(n: Note) returns (told: Option<Note>)
      modifies this
      ensures State() == Spec.Notify(config, old(State()), n)
      ensures told == if config.hasListener then Some(n) else None
    {
      told := None;
      if config.hasListener {
        notifications := notifications + [n];
        told := Some(n);
      }
    }

    method OnChannelClose() returns (told: Option<Note>)
      requires Valid()
      modifies this
      ensures Valid() && State() == Spec.OnChannelClose(config, old(State()))
      ensures told == if config.hasListener then Some(ChannelClose) else None
    {
      ghost var s := State();
      Disconnect();
      told := Notify(ChannelClose);
      Spec.StepInv(config, s, Spec.ChannelClosed);
    }

    method OnChannelError() returns (told: Option<Note>)
      requires Valid()
      modifies this
      ensures Valid() && State() == Spec.OnChannelError(config, old(State()))
      ensures told == if config.hasListener then Some(ChannelError) else None
    {
      ghost var s := State();
      Disconnect();
      told := Notify(ChannelError);
      Spec.StepInv(config, s, Spec.ChannelFailed);
    }

    // ---- media events -------------------------------------------------------

    /**
      Local SDP: sent as offer or answer through the signalling client, if held,
      reading the cached parameters; then the bitrate cap, which dereferences the
      media client without a check.
     */
    method OnLocalDescription(sdp: Sdp)
      requires Valid()
      requires appRtcClient.Some? ==> signalingParameters.Some?
      requires config.pcParams.videoMaxBitrate > 0 ==> peerConnectionClient.Some?
      modifies this
      ensures Valid() && State() == Spec.OnLocalDescription(config, old(State()), sdp)
    {
      ghost var s := State();
      if appRtcClient.Some? {
        if signalingParameters.value.initiator {
          commands := commands + [SendOffer(sdp)];
        } else {
          commands := commands + [SendAnswer(sdp)];
        }
      }
      if config.pcParams.videoMaxBitrate > 0 {
        commands := commands + [SetMaxBitrate(config.pcParams.videoMaxBitrate)];
      }
      Spec.StepInv(config, s, Spec.LocalSdp(sdp));
      assert State() == Spec.Step(config, s, Spec.LocalSdp(sdp));
    }

    method OnIceCandidate(candidate: IceCandidate)
      requires Valid()
      modifies this
      ensures Valid() && State() == Spec.OnIceCandidate(old(State()), candidate)
    {
      ghost var s := State();
      if appRtcClient.Some? {
        commands := commands + [SendLocalCand(candidate)];
      }
      Spec.StepInv(config, s, Spec.LocalCandidate(candidate));
    }

    method OnIceCandidatesRemoved(candidates: seq<IceCandidate>)
      requires Valid()
      modifies this
      ensures Valid() && State() == Spec.OnIceCandidatesRemoved(old(State()), candidates)
    {
      ghost var s := State();
      if appRtcClient.Some? {
        commands := commands + [SendLocalCandRemovals(candidates)];
      }
      Spec.StepInv(config, s, Spec.LocalRemovals(candidates));
    }

    method OnIceConnected() returns (told: Option<Note>)
      requires Valid()
      modifies this
      ensures Valid() && State() == Spec.OnIceConnected(config, old(State()))
      ensures told == if config.hasListener then Some(ConnectionEstablished) else None
    {
      ghost var s := State();
      iceConnected := true;
      told := Notify(ConnectionEstablished);
      Spec.StepInv(config, s, Spec.IceUp);
    }

    method OnIceDisconnected() returns (told: Option<Note>)
      requires Valid()
      modifies this
      ensures Valid() && State() == Spec.OnIceDisconnected(config, old(State()))
      ensures told == if config.hasListener then Some(IceDisconnected) else None
    {
      ghost var s := State();
      iceConnected := false;
      Disconnect();
      told := Notify(IceDisconnected);
      Spec.StepInv(config, s, Spec.IceDown);
    }

    method OnPeerConnectionError() returns (told: Option<Note>)
      requires Valid()
      modifies this
      ensures Valid() && State() == Spec.OnPeerConnectionError(config, old(State()))
      ensures told == if config.hasListener then Some(PeerConnectionError) else None
    {
      ghost var s := State();
      Disconnect();
      told := Notify(PeerConnectionError);
      Spec.StepInv(config, s, Spec.PcFailed);
    }

    /**
      Delivers one input to the matching handler above and reports the listener
      notification it made. onPeerConnectionClosed and onPeerConnectionStatsReady
      have empty bodies.
     */
    method Handle(e: Spec.Event) returns (told: Option<Note>)
      requires Valid() && Spec.Pre(config, State(), e)
      modifies this
      ensures Valid() && State() == Spec.Step(config, old(State()), e)
      ensures told == if config.hasListener then Spec.NoteOf(e) else None
    {
      told := None;
      match e
      case Stop => OnStop();
      case Start => OnStart();
      case CaptureFormat(w, h, f) => ChangeCaptureFormat(w, h, f);
      case Audio(b) => SetAudioEnabled(b);
      case Connect => ConnectToRoom();
      case Hangup => Disconnect();
      case RoomJoined(p, c) => OnConnectedToRoom(p, c);
      case RemoteSdp(sdp) => OnRemoteDescription(sdp);
      case RemoteCandidate(c) => OnRemoteIceCandidate(c);
      case RemoteRemovals(cs) => OnRemoteIceCandidatesRemoved(cs);
      case ChannelClosed => told := OnChannelClose();
      case ChannelFailed => told := OnChannelError();
      case LocalSdp(sdp) => OnLocalDescription(sdp);
      case LocalCandidate(c) => OnIceCandidate(c);
      case LocalRemovals(cs) => OnIceCandidatesRemoved(cs);
      case IceUp => told := OnIceConnected();
      case IceDown => told := OnIceDisconnected();
      case PcClosed =>
      case PcStats =>
      case PcFailed => told := OnPeerConnectionError();
    }
  }
}
