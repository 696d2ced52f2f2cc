/**
  The call screen (CallActivity.java) as far as it orchestrates the sessions: it builds
  one Connection per pairwise room, forwards the lifecycle and UI operations to the
  list, turns every session's terminal notification into a check whether the whole
  call is dead, and keeps the microphone and first-error latches. Rendering, audio
  routing, fragments and the intent parsing are not modelled. The ghost log
  `outcomes` records each teardown's setResult, which is followed by finish().
 */
module Call {

  import opened Wrappers
  import opened Collaborators
  import Spec = SessionSpec
  import opened Session
  import opened SessionSet
  import Pairing

  /** The activity result set by a teardown. */
  datatype Outcome = ResultOk | ResultCanceled

  /** A session configured as every session of the call is: reporting to the activity's listener. */
  function SessionConfig(loopback: bool, screencaptureEnabled: bool, room: Option<string>, roomUri: string,
                         pcParams: PeerConnectionParameters): (cfg: Spec.Config)
    ensures cfg.hasListener && cfg.loopback == loopback && cfg.roomParams.roomId == room
  {
    Spec.Config(loopback, screencaptureEnabled, RoomConnectionParameters(roomUri, room, loopback), pcParams, true)
  }

  /** Element j of the list is a fresh session for room j of `rooms`, as Connection's constructor leaves it. */
  ghost predicate BuiltFrom(list: Connections, loopback: bool, screencaptureEnabled: bool, rooms: seq<Option<string>>,
                            roomUri: string, pcParams: PeerConnectionParameters, ipPattern: string -> bool)
    reads list, list.items
  {
    && |list.items| <= |rooms|
    && forall j :: 0 <= j < |list.items| ==>
         && (loopback || rooms[j].Some?)
         && list.items[j].config == SessionConfig(loopback, screencaptureEnabled, rooms[j], roomUri, pcParams)
         && list.items[j].State() == Spec.Initial(list.items[j].config, ipPattern)
  }

  /** A list built from fresh sessions keeps every session's invariant. */
  lemma BuiltValid(list: Connections, loopback: bool, screencaptureEnabled: bool, rooms: seq<Option<string>>,
                   roomUri: string, pcParams: PeerConnectionParameters, ipPattern: string -> bool)
    requires list.Distinct() && BuiltFrom(list, loopback, screencaptureEnabled, rooms, roomUri, pcParams, ipPattern)
    ensures list.Valid()
  {
    forall k | 0 <= k < |list.items|
      ensures list.items[k].Valid()
    {
      Spec.InitialInv(list.items[k].config, ipPattern);
    }
  }

  /**
    `new Connection(...)` for the next room of `rooms` followed by `connectionList.add`.
    The list's other elements are left as they are.
   */
  method AddSession(list: Connections, loopback: bool, screencaptureEnabled: bool, rooms: seq<Option<string>>,
                    roomUri: string, pcParams: PeerConnectionParameters, ipPattern: string -> bool)
    returns (connection: Connection)
    requires list.Distinct() && |list.items| < |rooms| && (loopback || rooms[|list.items|].Some?)
    requires BuiltFrom(list, loopback, screencaptureEnabled, rooms, roomUri, pcParams, ipPattern)
    modifies list
    ensures list.Distinct() && |list.items| == |old(list.items)| + 1 && list.dispatched == old(list.dispatched)
    ensures list.items == old(list.items) + [connection] && fresh(connection)
    ensures BuiltFrom(list, loopback, screencaptureEnabled, rooms, roomUri, pcParams, ipPattern)
  {
    BuiltValid(list, loopback, screencaptureEnabled, rooms, roomUri, pcParams, ipPattern);
    connection := new Connection(loopback, screencaptureEnabled, rooms[|list.items|], roomUri,
                                 pcParams, true, ipPattern);
    list.Add(connection);
  }

  /**
    The list of the field initializer and the eight sessions of onCreate, one per room in
    slot order. onCreate writes out eight `new Connection(...)` and then eight
    `connectionList.add`; the loop builds and adds each session in turn, which ends in
    the same list since building a session does not touch the list.
   */
  method NewSessionList(loopback: bool, screencaptureEnabled: bool, rooms: seq<Option<string>>,
                        roomUri: string, pcParams: PeerConnectionParameters, ipPattern: string -> bool)
    returns (list: Connections)
    requires |rooms| == 8 && forall k :: 0 <= k < 8 ==> loopback || rooms[k].Some?
    ensures fresh(list) && list.Valid() && |list.items| == 8 && list.dispatched == []
    ensures forall k :: 0 <= k < 8 ==> fresh(list.items[k])
    ensures BuiltFrom(list, loopback, screencaptureEnabled, rooms, roomUri, pcParams, ipPattern)
  {
    list := new Connections();
    for k := 0 to 8
      invariant fresh(list) && list.Distinct() && |list.items| == k && list.dispatched == []
      invariant forall j :: 0 <= j < k ==> fresh(list.items[j])
      invariant BuiltFrom(list, loopback, screencaptureEnabled, rooms, roomUri, pcParams, ipPattern)
    {
      var connection := AddSession(list, loopback, screencaptureEnabled, rooms, roomUri, pcParams, ipPattern);
    }
    BuiltValid(list, loopback, screencaptureEnabled, rooms, roomUri, pcParams, ipPattern);
  }

  class CallActivity {
    const connectionList: Connections
    const commandLineRun: bool
    var micEnabled: bool
    var isError: bool
    /** Declared and read by the activity, but never assigned: it keeps Java's default. */
    var callConnected: bool
    var activityRunning: bool
    /** The error dialog on screen, if any; its button tears the call down. */
    var errorDialog: Option<string>
    ghost var outcomes: seq<Outcome>

    /**
      The list keeps its invariant, every session reports to this activity's listener,
      and callConnected still has its initial value.
     */
    ghost predicate Valid()
      reads this, connectionList, connectionList.items
    {
      && connectionList.Valid()
      && (forall k :: 0 <= k < |connectionList.items| ==> connectionList.items[k].config.hasListener)
      && !callConnected
    }

    /** What the next teardown reports. */
    function ResultNow(): (o: Outcome)
      reads this
      ensures o == ResultOk <==> callConnected && !isError
    {
      if callConnected && !isError then ResultOk else ResultCanceled
    }

    /**
      The room switch and the eight Connections of onCreate, built and added in slot
      order; session k is built for room k of the pairwise table. A slot outside 1..9 leaves
      every room null, which only loopback sessions can take.
     */
    constructor (roomID: string, userID: int, roomUri: string, loopback: bool, screencaptureEnabled: bool,
                 pcParams: PeerConnectionParameters, ipPattern: string -> bool, commandLineRun: bool)
      requires loopback || Pairing.IsSlot(userID)
      ensures Valid() && |connectionList.items| == 8
      ensures fresh(connectionList) && forall k :: 0 <= k < 8 ==> fresh(connectionList.items[k])
      ensures forall k :: 0 <= k < 8 ==>
        && (loopback || Pairing.RoomTable(roomID, userID)[k].Some?)
        && connectionList.items[k].config
             == SessionConfig(loopback, screencaptureEnabled, Pairing.RoomTable(roomID, userID)[k], roomUri, pcParams)
        && connectionList.items[k].State() == Spec.Initial(connectionList.items[k].config, ipPattern)
      ensures connectionList.dispatched == []
      ensures this.commandLineRun == commandLineRun
      ensures micEnabled && !isError && !activityRunning && errorDialog == None && outcomes == []
    {
      var rooms := Pairing.RoomTable(roomID, userID);
      if !loopback {
        Pairing.TableIsPairwise(roomID, userID);
      }
      assert forall k :: 0 <= k < 8 ==> loopback || rooms[k].Some?;
      var list := NewSessionList(loopback, screencaptureEnabled, rooms, roomUri, pcParams, ipPattern);
      connectionList := list;
      this.commandLineRun := commandLineRun;
      micEnabled, isError, callConnected, activityRunning := true, false, false, false;
      errorDialog := None;
      outcomes := [];
    }

    // ---- teardown -----------------------------------------------------------

    /**
      Stops the activity, disconnects every session and reports the result: OK only for
      a connected call without error, which, callConnected never being set, is never.
     */
    method Disconnect()
      requires Valid()
      modifies this, connectionList, connectionList.items
      ensures Valid() && connectionList.items == old(connectionList.items)
      ensures forall k :: 0 <= k < |connectionList.items| ==>
        connectionList.items[k].State() == Spec.Disconnect(old(connectionList.items[k].State()))
      ensures connectionList.AllDisconnected()
      ensures connectionList.dispatched == old(connectionList.dispatched) + Sweep(Spec.Hangup, |connectionList.items|)
      ensures !activityRunning && outcomes == old(outcomes) + [old(ResultNow())]
      ensures outcomes[|outcomes| - 1] == ResultCanceled
      ensures micEnabled == old(micEnabled) && isError == old(isError) && errorDialog == old(errorDialog)
    {
      activityRunning := false;
      connectionList.Disconnect();
      outcomes := outcomes + [ResultNow()];
    }

    /** Tears the call down iff every session is disconnected (true of an empty list). */
    method CheckIfCallIsDead()
      requires Valid()
      modifies this, connectionList, connectionList.items
      ensures Valid() && connectionList.items == old(connectionList.items)
      ensures connectionList.States() == old(connectionList.States())
      ensures var dead := old(connectionList.AllDisconnected());
        && outcomes == old(outcomes) + (if dead then [ResultCanceled] else [])
        && activityRunning == (old(activityRunning) && !dead)
        && connectionList.dispatched == old(connectionList.dispatched)
             + (if dead then Sweep(Spec.Hangup, |connectionList.items|) else [])
      ensures micEnabled == old(micEnabled) && isError == old(isError) && errorDialog == old(errorDialog)
    {
      var allDown := connectionList.AreAllDisconnected();
      if allDown {
        Disconnect();
        forall k | 0 <= k < |connectionList.items|
          ensures connectionList.items[k].State() == old(connectionList.items[k].State())
        {
          Spec.DisconnectWhenDown(old(connectionList.items[k].State()));
        }
        assert connectionList.States() == old(connectionList.States());
      }
    }

    /**
      The listener adapter: an established connection only logs; each of the four
      failure notifications checks whether the call is dead.
     */
    method OnListenerNote(n: Note)
      requires Valid()
      modifies this, connectionList, connectionList.items
      ensures Valid() && connectionList.items == old(connectionList.items)
      ensures connectionList.States() == old(connectionList.States())
      ensures var dead := n != ConnectionEstablished && old(connectionList.AllDisconnected());
        && outcomes == old(outcomes) + (if dead then [ResultCanceled] else [])
        && activityRunning == (old(activityRunning) && !dead)
        && connectionList.dispatched == old(connectionList.dispatched)
             + (if dead then Sweep(Spec.Hangup, |connectionList.items|) else [])
      ensures micEnabled == old(micEnabled) && isError == old(isError) && errorDialog == old(errorDialog)
    {
      match n
      case ConnectionEstablished =>
      case ChannelClose => CheckIfCallIsDead();
      case ChannelError => CheckIfCallIsDead();
      case IceDisconnected => CheckIfCallIsDead();
      case PeerConnectionError => CheckIfCallIsDead();
    }

    /**
      One input delivered to session `i`, followed by the listener call it makes. The
      call is torn down exactly when the input is terminal and every other session
      was already disconnected; no other session is touched unless it is.
     */
    method HandleEvent(i: nat, e: Spec.Event)
      requires Valid() && i < |connectionList.items|
      requires Spec.Pre(connectionList.items[i].config, connectionList.items[i].State(), e)
      modifies this, connectionList, connectionList.items
      ensures Valid() && connectionList.items == old(connectionList.items)
      ensures connectionList.States() == old(connectionList.States())[i :=
                Spec.Step(connectionList.items[i].config, old(connectionList.items[i].State()), e)]
      ensures var dead := Spec.IsTerminal(e) && forall k :: 0 <= k < |connectionList.items| && k != i ==>
                                                   old(connectionList.items[k].disconnected);
        && outcomes == old(outcomes) + (if dead then [ResultCanceled] else [])
        && activityRunning == (old(activityRunning) && !dead)
        && connectionList.dispatched == old(connectionList.dispatched)
             + (if dead then Sweep(Spec.Hangup, |connectionList.items|) else [])
      ensures micEnabled == old(micEnabled) && isError == old(isError) && errorDialog == old(errorDialog)
    {
      var told := Deliver(i, e);
      if told.Some? {
        OnListenerNote(told.value);
      }
    }

    /** The session's own handler for `e`, which ends with the listener call it makes. */
    method Deliver(i: nat, e: Spec.Event) returns (told: Option<Note>)
      requires Valid() && i < |connectionList.items|
      requires Spec.Pre(connectionList.items[i].config, connectionList.items[i].State(), e)
      modifies connectionList.items[i]
      ensures Valid()
      ensures connectionList.States() == old(connectionList.States())[i :=
                Spec.Step(connectionList.items[i].config, old(connectionList.items[i].State()), e)]
      ensures told == Spec.NoteOf(e)
      ensures Spec.IsTerminal(e) <==> told.Some? && told.value != ConnectionEstablished
      ensures Spec.IsTerminal(e) ==>
        (connectionList.AllDisconnected() <==>
           forall k :: 0 <= k < |connectionList.items| && k != i ==> old(connectionList.items[k].disconnected))
    {
      var session := connectionList.items[i];
      ghost var before := connectionList.States();
      told := session.Handle(e);
      Spec.EventNotifications(session.config, before[i], e);
      assert connectionList.States() == before[i := session.State()];
      forall k | 0 <= k < |connectionList.items| && k != i
        ensures connectionList.items[k].disconnected == before[k].disconnected
      {
        assert connectionList.States()[k] == before[k];
      }
    }

    // ---- UI operations ------------------------------------------------------

    /** Flips the microphone flag, forwards the new value to every session and returns it. */
    method OnToggleMic() returns (r: bool)
      requires Valid()
      modifies this, connectionList, connectionList.items
      ensures Valid() && connectionList.items == old(connectionList.items)
      ensures r == !old(micEnabled) && micEnabled == r
      ensures forall k :: 0 <= k < |connectionList.items| ==>
        connectionList.items[k].State() == Spec.SetAudioEnabled(old(connectionList.items[k].State()), r)
      ensures connectionList.dispatched == old(connectionList.dispatched) + Sweep(Spec.Audio(r), |connectionList.items|)
      ensures isError == old(isError) && activityRunning == old(activityRunning)
      ensures errorDialog == old(errorDialog) && outcomes == old(outcomes)
    {
      micEnabled := !micEnabled;
      connectionList.SetAudioEnabled(micEnabled);
      return micEnabled;
    }

    /** Forwards a capture format to every session. */
    method OnCaptureFormatChange(width: int, height: int, framerate: int)
      requires Valid()
      modifies this, connectionList, connectionList.items
      ensures Valid() && connectionList.items == old(connectionList.items)
      ensures forall k :: 0 <= k < |connectionList.items| ==>
        connectionList.items[k].State()
          == Spec.ChangeCaptureFormat(old(connectionList.items[k].State()), width, height, framerate)
      ensures connectionList.dispatched == old(connectionList.dispatched)
        + Sweep(Spec.CaptureFormat(width, height, framerate), |connectionList.items|)
      ensures micEnabled == old(micEnabled) && isError == old(isError) && activityRunning == old(activityRunning)
      ensures errorDialog == old(errorDialog) && outcomes == old(outcomes)
    {
      connectionList.ChangeCaptureFormat(width, height, framerate);
    }

    /** The hang-up button tears the call down. */
    method OnCallHangUp()
      requires Valid()
      modifies this, connectionList, connectionList.items
      ensures Valid() && connectionList.items == old(connectionList.items)
      ensures forall k :: 0 <= k < |connectionList.items| ==>
        connectionList.items[k].State() == Spec.Disconnect(old(connectionList.items[k].State()))
      ensures connectionList.AllDisconnected()
      ensures !activityRunning && outcomes == old(outcomes) + [ResultCanceled]
      ensures connectionList.dispatched == old(connectionList.dispatched) + Sweep(Spec.Hangup, |connectionList.items|)
      ensures micEnabled == old(micEnabled) && isError == old(isError) && errorDialog == old(errorDialog)
    {
      Disconnect();
    }

    /** Joins every room; a session already disconnected would dereference a null client. */
    method StartCall()
      requires Valid()
      requires forall k :: 0 <= k < |connectionList.items| ==> connectionList.items[k].appRtcClient.Some?
      modifies this, connectionList, connectionList.items
      ensures Valid() && connectionList.items == old(connectionList.items)
      ensures forall k :: 0 <= k < |connectionList.items| ==>
        connectionList.items[k].State()
          == Spec.ConnectToRoom(connectionList.items[k].config, old(connectionList.items[k].State()))
      ensures connectionList.dispatched == old(connectionList.dispatched) + Sweep(Spec.Connect, |connectionList.items|)
      ensures micEnabled == old(micEnabled) && isError == old(isError) && activityRunning == old(activityRunning)
      ensures errorDialog == old(errorDialog) && outcomes == old(outcomes)
    {
      connectionList.ConnectToRooms();
    }

    // ---- activity lifecycle -------------------------------------------------

    method OnStop()
      requires Valid()
      modifies this, connectionList, connectionList.items
      ensures Valid() && connectionList.items == old(connectionList.items)
      ensures !activityRunning
      ensures forall k :: 0 <= k < |connectionList.items| ==>
        connectionList.items[k].State() == Spec.OnStop(connectionList.items[k].config, old(connectionList.items[k].State()))
      ensures connectionList.dispatched == old(connectionList.dispatched) + Sweep(Spec.Stop, |connectionList.items|)
      ensures micEnabled == old(micEnabled) && isError == old(isError)
      ensures errorDialog == old(errorDialog) && outcomes == old(outcomes)
    {
      activityRunning := false;
      connectionList.OnStop();
    }

    method OnStart()
      requires Valid()
      modifies this, connectionList, connectionList.items
      ensures Valid() && connectionList.items == old(connectionList.items)
      ensures activityRunning
      ensures forall k :: 0 <= k < |connectionList.items| ==>
        connectionList.items[k].State() == Spec.OnStart(connectionList.items[k].config, old(connectionList.items[k].State()))
      ensures connectionList.dispatched == old(connectionList.dispatched) + Sweep(Spec.Start, |connectionList.items|)
      ensures micEnabled == old(micEnabled) && isError == old(isError)
      ensures errorDialog == old(errorDialog) && outcomes == old(outcomes)
    {
      activityRunning := true;
      connectionList.OnStart();
    }

    /** Tears the call down, then marks the activity stopped. */
    method OnDestroy()
      requires Valid()
      modifies this, connectionList, connectionList.items
      ensures Valid() && connectionList.items == old(connectionList.items)
      ensures forall k :: 0 <= k < |connectionList.items| ==>
        connectionList.items[k].State() == Spec.Disconnect(old(connectionList.items[k].State()))
      ensures connectionList.AllDisconnected()
      ensures !activityRunning && outcomes == old(outcomes) + [ResultCanceled]
      ensures connectionList.dispatched == old(connectionList.dispatched) + Sweep(Spec.Hangup, |connectionList.items|)
      ensures micEnabled == old(micEnabled) && isError == old(isError) && errorDialog == old(errorDialog)
    {
      Disconnect();
      activityRunning := false;
    }

    // ---- errors -------------------------------------------------------------

    /**
      Tears down at once when run from the command line or when the activity is not
      running; otherwise shows a dialog whose button tears down later.
     */
    method DisconnectWithErrorMessage(errorMessage: string)
      requires Valid()
      modifies this, connectionList, connectionList.items
      ensures Valid() && connectionList.items == old(connectionList.items)
      ensures micEnabled == old(micEnabled) && isError == old(isError)
      ensures commandLineRun || !old(activityRunning) ==>
        && connectionList.AllDisconnected()
        && (forall k :: 0 <= k < |connectionList.items| ==>
              connectionList.items[k].State() == Spec.Disconnect(old(connectionList.items[k].State())))
        && connectionList.dispatched == old(connectionList.dispatched) + Sweep(Spec.Hangup, |connectionList.items|)
        && !activityRunning && errorDialog == old(errorDialog) && outcomes == old(outcomes) + [old(ResultNow())]
      ensures !commandLineRun && old(activityRunning) ==>
        && (forall k :: 0 <= k < |connectionList.items| ==>
              connectionList.items[k].State() == old(connectionList.items[k].State()))
        && connectionList.dispatched == old(connectionList.dispatched)
        && activityRunning && errorDialog == Some(errorMessage) && outcomes == old(outcomes)
    {
      if commandLineRun || !activityRunning {
        Disconnect();
      } else {
        errorDialog := Some(errorMessage);
      }
    }

    /** The dialog's OK button: dismisses it and tears the call down. */
    method OnErrorDialogOk()
      requires Valid() && errorDialog.Some?
      modifies this, connectionList, connectionList.items
      ensures Valid() && connectionList.items == old(connectionList.items)
      ensures connectionList.AllDisconnected()
      ensures forall k :: 0 <= k < |connectionList.items| ==>
        connectionList.items[k].State() == Spec.Disconnect(old(connectionList.items[k].State()))
      ensures errorDialog == None && !activityRunning && outcomes == old(outcomes) + [ResultCanceled]
      ensures connectionList.dispatched == old(connectionList.dispatched) + Sweep(Spec.Hangup, |connectionList.items|)
      ensures micEnabled == old(micEnabled) && isError == old(isError)
    {
      errorDialog := None;
      Disconnect();
    }

    /**
      The first-error latch: only the first report sets isError and leads on to the
      error teardown; every later report changes nothing at all.
     */
    method ReportError(description: string)
      requires Valid()
      modifies this, connectionList, connectionList.items
      ensures Valid() && connectionList.items == old(connectionList.items)
      ensures isError && micEnabled == old(micEnabled)
      ensures old(isError) ==>
        && (forall k :: 0 <= k < |connectionList.items| ==>
              connectionList.items[k].State() == old(connectionList.items[k].State()))
        && connectionList.dispatched == old(connectionList.dispatched)
        && activityRunning == old(activityRunning) && errorDialog == old(errorDialog) && outcomes == old(outcomes)
      ensures !old(isError) && (commandLineRun || !old(activityRunning)) ==>
        && connectionList.AllDisconnected()
        && (forall k :: 0 <= k < |connectionList.items| ==>
              connectionList.items[k].State() == Spec.Disconnect(old(connectionList.items[k].State())))
        && connectionList.dispatched == old(connectionList.dispatched) + Sweep(Spec.Hangup, |connectionList.items|)
        && !activityRunning && errorDialog == old(errorDialog) && outcomes == old(outcomes) + [ResultCanceled]
      ensures !old(isError) && !commandLineRun && old(activityRunning) ==>
        && (forall k :: 0 <= k < |connectionList.items| ==>
              connectionList.items[k].State() == old(connectionList.items[k].State()))
        && connectionList.dispatched == old(connectionList.dispatched)
        && activityRunning && errorDialog == Some(description) && outcomes == old(outcomes)
    {
      if !isError {
        isError := true;
        DisconnectWithErrorMessage(description);
      }
    }
  }

  /**
    onCreate as a whole: the activity with its eight sessions, then the call starts at
    once unless screen capture is on, in which case startScreenCapture first asks for the
    capture permission (the request and its result are not modelled).
   */
  method OnCreate(roomID: string, userID: int, roomUri: string, loopback: bool, screencaptureEnabled: bool,
                  pcParams: PeerConnectionParameters, ipPattern: string -> bool, commandLineRun: bool)
    returns (activity: CallActivity)
    requires loopback || Pairing.IsSlot(userID)
    ensures fresh(activity) && activity.Valid() && |activity.connectionList.items| == 8
    ensures fresh(activity.connectionList) && forall k :: 0 <= k < 8 ==> fresh(activity.connectionList.items[k])
    ensures forall k :: 0 <= k < 8 ==>
      && (loopback || Pairing.RoomTable(roomID, userID)[k].Some?)
      && activity.connectionList.items[k].config
           == SessionConfig(loopback, screencaptureEnabled, Pairing.RoomTable(roomID, userID)[k], roomUri, pcParams)
      && activity.connectionList.items[k].State()
           == (var initial := Spec.Initial(activity.connectionList.items[k].config, ipPattern);
               if screencaptureEnabled then initial
               else Spec.ConnectToRoom(activity.connectionList.items[k].config, initial))
    ensures activity.connectionList.dispatched == if screencaptureEnabled then [] else Sweep(Spec.Connect, 8)
    ensures activity.commandLineRun == commandLineRun
    ensures activity.micEnabled && !activity.isError && !activity.activityRunning
    ensures activity.errorDialog == None && activity.outcomes == []
  {
    activity := new CallActivity(roomID, userID, roomUri, loopback, screencaptureEnabled,
                                 pcParams, ipPattern, commandLineRun);
    if !screencaptureEnabled {
      activity.StartCall();
    }
  }
}
