# Mesh-call session orchestration of AppRTC (Dafny model)

This project models the part of the Android AppRTC fork that runs a small mesh
call. One device takes slot `userID` (1..9) and joins eight pairwise rooms, one
for each other slot. For every room it runs one `Connection`. A `Connection`
holds a signalling client and a media (peer-connection) client and forwards
events between them. The activity keeps these sessions in a `Connections`
list. It broadcasts lifecycle and UI operations to every session, and it ends
the call once every session has disconnected.

The collaborators (the WebSocket/direct signalling clients, the
PeerConnectionClient, the listener) are opaque. Each call made on them is
recorded in a ghost log: `commands` holds the calls on the clients and
`notifications` the calls on the listener. The contracts state what goes into
these logs and how the flags and handles change.

Modules, one per part of the program:

- `Wrappers`: `Option`, standing for Java's nullable references.
- `Collaborators`: the opaque WebRTC values, the command and notification
  alphabets, and `Count`, the number of times a command occurs in a log.
- `Pairing`: the room-id `switch` of `CallActivity.onCreate`. It is proved equal
  to the pairwise naming scheme and shown to be symmetric and collision-free.
- `SessionSpec`: each handler of `Connection` as a pure step function on a
  `SessionState` value. It defines the invariant "each collaborator is released
  at most once, and exactly when it is dropped" and proves that every step keeps
  it.
- `Session`: class `Connection`. Its fields are updated in place. Each handler
  and lifecycle method ensures `State() == SessionSpec.<step>(old(State()))`.
  `IsDisconnected` returns the flag. The helpers `DriveMediaClient`,
  `AnswerFromRoom` and `AddRoomCandidates` each ensure that exactly the stated
  block of commands is appended to the command log.
- `SessionSet`: class `Connections`. It holds the broadcast loops and
  `areAllDisconnected`.
- `Camera`: `createCameraCapturer`, two loops with early returns, proved against
  a recursive specification.
- `Call`: class `CallActivity`. It builds the eight sessions, runs the
  listener adapter (`checkIfCallIsDead`), the microphone latch and the
  first-error latch, and performs the teardown.

Where the code and its documentation disagree, the model follows the code:

- A `userID` outside 1..9, including the default 0, gives eight null rooms. It
  does not give an error. A non-loopback `Connection` then dereferences the
  null room when it tests it against the IP pattern. The `Connection`
  constructor therefore requires `loopback || room.Some?`. The `CallActivity`
  constructor and `Call.OnCreate` require `loopback || Pairing.IsSlot(userID)`.
  By `Pairing.TableIsPairwise` and `Pairing.NoSlotNoRooms` this is the same as
  every room of the table being non-null unless loopback.
- The field `callConnected` is never assigned (the `callConnected()` method
  only logs). Every teardown therefore reports `RESULT_CANCELED`.
  `Call.CallActivity.Disconnect` states this in an ensures.
- A teardown is not exactly-once. `disconnect()` ends with `finish()`
  (`CallActivity.java:857`). After that, `Connection.runOnUiThread`
  (`Connection.java:78-82`) drops every routed session handler, because the
  activity is finishing. Of the modelled paths, two can still run the teardown again:
  `onPeerConnectionError` (`Connection.java:329-336`), which does not go through
  `runOnUiThread`, and `onDestroy` (`CallActivity.java:703-712`). Disconnecting
  is idempotent on the sessions, so nothing is released twice
  (`SessionSpec.DisconnectWhenDown`).
- Null dereferences the code does not guard against become preconditions:
  - `connectToRoom` after disconnect;
  - `onConnectedToRoomInternal` without a media client;
  - `onLocalDescription` with a bitrate cap but no media client;
  - the cached `signalingParameters` being read before they are set.

## Model

| member | source | states |
|---|---|---|
| Pairing.RoomTable | app/src/main/java/org/appspot/apprtc/CallActivity.java:433-537 | The switch as written: for each slot 1..9, eight room ids, each the base id plus a two-digit pair suffix; eight nulls for any other userID. Its own contract states the length 8. Its content is stated by TableIsPairwise and NoSlotNoRooms. |
| Pairing.TableIsPairwise | app/src/main/java/org/appspot/apprtc/CallActivity.java:443-537 | For every userID, the hard-coded table equals the pairwise scheme: room k of slot u is the base id plus the two digits of u and its k-th peer, smaller first. A non-slot gives eight nulls. |
| Pairing.PeerSlotsAreTheOthers | app/src/main/java/org/appspot/apprtc/CallActivity.java:443-537 | The eight peers of a slot are exactly the other slots, in strictly ascending order, and PeerIndex finds each one. |
| Pairing.RoomAt | app/src/main/java/org/appspot/apprtc/CallActivity.java:443-537 | Room k of slot u pairs u with a different slot, and names the smaller digit first. |
| Pairing.NoSlotNoRooms | app/src/main/java/org/appspot/apprtc/CallActivity.java:433-443 | Outside 1..9 (the default 0 included), all eight room variables stay null. |
| Pairing.PairRoomsSymmetric | app/src/main/java/org/appspot/apprtc/CallActivity.java:443-537 | Slots u and p derive the same room for each other, so both ends of a pair meet. |
| Pairing.SuffixInjective | app/src/main/java/org/appspot/apprtc/CallActivity.java:443-537 | Two room suffixes are equal only for the same unordered pair of slots. |
| Pairing.BaseCancels | app/src/main/java/org/appspot/apprtc/CallActivity.java:443-537 | Appending suffixes to the same base id keeps them distinct. |
| Pairing.RoomsDistinct | app/src/main/java/org/appspot/apprtc/CallActivity.java:443-537 | The eight rooms of one slot are pairwise distinct. |
| Pairing.PairsDoNotCollide | app/src/main/java/org/appspot/apprtc/CallActivity.java:443-537 | Two pairs share a room only if they are the same unordered pair. |
| SessionSpec.SelectClientIff | app/src/main/java/org/appspot/apprtc/Connection.java:56-61 | The WebSocket client is chosen iff loopback or the room is not IP-like; the direct client otherwise. |
| SessionSpec.InitialInv | app/src/main/java/org/appspot/apprtc/Connection.java:34-76 | A new session holds both clients and has released nothing. Its signalling client is the one selected from the room. |
| SessionSpec.DisconnectInv | app/src/main/java/org/appspot/apprtc/Connection.java:369-382 | disconnect() sets the flag, drops both handles and releases each collaborator still held, so each release occurs at most once. |
| SessionSpec.StepInv | app/src/main/java/org/appspot/apprtc/Connection.java:93-386 | Every handler keeps the invariant: both handles are null iff disconnected, and each release occurs exactly once then and never before. |
| SessionSpec.RunInv | app/src/main/java/org/appspot/apprtc/Connection.java:369-382 | Over any sequence of events the invariant holds, so disconnectFromRoom and close are each issued at most once. |
| SessionSpec.RunKeepsDisconnected | app/src/main/java/org/appspot/apprtc/Connection.java:369-386 | Once disconnected, a session stays disconnected over any sequence of events. |
| SessionSpec.DisconnectIdempotent | app/src/main/java/org/appspot/apprtc/Connection.java:369-382 | A second disconnect() changes nothing, and afterwards both handles are null. |
| SessionSpec.DisconnectWhenDown | app/src/main/java/org/appspot/apprtc/Connection.java:369-382 | disconnect() on a session that is already down is the identity. |
| SessionSpec.DisconnectedIsSilent | app/src/main/java/org/appspot/apprtc/Connection.java:339-367 | Once disconnected, no event the code survives issues any command to either client. The events it would crash on, such as `connectToRoom` after disconnect, are excluded by their preconditions. |
| SessionSpec.ScreencaptureKeepsVideo | app/src/main/java/org/appspot/apprtc/Connection.java:339-350 | With screen capture, onStop and onStart do nothing. |
| SessionSpec.SetAudioReachesMedia | app/src/main/java/org/appspot/apprtc/Connection.java:358-362 | setAudioEnabled(b) forwards the same b iff the media client is held, and does nothing else. |
| SessionSpec.RoomJoinedOrder | app/src/main/java/org/appspot/apprtc/Connection.java:105-141 | The peer connection is created first. An initiator then only creates an offer. A non-initiator applies and answers a waiting offer, then adds the room's candidates in list order. |
| SessionSpec.AnswererLayout | app/src/main/java/org/appspot/apprtc/Connection.java:126-140 | A non-initiator never creates an offer. It creates an answer iff the room holds an offer, and that answer directly follows the setRemoteDescription. The room's candidates follow, in list order. |
| SessionSpec.OnlyCandidates | app/src/main/java/org/appspot/apprtc/Connection.java:134-139 | The candidate loop issues nothing but addRemoteIceCandidate. |
| SessionSpec.RoomJoinedReleasesNothing | app/src/main/java/org/appspot/apprtc/Connection.java:105-141 | Joining a room never releases a collaborator. |
| SessionSpec.RemoteSdpHandling | app/src/main/java/org/appspot/apprtc/Connection.java:144-163 | Remote SDP is ignored without a media client. Otherwise it is applied first, and an answer is created iff not initiator. |
| SessionSpec.RemoteCandidatesNeedMedia | app/src/main/java/org/appspot/apprtc/Connection.java:166-191 | Remote candidates and removals reach the media client iff it is held. |
| SessionSpec.LocalSdpHandling | app/src/main/java/org/appspot/apprtc/Connection.java:234-253 | Local SDP goes out as an offer iff initiator, as an answer otherwise, and only while the signalling client is held. The bitrate cap is applied iff it is set. |
| SessionSpec.LocalCandidatesNeedSignaling | app/src/main/java/org/appspot/apprtc/Connection.java:256-277 | Local candidates and removals reach the signalling client iff it is held. |
| SessionSpec.EventNotifications | app/src/main/java/org/appspot/apprtc/Connection.java:194-225 | Each terminal event disconnects and then emits exactly its own notification. ICE-connected sets the flag and notifies without disconnecting. No other event notifies. |
| SessionSpec.DisconnectedChangesOnlyByTeardown | app/src/main/java/org/appspot/apprtc/Connection.java:194-336 | Only a terminal event or a hang-up sets the flag, and nothing clears it. |
| SessionSpec.AddRemoteCands | app/src/main/java/org/appspot/apprtc/Connection.java:134-139 | One addRemoteIceCandidate per room candidate, in list order. |
| Session.Connection.constructor | app/src/main/java/org/appspot/apprtc/Connection.java:34-76 | Builds the initial state, with the client selected from the room and the factory commands issued, and establishes the invariant. |
| Session.Connection.OnStop | app/src/main/java/org/appspot/apprtc/Connection.java:339-343 | New state is the OnStop step, so the video is stopped only when the media client is held and screen capture is off. The invariant is kept. |
| Session.Connection.OnStart | app/src/main/java/org/appspot/apprtc/Connection.java:345-350 | Same as OnStop, for starting the video. |
| Session.Connection.ChangeCaptureFormat | app/src/main/java/org/appspot/apprtc/Connection.java:352-356 | Forwards the format iff the media client is held; the invariant is kept. |
| Session.Connection.SetAudioEnabled | app/src/main/java/org/appspot/apprtc/Connection.java:358-362 | Forwards the flag iff the media client is held; the invariant is kept. |
| Session.Connection.ConnectToRoom | app/src/main/java/org/appspot/apprtc/Connection.java:364-367 | Joins the room given at construction. It requires the signalling client, which the code dereferences unguarded. |
| Session.Connection.Disconnect | app/src/main/java/org/appspot/apprtc/Connection.java:369-382 | New state is the Disconnect step; the invariant is kept. |
| Session.Connection.IsDisconnected | app/src/main/java/org/appspot/apprtc/Connection.java:384-386 | Returns the flag. |
| Session.Connection.OnConnectedToRoom | app/src/main/java/org/appspot/apprtc/Connection.java:93-141 | Caches the parameters and issues the room-joined commands. The capturer is used only for video calls. |
| Session.Connection.DriveMediaClient | app/src/main/java/org/appspot/apprtc/Connection.java:115-141 | Appends exactly the room-joined commands: the peer connection is created, then an offer (initiator) or the answer from the room. |
| Session.Connection.AnswerFromRoom | app/src/main/java/org/appspot/apprtc/Connection.java:127-140 | Appends exactly the non-initiator commands: the offer applied and answered, then the room's candidates. |
| Session.Connection.AddRoomCandidates | app/src/main/java/org/appspot/apprtc/Connection.java:134-139 | The loop adds the candidates in list order. |
| Session.Connection.OnRemoteDescription | app/src/main/java/org/appspot/apprtc/Connection.java:144-163 | New state is the remote-SDP step; the invariant is kept. |
| Session.Connection.OnRemoteIceCandidate | app/src/main/java/org/appspot/apprtc/Connection.java:166-177 | New state is the remote-candidate step; the invariant is kept. |
| Session.Connection.OnRemoteIceCandidatesRemoved | app/src/main/java/org/appspot/apprtc/Connection.java:180-191 | New state is the removals step; the invariant is kept. |
| Session.Connection.Notify | app/src/main/java/org/appspot/apprtc/Connection.java:203-205 | Calls the listener iff there is one, and returns the notification delivered. |
| Session.Connection.OnChannelClose | app/src/main/java/org/appspot/apprtc/Connection.java:194-208 | Disconnects, then notifies onChannelClose. Returns that notification iff there is a listener. |
| Session.Connection.OnChannelError | app/src/main/java/org/appspot/apprtc/Connection.java:211-225 | Disconnects, then notifies onChannelError. |
| Session.Connection.OnLocalDescription | app/src/main/java/org/appspot/apprtc/Connection.java:234-253 | New state is the local-SDP step; the invariant is kept. |
| Session.Connection.OnIceCandidate | app/src/main/java/org/appspot/apprtc/Connection.java:256-265 | Sends the candidate iff the signalling client is held. |
| Session.Connection.OnIceCandidatesRemoved | app/src/main/java/org/appspot/apprtc/Connection.java:268-277 | Sends the removals iff the signalling client is held. |
| Session.Connection.OnIceConnected | app/src/main/java/org/appspot/apprtc/Connection.java:280-293 | Sets iceConnected, then notifies onConnectionEstablished. |
| Session.Connection.OnIceDisconnected | app/src/main/java/org/appspot/apprtc/Connection.java:296-309 | Clears iceConnected, disconnects, then notifies onIceDisconnected. |
| Session.Connection.OnPeerConnectionError | app/src/main/java/org/appspot/apprtc/Connection.java:329-336 | Disconnects, then notifies onPeerConnectionError. |
| Session.Connection.Handle | app/src/main/java/org/appspot/apprtc/Connection.java:93-336 | Dispatches any input to its handler; the new state is the Step. onPeerConnectionClosed and onPeerConnectionStatsReady change nothing. |
| SessionSet.Sweep | app/src/main/java/org/appspot/apprtc/Connections.java:11-57 | Definition used by Broadcast: one call per element, in list order. |
| SessionSet.SweepStep | app/src/main/java/org/appspot/apprtc/Connections.java:11-57 | Extending a sweep over n elements by the call to element n gives the sweep over n + 1. |
| SessionSet.Connections.States | app/src/main/java/org/appspot/apprtc/Connections.java:9 | Definition used by HandleEvent: the elements' states, in list order. |
| SessionSet.Connections.Add | app/src/main/java/org/appspot/apprtc/Connections.java:9 | Appends one session at the end. |
| SessionSet.Connections.Visit | app/src/main/java/org/appspot/apprtc/Connections.java:11-57 | One loop body: element i takes the operation's step, and its call is appended to the dispatch log. No other element changes. |
| SessionSet.Connections.Broadcast | app/src/main/java/org/appspot/apprtc/Connections.java:11-57 | Each element, in order, receives the operation once and ends in that operation's step from its own old state. A disconnected element stays disconnected. |
| SessionSet.Connections.OnStop | app/src/main/java/org/appspot/apprtc/Connections.java:11-17 | Every session takes its onStop step, in list order. |
| SessionSet.Connections.OnStart | app/src/main/java/org/appspot/apprtc/Connections.java:19-25 | Every session takes its onStart step, in list order. |
| SessionSet.Connections.ChangeCaptureFormat | app/src/main/java/org/appspot/apprtc/Connections.java:27-33 | Every session receives the same format. |
| SessionSet.Connections.SetAudioEnabled | app/src/main/java/org/appspot/apprtc/Connections.java:35-41 | Every session still holding a media client receives the same value, and no other session does. |
| SessionSet.Connections.ConnectToRooms | app/src/main/java/org/appspot/apprtc/Connections.java:43-49 | Every session joins its room, in list order. |
| SessionSet.Connections.Disconnect | app/src/main/java/org/appspot/apprtc/Connections.java:51-57 | Every session is disconnected afterwards. |
| SessionSet.Connections.AreAllDisconnected | app/src/main/java/org/appspot/apprtc/Connections.java:59-70 | True iff every element is disconnected; vacuously true for an empty list. |
| Camera.FirstCapturerIsFirst | app/src/main/java/org/appspot/apprtc/CallActivity.java:633-661 | None iff no device of the wanted facing yields a capturer. Otherwise the result is the capturer of the first device that does. |
| Camera.FrontCameraPreferred | app/src/main/java/org/appspot/apprtc/CallActivity.java:633-663 | A usable front camera always wins. A non-front-facing camera is chosen only when no front one is usable. Null iff no device is usable. |
| Camera.CreateCameraCapturer | app/src/main/java/org/appspot/apprtc/CallActivity.java:633-663 | The two loops return exactly the front-first choice. |
| Call.SessionConfig | app/src/main/java/org/appspot/apprtc/CallActivity.java:540-548 | Definition used by the constructor: every session reports to the activity's listener and joins its own room. |
| Call.AddSession | app/src/main/java/org/appspot/apprtc/CallActivity.java:540-557 | Builds a freshly allocated session for the next room and returns it. The new list is the old list with that session appended, so the earlier elements are the same objects. The dispatch log is unchanged, and the elements stay distinct. |
| Call.BuiltValid | app/src/main/java/org/appspot/apprtc/CallActivity.java:540-557 | A list of distinct sessions, each freshly built for its room, satisfies the list invariant. |
| Call.NewSessionList | app/src/main/java/org/appspot/apprtc/CallActivity.java:538-557 | The list (a field initializer) and the eight `new Connection(...)` and `add` calls give a fresh, valid list of eight freshly allocated sessions. Session k is built for room k, and nothing has been dispatched. |
| Call.CallActivity.ResultNow | app/src/main/java/org/appspot/apprtc/CallActivity.java:852-856 | Definition used by Disconnect: RESULT_OK iff callConnected and no error. |
| Call.CallActivity.constructor | app/src/main/java/org/appspot/apprtc/CallActivity.java:433-557 | Eight freshly allocated sessions in a fresh list, in slot order: session k is built for room k of the table, which is non-null unless loopback, reports to the listener and is freshly initialised. The mic starts enabled and there is no error. |
| Call.OnCreate | app/src/main/java/org/appspot/apprtc/CallActivity.java:433-586 | Builds a fresh activity whose list and eight sessions are freshly allocated too, so a caller can go on to drive it. Without screen capture it then starts the call, so every session takes its connectToRoom step and one connect per session is dispatched in list order. With screen capture every session stays as built and nothing is dispatched. |
| Call.CallActivity.Disconnect | app/src/main/java/org/appspot/apprtc/CallActivity.java:810-858 | Stops the activity and disconnects every session. Reports OK only when connected without error, which is never, so the result is RESULT_CANCELED. |
| Call.CallActivity.CheckIfCallIsDead | app/src/main/java/org/appspot/apprtc/CallActivity.java:217-221 | Tears down iff every session is disconnected. It leaves every session's state as it was. |
| Call.CallActivity.OnListenerNote | app/src/main/java/org/appspot/apprtc/CallActivity.java:191-222 | onConnectionEstablished never tears down. The four failure notifications tear down iff all sessions are disconnected. |
| Call.CallActivity.HandleEvent | app/src/main/java/org/appspot/apprtc/CallActivity.java:191-222 | After session i handles an input, the call is torn down iff the input is terminal and every other session was already down. Only session i's state changes. |
| Call.CallActivity.Deliver | app/src/main/java/org/appspot/apprtc/Connection.java:194-336 | Session i takes the step and reports its notification. After a terminal input, every session is down iff every other one was. |
| Call.CallActivity.OnToggleMic | app/src/main/java/org/appspot/apprtc/CallActivity.java:738-742 | Negates micEnabled, forwards the new value to every session and returns it. Two toggles therefore restore the flag. |
| Call.CallActivity.OnCaptureFormatChange | app/src/main/java/org/appspot/apprtc/CallActivity.java:733-735 | Broadcasts the format and changes nothing else. |
| Call.CallActivity.OnCallHangUp | app/src/main/java/org/appspot/apprtc/CallActivity.java:716-718 | Tears the call down: every session takes its Disconnect step, with one hang-up dispatched per element in list order, and RESULT_CANCELED is reported. micEnabled, isError and the dialog are unchanged. |
| Call.CallActivity.StartCall | app/src/main/java/org/appspot/apprtc/CallActivity.java:763-768 | Every session joins its room. |
| Call.CallActivity.OnStop | app/src/main/java/org/appspot/apprtc/CallActivity.java:682-690 | Marks the activity stopped and broadcasts onStop. |
| Call.CallActivity.OnStart | app/src/main/java/org/appspot/apprtc/CallActivity.java:693-699 | Marks the activity running and broadcasts onStart. |
| Call.CallActivity.OnDestroy | app/src/main/java/org/appspot/apprtc/CallActivity.java:703-712 | Tears the call down and leaves the activity stopped. Every session takes its Disconnect step, the hang-up sweep is dispatched, and micEnabled, isError and the dialog are unchanged. |
| Call.CallActivity.DisconnectWithErrorMessage | app/src/main/java/org/appspot/apprtc/CallActivity.java:860-880 | From the command line or when not running, it tears down at once: every session takes its Disconnect step, the hang-up sweep is dispatched and the dialog is unchanged. Otherwise it shows the dialog, keeps the activity running, and changes no session and no dispatch. |
| Call.CallActivity.OnErrorDialogOk | app/src/main/java/org/appspot/apprtc/CallActivity.java:872-875 | Dismisses the dialog and tears the call down, with the hang-up sweep dispatched. micEnabled and isError are unchanged. |
| Call.CallActivity.ReportError | app/src/main/java/org/appspot/apprtc/CallActivity.java:892-902 | Only the first error sets isError and leads on to the error teardown or the dialog. The teardown disconnects every session, dispatches the hang-up sweep and leaves the dialog unchanged. The dialog keeps the activity running and changes no session and no dispatch. Every later error changes nothing at all. |

## Left out

- Call.CallActivity.HandleEvent, Session.Connection.Handle: the `isFinishing()` guard of `Connection.runOnUiThread` (`Connection.java:78-82`) is not modelled. After `finish()` the model still handles the session events that the code drops, so it re-runs the teardown on more paths than the code does.
- NewSessionList: onCreate writes out eight `new Connection(...)` and then eight `add` calls; the model builds and adds the sessions in one loop over the slots, one at a time. A session's constructor does not touch the list, so the resulting list is the same.
- Threading: every `runOnUiThread` hop is modelled as running at once and to completion. The ordering between threads, and the synchronisation of `ProxyRenderer`, are not modelled.
- Rendering, audio routing, fragments, the CPU monitor, toasts and logging have no effect on the model.
- The intent parsing of `onCreate` (`CallActivity.java:380-430`) is left out, the empty-room-id early exit included. The constructor takes its results as parameters.
- `createVideoCapturer`, `createScreenCapturer` and the screen-capture permission flow are left out; the capturer handed to `onConnectedToRoom` is a parameter. The `reportError` calls that `createVideoCapturer` makes when the video file, the Camera2 texture capturer or the camera cannot be opened (`CallActivity.java:918`, `925`, `936`) are not modelled, so a failed capturer raises no error in the model. `startScreenCapture` and `onActivityResult` only lead to `StartCall`.
- `DirectRTCClient.IP_PATTERN` is a function parameter (`ipPattern`), and the camera enumerator is three parameters.
- `PeerConnectionClient.closeMediaSources`/`closeFactory` (the static factory teardown), wall-clock timing and the `postDelayed` command-line timer are left out.
- `SignalingParameters` keeps only the fields the sessions read (`initiator`, `offerSdp`, `iceCandidates`).
- The interleaving of commands across different sessions is recorded only by `Connections.dispatched`, not as one global log.
- SessionSet.Connections.Add: requires the session not to be in the list already. `ArrayList.add` allows duplicates, but the activity only ever adds fresh sessions.
- Call.CallActivity.OnErrorDialogOk: requires a dialog to be on screen, since the button exists only then.
- The code has no error report for an out-of-range slot, no isolation of exceptions thrown by one session during a broadcast, no exactly-once teardown and no configurable group size. None of these is modelled.
