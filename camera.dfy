/**
  Camera selection of CallActivity.createCameraCapturer: the device enumerator is
  given as three values, the device names in enumeration order, the facing test and
  the capturer factory (which may fail, returning None for Java's null).
 */
module Camera {

  import opened Wrappers
  import opened Collaborators

  /** Device `names[i]` faces the wanted way and its capturer can be created. */
  ghost predicate Usable(names: seq<string>, i: int, wantFront: bool,
                         isFront: string -> bool, create: string -> Option<VideoCapturer>)
  {
    0 <= i < |names| && isFront(names[i]) == wantFront && create(names[i]).Some?
  }

  /** The capturer of the first device facing the wanted way whose creation succeeds. */
  function FirstCapturer(names: seq<string>, wantFront: bool,
                         isFront: string -> bool, create: string -> Option<VideoCapturer>): (capturer: Option<VideoCapturer>)
  {
    if names == [] then None
    else if isFront(names[0]) == wantFront && create(names[0]).Some? then create(names[0])
    else FirstCapturer(names[1..], wantFront, isFront, create)
  }

  /** Front-facing cameras first, then the others; None when neither pass yields one. */
  function CameraChoice(names: seq<string>, isFront: string -> bool,
                        create: string -> Option<VideoCapturer>): (capturer: Option<VideoCapturer>)
  {
    match FirstCapturer(names, true, isFront, create)
    case Some(c) => Some(c)
    case None => FirstCapturer(names, false, isFront, create)
  }

  /**
    FirstCapturer is exactly "the first usable device": None iff no device is usable,
    and otherwise the capturer of a usable device with no usable device before it.
   */
  lemma {:induction false} FirstCapturerIsFirst(names: seq<string>, wantFront: bool,
                                                isFront: string -> bool, create: string -> Option<VideoCapturer>)
    ensures FirstCapturer(names, wantFront, isFront, create).None? <==>
      forall i :: 0 <= i < |names| ==> !Usable(names, i, wantFront, isFront, create)
    ensures FirstCapturer(names, wantFront, isFront, create).Some? ==>
      exists i :: Usable(names, i, wantFront, isFront, create)
        && FirstCapturer(names, wantFront, isFront, create) == create(names[i])
        && forall j :: 0 <= j < i ==> !Usable(names, j, wantFront, isFront, create)
  {
    if names != [] {
      var rest := names[1..];
      FirstCapturerIsFirst(rest, wantFront, isFront, create);
      forall i | 1 <= i < |names|
        ensures Usable(names, i, wantFront, isFront, create) == Usable(rest, i - 1, wantFront, isFront, create)
      {
        assert names[i] == rest[i - 1];
      }
      if Usable(names, 0, wantFront, isFront, create) {
        assert FirstCapturer(names, wantFront, isFront, create) == create(names[0]);
      } else if FirstCapturer(rest, wantFront, isFront, create).Some? {
        var i :| Usable(rest, i, wantFront, isFront, create)
          && FirstCapturer(rest, wantFront, isFront, create) == create(rest[i])
          && forall j :: 0 <= j < i ==> !Usable(rest, j, wantFront, isFront, create);
        assert Usable(names, i + 1, wantFront, isFront, create);
        forall j | 0 <= j < i + 1
          ensures !Usable(names, j, wantFront, isFront, create)
        {
          if j > 0 {
            assert !Usable(rest, j - 1, wantFront, isFront, create);
          }
        }
      } else {
        forall i | 0 <= i < |names|
          ensures !Usable(names, i, wantFront, isFront, create)
        {
          if i > 0 {
            assert !Usable(rest, i - 1, wantFront, isFront, create);
          }
        }
      }
    }
  }

  /**
    The selection order: a usable front-facing device always wins; a non-front one is
    chosen only when no front-facing device is usable; null only when no device is.
   */
  lemma FrontCameraPreferred(names: seq<string>, isFront: string -> bool,
                             create: string -> Option<VideoCapturer>)
    ensures (exists i :: Usable(names, i, true, isFront, create)) ==>
      CameraChoice(names, isFront, create) == FirstCapturer(names, true, isFront, create)
    ensures (forall i :: 0 <= i < |names| ==> !Usable(names, i, true, isFront, create)) ==>
      CameraChoice(names, isFront, create) == FirstCapturer(names, false, isFront, create)
    ensures CameraChoice(names, isFront, create).None? <==>
      forall i :: 0 <= i < |names| ==>
        !Usable(names, i, true, isFront, create) && !Usable(names, i, false, isFront, create)
  {
    FirstCapturerIsFirst(names, true, isFront, create);
    FirstCapturerIsFirst(names, false, isFront, create);
  }

  /**
    The two passes over the device names, each returning the first capturer that is
    created; null (None) when both passes find nothing.
   */
  method CreateCameraCapturer(deviceNames: seq<string>, isFrontFacing: string -> bool,
                              createCapturer: string -> Option<VideoCapturer>)
    returns (r: Option<VideoCapturer>)
    ensures r == CameraChoice(deviceNames, isFrontFacing, createCapturer)
  {
    var i := 0;
    while i < |deviceNames|
      invariant 0 <= i <= |deviceNames|
      invariant FirstCapturer(deviceNames, true, isFrontFacing, createCapturer)
             == FirstCapturer(deviceNames[i..], true, isFrontFacing, createCapturer)
    {
      assert deviceNames[i..][1..] == deviceNames[i + 1..];
      var deviceName := deviceNames[i];
      if isFrontFacing(deviceName) {
        var videoCapturer := createCapturer(deviceName);
        if videoCapturer.Some? {
          return videoCapturer;
        }
      }
      i := i + 1;
    }
    i := 0;
    while i < |deviceNames|
      invariant 0 <= i <= |deviceNames|
      invariant FirstCapturer(deviceNames, false, isFrontFacing, createCapturer)
             == FirstCapturer(deviceNames[i..], false, isFrontFacing, createCapturer)
    {
      assert deviceNames[i..][1..] == deviceNames[i + 1..];
      var deviceName := deviceNames[i];
      if !isFrontFacing(deviceName) {
        var videoCapturer := createCapturer(deviceName);
        if videoCapturer.Some? {
          return videoCapturer;
        }
      }
      i := i + 1;
    }
    return None;
  }
}
