/**
  The ordered list of sessions of one call (Connections.java). Every broadcast walks
  the list in order and calls the same Connection operation once on each element;
  `areAllDisconnected` reads every element's flag and stops at the first live one.
  The ghost log `dispatched` records which element received which operation, in order.
 */
module SessionSet {

  import opened Collaborators
  import Spec = SessionSpec
  import opened Session

  /** One call of a Connection operation on the element at `index`. */
  datatype Dispatch = Dispatch(index: nat, op: Spec.Event)

  /** The lifecycle operations the list broadcasts. */
  predicate IsBroadcast(op: Spec.Event) {
    op.Stop? || op.Start? || op.CaptureFormat? || op.Audio? || op.Connect? || op.Hangup?
  }

  /** One call of `op` on each of the first `n` elements, in list order. */
  function Sweep(op: Spec.Event, n: nat): (calls: seq<Dispatch>)
    ensures |calls| == n
    ensures forall k :: 0 <= k < n ==> calls[k] == Dispatch(k, op)
  {
    seq(n, k requires 0 <= k < n => Dispatch(k, op))
  }

  /** A sweep over one more element is the shorter sweep followed by that element's call. */
  lemma SweepStep(log: seq<Dispatch>, op: Spec.Event, n: nat)
    ensures log + Sweep(op, n) + [Dispatch(n, op)] == log + Sweep(op, n + 1)
  {
    assert Sweep(op, n) + [Dispatch(n, op)] == Sweep(op, n + 1);
  }

  class Connections {
    var items: seq<Connection>
    ghost var dispatched: seq<Dispatch>

    /** The elements are distinct sessions, each keeping its own invariant. */
    ghost predicate Valid()
      reads this, items
    {
      && Distinct()
      && (forall k :: 0 <= k < |items| ==> items[k].Valid())
    }

    /** No session appears twice. */
    ghost predicate Distinct()
      reads this
    {
      forall i, j :: 0 <= i < j < |items| ==> items[i] != items[j]
    }

    /** The call-level aggregate: every session is disconnected (true of an empty list). */
    ghost predicate AllDisconnected()
      reads this, items
    {
      forall k :: 0 <= k < |items| ==> items[k].disconnected
    }

    /** The sessions' states, in list order. */
    ghost function States(): (ss: seq<Spec.SessionState>)
      reads this, items
      ensures |ss| == |items| && forall k :: 0 <= k < |items| ==> ss[k] == items[k].State()
    {
      seq(|items|, k reads this, items requires 0 <= k < |items| => items[k].State())
    }

    constructor ()
      ensures Valid() && items == [] && dispatched == []
    {
      items := [];
      dispatched := [];
    }

    /** ArrayList.add. */
    method Add(c: Connection)
      requires Valid() && c.Valid() && c !in items
      modifies this
      ensures Valid() && items == old(items) + [c] && dispatched == old(dispatched)
    {
      items := items + [c];
    }

    /**
      Calls `op` once on every element, in list order. Each element ends in the state
      that `op` gives it from its own old state; the flag of no element reverts.
     */
    method Broadcast(op: Spec.Event)
      requires Valid() && IsBroadcast(op)
      requires forall k :: 0 <= k < |items| ==> Spec.Pre(items[k].config, items[k].State(), op)
      modifies this, items
      ensures Valid() && items == old(items)
      ensures forall k :: 0 <= k < |items| ==>
        items[k].State() == Spec.Step(items[k].config, old(items[k].State()), op)
      ensures dispatched == old(dispatched) + Sweep(op, |items|)
      ensures old(AllDisconnected()) ==> AllDisconnected()
    {
      ghost var before := States();
      var i := 0;
      while i < |items|
        invariant 0 <= i <= |items| && items == old(items) && Valid()
        invariant forall k :: 0 <= k < i ==> items[k].State() == Spec.Step(items[k].config, before[k], op)
        invariant forall k :: i <= k < |items| ==> items[k].State() == before[k]
        invariant dispatched == old(dispatched) + Sweep(op, i)
      {
        Visit(i, op);
        SweepStep(old(dispatched), op, i);
        i := i + 1;
      }
      forall k | 0 <= k < |items|
        ensures before[k].disconnected ==> items[k].disconnected
      {
        Spec.DisconnectedChangesOnlyByTeardown(items[k].config, before[k], op);
      }
    }

    /** One step of a broadcast: calls `op` on the element at `i` and on no other. */
    method Visit(i: nat, op: Spec.Event)
      requires Valid() && i < |items| && Spec.Pre(items[i].config, items[i].State(), op)
      modifies this, items[i]
      ensures Valid() && items == old(items)
      ensures items[i].State() == Spec.Step(items[i].config, old(items[i].State()), op)
      ensures forall k :: 0 <= k < |items| && k != i ==> items[k].State() == old(items[k].State())
      ensures dispatched == old(dispatched) + [Dispatch(i, op)]
    {
      var next := items[i];
      var _ := next.Handle(op);
      dispatched := dispatched + [Dispatch(i, op)];
    }

    method OnStop()
      requires Valid()
      modifies this, items
      ensures Valid() && items == old(items)
      ensures forall k :: 0 <= k < |items| ==>
        items[k].State() == Spec.OnStop(items[k].config, old(items[k].State()))
      ensures dispatched == old(dispatched) + Sweep(Spec.Stop, |items|)
    {
      Broadcast(Spec.Stop);
    }

    method OnStart()
      requires Valid()
      modifies this, items
      ensures Valid() && items == old(items)
      ensures forall k :: 0 <= k < |items| ==>
        items[k].State() == Spec.OnStart(items[k].config, old(items[k].State()))
      ensures dispatched == old(dispatched) + Sweep(Spec.Start, |items|)
    {
      Broadcast(Spec.Start);
    }

    method ChangeCaptureFormat(width: int, height: int, framerate: int)
      requires Valid()
      modifies this, items
      ensures Valid() && items == old(items)
      ensures forall k :: 0 <= k < |items| ==>
        items[k].State() == Spec.ChangeCaptureFormat(old(items[k].State()), width, height, framerate)
      ensures dispatched == old(dispatched) + Sweep(Spec.CaptureFormat(width, height, framerate), |items|)
    {
      Broadcast(Spec.CaptureFormat(width, height, framerate));
    }

    /** Forwards the same value to every element still holding a media client, and to no other. */
    method SetAudioEnabled(micEnabled: bool)
      requires Valid()
      modifies this, items
      ensures Valid() && items == old(items)
      ensures forall k :: 0 <= k < |items| ==>
        items[k].State() == Spec.SetAudioEnabled(old(items[k].State()), micEnabled)
      ensures forall k :: 0 <= k < |items| ==>
        items[k].commands == old(items[k].commands)
          + (if old(items[k].peerConnectionClient).Some? then [SetAudio(micEnabled)] else [])
      ensures dispatched == old(dispatched) + Sweep(Spec.Audio(micEnabled), |items|)
    {
      Broadcast(Spec.Audio(micEnabled));
    }

    /** Joins every room; each element must still hold its signalling client. */
    method ConnectToRooms()
      requires Valid()
      requires forall k :: 0 <= k < |items| ==> items[k].appRtcClient.Some?
      modifies this, items
      ensures Valid() && items == old(items)
      ensures forall k :: 0 <= k < |items| ==>
        items[k].State() == Spec.ConnectToRoom(items[k].config, old(items[k].State()))
      ensures dispatched == old(dispatched) + Sweep(Spec.Connect, |items|)
    {
      Broadcast(Spec.Connect);
    }

    /** Disconnects every element; afterwards the call is all disconnected. */
    method Disconnect()
      requires Valid()
      modifies this, items
      ensures Valid() && items == old(items)
      ensures forall k :: 0 <= k < |items| ==>
        items[k].State() == Spec.Disconnect(old(items[k].State()))
      ensures dispatched == old(dispatched) + Sweep(Spec.Hangup, |items|)
      ensures AllDisconnected()
    {
      Broadcast(Spec.Hangup);
    }

    /** True iff every element reports itself disconnected; vacuously true when empty. */
    method AreAllDisconnected() returns (r: bool)
      ensures r <==> forall k :: 0 <= k < |items| ==> items[k].disconnected
    {
      var i := 0;
      while i < |items|
        invariant 0 <= i <= |items|
        invariant forall k :: 0 <= k < i ==> items[k].disconnected
      {
        var next := items[i];
        var down := next.IsDisconnected();
        if !down {
          return false;
        }
        i := i + 1;
      }
      return true;
    }
  }
}
