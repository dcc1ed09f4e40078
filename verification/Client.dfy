/** The client object, whose methods are the sections under the mutex. */
module Client {
  import opened Bytes
  import opened Transitions

  datatype CallError = Shutdown | Other

  /** A call object; `queued` counts the signals in its Done channel, which drops what does not fit. */
  class CallObject {
    const id: nat
    const capacity: nat
    var error: Option<CallError>
    var queued: nat

    constructor (id: nat, capacity: nat)
      ensures this.id == id && this.capacity == capacity && error == None && queued == 0
    {
      this.id := id;
      this.capacity := capacity;
      error := None;
      queued := 0;
    }

    /** The error and the signal that a call gets when it is completed. */
    twostate predicate Ended(err: CallError)
      reads this
    {
      && error == Some(err)
      && queued == if old(queued) < capacity then old(queued) + 1 else old(queued)
    }

    /** `done` with the error set just before it. */
    method Finish(err: CallError)
      modifies this
      ensures Ended(err)
      ensures error == Some(err) && (old(queued) <= capacity ==> queued <= capacity)
      ensures queued == old(queued) + (if old(queued) < capacity then 1 else 0)
    {
      error := Some(err);
      if queued < capacity {
        queued := queued + 1;
      }
    }
  }

  class RPCClient {
    var status: Status
    var suicide: bool
    var seqNo: nat
    var pending: map<nat, CallObject>
    var lastSend: int
    var conn: nat
    var connOpen: bool
    var doneClosed: bool

    /** No call sits under two keys. */
    ghost predicate Valid()
      reads this
    {
      forall j, k | j in pending && k in pending && j != k :: pending[j] != pending[k] && pending[j].id != pending[k].id
    }

    ghost function State(): ClientState
      reads this
    {
      ClientState(status, suicide, seqNo, map k | k in pending :: pending[k].id, lastSend, conn, doneClosed)
    }

    constructor (conn: nat)
      ensures Valid() && State() == NEW_CLIENT.(conn := conn)
      ensures status == Available && !suicide && seqNo == 0 && pending == map[] && lastSend == 0
      ensures this.conn == conn && connOpen && !doneClosed
    {
      status, suicide, seqNo, pending, lastSend := Available, false, 0, map[], 0;
      this.conn, connOpen, doneClosed := conn, true, false;
    }

    method Register(call: CallObject, now: int) returns (k: Option<nat>)
      requires Valid() && forall j | j in pending :: pending[j] != call && pending[j].id != call.id
      modifies this, call
      ensures Valid() && (State(), k) == Transitions.Register(old(State()), call.id, now)
      ensures k.Some? <==> old(status) == Available
      ensures k.Some? ==> seqNo == k.value == if old(seqNo) == 0xFFFF_FFFF_FFFF_FFFF then 0 else old(seqNo) + 1
      ensures k.Some? ==> pending == old(pending)[k.value := call] && lastSend == now
      ensures k == None ==> unchanged(this`seqNo, this`pending, this`lastSend)
      ensures unchanged(this`status, this`suicide, this`conn, this`connOpen, this`doneClosed)
      ensures k.Some? ==> unchanged(call)
      ensures k == None ==> call.Ended(Shutdown)
    {
      if status != Available {
        call.Finish(Shutdown);
        return None;
      }
      ghost var before := State();
      seqNo := Next64(seqNo);
      pending := pending[seqNo := call];
      lastSend := now;
      k := Some(seqNo);
      assert State().pending == before.pending[seqNo := call.id];
    }

    method Take(k: nat) returns (call: Option<CallObject>)
      requires Valid()
      modifies this
      ensures Valid() && State() == Transitions.Take(old(State()), k).0
      ensures pending == old(pending) - {k}
      ensures unchanged(this`status, this`suicide, this`seqNo, this`lastSend, this`conn, this`connOpen, this`doneClosed)
      ensures call == if k in old(pending) then Some(old(pending)[k]) else None
    {
      call := if k in pending then Some(pending[k]) else None;
      pending := pending - {k};
    }

    /** What `send` does when the request cannot be encoded or written. */
    method Abandon(k: nat, err: CallError)
      requires Valid()
      modifies this, set j | j in pending :: pending[j]
      ensures Valid() && State() == Transitions.Take(old(State()), k).0
      ensures pending == old(pending) - {k}
      ensures unchanged(this`status, this`suicide, this`seqNo, this`lastSend, this`conn, this`connOpen, this`doneClosed)
      ensures k in old(pending) ==> old(pending)[k].Ended(err)
      ensures forall j | j in old(pending) && j != k :: unchanged(old(pending)[j])
    {
      ghost var before := pending;
      var call := Take(k);
      if call.Some? {
        call.value.Finish(err);
      }
    }

    method BeginReconnect() returns (go: bool)
      requires Valid()
      modifies this
      ensures Valid() && (State(), go) == Transitions.BeginReconnect(old(State()))
      ensures go <==> !old(suicide)
      ensures status == if go then Reconnecting else old(status)
      ensures unchanged(this`suicide, this`seqNo, this`pending, this`lastSend)
      ensures unchanged(this`conn, this`connOpen, this`doneClosed)
    {
      if suicide {
        return false;
      }
      status := Reconnecting;
      return true;
    }

    /** The last section of `reconnect`, for either outcome of the dialling. */
    method EndReconnect(dialled: Option<nat>)
      requires Valid()
      modifies this
      ensures Valid()
      ensures State() == if dialled.Some? then Transitions.Reconnected(old(State()), dialled.value)
                         else Transitions.ReconnectLost(old(State()))
      ensures status == (if dialled.Some? then Available else ReconnectFailed) && !suicide
      ensures dialled.Some? ==> conn == dialled.value && connOpen
      ensures dialled == None ==> unchanged(this`conn, this`connOpen)
      ensures unchanged(this`seqNo, this`pending, this`lastSend, this`doneClosed)
    {
      match dialled
      case None =>
        status := ReconnectFailed;
        suicide := false;
      case Some(c) =>
        conn, connOpen := c, true;
        status := Available;
        suicide := false;
    }

    method KeepaliveClose()
      requires Valid()
      modifies this
      ensures Valid() && State() == Transitions.KeepaliveClose(old(State()))
      ensures old(status) == Available ==> status == Closed && suicide && !connOpen
      ensures old(status) != Available ==> unchanged(this`status, this`suicide, this`connOpen)
      ensures unchanged(this`seqNo, this`pending, this`lastSend, this`conn, this`doneClosed)
    {
      if status == Available {
        suicide := true;
        status := Closed;
        connOpen := false;
      }
    }

    /** The loop of `close` over the pending calls, in any order. */
    method EndPending()
      modifies set k | k in pending :: pending[k]
      requires Valid()
      ensures forall k | k in pending :: pending[k].Ended(Shutdown)
    {
      var left := pending.Keys;
      while left != {}
        modifies set k | k in pending :: pending[k]
        invariant left <= pending.Keys
        invariant forall k | k in left :: unchanged(pending[k])
        invariant forall k | k in pending && k !in left :: pending[k].Ended(Shutdown)
        decreases |left|
      {
        var k :| k in left;
        pending[k].Finish(Shutdown);
        left := left - {k};
      }
    }

    /** `Close`: every pending call is completed once, and stays in the table. */
    method Close() returns (panics: bool)
      requires Valid()
      modifies this, set k | k in pending :: pending[k]
      ensures Valid() && State() == Transitions.Close(old(State()))
      ensures panics <==> old(status) != Closed && old(doneClosed)
      ensures old(status) != Closed ==> status == Closed && suicide && !connOpen && doneClosed
      ensures old(status) == Closed ==> unchanged(this`status, this`suicide, this`connOpen, this`doneClosed)
      ensures unchanged(this`seqNo, this`pending, this`lastSend, this`conn)
      ensures old(status) != Closed ==> forall k | k in old(pending) :: old(pending)[k].Ended(Shutdown)
      ensures old(status) == Closed ==> forall k | k in old(pending) :: unchanged(old(pending)[k])
    {
      panics := false;
      if status != Closed {
        status := Closed;
        suicide := true;
        EndPending();
        connOpen := false;
        panics := doneClosed;
        doneClosed := true;
      }
    }
  }
}
