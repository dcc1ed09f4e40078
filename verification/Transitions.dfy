/** The client side of a connection: what each section under the mutex does to the fields it protects. */
module Transitions {
  import opened Bytes

  datatype Status = Available | Closed | Reconnecting | ReconnectFailed

  /** The fields the mutex protects, with calls by identity, and whether `doneChan` has been closed. */
  datatype ClientState = ClientState(
    status: Status,
    suicide: bool,
    seqNo: nat,
    pending: map<nat, nat>,
    lastSend: int,
    conn: nat,
    doneClosed: bool)

  const NEW_CLIENT := ClientState(Available, false, 0, map[], 0, 0, false)

  /** An addition in `uint64`. */
  function Next64(n: nat): nat { if n + 1 == U64 then 0 else n + 1 }

  /** The first section of `send`: the sequence number of the registration, or None when it is refused. */
  function Register(c: ClientState, call: nat, now: int): (ClientState, Option<nat>) {
    if c.status != Available then (c, None)
    else
      var k := Next64(c.seqNo);
      (c.(seqNo := k, pending := c.pending[k := call], lastSend := now), Some(k))
  }

  /** Looking up and deleting an entry, after a failed encode or write and when a response arrives. */
  function Take(c: ClientState, k: nat): (ClientState, Option<nat>) {
    (c.(pending := c.pending - {k}), if k in c.pending then Some(c.pending[k]) else None)
  }

  /** The first section of `reconnect`; false means that the client has been closed on purpose. */
  function BeginReconnect(c: ClientState): (ClientState, bool) {
    if c.suicide then (c, false) else (c.(status := Reconnecting), true)
  }

  function Reconnected(c: ClientState, conn: nat): ClientState {
    c.(conn := conn, status := Available, suicide := false)
  }

  function ReconnectLost(c: ClientState): ClientState {
    c.(status := ReconnectFailed, suicide := false)
  }

  /** The close in `keepalive` after a failed heartbeat. */
  function KeepaliveClose(c: ClientState): ClientState {
    if c.status == Available then c.(suicide := true, status := Closed) else c
  }

  predicate Closes(c: ClientState) { c.status != Closed }

  /** `Close`; closing `doneChan` a second time panics. */
  function Close(c: ClientState): ClientState {
    if Closes(c) then c.(status := Closed, suicide := true, doneClosed := true) else c
  }
}
