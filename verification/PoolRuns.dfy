/** The pool under any number of handlers at once, each holding its own messages. */
module PoolRuns {
  import opened Bytes
  import opened Header
  import opened MetadataCodec
  import opened Frame
  import opened FrameLaws
  import opened Pool
  import opened Server

  /** A message object: its value, and whatever bytes its buffer holds. */
  datatype Slot = Slot(msg: Msg, data: Bytes)

  /** The pooled messages, and those that the reading loop and the handlers hold. */
  datatype Pools = Pools(free: map<nat, Slot>, held: map<nat, Slot>)

  /** What the server does with messages, in any interleaving; `data` is what a decode leaves in the buffer. */
  datatype Use =
    | Make(id: nat)
    | Get(id: nat)
    | Fill(id: nat, stream: Bytes, data: Bytes)
    | CloneTo(id: nat, copy: nat)
    | MarkResponse(id: nat)
    | MarkError(id: nat, err: Bytes)
    | SetMetadata(id: nat, md: Option<Metadata>)
    | SetPayload(id: nat, payload: Bytes)
    | EncodeHeld(id: nat)
    | Drop(id: nat)
    | Free(id: nat)

  /** What `Reset` leaves of a message: everything is blank but the magic byte, which is not touched. */
  function ResetOf(m: Msg): Msg { BLANK_MSG.(header := BLANK[0 := m.header[0]]) }

  predicate Possible(p: Pools, u: Use) {
    match u
    case Make(id) => id !in p.free && id !in p.held
    case Get(id) => id in p.free && id !in p.held
    case CloneTo(id, copy) => id in p.held && copy in p.held && copy != id
    case _ => u.id in p.held
  }

  function Update(p: Pools, id: nat, m: Msg): Pools
    requires id in p.held
  {
    p.(held := p.held[id := Slot(m, p.held[id].data)])
  }

  /** A message that could not be read is dropped: the loop ends without freeing it. */
  function Used(w: Wire, p: Pools, u: Use): Pools
    requires Possible(p, u)
  {
    match u
    case Make(id) => p.(held := p.held[id := Slot(BLANK_MSG, [])])
    case Get(id) => Pools(p.free - {id}, p.held[id := p.free[id]])
    case Fill(id, stream, data) =>
      (match Decode(w, p.held[id].msg.metadata, p.held[id].data, stream)
       case Ok(m, _) => p.(held := p.held[id := Slot(m, data)])
       case _ => p.(held := p.held - {id}))
    case CloneTo(id, copy) => Update(p, copy, CloneOf(p.held[id].msg))
    case MarkResponse(id) => Update(p, id, Echo(p.held[id].msg))
    case MarkError(id, err) => Update(p, id, HandleError(p.held[id].msg, err).res)
    case SetMetadata(id, md) => Update(p, id, p.held[id].msg.(metadata := md))
    case SetPayload(id, payload) => Update(p, id, p.held[id].msg.(payload := payload))
    case EncodeHeld(id) =>
      var m := p.held[id].msg;
      Update(p, id, m.(header := Compressed(w, m.header, m.payload).0))
    case Drop(id) => p.(held := p.held - {id})
    case Free(id) => Pools(p.free[id := Slot(ResetOf(p.held[id].msg), p.held[id].data)], p.held - {id})
  }

  /** All pooled messages are blank, and all messages in use have the magic byte. */
  ghost predicate Clean(p: Pools) {
    && (forall id | id in p.free :: p.free[id].msg == BLANK_MSG && id !in p.held)
    && (forall id | id in p.held :: p.held[id].msg.header[0] == MAGIC)
  }

  lemma DecodedMagic(w: Wire, prior: Option<Metadata>, stale: Bytes, stream: Bytes)
    ensures var r := Decode(w, prior, stale, stream); r.Ok? ==> r.msg.header[0] == MAGIC
  {
    if Decode(w, prior, stale, stream).Ok? {
      var h, body, p := DecodeSound(w, prior, stale, stream);
      assert stream[0] == h[0];
      FinishKeeps(w, MsgOf(h, prior, p));
    }
  }

  lemma FinishKeeps(w: Wire, m: Msg)
    ensures var r := Finish(w, m); r.BodyOk? ==> r.msg.header == m.header
  {
  }

  lemma CompressedMagic(w: Wire, h: HeaderBytes, payload: Bytes)
    ensures Compressed(w, h, payload).0[0] == h[0]
  {
    hide CompressType;
  }

  lemma FillClean(w: Wire, p: Pools, id: nat, stream: Bytes, data: Bytes)
    requires Clean(p) && id in p.held
    ensures Clean(Used(w, p, Fill(id, stream, data)))
  {
    hide Decode;
    DecodedMagic(w, p.held[id].msg.metadata, p.held[id].data, stream);
  }

  lemma EncodeClean(w: Wire, p: Pools, id: nat)
    requires Clean(p) && id in p.held
    ensures Clean(Used(w, p, EncodeHeld(id)))
  {
    hide Compressed;
    CompressedMagic(w, p.held[id].msg.header, p.held[id].msg.payload);
  }

  lemma UpdateClean(p: Pools, id: nat, m: Msg)
    requires Clean(p) && id in p.held && m.header[0] == MAGIC
    ensures Clean(Update(p, id, m))
  {
  }

  lemma FreeClean(w: Wire, p: Pools, id: nat)
    requires Clean(p) && id in p.held
    ensures Clean(Used(w, p, Free(id)))
  {
    assert ResetOf(p.held[id].msg) == BLANK_MSG;
  }

  /** The changes that a handler makes keep the magic byte. */
  lemma ChangeClean(w: Wire, p: Pools, u: Use)
    requires Clean(p) && Possible(p, u)
    requires u.CloneTo? || u.MarkResponse? || u.MarkError? || u.SetMetadata? || u.SetPayload?
    ensures Clean(Used(w, p, u))
  {
    assert u.id in p.held && p.held[u.id].msg.header[0] == MAGIC;
    hide Clean;
    var m := p.held[u.id].msg;
    match u {
      case CloneTo(_, copy) => UpdateClean(p, copy, CloneOf(m));
      case MarkResponse(id) => UpdateClean(p, id, Echo(m));
      case MarkError(id, err) => UpdateClean(p, id, HandleError(m, err).res);
      case SetMetadata(id, md) => UpdateClean(p, id, m.(metadata := md));
      case SetPayload(id, payload) => UpdateClean(p, id, m.(payload := payload));
    }
  }

  lemma MoveClean(w: Wire, p: Pools, u: Use)
    requires Clean(p) && Possible(p, u) && (u.Make? || u.Get? || u.Drop?)
    ensures Clean(Used(w, p, u))
  {
  }

  lemma UseClean(w: Wire, p: Pools, u: Use)
    requires Clean(p) && Possible(p, u)
    ensures Clean(Used(w, p, u))
  {
    hide Clean, Used;
    match u {
      case Fill(id, stream, data) => FillClean(w, p, id, stream, data);
      case EncodeHeld(id) => EncodeClean(w, p, id);
      case Free(id) => FreeClean(w, p, id);
      case Make(_) => MoveClean(w, p, u);
      case Get(_) => MoveClean(w, p, u);
      case Drop(_) => MoveClean(w, p, u);
      case _ => ChangeClean(w, p, u);
    }
  }

  ghost predicate PoolRun(w: Wire, states: seq<Pools>, uses: seq<Use>) {
    && |states| == |uses| + 1 && states[0] == Pools(map[], map[])
    && forall i | 0 <= i < |uses| :: Possible(states[i], uses[i]) && states[i + 1] == Used(w, states[i], uses[i])
  }

  lemma {:induction false} RunClean(w: Wire, states: seq<Pools>, uses: seq<Use>, i: nat)
    requires PoolRun(w, states, uses) && i <= |uses|
    ensures Clean(states[i])
  {
    hide Used, Clean;
    if i == 0 {
      assert Clean(states[0]) by { EmptyClean(); }
    } else {
      RunClean(w, states, uses, i - 1);
      UseClean(w, states[i - 1], uses[i - 1]);
    }
  }

  lemma EmptyClean()
    ensures Clean(Pools(map[], map[]))
  {
  }

  /**
   * In every interleaving, a message taken from the pool is blank, and every stream is decoded into it exactly as into
   * a new message when it decodes at all, whatever its buffer holds.
   */
  lemma PooledIsNew(w: Wire, states: seq<Pools>, uses: seq<Use>, i: nat, stream: Bytes)
    requires PoolRun(w, states, uses) && i < |uses| && uses[i].Get?
    ensures uses[i].id in states[i + 1].held
    ensures var slot := states[i + 1].held[uses[i].id];
            && slot.msg == BLANK_MSG
            && (Decode(w, slot.msg.metadata, slot.data, stream).Ok? <==> Decode(w, None, [], stream).Ok?)
            && (Decode(w, None, [], stream).Ok? ==>
                  Decode(w, slot.msg.metadata, slot.data, stream) == Decode(w, None, [], stream))
  {
    RunClean(w, states, uses, i);
    hide Decode;
    var data := states[i].free[uses[i].id].data;
    if Decode(w, None, data, stream).Ok? {
      BufferIndependence(w, None, data, [], stream);
    } else if Decode(w, None, [], stream).Ok? {
      BufferIndependence(w, None, [], data, stream);
    }
  }
}
