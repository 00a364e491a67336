/**
 The life of the pooled slabs, pointer by pointer and thread by thread.

 Handlers, the FEC callback, the sending functions and the receive function are
 threads that advance one action at a time and interleave freely. A slab is an
 address into a shared memory. Nothing here checks who owns what: `Put` adds a slab
 to the pool whoever calls it and however often, and reads and writes go to
 whatever the memory holds at that moment.
 */
module SlabFlow {
  import opened Words
  import opened FecShards
  import opened FecDecoder
  import F = FecRepair
  import Q = ReorderModel
  import opened ReceiveQueue
  import Wire
  import E = EndToEnd

  type Address = int

  const SLAB_SIZE := E.SLAB_SIZE

  /**
   A slab as its holder sees it: the bytes in [off, off + len). `ct` records what the
   range held when the view was made; no step looks at it.
   */
  datatype View = View(slab: Address, off: nat, len: nat, ct: Bytes)

  /** A slab without content. */
  function Bare(x: Address): View {
    View(x, 0, 0, [])
  }

  type Memory = map<Address, Bytes>

  /** What reading the range yields now. */
  function Content(mem: Memory, v: View): Bytes {
    if v.slab in mem && v.off + v.len <= |mem[v.slab]| then mem[v.slab][v.off..v.off + v.len] else []
  }

  /** `copy(block, s)`: as much of `s` as fits. */
  function Overwrite(block: Bytes, s: Bytes): (r: Bytes)
    ensures |r| == |block|
  {
    if |s| <= |block| then s + block[|s|..] else s[..|block|]
  }

  function Write(mem: Memory, x: Address, s: Bytes): Memory {
    if x in mem then mem[x := Overwrite(mem[x], s)] else mem
  }

  function Prefix(s: Bytes): (r: Bytes)
    ensures |r| <= SLAB_SIZE
  {
    if |s| <= SLAB_SIZE then s else s[..SLAB_SIZE]
  }

  // ----- Threads -----

  /** What the handler does with its slab after the decoder returns. */
  datatype Ending = PushAs(w: U32) | PutBack

  /** The header fields a registration with the decoder takes. */
  datatype Fields =
    | DataFields(group: U32, index: Byte, seqNo: U32)
    | ParityFields(group: U32, index: Byte, k: Byte, m: Byte)

  datatype Task =
    | Idle
    /** `clientRxLoop`, blocked in the socket read. */
    | Listening(x: Address)
    /** `handleClientDatagram` with the datagram `d`. */
    | Handling(d: View)
    /** About to call `AddData` or `AddParity` with the bytes of `v`. */
    | Registering(v: View, fields: Fields, ending: Ending)
    /** In the decoder, with packets left to hand to the callback. */
    | Rebuilding(v: View, rest: seq<Packet>, ending: Ending)
    /** In the callback, with a slab for the packet `rest[0]`. */
    | Filling(v: View, y: Address, rest: seq<Packet>, ending: Ending)
    /** In the callback, about to push `u`. */
    | Filled(v: View, u: View, w: U32, rest: seq<Packet>, ending: Ending)
    /** `sendDataOn` or `clientEmitParity` with a slab to write to. */
    | Framing(y: Address, header: Bytes, body: Bytes)
    /** About to write `u` to the socket. */
    | Sending(u: View)
    /** The receive function, with `v` from the queue. */
    | Copying(v: View)
    /** About to return the slab of `v` to the pool. */
    | Releasing(v: View)

  /**
   `live` are the slabs that exist. `refs` says where the decoder keeps the shard of
   a group and index. `up` lists what WireGuard was given and `sent` what went to
   sockets; `taken` are the ciphertexts that arrived or were rebuilt, `framed` the
   datagrams that were to be sent.
   */
  datatype Flow = Flow(live: set<Address>, mem: Memory, pool: multiset<View>, tasks: seq<Task>,
                       buf: Q.Queue<View>, bind: Bind<View>,
                       dec: Dec, refs: map<(int, int), Address>,
                       up: seq<Bytes>, sent: seq<Bytes>, taken: set<Bytes>, framed: set<Bytes>)

  /** No slab exists yet, and `n` threads are idle. */
  function Start(n: nat): Flow {
    Flow({}, map[], multiset{}, seq(n, _ => Idle), Q.Empty<View>(), Bind(false, false, [], []),
         NewDec(), map[], [], [], {}, {})
  }

  datatype Config = Config(session: U32, fec: bool)

  // ----- Transfers -----

  /** The pool hands out a slab it has, or a new one. */
  predicate CanGet(f: Flow, x: Address) {
    Bare(x) in f.pool || x !in f.mem
  }

  function Get(f: Flow, x: Address): Flow {
    if Bare(x) in f.pool then f.(pool := f.pool - multiset{Bare(x)})
    else f.(live := f.live + {x}, mem := f.mem[x := Zeros(SLAB_SIZE)])
  }

  function Put(f: Flow, x: Address): Flow {
    f.(pool := f.pool + multiset{Bare(x)})
  }

  /** `EngineBind.Deliver`. */
  function Deliver(f: Flow, v: View): (g: Flow)
    ensures g == f.(pool := g.pool, bind := g.bind)
  {
    if Accepting(f.bind) then f.(bind := Enqueue(f.bind, v)) else Put(f, v.slab)
  }

  /** The callbacks of the resequencing buffer: deliver, or release what it drops. */
  function Dispatch(f: Flow, es: seq<Q.Event<View>>): Flow
    decreases |es|
  {
    if es == [] then f
    else Dispatch(if es[0].Dropped? then Put(f, es[0].val.slab) else Deliver(f, es[0].val), es[1..])
  }

  /** Move the buffer to state `q` and run the callbacks for what it put out. */
  function Callbacks(f: Flow, q: Q.Queue<View>): Flow {
    Dispatch(f.(buf := q), if |f.buf.log| <= |q.log| then q.log[|f.buf.log|..] else [])
  }

  ghost function Push(f: Flow, w: U32, v: View, now: int): Flow {
    Callbacks(f, Q.Push(f.buf, w, v, now))
  }

  function Become(f: Flow, t: nat, k: Task): Flow
    requires t < |f.tasks|
  {
    f.(tasks := f.tasks[t := k])
  }

  // ----- The receiving handler -----

  /** The DATA branch of `handleClientDatagram`, up to the hand-over of the slab or the call of the decoder. */
  function HandleData(cfg: Config, f: Flow, t: nat, d: View, h: Wire.DataHeader, payload: Bytes): (r: Flow)
    requires t < |f.tasks|
    ensures r == f.(pool := r.pool, tasks := r.tasks, bind := r.bind, taken := r.taken)
    ensures |r.tasks| == |f.tasks|
  {
    if h.session != cfg.session then Put(Become(f, t, Idle), d.slab)
    else
      var v := View(d.slab, d.off + Wire.DataLen(h.header.flags), |payload|, payload);
      var g := f.(taken := f.taken + {payload});
      if Wire.Class(h.header.flags) != Wire.CLASS_BULK then Deliver(Become(g, t, Idle), v)
      else if Wire.HasFecInfo(h.header.flags) && cfg.fec then
        Become(g, t, Registering(v, DataFields(h.fecGroup, h.fecIndex, h.globalSeq), PushAs(h.globalSeq)))
      else Become(g, t, Rebuilding(v, [], PushAs(h.globalSeq)))
  }

  /** The FEC branch: the slab goes back once the decoder has returned. */
  function HandleFec(cfg: Config, f: Flow, t: nat, d: View, h: Wire.FecHeader, shard: Bytes): (r: Flow)
    requires t < |f.tasks|
    ensures r == f.(pool := r.pool, tasks := r.tasks, bind := r.bind, taken := r.taken)
    ensures |r.tasks| == |f.tasks|
  {
    if h.session != cfg.session || !cfg.fec then Put(Become(f, t, Idle), d.slab)
    else Become(f, t, Registering(View(d.slab, d.off + Wire.FEC_HEADER_SIZE, |shard|, shard),
                                  ParityFields(h.group, h.index, h.k, h.m), PutBack))
  }

  /** `handleClientDatagram`: malformed datagrams and control messages only return the slab. */
  function Handle(cfg: Config, f: Flow, t: nat, d: View): (r: Flow)
    requires t < |f.tasks|
    ensures r == f.(pool := r.pool, tasks := r.tasks, bind := r.bind, taken := r.taken)
    ensures |r.tasks| == |f.tasks|
  {
    var b := Content(f.mem, d);
    var data, fec := Wire.ParseData(b), Wire.ParseFec(b);
    var h := Wire.ParseHeader(b);
    if h.Ok? && h.value.typ == Wire.TYPE_DATA && data.Ok? then HandleData(cfg, f, t, d, data.value.0, data.value.1)
    else if h.Ok? && h.value.typ == Wire.TYPE_FEC && fec.Ok? then HandleFec(cfg, f, t, d, fec.value.0, fec.value.1)
    else Put(Become(f, t, Idle), d.slab)
  }

  /** The registration with the bytes read from memory. */
  function Registration(mem: Memory, v: View, fields: Fields, now: int, victim: Option<int>): F.DecOp {
    match fields
    case DataFields(group, index, seqNo) => F.DataIn(group, index, Packet(seqNo, Content(mem, v)), now, victim)
    case ParityFields(group, index, k, m) => F.ParityIn(group, index, k, m, Content(mem, v), now, victim)
  }

  /** The shard a registration stores. */
  function StoredShard(op: F.DecOp): Bytes {
    if op.DataIn? then BuildShard(op.p) else op.shard
  }

  /** The shard is new to the decoder; parity that announces k = 0 is not kept. */
  predicate Stores(d: Dec, op: F.DecOp) {
    op.index !in F.Found(d, op).shards && (op.ParityIn? ==> op.k != 0)
  }

  /** The decoder copies the bytes of a shard it stores to memory of its own at `a`. */
  function Register(c: Codec, f: Flow, t: nat, op: F.DecOp, v: View, ending: Ending, a: Address): Flow
    requires t < |f.tasks|
  {
    var d := F.Step(c, f.dec, op);
    var rebuilt := if |f.dec.recovered| <= |d.recovered| then d.recovered[|f.dec.recovered|..] else [];
    var g := if Stores(f.dec, op)
             then f.(refs := f.refs[(op.id, op.index) := a], mem := f.mem[a := StoredShard(op)]) else f;
    Become(g.(dec := d), t, Rebuilding(v, rebuilt, ending))
  }

  // ----- Steps -----

  datatype Op =
    | Listen(t: nat, x: Address)
    | Arrive(t: nat, dgram: Bytes)
    | ReadFails(t: nat)
    | HandleOp(t: nat)
    | RegisterOp(t: nat, now: int, victim: Option<int>, a: Address)
    | GetForRebuilt(t: nat, y: Address)
    | CopyRebuilt(t: nat)
    | PushRebuilt(t: nat, now: int)
    | Finish(t: nat, now: int)
    | GetForFrame(t: nat, y: Address, header: Bytes, body: Bytes)
    | Frame(t: nat)
    | Transmit(t: nat)
    | Take(t: nat)
    | TakeRetired(t: nat, i: nat)
    | CopyUp(t: nat)
    | Release(t: nat)
    | BufferOp(op: Q.Op<View>)
    | CloseBuffer
    | OpenBind
    | CloseBind
    | PoolForgets(x: Address)

  /** Thread `t` exists. */
  predicate Runs(f: Flow, t: nat) {
    t < |f.tasks|
  }

  // Each action of a thread; one that is not possible in this state changes nothing.

  function StartListening(f: Flow, t: nat, x: Address): Flow {
    if Runs(f, t) && f.tasks[t].Idle? && CanGet(f, x) then Become(Get(f, x), t, Listening(x)) else f
  }

  /** The socket read fills the slab. */
  function Arrival(f: Flow, t: nat, dgram: Bytes): Flow {
    if Runs(f, t) && f.tasks[t].Listening? then
      var x, b := f.tasks[t].x, Prefix(dgram);
      Become(f.(mem := Write(f.mem, x, b)), t, Handling(View(x, 0, |b|, b)))
    else f
  }

  function ReadFailure(f: Flow, t: nat): Flow {
    if Runs(f, t) && f.tasks[t].Listening? then Put(Become(f, t, Idle), f.tasks[t].x) else f
  }

  function Handler(cfg: Config, f: Flow, t: nat): (r: Flow)
    ensures r == f.(pool := r.pool, tasks := r.tasks, bind := r.bind, taken := r.taken)
    ensures |r.tasks| == |f.tasks|
  {
    if Runs(f, t) && f.tasks[t].Handling? then Handle(cfg, f, t, f.tasks[t].d) else f
  }

  function Registry(c: Codec, f: Flow, t: nat, now: int, victim: Option<int>, a: Address): Flow {
    if Runs(f, t) && f.tasks[t].Registering? && a !in f.mem then
      var k := f.tasks[t];
      Register(c, f, t, Registration(f.mem, k.v, k.fields, now, victim), k.v, k.ending, a)
    else f
  }

  /** The callback of the decoder: get a slab, copy the packet, push it. */
  function CallbackGet(f: Flow, t: nat, y: Address): Flow {
    if Runs(f, t) && f.tasks[t].Rebuilding? && f.tasks[t].rest != [] && CanGet(f, y) then
      var k := f.tasks[t];
      Become(Get(f, y), t, Filling(k.v, y, k.rest, k.ending))
    else f
  }

  function CallbackCopy(f: Flow, t: nat): Flow {
    if Runs(f, t) && f.tasks[t].Filling? && f.tasks[t].rest != [] then
      var k := f.tasks[t];
      var b := Prefix(k.rest[0].ct);
      Become(f.(mem := Write(f.mem, k.y, b), taken := f.taken + {b}), t,
             Filled(k.v, View(k.y, 0, |b|, b), k.rest[0].seqNo, k.rest[1..], k.ending))
    else f
  }

  ghost function CallbackPush(f: Flow, t: nat, now: int): Flow {
    if Runs(f, t) && f.tasks[t].Filled? then
      var k := f.tasks[t];
      Push(Become(f, t, Rebuilding(k.v, k.rest, k.ending)), k.w, k.u, now)
    else f
  }

  /** The decoder has returned: the handler pushes its packet or returns its slab. */
  ghost function Finished(f: Flow, t: nat, now: int): Flow {
    if Runs(f, t) && f.tasks[t].Rebuilding? && f.tasks[t].rest == [] then
      var k := f.tasks[t];
      if k.ending.PushAs? then Push(Become(f, t, Idle), k.ending.w, k.v, now) else Put(Become(f, t, Idle), k.v.slab)
    else f
  }

  function FrameGet(f: Flow, t: nat, y: Address, header: Bytes, body: Bytes): Flow {
    if Runs(f, t) && f.tasks[t].Idle? && CanGet(f, y) then
      Become(Get(f.(framed := f.framed + {header + body}), y), t, Framing(y, header, body))
    else f
  }

  /** Header and body are written; a datagram that does not fit is given up. */
  function FrameWrite(f: Flow, t: nat): Flow {
    if Runs(f, t) && f.tasks[t].Framing? then
      var k := f.tasks[t];
      var n := |k.header| + |k.body|;
      if n > SLAB_SIZE then Put(Become(f.(mem := Write(f.mem, k.y, k.header)), t, Idle), k.y)
      else Become(f.(mem := Write(f.mem, k.y, k.header + k.body)), t, Sending(View(k.y, 0, n, k.header + k.body)))
    else f
  }

  function Transmission(f: Flow, t: nat): Flow {
    if Runs(f, t) && f.tasks[t].Sending? then
      Become(f.(sent := f.sent + [Content(f.mem, f.tasks[t].u)]), t, Releasing(f.tasks[t].u))
    else f
  }

  /** The receive function: take a packet from the channel, copy it up, release it. */
  function TakeFirst(f: Flow, t: nat): Flow {
    if Runs(f, t) && f.tasks[t].Idle? && f.bind.queue != [] then
      Become(f.(bind := f.bind.(queue := f.bind.queue[1..])), t, Copying(f.bind.queue[0]))
    else f
  }

  function TakeOld(f: Flow, t: nat, i: nat): Flow {
    if Runs(f, t) && f.tasks[t].Idle? && i < |f.bind.retired| then
      var r := f.bind.retired;
      Become(f.(bind := f.bind.(retired := r[..i] + r[i + 1..])), t, Copying(r[i]))
    else f
  }

  function HandUp(f: Flow, t: nat): Flow {
    if Runs(f, t) && f.tasks[t].Copying? then
      Become(f.(up := f.up + [Content(f.mem, f.tasks[t].v)]), t, Releasing(f.tasks[t].v))
    else f
  }

  function Released(f: Flow, t: nat): Flow {
    if Runs(f, t) && f.tasks[t].Releasing? then Put(Become(f, t, Idle), f.tasks[t].v.slab) else f
  }

  /** The runtime may drop a pooled slab. */
  function Forgotten(f: Flow, x: Address): Flow {
    if Bare(x) in f.pool then f.(pool := f.pool - multiset{Bare(x)}, live := f.live - {x}) else f
  }

  ghost function Step(c: Codec, cfg: Config, f: Flow, op: Op): Flow {
    match op
    case Listen(t, x) => StartListening(f, t, x)
    case Arrive(t, dgram) => Arrival(f, t, dgram)
    case ReadFails(t) => ReadFailure(f, t)
    case HandleOp(t) => Handler(cfg, f, t)
    case RegisterOp(t, now, victim, a) => Registry(c, f, t, now, victim, a)
    case GetForRebuilt(t, y) => CallbackGet(f, t, y)
    case CopyRebuilt(t) => CallbackCopy(f, t)
    case PushRebuilt(t, now) => CallbackPush(f, t, now)
    case Finish(t, now) => Finished(f, t, now)
    case GetForFrame(t, y, header, body) => FrameGet(f, t, y, header, body)
    case Frame(t) => FrameWrite(f, t)
    case Transmit(t) => Transmission(f, t)
    case Take(t) => TakeFirst(f, t)
    case TakeRetired(t, i) => TakeOld(f, t, i)
    case CopyUp(t) => HandUp(f, t)
    case Release(t) => Released(f, t)
    case BufferOp(q) => if q.PushOp? then f else Callbacks(f, Q.Step(f.buf, q))
    case CloseBuffer => Callbacks(f, Q.Close(f.buf))
    case OpenBind => f.(bind := Reopen(f.bind))
    case CloseBind => f.(bind := f.bind.(closed := f.bind.hasChannel || f.bind.closed))
    case PoolForgets(x) => Forgotten(f, x)
  }

  ghost function Run(c: Codec, cfg: Config, f: Flow, ops: seq<Op>): Flow
    decreases |ops|
  {
    if ops == [] then f else Run(c, cfg, Step(c, cfg, f, ops[0]), ops[1..])
  }

  // ----- Who owns what -----

  /** The slabs a thread has yet to hand over or return. */
  function Holds(k: Task): multiset<View> {
    match k
    case Idle => multiset{}
    case Listening(x) => multiset{Bare(x)}
    case Handling(d) => multiset{d}
    case Registering(v, _, _) => multiset{v}
    case Rebuilding(v, _, _) => multiset{v}
    case Filling(v, y, _, _) => multiset{v, Bare(y)}
    case Filled(v, u, _, _, _) => multiset{v, u}
    case Framing(y, _, _) => multiset{Bare(y)}
    case Sending(u) => multiset{u}
    case Copying(v) => multiset{v}
    case Releasing(v) => multiset{v}
  }

  function AllHold(ts: seq<Task>): multiset<View> {
    if ts == [] then multiset{} else AllHold(ts[..|ts| - 1]) + Holds(ts[|ts| - 1])
  }

  /** The slab thread `op.t` reads or writes in this step. */
  function Touched(f: Flow, op: Op): set<Address> {
    if op.BufferOp? || op.CloseBuffer? || op.OpenBind? || op.CloseBind? || op.PoolForgets? || !Runs(f, op.t) then {}
    else
      match (op, f.tasks[op.t])
      case (Arrive(_, _), Listening(x)) => {x}
      case (HandleOp(_), Handling(d)) => {d.slab}
      case (RegisterOp(_, _, _, _), Registering(v, _, _)) => {v.slab}
      case (CopyRebuilt(_), Filling(_, y, _, _)) => {y}
      case (Frame(_), Framing(y, _, _)) => {y}
      case (Transmit(_), Sending(u)) => {u.slab}
      case (CopyUp(_), Copying(v)) => {v.slab}
      case _ => {}
  }
}
