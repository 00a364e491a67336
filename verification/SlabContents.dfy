/**
 What the slabs carry, over every run: the decoder keeps copies of its own, WireGuard
 is given exactly ciphertexts that arrived or were rebuilt, and sockets are given
 exactly the datagrams that were framed.
 */
module SlabContents {
  import opened Words
  import opened FecShards
  import opened FecDecoder
  import F = FecRepair
  import Q = ReorderModel
  import A = ReorderAccounting
  import opened ReceiveQueue
  import Wire
  import D = Datagrams
  import FecEncoder
  import opened SlabFlow
  import opened SlabSafety

  ghost predicate Owning(f: Flow) {
    Sound(Owned(f), f.live, f.mem)
  }

  // ----- The decoder's copies -----

  /** The decoder keeps its shards in memory that is no slab, unchanged. */
  ghost predicate Apart(f: Flow) {
    forall id, i :: id in f.dec.groups && i in f.dec.groups[id].shards ==> Kept(f, id, i, f.dec.groups[id].shards[i])
  }

  ghost predicate Kept(f: Flow, id: int, i: int, shard: Bytes) {
    (id, i) in f.refs && var a := f.refs[(id, i)]; a in f.mem && a !in f.live && f.mem[a] == shard
  }

  /** The decoder is left alone, and memory that is no slab is neither changed nor made one. */
  ghost predicate Framed(f: Flow, g: Flow) {
    && g.dec == f.dec && g.refs == f.refs
    && forall a :: a in f.mem && a !in f.live ==> a in g.mem && a !in g.live && g.mem[a] == f.mem[a]
  }

  lemma FramedApart(f: Flow, g: Flow)
    requires Apart(f) && Framed(f, g)
    ensures Apart(g)
  {
    forall id, i | id in g.dec.groups && i in g.dec.groups[id].shards
      ensures Kept(g, id, i, g.dec.groups[id].shards[i])
    {
      assert Kept(f, id, i, f.dec.groups[id].shards[i]);
    }
  }

  lemma {:induction false} DispatchRest(f: Flow, es: seq<Q.Event<View>>)
    ensures var g := Dispatch(f, es); g == f.(pool := g.pool, bind := g.bind)
    decreases |es|
  {
    if es != [] {
      DispatchRest(if es[0].Dropped? then Put(f, es[0].val.slab) else Deliver(f, es[0].val), es[1..]);
    }
  }

  lemma CallbacksRest(f: Flow, q: Q.Queue<View>)
    ensures var g := Callbacks(f, q); g == f.(buf := q, pool := g.pool, bind := g.bind)
  {
    hide Dispatch;
    DispatchRest(f.(buf := q), if |f.buf.log| <= |q.log| then q.log[|f.buf.log|..] else []);
  }

  lemma PushRest(f: Flow, w: U32, v: View, now: int)
    ensures var g := Push(f, w, v, now); g == f.(buf := g.buf, pool := g.pool, bind := g.bind)
  {
    hide Callbacks, Q.Push;
    CallbacksRest(f, Q.Push(f.buf, w, v, now));
  }

  lemma WriteFramed(f: Flow, t: nat, x: Address, s: Bytes)
    requires Owning(f) && t < |f.tasks| && Bare(x) in Holds(f.tasks[t])
    ensures forall a :: a in f.mem && a !in f.live ==> a in Write(f.mem, x, s) && Write(f.mem, x, s)[a] == f.mem[a]
  {
    hide Sound, Owned, Good;
    TaskGood(f, t, Bare(x));
  }

  lemma ReturnsFramed(f: Flow, t: nat, x: Address)
    ensures Framed(f, ReadFailure(f, t)) && Framed(f, Released(f, t)) && Framed(f, Forgotten(f, x))
  {
  }

  lemma SendsFramed(f: Flow, t: nat)
    ensures Framed(f, Transmission(f, t)) && Framed(f, HandUp(f, t))
  {
    hide Content;
  }

  lemma TakesFramed(f: Flow, t: nat, i: nat)
    ensures Framed(f, TakeFirst(f, t)) && Framed(f, TakeOld(f, t, i))
  {
  }

  lemma GetFramed(f: Flow, x: Address)
    requires CanGet(f, x)
    ensures Framed(f, Get(f, x))
  {
    hide Zeros;
  }

  lemma GetsFramed(f: Flow, t: nat, x: Address, header: Bytes, body: Bytes)
    ensures Framed(f, StartListening(f, t, x)) && Framed(f, CallbackGet(f, t, x))
    ensures Framed(f, FrameGet(f, t, x, header, body))
  {
    hide Get;
    var h := f.(framed := f.framed + {header + body});
    if CanGet(f, x) {
      GetFramed(f, x);
    }
    if CanGet(h, x) {
      GetFramed(h, x);
    }
  }

  lemma ArrivalFramed(f: Flow, t: nat, dgram: Bytes)
    requires Owning(f)
    ensures Framed(f, Arrival(f, t, dgram))
  {
    hide Owning, Write, Prefix;
    if Runs(f, t) && f.tasks[t].Listening? {
      WriteFramed(f, t, f.tasks[t].x, Prefix(dgram));
    }
  }

  lemma CopyFramed(f: Flow, t: nat)
    requires Owning(f)
    ensures Framed(f, CallbackCopy(f, t))
  {
    hide Owning, Write, Prefix;
    if Runs(f, t) && f.tasks[t].Filling? && f.tasks[t].rest != [] {
      WriteFramed(f, t, f.tasks[t].y, Prefix(f.tasks[t].rest[0].ct));
    }
  }

  lemma FrameFramed(f: Flow, t: nat)
    requires Owning(f)
    ensures Framed(f, FrameWrite(f, t))
  {
    hide Owning, Write;
    if Runs(f, t) && f.tasks[t].Framing? {
      var k := f.tasks[t];
      WriteFramed(f, t, k.y, k.header);
      WriteFramed(f, t, k.y, k.header + k.body);
    }
  }

  lemma PushesFramed(f: Flow, t: nat, now: int)
    ensures Framed(f, CallbackPush(f, t, now)) && Framed(f, Finished(f, t, now))
  {
    hide Push;
    if Runs(f, t) {
      var k := f.tasks[t];
      if k.Filled? {
        PushRest(Become(f, t, Rebuilding(k.v, k.rest, k.ending)), k.w, k.u, now);
      } else if k.Rebuilding? && k.ending.PushAs? {
        PushRest(Become(f, t, Idle), k.ending.w, k.v, now);
      }
    }
  }

  lemma HandlerFramed(cfg: Config, f: Flow, t: nat)
    ensures Framed(f, Handler(cfg, f, t))
  {
    hide Handler;
  }

  lemma StepFramed(c: Codec, cfg: Config, f: Flow, op: Op)
    requires Owning(f) && !op.RegisterOp?
    ensures Framed(f, Step(c, cfg, f, op))
  {
    hide Owning, Callbacks, Q.Step, Q.Close, Handler, Reopen;
    hide StartListening, Arrival, ReadFailure, Registry, CallbackGet, CallbackCopy, CallbackPush, Finished;
    hide FrameGet, FrameWrite, Transmission, TakeFirst, TakeOld, HandUp, Released, Forgotten;
    match op
    case Listen(t, x) => GetsFramed(f, t, x, [], []);
    case GetForRebuilt(t, y) => GetsFramed(f, t, y, [], []);
    case GetForFrame(t, y, header, body) => GetsFramed(f, t, y, header, body);
    case Arrive(t, dgram) => ArrivalFramed(f, t, dgram);
    case CopyRebuilt(t) => CopyFramed(f, t);
    case Frame(t) => FrameFramed(f, t);
    case HandleOp(t) => HandlerFramed(cfg, f, t);
    case PushRebuilt(t, now) => PushesFramed(f, t, now);
    case Finish(t, now) => PushesFramed(f, t, now);
    case BufferOp(q) => CallbacksRest(f, Q.Step(f.buf, q));
    case CloseBuffer => CallbacksRest(f, Q.Close(f.buf));
    case OpenBind =>
    case CloseBind =>
    case TakeRetired(t, i) => TakesFramed(f, t, i);
    case PoolForgets(x) => ReturnsFramed(f, 0, x);
    case ReadFails(t) => ReturnsFramed(f, t, 0);
    case Transmit(t) => SendsFramed(f, t);
    case Take(t) => TakesFramed(f, t, 0);
    case CopyUp(t) => SendsFramed(f, t);
    case Release(t) => ReturnsFramed(f, t, 0);
    case RegisterOp(_, _, _, _) =>
  }

  // Where the shards of the decoder come from.
  lemma ShardOrigin(c: Codec, d: Dec, op: F.DecOp, id: int, i: int)
    requires var r := F.Step(c, d, op); id in r.groups && i in r.groups[id].shards
    ensures var s := F.Step(c, d, op).groups[id].shards[i];
            if id == op.id && i == op.index && Stores(d, op) then s == StoredShard(op)
            else id in d.groups && i in d.groups[id].shards && s == d.groups[id].shards[i]
  {
    hide BuildShard, Settle;
    if id != op.id {
      F.OtherGroup(c, d, op, id);
    } else {
      F.FoundShards(d, op);
      SettledEntry(c, Prepare(d, op.id, op.now, op.victim), id, F.Extended(d, op));
    }
  }

  lemma SettledEntry(c: Codec, d: Dec, id: int, e: Entry)
    ensures var r := Settle(c, d, id, e); id in r.groups ==> r.groups[id] == e
  {
    hide Aligned, Rebuilt, DataKeys;
  }

  lemma RegisterApart(c: Codec, f: Flow, t: nat, op: F.DecOp, v: View, ending: Ending, a: Address)
    requires Owning(f) && Apart(f) && t < |f.tasks| && a !in f.mem
    ensures Apart(Register(c, f, t, op, v, ending, a))
  {
    hide F.Step, Stores, StoredShard, Owned, Good;
    var g := Register(c, f, t, op, v, ending, a);
    SlabsAllocated(f);
    forall id, i | id in g.dec.groups && i in g.dec.groups[id].shards
      ensures Kept(g, id, i, g.dec.groups[id].shards[i])
    {
      ShardOrigin(c, f.dec, op, id, i);
      if !(id == op.id && i == op.index && Stores(f.dec, op)) {
        assert Kept(f, id, i, f.dec.groups[id].shards[i]);
      }
    }
  }

  lemma SlabsAllocated(f: Flow)
    requires Owning(f)
    ensures forall x :: x in f.live ==> x in f.mem
  {
    hide Owned;
  }

  lemma StepApart(c: Codec, cfg: Config, f: Flow, op: Op)
    requires Owning(f) && Apart(f)
    ensures Apart(Step(c, cfg, f, op))
  {
    if op.RegisterOp? {
      hide Register, Registration, Owning, Apart;
      if Runs(f, op.t) && f.tasks[op.t].Registering? && op.a !in f.mem {
        var k := f.tasks[op.t];
        RegisterApart(c, f, op.t, Registration(f.mem, k.v, k.fields, op.now, op.victim), k.v, k.ending, op.a);
      }
    } else {
      hide Step, Owning, Framed, Apart;
      StepFramed(c, cfg, f, op);
      FramedApart(f, Step(c, cfg, f, op));
    }
  }

  // ----- What is on its way -----

  /** The packets in the buffer and the queues are ciphertexts that arrived or were rebuilt. */
  ghost predicate Carried(buf: Q.Queue<View>, bind: Bind<View>, taken: set<Bytes>) {
    && (forall v :: v in A.HeldValues(buf.held) ==> v.ct in taken)
    && (forall v :: v in bind.queue ==> v.ct in taken)
    && (forall v :: v in bind.retired ==> v.ct in taken)
  }

  /** So are the packets the threads are going to push or hand up, and frames are frames. */
  predicate TaskKnown(k: Task, taken: set<Bytes>, framed: set<Bytes>) {
    match k
    case Registering(v, _, PushAs(_)) => v.ct in taken
    case Rebuilding(v, _, PushAs(_)) => v.ct in taken
    case Filling(v, _, _, PushAs(_)) => v.ct in taken
    case Filled(v, u, _, _, ending) => u.ct in taken && (ending.PushAs? ==> v.ct in taken)
    case Copying(v) => v.ct in taken
    case Framing(_, header, body) => header + body in framed
    case Sending(u) => u.ct in framed
    case _ => true
  }

  ghost predicate TasksKnown(ts: seq<Task>, taken: set<Bytes>, framed: set<Bytes>) {
    forall t :: 0 <= t < |ts| ==> TaskKnown(ts[t], taken, framed)
  }

  /** What went up was taken in, and what was sent was framed. */
  ghost predicate Logged(f: Flow) {
    (forall b :: b in f.up ==> b in f.taken) && (forall b :: b in f.sent ==> b in f.framed)
  }

  ghost predicate Known(f: Flow) {
    Carried(f.buf, f.bind, f.taken) && TasksKnown(f.tasks, f.taken, f.framed) && Logged(f)
  }

  lemma DeliverCarried(f: Flow, v: View)
    requires Carried(f.buf, f.bind, f.taken) && v.ct in f.taken
    ensures var g := Deliver(f, v); Carried(g.buf, g.bind, g.taken)
  {
    hide A.HeldValues;
  }

  lemma {:induction false} DispatchCarried(f: Flow, es: seq<Q.Event<View>>)
    requires Carried(f.buf, f.bind, f.taken) && forall i :: 0 <= i < |es| ==> es[i].val.ct in f.taken
    ensures var g := Dispatch(f, es); Carried(g.buf, g.bind, g.taken)
    decreases |es|
  {
    hide Carried, Deliver;
    if es != [] {
      DeliverCarried(f, es[0].val);
      DispatchCarried(if es[0].Dropped? then Put(f, es[0].val.slab) else Deliver(f, es[0].val), es[1..]);
    }
  }

  lemma {:induction false} InLogValues(es: seq<Q.Event<View>>, i: nat)
    requires i < |es|
    ensures es[i].val in A.LogValues(es)
  {
    if i < |es| - 1 {
      InLogValues(es[..|es| - 1], i);
    }
  }

  // The buffer takes over the views in `extra` and puts out some views.
  lemma CallbacksCarried(f: Flow, q: Q.Queue<View>, extra: multiset<View>)
    requires Carried(f.buf, f.bind, f.taken) && forall v :: v in extra ==> v.ct in f.taken
    requires f.buf.log <= q.log && A.Total(q.log, q.held) == A.Total(f.buf.log, f.buf.held) + extra
    ensures var g := Callbacks(f, q); Carried(g.buf, g.bind, g.taken)
  {
    hide A.LogValues, A.HeldValues, Dispatch, A.Total;
    var es := q.log[|f.buf.log|..];
    Outgoing(f.buf, q, extra);
    var all := A.HeldValues(f.buf.held) + extra;
    forall v | v in A.LogValues(es) || v in A.HeldValues(q.held)
      ensures v.ct in f.taken
    {
      assert v in A.LogValues(es) + A.HeldValues(q.held);
      assert v in all;
    }
    forall i | 0 <= i < |es|
      ensures es[i].val.ct in f.taken
    {
      InLogValues(es, i);
    }
    DispatchCarried(f.(buf := q), es);
  }

  lemma PushCarried(f: Flow, w: U32, v: View, now: int)
    requires Carried(f.buf, f.bind, f.taken) && v.ct in f.taken
    ensures var g := Push(f, w, v, now); Carried(g.buf, g.bind, g.taken)
  {
    hide Carried, Callbacks, Q.Push, A.Total;
    PushLog(f.buf, w, v, now);
    A.PushTotal(f.buf, w, v, now);
    CallbacksCarried(f, Q.Push(f.buf, w, v, now), multiset{v});
  }

  lemma QuietCarried(f: Flow, q: Q.Op<View>)
    requires Carried(f.buf, f.bind, f.taken) && !q.PushOp?
    ensures var g := Callbacks(f, Q.Step(f.buf, q)); Carried(g.buf, g.bind, g.taken)
  {
    hide Carried, Q.Expire, Callbacks, A.Total;
    match q {
      case TickOp(now) =>
        ExpireLog(f.buf, now);
        A.ExpireTotal(f.buf, now);
      case TimerOp(now) =>
        ExpireLog(f.buf.(armed := false), now);
        A.ExpireTotal(f.buf.(armed := false), now);
      case HoldOp(d) =>
    }
    var b := Q.Step(f.buf, q);
    assert A.Total(b.log, b.held) == A.Total(f.buf.log, f.buf.held) + multiset{};
    CallbacksCarried(f, b, multiset{});
  }

  lemma CloseCarried(f: Flow)
    requires Carried(f.buf, f.bind, f.taken)
    ensures var g := Callbacks(f, Q.Close(f.buf)); Carried(g.buf, g.bind, g.taken)
  {
    hide Carried, Q.Flush, Callbacks, A.Total;
    FlushLog(f.buf.(armed := false));
    A.FlushTotal(f.buf.(armed := false));
    var b := Q.Close(f.buf);
    assert A.Total(b.log, b.held) == A.Total(f.buf.log, f.buf.held) + multiset{};
    CallbacksCarried(f, b, multiset{});
  }

  // A thread moves on, and more may be known.
  lemma MoveKnown(f: Flow, g: Flow, t: nat, k: Task)
    requires Known(f) && t < |f.tasks| && g.tasks == f.tasks[t := k] && f.taken <= g.taken && f.framed <= g.framed
    requires TaskKnown(k, g.taken, g.framed) && Carried(g.buf, g.bind, g.taken)
    requires g.up == f.up && g.sent == f.sent
    ensures Known(g)
  {
    hide Carried;
    forall i | 0 <= i < |g.tasks|
      ensures TaskKnown(g.tasks[i], g.taken, g.framed)
    {
      assert TaskKnown(f.tasks[i], f.taken, f.framed);
    }
  }

  lemma MoreCarried(f: Flow, taken: set<Bytes>)
    requires Carried(f.buf, f.bind, f.taken) && f.taken <= taken
    ensures Carried(f.buf, f.bind, taken)
  {
    hide A.HeldValues;
  }

  // A view is read as it was made.
  lemma ReadBack(f: Flow, t: nat, v: View)
    requires Owning(f) && t < |f.tasks| && v in Holds(f.tasks[t])
    ensures Content(f.mem, v) == v.ct
  {
    hide Sound, Good, Holds, Owned;
    TaskGood(f, t, v);
    GoodContent(f.mem, v);
  }

  lemma HandleKnown(cfg: Config, f: Flow, t: nat)
    requires Known(f)
    ensures Known(Handler(cfg, f, t))
  {
    hide Carried, TasksKnown, Logged, Wire.ParseData, Wire.ParseFec, Wire.ParseHeader, Content, Deliver;
    if Runs(f, t) && f.tasks[t].Handling? {
      var d := f.tasks[t].d;
      MoveKnown(f, Put(Become(f, t, Idle), d.slab), t, Idle);
      var b := Content(f.mem, d);
      var data := Wire.ParseData(b);
      if data.Ok? {
        HandleDataKnown(cfg, f, t, d, data.value.0, data.value.1);
      }
      var fec := Wire.ParseFec(b);
      if fec.Ok? {
        HandleFecKnown(cfg, f, t, d, fec.value.0, fec.value.1);
      }
    }
  }

  lemma HandleDataKnown(cfg: Config, f: Flow, t: nat, d: View, h: Wire.DataHeader, payload: Bytes)
    requires Known(f) && t < |f.tasks|
    ensures Known(HandleData(cfg, f, t, d, h, payload))
  {
    hide Carried, TasksKnown, Logged, Deliver, Wire.Class, Wire.HasFecInfo, Wire.DataLen;
    var g := HandleData(cfg, f, t, d, h, payload);
    if h.session == cfg.session {
      var v := View(d.slab, d.off + Wire.DataLen(h.header.flags), |payload|, payload);
      var k := f.(taken := f.taken + {payload});
      MoreCarried(f, k.taken);
      DeliverCarried(Become(k, t, Idle), v);
    }
    MoveKnown(f, g, t, g.tasks[t]);
  }

  lemma HandleFecKnown(cfg: Config, f: Flow, t: nat, d: View, h: Wire.FecHeader, shard: Bytes)
    requires Known(f) && t < |f.tasks|
    ensures Known(HandleFec(cfg, f, t, d, h, shard))
  {
    hide Carried, TasksKnown, Logged;
    var g := HandleFec(cfg, f, t, d, h, shard);
    MoveKnown(f, g, t, g.tasks[t]);
  }

  // The task of thread `t` is known.
  lemma ThreadKnown(f: Flow, t: nat)
    requires Known(f) && t < |f.tasks|
    ensures TaskKnown(f.tasks[t], f.taken, f.framed) && Carried(f.buf, f.bind, f.taken)
  {
    hide Carried;
  }

  lemma ListenKnown(f: Flow, t: nat, x: Address)
    requires Known(f)
    ensures Known(StartListening(f, t, x))
  {
    hide Carried, TasksKnown, Logged, Zeros;
    if Runs(f, t) && f.tasks[t].Idle? && CanGet(f, x) {
      var g := StartListening(f, t, x);
      MoveKnown(f, g, t, g.tasks[t]);
    }
  }

  lemma CallbackGetKnown(f: Flow, t: nat, y: Address)
    requires Known(f)
    ensures Known(CallbackGet(f, t, y))
  {
    hide Carried, TasksKnown, Logged, Zeros;
    if Runs(f, t) && f.tasks[t].Rebuilding? && f.tasks[t].rest != [] && CanGet(f, y) {
      var g := CallbackGet(f, t, y);
      ThreadKnown(f, t);
      MoveKnown(f, g, t, g.tasks[t]);
    }
  }

  lemma FrameGetKnown(f: Flow, t: nat, y: Address, header: Bytes, body: Bytes)
    requires Known(f)
    ensures Known(FrameGet(f, t, y, header, body))
  {
    hide Carried, TasksKnown, Logged, Zeros;
    if Runs(f, t) && f.tasks[t].Idle? && CanGet(f, y) {
      var g := FrameGet(f, t, y, header, body);
      MoveKnown(f, g, t, g.tasks[t]);
    }
  }

  lemma ArrivalKnown(f: Flow, t: nat, dgram: Bytes)
    requires Known(f)
    ensures Known(Arrival(f, t, dgram))
  {
    hide Carried, TasksKnown, Logged, Write, Prefix;
    if Runs(f, t) && f.tasks[t].Listening? {
      var g := Arrival(f, t, dgram);
      MoveKnown(f, g, t, g.tasks[t]);
    }
  }

  lemma FailureKnown(f: Flow, t: nat)
    requires Known(f)
    ensures Known(ReadFailure(f, t))
  {
    hide Carried, TasksKnown, Logged;
    if Runs(f, t) && f.tasks[t].Listening? {
      var g := ReadFailure(f, t);
      MoveKnown(f, g, t, g.tasks[t]);
    }
  }

  lemma ReleasedKnown(f: Flow, t: nat)
    requires Known(f)
    ensures Known(Released(f, t))
  {
    hide Carried, TasksKnown, Logged;
    if Runs(f, t) && f.tasks[t].Releasing? {
      var g := Released(f, t);
      MoveKnown(f, g, t, g.tasks[t]);
    }
  }

  lemma RegistryKnown(c: Codec, f: Flow, t: nat, now: int, victim: Option<int>, a: Address)
    requires Known(f)
    ensures Known(Registry(c, f, t, now, victim, a))
  {
    hide Carried, TasksKnown, Logged, F.Step, Stores, StoredShard, Registration;
    if Runs(f, t) && f.tasks[t].Registering? && a !in f.mem {
      var g := Registry(c, f, t, now, victim, a);
      ThreadKnown(f, t);
      MoveKnown(f, g, t, g.tasks[t]);
    }
  }

  lemma CallbackCopyKnown(f: Flow, t: nat)
    requires Known(f)
    ensures Known(CallbackCopy(f, t))
  {
    hide Carried, TasksKnown, Logged, Write, Prefix;
    if Runs(f, t) && f.tasks[t].Filling? && f.tasks[t].rest != [] {
      var g := CallbackCopy(f, t);
      ThreadKnown(f, t);
      MoreCarried(f, g.taken);
      MoveKnown(f, g, t, g.tasks[t]);
    }
  }

  lemma CallbackPushKnown(f: Flow, t: nat, now: int)
    requires Known(f)
    ensures Known(CallbackPush(f, t, now))
  {
    hide Carried, TasksKnown, Logged, Push;
    if Runs(f, t) && f.tasks[t].Filled? {
      var k, g := f.tasks[t], CallbackPush(f, t, now);
      var h := Become(f, t, Rebuilding(k.v, k.rest, k.ending));
      ThreadKnown(f, t);
      PushCarried(h, k.w, k.u, now);
      PushRest(h, k.w, k.u, now);
      MoveKnown(f, g, t, g.tasks[t]);
    }
  }

  lemma FinishedKnown(f: Flow, t: nat, now: int)
    requires Known(f)
    ensures Known(Finished(f, t, now))
  {
    hide Carried, TasksKnown, Logged, Push;
    if Runs(f, t) && f.tasks[t].Rebuilding? && f.tasks[t].rest == [] {
      var k, g := f.tasks[t], Finished(f, t, now);
      ThreadKnown(f, t);
      if k.ending.PushAs? {
        PushCarried(Become(f, t, Idle), k.ending.w, k.v, now);
        PushRest(Become(f, t, Idle), k.ending.w, k.v, now);
      }
      MoveKnown(f, g, t, g.tasks[t]);
    }
  }

  lemma FrameWriteKnown(f: Flow, t: nat)
    requires Known(f)
    ensures Known(FrameWrite(f, t))
  {
    hide Carried, TasksKnown, Logged, Write;
    if Runs(f, t) && f.tasks[t].Framing? {
      var g := FrameWrite(f, t);
      ThreadKnown(f, t);
      MoveKnown(f, g, t, g.tasks[t]);
    }
  }

  lemma TransmissionKnown(f: Flow, t: nat)
    requires Owning(f) && Known(f)
    ensures Known(Transmission(f, t))
  {
    hide Carried, TasksKnown, Owning, Content;
    if Runs(f, t) && f.tasks[t].Sending? {
      var g, u := Transmission(f, t), f.tasks[t].u;
      ThreadKnown(f, t);
      ReadBack(f, t, u);
      MoveKnown(f, g.(sent := f.sent), t, g.tasks[t]);
    }
  }

  lemma HandUpKnown(f: Flow, t: nat)
    requires Owning(f) && Known(f)
    ensures Known(HandUp(f, t))
  {
    hide Carried, TasksKnown, Owning, Content;
    if Runs(f, t) && f.tasks[t].Copying? {
      var g, v := HandUp(f, t), f.tasks[t].v;
      ThreadKnown(f, t);
      ReadBack(f, t, v);
      MoveKnown(f, g.(up := f.up), t, g.tasks[t]);
    }
  }

  lemma TakeFirstKnown(f: Flow, t: nat)
    requires Known(f)
    ensures Known(TakeFirst(f, t))
  {
    hide A.HeldValues, TasksKnown, Logged;
    if Runs(f, t) && f.tasks[t].Idle? && f.bind.queue != [] {
      var g := TakeFirst(f, t);
      assert f.bind.queue[0] in f.bind.queue;
      MoveKnown(f, g, t, g.tasks[t]);
    }
  }

  lemma TakeOldKnown(f: Flow, t: nat, i: nat)
    requires Known(f)
    ensures Known(TakeOld(f, t, i))
  {
    hide A.HeldValues, TasksKnown, Logged;
    if Runs(f, t) && f.tasks[t].Idle? && i < |f.bind.retired| {
      var g := TakeOld(f, t, i);
      assert f.bind.retired[i] in f.bind.retired;
      MoveKnown(f, g, t, g.tasks[t]);
    }
  }

  lemma BindKnown(f: Flow, x: Address)
    requires Known(f)
    ensures Known(f.(bind := Reopen(f.bind)))
    ensures Known(f.(bind := f.bind.(closed := f.bind.hasChannel || f.bind.closed)))
    ensures Known(Forgotten(f, x))
  {
    hide A.HeldValues, TasksKnown, Logged;
    MoreKnown(f, f.(bind := Reopen(f.bind)));
    MoreKnown(f, f.(bind := f.bind.(closed := f.bind.hasChannel || f.bind.closed)));
    MoreKnown(f, Forgotten(f, x));
  }

  lemma MoreKnown(f: Flow, g: Flow)
    requires Known(f) && g == f.(buf := g.buf, bind := g.bind, pool := g.pool, live := g.live)
    requires Carried(g.buf, g.bind, g.taken)
    ensures Known(g)
  {
    hide Carried;
  }

  lemma StepKnown(c: Codec, cfg: Config, f: Flow, op: Op)
    requires Owning(f) && Known(f)
    ensures Known(Step(c, cfg, f, op))
  {
    hide Owning, Carried, TasksKnown, Logged, Callbacks, Q.Step, Q.Close, Handler, Reopen;
    hide StartListening, Arrival, ReadFailure, Registry, CallbackGet, CallbackCopy, CallbackPush, Finished;
    hide FrameGet, FrameWrite, Transmission, TakeFirst, TakeOld, HandUp, Released, Forgotten;
    match op
    case Listen(t, x) => ListenKnown(f, t, x);
    case Arrive(t, dgram) => ArrivalKnown(f, t, dgram);
    case ReadFails(t) => FailureKnown(f, t);
    case HandleOp(t) => HandleKnown(cfg, f, t);
    case RegisterOp(t, now, victim, a) => RegistryKnown(c, f, t, now, victim, a);
    case GetForRebuilt(t, y) => CallbackGetKnown(f, t, y);
    case CopyRebuilt(t) => CallbackCopyKnown(f, t);
    case PushRebuilt(t, now) => CallbackPushKnown(f, t, now);
    case Finish(t, now) => FinishedKnown(f, t, now);
    case GetForFrame(t, y, header, body) => FrameGetKnown(f, t, y, header, body);
    case Frame(t) => FrameWriteKnown(f, t);
    case Transmit(t) => TransmissionKnown(f, t);
    case Take(t) => TakeFirstKnown(f, t);
    case TakeRetired(t, i) => TakeOldKnown(f, t, i);
    case CopyUp(t) => HandUpKnown(f, t);
    case Release(t) => ReleasedKnown(f, t);
    case BufferOp(q) =>
      if !q.PushOp? {
        QuietCarried(f, q);
        CallbacksRest(f, Q.Step(f.buf, q));
        MoreKnown(f, Callbacks(f, Q.Step(f.buf, q)));
      }
    case CloseBuffer =>
      CloseCarried(f);
      CallbacksRest(f, Q.Close(f.buf));
      MoreKnown(f, Callbacks(f, Q.Close(f.buf)));
    case OpenBind => BindKnown(f, 0);
    case CloseBind => BindKnown(f, 0);
    case PoolForgets(x) => BindKnown(f, x);
  }

  // ----- Every run -----

  lemma {:induction false} RunKeeps(c: Codec, cfg: Config, f: Flow, ops: seq<Op>)
    requires Owning(f) && Apart(f) && Known(f)
    ensures var g := Run(c, cfg, f, ops); Owning(g) && Apart(g) && Known(g)
    decreases |ops|
  {
    hide Sound, Apart, Known, Step, Owned;
    if ops != [] {
      StepSound(c, cfg, f, ops[0]);
      StepApart(c, cfg, f, ops[0]);
      StepKnown(c, cfg, f, ops[0]);
      RunKeeps(c, cfg, Step(c, cfg, f, ops[0]), ops[1..]);
    }
  }

  lemma StartKnown(n: nat)
    ensures Owning(Start(n)) && Apart(Start(n)) && Known(Start(n))
  {
    hide Sound;
    StartSound(n);
    assert A.HeldValues(Start(n).buf.held) == multiset{};
  }

  /**
   Over every interleaving, FEC keeps only copies: the memory in which the decoder
   has a shard is no slab, so no read, reuse or release of a slab ever changes it.
   */
  lemma DecoderKeepsCopies(c: Codec, cfg: Config, n: nat, ops: seq<Op>, id: int, i: int)
    requires var f := Run(c, cfg, Start(n), ops); id in f.dec.groups && i in f.dec.groups[id].shards
    ensures var f := Run(c, cfg, Start(n), ops);
            (id, i) in f.refs && var a := f.refs[(id, i)];
            && a in f.mem && f.mem[a] == f.dec.groups[id].shards[i]
            && a !in f.live && forall v :: v in Owned(f) ==> v.slab != a
  {
    hide Run, Known, Owned, Good;
    StartKnown(n);
    RunKeeps(c, cfg, Start(n), ops);
    var f := Run(c, cfg, Start(n), ops);
    assert Kept(f, id, i, f.dec.groups[id].shards[i]);
  }

  /**
   Over every interleaving, although slabs are reused all the time, every ciphertext
   given to WireGuard is one that arrived in a DATA datagram or was rebuilt, byte for
   byte, and every datagram given to a socket is one that was framed.
   */
  lemma NothingIsGarbled(c: Codec, cfg: Config, n: nat, ops: seq<Op>)
    ensures var f := Run(c, cfg, Start(n), ops);
            (forall b :: b in f.up ==> b in f.taken) && (forall b :: b in f.sent ==> b in f.framed)
  {
    hide Run, Owning, Apart, Carried, TasksKnown;
    StartKnown(n);
    RunKeeps(c, cfg, Start(n), ops);
  }

  // ----- The handler and the value model -----

  /** Task `k` is about to do with its slab what the value model says of the datagram. */
  predicate Matches(i: D.Incoming, k: Task) {
    match i
    case Bulk(p, tag) =>
      if tag.None? then k.Rebuilding? && k.v.ct == p.ct && k.rest == [] && k.ending == PushAs(p.seqNo)
      else k.Registering? && k.v.ct == p.ct && k.fields == DataFields(tag.value.group, tag.value.index, p.seqNo)
           && k.ending == PushAs(p.seqNo)
    case ParityIn(x) =>
      k.Registering? && k.v.ct == x.shard && k.fields == ParityFields(x.group, x.index, x.k, x.m) && k.ending == PutBack
    case Direct(_) => k == Idle
    case Other => k == Idle
  }

  lemma DataMatches(cfg: Config, f: Flow, t: nat, d: View, h: Wire.DataHeader, payload: Bytes)
    requires t < |f.tasks| && cfg.fec
    ensures Matches(D.IncomingData(cfg.session, h, payload), HandleData(cfg, f, t, d, h, payload).tasks[t])
  {
    hide Deliver, Wire.Class, Wire.HasFecInfo, Wire.DataLen;
    var v := View(d.slab, d.off + Wire.DataLen(h.header.flags), |payload|, payload);
  }

  lemma FecMatches(cfg: Config, f: Flow, t: nat, d: View, h: Wire.FecHeader, shard: Bytes)
    requires t < |f.tasks| && cfg.fec
    ensures Matches(D.IncomingFec(cfg.session, h, shard), HandleFec(cfg, f, t, d, h, shard).tasks[t])
  {
  }

  lemma HandlerMatches(cfg: Config, f: Flow, t: nat)
    requires Owning(f) && Runs(f, t) && f.tasks[t].Handling? && cfg.fec
    ensures Matches(D.Receive(cfg.session, f.tasks[t].d.ct), Handler(cfg, f, t).tasks[t])
  {
    hide Owning, Content, Wire.ParseHeader, Wire.ParseData, Wire.ParseFec, HandleData, HandleFec, Matches;
    hide D.IncomingData, D.IncomingFec;
    var d := f.tasks[t].d;
    ReadBack(f, t, d);
    var data, fec := Wire.ParseData(d.ct), Wire.ParseFec(d.ct);
    if data.Ok? {
      DataMatches(cfg, f, t, d, data.value.0, data.value.1);
    }
    if fec.Ok? {
      FecMatches(cfg, f, t, d, fec.value.0, fec.value.1);
    }
    OtherMatches();
  }

  lemma OtherMatches()
    ensures Matches(D.Other, Idle)
  {
  }

  /**
   However many steps other threads take in between, the decoder is fed with exactly
   what the value model reads from the datagram.
   */
  lemma DecoderFedAsModelled(cfg: Config, f: Flow, t: nat, g: Flow, now: int, victim: Option<int>)
    requires Owning(f) && Runs(f, t) && f.tasks[t].Handling? && cfg.fec
    requires Owning(g) && Runs(g, t) && g.tasks[t] == Handler(cfg, f, t).tasks[t] && g.tasks[t].Registering?
    ensures var k := g.tasks[t];
            D.DecoderInput(D.Receive(cfg.session, f.tasks[t].d.ct), now, victim)
            == Some(Registration(g.mem, k.v, k.fields, now, victim))
  {
    hide Owning, Content, Handler, D.Receive;
    HandlerMatches(cfg, f, t);
    ReadBack(g, t, g.tasks[t].v);
  }

  // The frame goes out as it was built, or the datagram does not fit and nothing goes out.
  lemma FrameGoesOut(f: Flow, t: nat, g: Flow)
    requires Runs(f, t) && f.tasks[t].Framing?
    requires Owning(g) && Runs(g, t) && g.tasks[t] == FrameWrite(f, t).tasks[t]
    ensures var k := f.tasks[t];
            Transmission(g, t).sent ==
            if |k.header| + |k.body| > SLAB_SIZE then g.sent else g.sent + [k.header + k.body]
  {
    hide Owning, Content, Write;
    if g.tasks[t].Sending? {
      ReadBack(g, t, g.tasks[t].u);
    }
  }

  /**
   However many steps other threads take in between, `sendDataOn` gives the socket
   the bytes of the value model, and nothing when they do not fit.
   */
  lemma SentAsModelled(f: Flow, t: nat, g: Flow, session: U32, path: D.Path, cls: Byte, dup: bool, p: Packet,
                       tag: Option<FecEncoder.Tag>)
    requires Runs(f, t) && f.tasks[t].Framing? && f.tasks[t].body == p.ct
    requires f.tasks[t].header == Wire.DataHeaderBytes(D.FrameHeader(session, path, cls, dup, p, tag))
    requires Owning(g) && Runs(g, t) && g.tasks[t] == FrameWrite(f, t).tasks[t]
    ensures Transmission(g, t).sent ==
            match D.SendData(session, path, cls, dup, p, tag) case Some(b) => g.sent + [b] case None => g.sent
  {
    hide Owning, FrameWrite, Transmission, Wire.DataHeaderBytes, D.FrameHeader;
    FrameGoesOut(f, t, g);
  }

  /**
   A DATA datagram whose flags carry a class other than 0 goes straight to the queue
   for WireGuard, or back to the pool when the queue takes nothing; the buffer and the
   decoder do not see it.
   */
  lemma OtherClassesBypass(cfg: Config, f: Flow, t: nat, h: Wire.DataHeader, payload: Bytes)
    requires Owning(f) && Runs(f, t) && f.tasks[t].Handling? && h.header.typ == Wire.TYPE_DATA
    requires Wire.CanonicalData(h) && f.tasks[t].d.ct == Wire.DataHeaderBytes(h) + payload
    requires h.session == cfg.session && h.header.flags / 4 % 4 != 0
    ensures var g := Handler(cfg, f, t);
            && g.tasks[t] == Idle && g.buf == f.buf && g.dec == f.dec && g.bind.retired == f.bind.retired
            && if f.bind.hasChannel && !f.bind.closed && |f.bind.queue| < 1024
               then |g.bind.queue| == |f.bind.queue| + 1 && g.bind.queue[..|f.bind.queue|] == f.bind.queue
                    && g.bind.queue[|f.bind.queue|].ct == payload && g.pool == f.pool
               else g.bind == f.bind && g.pool == f.pool + multiset{Bare(f.tasks[t].d.slab)}
  {
    hide Owning, Content, Wire.ParseHeader, Wire.ParseData, Wire.ParseFec, Wire.DataHeaderBytes;
    ReadBack(f, t, f.tasks[t].d);
    Wire.DataRoundTrip(h, payload);
    D.HeaderOfData(h, payload);
  }

  /** A bulk datagram never goes to the queue before it has been through the buffer. */
  lemma BulkIsResequenced(cfg: Config, f: Flow, t: nat, h: Wire.DataHeader, payload: Bytes)
    requires Owning(f) && Runs(f, t) && f.tasks[t].Handling? && h.header.typ == Wire.TYPE_DATA
    requires Wire.CanonicalData(h) && f.tasks[t].d.ct == Wire.DataHeaderBytes(h) + payload
    requires h.session == cfg.session && h.header.flags / 4 % 4 == 0
    ensures var g := Handler(cfg, f, t);
            && g.bind == f.bind && g.pool == f.pool && g.buf == f.buf && g.dec == f.dec
            && (if h.header.flags / 2 % 2 == 1 && cfg.fec then g.tasks[t].Registering?
                else g.tasks[t].Rebuilding? && g.tasks[t].rest == [])
            && g.tasks[t].v.ct == payload && g.tasks[t].ending == PushAs(h.globalSeq)
  {
    hide Owning, Content, Wire.ParseHeader, Wire.ParseData, Wire.ParseFec, Wire.DataHeaderBytes;
    ReadBack(f, t, f.tasks[t].d);
    Wire.DataRoundTrip(h, payload);
    D.HeaderOfData(h, payload);
  }

  /** A datagram of another session, or an FEC datagram without a decoder, only gives its slab back. */
  lemma ForeignIsReturned(cfg: Config, f: Flow, t: nat, session: U32)
    requires Owning(f) && Runs(f, t) && f.tasks[t].Handling?
    requires var b := f.tasks[t].d.ct;
             || (Wire.ParseData(b).Ok? && Wire.ParseData(b).value.0.session == session != cfg.session)
             || (Wire.ParseFec(b).Ok? && Wire.ParseFec(b).value.0.session == session && (session != cfg.session || !cfg.fec))
    ensures Handler(cfg, f, t) == Put(Become(f, t, Idle), f.tasks[t].d.slab)
  {
    hide Owning, Content;
    ReadBack(f, t, f.tasks[t].d);
  }

  // ----- What reaches the buffer and WireGuard -----

  /** The callback pushes each rebuilt packet under its own number, with its own bytes. */
  lemma RebuiltIsPushed(f: Flow, t: nat, g: Flow, now: int)
    requires Runs(f, t) && f.tasks[t].Filling? && f.tasks[t].rest != []
    requires Owning(g) && Runs(g, t) && g.tasks[t] == CallbackCopy(f, t).tasks[t]
    ensures var k, u := f.tasks[t], g.tasks[t].u;
            && CallbackPush(g, t, now).buf == Q.Push(g.buf, k.rest[0].seqNo, u, now)
            && Content(g.mem, u) == Prefix(k.rest[0].ct) && u.slab == k.y
            && CallbackPush(g, t, now).tasks == g.tasks[t := Rebuilding(k.v, k.rest[1..], k.ending)]
  {
    hide Owning, Content, Q.Push, Callbacks;
    var k := f.tasks[t];
    var h := Become(g, t, Rebuilding(k.v, k.rest[1..], k.ending));
    ReadBack(g, t, g.tasks[t].u);
    CallbacksRest(h, Q.Push(g.buf, k.rest[0].seqNo, g.tasks[t].u, now));
  }

  /** A handler whose decoder call has returned pushes its packet under its number, or returns its slab. */
  lemma PacketIsPushed(f: Flow, t: nat, now: int)
    requires Owning(f) && Runs(f, t) && f.tasks[t].Rebuilding? && f.tasks[t].rest == []
    ensures var k := f.tasks[t];
            && Finished(f, t, now).tasks == f.tasks[t := Idle] && Content(f.mem, k.v) == k.v.ct
            && Finished(f, t, now).buf == match k.ending case PushAs(w) => Q.Push(f.buf, w, k.v, now) case PutBack => f.buf
  {
    hide Owning, Content, Q.Push, Callbacks;
    var k := f.tasks[t];
    ReadBack(f, t, k.v);
    if k.ending.PushAs? {
      CallbacksRest(Become(f, t, Idle), Q.Push(f.buf, k.ending.w, k.v, now));
    }
  }

  /** The packets among the events of the buffer that go up, in the order of the events. */
  function GoingUp(es: seq<Q.Event<View>>): seq<View> {
    if es == [] then [] else (if es[0].Dropped? then [] else [es[0].val]) + GoingUp(es[1..])
  }

  lemma {:induction false} EnqueueMore(b: Bind<View>, x: View, xs: seq<View>)
    ensures EnqueueAll(Enqueue(b, x), xs) == EnqueueAll(b, [x] + xs)
    decreases |xs|
  {
    if xs == [] {
      assert [x] + xs == [x] && [x][..0] == [];
    } else {
      var n := |xs| - 1;
      EnqueueMore(b, x, xs[..n]);
      assert ([x] + xs)[..n + 1] == [x] + xs[..n];
    }
  }

  /** What the buffer puts out is offered to the queue in the order it left the buffer. */
  lemma {:induction false} DeliveredInOrder(f: Flow, es: seq<Q.Event<View>>)
    ensures Dispatch(f, es).bind == EnqueueAll(f.bind, GoingUp(es))
    decreases |es|
  {
    hide EnqueueAll;
    if es == [] {
      NoneEnqueued(f.bind);
    } else {
      var g := if es[0].Dropped? then Put(f, es[0].val.slab) else Deliver(f, es[0].val);
      DeliveredInOrder(g, es[1..]);
      EnqueueMore(f.bind, es[0].val, GoingUp(es[1..]));
      assert [] + GoingUp(es[1..]) == GoingUp(es[1..]);
    }
  }

  lemma NoneEnqueued(b: Bind<View>)
    ensures EnqueueAll(b, []) == b
  {
  }

  /** The receive function hands up the oldest packet of the queue. */
  lemma OldestGoesUp(f: Flow, t: nat, g: Flow)
    requires Runs(f, t) && f.tasks[t].Idle? && f.bind.queue != []
    requires Owning(g) && Runs(g, t) && g.tasks[t] == TakeFirst(f, t).tasks[t]
    ensures TakeFirst(f, t).bind.queue == f.bind.queue[1..]
    ensures HandUp(g, t).up == g.up + [f.bind.queue[0].ct] && HandUp(g, t).tasks[t] == Releasing(f.bind.queue[0])
  {
    hide Owning, Content;
    ReadBack(g, t, g.tasks[t].v);
  }
}
