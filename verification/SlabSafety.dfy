/**
 Ownership of the slabs over every run: each slab has exactly one holder, only its
 holder touches it, and whoever reads it finds what was put there.
 */
module SlabSafety {
  import opened Words
  import opened FecShards
  import opened FecDecoder
  import F = FecRepair
  import Q = ReorderModel
  import A = ReorderAccounting
  import opened ReceiveQueue
  import Wire
  import opened SlabFlow

  /** Every view of a slab that anyone holds, with multiplicity. */
  ghost function Owned(f: Flow): multiset<View> {
    f.pool + AllHold(f.tasks) + A.HeldValues(f.buf.held) + multiset(f.bind.queue) + multiset(f.bind.retired)
  }

  /** Each live slab has exactly one holder, and nothing else is held. */
  ghost predicate Exclusive(own: multiset<View>, live: set<Address>) {
    && (forall v :: v in own ==> own[v] == 1 && v.slab in live)
    && (forall u, v :: u in own && v in own && u.slab == v.slab ==> u == v)
    && (forall x :: x in live ==> exists v :: v in own && v.slab == x)
  }

  /** The range lies in its slab and still holds what it held when the view was made. */
  predicate Good(mem: Memory, v: View) {
    v.slab in mem && |mem[v.slab]| == SLAB_SIZE && v.off + v.len <= SLAB_SIZE && Content(mem, v) == v.ct
  }

  ghost predicate Sound(own: multiset<View>, live: set<Address>, mem: Memory) {
    Exclusive(own, live) && forall v :: v in own ==> Good(mem, v)
  }

  // ----- Exchanging one view for another -----

  lemma SwapSound(own: multiset<View>, after: multiset<View>, u: View, v: View, live: set<Address>, mem: Memory)
    requires Sound(own, live, mem) && u in own && u.slab == v.slab && Good(mem, v)
    requires after == own - multiset{u} + multiset{v}
    ensures Sound(after, live, mem)
  {
    hide Good;
    SwapExclusive(own, after, u, v, live);
    forall r | r in after
      ensures Good(mem, r)
    {
      Swapped(own, after, u, v, live, r);
    }
  }

  lemma SwapExclusive(own: multiset<View>, after: multiset<View>, u: View, v: View, live: set<Address>)
    requires Exclusive(own, live) && u in own && u.slab == v.slab && after == own - multiset{u} + multiset{v}
    ensures Exclusive(after, live)
  {
    forall r | r in after
      ensures after[r] == 1 && r.slab in live && (r == v || (r in own && r.slab != v.slab))
    {
      Swapped(own, after, u, v, live, r);
    }
    forall x | x in live
      ensures exists r :: r in after && r.slab == x
    {
      var r :| r in own && r.slab == x;
      assert v in after && (r != u ==> r in after);
    }
  }

  lemma Swapped(own: multiset<View>, after: multiset<View>, u: View, v: View, live: set<Address>, r: View)
    requires Exclusive(own, live) && u in own && u.slab == v.slab
    requires after == own - multiset{u} + multiset{v} && r in after
    ensures after[r] == 1 && r.slab in live && (r == v || (r in own && r.slab != v.slab))
  {
    assert own[u] == 1;
    if r != v {
      assert r in own && r != u;
    } else if r in own {
      assert r == u;
    }
  }

  lemma GrowSound(own: multiset<View>, x: Address, live: set<Address>, mem: Memory)
    requires Sound(own, live, mem) && x !in live && x !in mem
    ensures Sound(own + multiset{Bare(x)}, live + {x}, mem[x := Zeros(SLAB_SIZE)])
  {
    var after, new_ := own + multiset{Bare(x)}, mem[x := Zeros(SLAB_SIZE)];
    assert Bare(x) !in own;
    forall y | y in live + {x}
      ensures exists r :: r in after && r.slab == y
    {
      if y != x {
        var r :| r in own && r.slab == y;
        assert r in after;
      } else {
        assert Bare(x) in after;
      }
    }
    forall r | r in after
      ensures after[r] == 1 && Good(new_, r)
    {
      if r != Bare(x) {
        assert r in own && Good(mem, r) && r.slab != x;
      }
    }
  }

  lemma ShrinkSound(own: multiset<View>, u: View, live: set<Address>, mem: Memory)
    requires Sound(own, live, mem) && u in own
    ensures Sound(own - multiset{u}, live - {u.slab}, mem)
  {
    var after := own - multiset{u};
    assert own[u] == 1;
    forall y | y in live - {u.slab}
      ensures exists r :: r in after && r.slab == y
    {
      var r :| r in own && r.slab == y;
      assert r in after;
    }
  }

  // Writing to a slab held without content harms nobody.
  lemma WriteSound(own: multiset<View>, x: Address, s: Bytes, live: set<Address>, mem: Memory)
    requires Sound(own, live, mem) && Bare(x) in own
    ensures Sound(own, live, Write(mem, x, s))
  {
    var after := Write(mem, x, s);
    forall v | v in own
      ensures Good(after, v)
    {
      assert Good(mem, v);
      if v.slab == x {
        assert v == Bare(x);
      }
    }
  }

  // What was written is read back.
  lemma WriteGood(mem: Memory, x: Address, s: Bytes)
    requires Good(mem, Bare(x)) && |s| <= SLAB_SIZE
    ensures Good(Write(mem, x, s), View(x, 0, |s|, s))
  {
    var block := Overwrite(mem[x], s);
    assert block[0..|s|] == s;
  }

  // ----- Threads -----

  lemma {:induction false} AllHoldUpdate(ts: seq<Task>, t: nat, k: Task)
    requires t < |ts|
    ensures AllHold(ts[t := k]) + Holds(ts[t]) == AllHold(ts) + Holds(k)
    ensures Holds(ts[t]) <= AllHold(ts)
  {
    hide Holds;
    var n := |ts| - 1;
    var us := ts[t := k];
    if t == n {
      assert us[..n] == ts[..n];
    } else {
      assert us[..n] == ts[..n][t := k];
      AllHoldUpdate(ts[..n], t, k);
      var a, b := AllHold(us[..n]) + Holds(us[n]) + Holds(ts[t]), AllHold(ts[..n]) + Holds(ts[n]) + Holds(k);
      assert a == AllHold(us[..n]) + Holds(ts[t]) + Holds(ts[n]);
      assert b == AllHold(ts[..n]) + Holds(k) + Holds(ts[n]);
    }
  }

  /** The flow in which thread `t` moved on and the pool got `back`; memory and records aside. */
  ghost predicate Moved(f: Flow, g: Flow, t: nat, k: Task, taken: multiset<View>, back: multiset<View>) {
    && t < |f.tasks| && g.tasks == f.tasks[t := k] && g.pool + taken == f.pool + back
    && g.buf == f.buf && g.bind == f.bind
  }

  lemma MovedOwned(f: Flow, g: Flow, t: nat, k: Task, taken: multiset<View>, back: multiset<View>)
    requires Moved(f, g, t, k, taken, back)
    ensures Owned(g) + Holds(f.tasks[t]) + taken == Owned(f) + Holds(k) + back
    ensures Holds(f.tasks[t]) <= Owned(f)
  {
    hide A.HeldValues, AllHold, Holds;
    AllHoldUpdate(f.tasks, t, k);
    var left, right := Owned(g) + Holds(f.tasks[t]) + taken, Owned(f) + Holds(k) + back;
    forall v
      ensures left[v] == right[v]
    {
      assert (AllHold(g.tasks) + Holds(f.tasks[t]))[v] == (AllHold(f.tasks) + Holds(k))[v];
      assert (g.pool + taken)[v] == (f.pool + back)[v];
    }
    assert left == right;
  }

  // A thread exchanges view `u` for view `v` of the same slab, wherever `v` then is.
  lemma TradeSound(f: Flow, g: Flow, u: View, v: View, mem: Memory)
    requires Sound(Owned(f), f.live, mem) && u in Owned(f) && u.slab == v.slab && Good(mem, v)
    requires Owned(g) + multiset{u} == Owned(f) + multiset{v} && g.live == f.live
    ensures Sound(Owned(g), g.live, mem)
  {
    hide Owned, Sound;
    var own, after := Owned(f), Owned(g);
    forall r
      ensures after[r] == (own - multiset{u} + multiset{v})[r]
    {
      assert (after + multiset{u})[r] == (own + multiset{v})[r];
    }
    assert after == own - multiset{u} + multiset{v};
    SwapSound(own, after, u, v, f.live, mem);
  }

  lemma Cancel(a: multiset<View>, x: multiset<View>, y: multiset<View>)
    requires x + a == y + a
    ensures x == y
  {
    forall k
      ensures x[k] == y[k]
    {
      assert (x + a)[k] == (y + a)[k];
    }
  }

  lemma BareGood(mem: Memory, v: View)
    requires Good(mem, v)
    ensures Good(mem, Bare(v.slab))
  {
  }

  lemma OwnedGood(f: Flow, v: View)
    requires Sound(Owned(f), f.live, f.mem) && v in Owned(f)
    ensures Good(f.mem, v) && v.slab in f.live
  {
    hide Owned, Good;
  }

  // ----- The pool -----

  lemma GetSound(f: Flow, x: Address, t: nat, k: Task)
    requires Sound(Owned(f), f.live, f.mem) && CanGet(f, x) && t < |f.tasks|
    requires Holds(k) == Holds(f.tasks[t]) + multiset{Bare(x)}
    ensures var g := Become(Get(f, x), t, k); Sound(Owned(g), g.live, g.mem)
  {
    hide Sound, Holds, Good, A.HeldValues, AllHold;
    var g := Become(Get(f, x), t, k);
    if Bare(x) in f.pool {
      MovedOwned(f, g, t, k, multiset{Bare(x)}, multiset{});
      Regroup(Owned(g), Owned(f), Holds(f.tasks[t]), multiset{Bare(x)}, multiset{Bare(x)});
      Cancel(multiset{Bare(x)}, Owned(g), Owned(f));
    } else {
      MovedOwned(f, g, t, k, multiset{}, multiset{});
      Regroup(Owned(g), Owned(f), Holds(f.tasks[t]), multiset{}, multiset{Bare(x)});
      assert Owned(g) + multiset{} == Owned(g);
      FreshSlab(f, x);
      GrowSound(Owned(f), x, f.live, f.mem);
    }
  }

  lemma FreshSlab(f: Flow, x: Address)
    requires Sound(Owned(f), f.live, f.mem) && x !in f.mem
    ensures x !in f.live
  {
    hide Owned;
  }

  lemma Regroup(g: multiset<View>, f: multiset<View>, h: multiset<View>, taken: multiset<View>, x: multiset<View>)
    requires g + h + taken == f + (h + x) + multiset{}
    ensures g + taken == f + x
  {
    forall v
      ensures (g + taken)[v] == (f + x)[v]
    {
      assert (g + h + taken)[v] == (f + (h + x) + multiset{})[v];
    }
    assert g + taken == f + x;
  }

  // A thread returns the slab of the one view it holds.
  lemma PutSound(f: Flow, t: nat, v: View, k: Task, rest: multiset<View>)
    requires Sound(Owned(f), f.live, f.mem) && t < |f.tasks|
    requires Holds(f.tasks[t]) == rest + multiset{v} && Holds(k) == rest
    ensures var g := Put(Become(f, t, k), v.slab); Sound(Owned(g), g.live, g.mem)
  {
    hide Sound, Holds, Good, A.HeldValues, AllHold;
    var g := Put(Become(f, t, k), v.slab);
    MovedOwned(f, g, t, k, multiset{}, multiset{Bare(v.slab)});
    Exchange(Owned(g), Owned(f), rest, multiset{v}, multiset{Bare(v.slab)});
    assert v in Holds(f.tasks[t]) && v in Owned(f);
    OwnedGood(f, v);
    BareGood(f.mem, v);
    TradeSound(f, g, v, Bare(v.slab), f.mem);
  }

  lemma Exchange(g: multiset<View>, f: multiset<View>, rest: multiset<View>, u: multiset<View>, v: multiset<View>)
    requires g + (rest + u) + multiset{} == f + rest + v
    ensures g + u == f + v
  {
    forall r
      ensures (g + u)[r] == (f + v)[r]
    {
      assert (g + (rest + u) + multiset{})[r] == (f + rest + v)[r];
    }
    assert g + u == f + v;
  }

  // A thread looks at its slab in another way, or keeps its view.
  lemma RetitleSound(f: Flow, g: Flow, t: nat, u: View, v: View, k: Task, rest: multiset<View>)
    requires Sound(Owned(f), f.live, g.mem) && t < |f.tasks| && g.live == f.live
    requires Moved(f, g, t, k, multiset{}, multiset{})
    requires Holds(f.tasks[t]) == rest + multiset{u} && Holds(k) == rest + multiset{v}
    requires u.slab == v.slab && Good(g.mem, v)
    ensures Sound(Owned(g), g.live, g.mem)
  {
    hide Sound, Holds, Good, A.HeldValues, AllHold;
    MovedOwned(f, g, t, k, multiset{}, multiset{});
    assert Owned(g) + (rest + multiset{u}) + multiset{} == Owned(f) + rest + multiset{v};
    Exchange(Owned(g), Owned(f), rest, multiset{u}, multiset{v});
    assert u in Holds(f.tasks[t]) && u in Owned(f);
    TradeSound(f, g, u, v, g.mem);
  }

  // ----- The buffer only appends to its log -----

  lemma {:induction false} DrainLog(q: Q.Queue<View>)
    ensures q.log <= Q.Drain(q).log
    decreases |q.held|
  {
    if q.next in q.held {
      Q.Shrinks(q.held, q.next);
      DrainLog(Q.Release(q, q.next).(next := q.next + 1));
    }
  }

  lemma {:induction false} FlushLog(q: Q.Queue<View>)
    ensures q.log <= Q.Flush(q).log
    decreases |q.held|
  {
    if q.held != map[] {
      Q.Shrinks(q.held, Q.First(q.held));
      FlushLog(Q.Release(q, Q.First(q.held)));
    }
  }

  lemma {:induction false} ExpireLog(q: Q.Queue<View>, now: int)
    ensures q.log <= Q.Expire(q, now).log
    decreases |q.held|
  {
    if q.held != map[] && now - q.held[Q.First(q.held)].arrival >= q.hold {
      var s := q.(stats := q.stats.(timedOut := q.stats.timedOut + 1), next := Q.First(q.held));
      DrainLog(s);
      Q.DrainShrinks(s);
      ExpireLog(Q.SkipGap(q), now);
    }
  }

  lemma PushLog(q: Q.Queue<View>, w: U32, x: View, now: int)
    ensures q.log <= Q.Push(q, w, x, now).log
  {
    hide Q.Drain, Q.Flush, Q.Position;
    var s := Q.Start(q, w);
    var p := Q.Position(s.next, w);
    var f := s.(farLate := s.farLate + 1);
    FlushLog(f);
    DrainLog(Q.Insert(Q.Reset(f, p), p, x, now));
    FlushLog(s.(stats := s.stats.(overflows := s.stats.overflows + 1)));
    var r := (if s.next + Q.SIZE <= p then Q.Jump(s, p) else s).(farLate := 0);
    DrainLog(Q.Insert(r, p, x, now));
  }

  // ----- The buffer and its callbacks -----

  lemma {:induction false} LogValuesSplit(a: seq<Q.Event<View>>, b: seq<Q.Event<View>>)
    ensures A.LogValues(a + b) == A.LogValues(a) + A.LogValues(b)
  {
    if b == [] {
      assert a + b == a;
    } else {
      var n := |b| - 1;
      assert (a + b)[..|a + b| - 1] == a + b[..n];
      LogValuesSplit(a, b[..n]);
    }
  }

  // A view in flight goes to the queue or its slab to the pool.
  lemma DeliverSound(f: Flow, v: View, rest: multiset<View>, dropped: bool)
    requires Sound(Owned(f) + multiset{v} + rest, f.live, f.mem)
    ensures var g := if dropped then Put(f, v.slab) else Deliver(f, v);
            && Sound(Owned(g) + rest, f.live, f.mem) && g == f.(pool := g.pool, bind := g.bind)
            && g.bind.retired == f.bind.retired
  {
    hide Sound, Good, A.HeldValues, AllHold;
    var g := if dropped then Put(f, v.slab) else Deliver(f, v);
    var own := Owned(f) + multiset{v} + rest;
    if !dropped && Accepting(f.bind) {
      assert multiset(f.bind.queue + [v]) == multiset(f.bind.queue) + multiset{v};
      assert Owned(g) + rest == own;
    } else {
      FlightGood(own, v, f.live, f.mem);
      BareGood(f.mem, v);
      assert Owned(g) == Owned(f) + multiset{Bare(v.slab)};
      assert Owned(g) + rest == own - multiset{v} + multiset{Bare(v.slab)};
      SwapSound(own, Owned(g) + rest, v, Bare(v.slab), f.live, f.mem);
    }
  }

  lemma FlightGood(own: multiset<View>, v: View, live: set<Address>, mem: Memory)
    requires Sound(own, live, mem) && v in own
    ensures Good(mem, v)
  {
    hide Good;
  }

  lemma {:induction false} DispatchSound(f: Flow, es: seq<Q.Event<View>>)
    requires Sound(Owned(f) + A.LogValues(es), f.live, f.mem)
    ensures var g := Dispatch(f, es);
            Sound(Owned(g), f.live, f.mem) && g == f.(pool := g.pool, bind := g.bind)
    decreases |es|
  {
    hide Sound, Owned, A.LogValues, Deliver, Put;
    if es == [] {
      NoValues();
      assert Owned(f) + multiset{} == Owned(f);
    } else {
      var rest := es[1..];
      assert [es[0]] + rest == es;
      LogValuesSplit([es[0]], rest);
      OneValue(es[0]);
      assert Owned(f) + multiset{es[0].val} + A.LogValues(rest) == Owned(f) + A.LogValues(es);
      DeliverSound(f, es[0].val, A.LogValues(rest), es[0].Dropped?);
      DispatchSound(if es[0].Dropped? then Put(f, es[0].val.slab) else Deliver(f, es[0].val), rest);
    }
  }

  lemma NoValues()
    ensures A.LogValues<View>([]) == multiset{}
  {
  }

  lemma OneValue(e: Q.Event<View>)
    ensures A.LogValues([e]) == multiset{e.val}
  {
    A.LogAppend([], e);
    assert [] + [e] == [e];
  }

  // The buffer takes over the views in `extra` and puts out some views: all of them find a holder.
  lemma CallbacksSound(f: Flow, q: Q.Queue<View>, extra: multiset<View>)
    requires f.buf.log <= q.log && A.Total(q.log, q.held) == A.Total(f.buf.log, f.buf.held) + extra
    requires Sound(Owned(f) + extra, f.live, f.mem)
    ensures var g := Callbacks(f, q);
            Sound(Owned(g), f.live, f.mem) && g == f.(buf := q, pool := g.pool, bind := g.bind)
  {
    hide Sound, A.LogValues, A.HeldValues, Dispatch, AllHold;
    var es := q.log[|f.buf.log|..];
    Outgoing(f.buf, q, extra);
    var g := f.(buf := q);
    InFlight(f, g, A.HeldValues(f.buf.held), A.HeldValues(q.held), A.LogValues(es), extra);
    DispatchSound(g, es);
  }

  // What leaves the buffer and what waits in it are what waited and what came.
  lemma Outgoing(p: Q.Queue<View>, q: Q.Queue<View>, extra: multiset<View>)
    requires p.log <= q.log && A.Total(q.log, q.held) == A.Total(p.log, p.held) + extra
    ensures A.LogValues(q.log[|p.log|..]) + A.HeldValues(q.held) == A.HeldValues(p.held) + extra
  {
    hide A.LogValues, A.HeldValues;
    var es := q.log[|p.log|..];
    assert q.log == p.log + es;
    LogValuesSplit(p.log, es);
    var a, h, h2, e := A.LogValues(p.log), A.HeldValues(p.held), A.HeldValues(q.held), A.LogValues(es);
    assert e + h2 + a == a + e + h2;
    assert h + extra + a == a + h + extra;
    Cancel(a, e + h2, h + extra);
  }

  lemma InFlight(f: Flow, g: Flow, h: multiset<View>, h2: multiset<View>, e: multiset<View>, extra: multiset<View>)
    requires g == f.(buf := g.buf) && h == A.HeldValues(f.buf.held) && h2 == A.HeldValues(g.buf.held)
    requires e + h2 == h + extra
    ensures Owned(g) + e == Owned(f) + extra
  {
    hide A.HeldValues, AllHold;
    forall v
      ensures (Owned(g) + e)[v] == (Owned(f) + extra)[v]
    {
      assert (e + h2)[v] == (h + extra)[v];
    }
    assert Owned(g) + e == Owned(f) + extra;
  }

  // A thread pushes the view it holds.
  lemma PushSound(f: Flow, t: nat, k: Task, w: U32, v: View, now: int, rest: multiset<View>)
    requires Sound(Owned(f), f.live, f.mem) && t < |f.tasks|
    requires Holds(f.tasks[t]) == rest + multiset{v} && Holds(k) == rest
    ensures var g := Push(Become(f, t, k), w, v, now);
            && Sound(Owned(g), f.live, f.mem)
            && g == f.(tasks := f.tasks[t := k], buf := g.buf, pool := g.pool, bind := g.bind)
  {
    hide Sound, Holds, Callbacks, Q.Push, A.Total, A.HeldValues, AllHold;
    var h := Become(f, t, k);
    MovedOwned(f, h, t, k, multiset{}, multiset{});
    assert Owned(h) + (rest + multiset{v}) + multiset{} == Owned(f) + rest + multiset{};
    Exchange(Owned(h), Owned(f), rest, multiset{v}, multiset{});
    assert Owned(f) + multiset{} == Owned(f);
    PushLog(h.buf, w, v, now);
    A.PushTotal(h.buf, w, v, now);
    CallbacksSound(h, Q.Push(h.buf, w, v, now), multiset{v});
  }

  lemma DeliverTaskSound(f: Flow, t: nat, u: View, v: View)
    requires Sound(Owned(f), f.live, f.mem) && t < |f.tasks| && Holds(f.tasks[t]) == multiset{u}
    requires u.slab == v.slab && Good(f.mem, v)
    ensures var g := Deliver(Become(f, t, Idle), v); Sound(Owned(g), g.live, g.mem)
  {
    hide Sound, Good, A.HeldValues, AllHold;
    var h := Become(f, t, Idle);
    MovedOwned(f, h, t, Idle, multiset{}, multiset{});
    assert u in Holds(f.tasks[t]) && u in Owned(f);
    var own := Owned(h) + multiset{v} + multiset{};
    forall r
      ensures own[r] == (Owned(f) - multiset{u} + multiset{v})[r]
    {
      assert (Owned(h) + multiset{u} + multiset{})[r] == (Owned(f) + multiset{} + multiset{})[r];
    }
    assert own == Owned(f) - multiset{u} + multiset{v};
    SwapSound(Owned(f), own, u, v, f.live, f.mem);
    DeliverSound(h, v, multiset{}, false);
    assert Owned(Deliver(h, v)) + multiset{} == Owned(Deliver(h, v));
  }

  lemma TakeSound(f: Flow, g: Flow, t: nat, v: View)
    requires Sound(Owned(f), f.live, f.mem) && t < |f.tasks| && f.tasks[t] == Idle
    requires g == f.(tasks := f.tasks[t := Copying(v)], bind := g.bind)
    requires multiset(f.bind.queue) + multiset(f.bind.retired)
             == multiset(g.bind.queue) + multiset(g.bind.retired) + multiset{v}
    ensures Sound(Owned(g), g.live, g.mem)
  {
    hide Sound, A.HeldValues, AllHold;
    AllHoldUpdate(f.tasks, t, Copying(v));
    forall r
      ensures Owned(g)[r] == Owned(f)[r]
    {
      assert (AllHold(g.tasks) + multiset{})[r] == (AllHold(f.tasks) + multiset{v})[r];
      assert (multiset(f.bind.queue) + multiset(f.bind.retired))[r]
             == (multiset(g.bind.queue) + multiset(g.bind.retired) + multiset{v})[r];
    }
    assert Owned(g) == Owned(f);
  }

  // ----- One step -----

  // The view a thread holds is good.
  lemma TaskGood(f: Flow, t: nat, v: View)
    requires Sound(Owned(f), f.live, f.mem) && t < |f.tasks| && v in Holds(f.tasks[t])
    ensures v in Owned(f) && Good(f.mem, v) && v.slab in f.live
  {
    hide Sound, Good, Holds, A.HeldValues, AllHold;
    AllHoldUpdate(f.tasks, t, f.tasks[t]);
    OwnedGood(f, v);
  }

  // Part of a datagram is a good view of its slab.
  lemma PartGood(mem: Memory, d: View, off: nat, part: Bytes)
    requires Good(mem, d) && off + |part| <= d.len && part == d.ct[off..off + |part|]
    ensures Good(mem, View(d.slab, d.off + off, |part|, part))
  {
    assert mem[d.slab][d.off + off..d.off + off + |part|] == d.ct[off..off + |part|];
  }

  lemma HandleDataSound(cfg: Config, f: Flow, t: nat, d: View, h: Wire.DataHeader, payload: Bytes)
    requires Sound(Owned(f), f.live, f.mem) && t < |f.tasks| && f.tasks[t] == Handling(d)
    requires Good(f.mem, View(d.slab, d.off + Wire.DataLen(h.header.flags), |payload|, payload))
    ensures var g := HandleData(cfg, f, t, d, h, payload); Sound(Owned(g), g.live, g.mem)
  {
    hide Sound, Good, Owned, Deliver, Put, Wire.DataLen, Wire.Class, Wire.HasFecInfo;
    if h.session != cfg.session {
      PutSound(f, t, d, Idle, multiset{});
    } else {
      var v := View(d.slab, d.off + Wire.DataLen(h.header.flags), |payload|, payload);
      var g := f.(taken := f.taken + {payload});
      RecordsAside(f, g);
      if Wire.Class(h.header.flags) != Wire.CLASS_BULK {
        DeliverTaskSound(g, t, d, v);
      } else {
        KeepTitle(g, t, d, v, Registering(v, DataFields(h.fecGroup, h.fecIndex, h.globalSeq), PushAs(h.globalSeq)));
        KeepTitle(g, t, d, v, Rebuilding(v, [], PushAs(h.globalSeq)));
      }
    }
  }

  lemma HandleFecSound(cfg: Config, f: Flow, t: nat, d: View, h: Wire.FecHeader, shard: Bytes)
    requires Sound(Owned(f), f.live, f.mem) && t < |f.tasks| && f.tasks[t] == Handling(d)
    requires Good(f.mem, View(d.slab, d.off + Wire.FEC_HEADER_SIZE, |shard|, shard))
    ensures var g := HandleFec(cfg, f, t, d, h, shard); Sound(Owned(g), g.live, g.mem)
  {
    hide Sound, Good, Owned, Put;
    if h.session != cfg.session || !cfg.fec {
      PutSound(f, t, d, Idle, multiset{});
    } else {
      var v := View(d.slab, d.off + Wire.FEC_HEADER_SIZE, |shard|, shard);
      KeepTitle(f, t, d, v, Registering(v, ParityFields(h.group, h.index, h.k, h.m), PutBack));
    }
  }

  lemma HandleSound(cfg: Config, f: Flow, t: nat, d: View)
    requires Sound(Owned(f), f.live, f.mem) && t < |f.tasks| && f.tasks[t] == Handling(d)
    ensures var g := Handle(cfg, f, t, d); Sound(Owned(g), g.live, g.mem)
  {
    hide Sound, Good, Owned, Content, HandleData, HandleFec, Wire.ParseData, Wire.ParseFec, Wire.ParseHeader, Put;
    TaskGood(f, t, d);
    var b := Content(f.mem, d);
    GoodContent(f.mem, d);
    var data, fec := Wire.ParseData(b), Wire.ParseFec(b);
    PutSound(f, t, d, Idle, multiset{});
    if data.Ok? {
      DataPart(b);
      PartGood(f.mem, d, Wire.DataLen(data.value.0.header.flags), data.value.1);
      HandleDataSound(cfg, f, t, d, data.value.0, data.value.1);
    }
    if fec.Ok? {
      FecPart(b);
      PartGood(f.mem, d, Wire.FEC_HEADER_SIZE, fec.value.1);
      HandleFecSound(cfg, f, t, d, fec.value.0, fec.value.1);
    }
  }

  lemma GoodContent(mem: Memory, d: View)
    requires Good(mem, d)
    ensures Content(mem, d) == d.ct && |d.ct| == d.len
  {
  }

  lemma DataPart(b: Bytes)
    requires Wire.ParseData(b).Ok?
    ensures var (h, payload) := Wire.ParseData(b).value;
            var off := Wire.DataLen(h.header.flags);
            off + |payload| == |b| && payload == b[off..off + |payload|]
  {
  }

  lemma FecPart(b: Bytes)
    requires Wire.ParseFec(b).Ok?
    ensures var shard := Wire.ParseFec(b).value.1;
            Wire.FEC_HEADER_SIZE + |shard| == |b| && shard == b[Wire.FEC_HEADER_SIZE..Wire.FEC_HEADER_SIZE + |shard|]
  {
  }

  lemma RecordsAside(f: Flow, g: Flow)
    requires g == f.(taken := g.taken)
    ensures Owned(g) == Owned(f)
  {
  }

  lemma KeepTitle(f: Flow, t: nat, u: View, v: View, k: Task)
    requires Sound(Owned(f), f.live, f.mem) && t < |f.tasks| && Holds(f.tasks[t]) == multiset{u}
    requires Holds(k) == multiset{v} && u.slab == v.slab && Good(f.mem, v)
    ensures Sound(Owned(Become(f, t, k)), f.live, f.mem)
  {
    hide Sound, Good, Owned, Holds;
    assert multiset{} + multiset{u} == multiset{u} && multiset{} + multiset{v} == multiset{v};
    RetitleSound(f, Become(f, t, k), t, u, v, k, multiset{});
  }

  // A thread fills the slab it got: `s` is written, and `b` is its beginning.
  lemma FillSound(f: Flow, g: Flow, t: nat, x: Address, b: Bytes, k: Task, rest: multiset<View>)
    requires Sound(Owned(f), f.live, f.mem) && t < |f.tasks| && g.live == f.live && g.mem == Write(f.mem, x, b)
    requires |b| <= SLAB_SIZE && Moved(f, g, t, k, multiset{}, multiset{})
    requires Holds(f.tasks[t]) == rest + multiset{Bare(x)} && Holds(k) == rest + multiset{View(x, 0, |b|, b)}
    ensures Sound(Owned(g), g.live, g.mem)
  {
    hide Sound, Good, Owned, Holds, Write, Moved;
    TaskGood(f, t, Bare(x));
    WriteSound(Owned(f), x, b, f.live, f.mem);
    WriteGood(f.mem, x, b);
    RetitleSound(f, g, t, Bare(x), View(x, 0, |b|, b), k, rest);
  }

  // The datagram does not fit: the header was written and the slab goes back.
  lemma TooLongSound(f: Flow, t: nat, y: Address, header: Bytes)
    requires Sound(Owned(f), f.live, f.mem) && t < |f.tasks| && Holds(f.tasks[t]) == multiset{Bare(y)}
    ensures var g := Put(Become(f.(mem := Write(f.mem, y, header)), t, Idle), y); Sound(Owned(g), g.live, g.mem)
  {
    hide Sound, Good, Write, A.HeldValues, AllHold;
    TaskGood(f, t, Bare(y));
    WriteSound(Owned(f), y, header, f.live, f.mem);
    var h := f.(mem := Write(f.mem, y, header));
    assert Owned(h) == Owned(f);
    PutSound(h, t, Bare(y), Idle, multiset{});
  }

  lemma RegisterSound(c: Codec, f: Flow, t: nat, op: F.DecOp, v: View, ending: Ending, a: Address)
    requires Sound(Owned(f), f.live, f.mem) && t < |f.tasks| && Holds(f.tasks[t]) == multiset{v} && a !in f.mem
    ensures var g := Register(c, f, t, op, v, ending, a); Sound(Owned(g), g.live, g.mem)
  {
    hide Sound, Good, Owned, F.Step, F.Found, StoredShard;
    var g := Register(c, f, t, op, v, ending, a);
    ElsewhereSound(Owned(f), f.live, f.mem, g.mem, a);
    TaskGood(f, t, v);
    FlightGood(Owned(f), v, f.live, g.mem);
    RetitleSound(f, g, t, v, v, g.tasks[t], multiset{});
  }

  // New memory changes no slab.
  lemma ElsewhereSound(own: multiset<View>, live: set<Address>, mem: Memory, after: Memory, a: Address)
    requires Sound(own, live, mem) && a !in mem && (after == mem || (a in after && after == mem[a := after[a]]))
    ensures Sound(own, live, after)
  {
    forall v | v in own
      ensures Good(after, v)
    {
      assert Good(mem, v);
    }
  }

  lemma SameViewSound(f: Flow, g: Flow, t: nat, v: View, k: Task)
    requires Sound(Owned(f), f.live, f.mem) && t < |f.tasks| && Holds(f.tasks[t]) == multiset{v} == Holds(k)
    requires Moved(f, g, t, k, multiset{}, multiset{}) && g.live == f.live && g.mem == f.mem
    ensures Sound(Owned(g), g.live, g.mem)
  {
    hide Sound, Good, Owned, Holds, Moved;
    TaskGood(f, t, v) by {
      assert v in multiset{v};
    }
    RetitleSound(f, g, t, v, v, k, multiset{});
  }

  lemma ListenSound(f: Flow, t: nat, x: Address)
    requires Sound(Owned(f), f.live, f.mem)
    ensures var g := StartListening(f, t, x); Sound(Owned(g), g.live, g.mem)
  {
    hide Sound, Owned, Get, CanGet;
    if Runs(f, t) && f.tasks[t].Idle? && CanGet(f, x) {
      GetSound(f, x, t, Listening(x));
    }
  }

  lemma ArrivalSound(f: Flow, t: nat, dgram: Bytes)
    requires Sound(Owned(f), f.live, f.mem)
    ensures var g := Arrival(f, t, dgram); Sound(Owned(g), g.live, g.mem)
  {
    hide Sound, Owned, Write;
    if Runs(f, t) && f.tasks[t].Listening? {
      var g := Arrival(f, t, dgram);
      FillSound(f, g, t, f.tasks[t].x, Prefix(dgram), g.tasks[t], multiset{});
    }
  }

  lemma FailureSound(f: Flow, t: nat)
    requires Sound(Owned(f), f.live, f.mem)
    ensures var g := ReadFailure(f, t); Sound(Owned(g), g.live, g.mem)
  {
    hide Sound, Owned, Put;
    if Runs(f, t) && f.tasks[t].Listening? {
      PutSound(f, t, Bare(f.tasks[t].x), Idle, multiset{});
    }
  }

  lemma RegistrySound(c: Codec, f: Flow, t: nat, now: int, victim: Option<int>, a: Address)
    requires Sound(Owned(f), f.live, f.mem)
    ensures var g := Registry(c, f, t, now, victim, a); Sound(Owned(g), g.live, g.mem)
  {
    hide Sound, Owned, Register, Registration;
    if Runs(f, t) && f.tasks[t].Registering? && a !in f.mem {
      var k := f.tasks[t];
      RegisterSound(c, f, t, Registration(f.mem, k.v, k.fields, now, victim), k.v, k.ending, a);
    }
  }

  lemma CallbackGetSound(f: Flow, t: nat, y: Address)
    requires Sound(Owned(f), f.live, f.mem)
    ensures var g := CallbackGet(f, t, y); Sound(Owned(g), g.live, g.mem)
  {
    hide Sound, Owned, Get, CanGet;
    if Runs(f, t) && f.tasks[t].Rebuilding? && CanGet(f, y) {
      var k := f.tasks[t];
      GetSound(f, y, t, Filling(k.v, y, k.rest, k.ending));
    }
  }

  lemma CallbackCopySound(f: Flow, t: nat)
    requires Sound(Owned(f), f.live, f.mem)
    ensures var g := CallbackCopy(f, t); Sound(Owned(g), g.live, g.mem)
  {
    hide Sound, Owned, Write;
    if Runs(f, t) && f.tasks[t].Filling? && f.tasks[t].rest != [] {
      var k, g := f.tasks[t], CallbackCopy(f, t);
      FillSound(f, g, t, k.y, Prefix(k.rest[0].ct), g.tasks[t], multiset{k.v});
    }
  }

  lemma CallbackPushSound(f: Flow, t: nat, now: int)
    requires Sound(Owned(f), f.live, f.mem)
    ensures var g := CallbackPush(f, t, now); Sound(Owned(g), g.live, g.mem)
  {
    hide Sound, Owned, Push;
    if Runs(f, t) && f.tasks[t].Filled? {
      var k := f.tasks[t];
      PushSound(f, t, Rebuilding(k.v, k.rest, k.ending), k.w, k.u, now, multiset{k.v});
    }
  }

  lemma FinishedSound(f: Flow, t: nat, now: int)
    requires Sound(Owned(f), f.live, f.mem)
    ensures var g := Finished(f, t, now); Sound(Owned(g), g.live, g.mem)
  {
    hide Sound, Owned, Push, Put;
    if Runs(f, t) && f.tasks[t].Rebuilding? {
      var k := f.tasks[t];
      if k.ending.PushAs? {
        PushSound(f, t, Idle, k.ending.w, k.v, now, multiset{});
      } else {
        PutSound(f, t, k.v, Idle, multiset{});
      }
    }
  }

  lemma FrameGetSound(f: Flow, t: nat, y: Address, header: Bytes, body: Bytes)
    requires Sound(Owned(f), f.live, f.mem)
    ensures var g := FrameGet(f, t, y, header, body); Sound(Owned(g), g.live, g.mem)
  {
    hide Sound, Owned, Get;
    if Runs(f, t) && f.tasks[t].Idle? && CanGet(f, y) {
      var h := f.(framed := f.framed + {header + body});
      FramedAside(f, h.framed);
      GetSound(h, y, t, Framing(y, header, body));
    }
  }

  lemma FrameWriteSound(f: Flow, t: nat)
    requires Sound(Owned(f), f.live, f.mem)
    ensures var g := FrameWrite(f, t); Sound(Owned(g), g.live, g.mem)
  {
    hide Sound, Owned, Write, Put;
    if Runs(f, t) && f.tasks[t].Framing? {
      var k, g := f.tasks[t], FrameWrite(f, t);
      if |k.header| + |k.body| > SLAB_SIZE {
        TooLongSound(f, t, k.y, k.header);
      } else {
        FillSound(f, g, t, k.y, k.header + k.body, g.tasks[t], multiset{});
      }
    }
  }

  lemma TransmissionSound(f: Flow, t: nat)
    requires Sound(Owned(f), f.live, f.mem)
    ensures var g := Transmission(f, t); Sound(Owned(g), g.live, g.mem)
  {
    hide Sound, Owned, Content;
    if Runs(f, t) && f.tasks[t].Sending? {
      var g := Transmission(f, t);
      SameViewSound(f, g, t, f.tasks[t].u, g.tasks[t]);
    }
  }

  lemma TakeFirstSound(f: Flow, t: nat)
    requires Sound(Owned(f), f.live, f.mem)
    ensures var g := TakeFirst(f, t); Sound(Owned(g), g.live, g.mem)
  {
    hide Sound, Owned;
    var q := f.bind.queue;
    if Runs(f, t) && f.tasks[t].Idle? && q != [] {
      assert q == [q[0]] + q[1..];
      assert multiset(q) == multiset(q[1..]) + multiset{q[0]};
      TakeSound(f, TakeFirst(f, t), t, q[0]);
    }
  }

  lemma TakeOldSound(f: Flow, t: nat, i: nat)
    requires Sound(Owned(f), f.live, f.mem)
    ensures var g := TakeOld(f, t, i); Sound(Owned(g), g.live, g.mem)
  {
    hide Sound, Owned;
    var r := f.bind.retired;
    if Runs(f, t) && f.tasks[t].Idle? && i < |r| {
      TakeOut(r, i);
      TakeSound(f, TakeOld(f, t, i), t, r[i]);
    }
  }

  lemma HandUpSound(f: Flow, t: nat)
    requires Sound(Owned(f), f.live, f.mem)
    ensures var g := HandUp(f, t); Sound(Owned(g), g.live, g.mem)
  {
    hide Sound, Owned, Content;
    if Runs(f, t) && f.tasks[t].Copying? {
      var g := HandUp(f, t);
      SameViewSound(f, g, t, f.tasks[t].v, g.tasks[t]);
    }
  }

  lemma ReleasedSound(f: Flow, t: nat)
    requires Sound(Owned(f), f.live, f.mem)
    ensures var g := Released(f, t); Sound(Owned(g), g.live, g.mem)
  {
    hide Sound, Owned, Put;
    if Runs(f, t) && f.tasks[t].Releasing? {
      PutSound(f, t, f.tasks[t].v, Idle, multiset{});
    }
  }

  lemma TakeOut(r: seq<View>, i: nat)
    requires i < |r|
    ensures multiset(r) == multiset(r[..i] + r[i + 1..]) + multiset{r[i]}
  {
    assert r == r[..i] + [r[i]] + r[i + 1..];
  }

  lemma FramedAside(f: Flow, framed: set<Bytes>)
    ensures Owned(f.(framed := framed)) == Owned(f)
  {
  }

  lemma QuietSound(f: Flow, q: Q.Op<View>)
    requires Sound(Owned(f), f.live, f.mem) && !q.PushOp?
    ensures var g := Callbacks(f, Q.Step(f.buf, q));
            Sound(Owned(g), f.live, f.mem) && g == f.(buf := g.buf, pool := g.pool, bind := g.bind)
  {
    hide Sound, Q.Expire, Callbacks, A.Total, Owned;
    match q {
      case TickOp(now) =>
        ExpireLog(f.buf, now);
        A.ExpireTotal(f.buf, now);
      case TimerOp(now) =>
        ExpireLog(f.buf.(armed := false), now);
        A.ExpireTotal(f.buf.(armed := false), now);
      case HoldOp(d) =>
    }
    var b := Q.Step(f.buf, q);
    assert A.Total(b.log, b.held) == A.Total(f.buf.log, f.buf.held) + multiset{};
    assert Owned(f) + multiset{} == Owned(f);
    CallbacksSound(f, b, multiset{});
  }

  lemma CloseSound(f: Flow)
    requires Sound(Owned(f), f.live, f.mem)
    ensures var g := Callbacks(f, Q.Close(f.buf));
            Sound(Owned(g), f.live, f.mem) && g == f.(buf := g.buf, pool := g.pool, bind := g.bind)
  {
    hide Sound, Q.Flush, Callbacks, A.Total, Owned;
    FlushLog(f.buf.(armed := false));
    A.FlushTotal(f.buf.(armed := false));
    var b := Q.Close(f.buf);
    assert A.Total(b.log, b.held) == A.Total(f.buf.log, f.buf.held) + multiset{};
    assert Owned(f) + multiset{} == Owned(f);
    CallbacksSound(f, b, multiset{});
  }

  lemma BindSound(f: Flow)
    requires Sound(Owned(f), f.live, f.mem)
    ensures Sound(Owned(f.(bind := Reopen(f.bind))), f.live, f.mem)
    ensures Sound(Owned(f.(bind := f.bind.(closed := f.bind.hasChannel || f.bind.closed))), f.live, f.mem)
  {
    hide Sound, A.HeldValues, AllHold;
    var q, r := f.bind.queue, f.bind.retired;
    assert multiset(r + q) == multiset(q) + multiset(r);
    assert Owned(f.(bind := Reopen(f.bind))) == Owned(f);
    assert Owned(f.(bind := f.bind.(closed := f.bind.hasChannel || f.bind.closed))) == Owned(f);
  }

  lemma ForgetSound(f: Flow, x: Address)
    requires Sound(Owned(f), f.live, f.mem) && Bare(x) in f.pool
    ensures Sound(Owned(f.(pool := f.pool - multiset{Bare(x)}, live := f.live - {x})), f.live - {x}, f.mem)
  {
    hide Sound, A.HeldValues, AllHold;
    var g := f.(pool := f.pool - multiset{Bare(x)}, live := f.live - {x});
    assert Owned(g) == Owned(f) - multiset{Bare(x)};
    ShrinkSound(Owned(f), Bare(x), f.live, f.mem);
  }

  lemma StepSound(c: Codec, cfg: Config, f: Flow, op: Op)
    requires Sound(Owned(f), f.live, f.mem)
    ensures var g := Step(c, cfg, f, op); Sound(Owned(g), g.live, g.mem)
  {
    hide Sound, Owned, Callbacks, Q.Step, Q.Close, Reopen, Handle;
    hide StartListening, Arrival, ReadFailure, Registry, CallbackGet, CallbackCopy, CallbackPush, Finished;
    hide FrameGet, FrameWrite, Transmission, TakeFirst, TakeOld, HandUp, Released;
    match op
    case Listen(t, x) => ListenSound(f, t, x);
    case Arrive(t, dgram) => ArrivalSound(f, t, dgram);
    case ReadFails(t) => FailureSound(f, t);
    case HandleOp(t) => if Runs(f, t) && f.tasks[t].Handling? { HandleSound(cfg, f, t, f.tasks[t].d); }
    case RegisterOp(t, now, victim, a) => RegistrySound(c, f, t, now, victim, a);
    case GetForRebuilt(t, y) => CallbackGetSound(f, t, y);
    case CopyRebuilt(t) => CallbackCopySound(f, t);
    case PushRebuilt(t, now) => CallbackPushSound(f, t, now);
    case Finish(t, now) => FinishedSound(f, t, now);
    case GetForFrame(t, y, header, body) => FrameGetSound(f, t, y, header, body);
    case Frame(t) => FrameWriteSound(f, t);
    case Transmit(t) => TransmissionSound(f, t);
    case Take(t) => TakeFirstSound(f, t);
    case TakeRetired(t, i) => TakeOldSound(f, t, i);
    case CopyUp(t) => HandUpSound(f, t);
    case Release(t) => ReleasedSound(f, t);
    case BufferOp(q) => if !q.PushOp? { QuietSound(f, q); }
    case CloseBuffer => CloseSound(f);
    case OpenBind => BindSound(f);
    case CloseBind => BindSound(f);
    case PoolForgets(x) => if Bare(x) in f.pool { ForgetSound(f, x); }
  }

  lemma {:induction false} RunSound(c: Codec, cfg: Config, f: Flow, ops: seq<Op>)
    requires Sound(Owned(f), f.live, f.mem)
    ensures var g := Run(c, cfg, f, ops); Sound(Owned(g), g.live, g.mem)
    decreases |ops|
  {
    hide Sound, Owned, Step;
    if ops != [] {
      StepSound(c, cfg, f, ops[0]);
      RunSound(c, cfg, Step(c, cfg, f, ops[0]), ops[1..]);
    }
  }

  lemma StartSound(n: nat)
    ensures var f := Start(n); Sound(Owned(f), f.live, f.mem)
  {
    IdleHold(Start(n).tasks);
    assert Owned(Start(n)) == multiset{};
  }

  lemma {:induction false} IdleHold(ts: seq<Task>)
    requires forall t :: 0 <= t < |ts| ==> ts[t] == Idle
    ensures AllHold(ts) == multiset{}
  {
    if ts != [] {
      IdleHold(ts[..|ts| - 1]);
    }
  }

  /**
   From an empty pool, over every interleaving of any number of threads: each slab
   that exists is held exactly once, by the pool, a thread, the resequencing buffer
   or a queue, and every view anyone holds still has the content it was made with.
   So no slab is lost, none is returned twice and none is used after its return.
   */
  lemma OneOwnerAlways(c: Codec, cfg: Config, n: nat, ops: seq<Op>)
    ensures var f := Run(c, cfg, Start(n), ops);
            Exclusive(Owned(f), f.live) && forall v :: v in Owned(f) ==> Good(f.mem, v)
  {
    hide Owned, Run;
    StartSound(n);
    RunSound(c, cfg, Start(n), ops);
  }

  /** When all threads are idle and nothing waits, every slab is back in the pool, once. */
  lemma AllReturned(c: Codec, cfg: Config, n: nat, ops: seq<Op>, f: Flow, x: Address)
    requires f == Run(c, cfg, Start(n), ops)
    requires forall t :: 0 <= t < |f.tasks| ==> f.tasks[t] == Idle
    requires f.buf.held == map[] && f.bind.queue == [] && f.bind.retired == []
    ensures x in f.live <==> exists v :: v in f.pool && v.slab == x
    ensures forall v :: v in f.pool ==> f.pool[v] == 1
  {
    hide Run, Owned, Good;
    OneOwnerAlways(c, cfg, n, ops);
    OnlyPooled(f);
  }

  lemma OnlyPooled(f: Flow)
    requires forall t :: 0 <= t < |f.tasks| ==> f.tasks[t] == Idle
    requires f.buf.held == map[] && f.bind.queue == [] && f.bind.retired == []
    ensures Owned(f) == f.pool
  {
    hide AllHold;
    IdleHold(f.tasks);
    assert A.HeldValues(f.buf.held) == multiset{};
    assert Owned(f) == f.pool;
  }

  // A thread touches only what it holds.
  lemma TouchedHeld(f: Flow, op: Op, x: Address)
    requires x in Touched(f, op)
    ensures Runs(f, op.t) && exists v :: v in Holds(f.tasks[op.t]) && v.slab == x
  {
    var k := f.tasks[op.t];
    var v := match op
             case Arrive(_, _) => Bare(k.x)
             case HandleOp(_) => k.d
             case RegisterOp(_, _, _, _) => k.v
             case CopyRebuilt(_) => Bare(k.y)
             case Frame(_) => Bare(k.y)
             case Transmit(_) => k.u
             case CopyUp(_) => k.v;
    assert v in Holds(k) && v.slab == x;
  }

  /**
   Every slab a thread reads or writes is at that moment held by this thread and by
   nobody else: not by the pool, another thread, the buffer or a queue.
   */
  lemma TouchedIsOwned(c: Codec, cfg: Config, n: nat, ops: seq<Op>, f: Flow, op: Op, x: Address)
    requires f == Run(c, cfg, Start(n), ops) && x in Touched(f, op)
    ensures Runs(f, op.t) && exists v :: v in Holds(f.tasks[op.t]) && v.slab == x
    ensures forall v :: v in Owned(f) - Holds(f.tasks[op.t]) ==> v.slab != x
  {
    hide Run, Good, A.HeldValues, AllHold;
    OneOwnerAlways(c, cfg, n, ops);
    TouchedHeld(f, op, x);
    AllHoldUpdate(f.tasks, op.t, f.tasks[op.t]);
    var mine := Holds(f.tasks[op.t]);
    var u :| u in mine && u.slab == x;
    forall v | v in Owned(f) - mine
      ensures v.slab != x
    {
      assert u in Owned(f) && Owned(f)[u] == 1 && v in Owned(f);
    }
  }
}
