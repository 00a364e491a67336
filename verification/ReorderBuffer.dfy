/**
 The resequencing ring: 8192 slots indexed by `seq % Size`, 32-bit wrapping
 sequence numbers and a signed-difference test. Every operation is proved to be
 the corresponding step of `ReorderModel` on the ghost queue `q`.
 */
module ReorderBuffer {
  import opened Words
  import M = ReorderModel
  import opened ReorderModel

  datatype Slot<T> = Vacant | Taken(wireSeq: U32, arrival: int, val: T)

  /** A call of the `deliver` or the `drop` callback. */
  datatype Output<T> = Deliver(val: T, late: bool) | Drop(val: T)

  function OutputOf<T>(e: Event<T>): (o: Output<T>)
    ensures o.val == e.val && (o.Drop? <==> e.Dropped?) && (o.Deliver? ==> (o.late <==> e.Late?))
  {
    match e
    case Ordered(_, _, v) => Deliver(v, false)
    case Late(_, v) => Deliver(v, true)
    case Dropped(_, v) => Drop(v)
  }

  /** The slot index of a position. */
  function Cell(p: int): (c: nat)
    ensures c < SIZE
  {
    p % SIZE
  }

  /** The ring holds exactly the packets of `held`, each in its own slot. */
  ghost predicate Mirrors<T>(ring: seq<Slot<T>>, next: int, held: map<int, Held<T>>) {
    && |ring| == SIZE
    && (forall p :: p in held ==>
          next <= p < next + SIZE && ring[Cell(p)] == Taken(Wrap32(p), held[p].arrival, held[p].val))
    && (forall p :: next <= p < next + SIZE && ring[Cell(p)].Taken? ==> p in held)
  }

  // Size divides 2^32, so wrapping does not move a sequence to another slot.
  lemma CellOfWrap(p: int)
    ensures Cell(Wrap32(p)) == Cell(p)
  {
    var k := p / TWO_TO_32;
    assert p == k * TWO_TO_32 + Wrap32(p);
    assert p - Wrap32(p) == SIZE * (k * 524288);
  }

  lemma CellShift(p: int, k: int)
    ensures Cell(p + k * SIZE) == Cell(p)
  {
    assert p + k * SIZE == (p / SIZE + k) * SIZE + p % SIZE;
  }

  // Two positions of one window never share a slot.
  lemma CellInjective(next: int, p: int, r: int)
    requires next <= p < next + SIZE && next <= r < next + SIZE
    ensures Cell(p) == Cell(r) ==> p == r
  {
  }

  lemma MirrorsRemove<T>(ring: seq<Slot<T>>, next: int, held: map<int, Held<T>>, p: int)
    requires Mirrors(ring, next, held) && p in held
    ensures Mirrors(ring[Cell(p) := Vacant], next, held - {p})
  {
    forall r | next <= r < next + SIZE
      ensures r != p ==> Cell(r) != Cell(p)
    {
      CellInjective(next, p, r);
    }
  }

  lemma MirrorsInsert<T>(ring: seq<Slot<T>>, next: int, held: map<int, Held<T>>, p: int, h: Held<T>)
    requires Mirrors(ring, next, held) && p !in held && next <= p < next + SIZE
    ensures Mirrors(ring[Cell(p) := Taken(Wrap32(p), h.arrival, h.val)], next, held[p := h])
  {
    forall r | next <= r < next + SIZE
      ensures r != p ==> Cell(r) != Cell(p)
    {
      CellInjective(next, p, r);
    }
  }

  // What the mirror says about one position of the window.
  lemma MirrorsAt<T>(ring: seq<Slot<T>>, next: int, held: map<int, Held<T>>, p: int)
    requires Mirrors(ring, next, held) && next <= p < next + SIZE
    ensures |ring| == SIZE
    ensures forall r :: r in held ==> next <= r < next + SIZE
    ensures p in held <==> ring[Cell(p)].Taken?
    ensures p in held ==> ring[Cell(p)] == Taken(Wrap32(p), held[p].arrival, held[p].val)
  {
  }

  lemma MirrorsKeys<T>(ring: seq<Slot<T>>, next: int, held: map<int, Held<T>>)
    requires Mirrors(ring, next, held)
    ensures forall r :: r in held ==> next <= r < next + SIZE
  {
  }

  // The window may slide forward over positions that hold nothing.
  lemma MirrorsSlide<T>(ring: seq<Slot<T>>, next: int, held: map<int, Held<T>>, to: int)
    requires Mirrors(ring, next, held) && next <= to <= next + SIZE
    requires forall p :: p in held ==> to <= p
    ensures Mirrors(ring, to, held)
  {
    forall p | to <= p < to + SIZE && ring[Cell(p)].Taken?
      ensures p in held
    {
      assert Cell(p - SIZE) == Cell(p);
      assert next <= p - SIZE ==> p - SIZE in held;
    }
  }

  // An empty window may be moved anywhere.
  lemma MirrorsMove<T>(ring: seq<Slot<T>>, next: int, to: int)
    requires Mirrors(ring, next, map[])
    ensures Mirrors(ring, to, map[])
  {
    forall p | to <= p < to + SIZE
      ensures !ring[Cell(p)].Taken?
    {
      var k := (p - next) / SIZE;
      CellShift(p - k * SIZE, k);
      assert next <= p - k * SIZE < next + SIZE;
    }
  }

  class Buffer<T> {
    const slots: array<Slot<T>>
    var started: bool
    var nextExpected: U32
    var occupied: int
    var hold: int
    var farLate: nat
    var timer: bool
    var stats: Stats
    var outputs: seq<Output<T>>
    /** The ordered map this ring stands for. */
    ghost var q: Queue<T>

    ghost predicate Valid()
      reads this, slots
    {
      && slots.Length == SIZE
      && Mirrors(slots[..], q.next, q.held)
      && (!q.started ==> q.held == map[])
      && started == q.started
      && nextExpected == Wrap32(q.next)
      && occupied == |q.held|
      && hold == q.hold
      && farLate == q.farLate
      && timer == q.armed
      && stats == q.stats
      && |outputs| == |q.log|
      && (forall i :: 0 <= i < |outputs| ==> outputs[i] == OutputOf(q.log[i]))
    }

    constructor ()
      ensures Valid() && fresh(slots)
      ensures q == M.Empty() && hold == 75_000_000
    {
      slots := new Slot<T>[SIZE](_ => Vacant);
      started, nextExpected, occupied := false, 0, 0;
      hold, farLate, timer := DEFAULT_HOLD, 0, false;
      stats := Stats(0, 0, 0, 0, 0, 0);
      outputs := [];
      q := M.Empty();
    }

    method SetHold(d: int)
      requires Valid()
      modifies this`hold, this`q
      ensures Valid()
      ensures q == M.Step(old(q), HoldOp(d)) && q == old(q).(hold := hold)
      ensures hold == if d < 2_000_000 then 2_000_000 else if d > 250_000_000 then 250_000_000 else d
    {
      hold := ClampHold(d);
      q := q.(hold := hold);
    }

    method Snapshot() returns (s: Stats, depth: int)
      requires Valid()
      ensures s == q.stats && depth == |q.held|
    {
      s, depth := stats, occupied;
    }

    method Push(w: U32, val: T, now: int)
      requires Valid()
      modifies this, slots
      ensures Valid()
      ensures q == M.Push(old(q), w, val, now)
    {
      hide Mirrors, Wrap32, Signed32, Position, M.Flush, M.Drain, M.PushFar, M.Insert, M.Jump, M.Arm;
      if !started {
        started := true;
        WrapIsIdentity(w);
        nextExpected := w;
        MirrorsMove(slots[..], q.next, w);
        q := Start(q, w);
      }
      ghost var p := Position(q.next, w);
      PositionDiff(q.next, w);
      var diff := Signed32(Wrap32(w - nextExpected));
      if diff < 0 {
        if diff < -SIZE {
          FarLocked(w, val, now, p);
        } else {
          stats := stats.(late := stats.late + 1);
          outputs := outputs + [Deliver(val, true)];
          q := PushAt(q, p, val, now);
        }
        return;
      }
      if diff >= SIZE {
        if diff > 4 * SIZE {
          FarLocked(w, val, now, p);
          return;
        }
        JumpLocked(w, p);
      }
      AcceptLocked(w, val, now, p);
    }

    /** The common tail for packets inside the (possibly moved) window. */
    method AcceptLocked(w: U32, val: T, now: int, ghost p: int)
      requires Valid() && q.started
      requires q.next <= p < q.next + SIZE && w == Wrap32(p)
      modifies this, slots
      ensures Valid()
      ensures q == Arm(M.Drain(M.Insert(old(q).(farLate := 0), p, val, now)))
    {
      hide Mirrors, Wrap32, M.Drain;
      farLate := 0;
      q := q.(farLate := 0);
      InsertLocked(w, val, now, p);
      DrainLocked();
      ArmTimerLocked();
    }

    /** The branch the source writes out twice, for far behind and far ahead. */
    method FarLocked(w: U32, val: T, now: int, ghost p: int)
      requires Valid() && q.started && w == Wrap32(p)
      modifies this, slots
      ensures Valid()
      ensures q == M.PushFar(old(q), p, val, now)
    {
      hide Mirrors, Cell, Wrap32, M.Flush, M.Drain;
      farLate := farLate + 1;
      if farLate >= RESET_THRESHOLD {
        q := q.(farLate := farLate);
        ResetLocked(w, p);
        InsertLocked(w, val, now, p);
        DrainLocked();
        return;
      }
      stats := stats.(late := stats.late + 1);
      outputs := outputs + [Drop(val)];
      q := PushFar(q, p, val, now);
    }

    /** Window overrun. */
    method JumpLocked(w: U32, ghost p: int)
      requires Valid() && q.started && w == Wrap32(p)
      modifies this`occupied, this`stats, this`outputs, this`q, this`nextExpected, slots
      ensures Valid()
      ensures q == M.Jump(old(q), p)
      ensures q.next == p && q.started
    {
      hide Mirrors, Cell, Wrap32, M.Flush;
      stats := stats.(overflows := stats.overflows + 1);
      q := q.(stats := stats);
      FlushLocked();
      MirrorsMove(slots[..], q.next, p);
      nextExpected := w;
      q := q.(next := p);
    }

    method InsertLocked(w: U32, val: T, now: int, ghost p: int)
      requires Valid() && q.started
      requires q.next <= p < q.next + SIZE && w == Wrap32(p)
      modifies this`occupied, this`stats, this`outputs, this`q, slots
      ensures Valid()
      ensures q == M.Insert(old(q), p, val, now)
    {
      hide Mirrors, Wrap32, Cell;
      CellOfWrap(p);
      MirrorsAt(slots[..], q.next, q.held, p);
      var i := Cell(w);
      if slots[i].Taken? {
        stats := stats.(duplicates := stats.duplicates + 1);
        outputs := outputs + [Drop(val)];
        q := M.Insert(q, p, val, now);
        return;
      }
      StoreLocked(i, w, val, now, p);
    }

    method StoreLocked(i: nat, w: U32, val: T, now: int, ghost p: int)
      requires Valid() && q.started && p !in q.held
      requires q.next <= p < q.next + SIZE && w == Wrap32(p) && i == Cell(p)
      modifies this`occupied, this`q, slots
      ensures Valid()
      ensures q == old(q).(held := old(q).held[p := Held(now, val)])
    {
      hide Mirrors, Wrap32, Cell;
      MirrorsInsert(slots[..], q.next, q.held, p, Held(now, val));
      assert q.held[p := Held(now, val)].Keys == q.held.Keys + {p};
      ghost var ring := slots[..];
      slots[i] := Taken(w, now, val);
      assert slots[..] == ring[i := Taken(w, now, val)];
      occupied := occupied + 1;
      q := q.(held := q.held[p := Held(now, val)]);
    }

    method DrainLocked()
      requires Valid() && q.started
      modifies this`nextExpected, this`occupied, this`stats, this`outputs, this`q, slots
      ensures Valid()
      ensures q == M.Drain(old(q))
    {
      hide Mirrors, Wrap32, Cell;
      while true
        invariant Valid() && q.started
        invariant M.Drain(q) == M.Drain(old(q))
        decreases |q.held|
      {
        CellOfWrap(q.next);
        MirrorsAt(slots[..], q.next, q.held, q.next);
        var i := Cell(nextExpected);
        if !slots[i].Taken? || slots[i].wireSeq != nextExpected {
          return;
        }
        Shrinks(q.held, q.next);
        Emit(i, q.next);
        MirrorsSlide(slots[..], q.next, q.held, q.next + 1);
        WrapAdd(q.next, 1);
        nextExpected := Wrap32(nextExpected + 1);
        q := q.(next := q.next + 1);
      }
    }

    /** The shared body of the drain and flush loops: release slot `i`. */
    method Emit(i: nat, ghost p: int)
      requires Valid() && q.started
      requires p in q.held && i == Cell(p)
      modifies this`occupied, this`stats, this`outputs, this`q, slots
      ensures Valid()
      ensures q == Release(old(q), p)
    {
      hide Mirrors, Wrap32, Cell;
      MirrorsKeys(slots[..], q.next, q.held);
      MirrorsAt(slots[..], q.next, q.held, p);
      MirrorsRemove(slots[..], q.next, q.held, p);
      Shrinks(q.held, p);
      ghost var ring := slots[..];
      outputs := outputs + [Deliver(slots[i].val, false)];
      stats := stats.(delivered := stats.delivered + 1);
      slots[i] := Vacant;
      assert slots[..] == ring[i := Vacant];
      occupied := occupied - 1;
      q := Release(q, p);
    }

    method FlushLocked()
      requires Valid()
      modifies this`occupied, this`stats, this`outputs, this`q, slots
      ensures Valid()
      ensures q == M.Flush(old(q))
      ensures q.held == map[] && q.next == old(q.next)
    {
      hide Mirrors, Wrap32, Cell;
      MirrorsKeys(slots[..], q.next, q.held);
      var i := 0;
      while i < SIZE && occupied > 0
        invariant 0 <= i <= SIZE
        invariant Valid()
        invariant forall p :: p in q.held ==> q.next + i <= p
        invariant q.next == old(q.next)
        invariant M.Flush(q) == M.Flush(old(q))
      {
        ghost var p := q.next + i;
        WrapAdd(q.next, i);
        CellOfWrap(p);
        MirrorsAt(slots[..], q.next, q.held, p);
        var c := Cell(Wrap32(nextExpected + i));
        if slots[c].Taken? {
          assert First(q.held) == p;
          Emit(c, p);
        }
        i := i + 1;
      }
      MirrorsKeys(slots[..], q.next, q.held);
      assert forall p :: p !in q.held;
    }

    method ResetLocked(w: U32, ghost p: int)
      requires Valid() && w == Wrap32(p)
      modifies this`occupied, this`stats, this`outputs, this`q, this`nextExpected, this`farLate, slots
      ensures Valid()
      ensures q == M.Reset(old(q), p)
    {
      hide Mirrors, Wrap32, Cell, M.Flush;
      FlushLocked();
      MirrorsMove(slots[..], q.next, p);
      nextExpected := w;
      farLate := 0;
      stats := stats.(resets := stats.resets + 1);
      q := q.(next := p, farLate := 0, stats := stats);
    }

    method ArmTimerLocked()
      requires Valid()
      modifies this`timer, this`q
      ensures Valid()
      ensures q == Arm(old(q))
    {
      if occupied == 0 || timer {
        return;
      }
      timer := true;
      q := Arm(q);
    }

    method OnTimer(now: int)
      requires Valid()
      modifies this, slots
      ensures Valid()
      ensures q == M.OnTimer(old(q), now)
    {
      timer := false;
      q := q.(armed := false);
      ExpireLocked(now);
      if occupied > 0 {
        timer := true;
        q := q.(armed := true);
      }
    }

    /**
     Scan for the first waiting packet at or after the release point. The
     source's "none found" outcome cannot happen while a packet waits.
     */
    method FirstTaken() returns (i: nat)
      requires Valid() && q.held != map[]
      ensures i < SIZE && First(q.held) == q.next + i
    {
      hide Mirrors, Wrap32, Cell;
      MirrorsKeys(slots[..], q.next, q.held);
      i := 0;
      while i < SIZE
        invariant i <= SIZE
        invariant forall p :: p in q.held ==> q.next + i <= p
      {
        WrapAdd(q.next, i);
        CellOfWrap(q.next + i);
        MirrorsAt(slots[..], q.next, q.held, q.next + i);
        if slots[Cell(Wrap32(nextExpected + i))].Taken? {
          return;
        }
        i := i + 1;
      }
      assert false;
    }

    method ExpireLocked(now: int)
      requires Valid()
      modifies this`nextExpected, this`occupied, this`stats, this`outputs, this`q, slots
      ensures Valid()
      ensures q == M.Expire(old(q), now)
    {
      hide Mirrors, Wrap32, Cell, M.Drain;
      while occupied > 0
        invariant Valid()
        invariant M.Expire(q, now) == M.Expire(old(q), now)
        decreases |q.held|
      {
        var i := FirstTaken();
        ghost var p := q.next + i;
        WrapAdd(q.next, i);
        CellOfWrap(p);
        MirrorsAt(slots[..], q.next, q.held, p);
        var slot := slots[Cell(Wrap32(nextExpected + i))];
        if now - slot.arrival < hold {
          return;
        }
        DrainShrinks(q.(stats := q.stats.(timedOut := q.stats.timedOut + 1), next := p));
        SkipGapLocked(slot.wireSeq, p);
      }
    }

    method SkipGapLocked(w: U32, ghost p: int)
      requires Valid() && q.held != map[] && p == First(q.held) && w == Wrap32(p)
      modifies this`nextExpected, this`occupied, this`stats, this`outputs, this`q, slots
      ensures Valid()
      ensures q == M.SkipGap(old(q))
    {
      hide Mirrors, Cell, Wrap32, M.Drain;
      MirrorsKeys(slots[..], q.next, q.held);
      stats := stats.(timedOut := stats.timedOut + 1);
      MirrorsSlide(slots[..], q.next, q.held, p);
      nextExpected := w;
      q := q.(stats := stats, next := p);
      DrainLocked();
    }

    method Tick(now: int)
      requires Valid()
      modifies this, slots
      ensures Valid()
      ensures q == M.Expire(old(q), now)
    {
      ExpireLocked(now);
    }

    method Close()
      requires Valid()
      modifies this, slots
      ensures Valid()
      ensures q == M.Close(old(q))
    {
      timer := false;
      q := q.(armed := false);
      FlushLocked();
    }
  }
}
