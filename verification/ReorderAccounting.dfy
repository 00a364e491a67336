/**
 One outcome per packet: nothing that is pushed into the resequencing buffer is
 lost, duplicated or invented, and a drop always has one of two reasons.
 */
module ReorderAccounting {
  import opened Words
  import opened ReorderModel
  import opened ReorderRuns

  // ----- Conservation -----

  ghost function LogValues<T>(log: seq<Event<T>>): multiset<T> {
    if log == [] then multiset{}
    else LogValues(log[..|log| - 1]) + multiset{log[|log| - 1].val}
  }

  ghost function HeldValues<T>(held: map<int, Held<T>>): multiset<T>
    decreases |held|
  {
    if held == map[] then multiset{}
    else
      Shrinks(held, First(held));
      multiset{held[First(held)].val} + HeldValues(held - {First(held)})
  }

  /** Every packet the buffer has seen: the ones that left and the ones that wait. */
  ghost function Total<T>(log: seq<Event<T>>, held: map<int, Held<T>>): multiset<T> {
    LogValues(log) + HeldValues(held)
  }

  lemma LogAppend<T>(log: seq<Event<T>>, e: Event<T>)
    ensures LogValues(log + [e]) == LogValues(log) + multiset{e.val}
  {
    assert (log + [e])[..|log|] == log;
  }

  lemma RemovalsCommute<T>(held: map<int, Held<T>>, p: int, r: int)
    ensures held - {p} - {r} == held - {r} - {p}
  {
  }

  lemma HeldFirst<T>(held: map<int, Held<T>>, f: int)
    requires f in held && forall p :: p in held ==> f <= p
    ensures HeldValues(held) == multiset{held[f].val} + HeldValues(held - {f})
  {
    assert First(held) == f;
  }

  lemma {:induction false} HeldRemove<T>(held: map<int, Held<T>>, p: int)
    requires p in held
    ensures HeldValues(held) == multiset{held[p].val} + HeldValues(held - {p})
    decreases |held|
  {
    hide HeldValues;
    var f := First(held);
    HeldFirst(held, f);
    if p != f {
      Shrinks(held, f);
      HeldRemove(held - {f}, p);
      HeldFirst(held - {p}, f);
      RemovalsCommute(held, f, p);
    }
  }

  lemma HeldAdd<T>(held: map<int, Held<T>>, p: int, h: Held<T>)
    requires p !in held
    ensures HeldValues(held[p := h]) == HeldValues(held) + multiset{h.val}
  {
    HeldRemove(held[p := h], p);
    assert held[p := h] - {p} == held;
  }

  lemma LogTotal<T>(q: Queue<T>, e: Event<T>)
    ensures Total(q.log + [e], q.held) == Total(q.log, q.held) + multiset{e.val}
  {
    LogAppend(q.log, e);
  }

  lemma ReleaseTotal<T>(q: Queue<T>, p: int)
    requires p in q.held
    ensures Total(Release(q, p).log, Release(q, p).held) == Total(q.log, q.held)
  {
    LogAppend(q.log, Ordered(q.stats.resets, p, q.held[p].val));
    HeldRemove(q.held, p);
  }

  lemma {:induction false} DrainTotal<T>(q: Queue<T>)
    ensures Total(Drain(q).log, Drain(q).held) == Total(q.log, q.held)
    decreases |q.held|
  {
    hide Total;
    if q.next in q.held {
      Shrinks(q.held, q.next);
      ReleaseTotal(q, q.next);
      DrainTotal(Release(q, q.next).(next := q.next + 1));
    }
  }

  lemma {:induction false} FlushTotal<T>(q: Queue<T>)
    ensures Total(Flush(q).log, Flush(q).held) == Total(q.log, q.held)
    decreases |q.held|
  {
    if q.held != map[] {
      Shrinks(q.held, First(q.held));
      ReleaseTotal(q, First(q.held));
      FlushTotal(Release(q, First(q.held)));
    }
  }

  lemma {:induction false} ExpireTotal<T>(q: Queue<T>, now: int)
    ensures Total(Expire(q, now).log, Expire(q, now).held) == Total(q.log, q.held)
    decreases |q.held|
  {
    if q.held != map[] && now - q.held[First(q.held)].arrival >= q.hold {
      hide Total;
      var s := q.(stats := q.stats.(timedOut := q.stats.timedOut + 1), next := First(q.held));
      DrainTotal(s);
      DrainShrinks(s);
      ExpireTotal(SkipGap(q), now);
    }
  }

  lemma InsertTotal<T>(q: Queue<T>, p: int, val: T, now: int)
    ensures var r := Insert(q, p, val, now); Total(r.log, r.held) == Total(q.log, q.held) + multiset{val}
  {
    if p in q.held {
      LogAppend(q.log, Dropped(p, val));
    } else {
      HeldAdd(q.held, p, Held(now, val));
    }
  }

  lemma PushFarTotal<T>(q: Queue<T>, p: int, val: T, now: int)
    ensures var r := PushFar(q, p, val, now); Total(r.log, r.held) == Total(q.log, q.held) + multiset{val}
  {
    hide Drain, Flush, Insert, Total;
    var f := q.(farLate := q.farLate + 1);
    FlushTotal(f);
    InsertTotal(Reset(f, p), p, val, now);
    DrainTotal(Insert(Reset(f, p), p, val, now));
    LogTotal(q, Dropped(p, val));
  }

  lemma PushTotal<T>(q: Queue<T>, w: U32, val: T, now: int)
    ensures var r := Push(q, w, val, now); Total(r.log, r.held) == Total(q.log, q.held) + multiset{val}
  {
    hide Drain, Flush, Insert, PushFar, Total, Position;
    var s := Start(q, w);
    var p := Position(s.next, w);
    PushFarTotal(s, p, val, now);
    LogTotal(q, Late(p, val));
    FlushTotal(s.(stats := s.stats.(overflows := s.stats.overflows + 1)));
    var r := (if s.next + SIZE <= p then Jump(s, p) else s).(farLate := 0);
    InsertTotal(r, p, val, now);
    DrainTotal(Insert(r, p, val, now));
  }

  /** The packets handed to the buffer by a sequence of operations. */
  ghost function Pushed<T>(ops: seq<Op<T>>): multiset<T> {
    if ops == [] then multiset{}
    else (if ops[0].PushOp? then multiset{ops[0].val} else multiset{}) + Pushed(ops[1..])
  }

  /**
   Conservation: whatever was pushed has left in order, has left late, was
   dropped or still waits, each packet exactly once.
   */
  lemma {:induction false} Conservation<T>(q: Queue<T>, ops: seq<Op<T>>)
    ensures Total(Run(q, ops).log, Run(q, ops).held) == Total(q.log, q.held) + Pushed(ops)
    decreases |ops|
  {
    hide Total, Push, Expire;
    if ops != [] {
      match ops[0] {
        case PushOp(w, val, now) => PushTotal(q, w, val, now);
        case TickOp(now) => ExpireTotal(q, now);
        case TimerOp(now) => ExpireTotal(q.(armed := false), now);
        case HoldOp(d) =>
      }
      Conservation(Step(q, ops[0]), ops[1..]);
    }
  }

  lemma {:induction false} HeldSize<T>(held: map<int, Held<T>>)
    ensures |HeldValues(held)| == |held|
    decreases |held|
  {
    if held != map[] {
      Shrinks(held, First(held));
      HeldSize(held - {First(held)});
    }
  }

  lemma {:induction false} LogSize<T>(log: seq<Event<T>>)
    ensures |LogValues(log)| == |log|
  {
    if log != [] {
      LogSize(log[..|log| - 1]);
    }
  }

  /** Delivered + Duplicates + Late + Depth is the number of packets pushed. */
  lemma CountersAddUp<T>(ops: seq<Op<T>>)
    ensures var r := Run(Empty<T>(), ops);
            r.stats.delivered + r.stats.duplicates + r.stats.late + |r.held| == |Pushed(ops)|
  {
    var r := Run(Empty<T>(), ops);
    RunKeeps(Empty<T>(), ops);
    Conservation(Empty<T>(), ops);
    HeldSize(r.held);
    LogSize(r.log);
    assert Total(Empty<T>().log, Empty<T>().held) == multiset{};
    assert |Total(r.log, r.held)| == |LogValues(r.log)| + |HeldValues(r.held)|;
  }

  // ----- Why packets are dropped -----

  predicate FarDrop<T>(q: Queue<T>, p: int) {
    Far(q.next, p) && q.farLate + 1 < RESET_THRESHOLD
  }

  /** `longer` extends `log`, and none of the new events is a drop. */
  ghost predicate AddsNoDrop<T>(log: seq<Event<T>>, longer: seq<Event<T>>) {
    log <= longer && forall i :: |log| <= i < |longer| ==> !longer[i].Dropped?
  }

  lemma InsertDrainAdds<T>(q: Queue<T>, p: int, val: T, now: int)
    requires InWindow(q) && q.next <= p < q.next + SIZE && p !in q.held
    ensures AddsNoDrop(q.log, Drain(Insert(q, p, val, now)).log)
  {
    DrainExact(Insert(q, p, val, now));
  }

  lemma FlushInsertAdds<T>(q: Queue<T>, p: int, val: T, now: int, f: Queue<T>)
    requires f == Flush(q).(next := p, farLate := f.farLate, stats := f.stats)
    ensures AddsNoDrop(q.log, Drain(Insert(f, p, val, now)).log)
  {
    FlushExact(q);
    InsertDrainAdds(f, p, val, now);
  }

  lemma DuplicateDrops<T>(q: Queue<T>, p: int, val: T, now: int)
    requires InWindow(q) && q.next !in q.held && p in q.held
    ensures var r := PushAt(q, p, val, now);
            r.log == q.log + [Dropped(p, val)] && r.held == q.held && r.next == q.next
  {
  }

  /**
   A packet is dropped exactly when a copy of its sequence waits already, or when
   it is far from the window and the reset threshold is not reached; nothing else
   moves then. In every other case nothing at all is dropped.
   */
  lemma DropReason<T>(q: Queue<T>, w: U32, val: T, now: int)
    requires Inv(q)
    ensures var s := Start(q, w);
            var p := Position(s.next, w);
            var r := Push(q, w, val, now);
            if p in s.held || FarDrop(s, p)
            then r.log == q.log + [Dropped(p, val)] && r.held == q.held && r.next == s.next
            else AddsNoDrop(q.log, r.log)
  {
    hide Drain, Flush, Position, LastRelease, Increasing, Below, Tally;
    var s := Start(q, w);
    var p := Position(s.next, w);
    if p in s.held {
      DuplicateDrops(s, p, val, now);
    } else if Far(s.next, p) {
      var f := s.(farLate := s.farLate + 1);
      FlushInsertAdds(f, p, val, now, Reset(f, p));
    } else if s.next + SIZE <= p {
      var o := s.(stats := s.stats.(overflows := s.stats.overflows + 1));
      FlushInsertAdds(o, p, val, now, Jump(s, p).(farLate := 0));
    } else if s.next <= p {
      InsertDrainAdds(s.(farLate := 0), p, val, now);
    } else {
      assert AddsNoDrop(q.log, q.log + [Late(p, val)]);
    }
  }

  // ----- No silent loss -----

  /** A copy of the packet at `p` waits, or was handed up in order or late. */
  ghost predicate Accounted<T>(q: Queue<T>, p: int) {
    p in q.held || exists i :: 0 <= i < |q.log| && q.log[i].pos == p && !q.log[i].Dropped?
  }

  lemma EmitAccounts<T>(q: Queue<T>, ps: seq<int>, p: int)
    requires Lowest(q.held, ps) && Accounted(q, p)
    ensures Accounted(Emit(q, ps), p)
  {
    var r := Emit(q, ps);
    if p in q.held {
      if p in ps {
        var i :| 0 <= i < |ps| && ps[i] == p;
        assert r.log[|q.log| + i].pos == p;
      }
    } else {
      var i :| 0 <= i < |q.log| && q.log[i].pos == p && !q.log[i].Dropped?;
      assert r.log[i] == q.log[i];
    }
  }

  lemma DrainAccounts<T>(q: Queue<T>, p: int)
    requires InWindow(q) && Accounted(q, p)
    ensures Accounted(Drain(q), p)
  {
    DrainExact(q);
    EmitAccounts(q, Consecutive(q.next, Drain(q).next - q.next), p);
  }

  lemma FlushAccounts<T>(q: Queue<T>, p: int)
    requires Accounted(q, p)
    ensures Accounted(Flush(q), p)
  {
    FlushExact(q);
    EmitAccounts(q, SortedKeys(q.held), p);
  }

  lemma {:induction false} ExpireAccounts<T>(q: Queue<T>, now: int, p: int)
    requires Sound(q) && Accounted(q, p)
    ensures Accounted(Expire(q, now), p)
    decreases |q.held|
  {
    if q.held != map[] && now - q.held[First(q.held)].arrival >= q.hold {
      var s := q.(stats := q.stats.(timedOut := q.stats.timedOut + 1), next := First(q.held));
      DrainAccounts(s, p);
      SkipGapKeeps(q);
      ExpireAccounts(SkipGap(q), now, p);
    }
  }

  lemma AppendAccounts<T>(q: Queue<T>, e: Event<T>, p: int)
    requires Accounted(q, p) || (e.pos == p && !e.Dropped?)
    ensures Accounted(q.(log := q.log + [e]), p)
  {
    var log := q.log + [e];
    if e.pos == p && !e.Dropped? {
      assert log[|q.log|].pos == p;
    } else if p !in q.held {
      var i :| 0 <= i < |q.log| && q.log[i].pos == p && !q.log[i].Dropped?;
      assert log[i].pos == p;
    }
  }

  // Inserting and draining accounts for the new packet and keeps the old ones.
  lemma AcceptAccounts<T>(q: Queue<T>, at: int, val: T, now: int, p: int)
    requires InWindow(q) && q.next <= at < q.next + SIZE
    requires Accounted(q, p) || p == at
    ensures Accounted(Drain(Insert(q, at, val, now)), p)
  {
    if at in q.held && p != at {
      AppendAccounts(q, Dropped(at, val), p);
    }
    DrainAccounts(Insert(q, at, val, now), p);
  }

  lemma PushAccounts<T>(q: Queue<T>, w: U32, val: T, now: int, p: int)
    requires Inv(q)
    requires var s := Start(q, w);
             var at := Position(s.next, w);
             Accounted(q, p) || (p == at && !FarDrop(s, at))
    ensures Accounted(Push(q, w, val, now), p)
  {
    hide Drain, Flush, Insert, Position, LastRelease, Increasing, Below, Tally;
    var s := Start(q, w);
    var at := Position(s.next, w);
    if Far(s.next, at) {
      if FarDrop(s, at) {
        AppendAccounts(s, Dropped(at, val), p);
      } else {
        var f := s.(farLate := s.farLate + 1);
        FlushExact(f);
        if Accounted(f, p) {
          FlushAccounts(f, p);
        }
        AcceptAccounts(Reset(f, at), at, val, now, p);
      }
    } else if at < s.next {
      AppendAccounts(s, Late(at, val), p);
    } else if s.next + SIZE <= at {
      var o := s.(stats := s.stats.(overflows := s.stats.overflows + 1));
      FlushExact(o);
      if Accounted(o, p) {
        FlushAccounts(o, p);
      }
      AcceptAccounts(Jump(s, at).(farLate := 0), at, val, now, p);
    } else {
      AcceptAccounts(s.(farLate := 0), at, val, now, p);
    }
  }

  lemma {:induction false} RunAccounts<T>(q: Queue<T>, ops: seq<Op<T>>, p: int)
    requires Inv(q) && Accounted(q, p)
    ensures Accounted(Run(q, ops), p)
    decreases |ops|
  {
    hide Push, Expire, Accounted, Inv;
    if ops != [] {
      StepAccounts(q, ops[0], p);
      StepKeeps(q, ops[0]);
      RunAccounts(Step(q, ops[0]), ops[1..], p);
    }
  }

  lemma StepAccounts<T>(q: Queue<T>, op: Op<T>, p: int)
    requires Inv(q) && Accounted(q, p)
    ensures Accounted(Step(q, op), p)
  {
    hide Push, Expire;
    match op
    case PushOp(w, val, now) => PushAccounts(q, w, val, now, p);
    case TickOp(now) => ExpireAccounts(q, now, p);
    case TimerOp(now) => ExpireAccounts(q.(armed := false), now, p);
    case HoldOp(d) =>
  }

  lemma {:induction false} RunSplit<T>(q: Queue<T>, a: seq<Op<T>>, b: seq<Op<T>>)
    ensures Run(q, a + b) == Run(Run(q, a), b)
    decreases |a|
  {
    if a == [] {
      assert a + b == b;
    } else {
      assert (a + b)[1..] == a[1..] + b;
      RunSplit(Step(q, a[0]), a[1..], b);
    }
  }

  /**
   No silent loss: unless it was far from the window, a pushed packet is from
   then on, and whatever happens later, either waiting or already handed up.
   */
  lemma NoSilentLoss<T>(a: seq<Op<T>>, w: U32, val: T, now: int, b: seq<Op<T>>)
    requires var s := Start(Run(Empty<T>(), a), w); !FarDrop(s, Position(s.next, w))
    ensures var p := Position(Start(Run(Empty<T>(), a), w).next, w);
            Accounted(Run(Empty<T>(), a + [PushOp(w, val, now)] + b), p)
  {
    hide Push, Inv, Accounted, Position, Start;
    var e := Empty<T>();
    var q := Run(e, a);
    var op := PushOp(w, val, now);
    var p := Position(Start(q, w).next, w);
    RunKeeps(e, a);
    PushAccounts(q, w, val, now, p);
    StepKeeps(q, op);
    RunAccounts(Step(q, op), b, p);
    RunSplit(e, a + [op], b);
    RunSplit(e, a, [op]);
    assert Run(q, [op]) == Step(q, op);
  }
}
