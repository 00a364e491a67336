/** What each counter of the resequencing buffer counts, over every run. */
module ReorderCounters {
  import opened Words
  import opened ReorderModel
  import opened ReorderRuns

  /** How many packets left in order. */
  function OrderedCount<T>(log: seq<Event<T>>): nat {
    if log == [] then 0 else OrderedCount(log[..|log| - 1]) + (if log[|log| - 1].Ordered? then 1 else 0)
  }

  lemma {:induction false} OrderedSplit<T>(a: seq<Event<T>>, b: seq<Event<T>>)
    ensures OrderedCount(a + b) == OrderedCount(a) + OrderedCount(b)
    decreases |b|
  {
    if b == [] {
      assert a + b == a;
    } else {
      var n := |b| - 1;
      assert (a + b)[..|a + b| - 1] == a + b[..n];
      OrderedSplit(a, b[..n]);
    }
  }

  lemma {:induction false} AllOrdered<T>(es: seq<Event<T>>)
    requires forall i :: 0 <= i < |es| ==> es[i].Ordered?
    ensures OrderedCount(es) == |es|
  {
    if es != [] {
      AllOrdered(es[..|es| - 1]);
    }
  }

  /** The buffer after releasing packets: the delivered counter moved with the log, the others did not. */
  ghost predicate OnlyReleased<T>(q: Queue<T>, r: Queue<T>) {
    && r.stats.duplicates == q.stats.duplicates && r.stats.late == q.stats.late
    && r.stats.delivered - q.stats.delivered == OrderedCount(r.log) - OrderedCount(q.log)
  }

  lemma EmitCounts<T>(q: Queue<T>, ps: seq<int>)
    requires Lowest(q.held, ps)
    ensures OnlyReleased(q, Emit(q, ps))
  {
    OrderedSplit(q.log, Released(q, ps));
    AllOrdered(Released(q, ps));
  }

  lemma DrainCounts<T>(q: Queue<T>)
    requires InWindow(q)
    ensures OnlyReleased(q, Drain(q))
  {
    hide Drain;
    DrainExact(q);
    EmitCounts(q, Consecutive(q.next, Drain(q).next - q.next));
  }

  lemma FlushCounts<T>(q: Queue<T>)
    ensures OnlyReleased(q, Flush(q)) && Flush(q).held == map[] && Flush(q).next == q.next
  {
    hide Flush;
    FlushExact(q);
    EmitCounts(q, SortedKeys(q.held));
  }

  lemma {:induction false} ExpireCounts<T>(q: Queue<T>, now: int)
    requires Sound(q)
    ensures OnlyReleased(q, Expire(q, now))
    decreases |q.held|
  {
    if q.held != map[] && now - q.held[First(q.held)].arrival >= q.hold {
      DrainCounts(q.(stats := q.stats.(timedOut := q.stats.timedOut + 1), next := First(q.held)));
      SkipGapKeeps(q);
      ExpireCounts(SkipGap(q), now);
    }
  }

  /** A copy of the packet at `p` waits. */
  predicate CopyWaits<T>(q: Queue<T>, p: int) {
    p in q.held
  }

  /** The packet at `p` is behind the release point, or too far from it and not yet the sixteenth such. */
  predicate TooLate<T>(q: Queue<T>, p: int) {
    || q.next - 8192 <= p < q.next
    || ((p < q.next - 8192 || q.next + 32768 < p) && q.farLate < 15)
  }

  // What one push adds to the counters.
  lemma PushCounts<T>(q: Queue<T>, w: U32, val: T, now: int)
    requires Inv(q)
    ensures var s := Start(q, w);
            var p := Position(s.next, w);
            var r := Push(q, w, val, now);
            && r.stats.duplicates == q.stats.duplicates + (if CopyWaits(s, p) then 1 else 0)
            && r.stats.late == q.stats.late + (if TooLate(s, p) then 1 else 0)
            && r.stats.delivered - q.stats.delivered == OrderedCount(r.log) - OrderedCount(q.log)
  {
    hide Drain, Flush, Position, Increasing, LastRelease, Below, Tally, OrderedCount;
    var s := Start(q, w);
    var p := Position(s.next, w);
    if Far(s.next, p) {
      var f := s.(farLate := s.farLate + 1);
      FlushCounts(f);
      AcceptCounts(Reset(f, p), p, val, now);
      OneCount(s.log, Dropped(p, val));
    } else if p < s.next {
      OneCount(s.log, Late(p, val));
    } else if s.next + SIZE <= p {
      FlushCounts(s.(stats := s.stats.(overflows := s.stats.overflows + 1)));
      AcceptCounts(Jump(s, p).(farLate := 0), p, val, now);
    } else {
      AcceptCounts(s.(farLate := 0), p, val, now);
    }
  }

  lemma OneCount<T>(log: seq<Event<T>>, e: Event<T>)
    ensures OrderedCount(log + [e]) == OrderedCount(log) + (if e.Ordered? then 1 else 0)
  {
    assert (log + [e])[..|log|] == log;
  }

  lemma AcceptCounts<T>(q: Queue<T>, p: int, val: T, now: int)
    requires InWindow(q) && q.next <= p < q.next + SIZE
    ensures var r := Drain(Insert(q, p, val, now));
            && r.stats.duplicates == q.stats.duplicates + (if p in q.held then 1 else 0)
            && r.stats.late == q.stats.late
            && r.stats.delivered - q.stats.delivered == OrderedCount(r.log) - OrderedCount(q.log)
  {
    hide Drain, OrderedCount;
    DrainCounts(Insert(q, p, val, now));
    OneCount(q.log, Dropped(p, val));
  }

  /** How many pushes of the run found a copy waiting. */
  ghost function Copies<T>(q: Queue<T>, ops: seq<Op<T>>): nat
    decreases |ops|
  {
    if ops == [] then 0
    else
      (if ops[0].PushOp? && CopyWaits(Start(q, ops[0].w), Position(Start(q, ops[0].w).next, ops[0].w)) then 1 else 0)
      + Copies(Step(q, ops[0]), ops[1..])
  }

  /** How many pushes of the run came too late. */
  ghost function Latecomers<T>(q: Queue<T>, ops: seq<Op<T>>): nat
    decreases |ops|
  {
    if ops == [] then 0
    else
      (if ops[0].PushOp? && TooLate(Start(q, ops[0].w), Position(Start(q, ops[0].w).next, ops[0].w)) then 1 else 0)
      + Latecomers(Step(q, ops[0]), ops[1..])
  }

  lemma {:induction false} RunCounts<T>(q: Queue<T>, ops: seq<Op<T>>)
    requires Inv(q)
    ensures var r := Run(q, ops);
            && r.stats.duplicates == q.stats.duplicates + Copies(q, ops)
            && r.stats.late == q.stats.late + Latecomers(q, ops)
            && r.stats.delivered - q.stats.delivered == OrderedCount(r.log) - OrderedCount(q.log)
    decreases |ops|
  {
    hide Push, Expire, Inv, CopyWaits, TooLate, OrderedCount, Position;
    if ops != [] {
      StepKeeps(q, ops[0]);
      StepCounts(q, ops[0]);
      RunCounts(Step(q, ops[0]), ops[1..]);
    }
  }

  lemma StepCounts<T>(q: Queue<T>, op: Op<T>)
    requires Inv(q)
    ensures var r := Step(q, op);
            && r.stats.duplicates == q.stats.duplicates + (Copies(q, [op]))
            && r.stats.late == q.stats.late + (Latecomers(q, [op]))
            && r.stats.delivered - q.stats.delivered == OrderedCount(r.log) - OrderedCount(q.log)
  {
    hide Push, Expire, CopyWaits, TooLate, OrderedCount, Position, Increasing, Below, LastRelease;
    assert [op][1..] == [];
    match op
    case PushOp(w, val, now) => PushCounts(q, w, val, now);
    case TickOp(now) => ExpireCounts(q, now);
    case TimerOp(now) => ExpireCounts(q.(armed := false), now);
    case HoldOp(d) =>
  }

  /**
   Over every run Delivered counts the packets released in order, Duplicates the pushes
   that found a copy waiting, and Late the pushes behind the release point together with
   the far ones that were dropped.
   */
  lemma CountersMean<T>(ops: seq<Op<T>>)
    ensures var r := Run(Empty<T>(), ops);
            && r.stats.delivered == OrderedCount(r.log)
            && r.stats.duplicates == Copies(Empty<T>(), ops)
            && r.stats.late == Latecomers(Empty<T>(), ops)
  {
    hide Run, Copies, Latecomers;
    RunCounts(Empty<T>(), ops);
  }
}
