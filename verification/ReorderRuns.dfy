/**
 What every run of the resequencing buffer keeps: in-order release, the window, one
 count per packet and a live timer.
 */
module ReorderRuns {
  import opened Words
  import opened ReorderModel

  // ----- The in-order output -----

  predicate Earlier<T>(a: Event<T>, b: Event<T>)
    requires a.Ordered? && b.Ordered?
  {
    a.epoch < b.epoch || (a.epoch == b.epoch && a.pos < b.pos)
  }

  /** In-order releases strictly increase between resets, and epochs never go back. */
  ghost predicate Increasing<T>(log: seq<Event<T>>) {
    forall i, j :: 0 <= i < j < |log| && log[i].Ordered? && log[j].Ordered? ==> Earlier(log[i], log[j])
  }

  ghost predicate Below<T>(log: seq<Event<T>>, epoch: nat, top: int) {
    forall i :: 0 <= i < |log| && log[i].Ordered? ==>
      log[i].epoch < epoch || (log[i].epoch == epoch && log[i].pos < top)
  }

  /** The last in-order release was at `pos` in `epoch`. */
  predicate LastRelease<T>(log: seq<Event<T>>, epoch: nat, pos: int) {
    log != [] &&
    var e := log[|log| - 1];
    if e.Ordered? then e.epoch == epoch && e.pos == pos
    else LastRelease(log[..|log| - 1], epoch, pos)
  }

  ghost predicate InWindow<T>(q: Queue<T>) {
    forall p :: p in q.held ==> q.next <= p < q.next + SIZE
  }

  /** Every packet that left is counted under exactly one heading. */
  predicate Tally<T>(q: Queue<T>) {
    |q.log| == q.stats.delivered + q.stats.duplicates + q.stats.late
  }

  /** What also holds half-way through an operation. */
  ghost predicate Sound<T>(q: Queue<T>) {
    InWindow(q) && Increasing(q.log) && Below(q.log, q.stats.resets, q.next) && Tally(q)
  }

  /** Holds after every public operation up to `Close`. */
  ghost predicate Inv<T>(q: Queue<T>) {
    && Sound(q)
    && q.next !in q.held
    && (q.held != map[] ==> q.armed)
    && q.farLate < RESET_THRESHOLD
    && if q.started then LastRelease(q.log, q.stats.resets, q.next - 1)
       else q.held == map[] && q.log == []
  }

  // ----- Releasing several packets, lowest position first -----

  /** `ps` lists, in ascending order, the lowest positions of `held`. */
  ghost predicate Lowest<T>(held: map<int, Held<T>>, ps: seq<int>) {
    && (forall i :: 0 <= i < |ps| ==> ps[i] in held)
    && (forall i, j :: 0 <= i < j < |ps| ==> ps[i] < ps[j])
    && (forall i, p :: 0 <= i < |ps| && p in held && p !in ps ==> ps[i] < p)
  }

  ghost function Released<T>(q: Queue<T>, ps: seq<int>): (es: seq<Event<T>>)
    requires Lowest(q.held, ps)
    ensures |es| == |ps|
    ensures forall i :: 0 <= i < |ps| ==> es[i] == Ordered(q.stats.resets, ps[i], q.held[ps[i]].val)
  {
    seq(|ps|, i requires 0 <= i < |ps| => Ordered(q.stats.resets, ps[i], q.held[ps[i]].val))
  }

  /** What remains of `held` once `ps` has left. */
  ghost function Without<T>(held: map<int, Held<T>>, ps: seq<int>): map<int, Held<T>> {
    map p | p in held && p !in ps :: held[p]
  }

  /** Everything that releasing `ps` changes. */
  ghost function Emit<T>(q: Queue<T>, ps: seq<int>): Queue<T>
    requires Lowest(q.held, ps)
  {
    q.(held := Without(q.held, ps),
       stats := q.stats.(delivered := q.stats.delivered + |ps|),
       log := q.log + Released(q, ps))
  }

  lemma EmitLowest<T>(q: Queue<T>)
    requires q.held != map[]
    ensures Lowest(q.held, [First(q.held)])
    ensures Release(q, First(q.held)) == Emit(q, [First(q.held)])
  {
    assert Release(q, First(q.held)).held == Emit(q, [First(q.held)]).held;
  }

  lemma EmitNothing<T>(q: Queue<T>)
    ensures Lowest(q.held, []) && Emit(q, []) == q
  {
    assert Emit(q, []).held == q.held;
  }

  lemma EmitIgnoresNext<T>(q: Queue<T>, ps: seq<int>, next: int)
    requires Lowest(q.held, ps)
    ensures Emit(q.(next := next), ps) == Emit(q, ps).(next := next)
  {
  }

  lemma WithoutTwice<T>(held: map<int, Held<T>>, a: seq<int>, b: seq<int>)
    ensures Without(Without(held, a), b) == Without(held, a + b)
  {
    assert forall p :: p in a + b <==> p in a || p in b;
  }

  lemma LowestTwice<T>(held: map<int, Held<T>>, a: seq<int>, b: seq<int>)
    requires Lowest(held, a) && Lowest(Without(held, a), b)
    ensures Lowest(held, a + b)
  {
    var c := a + b;
    assert forall p :: p in c <==> p in a || p in b;
    forall i, j | 0 <= i < j < |c|
      ensures c[i] < c[j]
    {
      if i < |a| <= j {
        assert c[j] == b[j - |a|] && c[j] in Without(held, a);
      }
    }
  }

  lemma EmitTwice<T>(q: Queue<T>, a: seq<int>, b: seq<int>)
    requires Lowest(q.held, a) && Lowest(Emit(q, a).held, b)
    ensures Lowest(q.held, a + b)
    ensures Emit(Emit(q, a), b) == Emit(q, a + b)
  {
    hide Lowest;
    LowestTwice(q.held, a, b);
    WithoutTwice(q.held, a, b);
    ReleasedTwice(q, a, b);
  }

  lemma ReleasedTwice<T>(q: Queue<T>, a: seq<int>, b: seq<int>)
    requires Lowest(q.held, a) && Lowest(Emit(q, a).held, b) && Lowest(q.held, a + b)
    ensures Released(q, a) + Released(Emit(q, a), b) == Released(q, a + b)
  {
  }

  function Consecutive(from: int, n: nat): seq<int> {
    seq(n, i => from + i)
  }

  lemma ConsecutiveSplit(from: int, n: nat)
    requires n > 0
    ensures Consecutive(from, n) == [from] + Consecutive(from + 1, n - 1)
  {
  }

  /** Draining releases exactly the maximal contiguous run at the release point. */
  lemma {:induction false} DrainExact<T>(q: Queue<T>)
    requires InWindow(q)
    ensures q.next <= Drain(q).next && Drain(q).next !in q.held
    ensures var ps := Consecutive(q.next, Drain(q).next - q.next);
            Lowest(q.held, ps) && Drain(q) == Emit(q, ps).(next := Drain(q).next)
    decreases |q.held|
  {
    hide Emit, Lowest;
    if q.next in q.held {
      var e := Release(q, q.next);
      var r := e.(next := q.next + 1);
      Shrinks(q.held, q.next);
      DrainExact(r);
      assert First(q.held) == q.next;
      EmitLowest(q);
      var ps := Consecutive(r.next, Drain(r).next - r.next);
      EmitIgnoresNext(e, ps, r.next);
      EmitTwice(q, [q.next], ps);
      ConsecutiveSplit(q.next, Drain(q).next - q.next);
    } else {
      EmitNothing(q);
      assert Consecutive(q.next, 0) == [];
    }
  }

  /** The keys of `held` in ascending order. */
  ghost function SortedKeys<T>(held: map<int, Held<T>>): (ps: seq<int>)
    decreases |held|
  {
    if held == map[] then []
    else
      Shrinks(held, First(held));
      [First(held)] + SortedKeys(held - {First(held)})
  }

  /** Flushing releases everything, in ascending order, and moves nothing else. */
  lemma {:induction false} FlushExact<T>(q: Queue<T>)
    ensures Lowest(q.held, SortedKeys(q.held))
    ensures forall p :: p in q.held ==> p in SortedKeys(q.held)
    ensures Flush(q) == Emit(q, SortedKeys(q.held))
    ensures Flush(q).held == map[]
    decreases |q.held|
  {
    if q.held != map[] {
      var p := First(q.held);
      var r := Release(q, p);
      Shrinks(q.held, p);
      FlushExact(r);
      EmitLowest(q);
      EmitTwice(q, [p], SortedKeys(r.held));
    } else {
      assert Emit(q, []).held == q.held;
    }
  }

  // ----- Order -----

  lemma {:induction false} LastReleaseOf<T>(log: seq<Event<T>>, es: seq<Event<T>>)
    requires es != [] && es[|es| - 1].Ordered?
    ensures LastRelease(log + es, es[|es| - 1].epoch, es[|es| - 1].pos)
  {
    assert (log + es)[|log + es| - 1] == es[|es| - 1];
  }

  lemma EmitOrder<T>(q: Queue<T>, ps: seq<int>, bottom: int, top: int)
    requires Lowest(q.held, ps) && Increasing(q.log) && Below(q.log, q.stats.resets, bottom) && Tally(q)
    requires bottom <= top && forall i :: 0 <= i < |ps| ==> bottom <= ps[i] < top
    ensures Increasing(Emit(q, ps).log) && Below(Emit(q, ps).log, q.stats.resets, top) && Tally(Emit(q, ps))
    ensures ps != [] ==> LastRelease(Emit(q, ps).log, q.stats.resets, ps[|ps| - 1])
  {
    if ps != [] {
      LastReleaseOf(q.log, Released(q, ps));
    }
  }

  lemma DrainOrder<T>(q: Queue<T>)
    requires Sound(q)
    ensures Sound(Drain(q)) && Drain(q).next !in Drain(q).held
    ensures if q.next in q.held then LastRelease(Drain(q).log, q.stats.resets, Drain(q).next - 1)
            else Drain(q) == q
    ensures var d := Drain(q);
            d.started == q.started && d.farLate == q.farLate && d.hold == q.hold && d.armed == q.armed
            && d.stats.resets == q.stats.resets
  {
    DrainExact(q);
    EmitOrder(q, Consecutive(q.next, Drain(q).next - q.next), q.next, Drain(q).next);
  }

  lemma FlushOrder<T>(q: Queue<T>)
    requires Sound(q)
    ensures var f := Flush(q);
            f.held == map[] && Increasing(f.log) && Below(f.log, f.stats.resets, q.next + SIZE) && Tally(f)
            && f.started == q.started && f.farLate == q.farLate && f.armed == q.armed && f.next == q.next
            && f.stats.resets == q.stats.resets
  {
    FlushExact(q);
    EmitOrder(q, SortedKeys(q.held), q.next, q.next + SIZE);
  }

  // A packet inserted at the release point of an empty queue leaves at once.
  lemma InsertHead<T>(q: Queue<T>, val: T, now: int)
    requires Sound(q) && q.held == map[]
    ensures var r := Drain(Insert(q, q.next, val, now));
            && Sound(r) && r.held == map[] && r.next == q.next + 1
            && r.log == q.log + [Ordered(q.stats.resets, q.next, val)]
            && LastRelease(r.log, r.stats.resets, r.next - 1)
            && r.started == q.started && r.farLate == q.farLate && r.armed == q.armed
            && r.stats.resets == q.stats.resets
  {
    var i := Insert(q, q.next, val, now);
    DrainOrder(i);
    assert Release(i, q.next).held == map[];
  }

  lemma PushFarKeeps<T>(q: Queue<T>, p: int, val: T, now: int)
    requires Inv(q) && q.started
    ensures Inv(PushFar(q, p, val, now)) && PushFar(q, p, val, now).started
  {
    var s := q.(farLate := q.farLate + 1);
    if s.farLate >= RESET_THRESHOLD {
      FlushOrder(s);
      InsertHead(Reset(s, p), val, now);
    } else {
      assert PushFar(q, p, val, now).log[..|q.log|] == q.log;
    }
  }

  lemma PushNearKeeps<T>(q: Queue<T>, p: int, val: T, now: int)
    requires Inv(q) && q.started && q.next <= p < q.next + SIZE
    ensures Inv(PushAt(q, p, val, now)) && PushAt(q, p, val, now).started
  {
    hide Drain;
    var i := Insert(q.(farLate := 0), p, val, now);
    if p in q.held {
      assert i.log[..|q.log|] == q.log;
      assert Sound(i);
    }
    DrainOrder(i);
  }

  lemma PushOverrunKeeps<T>(q: Queue<T>, p: int, val: T, now: int)
    requires Inv(q) && q.started && q.next + SIZE <= p <= q.next + 4 * SIZE
    ensures Inv(PushAt(q, p, val, now)) && PushAt(q, p, val, now).started
  {
    FlushOrder(q.(stats := q.stats.(overflows := q.stats.overflows + 1)));
    InsertHead(Jump(q, p).(farLate := 0), val, now);
  }

  lemma PushKeeps<T>(q: Queue<T>, w: U32, val: T, now: int)
    requires Inv(q)
    ensures Inv(Push(q, w, val, now)) && Push(q, w, val, now).started
  {
    if !q.started {
      StartKeeps(q, w, val, now);
      return;
    }
    var p := Position(q.next, w);
    if Far(q.next, p) {
      PushFarKeeps(q, p, val, now);
    } else if p < q.next {
      assert PushAt(q, p, val, now).log[..|q.log|] == q.log;
    } else if p < q.next + SIZE {
      PushNearKeeps(q, p, val, now);
    } else {
      PushOverrunKeeps(q, p, val, now);
    }
  }

  // The very first packet is delivered at once.
  lemma StartKeeps<T>(q: Queue<T>, w: U32, val: T, now: int)
    requires Inv(q) && !q.started
    ensures Inv(Push(q, w, val, now)) && Push(q, w, val, now).started
  {
    assert Position(w, w) == w;
    InsertHead(Start(q, w).(farLate := 0), val, now);
  }

  lemma SkipGapKeeps<T>(q: Queue<T>)
    requires Sound(q) && q.held != map[]
    ensures var r := SkipGap(q);
            && Sound(r) && r.next !in r.held && LastRelease(r.log, r.stats.resets, r.next - 1)
            && r.started == q.started && r.farLate == q.farLate && r.hold == q.hold && r.armed == q.armed
            && |r.held| < |q.held|
  {
    var s := q.(stats := q.stats.(timedOut := q.stats.timedOut + 1), next := First(q.held));
    DrainOrder(s);
    DrainShrinks(s);
  }

  lemma {:induction false} ExpireKeeps<T>(q: Queue<T>, now: int)
    requires Inv(q)
    ensures Inv(Expire(q, now))
    decreases |q.held|
  {
    if q.held != map[] && now - q.held[First(q.held)].arrival >= q.hold {
      SkipGapKeeps(q);
      ExpireKeeps(SkipGap(q), now);
    }
  }

  lemma {:induction false} ExpireIgnoresTimer<T>(q: Queue<T>, now: int, armed: bool)
    ensures Expire(q.(armed := armed), now) == Expire(q, now).(armed := armed)
    decreases |q.held|
  {
    if q.held != map[] && now - q.held[First(q.held)].arrival >= q.hold {
      var s := q.(stats := q.stats.(timedOut := q.stats.timedOut + 1), next := First(q.held));
      DrainIgnoresTimer(s, armed);
      DrainShrinks(s);
      ExpireIgnoresTimer(SkipGap(q), now, armed);
    }
  }

  lemma {:induction false} DrainIgnoresTimer<T>(q: Queue<T>, armed: bool)
    ensures Drain(q.(armed := armed)) == Drain(q).(armed := armed)
    decreases |q.held|
  {
    if q.next in q.held {
      Shrinks(q.held, q.next);
      DrainIgnoresTimer(Release(q, q.next).(next := q.next + 1), armed);
    }
  }

  lemma StepKeeps<T>(q: Queue<T>, op: Op<T>)
    requires Inv(q)
    ensures Inv(Step(q, op))
  {
    match op
    case PushOp(w, val, now) => PushKeeps(q, w, val, now);
    case TickOp(now) => ExpireKeeps(q, now);
    case TimerOp(now) =>
      ExpireKeeps(q, now);
      ExpireIgnoresTimer(q, now, false);
    case HoldOp(d) =>
  }

  lemma {:induction false} RunKeeps<T>(q: Queue<T>, ops: seq<Op<T>>)
    requires Inv(q)
    ensures Inv(Run(q, ops))
    decreases |ops|
  {
    if ops != [] {
      StepKeeps(q, ops[0]);
      RunKeeps(Step(q, ops[0]), ops[1..]);
    }
  }

  /**
   Ordered release, over every run up to `Close`: in-order releases strictly
   increase between resets, the last one is just before the release point, the
   slot at the release point is empty, nothing waits outside the window and a
   non-empty buffer has its timer armed.
   */
  lemma OrderedRelease<T>(ops: seq<Op<T>>)
    ensures Inv(Run(Empty<T>(), ops))
    ensures Increasing(Close(Run(Empty<T>(), ops)).log) && Close(Run(Empty<T>(), ops)).held == map[]
    ensures !Close(Run(Empty<T>(), ops)).armed && Close(Run(Empty<T>(), ops)).next == Run(Empty<T>(), ops).next
  {
    RunKeeps(Empty<T>(), ops);
    FlushOrder(Run(Empty<T>(), ops).(armed := false));
  }
}
