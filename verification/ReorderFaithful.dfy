/**
 A buffer fed from one stream: packet number `n` of the stream, counted from 1, is
 pushed any number of times and in any order under its 32-bit number `Wrap32(n)`.

 The numbers of a stream of any length are right for ever. Positions are right for
 as long as every packet is pushed within 2^31 of the release point, across any
 number of wraps; `StaleCopyOvertakes` is what happens beyond that.
 */
module ReorderFaithful {
  import opened Words
  import opened ReorderModel
  import opened ReorderRuns

  /** `R` holds of every position and value that waits or has left. */
  ghost predicate Each<T>(q: Queue<T>, R: (int, T) -> bool) {
    && (forall p :: p in q.held ==> R(p, q.held[p].val))
    && (forall i :: 0 <= i < |q.log| ==> R(q.log[i].pos, q.log[i].val))
  }

  lemma EmitEach<T>(q: Queue<T>, R: (int, T) -> bool, ps: seq<int>)
    requires Each(q, R) && Lowest(q.held, ps)
    ensures Each(Emit(q, ps), R)
  {
  }

  lemma DrainEach<T>(q: Queue<T>, R: (int, T) -> bool)
    requires InWindow(q) && Each(q, R)
    ensures Each(Drain(q), R)
  {
    hide Drain;
    DrainExact(q);
    EmitEach(q, R, Consecutive(q.next, Drain(q).next - q.next));
  }

  lemma FlushEach<T>(q: Queue<T>, R: (int, T) -> bool)
    requires Each(q, R)
    ensures Each(Flush(q), R) && Flush(q).held == map[]
  {
    hide Flush;
    FlushExact(q);
    EmitEach(q, R, SortedKeys(q.held));
  }

  lemma {:induction false} ExpireEach<T>(q: Queue<T>, R: (int, T) -> bool, now: int)
    requires Sound(q) && Each(q, R)
    ensures Each(Expire(q, now), R)
    decreases |q.held|
  {
    if q.held != map[] && now - q.held[First(q.held)].arrival >= q.hold {
      var s := q.(stats := q.stats.(timedOut := q.stats.timedOut + 1), next := First(q.held));
      DrainEach(s, R);
      SkipGapKeeps(q);
      ExpireEach(SkipGap(q), R, now);
    }
  }

  lemma AcceptEach<T>(q: Queue<T>, R: (int, T) -> bool, p: int, val: T, now: int)
    requires InWindow(q) && Each(q, R) && q.next <= p < q.next + SIZE && R(p, val)
    ensures Each(Drain(Insert(q, p, val, now)), R)
  {
    hide Drain;
    DrainEach(Insert(q, p, val, now), R);
  }

  // What holds of everything in the buffer and of a packet where it is pushed keeps holding.
  lemma PushEach<T>(q: Queue<T>, R: (int, T) -> bool, w: U32, val: T, now: int)
    requires Inv(q) && Each(q, R) && R(Position(Start(q, w).next, w), val)
    ensures Each(Push(q, w, val, now), R)
  {
    hide Drain, Flush, Insert, Increasing, LastRelease, Below, Tally, Position;
    var s := Start(q, w);
    var p := Position(s.next, w);
    if Far(s.next, p) {
      var f := s.(farLate := s.farLate + 1);
      FlushEach(f, R);
      AcceptEach(Reset(f, p), R, p, val, now);
    } else if p >= s.next + SIZE {
      FlushEach(s.(stats := s.stats.(overflows := s.stats.overflows + 1)), R);
      AcceptEach(Jump(s, p).(farLate := 0), R, p, val, now);
    } else if p >= s.next {
      AcceptEach(s.(farLate := 0), R, p, val, now);
    }
  }

  lemma QuietEach<T>(q: Queue<T>, R: (int, T) -> bool, op: Op<T>)
    requires Inv(q) && Each(q, R) && !op.PushOp?
    ensures Each(Step(q, op), R)
  {
    hide Expire;
    match op
    case TickOp(now) => ExpireEach(q, R, now);
    case TimerOp(now) => ExpireEach(q.(armed := false), R, now);
    case HoldOp(d) =>
  }

  // ----- Numbers -----

  /** `val` was sent under the 32-bit number `w`. */
  ghost predicate Sequenced<T>(sent: seq<T>, w: U32, val: T) {
    exists n: int :: 1 <= n <= |sent| && Wrap32(n) == w && sent[n - 1] == val
  }

  /** Until numbers are reused, a number names one packet. */
  lemma SequencedUnique<T>(sent: seq<T>, w: U32, val: T)
    requires |sent| < TWO_TO_32
    ensures Sequenced(sent, w, val) <==> 1 <= w <= |sent| && val == sent[w - 1]
  {
    WrapIsIdentity(w);
  }

  ghost function UnderNumber<T>(sent: seq<T>): (int, T) -> bool {
    (pos: int, val: T) => Sequenced(sent, Wrap32(pos), val)
  }

  /** Everything that waits or has left was sent under the number it carries. */
  ghost predicate Faithful<T>(q: Queue<T>, sent: seq<T>) {
    Each(q, UnderNumber(sent))
  }

  /** Streams of any length: what the buffer holds and hands out was sent under that number. */
  lemma PushFaithful<T>(q: Queue<T>, sent: seq<T>, w: U32, val: T, now: int)
    requires Inv(q) && Faithful(q, sent) && Sequenced(sent, w, val)
    ensures Faithful(Push(q, w, val, now), sent)
    ensures Wrap32(Position(Start(q, w).next, w)) == w
  {
    hide Push, Inv, Each, Sequenced;
    PositionDiff(Start(q, w).next, w);
    PushEach(q, UnderNumber(sent), w, val, now);
  }

  // The stream may grow.
  lemma FaithfulGrows<T>(q: Queue<T>, sent: seq<T>, longer: seq<T>)
    requires Faithful(q, sent) && sent <= longer
    ensures Faithful(q, longer)
  {
    forall w: U32, val: T | Sequenced(sent, w, val)
      ensures Sequenced(longer, w, val)
    {
      SequencedGrows(sent, longer, w, val);
    }
  }

  lemma SequencedGrows<T>(sent: seq<T>, longer: seq<T>, w: U32, val: T)
    requires Sequenced(sent, w, val) && sent <= longer
    ensures Sequenced(longer, w, val)
  {
    var n: int :| 1 <= n <= |sent| && Wrap32(n) == w && sent[n - 1] == val;
    assert longer[n - 1] == val;
  }

  // ----- Positions -----

  /** Within half the number space of the release point. */
  predicate Near(next: int, n: int) {
    -TWO_TO_31 <= n - next < TWO_TO_31
  }

  /**
   A wire number denotes the packet's own position exactly when the packet is
   within 2^31 of the release point. `base` is where position 0 lies in the
   stream: a multiple of 2^32, fixed by the first packet that arrives.
   */
  lemma PositionExact(next: int, n: int, base: int)
    requires Wrap32(base) == 0
    ensures Position(next, Wrap32(n)) + base == n <==> Near(next + base, n)
  {
    var k := base / TWO_TO_32;
    assert base == k * TWO_TO_32;
    assert Wrap32(Wrap32(n) - next) == Wrap32(n - (next + base));
  }

  ghost function AtPosition<T>(sent: seq<T>, base: int): (int, T) -> bool {
    (pos: int, val: T) => 1 <= pos + base <= |sent| && val == sent[pos + base - 1]
  }

  /** Everything that waits or has left is the packet of the stream at that very position. */
  ghost predicate Exact<T>(q: Queue<T>, sent: seq<T>, base: int) {
    Each(q, AtPosition(sent, base))
  }

  /** The condition on a delivery: the first fixes `base`, the others are near. */
  predicate Timely<T>(q: Queue<T>, n: int, base: int) {
    if q.started then Near(q.next + base, n) else n == Wrap32(n) + base
  }

  lemma PushExact<T>(q: Queue<T>, sent: seq<T>, n: int, base: int, now: int)
    requires Inv(q) && Exact(q, sent, base) && 1 <= n <= |sent| && Wrap32(base) == 0 && Timely(q, n, base)
    ensures Position(Start(q, Wrap32(n)).next, Wrap32(n)) + base == n
    ensures Exact(Push(q, Wrap32(n), sent[n - 1], now), sent, base)
  {
    hide Push, Inv, Each, Position;
    var s := Start(q, Wrap32(n));
    PositionExact(s.next, n, base);
    PushEach(q, AtPosition(sent, base), Wrap32(n), sent[n - 1], now);
  }

  lemma ExactGrows<T>(q: Queue<T>, sent: seq<T>, longer: seq<T>, base: int)
    requires Exact(q, sent, base) && sent <= longer
    ensures Exact(q, longer, base)
  {
  }

  // The release point of a running buffer follows a packet of the stream.
  lemma ReleasePoint<T>(q: Queue<T>, sent: seq<T>, base: int)
    requires Inv(q) && Exact(q, sent, base) && q.started
    ensures 1 <= q.next - 1 + base <= |sent|
  {
    LastReleaseAt(q.log, q.stats.resets, q.next - 1);
  }

  lemma {:induction false} LastReleaseAt<T>(log: seq<Event<T>>, epoch: nat, pos: int)
    requires LastRelease(log, epoch, pos)
    ensures exists i :: 0 <= i < |log| && log[i].pos == pos
  {
    var n := |log| - 1;
    if log[n].Ordered? {
      assert log[n].pos == pos;
    } else {
      LastReleaseAt(log[..n], epoch, pos);
      var i :| 0 <= i < n && log[..n][i].pos == pos;
      assert log[i].pos == pos;
    }
  }

  /** So with fewer than 2^31 packets every delivery is timely. */
  lemma ShortIsTimely<T>(q: Queue<T>, sent: seq<T>, n: int)
    requires Inv(q) && Exact(q, sent, 0) && 1 <= n <= |sent| < TWO_TO_31
    ensures Timely(q, n, 0)
  {
    if q.started {
      ReleasePoint(q, sent, 0);
    }
  }

  // A packet that waits alone at the release point leaves alone.
  lemma DrainSolo<T>(q: Queue<T>, h: Held<T>)
    requires q.held == map[q.next := h]
    ensures Drain(q) == q.(held := map[], next := q.next + 1, log := q.log + [Ordered(q.stats.resets, q.next, h.val)],
                           stats := q.stats.(delivered := q.stats.delivered + 1))
  {
    var r := Release(q, q.next).(next := q.next + 1);
    assert r.held == map[];
    assert Drain(r) == r;
    assert Drain(q) == Drain(r);
  }

  lemma DrainStuck<T>(q: Queue<T>)
    requires q.next !in q.held
    ensures Drain(q) == q
  {
  }

  lemma FirstLeaves<T>(w: U32, val: T)
    ensures var q := Push(Empty<T>(), w, val, 0);
            && q.started && q.next == w + 1 && q.held == map[] && q.log == [Ordered(0, w, val)]
            && q.stats.resets == 0 && q.hold == DEFAULT_HOLD
  {
    hide Drain;
    var s := Start(Empty<T>(), w);
    DrainSolo(Insert(s, w, val, 0), Held(0, val));
  }

  // A packet just ahead of an empty buffer waits, and leaves in order once it expires.
  lemma WaitsThenLeaves<T>(q: Queue<T>, w: U32, val: T)
    requires q.started && q.held == map[] && q.hold == DEFAULT_HOLD && Position(q.next, w) == q.next + 2
    ensures Expire(Push(q, w, val, 0), DEFAULT_HOLD).log == q.log + [Ordered(q.stats.resets, q.next + 2, val)]
  {
    hide Drain, Position;
    var p := q.next + 2;
    var i := Insert(q.(farLate := 0), p, val, 0);
    DrainStuck(i);
    var r := Push(q, w, val, 0);
    assert r.held == map[p := Held(0, val)] && First(r.held) == p;
    DrainSolo(r.(stats := r.stats.(timedOut := r.stats.timedOut + 1), next := p), Held(0, val));
    assert SkipGap(r).held == map[];
    assert Expire(r, DEFAULT_HOLD) == SkipGap(r);
  }

  /**
   Beyond the condition order is lost before any number is reused. The first packet
   to arrive is number 2^32 - 2; a stale copy of packet 1 is then taken for one
   just ahead of the release point, waits, and is released in order behind it.
   */
  lemma StaleCopyOvertakes<T>(sent: seq<T>)
    requires |sent| == TWO_TO_32 - 1
    ensures var last := TWO_TO_32 - 2;
            var ops := [PushOp(last, sent[last - 1], 0), PushOp(1, sent[0], 0), TickOp(DEFAULT_HOLD)];
            && Run(Empty<T>(), ops).log == [Ordered(0, last, sent[last - 1]), Ordered(0, TWO_TO_32 + 1, sent[0])]
            && !Near(Push(Empty<T>(), last, sent[last - 1], 0).next, 1)
  {
    hide Push, Expire;
    var last := TWO_TO_32 - 2;
    var ops := [PushOp(last, sent[last - 1], 0), PushOp(1, sent[0], 0), TickOp(DEFAULT_HOLD)];
    var q1 := Push(Empty<T>(), last, sent[last - 1], 0);
    FirstLeaves(last, sent[last - 1]);
    WaitsThenLeaves(q1, 1, sent[0]);
    var q2 := Push(q1, 1, sent[0], 0);
    assert ops[1..] == [ops[1], ops[2]] && ops[1..][1..] == [ops[2]] && [ops[2]][1..] == [];
    calc {
      Run(Empty<T>(), ops);
      Run(Step(Empty<T>(), ops[0]), ops[1..]);
      Run(Step(q1, ops[1]), [ops[2]]);
      Run(Step(q2, ops[2]), []);
      Expire(q2, DEFAULT_HOLD);
    }
  }
}
