/**
 Gap expiry in closed form, and resynchronisation after the peer restarts its
 sequence numbers.
 */
module ReorderExpiry {
  import opened Words
  import opened ReorderModel
  import opened ReorderRuns

  // ----- Expiry -----

  /** The first packet of a contiguous run. */
  ghost predicate Head<T>(q: Queue<T>, h: int) {
    h in q.held && h - 1 !in q.held
  }

  predicate Young<T>(q: Queue<T>, now: int, h: int)
    requires h in q.held
  {
    now - q.held[h].arrival < q.hold
  }

  /** A run whose head has not waited long enough starts at or before `p`. */
  ghost predicate Blocked<T>(q: Queue<T>, now: int, p: int) {
    exists h :: Head(q, h) && Young(q, now, h) && h <= p
  }

  // Skipping one gap removes exactly the run of the lowest packet.
  lemma SkipGapExact<T>(q: Queue<T>)
    requires Sound(q) && q.held != map[]
    ensures var f, r := First(q.held), SkipGap(q);
            && f < r.next && r.next !in q.held
            && (forall p :: f <= p < r.next ==> p in q.held)
            && r.held.Keys == (set p | p in q.held && r.next <= p)
            && (forall p :: p in r.held ==> r.held[p] == q.held[p])
            && r.hold == q.hold
  {
    var s := q.(stats := q.stats.(timedOut := q.stats.timedOut + 1), next := First(q.held));
    DrainExact(s);
    var ps := Consecutive(s.next, Drain(s).next - s.next);
    forall p
      ensures p in ps <==> s.next <= p < Drain(s).next
      ensures p in ps ==> p in q.held
    {
      if s.next <= p < Drain(s).next {
        assert ps[p - s.next] == p;
      }
    }
  }

  lemma SkipGapHeads<T>(q: Queue<T>, h: int)
    requires Sound(q) && q.held != map[]
    ensures Head(SkipGap(q), h) <==> Head(q, h) && h != First(q.held)
  {
    SkipGapExact(q);
  }

  lemma SkipGapBlocks<T>(q: Queue<T>, now: int, p: int)
    requires Sound(q) && q.held != map[] && !Young(q, now, First(q.held))
    ensures Blocked(SkipGap(q), now, p) <==> Blocked(q, now, p)
    ensures p in SkipGap(q).held <==> p in q.held && SkipGap(q).next <= p
    ensures p < SkipGap(q).next ==> !Blocked(q, now, p)
  {
    var r := SkipGap(q);
    SkipGapExact(q);
    forall h
      ensures Head(r, h) <==> Head(q, h) && h != First(q.held)
    {
      SkipGapHeads(q, h);
    }
    if Blocked(q, now, p) {
      var h :| Head(q, h) && Young(q, now, h) && h <= p;
      assert Head(r, h) && Young(r, now, h);
    }
    if Blocked(r, now, p) {
      var h :| Head(r, h) && Young(r, now, h) && h <= p;
      assert Head(q, h) && Young(q, now, h);
    }
  }

  /**
   Expiry in closed form: a waiting packet survives the pass exactly when some
   contiguous run at or below it has a head that is younger than the hold time.
   */
  lemma {:induction false} ExpireExact<T>(q: Queue<T>, now: int, p: int)
    requires Sound(q)
    ensures p in Expire(q, now).held <==> p in q.held && Blocked(q, now, p)
    decreases |q.held|
  {
    if q.held != map[] {
      if Young(q, now, First(q.held)) {
        assert Head(q, First(q.held));
      } else {
        SkipGapKeeps(q);
        SkipGapBlocks(q, now, p);
        ExpireExact(SkipGap(q), now, p);
      }
    }
  }

  /** A pass ends with an empty buffer or with a lowest packet that is still young. */
  lemma {:induction false} ExpireStops<T>(q: Queue<T>, now: int)
    requires Sound(q)
    ensures var r := Expire(q, now); r.held == map[] || Young(r, now, First(r.held))
    decreases |q.held|
  {
    if q.held != map[] && !Young(q, now, First(q.held)) {
      SkipGapKeeps(q);
      ExpireStops(SkipGap(q), now);
    }
  }

  /** Once every waiting packet has waited the hold time, a pass empties the buffer. */
  lemma ExpireEmpties<T>(q: Queue<T>, now: int)
    requires Sound(q) && forall p :: p in q.held ==> !Young(q, now, p)
    ensures Expire(q, now).held == map[]
  {
    forall p
      ensures p !in Expire(q, now).held
    {
      ExpireExact(q, now, p);
    }
  }

  /** The heads of the runs a pass releases. */
  ghost function ExpiredHeads<T>(q: Queue<T>, now: int): set<int> {
    set h | h in q.held && Head(q, h) && !Blocked(q, now, h)
  }

  lemma SkipGapExpired<T>(q: Queue<T>, now: int)
    requires Sound(q) && q.held != map[] && !Young(q, now, First(q.held))
    ensures First(q.held) !in ExpiredHeads(SkipGap(q), now)
    ensures ExpiredHeads(q, now) == ExpiredHeads(SkipGap(q), now) + {First(q.held)}
  {
    hide SkipGap, Blocked, Head, Sound;
    var f, r := First(q.held), SkipGap(q);
    FirstIsHead(q);
    SkipGapHeads(q, f);
    forall h
      ensures h in ExpiredHeads(q, now) <==> h in ExpiredHeads(r, now) || h == f
    {
      SkipGapHeads(q, h);
      SkipGapBlocks(q, now, h);
      HeadHeld(q, h);
      HeadHeld(r, h);
      FirstUnblocked(q, now);
    }
    assert ExpiredHeads(q, now) == ExpiredHeads(r, now) + {f};
  }

  lemma HeadHeld<T>(q: Queue<T>, h: int)
    ensures Head(q, h) ==> h in q.held
  {
  }

  lemma FirstIsHead<T>(q: Queue<T>)
    requires q.held != map[]
    ensures Head(q, First(q.held))
  {
  }

  lemma FirstUnblocked<T>(q: Queue<T>, now: int)
    requires q.held != map[] && !Young(q, now, First(q.held))
    ensures !Blocked(q, now, First(q.held))
  {
  }

  /** The timeout counter grows by one for every gap that is given up. */
  lemma {:induction false} TimeoutsCountGaps<T>(q: Queue<T>, now: int)
    requires Sound(q)
    ensures Expire(q, now).stats.timedOut == q.stats.timedOut + |ExpiredHeads(q, now)|
    decreases |q.held|
  {
    hide Sound, ExpiredHeads, SkipGap, Blocked;
    if q.held == map[] || Young(q, now, First(q.held)) {
      NoneExpired(q, now);
    } else {
      SkipGapKeeps(q);
      SkipGapExpired(q, now);
      SkipGapTimeout(q);
      TimeoutsCountGaps(SkipGap(q), now);
    }
  }

  lemma SkipGapTimeout<T>(q: Queue<T>)
    requires Sound(q) && q.held != map[]
    ensures SkipGap(q).stats.timedOut == q.stats.timedOut + 1
  {
    DrainExact(q.(stats := q.stats.(timedOut := q.stats.timedOut + 1), next := First(q.held)));
  }

  lemma NoneExpired<T>(q: Queue<T>, now: int)
    requires q.held == map[] || Young(q, now, First(q.held))
    ensures ExpiredHeads(q, now) == {}
  {
    forall h
      ensures h !in ExpiredHeads(q, now)
    {
      if h in q.held {
        FirstIsHead(q);
      }
    }
    var e := ExpiredHeads(q, now);
    assert e == {};
  }

  /** After a timer fires, the timer is armed again exactly when packets still wait. */
  lemma TimerRearms<T>(q: Queue<T>, now: int)
    ensures var r := OnTimer(q, now);
            r.armed <==> r.held != map[]
    ensures OnTimer(q, now) == Expire(q, now).(armed := OnTimer(q, now).armed)
  {
    ExpireIgnoresTimer(q, now, false);
  }

  // ----- The hold time is not a bound on waiting -----

  /** Packets 1, 5 and 3 arrive; 3 arrives 70 ms after 5 and fills no gap. */
  function LateFiller(): seq<Op<int>> {
    [PushOp(1, 1, 0), PushOp(5, 5, 0), PushOp(3, 3, 70 * MILLISECOND)]
  }

  /**
   The pass tests the lowest packet, not the one that has waited longest: after a
   full hold time packet 5 is still waiting, behind the younger packet 3.
   */
  lemma OldestMayOutwaitHold()
    ensures var q := Run(Empty<int>(), LateFiller());
            5 in q.held && !Young(q, DEFAULT_HOLD, 5) && 5 in Expire(q, DEFAULT_HOLD).held
  {
    hide Drain, Push, Expire, Increasing, Below, LastRelease, Tally;
    var e, ops := Empty<int>(), LateFiller();
    var q1, q2, q3 := LateFillerState();
    assert ops[1..] == [ops[1], ops[2]] && ops[1..][1..] == [ops[2]];
    calc {
      Run(e, ops);
      Run(Step(e, ops[0]), ops[1..]);
      Run(Step(q1, ops[1]), [ops[2]]);
      Run(Step(q2, ops[2]), []);
      q3;
    }
    assert Head(q3, 3) && Young(q3, DEFAULT_HOLD, 3);
    ExpireExact(q3, DEFAULT_HOLD, 5);
  }

  lemma LateFillerState() returns (q1: Queue<int>, q2: Queue<int>, q3: Queue<int>)
    ensures q1 == Push(Empty<int>(), 1, 1, 0)
    ensures q2 == Push(q1, 5, 5, 0)
    ensures q3 == Push(q2, 3, 3, 70 * MILLISECOND)
    ensures Sound(q3) && q3.hold == DEFAULT_HOLD
    ensures q3.held == map[5 := Held(0, 5), 3 := Held(70 * MILLISECOND, 3)]
  {
    hide Drain, Push, Insert, Increasing, Below, LastRelease, Tally;
    var e := Empty<int>();
    q1 := Push(e, 1, 1, 0);
    FirstPush(e, 1, 1, 0);
    q2 := Push(q1, 5, 5, 0);
    PushWaits(q1, 5, 5, 0);
    PushKeeps(q1, 5, 5, 0);
    q3 := Push(q2, 3, 3, 70 * MILLISECOND);
    PushWaits(q2, 3, 3, 70 * MILLISECOND);
    PushKeeps(q2, 3, 3, 70 * MILLISECOND);
  }

  lemma FirstPush<T>(q: Queue<T>, w: U32, val: T, now: int)
    requires Inv(q) && !q.started
    ensures var r := Push(q, w, val, now);
            Inv(r) && r.started && r.next == w + 1 && r.held == map[] && r.hold == q.hold
  {
    assert Position(w, w) == w;
    StartKeeps(q, w, val, now);
    var s := Start(q, w).(farLate := 0);
    InsertHead(s, val, now);
    DrainOrder(Insert(s, w, val, now));
  }

  // A new packet past the release point waits, and nothing is released.
  lemma PushWaits<T>(q: Queue<T>, w: U32, val: T, now: int)
    requires Inv(q) && q.started
    requires var p := Position(q.next, w); q.next < p < q.next + SIZE && p !in q.held
    ensures var p := Position(q.next, w);
            Push(q, w, val, now) == q.(farLate := 0, armed := true, held := q.held[p := Held(now, val)])
  {
    DrainOrder(q.(farLate := 0, held := q.held[Position(q.next, w) := Held(now, val)]));
  }

  // ----- Peer restart -----

  /** Every operation pushes a packet behind the release point or far from it. */
  ghost predicate Straggling<T>(q: Queue<T>, ops: seq<Op<T>>)
    decreases |ops|
  {
    ops == [] ||
    (&& ops[0].PushOp?
     && (var p := Position(q.next, ops[0].w); p < q.next || Far(q.next, p))
     && Straggling(Step(q, ops[0]), ops[1..]))
  }

  ghost function FarCount<T>(next: int, ops: seq<Op<T>>): nat {
    if ops == [] then 0
    else (if ops[0].PushOp? && Far(next, Position(next, ops[0].w)) then 1 else 0) + FarCount(next, ops[1..])
  }

  function Drops<T>(log: seq<Event<T>>): nat {
    if log == [] then 0 else Drops(log[..|log| - 1]) + (if log[|log| - 1].Dropped? then 1 else 0)
  }

  /** Below the threshold, far packets are dropped and counted and nothing moves. */
  lemma {:induction false} FarPacketsCount<T>(q: Queue<T>, ops: seq<Op<T>>)
    requires Inv(q) && q.started && Straggling(q, ops)
    requires q.farLate + FarCount(q.next, ops) < RESET_THRESHOLD
    ensures var r := Run(q, ops);
            && Inv(r) && r.started && r.next == q.next && r.held == q.held
            && r.stats.resets == q.stats.resets
            && r.farLate == q.farLate + FarCount(q.next, ops)
            && |r.log| == |q.log| + |ops|
            && Drops(r.log) == Drops(q.log) + FarCount(q.next, ops)
    decreases |ops|
  {
    if ops != [] {
      var s := Step(q, ops[0]);
      StepKeeps(q, ops[0]);
      assert s.log[..|q.log|] == q.log;
      FarPacketsCount(s, ops[1..]);
    }
  }

  /**
   Peer restart: whatever near stragglers come between them, the far packet that
   brings the count to sixteen (so after at most fifteen drops) releases all that
   waits, in order, and then itself, and the stream continues behind it.
   */
  lemma PeerRestart<T>(q: Queue<T>, ops: seq<Op<T>>, s: Queue<T>, w: U32, p: int, val: T, now: int)
    requires Inv(q) && q.started && Straggling(q, ops) && s == Run(q, ops)
    requires q.farLate + FarCount(q.next, ops) == RESET_THRESHOLD - 1
    requires p == Position(q.next, w) && Far(q.next, p)
    ensures Drops(s.log) - Drops(q.log) <= 15
    ensures Lowest(q.held, SortedKeys(q.held)) && forall r :: r in q.held ==> r in SortedKeys(q.held)
    ensures var r := Push(s, w, val, now);
            && r.log == s.log + Released(q, SortedKeys(q.held)) + [Ordered(q.stats.resets + 1, p, val)]
            && r.held == map[] && r.next == p + 1
            && r.farLate == 0 && r.stats.resets == q.stats.resets + 1
  {
    hide Run, Straggling, FarCount, Position;
    FarPacketsCount(q, ops);
    var f := s.(farLate := s.farLate + 1);
    FlushExact(f);
    FlushExact(q);
    FlushOrder(f);
    InsertHead(Reset(f, p), val, now);
    assert Released(f, SortedKeys(q.held)) == Released(q, SortedKeys(q.held));
  }

  /** Packets inside or just ahead of the window clear the count; stragglers keep it. */
  lemma FarCountReset<T>(q: Queue<T>, w: U32, val: T, now: int)
    requires Inv(q) && q.started
    ensures var p := Position(q.next, w);
            var r := Push(q, w, val, now);
            && (q.next <= p <= q.next + 4 * SIZE ==> r.farLate == 0)
            && (q.next - SIZE <= p < q.next ==> r.farLate == q.farLate && r.log == q.log + [Late(p, val)])
  {
    hide Drain, Flush, Position, Below, Increasing, LastRelease;
    var p := Position(q.next, w);
    if q.next + SIZE <= p <= q.next + 4 * SIZE {
      FlushOrder(q.(stats := q.stats.(overflows := q.stats.overflows + 1)));
      DrainExact(Insert(Jump(q, p).(farLate := 0), p, val, now));
    } else if q.next <= p < q.next + SIZE {
      DrainExact(Insert(q.(farLate := 0), p, val, now));
    }
  }

  // ----- Pushing in closed form -----

  /** The packet at the release point leaves with the contiguous run behind it. */
  lemma PushReleasesRun<T>(q: Queue<T>, w: U32, val: T, now: int)
    requires Inv(q) && q.started && Position(q.next, w) == q.next
    ensures q.next < Push(q, w, val, now).next
    ensures var r := Push(q, w, val, now);
            var ps := Consecutive(q.next, r.next - q.next);
            var full := q.(held := q.held[q.next := Held(now, val)]);
            && r.next !in q.held
            && Lowest(full.held, ps)
            && r.log == q.log + Released(full, ps) && r.held == Without(full.held, ps)
            && r.farLate == 0
  {
    var full := q.(farLate := 0, held := q.held[q.next := Held(now, val)]);
    DrainExact(full);
  }

  /** A window overrun releases all that waits, in order, then the packet itself. */
  lemma PushOverruns<T>(q: Queue<T>, w: U32, val: T, now: int)
    requires Inv(q) && q.started
    requires var p := Position(q.next, w); q.next + SIZE <= p <= q.next + 4 * SIZE
    ensures Lowest(q.held, SortedKeys(q.held)) && forall p :: p in q.held ==> p in SortedKeys(q.held)
    ensures var p := Position(q.next, w);
            var r := Push(q, w, val, now);
            && r.log == q.log + Released(q, SortedKeys(q.held)) + [Ordered(q.stats.resets, p, val)]
            && r.held == map[] && r.next == p + 1 && r.farLate == 0
            && r.stats.overflows == q.stats.overflows + 1 && r.stats.resets == q.stats.resets
  {
    hide Drain, Position;
    var p := Position(q.next, w);
    var o := q.(stats := q.stats.(overflows := q.stats.overflows + 1));
    FlushExact(o);
    FlushExact(q);
    FlushOrder(o);
    var j := Jump(q, p).(farLate := 0);
    InsertHead(j, val, now);
    DrainExact(Insert(j, p, val, now));
    assert Released(o, SortedKeys(q.held)) == Released(q, SortedKeys(q.held));
  }
}
