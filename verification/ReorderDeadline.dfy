/**
 How long a packet can wait: expiry tests the lowest waiting packet, so the time
 counts from the last arrival at or below the packet, not from its own.
 */
module ReorderDeadline {
  import opened Words
  import opened ReorderModel
  import opened ReorderRuns
  import opened ReorderExpiry

  /** Everything that waits at or below `p` arrived by `last`. */
  ghost predicate SettledBelow<T>(q: Queue<T>, p: int, last: int) {
    forall x :: x in q.held && x <= p ==> q.held[x].arrival <= last
  }

  /** Nothing waits at or below `p`. */
  ghost predicate ClearUpTo<T>(q: Queue<T>, p: int) {
    forall x :: x in q.held ==> p < x
  }

  /** Nothing waits in `r` that did not wait in `q`. */
  ghost predicate Fewer<T>(q: Queue<T>, r: Queue<T>) {
    forall x :: x in r.held ==> x in q.held && r.held[x] == q.held[x]
  }

  lemma DrainFewer<T>(q: Queue<T>)
    requires InWindow(q)
    ensures Fewer(q, Drain(q))
  {
    hide Drain;
    DrainExact(q);
  }

  lemma {:induction false} ExpireFewer<T>(q: Queue<T>, now: int)
    requires Sound(q)
    ensures Fewer(q, Expire(q, now)) && Expire(q, now).hold == q.hold
    decreases |q.held|
  {
    hide SkipGap;
    if q.held != map[] && now - q.held[First(q.held)].arrival >= q.hold {
      SkipGapExact(q);
      SkipGapKeeps(q);
      ExpireFewer(SkipGap(q), now);
    }
  }

  // After a push only the packet itself is new.
  lemma PushFewer<T>(q: Queue<T>, w: U32, val: T, now: int)
    requires Inv(q)
    ensures var r, at := Push(q, w, val, now), Position(Start(q, w).next, w);
            && r.hold == q.hold
            && forall x :: x in r.held ==>
                 (x == at && r.held[x] == Held(now, val)) || (x in q.held && r.held[x] == q.held[x])
  {
    hide Drain, Flush, Position, Increasing, LastRelease, Below, Tally;
    var s := Start(q, w);
    var p := Position(s.next, w);
    if Far(s.next, p) {
      var f := s.(farLate := s.farLate + 1);
      FlushExact(f);
      AcceptFewer(Reset(f, p), p, val, now);
    } else if p >= s.next + SIZE {
      FlushExact(s.(stats := s.stats.(overflows := s.stats.overflows + 1)));
      AcceptFewer(Jump(s, p).(farLate := 0), p, val, now);
    } else if p >= s.next {
      AcceptFewer(s.(farLate := 0), p, val, now);
    }
  }

  lemma AcceptFewer<T>(q: Queue<T>, p: int, val: T, now: int)
    requires InWindow(q) && q.next <= p < q.next + SIZE
    ensures Fewer(Insert(q, p, val, now), Drain(Insert(q, p, val, now)))
    ensures Drain(Insert(q, p, val, now)).hold == q.hold
  {
    hide Drain;
    DrainFewer(Insert(q, p, val, now));
    DrainExact(Insert(q, p, val, now));
  }

  /** After `last` nothing arrives at or below `p`; the hold time is not changed. */
  ghost predicate Spared<T>(q: Queue<T>, op: Op<T>, p: int, last: int) {
    match op
    case PushOp(w, val, now) => now <= last || Position(Start(q, w).next, w) > p
    case HoldOp(_) => false
    case _ => true
  }

  ghost predicate SparedRun<T>(q: Queue<T>, ops: seq<Op<T>>, p: int, last: int)
    decreases |ops|
  {
    ops == [] || (Spared(q, ops[0], p, last) && SparedRun(Step(q, ops[0]), ops[1..], p, last))
  }

  lemma {:induction false} RunSettled<T>(q: Queue<T>, ops: seq<Op<T>>, p: int, last: int)
    requires Inv(q) && SettledBelow(q, p, last) && SparedRun(q, ops, p, last)
    ensures var r := Run(q, ops); Inv(r) && SettledBelow(r, p, last) && r.hold == q.hold
    decreases |ops|
  {
    hide Push, Expire, Position, Inv;
    if ops != [] {
      StepKeeps(q, ops[0]);
      match ops[0] {
        case PushOp(w, val, now) => PushFewer(q, w, val, now);
        case TickOp(now) => QuietFewer(q, now);
        case TimerOp(now) => QuietFewer(q, now);
        case HoldOp(_) =>
      }
      RunSettled(Step(q, ops[0]), ops[1..], p, last);
    }
  }

  lemma QuietFewer<T>(q: Queue<T>, now: int)
    requires Inv(q)
    ensures Fewer(q, Expire(q, now)) && Expire(q, now).hold == q.hold
    ensures OnTimer(q, now).held == Expire(q, now).held && OnTimer(q, now).hold == q.hold
  {
    hide Expire;
    ExpireFewer(q, now);
    ExpireIgnoresTimer(q, now, false);
  }

  /** The first pass a hold time after the last arrival at or below `p` releases everything up to `p`. */
  lemma OutAfterHold<T>(q: Queue<T>, ops: seq<Op<T>>, p: int, last: int, now: int)
    requires Inv(q) && SettledBelow(q, p, last) && SparedRun(q, ops, p, last) && now - last >= q.hold
    ensures var r := Run(q, ops);
            ClearUpTo(Expire(r, now), p) && ClearUpTo(OnTimer(r, now), p)
  {
    hide Run, SparedRun, Expire;
    RunSettled(q, ops, p, last);
    var r := Run(q, ops);
    QuietFewer(r, now);
    forall x | x <= p
      ensures x !in Expire(r, now).held
    {
      ExpireExact(r, now, x);
    }
  }

  // ----- With a timer that fires at least every hold time -----

  /** Operations followed by the timer firing at `at`. */
  datatype Round<T> = Round(ops: seq<Op<T>>, at: int)

  ghost function AfterRounds<T>(q: Queue<T>, rounds: seq<Round<T>>): Queue<T>
    decreases |rounds|
  {
    if rounds == [] then q else AfterRounds(OnTimer(Run(q, rounds[0].ops), rounds[0].at), rounds[1..])
  }

  /** The timer first fires within `d` of `since`, and then at least every `d`. */
  predicate Cadence<T>(since: int, rounds: seq<Round<T>>, d: int)
    decreases |rounds|
  {
    rounds == [] || (rounds[0].at - since <= d && Cadence(rounds[0].at, rounds[1..], d))
  }

  ghost predicate SparedRounds<T>(q: Queue<T>, rounds: seq<Round<T>>, p: int, last: int)
    decreases |rounds|
  {
    rounds == [] ||
    (&& SparedRun(q, rounds[0].ops, p, last)
     && SparedRounds(OnTimer(Run(q, rounds[0].ops), rounds[0].at), rounds[1..], p, last))
  }

  /**
   When the timer fires at least every hold time, a packet is out within twice the
   hold time of the last arrival at or below it.
   */
  lemma {:induction false} OutByTwiceHold<T>(q: Queue<T>, rounds: seq<Round<T>>, p: int, last: int, since: int)
    requires Inv(q) && SettledBelow(q, p, last) && SparedRounds(q, rounds, p, last)
    requires Cadence(since, rounds, q.hold) && since <= last + q.hold
    requires rounds != [] && rounds[|rounds| - 1].at >= last + q.hold
    ensures exists i :: 0 <= i < |rounds| && rounds[i].at <= last + 2 * q.hold
                        && ClearUpTo(AfterRounds(q, rounds[..i + 1]), p)
    decreases |rounds|
  {
    hide Inv, SparedRun, OnTimer, Run, Expire;
    var r := Run(q, rounds[0].ops);
    var t := OnTimer(r, rounds[0].at);
    if rounds[0].at >= last + q.hold {
      OutAfterHold(q, rounds[0].ops, p, last, rounds[0].at);
      assert rounds[..1] == [rounds[0]] && rounds[..1][1..] == [];
      assert AfterRounds(q, rounds[..1]) == AfterRounds(t, []) == t;
      assert rounds[..0 + 1] == rounds[..1];
    } else {
      RunSettled(q, rounds[0].ops, p, last);
      QuietFewer(r, rounds[0].at);
      TimerKeeps(r, rounds[0].at);
      var rest := rounds[1..];
      OutByTwiceHold(t, rest, p, last, rounds[0].at);
      var i :| 0 <= i < |rest| && rest[i].at <= last + 2 * q.hold
               && ClearUpTo(AfterRounds(t, rest[..i + 1]), p);
      assert rounds[..i + 2][1..] == rest[..i + 1];
      assert AfterRounds(q, rounds[..i + 2]) == AfterRounds(t, rest[..i + 1]);
      assert rounds[i + 1] == rest[i];
    }
  }

  lemma TimerKeeps<T>(q: Queue<T>, now: int)
    requires Inv(q)
    ensures Inv(OnTimer(q, now))
  {
    hide OnTimer, Inv;
    StepKeeps(q, TimerOp(now));
  }

  // ----- The hold time that was set -----

  /** What `SetHold(d)` makes the hold time: `d`, but at least 2 ms and at most 250 ms. */
  function Effective(d: int): int {
    if d < 2_000_000 then 2_000_000 else if d > 250_000_000 then 250_000_000 else d
  }

  ghost predicate NoHold<T>(ops: seq<Op<T>>) {
    forall i :: 0 <= i < |ops| ==> !ops[i].HoldOp?
  }

  lemma {:induction false} RunHold<T>(q: Queue<T>, ops: seq<Op<T>>)
    requires Inv(q) && NoHold(ops)
    ensures Run(q, ops).hold == q.hold && Inv(Run(q, ops))
    decreases |ops|
  {
    hide Push, Expire, Inv;
    if ops != [] {
      StepKeeps(q, ops[0]);
      match ops[0] {
        case PushOp(w, val, now) => PushFewer(q, w, val, now);
        case TickOp(now) => QuietFewer(q, now);
        case TimerOp(now) => QuietFewer(q, now);
      }
      RunHold(Step(q, ops[0]), ops[1..]);
    }
  }

  // A pass leaves the lowest waiting packet exactly when it is younger than the hold time.
  lemma LowestStays<T>(q: Queue<T>, now: int)
    requires Sound(q) && q.held != map[]
    ensures First(q.held) in Expire(q, now).held <==> now - q.held[First(q.held)].arrival < q.hold
  {
    hide Expire;
    var f := First(q.held);
    ExpireExact(q, now, f);
    FirstIsHead(q);
    if !Young(q, now, f) {
      FirstUnblocked(q, now);
    }
  }

  /**
   The hold time in force is the one set last: after `SetHold(d)` and any operations, a
   pass at `now` leaves the lowest waiting packet in place exactly when it arrived less
   than `d` before, where 2 ms and 250 ms stand for values beyond them.
   */
  lemma SetHoldRules<T>(q: Queue<T>, d: int, ops: seq<Op<T>>, now: int)
    requires Inv(q) && NoHold(ops)
    ensures var r := Run(Step(q, HoldOp(d)), ops);
            r.held != map[] ==>
              (First(r.held) in Expire(r, now).held <==> now - r.held[First(r.held)].arrival < Effective(d))
  {
    hide Run, Expire;
    var s := Step(q, HoldOp(d));
    StepKeeps(q, HoldOp(d));
    RunHold(s, ops);
    var r := Run(s, ops);
    if r.held != map[] {
      LowestStays(r, now);
    }
  }

  /** Setting the hold time does nothing else: the packets and everything handed out stay. */
  lemma SetHoldOnly<T>(q: Queue<T>, d: int)
    ensures Step(q, HoldOp(d)) == q.(hold := Effective(d))
  {
  }

  /** Before it is ever set, the hold time is 75 ms. */
  lemma DefaultHoldRules<T>(ops: seq<Op<T>>, now: int)
    requires NoHold(ops)
    ensures var r := Run(Empty<T>(), ops);
            r.held != map[] ==>
              (First(r.held) in Expire(r, now).held <==> now - r.held[First(r.held)].arrival < 75_000_000)
  {
    hide Run, Expire;
    RunHold(Empty<T>(), ops);
    var r := Run(Empty<T>(), ops);
    if r.held != map[] {
      LowestStays(r, now);
    }
  }
}
