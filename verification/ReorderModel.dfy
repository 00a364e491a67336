/**
 The resequencing buffer as an ordered map keyed by unwrapped positions.

 A 32-bit wire sequence number stands for the position closest to the release
 point; positions are mathematical integers and never wrap. The ring of
 `ReorderBuffer` is proved to simulate the functions of this module.
 */
module ReorderModel {
  import opened Words

  const SIZE := 8192
  const RESET_THRESHOLD := 16
  const MILLISECOND := 1_000_000
  const DEFAULT_HOLD := 75 * MILLISECOND

  /** A packet waiting for its turn. */
  datatype Held<T> = Held(arrival: int, val: T)

  /** What happened to one packet. `epoch` counts the resets that came before. */
  datatype Event<T> =
    | Ordered(epoch: nat, pos: int, val: T)
    | Late(pos: int, val: T)
    | Dropped(pos: int, val: T)

  datatype Stats = Stats(delivered: nat, duplicates: nat, late: nat,
                         timedOut: nat, overflows: nat, resets: nat)

  datatype Queue<T> = Queue(started: bool, next: int, held: map<int, Held<T>>,
                            hold: int, farLate: nat, armed: bool,
                            stats: Stats, log: seq<Event<T>>)

  function Empty<T>(): Queue<T> {
    Queue(false, 0, map[], DEFAULT_HOLD, 0, false, Stats(0, 0, 0, 0, 0, 0), [])
  }

  /** The position a wire sequence number denotes when `next` is the release point. */
  function Position(next: int, w: U32): int {
    next + Signed32(Wrap32(w - next))
  }

  // The signed 32-bit difference is the true distance between positions.
  lemma PositionDiff(next: int, w: U32)
    ensures Wrap32(Position(next, w)) == w
    ensures Signed32(Wrap32(w - Wrap32(next))) == Position(next, w) - next
  {
    WrapAdd(next, w);
  }

  /** The lowest waiting position. */
  ghost function First<T>(held: map<int, Held<T>>): (p: int)
    requires held != map[]
    ensures p in held && forall r :: r in held ==> p <= r
  {
    LowestExists(held.Keys);
    var p :| p in held && forall r :: r in held ==> p <= r;
    p
  }

  lemma {:induction false} LowestExists(s: set<int>)
    requires s != {}
    ensures exists p :: p in s && forall r :: r in s ==> p <= r
  {
    if forall x :: x !in s {
      assert false;
    }
    var x :| x in s;
    var rest := s - {x};
    if rest == {} {
      assert forall r :: r in s ==> r == x || r in rest;
    } else {
      LowestExists(rest);
      var p :| p in rest && forall r :: r in rest ==> p <= r;
      var low := if x < p then x else p;
      assert forall r :: r in s ==> r == x || r in rest;
      assert low in s;
    }
  }

  /** Hand the packet at `p` to the in-order output. */
  function Release<T>(q: Queue<T>, p: int): Queue<T>
    requires p in q.held
  {
    q.(held := q.held - {p},
       stats := q.stats.(delivered := q.stats.delivered + 1),
       log := q.log + [Ordered(q.stats.resets, p, q.held[p].val)])
  }

  /** Release the contiguous run that starts at the release point. */
  ghost function Drain<T>(q: Queue<T>): Queue<T>
    decreases |q.held|
  {
    if q.next in q.held then
      Shrinks(q.held, q.next);
      Drain(Release(q, q.next).(next := q.next + 1))
    else
      q
  }

  /** Release everything that waits, lowest position first. */
  ghost function Flush<T>(q: Queue<T>): Queue<T>
    decreases |q.held|
  {
    if q.held == map[] then q
    else
      Shrinks(q.held, First(q.held));
      Flush(Release(q, First(q.held)))
  }

  lemma Shrinks<T>(m: map<int, Held<T>>, p: int)
    requires p in m
    ensures |m - {p}| == |m| - 1
  {
    assert (m - {p}).Keys == m.Keys - {p};
    assert |m.Keys - {p}| == |m.Keys| - 1;
  }

  lemma {:induction false} DrainShrinks<T>(q: Queue<T>)
    ensures |Drain(q).held| <= |q.held|
    ensures q.next in q.held ==> |Drain(q).held| < |q.held|
    decreases |q.held|
  {
    if q.next in q.held {
      Shrinks(q.held, q.next);
      DrainShrinks(Release(q, q.next).(next := q.next + 1));
    }
  }

  /** Give up on the gap in front of the lowest waiting packet. */
  ghost function SkipGap<T>(q: Queue<T>): Queue<T>
    requires q.held != map[]
  {
    Drain(q.(stats := q.stats.(timedOut := q.stats.timedOut + 1), next := First(q.held)))
  }

  /** Skip gaps for as long as the lowest waiting packet has waited `hold`. */
  ghost function Expire<T>(q: Queue<T>, now: int): Queue<T>
    decreases |q.held|
  {
    if q.held == map[] || now - q.held[First(q.held)].arrival < q.hold then q
    else
      DrainShrinks(q.(stats := q.stats.(timedOut := q.stats.timedOut + 1), next := First(q.held)));
      Expire(SkipGap(q), now)
  }

  function Insert<T>(q: Queue<T>, p: int, val: T, now: int): Queue<T> {
    if p in q.held then
      q.(stats := q.stats.(duplicates := q.stats.duplicates + 1), log := q.log + [Dropped(p, val)])
    else
      q.(held := q.held[p := Held(now, val)])
  }

  function Arm<T>(q: Queue<T>): Queue<T> {
    if q.held == map[] then q else q.(armed := true)
  }

  ghost function Reset<T>(q: Queue<T>, p: int): Queue<T> {
    var f := Flush(q);
    f.(next := p, farLate := 0, stats := f.stats.(resets := f.stats.resets + 1))
  }

  /** The first packet ever pushed fixes the release point. */
  function Start<T>(q: Queue<T>, w: U32): Queue<T> {
    if q.started then q else q.(started := true, next := w)
  }

  predicate Far(next: int, p: int) {
    p < next - SIZE || next + 4 * SIZE < p
  }

  ghost function PushFar<T>(q: Queue<T>, p: int, val: T, now: int): Queue<T> {
    if q.farLate + 1 >= RESET_THRESHOLD then
      Drain(Insert(Reset(q.(farLate := q.farLate + 1), p), p, val, now))
    else
      q.(farLate := q.farLate + 1, stats := q.stats.(late := q.stats.late + 1),
         log := q.log + [Dropped(p, val)])
  }

  /** Window overrun: everything pending leaves and the release point jumps. */
  ghost function Jump<T>(q: Queue<T>, p: int): Queue<T> {
    Flush(q.(stats := q.stats.(overflows := q.stats.overflows + 1))).(next := p)
  }

  ghost function PushAt<T>(q: Queue<T>, p: int, val: T, now: int): Queue<T> {
    if Far(q.next, p) then
      PushFar(q, p, val, now)
    else if p < q.next then
      q.(stats := q.stats.(late := q.stats.late + 1), log := q.log + [Late(p, val)])
    else
      var r := if q.next + SIZE <= p then Jump(q, p) else q;
      Arm(Drain(Insert(r.(farLate := 0), p, val, now)))
  }

  ghost function Push<T>(q: Queue<T>, w: U32, val: T, now: int): Queue<T> {
    var s := Start(q, w);
    PushAt(s, Position(s.next, w), val, now)
  }

  function ClampHold(d: int): (r: int)
    ensures 2 * MILLISECOND <= r <= 250 * MILLISECOND
    ensures 2 * MILLISECOND <= d <= 250 * MILLISECOND ==> r == d
    ensures d < 2 * MILLISECOND ==> r == 2 * MILLISECOND
    ensures d > 250 * MILLISECOND ==> r == 250 * MILLISECOND
  {
    if d < 2 * MILLISECOND then 2 * MILLISECOND
    else if d > 250 * MILLISECOND then 250 * MILLISECOND
    else d
  }

  ghost function OnTimer<T>(q: Queue<T>, now: int): Queue<T> {
    Arm(Expire(q.(armed := false), now))
  }

  ghost function Close<T>(q: Queue<T>): Queue<T> {
    Flush(q.(armed := false))
  }

  /** The public operations; each runs under the buffer's lock. */
  datatype Op<T> =
    | PushOp(w: U32, val: T, now: int)
    | TickOp(now: int)
    | TimerOp(now: int)
    | HoldOp(d: int)

  ghost function Step<T>(q: Queue<T>, op: Op<T>): Queue<T> {
    match op
    case PushOp(w, val, now) => Push(q, w, val, now)
    case TickOp(now) => Expire(q, now)
    case TimerOp(now) => OnTimer(q, now)
    case HoldOp(d) => q.(hold := ClampHold(d))
  }

  ghost function Run<T>(q: Queue<T>, ops: seq<Op<T>>): Queue<T>
    decreases |ops|
  {
    if ops == [] then q else Run(Step(q, ops[0]), ops[1..])
  }
}
