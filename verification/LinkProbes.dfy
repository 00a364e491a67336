/**
 Liveness of one path: probes, their acknowledgements, the RTT estimate and the
 UP/DOWN state. Probes are numbered 1, 2, 3, ... without wrapping in the model;
 the 32-bit sequence numbers of the link are proved to identify them.
 */
module LinkProbes {
  import opened Words

  const MILLISECOND := 1_000_000
  const PROBE_INTERVAL := 100 * MILLISECOND
  const MIN_RTO := 3 * PROBE_INTERVAL
  const MAX_RTO := 2_000 * MILLISECOND
  const PROBE_ACK_UP := 3
  const MAX_OUTSTANDING := 32
  const MIN_LOSS_FACTOR := 0.05
  /** The share a path that went down starts again with. */
  const RESTART_FACTOR := MIN_LOSS_FACTOR * 4.0

  /**
   `sent` probes have left. The last `|waiting|` of them are unanswered, `waiting`
   holds their send times. `acked` lists the probes acknowledged since the path
   last went down, which was when `downMark` probes had been sent.
   */
  datatype Link = Link(up: bool, sent: nat, waiting: seq<int>, acked: seq<int>, downMark: nat,
                       hasRtt: bool, srtt: int, rttvar: int)

  function NewLink(): Link {
    Link(false, 0, [], [], 0, false, 0, 0)
  }

  /** How old an unanswered probe may get. */
  function Rto(l: Link): (r: int)
    ensures MIN_RTO <= r <= MAX_RTO
  {
    var r := l.srtt + 4 * l.rttvar;
    if r < MIN_RTO then MIN_RTO else if r > MAX_RTO then MAX_RTO else r
  }

  function GoDown(l: Link): Link {
    l.(up := false, acked := [], waiting := [], downMark := l.sent)
  }

  predicate Expired(l: Link, now: int) {
    l.waiting != [] && l.up && now - l.waiting[0] > Rto(l)
  }

  function Trim(w: seq<int>): seq<int> {
    if |w| > MAX_OUTSTANDING then w[|w| - MAX_OUTSTANDING..] else w
  }

  function Send(l: Link, now: int): Link {
    var d := if Expired(l, now) then GoDown(l) else l;
    d.(sent := d.sent + 1, waiting := Trim(d.waiting + [now]))
  }

  /** The number of the `i`-th unanswered probe. */
  function Number(l: Link, i: int): int {
    l.sent - |l.waiting| + 1 + i
  }

  /** RTT smoothing of section 2 of RFC 6298, in integer arithmetic. */
  function Measure(l: Link, rtt: int): Link {
    if rtt <= 0 then l
    else if !l.hasRtt then l.(hasRtt := true, srtt := rtt, rttvar := rtt / 2)
    else
      var dev := if l.srtt < rtt then rtt - l.srtt else l.srtt - rtt;
      l.(rttvar := (3 * l.rttvar + dev) / 4, srtt := (7 * l.srtt + rtt) / 8)
  }

  /** The `i`-th unanswered probe is acknowledged; older ones are forgotten. */
  function Accept(l: Link, i: nat, rtt: int): Link
    requires i < |l.waiting|
  {
    var m := Measure(l.(waiting := l.waiting[i + 1..], acked := l.acked + [Number(l, i)]), rtt);
    m.(up := m.up || |m.acked| >= PROBE_ACK_UP)
  }

  /** An acknowledgement with wire number `w` answers a waiting probe or nothing. */
  predicate Answers(l: Link, w: U32, i: int) {
    0 <= i < |l.waiting| && Wrap32(Number(l, i)) == w
  }

  // At most 32 probes wait, so their 32-bit numbers differ.
  lemma AnswersUnique(l: Link, w: U32, i: int, j: int)
    requires |l.waiting| <= MAX_OUTSTANDING && Answers(l, w, i) && Answers(l, w, j)
    ensures i == j
  {
  }

  // ----- The link itself -----

  datatype Probe = Probe(seqNo: U32, at: int)

  class PathLink {
    var up: bool
    var srtt: int
    var rttvar: int
    var hasRtt: bool
    var consecAcked: nat
    var lastProbeSeq: U32
    var outstanding: seq<Probe>
    var lossFactor: real
    ghost var l: Link

    ghost predicate Valid()
      reads this
    {
      && up == l.up && srtt == l.srtt && rttvar == l.rttvar && hasRtt == l.hasRtt
      && consecAcked == |l.acked|
      && lastProbeSeq == Wrap32(l.sent)
      && |outstanding| <= MAX_OUTSTANDING
      && Tracks()
      && (l.up <==> |l.acked| >= PROBE_ACK_UP)
    }

    /** The list of outstanding probes is the tail of the numbered probes. */
    ghost predicate Tracks()
      reads this
    {
      && |outstanding| == |l.waiting|
      && (forall i :: 0 <= i < |outstanding| ==>
            outstanding[i] == Probe(Wrap32(Number(l, i)), l.waiting[i]))
    }

    constructor ()
      ensures Valid() && l == NewLink() && lossFactor == 1.0
    {
      up, srtt, rttvar, hasRtt, consecAcked, lastProbeSeq, outstanding := false, 0, 0, false, 0, 0, [];
      lossFactor := 1.0;
      l := NewLink();
    }

    method ProbeRTO() returns (rto: int)
      requires Valid()
      ensures rto == Rto(l) && 300_000_000 <= rto <= 2_000_000_000
      ensures 300_000_000 <= srtt + 4 * rttvar <= 2_000_000_000 ==> rto == srtt + 4 * rttvar
      ensures rto == 300_000_000 || rto == 2_000_000_000 || rto == srtt + 4 * rttvar
    {
      rto := srtt + 4 * rttvar;
      if rto < 3 * PROBE_INTERVAL {
        rto := 3 * PROBE_INTERVAL;
      }
      if rto > MAX_RTO {
        rto := MAX_RTO;
      }
    }

    method OnProbeSent(now: int) returns (w: U32, wentDown: bool)
      requires Valid()
      modifies this
      ensures Valid() && l == Send(old(l), now)
      ensures w == Wrap32(l.sent) && wentDown == Expired(old(l), now)
      ensures lossFactor == if wentDown then RESTART_FACTOR else old(lossFactor)
    {
      hide Wrap32;
      wentDown := false;
      if |outstanding| > 0 && up {
        var rto := ProbeRTO();
        if now - outstanding[0].at > rto {
          GoDownLocked();
          wentDown := true;
        }
      }
      RecordLocked(now);
      w := lastProbeSeq;
    }

    method RecordLocked(now: int)
      requires Valid()
      modifies this`lastProbeSeq, this`outstanding, this`l
      ensures Valid() && l == old(l).(sent := old(l).sent + 1, waiting := Trim(old(l).waiting + [now]))
    {
      hide Wrap32;
      WrapAdd(l.sent, 1);
      lastProbeSeq := Wrap32(lastProbeSeq + 1);
      outstanding := outstanding + [Probe(lastProbeSeq, now)];
      l := l.(sent := l.sent + 1, waiting := l.waiting + [now]);
      assert Tracks();
      TrimLocked();
    }

    method TrimLocked()
      requires Tracks()
      modifies this`outstanding, this`l
      ensures Tracks() && l == old(l).(waiting := Trim(old(l).waiting))
    {
      hide Wrap32;
      if |outstanding| > MAX_OUTSTANDING {
        ghost var k := |outstanding| - MAX_OUTSTANDING;
        outstanding := outstanding[|outstanding| - MAX_OUTSTANDING..];
        l := l.(waiting := l.waiting[k..]);
      }
    }

    method OnProbeAck(w: U32, rtt: int) returns (cameUp: bool)
      requires Valid()
      modifies this
      ensures Valid()
      ensures forall i: nat :: Answers(old(l), w, i) ==> l == Accept(old(l), i, rtt)
      ensures (forall i: nat :: !Answers(old(l), w, i)) ==> l == old(l)
      ensures cameUp == (l.up && !old(l.up)) && lossFactor == old(lossFactor)
    {
      hide Wrap32;
      var known, i := FindProbe(w);
      if !known {
        return false;
      }
      forall j: nat | Answers(l, w, j)
        ensures j == i
      {
        AnswersUnique(l, w, i, j);
      }
      ghost var n := Number(l, i);
      outstanding := outstanding[i + 1..];
      consecAcked := consecAcked + 1;
      if rtt > 0 {
        if !hasRtt {
          srtt, rttvar, hasRtt := rtt, rtt / 2, true;
        } else {
          var dev := srtt - rtt;
          if dev < 0 {
            dev := -dev;
          }
          rttvar := (3 * rttvar + dev) / 4;
          srtt := (7 * srtt + rtt) / 8;
        }
      }
      cameUp := !up && consecAcked >= PROBE_ACK_UP;
      if cameUp {
        up := true;
      }
      l := Accept(l, i, rtt);
    }

    method FindProbe(w: U32) returns (known: bool, i: nat)
      requires Valid()
      ensures known ==> Answers(l, w, i)
      ensures !known ==> forall j: nat :: !Answers(l, w, j)
    {
      i := 0;
      while i < |outstanding|
        invariant i <= |outstanding|
        invariant forall j: nat :: j < i ==> !Answers(l, w, j)
      {
        if outstanding[i].seqNo == w {
          return true, i;
        }
        i := i + 1;
      }
      known := false;
    }

    method MarkDown()
      requires Valid()
      modifies this
      ensures Valid() && l == GoDown(old(l)) && lossFactor == RESTART_FACTOR
    {
      GoDownLocked();
    }

    method GoDownLocked()
      requires Valid()
      modifies this`up, this`consecAcked, this`outstanding, this`lossFactor, this`l
      ensures Valid() && l == GoDown(old(l)) && lossFactor == RESTART_FACTOR
    {
      up, consecAcked, outstanding := false, 0, [];
      lossFactor := RESTART_FACTOR;
      l := GoDown(l);
    }
  }

  // ----- Invariants over runs -----

  ghost predicate Inv(l: Link) {
    && |l.waiting| <= MAX_OUTSTANDING
    && l.downMark <= l.sent - |l.waiting|
    && (forall i :: 0 <= i < |l.acked| ==> l.downMark < l.acked[i] <= l.sent - |l.waiting|)
    && (forall i, j :: 0 <= i < j < |l.acked| ==> l.acked[i] < l.acked[j])
    && (l.up <==> |l.acked| >= PROBE_ACK_UP)
  }

  datatype Op = SendOp(now: int) | AckOp(i: nat, rtt: int) | DownOp

  /** An acknowledgement that answers nothing (`i` out of range) is ignored. */
  function Step(l: Link, op: Op): Link {
    match op
    case SendOp(now) => Send(l, now)
    case AckOp(i, rtt) => if i < |l.waiting| then Accept(l, i, rtt) else l
    case DownOp => GoDown(l)
  }

  function Run(l: Link, ops: seq<Op>): Link
    decreases |ops|
  {
    if ops == [] then l else Run(Step(l, ops[0]), ops[1..])
  }

  lemma AcceptKeeps(l: Link, i: nat, rtt: int)
    requires Inv(l) && i < |l.waiting|
    ensures Inv(Accept(l, i, rtt))
  {
  }

  lemma StepKeeps(l: Link, op: Op)
    requires Inv(l)
    ensures Inv(Step(l, op))
  {
    hide Accept;
    if op.AckOp? && op.i < |l.waiting| {
      AcceptKeeps(l, op.i, op.rtt);
    }
  }

  lemma {:induction false} RunKeeps(l: Link, ops: seq<Op>)
    requires Inv(l)
    ensures Inv(Run(l, ops))
    decreases |ops|
  {
    if ops != [] {
      StepKeeps(l, ops[0]);
      RunKeeps(Step(l, ops[0]), ops[1..]);
    }
  }

  /**
   Over every run of a new link: the path is UP exactly when at least three distinct
   probes, all sent since it last went down, were acknowledged in the order they
   were sent.
   */
  lemma UpNeedsThreeAcks(ops: seq<Op>)
    ensures var l := Run(NewLink(), ops);
            && Inv(l)
            && (l.up <==> |l.acked| >= 3)
            && (forall i :: 0 <= i < |l.acked| ==> l.downMark < l.acked[i] <= l.sent)
            && (forall i, j :: 0 <= i < j < |l.acked| ==> l.acked[i] < l.acked[j])
  {
    RunKeeps(NewLink(), ops);
  }

  lemma {:induction false} RunSplit(l: Link, a: seq<Op>, b: seq<Op>)
    ensures Run(l, a + b) == Run(Run(l, a), b)
    decreases |a|
  {
    if a == [] {
      assert a + b == b;
    } else {
      assert (a + b)[1..] == a[1..] + b;
      RunSplit(Step(l, a[0]), a[1..], b);
    }
  }

  function Sends(ts: seq<int>): seq<Op> {
    seq(|ts|, i requires 0 <= i < |ts| => SendOp(ts[i]))
  }

  // While the path is down probes only pile up.
  lemma {:induction false} SendsWhileDown(l: Link, ts: seq<int>)
    requires !l.up && |l.waiting| + |ts| <= MAX_OUTSTANDING
    ensures Run(l, Sends(ts)) == l.(sent := l.sent + |ts|, waiting := l.waiting + ts)
    decreases |ts|
  {
    if ts == [] {
      assert l.waiting + ts == l.waiting;
    } else {
      assert Sends(ts)[1..] == Sends(ts[1..]);
      SendsWhileDown(Send(l, ts[0]), ts[1..]);
      assert l.waiting + [ts[0]] + ts[1..] == l.waiting + ts;
    }
  }

  lemma RunThree(l: Link, a: Op, b: Op, c: Op)
    ensures Run(l, [a, b, c]) == Step(Step(Step(l, a), b), c)
  {
    hide Step;
    assert [a, b, c][1..] == [b, c] && [b, c][1..] == [c] && [c][1..] == [];
    calc {
      Run(l, [a, b, c]);
      Run(Step(l, a), [b, c]);
      Run(Step(Step(l, a), b), [c]);
      Run(Step(Step(Step(l, a), b), c), []);
    }
  }

  /**
   The three acknowledgements need not be consecutive: of five probes numbers 1, 3
   and 5 are answered, 2 and 4 are lost, and the path comes up.
   */
  lemma UpDespiteLosses(rtt: int)
    ensures var probes := Sends([0, PROBE_INTERVAL, 2 * PROBE_INTERVAL, 3 * PROBE_INTERVAL, 4 * PROBE_INTERVAL]);
            var l := Run(NewLink(), probes + [AckOp(0, rtt), AckOp(1, rtt), AckOp(1, rtt)]);
            l.up && l.acked == [1, 3, 5]
  {
    var ts := [0, PROBE_INTERVAL, 2 * PROBE_INTERVAL, 3 * PROBE_INTERVAL, 4 * PROBE_INTERVAL];
    SendsWhileDown(NewLink(), ts);
    var l := Run(NewLink(), Sends(ts));
    RunSplit(NewLink(), Sends(ts), [AckOp(0, rtt), AckOp(1, rtt), AckOp(1, rtt)]);
    RunThree(l, AckOp(0, rtt), AckOp(1, rtt), AckOp(1, rtt));
    var l1 := Accept(l, 0, rtt);
    assert |l1.waiting| == 4 && l1.acked == [1] && !l1.up;
    var l2 := Accept(l1, 1, rtt);
    assert |l2.waiting| == 2 && l2.acked == [1, 3] && !l2.up;
  }

  // ----- The RTT estimate -----

  predicate RttWithin(l: Link, lo: int, hi: int) {
    l.hasRtt ==> lo <= l.srtt <= hi && 0 <= l.rttvar <= hi
  }

  /** Over any run the estimate stays within the range of the samples. */
  lemma {:induction false} RttStaysWithin(l: Link, ops: seq<Op>, lo: int, hi: int)
    requires 0 < lo <= hi && RttWithin(l, lo, hi)
    requires forall i :: 0 <= i < |ops| && ops[i].AckOp? && ops[i].rtt > 0 ==> lo <= ops[i].rtt <= hi
    ensures RttWithin(Run(l, ops), lo, hi)
    decreases |ops|
  {
    if ops != [] {
      RttStaysWithin(Step(l, ops[0]), ops[1..], lo, hi);
    }
  }

  function Distance(a: int, b: int): nat {
    if a < b then b - a else a - b
  }

  /** The whole part of `x / n`. */
  predicate Floors(q: int, x: int, n: int) {
    0 <= x - n * q < n
  }

  /**
   An acknowledgement with a positive sample: the first sets the estimate and half of
   it as deviation; later ones move the estimate an eighth of the way towards the
   sample and the deviation a quarter of the way towards the error, rounded down.
   Other samples are ignored.
   */
  lemma SampleExact(l: Link, i: nat, rtt: int)
    requires i < |l.waiting| && (l.hasRtt ==> l.srtt >= 0 && l.rttvar >= 0)
    ensures var m := Accept(l, i, rtt);
            if rtt <= 0 then m.hasRtt == l.hasRtt && m.srtt == l.srtt && m.rttvar == l.rttvar
            else if !l.hasRtt then m.hasRtt && m.srtt == rtt && Floors(m.rttvar, rtt, 2)
            else m.hasRtt && Floors(m.srtt, 7 * l.srtt + rtt, 8)
                 && Floors(m.rttvar, 3 * l.rttvar + Distance(l.srtt, rtt), 4)
  {
  }

  /** So each sample brings the estimate to within seven eighths of its distance, and never past it. */
  lemma SmoothingContracts(l: Link, i: nat, rtt: int)
    requires i < |l.waiting| && rtt > 0 && l.hasRtt && l.srtt > 0 && l.rttvar >= 0
    ensures var m := Accept(l, i, rtt);
            && 7 * Distance(l.srtt, rtt) - 7 <= 8 * Distance(m.srtt, rtt) <= 7 * Distance(l.srtt, rtt) + 7
            && (l.srtt < rtt ==> l.srtt <= m.srtt <= rtt) && (rtt <= l.srtt ==> rtt <= m.srtt <= l.srtt)
  {
    hide Accept;
    SampleExact(l, i, rtt);
  }

  // ----- Going down -----

  /**
   Exactly when a probe takes an up path down: when the oldest unanswered one is older
   than the estimate plus four deviations, taken to lie between 300 ms and 2 s.
   */
  lemma SendTakesDown(l: Link, now: int)
    requires l.up && l.waiting != []
    ensures var age, rto := now - l.waiting[0], l.srtt + 4 * l.rttvar;
            && (300_000_000 <= rto <= 2_000_000_000 ==> (Send(l, now).up <==> age <= rto))
            && (rto < 300_000_000 ==> (Send(l, now).up <==> age <= 300_000_000))
            && (rto > 2_000_000_000 ==> (Send(l, now).up <==> age <= 2_000_000_000))
  {
  }

  /** What is left after a probe: only itself when the path went down, otherwise the last 32 unanswered. */
  lemma SendExact(l: Link, now: int)
    ensures var s := Send(l, now);
            && s.sent == l.sent + 1 && s.srtt == l.srtt && s.rttvar == l.rttvar && s.hasRtt == l.hasRtt
            && (s.up ==> l.up)
            && (l.up && !s.up ==> s.waiting == [now] && s.acked == [] && s.downMark == l.sent)
            && (s.up == l.up ==>
                 && s.acked == l.acked && s.downMark == l.downMark
                 && s.waiting == if |l.waiting| < 32 then l.waiting + [now] else l.waiting[|l.waiting| - 31..] + [now])
            && (!l.up || l.waiting == [] ==> s.up == l.up)
  {
  }

  // ----- Going down in time -----

  /** Unanswered probes are at least a probe interval apart. */
  ghost predicate Spaced(w: seq<int>) {
    forall i, j :: 0 <= i < j < |w| ==> w[j] - w[i] >= (j - i) * PROBE_INTERVAL
  }

  lemma SpacedAppend(w: seq<int>, now: int)
    requires Spaced(w) && (w != [] ==> now - w[|w| - 1] >= PROBE_INTERVAL)
    ensures Spaced(w + [now])
  {
    var n := |w|;
    forall i | 0 <= i < n
      ensures now - w[i] >= (n - i) * PROBE_INTERVAL
    {
      assert i < n - 1 ==> w[n - 1] - w[i] >= (n - 1 - i) * PROBE_INTERVAL;
    }
  }

  lemma SpacedSuffix(w: seq<int>, k: nat)
    requires Spaced(w) && k <= |w|
    ensures Spaced(w[k..])
  {
  }

  predicate InTime(l: Link, now: int) {
    l.waiting != [] ==> now - l.waiting[|l.waiting| - 1] >= PROBE_INTERVAL
  }

  /** While the path is up, the bound on the list of unanswered probes never bites. */
  lemma NoTrimWhileUp(l: Link, now: int)
    requires l.up && Spaced(l.waiting) && InTime(l, now) && !Expired(l, now)
    ensures |l.waiting| <= 20
    ensures Send(l, now).waiting == l.waiting + [now] && Spaced(Send(l, now).waiting)
  {
    SpacedAppend(l.waiting, now);
    var n := |l.waiting|;
    assert n > 1 ==> l.waiting[n - 1] - l.waiting[0] >= (n - 1) * PROBE_INTERVAL;
  }

  /** Every probe of the run leaves at least a probe interval after the previous waiting one. */
  ghost predicate SentInTime(l: Link, ops: seq<Op>)
    decreases |ops|
  {
    ops == [] || ((ops[0].SendOp? ==> InTime(l, ops[0].now)) && SentInTime(Step(l, ops[0]), ops[1..]))
  }

  lemma SendSpaced(l: Link, now: int)
    requires Spaced(l.waiting) && InTime(l, now)
    ensures Spaced(Send(l, now).waiting)
  {
    var d := if Expired(l, now) then GoDown(l) else l;
    SpacedAppend(d.waiting, now);
    var w := d.waiting + [now];
    if |w| > MAX_OUTSTANDING {
      SpacedSuffix(w, |w| - MAX_OUTSTANDING);
    }
  }

  /** The spacing of unanswered probes survives losses, acknowledgements and trimming. */
  lemma {:induction false} StaysSpaced(l: Link, ops: seq<Op>)
    requires Spaced(l.waiting) && SentInTime(l, ops)
    ensures Spaced(Run(l, ops).waiting)
    decreases |ops|
  {
    if ops != [] {
      match ops[0] {
        case SendOp(now) => SendSpaced(l, now);
        case AckOp(i, rtt) =>
          if i < |l.waiting| {
            SpacedSuffix(l.waiting, i + 1);
          }
        case DownOp =>
      }
      StaysSpaced(Step(l, ops[0]), ops[1..]);
    }
  }

  /** When the path first goes down if probes leave at the times `ts` and none is answered. */
  function FirstDown(l: Link, ts: seq<int>): Option<int>
    decreases |ts|
  {
    if ts == [] then None
    else if Expired(l, ts[0]) then Some(ts[0])
    else FirstDown(Send(l, ts[0]), ts[1..])
  }

  function Max(a: int, b: int): int {
    if a < b then b else a
  }

  /** Probes leave between the probe interval and `gap` apart, starting after `last`. */
  predicate Paced(last: int, ts: seq<int>, gap: int)
    decreases |ts|
  {
    ts == [] || (PROBE_INTERVAL <= ts[0] - last <= gap && Paced(ts[0], ts[1..], gap))
  }

  /**
   An UP path whose probes are no longer answered goes DOWN with the first probe
   sent more than the RTO after its oldest unanswered one, so at most `gap` later.
   */
  lemma {:induction false} DownWithinDeadline(l: Link, ts: seq<int>, gap: int)
    requires l.up && l.waiting != [] && Spaced(l.waiting) && ts != []
    requires Paced(l.waiting[|l.waiting| - 1], ts, gap)
    requires ts[|ts| - 1] > l.waiting[0] + Rto(l)
    ensures FirstDown(l, ts).Some?
    ensures var t := FirstDown(l, ts).value;
            l.waiting[0] + Rto(l) < t <= Max(l.waiting[0] + Rto(l), l.waiting[|l.waiting| - 1]) + gap
    decreases |ts|
  {
    if !Expired(l, ts[0]) {
      var s := Send(l, ts[0]);
      NoTrimWhileUp(l, ts[0]);
      assert s.waiting[|s.waiting| - 1] == ts[0];
      DownWithinDeadline(s, ts[1..], gap);
    }
  }

  /** Probes go on, paced, past the RTO of the oldest unanswered one, and none is answered. */
  ghost predicate Silent(l: Link, ts: seq<int>, gap: int)
    requires l.waiting != []
  {
    ts != [] && Paced(l.waiting[|l.waiting| - 1], ts, gap) && ts[|ts| - 1] > l.waiting[0] + Rto(l)
  }

  /** The path goes down within RTO + gap of its oldest unanswered probe. */
  ghost predicate DownInTime(l: Link, ts: seq<int>, gap: int)
    requires l.waiting != []
  {
    FirstDown(l, ts).Some? && FirstDown(l, ts).value <= l.waiting[0] + Rto(l) + gap
  }

  /** The last probe left no later than the RTO after the oldest unanswered one. */
  predicate Unexpired(l: Link)
    requires l.waiting != []
  {
    l.waiting[|l.waiting| - 1] <= l.waiting[0] + Rto(l)
  }

  /**
   Whatever waits, the path is down within RTO + gap of its oldest unanswered probe
   in every silent continuation exactly when the last probe that left was not itself
   past the RTO.
   */
  lemma DownWithinRto(l: Link, gap: int)
    requires l.up && l.waiting != [] && Spaced(l.waiting) && gap >= PROBE_INTERVAL
    ensures (forall ts :: Silent(l, ts, gap) ==> DownInTime(l, ts, gap)) <==> Unexpired(l)
  {
    var last := l.waiting[|l.waiting| - 1];
    if Unexpired(l) {
      forall ts | Silent(l, ts, gap)
        ensures DownInTime(l, ts, gap)
      {
        DownWithinDeadline(l, ts, gap);
      }
    } else {
      var ts := [last + gap];
      assert Paced(ts[0], ts[1..], gap);
      assert Silent(l, ts, gap);
      assert FirstDown(l, ts) == Some(last + gap);
    }
  }

  /** A probe that leaves an up path meets the condition; only acknowledgements can break it. */
  lemma SentIsUnexpired(l: Link, now: int)
    requires l.up && Spaced(l.waiting) && InTime(l, now) && !Expired(l, now)
    ensures var s := Send(l, now); s.up && s.waiting != [] && Spaced(s.waiting) && Unexpired(s)
  {
    NoTrimWhileUp(l, now);
  }

  const SLOW := 2_500 * MILLISECOND

  /** Five probes on a path with a round trip of 2.5 s, above the cap on the RTO. */
  function SlowPath(): seq<Op> {
    Sends([0, PROBE_INTERVAL, 2 * PROBE_INTERVAL, 3 * PROBE_INTERVAL, 24 * PROBE_INTERVAL])
    + [AckOp(0, SLOW), AckOp(0, SLOW), AckOp(0, SLOW)]
  }

  /**
   The condition can fail: the third acknowledgement brings the slow path up with
   probes waiting that span more than the RTO, and with probes at most 2.1 s apart
   it goes down 4.2 s after the oldest, past the bound of 4.1 s.
   */
  lemma SlowPathOutlivesRto()
    ensures var l := Run(NewLink(), SlowPath());
            var ts := [45 * PROBE_INTERVAL];
            && l.up && l.waiting == [3 * PROBE_INTERVAL, 24 * PROBE_INTERVAL] && Rto(l) == MAX_RTO
            && !Unexpired(l) && Silent(l, ts, 21 * PROBE_INTERVAL) && !DownInTime(l, ts, 21 * PROBE_INTERVAL)
  {
    var sent := [0, PROBE_INTERVAL, 2 * PROBE_INTERVAL, 3 * PROBE_INTERVAL, 24 * PROBE_INTERVAL];
    SendsWhileDown(NewLink(), sent);
    var l := Run(NewLink(), Sends(sent));
    RunSplit(NewLink(), Sends(sent), [AckOp(0, SLOW), AckOp(0, SLOW), AckOp(0, SLOW)]);
    RunThree(l, AckOp(0, SLOW), AckOp(0, SLOW), AckOp(0, SLOW));
    var l1 := Accept(l, 0, SLOW);
    assert l1.waiting == sent[1..] && |l1.acked| == 1 && l1.srtt == SLOW && l1.rttvar == SLOW / 2 && !l1.up;
    var l2 := Accept(l1, 0, SLOW);
    assert l2.waiting == sent[2..] && |l2.acked| == 2 && l2.srtt == SLOW && l2.rttvar >= 0 && !l2.up;
    var l3 := Accept(l2, 0, SLOW);
    assert l3.waiting == sent[3..] && l3.srtt == SLOW && l3.rttvar >= 0 && l3.up;
    var ts := [45 * PROBE_INTERVAL];
    assert Paced(ts[0], ts[1..], 21 * PROBE_INTERVAL);
    assert FirstDown(l3, ts) == Some(45 * PROBE_INTERVAL);
  }
}
