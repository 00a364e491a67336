/**
 Matching outbound ciphertext to the classes of the plaintext packets it came
 from: a FIFO of expected lengths with a bounded scan-ahead.
 */
module Correlator {
  import opened Words
  import Wire

  const SCAN_AHEAD := 8
  const FIFO_CAP := 4096

  datatype Entry = Entry(cls: Byte, ctLen: nat)

  /** Header, plaintext padded to 16 bytes, tag. */
  function ExpectedCtLen(ptLen: nat): nat {
    16 + (ptLen + 15) / 16 * 16 + 16
  }

  /** The padding is the least that reaches a multiple of 16. */
  lemma ExpectedCtLenTight(ptLen: nat)
    ensures ExpectedCtLen(ptLen) % 16 == 0
    ensures ptLen + 32 <= ExpectedCtLen(ptLen) < ptLen + 48
  {
  }

  function Window(fifo: seq<Entry>): nat {
    if |fifo| > SCAN_AHEAD then SCAN_AHEAD else |fifo|
  }

  /** The first entry inside the window, from `i` on, with this length. */
  function Lookup(fifo: seq<Entry>, ctLen: nat, i: nat): Option<nat>
    decreases |fifo| - i
  {
    if i >= Window(fifo) then None
    else if fifo[i].ctLen == ctLen then Some(i)
    else Lookup(fifo, ctLen, i + 1)
  }

  /** A lookup hits exactly when the window holds the length, and then takes the first such entry. */
  lemma {:induction false} LookupExact(fifo: seq<Entry>, ctLen: nat, i: nat)
    ensures match Lookup(fifo, ctLen, i)
            case Some(p) => i <= p < Window(fifo) && fifo[p].ctLen == ctLen
                            && forall j :: i <= j < p ==> fifo[j].ctLen != ctLen
            case None => forall j :: i <= j < Window(fifo) ==> fifo[j].ctLen != ctLen
    decreases |fifo| - i
  {
    if i < Window(fifo) && fifo[i].ctLen != ctLen {
      LookupExact(fifo, ctLen, i + 1);
    }
  }

  class Matcher {
    var fifo: seq<Entry>
    var hits: nat
    var miss: nat
    var drops: nat

    constructor ()
      ensures fifo == [] && hits == miss == drops == 0
    {
      fifo, hits, miss, drops := [], 0, 0, 0;
    }

    method PushPlain(cls: Byte, ptLen: nat)
      modifies this`fifo
      ensures fifo == if |old(fifo)| < 4096 then old(fifo) + [Entry(cls, ExpectedCtLen(ptLen))] else old(fifo)
    {
      if |fifo| < FIFO_CAP {
        fifo := fifo + [Entry(cls, ExpectedCtLen(ptLen))];
      }
    }

    method MatchCiphertext(ctLen: nat) returns (cls: Byte)
      modifies this
      ensures match Lookup(old(fifo), ctLen, 0)
              case Some(p) =>
                p < |old(fifo)| && cls == old(fifo)[p].cls && fifo == old(fifo)[p + 1..]
                && hits == old(hits) + 1 && drops == old(drops) + p && miss == old(miss)
              case None =>
                cls == Wire.CLASS_BULK && fifo == old(fifo)
                && hits == old(hits) && drops == old(drops) && miss == old(miss) + 1
    {
      var limit := |fifo|;
      if limit > SCAN_AHEAD {
        limit := SCAN_AHEAD;
      }
      var i := 0;
      while i < limit
        invariant 0 <= i <= limit && limit == Window(fifo)
        invariant fifo == old(fifo) && hits == old(hits) && miss == old(miss) && drops == old(drops)
        invariant Lookup(fifo, ctLen, i) == Lookup(fifo, ctLen, 0)
      {
        if fifo[i].ctLen == ctLen {
          cls := fifo[i].cls;
          fifo := fifo[i + 1..];
          drops, hits := drops + i, hits + 1;
          return;
        }
        i := i + 1;
      }
      miss := miss + 1;
      cls := Wire.CLASS_BULK;
    }
  }

  // ----- Streams -----

  /**
   `plain` lists the plaintexts that were enqueued and the FIFO is `plain[head..]`;
   a plaintext refused because the FIFO is full is not part of the stream. The
   ciphertexts of plaintexts below `next` have passed or will never come;
   `ciphers` counts those that came and `exact` the ones that got their own class.
   */
  datatype Stream = Stream(plain: seq<Entry>, head: nat, next: nat, ciphers: nat, misses: nat, exact: nat)

  datatype Op = Plain(cls: Byte, ptLen: nat) | Cipher(j: nat)

  function Start(): Stream {
    Stream([], 0, 0, 0, 0, 0)
  }

  /** WireGuard keeps the order: a ciphertext belongs to a later plaintext than the previous one. */
  predicate Possible(s: Stream, op: Op) {
    op.Cipher? ==> s.next <= op.j < |s.plain|
  }

  function Step(s: Stream, op: Op): Stream
    requires Possible(s, op) && s.head <= |s.plain|
  {
    match op
    case Plain(cls, ptLen) => s.(plain := s.plain + [Entry(cls, ExpectedCtLen(ptLen))])
    case Cipher(j) =>
      var fifo := s.plain[s.head..];
      var t := s.(next := j + 1, ciphers := s.ciphers + 1);
      match Lookup(fifo, s.plain[j].ctLen, 0)
      case None => t.(misses := s.misses + 1)
      case Some(p) =>
        t.(head := s.head + p + 1,
           exact := if p < |fifo| && fifo[p].cls == s.plain[j].cls then s.exact + 1 else s.exact)
  }

  /** How many plaintexts never produced a ciphertext so far. */
  function Lost(s: Stream): int {
    s.next - s.ciphers
  }

  ghost predicate Inv(s: Stream) {
    && s.head <= s.next <= |s.plain|
    && s.ciphers <= s.next
    && s.misses <= s.ciphers
    && s.ciphers - s.misses <= s.head
    && (Lost(s) <= SCAN_AHEAD - 1 ==> s.misses == 0)
    && (Lost(s) == 0 ==> s.exact == s.ciphers)
  }

  /** The matched position is never past the true one. */
  lemma NeverOvertakes(s: Stream, j: nat)
    requires Inv(s) && s.next <= j < |s.plain|
    ensures match Lookup(s.plain[s.head..], s.plain[j].ctLen, 0)
            case Some(p) => s.head + p <= j
            case None => j - s.head >= SCAN_AHEAD
  {
    var fifo := s.plain[s.head..];
    LookupExact(fifo, s.plain[j].ctLen, 0);
    assert fifo[j - s.head] == s.plain[j];
  }

  lemma StepKeeps(s: Stream, op: Op)
    requires Inv(s) && Possible(s, op)
    ensures Inv(Step(s, op))
    ensures Lost(s) <= Lost(Step(s, op))
  {
    if op.Cipher? {
      NeverOvertakes(s, op.j);
      LookupExact(s.plain[s.head..], s.plain[op.j].ctLen, 0);
    }
  }

  /** A run in which each ciphertext comes from a plaintext enqueued before it, in order. */
  ghost predicate Ordered(s: Stream, ops: seq<Op>)
    decreases |ops|
  {
    ops == [] || (Possible(s, ops[0]) && s.head <= |s.plain| && Ordered(Step(s, ops[0]), ops[1..]))
  }

  ghost function Run(s: Stream, ops: seq<Op>): Stream
    requires Ordered(s, ops)
    decreases |ops|
  {
    if ops == [] then s else Run(Step(s, ops[0]), ops[1..])
  }

  lemma {:induction false} RunKeeps(s: Stream, ops: seq<Op>)
    requires Inv(s) && Ordered(s, ops)
    ensures Inv(Run(s, ops))
    decreases |ops|
  {
    hide Inv, Step;
    if ops != [] {
      StepKeeps(s, ops[0]);
      RunKeeps(Step(s, ops[0]), ops[1..]);
    }
  }

  /**
   Over every order-preserving run no entry is discarded before its own
   ciphertext; with at most seven plaintexts lost every lookup hits, and with
   none lost every ciphertext gets exactly the class of its plaintext.
   */
  lemma Correlates(ops: seq<Op>)
    requires Ordered(Start(), ops)
    ensures var r := Run(Start(), ops);
            && r.head <= r.next
            && (Lost(r) <= 7 ==> r.misses == 0)
            && (Lost(r) == 0 ==> r.misses == 0 && r.exact == r.ciphers)
  {
    RunKeeps(Start(), ops);
  }

  // ----- Beyond the window -----

  /** Eight entries fill the window, and no ciphertext of the run has one of their lengths. */
  ghost predicate Foreign(s: Stream, ops: seq<Op>)
    requires Ordered(s, ops)
    decreases |ops|
  {
    && s.head + SCAN_AHEAD <= |s.plain|
    && (ops != [] ==>
          && (ops[0].Cipher? ==>
                forall i :: s.head <= i < s.head + SCAN_AHEAD ==> s.plain[i].ctLen != s.plain[ops[0].j].ctLen)
          && Foreign(Step(s, ops[0]), ops[1..]))
  }

  /**
   The window can wedge: while eight lost entries of other lengths are at the
   front, every lookup misses and nothing is ever discarded.
   */
  lemma {:induction false} WindowWedges(s: Stream, ops: seq<Op>)
    requires Inv(s) && Ordered(s, ops) && Foreign(s, ops)
    ensures var r := Run(s, ops);
            r.head == s.head && r.misses - s.misses == r.ciphers - s.ciphers
    decreases |ops|
  {
    if ops != [] {
      StepKeeps(s, ops[0]);
      if ops[0].Cipher? {
        var fifo := s.plain[s.head..];
        LookupExact(fifo, s.plain[ops[0].j].ctLen, 0);
        assert forall i :: 0 <= i < SCAN_AHEAD ==> fifo[i] == s.plain[s.head + i];
      }
      WindowWedges(Step(s, ops[0]), ops[1..]);
    }
  }

  /** `n` plaintexts of one class and length. */
  function Plains(n: nat, cls: Byte, ptLen: nat): seq<Op> {
    seq(n, i requires 0 <= i < n => Plain(cls, ptLen))
  }

  lemma {:induction false} PlainsQueue(s: Stream, n: nat, cls: Byte, ptLen: nat, rest: seq<Op>)
    requires Inv(s)
    ensures var t := s.(plain := s.plain + seq(n, i requires 0 <= i < n => Entry(cls, ExpectedCtLen(ptLen))));
            && (Ordered(s, Plains(n, cls, ptLen) + rest) <==> Ordered(t, rest))
            && (Ordered(t, rest) ==> Run(s, Plains(n, cls, ptLen) + rest) == Run(t, rest))
    decreases n
  {
    var e := Entry(cls, ExpectedCtLen(ptLen));
    if n == 0 {
      assert Plains(n, cls, ptLen) + rest == rest;
      assert s.plain + seq(n, i requires 0 <= i < n => e) == s.plain;
    } else {
      assert (Plains(n, cls, ptLen) + rest)[1..] == Plains(n - 1, cls, ptLen) + rest;
      PlainsQueue(Step(s, Plain(cls, ptLen)), n - 1, cls, ptLen, rest);
      assert s.plain + [e] + seq(n - 1, i requires 0 <= i < n - 1 => e) == s.plain + seq(n, i requires 0 <= i < n => e);
    }
  }

  /** Later plaintexts have another ciphertext length, and the first eight stay without ciphertext. */
  predicate Avoids(ops: seq<Op>, ctLen: nat) {
    forall i :: 0 <= i < |ops| ==>
      match ops[i]
      case Plain(_, ptLen) => ExpectedCtLen(ptLen) != ctLen
      case Cipher(j) => j >= SCAN_AHEAD
  }

  lemma {:induction false} AvoidsIsForeign(s: Stream, ctLen: nat, ops: seq<Op>)
    requires Inv(s) && Ordered(s, ops) && Avoids(ops, ctLen) && s.head == 0 && |s.plain| >= SCAN_AHEAD
    requires forall i :: 0 <= i < |s.plain| ==> (s.plain[i].ctLen == ctLen <==> i < SCAN_AHEAD)
    ensures Foreign(s, ops)
    decreases |ops|
  {
    if ops != [] {
      StepKeeps(s, ops[0]);
      if ops[0].Cipher? {
        var fifo := s.plain[s.head..];
        LookupExact(fifo, s.plain[ops[0].j].ctLen, 0);
        assert forall i :: 0 <= i < SCAN_AHEAD ==> fifo[i] == s.plain[i];
      }
      AvoidsIsForeign(Step(s, ops[0]), ctLen, ops[1..]);
    }
  }

  /**
   From the start: eight plaintexts of one length are lost and later ones have other
   lengths. Then every lookup of the run misses, however long it is.
   */
  lemma EightLostBlock(cls: Byte, ptLen: nat, ops: seq<Op>)
    requires Avoids(ops, ExpectedCtLen(ptLen)) && Ordered(Start(), Plains(SCAN_AHEAD, cls, ptLen) + ops)
    ensures var r := Run(Start(), Plains(SCAN_AHEAD, cls, ptLen) + ops);
            r.misses == r.ciphers && r.head == 0
  {
    var e := Entry(cls, ExpectedCtLen(ptLen));
    var t := Start().(plain := [] + seq(SCAN_AHEAD, i requires 0 <= i < SCAN_AHEAD => e));
    PlainsQueue(Start(), SCAN_AHEAD, cls, ptLen, ops);
    AvoidsIsForeign(t, e.ctLen, ops);
    WindowWedges(t, ops);
  }

  /** So seven is tight: with eight lost plaintexts the very next ciphertext misses. */
  lemma EightLostMiss(cls: Byte, ptLen: nat, other: nat)
    requires ExpectedCtLen(other) != ExpectedCtLen(ptLen)
    ensures var ops := Plains(SCAN_AHEAD, cls, ptLen) + [Plain(cls, other), Cipher(SCAN_AHEAD)];
            Ordered(Start(), ops) && Lost(Run(Start(), ops)) == 8 && Run(Start(), ops).misses == 1
  {
    var rest := [Plain(cls, other), Cipher(SCAN_AHEAD)];
    var e := Entry(cls, ExpectedCtLen(ptLen));
    var t := Start().(plain := [] + seq(SCAN_AHEAD, i requires 0 <= i < SCAN_AHEAD => e));
    var t1 := Step(t, rest[0]);
    assert rest[1..] == [Cipher(SCAN_AHEAD)] && rest[1..][1..] == [];
    var t2 := Step(t1, rest[1]);
    assert Ordered(t2, []) && Ordered(t1, rest[1..]) && Ordered(t, rest);
    PlainsQueue(Start(), SCAN_AHEAD, cls, ptLen, rest);
    EightLostBlock(cls, ptLen, rest);
    calc {
      Run(Start(), Plains(SCAN_AHEAD, cls, ptLen) + rest);
      Run(t, rest);
      Run(t1, rest[1..]);
      Run(t2, []);
      t2;
    }
    assert t2.ciphers == 1 && t2.next == 9;
  }
}
