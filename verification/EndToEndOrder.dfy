/**
 End-to-end order: in-order releases follow the sent stream for streams of any
 length, across wraps of the 32-bit numbers, as long as no packet reaches the
 buffer more than half the number space away from the release point.
 */
module EndToEndOrder {
  import opened Words
  import opened FecShards
  import opened FecEncoder
  import opened FecDecoder
  import F = FecRepair
  import Q = ReorderModel
  import R = ReorderRuns
  import opened ReorderFaithful
  import opened EndToEnd

  /** The packet pushed is one the sender sequenced near the release point. */
  ghost predicate TimelyPush(s: Sys, p: Packet, base: int) {
    exists n :: 1 <= n <= |s.stream| && PacketOf(s, n) == p && Timely(s.buf, n, base)
  }

  /** A push of the step is timely. */
  ghost predicate TimelyOp(s: Sys, op: Op, base: int) {
    op.PushOp? && op.i < |s.pending| ==> TimelyPush(s, s.pending[op.i], base)
  }

  ghost predicate TimelyRun(c: Codec, s: Sys, ops: seq<Op>, base: int)
    requires Sized(c)
    decreases |ops|
  {
    ops == [] || (TimelyOp(s, ops[0], base) && TimelyRun(c, Step(c, s, ops[0]), ops[1..], base))
  }

  ghost predicate ExactSys(s: Sys, base: int) {
    Exact(s.buf, s.stream, base)
  }

  // ----- One step -----

  lemma PushStepExact(s: Sys, n: int, now: int, base: int)
    requires R.Inv(s.buf) && ExactSys(s, base) && Wrap32(base) == 0
    requires 1 <= n <= |s.stream| && Timely(s.buf, n, base)
    ensures ExactSys(PushStep(s, PacketOf(s, n), now), base)
  {
    hide R.Inv, Q.Push, Q.Position, Exact;
    PushExact(s.buf, s.stream, n, base, now);
  }

  lemma StepExact(c: Codec, s: Sys, op: Op, base: int)
    requires LawfulCode(c) && SysInv(c, s) && Allowed(s, op)
    requires ExactSys(s, base) && Wrap32(base) == 0 && TimelyOp(s, op, base)
    ensures ExactSys(Step(c, s, op), base)
  {
    hide Lawful, SenderOk, DecoderOk, Decoding, F.Step, PushStep, Each, Timely, R.Inv, Faithful, Protect;
    match op
    case SendOp(ct, now) => ExactGrows(s.buf, s.stream, s.stream + [ct], base);
    case ParamsOp(_) =>
    case FlushOp(_) =>
    case ParityOp(_, _, _) =>
    case DataOp(_, _, _) =>
    case BufferOp(q) =>
      if !q.PushOp? {
        QuietEach(s.buf, AtPosition(s.stream, base), q);
      }
    case PushOp(i, now) =>
      if i < |s.pending| {
        var n :| 1 <= n <= |s.stream| && PacketOf(s, n) == s.pending[i] && Timely(s.buf, n, base);
        var t := s.(pending := s.pending[..i] + s.pending[i + 1..]);
        assert PacketOf(t, n) == PacketOf(s, n);
        PushStepExact(t, n, now, base);
      }
  }

  lemma {:induction false} RunExact(c: Codec, s: Sys, ops: seq<Op>, base: int)
    requires LawfulCode(c) && SysInv(c, s) && AllowedRun(c, s, ops)
    requires ExactSys(s, base) && Wrap32(base) == 0 && TimelyRun(c, s, ops, base)
    ensures ExactSys(Run(c, s, ops), base)
    decreases |ops|
  {
    hide Lawful, SysInv, Step, Allowed, TimelyOp, ExactSys;
    if ops != [] {
      StepKeeps(c, s, ops[0]);
      StepExact(c, s, ops[0], base);
      RunExact(c, Step(c, s, ops[0]), ops[1..], base);
    }
  }

  /**
   For streams of any length: while every push is timely, each packet the receiver
   releases or drops is the one at its very position in the sent stream, so the
   in-order releases between resets are a strictly increasing subsequence of the
   stream. `base` is the multiple of 2^32 below the first packet that arrived.
   */
  lemma EndToEndOrder(c: Codec, ops: seq<Op>, base: int)
    requires LawfulCode(c) && AllowedRun(c, Init(), ops) && Wrap32(base) == 0 && TimelyRun(c, Init(), ops, base)
    ensures var s := Run(c, Init(), ops);
            && (forall i :: 0 <= i < |s.buf.log| ==>
                  var n := s.buf.log[i].pos + base; 1 <= n <= |s.stream| && s.buf.log[i].val == s.stream[n - 1])
            && R.Increasing(s.buf.log)
  {
    hide Lawful, SenderOk, DecoderOk, Run, AllowedRun, TimelyRun;
    InitOk(c);
    RunKeeps(c, Init(), ops);
    RunExact(c, Init(), ops, base);
  }

  // ----- Short streams -----

  lemma ShortPush(s: Sys, p: Packet)
    requires BufferOk(s) && ExactSys(s, 0) && IsSent(s.stream, p) && |s.stream| < TWO_TO_31
    ensures TimelyPush(s, p, 0)
  {
    hide R.Inv, Exact, Faithful, Timely;
    var n: int :| 1 <= n <= |s.stream| && Wrap32(n) == p.seqNo && s.stream[n - 1] == p.ct;
    ShortIsTimely(s.buf, s.stream, n);
    assert PacketOf(s, n) == p;
  }

  lemma ShortOp(c: Codec, s: Sys, op: Op)
    requires Sized(c) && SysInv(c, s) && ExactSys(s, 0) && |s.stream| < TWO_TO_31
    ensures TimelyOp(s, op, 0)
  {
    hide SenderOk, DecoderOk, BufferOk, IsSent, ExactSys, TimelyPush;
    if op.PushOp? && op.i < |s.pending| {
      ShortPush(s, s.pending[op.i]);
    }
  }

  lemma StreamGrows(c: Codec, s: Sys, op: Op)
    requires LawfulCode(c) && SysInv(c, s) && Allowed(s, op)
    ensures s.stream <= Step(c, s, op).stream
  {
    hide Lawful, SenderOk, DecoderOk, BufferOk, Decoding, DecodeStep, Protect, Q.Push, Q.Step;
    if Decoding(s, op).Some? {
      DecodeStepOk(c, s, op);
    }
  }

  lemma {:induction false} RunStreamGrows(c: Codec, s: Sys, ops: seq<Op>)
    requires LawfulCode(c) && SysInv(c, s) && AllowedRun(c, s, ops)
    ensures s.stream <= Run(c, s, ops).stream
    decreases |ops|
  {
    hide Lawful, SysInv, Step, Allowed;
    if ops != [] {
      StepKeeps(c, s, ops[0]);
      StreamGrows(c, s, ops[0]);
      RunStreamGrows(c, Step(c, s, ops[0]), ops[1..]);
    }
  }

  /** With fewer than 2^31 packets every push is timely, whatever the network does. */
  lemma {:induction false} ShortRunsAreTimely(c: Codec, s: Sys, ops: seq<Op>)
    requires LawfulCode(c) && SysInv(c, s) && AllowedRun(c, s, ops) && ExactSys(s, 0)
    requires |Run(c, s, ops).stream| < TWO_TO_31
    ensures TimelyRun(c, s, ops, 0)
    decreases |ops|
  {
    hide Lawful, SysInv, Step, Allowed, TimelyOp, ExactSys;
    if ops != [] {
      var t := Step(c, s, ops[0]);
      StepKeeps(c, s, ops[0]);
      StreamGrows(c, s, ops[0]);
      RunStreamGrows(c, t, ops[1..]);
      ShortOp(c, s, ops[0]);
      StepExact(c, s, ops[0], 0);
      ShortRunsAreTimely(c, t, ops[1..]);
    }
  }

  /** So below 2^31 packets the order holds over every network. */
  lemma ShortStreamsInOrder(c: Codec, ops: seq<Op>)
    requires LawfulCode(c) && AllowedRun(c, Init(), ops) && |Run(c, Init(), ops).stream| < TWO_TO_31
    ensures var s := Run(c, Init(), ops);
            && (forall i :: 0 <= i < |s.buf.log| ==>
                  var n := s.buf.log[i].pos; 1 <= n <= |s.stream| && s.buf.log[i].val == s.stream[n - 1])
            && R.Increasing(s.buf.log)
  {
    hide Lawful, SysInv, Run, AllowedRun, TimelyRun;
    InitOk(c);
    ShortRunsAreTimely(c, Init(), ops);
    EndToEndOrder(c, ops, 0);
  }
}
