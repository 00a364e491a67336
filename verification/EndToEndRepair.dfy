/**
 End-to-end repair: when enough datagrams of a group get through, every packet of
 the group reaches the receiver's resequencing buffer.
 */
module EndToEndRepair {
  import opened Words
  import opened FecShards
  import opened FecEncoder
  import G = FecGeometry
  import opened FecDecoder
  import F = FecRepair
  import T = FecTheorems
  import Q = ReorderModel
  import R = ReorderRuns
  import A = ReorderAccounting
  import opened ReorderFaithful
  import opened EndToEnd

  /** The decoder operations caused by a run. */
  ghost function DecOps(c: Codec, s: Sys, ops: seq<Op>): seq<F.DecOp>
    requires Sized(c)
    decreases |ops|
  {
    if ops == [] then []
    else
      var x := Decoding(s, ops[0]);
      (if x.Some? then [x.value] else []) + DecOps(c, Step(c, s, ops[0]), ops[1..])
  }

  lemma StepDec(c: Codec, s: Sys, op: Op)
    requires Sized(c)
    ensures Step(c, s, op).dec == match Decoding(s, op) case Some(x) => F.Step(c, s.dec, x) case None => s.dec
  {
    hide Q.Push, F.Step, Q.Step, G.Step, Protect;
  }

  lemma {:induction false} RunDec(c: Codec, s: Sys, ops: seq<Op>)
    requires Sized(c)
    ensures Run(c, s, ops).dec == F.Run(c, s.dec, DecOps(c, s, ops))
    decreases |ops|
  {
    hide Step, F.Step, Decoding;
    if ops != [] {
      StepDec(c, s, ops[0]);
      RunDec(c, Step(c, s, ops[0]), ops[1..]);
      var x, rest := Decoding(s, ops[0]), DecOps(c, Step(c, s, ops[0]), ops[1..]);
      if x.Some? {
        assert ([x.value] + rest)[1..] == rest;
      } else {
        assert [] + rest == rest;
      }
    }
  }

  /** What a run keeps for good. */
  lemma {:induction false} RunGrows(c: Codec, s: Sys, ops: seq<Op>)
    requires LawfulCode(c) && SysInv(c, s) && AllowedRun(c, s, ops)
    ensures var f := Run(c, s, ops);
            && SysInv(c, f) && (forall p :: Arrived(s, p) ==> Arrived(f, p))
            && s.enc.closed <= f.enc.closed && s.enc.placed <= f.enc.placed
    decreases |ops|
  {
    hide Lawful, SysInv, Step, Allowed, Arrived;
    if ops != [] {
      StepKeeps(c, s, ops[0]);
      RunGrows(c, Step(c, s, ops[0]), ops[1..]);
    }
  }

  // A received shard of a group that closes eventually is a true shard of it.
  lemma DecodingTruthful(c: Codec, s: Sys, op: Op, f: Sys, n: nat)
    requires LawfulCode(c) && SysInv(c, s) && SysInv(c, f) && Allowed(s, op) && Decoding(s, op).Some?
    requires s.enc.closed <= f.enc.closed && s.enc.placed <= f.enc.placed
    requires n < |f.enc.closed| && F.Real(c, f.enc.closed[n])
    ensures F.Truthful(c, f.enc.closed[n], n, Decoding(s, op).value)
    ensures op.DataOp? && Decoding(s, op).value.id == n ==>
            var i := Decoding(s, op).value.index;
            i < f.enc.closed[n].K() && f.enc.closed[n].packets[i] == PacketOf(s, op.n)
  {
    hide Lawful, F.Real, F.IsShard, G.AllPlaced, G.AllParity, G.PlacedOf, IsSent, BufferOk, DecoderOk;
    var x := Decoding(s, op).value;
    if x.id == n {
      if op.ParityOp? {
        ParityOrigin(c, s, s.enc.emitted[op.j]);
        assert s.enc.closed[n] == f.enc.closed[n];
      } else {
        assert TagOk(s, op.n - 1);
        PlacedAtClosed(c, f, Placed(n, x.index, PacketOf(s, op.n)));
      }
    }
  }

  lemma PlacedAtClosed(c: Codec, f: Sys, x: Placed)
    requires Sized(c) && SenderOk(c, f) && x in f.enc.placed && 0 <= x.number < |f.enc.closed|
    ensures x.index < f.enc.closed[x.number].K() && f.enc.closed[x.number].packets[x.index] == x.packet
  {
    hide G.AllParity, G.AllPlaced, G.PlacedOf, IsSent, TagOk;
    G.PlacedExactly(f.enc.closed, x);
    G.InPlacedOf(|f.enc.closed|, f.enc.open, x);
  }

  lemma {:induction false} RunTruthful(c: Codec, s: Sys, ops: seq<Op>, f: Sys, n: nat)
    requires LawfulCode(c) && SysInv(c, s) && AllowedRun(c, s, ops) && f == Run(c, s, ops)
    requires SysInv(c, f) && n < |f.enc.closed| && F.Real(c, f.enc.closed[n])
    ensures forall i :: 0 <= i < |DecOps(c, s, ops)| ==> F.Truthful(c, f.enc.closed[n], n, DecOps(c, s, ops)[i])
    decreases |ops|
  {
    hide Lawful, SysInv, Step, Allowed, F.Real, F.Truthful, Decoding;
    if ops != [] {
      var t := Step(c, s, ops[0]);
      StepKeeps(c, s, ops[0]);
      RunGrows(c, s, ops);
      RunTruthful(c, t, ops[1..], f, n);
      if Decoding(s, ops[0]).Some? {
        DecodingTruthful(c, s, ops[0], f, n);
      }
    }
  }

  // Data that arrived was pushed or is pending.
  lemma {:induction false} DataArrived(c: Codec, s: Sys, ops: seq<Op>, f: Sys, n: nat, i: nat)
    requires LawfulCode(c) && SysInv(c, s) && AllowedRun(c, s, ops) && f == Run(c, s, ops)
    requires SysInv(c, f) && n < |f.enc.closed| && F.Real(c, f.enc.closed[n]) && i < f.enc.closed[n].K()
    requires i in T.Registered(DecOps(c, s, ops), n)
    ensures Arrived(f, f.enc.closed[n].packets[i])
    decreases |ops|
  {
    hide Lawful, SysInv, Step, Allowed, F.Real, F.Truthful, Decoding, Arrived;
    if ops != [] {
      var t := Step(c, s, ops[0]);
      var x, rest := Decoding(s, ops[0]), DecOps(c, t, ops[1..]);
      StepKeeps(c, s, ops[0]);
      RunGrows(c, s, ops);
      RunGrows(c, t, ops[1..]);
      if x.Some? {
        assert ([x.value] + rest)[1..] == rest;
      } else {
        assert [] + rest == rest;
      }
      if i in T.Registered(rest, n) {
        DataArrived(c, t, ops[1..], f, n, i);
      } else {
        DatagramArrived(c, s, ops[0], t, f, n, i);
      }
    }
  }

  lemma DatagramArrived(c: Codec, s: Sys, op: Op, t: Sys, f: Sys, n: nat, i: nat)
    requires LawfulCode(c) && SysInv(c, s) && SysInv(c, f) && Allowed(s, op) && t == Step(c, s, op)
    requires s.enc.closed <= f.enc.closed && s.enc.placed <= f.enc.placed
    requires forall p :: Arrived(t, p) ==> Arrived(f, p)
    requires n < |f.enc.closed| && F.Real(c, f.enc.closed[n]) && i < f.enc.closed[n].K()
    requires Decoding(s, op).Some? && Decoding(s, op).value.id == n && Decoding(s, op).value.index == i
    ensures Arrived(f, f.enc.closed[n].packets[i])
  {
    hide Lawful, F.Real, Step, SenderOk, DecoderOk, BufferOk, Seen;
    DecodingTruthful(c, s, op, f, n);
    T.TruthfulIndex(c, f.enc.closed[n], n, Decoding(s, op).value);
    if op.DataOp? {
      DataStepOk(c, s, op);
    }
  }

  // Rebuilt packets were pushed or are pending.
  lemma {:induction false} RebuiltArrived(c: Codec, s: Sys, ops: seq<Op>, f: Sys, k: nat)
    requires LawfulCode(c) && SysInv(c, s) && AllowedRun(c, s, ops) && f == Run(c, s, ops)
    requires |s.dec.recovered| <= k < |f.dec.recovered|
    ensures Arrived(f, f.dec.recovered[k])
    decreases |ops|
  {
    hide Lawful, SysInv, Step, Allowed, Decoding;
    if ops != [] {
      var t := Step(c, s, ops[0]);
      StepKeeps(c, s, ops[0]);
      RunGrows(c, t, ops[1..]);
      if |t.dec.recovered| <= k {
        RebuiltArrived(c, t, ops[1..], f, k);
      } else {
        StepRebuiltArrived(c, s, ops[0], k);
        RecoveredGrows(c, t, ops[1..]);
      }
    }
  }

  lemma StepRebuiltArrived(c: Codec, s: Sys, op: Op, k: nat)
    requires LawfulCode(c) && SysInv(c, s) && Allowed(s, op)
    requires |s.dec.recovered| <= k < |Step(c, s, op).dec.recovered|
    ensures Arrived(Step(c, s, op), Step(c, s, op).dec.recovered[k])
  {
    hide Lawful, SenderOk, DecoderOk, BufferOk, DecodeStep, Decoding, F.Step, G.Step, Q.Step, Q.Push, Protect;
    StepDec(c, s, op);
    if Decoding(s, op).Some? {
      DecodeStepOk(c, s, op);
    }
  }

  lemma {:induction false} RecoveredGrows(c: Codec, s: Sys, ops: seq<Op>)
    requires LawfulCode(c) && SysInv(c, s) && AllowedRun(c, s, ops)
    ensures s.dec.recovered <= Run(c, s, ops).dec.recovered
    decreases |ops|
  {
    hide Lawful, SysInv, Step, Allowed, Decoding, F.Step;
    if ops != [] {
      StepKeeps(c, s, ops[0]);
      StepDec(c, s, ops[0]);
      if Decoding(s, ops[0]).Some? {
        DecodeStepOk(c, s, ops[0]);
      }
      RecoveredGrows(c, Step(c, s, ops[0]), ops[1..]);
    }
  }

  /** A packet with number `w` and this ciphertext waits or was handed up. */
  ghost predicate Reaches(q: Q.Queue<Bytes>, w: U32, ct: Bytes) {
    || (exists p :: p in q.held && Wrap32(p) == w && q.held[p].val == ct)
    || (exists i :: 0 <= i < |q.log| && Wrap32(q.log[i].pos) == w && !q.log[i].Dropped? && q.log[i].val == ct)
  }

  /** A packet with number `w` was dropped as far out of the window. */
  ghost predicate Skipped(s: Sys, w: U32) {
    exists pos :: pos in s.skipped && Wrap32(pos) == w
  }

  // Until numbers are reused, what is accounted for under a number is its ciphertext.
  lemma SeenReaches(c: Codec, s: Sys, p: Packet)
    requires Sized(c) && SysInv(c, s) && Seen(s, p.seqNo) && IsSent(s.stream, p) && |s.stream| < TWO_TO_32
    ensures Reaches(s.buf, p.seqNo, p.ct) || Skipped(s, p.seqNo)
  {
    hide Sequenced, SenderOk, DecoderOk, R.Inv;
    var pos :| (pos in s.fed || pos in s.skipped) && Wrap32(pos) == p.seqNo;
    SequencedUnique(s.stream, p.seqNo, p.ct);
    if pos in s.fed {
      assert A.Accounted(s.buf, pos);
      if pos in s.buf.held {
        SequencedUnique(s.stream, p.seqNo, s.buf.held[pos].val);
      } else {
        var i :| 0 <= i < |s.buf.log| && s.buf.log[i].pos == pos && !s.buf.log[i].Dropped?;
        SequencedUnique(s.stream, p.seqNo, s.buf.log[i].val);
      }
    }
  }

  /**
   End-to-end repair: if at least k different datagrams of a closed group of k
   packets reach the receiver, in any order and with any repetitions, and the
   decoder does not evict the group meanwhile, then every packet of the group is
   about to be pushed, waits in the resequencing buffer, has been handed up, or was so
   far out of the window that the buffer dropped it.
   */
  lemma EndToEndRepairs(c: Codec, ops: seq<Op>, n: nat, s: Sys, dops: seq<F.DecOp>)
    requires LawfulCode(c) && AllowedRun(c, Init(), ops)
    requires s == Run(c, Init(), ops) && dops == DecOps(c, Init(), ops) && n < |s.enc.closed|
    requires T.NeverEvicted(c, NewDec(), dops, n)
    requires |T.Registered(dops, n)| >= s.enc.closed[n].K()
    ensures forall i :: 0 <= i < s.enc.closed[n].K() ==>
              IsSent(s.stream, s.enc.closed[n].packets[i]) && Arrived(s, s.enc.closed[n].packets[i])
    ensures |s.stream| < TWO_TO_32 ==> forall i :: 0 <= i < s.enc.closed[n].K() ==>
              var p := s.enc.closed[n].packets[i];
              p in s.pending || Reaches(s.buf, p.seqNo, p.ct) || Skipped(s, p.seqNo)
  {
    hide Lawful, F.Real, Run, DecOps, T.NeverEvicted, T.Registered, F.Run, R.Inv, Seen, Reaches, Skipped, IsSent,
      BufferOk, DecoderOk, SenderOk, PendingOk;
    var s0 := Init();
    InitOk(c);
    RunKeeps(c, s0, ops);
    ClosedReal(c, s, n);
    RunTruthful(c, s0, ops, s, n);
    RunDec(c, s0, ops);
    var g := s.enc.closed[n];
    T.EnoughShardsRepair(c, g, n, NewDec(), dops);
    assert s.dec.recovered[0..] == s.dec.recovered;
    forall i | 0 <= i < g.K()
      ensures IsSent(s.stream, g.packets[i]) && Arrived(s, g.packets[i])
      ensures |s.stream| < TWO_TO_32 ==>
                || g.packets[i] in s.pending
                || Reaches(s.buf, g.packets[i].seqNo, g.packets[i].ct)
                || Skipped(s, g.packets[i].seqNo)
    {
      PlacedPacket(c, s, n, i);
      if i in T.Registered(dops, n) {
        DataArrived(c, s0, ops, s, n, i);
      } else {
        var k :| 0 <= k < |s.dec.recovered| && s.dec.recovered[k] == g.packets[i];
        RebuiltArrived(c, s0, ops, s, k);
      }
      if |s.stream| < TWO_TO_32 && g.packets[i] !in s.pending {
        SeenReaches(c, s, g.packets[i]);
      }
    }
  }
}
