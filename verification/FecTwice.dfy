/**
 The other half of the counting argument: with more parity than data shards, a
 group can be repaired twice although every shard arrives once.
 */
module FecTwice {
  import opened Words
  import opened FecShards
  import opened FecDecoder
  import opened FecRepair
  import opened FecTheorems
  import opened FecOnce
  import E = FecEncoder
  import G = FecGeometry

  // ----- Runs at one instant, on one group, never sweep it -----

  ghost predicate Alone(d: Dec, id: int) {
    forall i :: i in d.groups ==> i == id && d.groups[i].touched == 0
  }

  ghost predicate AtZero(op: DecOp, id: int) {
    op.id == id && op.now == 0
  }

  lemma AloneStep(c: Codec, d: Dec, op: DecOp, id: int)
    requires Alone(d, id) && AtZero(op, id)
    ensures Alone(Step(c, d, op), id) && !Evicts(d, op, id)
  {
    hide Rebuilt, Aligned, DataKeys, BuildShard;
    AloneSize(d, id);
  }

  lemma AloneSize(d: Dec, id: int)
    requires Alone(d, id)
    ensures |d.groups| <= 1
  {
    assert forall i :: i in d.groups.Keys ==> i in {id};
    SubsetSize(d.groups.Keys, {id});
  }

  lemma {:induction false} AloneRun(c: Codec, d: Dec, ops: seq<DecOp>, id: int)
    requires Alone(d, id) && forall i :: 0 <= i < |ops| ==> AtZero(ops[i], id)
    ensures Alone(Run(c, d, ops), id) && NeverEvicted(c, d, ops, id)
    decreases |ops|
  {
    hide Step, Alone, Evicts;
    if ops != [] {
      AloneStep(c, d, ops[0], id);
      AloneRun(c, Step(c, d, ops[0]), ops[1..], id);
    }
  }

  lemma {:induction false} RunLast(c: Codec, d: Dec, ops: seq<DecOp>)
    requires ops != []
    ensures Run(c, d, ops) == Step(c, Run(c, d, ops[..|ops| - 1]), ops[|ops| - 1])
    decreases |ops|
  {
    hide Step;
    if |ops| > 1 {
      RunLast(c, Step(c, d, ops[0]), ops[1..]);
      assert ops[1..][..|ops| - 2] == ops[..|ops| - 1][1..];
    }
  }

  // ----- One batch of k shards -----

  /** `k` different true shards of the group, the last one parity. */
  ghost predicate Batch(c: Codec, g: Group, id: int, ops: seq<DecOp>)
    requires Real(c, g)
  {
    && |ops| == g.K() && ops != []
    && (forall i :: 0 <= i < |ops| ==> AtZero(ops[i], id) && Truthful(c, g, id, ops[i]))
    && (forall i, j :: 0 <= i < j < |ops| ==> ops[i].index != ops[j].index)
    && ops[|ops| - 1].ParityIn?
  }

  lemma {:induction false} RegisteredSize(ops: seq<DecOp>, id: int)
    requires forall i :: 0 <= i < |ops| ==> ops[i].id == id
    requires forall i, j :: 0 <= i < j < |ops| ==> ops[i].index != ops[j].index
    ensures |Registered(ops, id)| == |ops|
    ensures forall x :: x in Registered(ops, id) <==> exists i :: 0 <= i < |ops| && ops[i].index == x
  {
    if ops != [] {
      RegisteredSize(ops[1..], id);
      assert ops[0].index !in Registered(ops[1..], id);
    }
  }

  lemma BatchRepairs(c: Codec, g: Group, id: int, d: Dec, ops: seq<DecOp>)
    requires Real(c, g) && Batch(c, g, id, ops) && Alone(d, id) && id !in d.groups
    ensures var r := Run(c, d, ops);
            && Alone(r, id) && id !in r.groups && |d.recovered| <= |r.recovered|
            && Covered(g, Registered(ops, id), r.recovered[|d.recovered|..])
  {
    hide Real, Step, Truthful, Alone, Progress, Evicts, NeverEvicted;
    AloneRun(c, d, ops, id);
    RegisteredSize(ops, id);
    EnoughShardsRepair(c, g, id, d, ops);
    BatchForgets(c, g, id, d, ops);
  }

  // The k-th shard finishes the group, so its entry is gone.
  lemma BatchForgets(c: Codec, g: Group, id: int, d: Dec, ops: seq<DecOp>)
    requires Real(c, g) && Batch(c, g, id, ops) && Alone(d, id) && id !in d.groups
    ensures id !in Run(c, d, ops).groups
  {
    hide Real, EntryOk, Step, Truthful, Alone, Evicts, NeverEvicted, Found, Covered;
    var n, base := |ops| - 1, |d.recovered|;
    var init, last := ops[..n], ops[n];
    AloneRun(c, d, init, id);
    var q := Run(c, d, init);
    var seen := Registered(init, id);
    RegisteredSize(init, id);
    assert Progress(c, g, id, d, {}, base);
    ProgressRun(c, g, id, d, init, {}, base);
    assert {} + seen == seen;
    AloneStep(c, q, last, id);
    FoundCollecting(g, id, q, last, seen);
    TruthfulIndex(c, g, id, last);
    CompletingStep(c, g, id, q, last, seen, base);
    assert last.index as int in seen + {last.index as int};
    RunLast(c, d, ops);
  }

  // ----- Two batches -----

  ghost function ParityOp(c: Codec, g: Group, id: U32, j: nat): DecOp
    requires Real(c, g) && j < g.m
  {
    ParityOf(c, g);
    ParityIn(id, g.K() + j, g.K(), g.m, Parity(c, g)[j], 0, None)
  }

  ghost function FirstBatch(c: Codec, g: Group, id: U32): seq<DecOp>
    requires Real(c, g) && g.m > g.K()
  {
    seq(g.K(), j requires 0 <= j < g.K() => ParityOp(c, g, id, j))
  }

  ghost function SecondBatch(c: Codec, g: Group, id: U32): seq<DecOp>
    requires Real(c, g) && g.m > g.K()
  {
    seq(g.K() - 1, i requires 0 <= i < g.K() - 1 => DataIn(id, i + 1, g.packets[i + 1], 0, None))
    + [ParityOp(c, g, id, g.K())]
  }

  lemma ParityOpTruthful(c: Codec, g: Group, id: U32, j: nat)
    requires Real(c, g) && j < g.m
    ensures Truthful(c, g, id, ParityOp(c, g, id, j))
  {
    hide Lawful, Parity;
    ParityOf(c, g);
  }

  lemma BatchesAreBatches(c: Codec, g: Group, id: U32)
    requires Real(c, g) && g.m > g.K()
    ensures Batch(c, g, id, FirstBatch(c, g, id)) && Batch(c, g, id, SecondBatch(c, g, id))
    ensures 0 !in Registered(FirstBatch(c, g, id), id) && 0 !in Registered(SecondBatch(c, g, id), id)
  {
    hide Lawful, Parity, IsShard;
    forall j: nat | j < g.m
      ensures Truthful(c, g, id, ParityOp(c, g, id, j))
    {
      ParityOpTruthful(c, g, id, j);
    }
    RegisteredSize(FirstBatch(c, g, id), id);
    RegisteredSize(SecondBatch(c, g, id), id);
  }

  lemma {:induction false} EachOnceByIndex(ops: seq<DecOp>, id: int, seen: set<int>)
    requires forall i, j :: 0 <= i < j < |ops| ==> ops[i].index != ops[j].index
    requires forall i :: 0 <= i < |ops| ==> ops[i].index !in seen
    ensures EachOnce(ops, id, seen)
    decreases |ops|
  {
    if ops != [] {
      EachOnceByIndex(ops[1..], id, if ops[0].id == id then seen + {ops[0].index as int} else seen);
    }
  }

  // When all operations concern the group, its emissions are all that is recovered.
  lemma {:induction false} EmissionsAreRecovered(c: Codec, g: Group, id: int, d: Dec, ops: seq<DecOp>)
    requires Real(c, g) && (id in d.groups ==> EntryOk(c, g, d.groups[id]))
    requires forall i :: 0 <= i < |ops| ==> Truthful(c, g, id, ops[i]) && ops[i].id == id
    ensures Run(c, d, ops).recovered == d.recovered + Emissions(c, d, ops, id)
    decreases |ops|
  {
    hide Real, Step, Truthful, EntryOk;
    if ops != [] {
      StepSafe(c, g, d, ops[0]);
      EmissionsAreRecovered(c, g, id, Step(c, d, ops[0]), ops[1..]);
    }
  }

  lemma {:induction false} RunSplit(c: Codec, d: Dec, a: seq<DecOp>, b: seq<DecOp>)
    ensures Run(c, d, a + b) == Run(c, Run(c, d, a), b)
    decreases |a|
  {
    hide Step;
    if a == [] {
      assert a + b == b;
    } else {
      assert (a + b)[1..] == a[1..] + b;
      RunSplit(c, Step(c, d, a[0]), a[1..], b);
    }
  }

  lemma {:induction false} TimesPositive(out: seq<Packet>, p: Packet)
    requires p in out
    ensures Times(out, p) >= 1
  {
    if out[|out| - 1] != p {
      TimesPositive(out[..|out| - 1], p);
    }
  }

  /**
   The bound on parity is exact: for every lawful group with more parity than
   data there is a run in which each shard arrives once, nothing is evicted and
   the first packet is nevertheless repaired twice.
   */
  lemma RepairedTwice(c: Codec, g: Group, id: U32)
    requires Real(c, g) && g.m > g.K()
    ensures var ops := FirstBatch(c, g, id) + SecondBatch(c, g, id);
            && EachOnce(ops, id, {})
            && (forall i :: 0 <= i < |ops| ==> Truthful(c, g, id, ops[i]))
            && Times(Emissions(c, NewDec(), ops, id), g.packets[0]) >= 2
  {
    hide Real, Step, Truthful, Registered, Emissions, Run, ParityOp;
    var a, b, d := FirstBatch(c, g, id), SecondBatch(c, g, id), NewDec();
    var ops := a + b;
    BatchesAreBatches(c, g, id);
    BatchRepairs(c, g, id, d, a);
    var r := Run(c, d, a);
    BatchRepairs(c, g, id, r, b);
    RunSplit(c, d, a, b);
    var s := Run(c, d, ops);
    var first, second := r.recovered[|d.recovered|..], s.recovered[|r.recovered|..];
    EmissionsAreRecovered(c, g, id, d, ops);
    EmissionsAreRecovered(c, g, id, d, a);
    EmissionsAreRecovered(c, g, id, r, b);
    assert Emissions(c, d, ops, id) == first + second;
    TimesAppend(first, second, g.packets[0]);
    TimesPositive(first, g.packets[0]);
    TimesPositive(second, g.packets[0]);
    IndexesDiffer(c, g, id);
    EachOnceByIndex(ops, id, {});
  }

  lemma IndexesDiffer(c: Codec, g: Group, id: U32)
    requires Real(c, g) && g.m > g.K()
    ensures var ops := FirstBatch(c, g, id) + SecondBatch(c, g, id);
            forall i, j :: 0 <= i < j < |ops| ==> ops[i].index != ops[j].index
  {
    hide Lawful, Parity;
    var a, b := FirstBatch(c, g, id), SecondBatch(c, g, id);
    var ops := a + b;
    forall i, j | 0 <= i < j < |ops|
      ensures ops[i].index != ops[j].index
    {
      assert ops[j] == if j < |a| then a[j] else b[j - |a|];
      assert ops[i] == if i < |a| then a[i] else b[i - |a|];
    }
  }

  /**
   The controller's own table gets there. Its rows have m <= k, but at 3% loss a
   single packet followed by a flush closes as a group of one with three parity
   shards, and that group is repaired twice.
   */
  lemma FlushedGroupRepairedTwice(c: Codec, p: Packet)
    requires E.Sized(c) && Lawful(c, 1, 3) && |p.ct| < 0x1_0000
    ensures var ops := [G.ParamsOp(E.PickParams(0.03)), G.AddOp(p, 0), G.FlushOp(E.FLUSH_TIMEOUT)];
            var g := Group([p], 3);
            && G.Run(c, E.NewEnc(), ops).closed == [g]
            && Real(c, g)
            && Times(Emissions(c, NewDec(), FirstBatch(c, g, 0) + SecondBatch(c, g, 0), 0), p) >= 2
  {
    hide Lawful, E.Sized, Emissions, Times, FirstBatch, SecondBatch;
    FlushCloses(c, p);
    RepairedTwice(c, Group([p], 3), 0);
  }

  lemma FlushCloses(c: Codec, p: Packet)
    requires E.Sized(c)
    ensures G.Run(c, E.NewEnc(), [G.ParamsOp(E.PickParams(0.03)), G.AddOp(p, 0), G.FlushOp(E.FLUSH_TIMEOUT)]).closed
            == [Group([p], 3)]
  {
    hide E.Sized, E.ParityShards, G.Run;
    var ops := [G.ParamsOp(E.PickParams(0.03)), G.AddOp(p, 0), G.FlushOp(E.FLUSH_TIMEOUT)];
    var e0 := E.NewEnc();
    var e1 := G.Step(c, e0, ops[0]);
    var e2 := G.Step(c, e1, ops[1]);
    assert e2.open == [p] && e2.m == 3 && e2.closed == [];
    var e3 := G.Step(c, e2, ops[2]);
    G.RunFirst(c, e0, ops);
    G.RunFirst(c, e1, ops[1..]);
    G.RunFirst(c, e2, ops[1..][1..]);
    assert ops[1..][1..][1..] == [];
    RunNone(c, e3);
  }

  lemma RunNone(c: Codec, e: E.Enc)
    requires E.Sized(c)
    ensures G.Run(c, e, []) == e
  {
  }
}
