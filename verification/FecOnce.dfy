/**
 Finished groups are forgotten, so late shards start a fresh entry. A counting
 argument decides when that can repair a packet a second time: exactly when a
 group has more parity than data shards.
 */
module FecOnce {
  import opened Words
  import opened FecShards
  import opened FecDecoder
  import opened FecRepair
  import opened FecTheorems

  /** The packets emitted by the operations on group `id`. */
  ghost function Emissions(c: Codec, d: Dec, ops: seq<DecOp>, id: int): seq<Packet>
    decreases |ops|
  {
    if ops == [] then []
    else Emitted(c, d, ops[0], id) + Emissions(c, Step(c, d, ops[0]), ops[1..], id)
  }

  function Emitted(c: Codec, d: Dec, op: DecOp, id: int): seq<Packet> {
    var r := Step(c, d, op);
    if op.id == id && |d.recovered| <= |r.recovered| then r.recovered[|d.recovered|..] else []
  }

  /** No shard index of group `id` arrives twice, nor again after `seen`. */
  ghost predicate EachOnce(ops: seq<DecOp>, id: int, seen: set<int>)
    decreases |ops|
  {
    ops == [] ||
    (&& (ops[0].id == id ==> ops[0].index !in seen)
     && EachOnce(ops[1..], id, if ops[0].id == id then seen + {ops[0].index as int} else seen))
  }

  /** The shards the current entry of the group holds. */
  function Holding(d: Dec, id: int): set<int> {
    if id in d.groups then d.groups[id].shards.Keys else {}
  }

  /** The entry is true, holds shards that arrived, and learned its geometry from one of them. */
  ghost predicate Tracked(c: Codec, g: Group, id: int, d: Dec, seen: set<int>)
    requires Real(c, g)
  {
    && Holding(d, id) <= seen <= Below(g.K() + g.m)
    && (id in d.groups ==> EntryOk(c, g, d.groups[id]))
    && (id in d.groups && d.groups[id].k != 0 ==> exists i :: i in Holding(d, id) && i >= g.K())
  }

  /** The outcome of a new shard, in terms of the shards then at hand. */
  ghost predicate Stored(d: Dec, r: Dec, id: int, have: set<int>) {
    Holding(r, id) == have && r.recovered == d.recovered
  }

  ghost predicate Completed(g: Group, d: Dec, r: Dec, id: int, have: set<int>) {
    id !in r.groups && r.recovered == d.recovered && |have| > g.K()
  }

  ghost predicate Repaired(g: Group, d: Dec, r: Dec, id: int, have: set<int>) {
    id !in r.groups && r.recovered == d.recovered + Absent(g.packets, have, 0) && |have| >= g.K()
  }

  function AtHand(d: Dec, op: DecOp): set<int> {
    Found(d, op).shards.Keys + {op.index as int}
  }

  // Either the shard is parity itself or the geometry came from an earlier one.
  lemma ParityAtHand(c: Codec, g: Group, id: int, d: Dec, op: DecOp, seen: set<int>)
    requires Real(c, g) && Truthful(c, g, id, op) && Tracked(c, g, id, d, seen)
    requires op.id == id && Extended(d, op).k != 0
    ensures exists i :: i in AtHand(d, op) && i >= g.K()
  {
    hide Real, EntryOk, Found, Truthful, Evicts, Extended;
    FoundShards(d, op);
    TruthfulIndex(c, g, id, op);
    ExtendedGeometry(d, op);
    var i := if op.ParityIn? then op.index as int else ParityHeld(g, d, id);
    assert i in AtHand(d, op);
  }

  lemma TrackedStep(c: Codec, g: Group, id: int, d: Dec, op: DecOp, seen: set<int>)
    requires Real(c, g) && Truthful(c, g, id, op) && Tracked(c, g, id, d, seen)
    requires op.id == id && op.index !in seen
    ensures AtHand(d, op) <= Holding(d, id) + {op.index}
    ensures Tracked(c, g, id, Step(c, d, op), seen + {op.index})
    ensures var r, have := Step(c, d, op), AtHand(d, op);
            Stored(d, r, id, have) || Completed(g, d, r, id, have) || Repaired(g, d, r, id, have)
  {
    hide Real, EntryOk, Absent, Step, Found, Truthful, DataKeys, Evicts, Extended, Below;
    var e := Extended(d, op);
    FoundShards(d, op);
    NewShard(c, g, d, op);
    TruthfulIndex(c, g, id, op);
    EntryGeometry(c, g, e);
    assert AtHand(d, op) == e.shards.Keys;
    if e.k != 0 {
      ParityAtHand(c, g, id, d, op, seen);
      var i :| i in AtHand(d, op) && i >= g.K();
      SomeParity(e, g.K());
      assert id in Step(c, d, op).groups ==> i in Holding(Step(c, d, op), id);
    }
  }

  ghost function ParityHeld(g: Group, d: Dec, id: int): (i: int)
    requires exists i :: i in Holding(d, id) && i >= g.K()
    ensures i in Holding(d, id) && i >= g.K()
  {
    var i :| i in Holding(d, id) && i >= g.K();
    i
  }

  lemma TrackedElsewhere(c: Codec, g: Group, id: int, d: Dec, op: DecOp, seen: set<int>)
    requires Real(c, g) && Tracked(c, g, id, d, seen) && op.id != id
    ensures Tracked(c, g, id, Step(c, d, op), seen)
    ensures Holding(Step(c, d, op), id) <= Holding(d, id)
  {
    hide Real, EntryOk, Step;
    OtherGroup(c, d, op, id);
  }

  // ----- At most one repair per packet when m <= k -----

  ghost predicate Distinct(packets: seq<Packet>) {
    forall i, j :: 0 <= i < j < |packets| ==> packets[i] != packets[j]
  }

  function Times(out: seq<Packet>, p: Packet): nat {
    if out == [] then 0 else Times(out[..|out| - 1], p) + (if out[|out| - 1] == p then 1 else 0)
  }

  lemma {:induction false} TimesAppend(a: seq<Packet>, b: seq<Packet>, p: Packet)
    ensures Times(a + b, p) == Times(a, p) + Times(b, p)
  {
    if b == [] {
      assert a + b == a;
    } else {
      var n := |b| - 1;
      assert (a + b)[..|a + b| - 1] == a + b[..n];
      TimesAppend(a, b[..n], p);
    }
  }

  lemma {:induction false} AbsentOnce(packets: seq<Packet>, have: set<int>, i: nat, j: nat)
    requires Distinct(packets) && j < |packets|
    ensures Times(Absent(packets, have, i), packets[j]) == if i <= j && j !in have then 1 else 0
    decreases |packets| - i
  {
    if i < |packets| {
      AbsentOnce(packets, have, i + 1, j);
      var here := if i in have then [] else [packets[i]];
      TimesAppend(here, Absent(packets, have, i + 1), packets[j]);
      assert i != j ==> packets[i] != packets[j];
      assert here != [] ==> here[..0] == [];
    }
  }

  /** The shards other than `j` that arrived and are no longer at hand. */
  function Spent(seen: set<int>, held: set<int>, j: int): set<int> {
    seen - held - {j}
  }

  lemma SpentGrows(seen: set<int>, held: set<int>, more: set<int>, left: set<int>, j: int)
    requires seen <= more && forall i :: i in seen && i !in held ==> i !in left
    ensures |Spent(seen, held, j)| <= |Spent(more, left, j)|
  {
    assert forall i :: i in Spent(seen, held, j) ==> i in Spent(more, left, j);
    SubsetSize(Spent(seen, held, j), Spent(more, left, j));
  }

  /**
   Packet `j` came out at most once, and if it did, at least k shards other than
   its own were spent on it.
   */
  ghost predicate SpentFor(g: Group, d: Dec, id: int, seen: set<int>, out: seq<Packet>, j: nat)
    requires j < g.K()
  {
    && Times(out, g.packets[j]) <= 1
    && (Times(out, g.packets[j]) == 1 ==> |Spent(seen, Holding(d, id), j)| >= g.K())
  }

  // The k shards of a repair and the k shards spent earlier do not fit below k + m.
  lemma NoSecondRepair(g: Group, seen: set<int>, held: set<int>, have: set<int>, index: int, j: nat)
    requires g.m <= g.K() && j < g.K() && j !in have && |have| >= g.K()
    requires held <= seen && index !in seen && have <= held + {index}
    requires seen + {index} <= Below(g.K() + g.m)
    ensures |Spent(seen, held, j)| < g.K()
  {
    var spent, all := Spent(seen, held, j), Below(g.K() + g.m);
    assert spent !! have;
    assert spent + have <= all - {j as int};
    SubsetSize(spent + have, all - {j as int});
    assert |spent + have| == |spent| + |have|;
    assert |all - {j as int}| == |all| - 1;
  }

  lemma RepairIsSpent(have: set<int>, more: set<int>, j: int)
    requires have <= more && j !in have
    ensures |Spent(more, {}, j)| >= |have|
  {
    assert forall i :: i in have ==> i in Spent(more, {}, j);
    SubsetSize(have, Spent(more, {}, j));
  }

  // The same argument as one fact about the bookkeeping.
  lemma SpentRepair(g: Group, id: int, d: Dec, r: Dec, index: int, have: set<int>, seen: set<int>,
                    out: seq<Packet>, j: nat)
    requires Distinct(g.packets) && g.m <= g.K() && j < g.K()
    requires Holding(d, id) <= seen && index !in seen && seen + {index} <= Below(g.K() + g.m)
    requires SpentFor(g, d, id, seen, out, j)
    requires have <= Holding(d, id) + {index} && |have| >= g.K() && id !in r.groups
    ensures SpentFor(g, r, id, seen + {index}, out + Absent(g.packets, have, 0), j)
  {
    hide Absent, Below, Distinct, Times, Spent;
    var held := Holding(d, id);
    AbsentOnce(g.packets, have, 0, j);
    TimesAppend(out, Absent(g.packets, have, 0), g.packets[j]);
    SpentGrows(seen, held, seen + {index}, {}, j);
    if j !in have {
      NoSecondRepair(g, seen, held, have, index, j);
      RepairIsSpent(have, seen + {index}, j);
    }
  }

  lemma SpentStep(c: Codec, g: Group, id: int, d: Dec, op: DecOp, seen: set<int>, out: seq<Packet>, j: nat)
    requires Real(c, g) && Truthful(c, g, id, op) && Tracked(c, g, id, d, seen)
    requires Distinct(g.packets) && g.m <= g.K() && j < g.K()
    requires op.id == id ==> op.index !in seen
    requires SpentFor(g, d, id, seen, out, j)
    ensures SpentFor(g, Step(c, d, op), id, if op.id == id then seen + {op.index} else seen,
                     out + Emitted(c, d, op, id), j)
  {
    hide Real, EntryOk, Absent, Step, Found, Truthful, Below, Distinct, Times, AtHand, Spent;
    var r := Step(c, d, op);
    if op.id != id {
      TrackedElsewhere(c, g, id, d, op, seen);
      SpentGrows(seen, Holding(d, id), seen, Holding(r, id), j);
      assert out + [] == out;
      return;
    }
    var more, have := seen + {op.index as int}, AtHand(d, op);
    TrackedStep(c, g, id, d, op, seen);
    if Repaired(g, d, r, id, have) {
      assert Emitted(c, d, op, id) == Absent(g.packets, have, 0);
      SpentRepair(g, id, d, r, op.index, have, seen, out, j);
    } else {
      assert out + Emitted(c, d, op, id) == out;
      SpentGrows(seen, Holding(d, id), more, Holding(r, id), j);
    }
  }

  lemma {:induction false} SpentRun(c: Codec, g: Group, id: int, d: Dec, ops: seq<DecOp>, seen: set<int>,
                                    out: seq<Packet>, j: nat)
    requires Real(c, g) && Tracked(c, g, id, d, seen)
    requires Distinct(g.packets) && g.m <= g.K() && j < g.K()
    requires EachOnce(ops, id, seen) && forall i :: 0 <= i < |ops| ==> Truthful(c, g, id, ops[i])
    requires SpentFor(g, d, id, seen, out, j)
    ensures Times(out + Emissions(c, d, ops, id), g.packets[j]) <= 1
    decreases |ops|
  {
    hide Real, Tracked, Truthful, Distinct, Step, Emitted, Times, Holding;
    if ops == [] {
      assert out + [] == out;
    } else {
      var op := ops[0];
      var now := Emitted(c, d, op, id);
      var rest := Emissions(c, Step(c, d, op), ops[1..], id);
      SpentStep(c, g, id, d, op, seen, out, j);
      if op.id == id {
        TrackedStep(c, g, id, d, op, seen);
      } else {
        TrackedElsewhere(c, g, id, d, op, seen);
      }
      SpentRun(c, g, id, Step(c, d, op), ops[1..], if op.id == id then seen + {op.index as int} else seen, out + now, j);
      assert out + (now + rest) == out + now + rest;
    }
  }

  /**
   If no shard arrives twice and there is at most as much parity as data, no
   packet of the group is repaired twice, evictions and fresh entries included.
   */
  lemma AtMostOneRepair(c: Codec, g: Group, id: int, d: Dec, ops: seq<DecOp>, j: nat)
    requires Real(c, g) && Distinct(g.packets) && g.m <= g.K() && j < g.K()
    requires id !in d.groups && EachOnce(ops, id, {})
    requires forall i :: 0 <= i < |ops| ==> Truthful(c, g, id, ops[i])
    ensures Times(Emissions(c, d, ops, id), g.packets[j]) <= 1
  {
    hide Real, Truthful, Distinct, Step, Emissions;
    SpentRun(c, g, id, d, ops, {}, [], j);
    assert [] + Emissions(c, d, ops, id) == Emissions(c, d, ops, id);
  }

  // ----- A group completed by its own data -----

  // With more than k shards spent, the remaining ones cannot fill another entry.
  lemma TooFewLeft(g: Group, seen: set<int>, held: set<int>, have: set<int>, index: int)
    requires g.m <= g.K() && held <= seen && index !in seen && have <= held + {index}
    requires seen + {index} <= Below(g.K() + g.m) && |seen - held| > g.K()
    ensures |have| < g.K()
  {
    var spent := seen - held;
    assert spent !! have && spent + have <= Below(g.K() + g.m);
    SubsetSize(spent + have, Below(g.K() + g.m));
    assert |spent + have| == |spent| + |have|;
  }

  lemma QuietStep(c: Codec, g: Group, id: int, d: Dec, op: DecOp, seen: set<int>)
    requires Real(c, g) && Tracked(c, g, id, d, seen) && g.m <= g.K() && Truthful(c, g, id, op)
    requires op.id == id && op.index !in seen && |seen - Holding(d, id)| > g.K()
    ensures Emitted(c, d, op, id) == []
    ensures |seen + {op.index} - Holding(Step(c, d, op), id)| > g.K()
  {
    hide Real, Truthful, Step, EntryOk, Below, Found, AtHand, Absent;
    var r := Step(c, d, op);
    TrackedStep(c, g, id, d, op, seen);
    TooFewLeft(g, seen, Holding(d, id), AtHand(d, op), op.index);
    SubsetSize(seen - Holding(d, id), seen + {op.index as int} - Holding(r, id));
  }

  lemma {:induction false} QuietRun(c: Codec, g: Group, id: int, d: Dec, ops: seq<DecOp>, seen: set<int>)
    requires Real(c, g) && Tracked(c, g, id, d, seen) && g.m <= g.K()
    requires EachOnce(ops, id, seen) && forall i :: 0 <= i < |ops| ==> Truthful(c, g, id, ops[i])
    requires |seen - Holding(d, id)| > g.K()
    ensures Emissions(c, d, ops, id) == []
    decreases |ops|
  {
    hide Real, Truthful, Step, Tracked, Holding;
    if ops != [] {
      var op, r := ops[0], Step(c, d, ops[0]);
      if op.id == id {
        TrackedStep(c, g, id, d, op, seen);
        QuietStep(c, g, id, d, op, seen);
        QuietRun(c, g, id, r, ops[1..], seen + {op.index as int});
      } else {
        TrackedElsewhere(c, g, id, d, op, seen);
        SubsetSize(seen - Holding(d, id), seen - Holding(r, id));
        QuietRun(c, g, id, r, ops[1..], seen);
      }
    }
  }

  /** Once a group is complete from its own data, it never triggers a repair again. */
  lemma CompletedStaysQuiet(c: Codec, g: Group, id: int, d: Dec, op: DecOp, r: Dec, ops: seq<DecOp>, seen: set<int>)
    requires Real(c, g) && Tracked(c, g, id, d, seen) && g.m <= g.K()
    requires op.id == id && Truthful(c, g, id, op) && r == Step(c, d, op)
    requires op.index !in seen && EachOnce(ops, id, seen + {op.index})
    requires forall i :: 0 <= i < |ops| ==> Truthful(c, g, id, ops[i])
    requires Completed(g, d, r, id, AtHand(d, op))
    ensures Emissions(c, r, ops, id) == []
  {
    hide Real, Truthful, Step, EntryOk, Below, Found, AtHand, Emissions;
    var more := seen + {op.index as int};
    TrackedStep(c, g, id, d, op, seen);
    SubsetSize(AtHand(d, op), more);
    QuietRun(c, g, id, r, ops, more);
  }
}
