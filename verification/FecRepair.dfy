/**
 Repair: given the law of the erasure code, any k of the k + m shards of a group
 bring back every packet, exactly, whatever the order and whatever else arrives.
 */
module FecRepair {
  import opened Words
  import opened FecShards
  import opened FecDecoder

  /** A group that fits the wire format and whose geometry has a lawful code. */
  ghost predicate Real(c: Codec, g: Group) {
    && 1 <= g.K() && g.K() + g.m <= 256
    && (forall i :: 0 <= i < g.K() ==> |g.packets[i].ct| < 0x1_0000)
    && Lawful(c, g.K(), g.m)
  }

  lemma ParityOf(c: Codec, g: Group)
    requires Real(c, g)
    ensures |Parity(c, g)| == g.m && Uniform(Parity(c, g), Longest(g.packets))
  {
    assert Uniform(Padded(g.packets), Longest(g.packets));
  }

  /** `s` is the shard with index `i` of the group, as it travels. */
  ghost predicate IsShard(c: Codec, g: Group, i: int, s: Bytes)
    requires Real(c, g)
  {
    ParityOf(c, g);
    && 0 <= i < g.K() + g.m
    && s == if i < g.K() then BuildShard(g.packets[i]) else Parity(c, g)[i - g.K()]
  }

  /** Everything the receiver knows about the group is true. */
  ghost predicate EntryOk(c: Codec, g: Group, e: Entry)
    requires Real(c, g)
  {
    && (forall i :: i in e.shards ==> IsShard(c, g, i, e.shards[i]))
    && (e.k != 0 ==> e.k == g.K() && e.m == g.m && e.shardLen == Longest(g.packets))
  }

  // ----- Padding does not matter -----

  lemma AlignedShards(c: Codec, g: Group, e: Entry)
    requires Real(c, g) && EntryOk(c, g, e) && e.k != 0
    ensures Aligned(e).Keys == e.shards.Keys
    ensures Shards(Padded(g.packets), Parity(c, g), Aligned(e))
  {
    hide Lawful, BuildShard, Parity;
    ParityOf(c, g);
    var data, parity := Padded(g.packets), Parity(c, g);
    forall i | i in Aligned(e)
      ensures 0 <= i < |data| + |parity| && Aligned(e)[i] == (data + parity)[i]
    {
      assert IsShard(c, g, i, e.shards[i]);
    }
  }

  lemma RepairExact(c: Codec, g: Group, e: Entry)
    requires Real(c, g) && EntryOk(c, g, e) && e.k != 0 && |e.shards| >= e.k
    ensures c.repair(e.k, e.m, Aligned(e)) == Some(Padded(g.packets))
  {
    hide BuildShard;
    AlignedShards(c, g, e);
    assert |Aligned(e).Keys| == |e.shards.Keys|;
    assert Uniform(Padded(g.packets), Longest(g.packets));
  }

  /** The packets whose index is not in `have`, in order, from index `i` on. */
  ghost function Absent(packets: seq<Packet>, have: set<int>, i: nat): seq<Packet>
    decreases |packets| - i
  {
    if i >= |packets| then []
    else (if i in have then [] else [packets[i]]) + Absent(packets, have, i + 1)
  }

  lemma {:induction false} RebuiltExact(c: Codec, g: Group, e: Entry, i: nat)
    requires Real(c, g) && e.k == g.K()
    ensures Rebuilt(e, Padded(g.packets), i) == Absent(g.packets, e.shards.Keys, i)
    decreases e.k - i
  {
    hide Lawful, BuildShard;
    if i < e.k {
      ShardRoundTrip(g.packets[i], Longest(g.packets));
      RebuiltExact(c, g, e, i + 1);
    }
  }

  /** Packet `p` has an index at or above `i` that is not in `have`. */
  ghost predicate Lacks(packets: seq<Packet>, have: set<int>, i: nat, p: Packet) {
    exists j :: i <= j < |packets| && packets[j] == p && j !in have
  }

  lemma LacksStep(packets: seq<Packet>, have: set<int>, i: nat, p: Packet)
    requires i < |packets|
    ensures Lacks(packets, have, i, p) <==> (packets[i] == p && i !in have) || Lacks(packets, have, i + 1, p)
  {
    if Lacks(packets, have, i, p) {
      var j :| i <= j < |packets| && packets[j] == p && j !in have;
      assert j == i || i + 1 <= j;
    }
  }

  lemma {:induction false} AbsentExactly(packets: seq<Packet>, have: set<int>, i: nat, p: Packet)
    ensures p in Absent(packets, have, i) <==> Lacks(packets, have, i, p)
    decreases |packets| - i
  {
    if i < |packets| {
      hide Lacks;
      LacksStep(packets, have, i, p);
      AbsentExactly(packets, have, i + 1, p);
    }
  }

  /** What settling a truthful entry does. */
  lemma SettleExact(c: Codec, g: Group, d: Dec, id: int, e: Entry)
    requires Real(c, g) && EntryOk(c, g, e)
    ensures Settle(c, d, id, e) ==
            if e.k == 0 || (|e.shards| < g.K() && |DataKeys(e)| < g.K()) then d.(groups := d.groups[id := e])
            else d.(groups := d.groups - {id},
                    recovered := d.recovered + if |DataKeys(e)| >= g.K() then []
                                               else Absent(g.packets, e.shards.Keys, 0))
  {
    hide Lawful, EntryOk, Rebuilt, Absent, Aligned;
    EntryGeometry(c, g, e);
    if e.k != 0 && |e.shards| >= g.K() {
      RepairExact(c, g, e);
      RebuiltExact(c, g, e, 0);
    }
  }

  lemma EntryGeometry(c: Codec, g: Group, e: Entry)
    requires Real(c, g) && EntryOk(c, g, e)
    ensures e.k != 0 ==> e.k == g.K() && e.m == g.m
  {
  }

  // ----- Runs -----

  /** A registration, together with the choice made by a forced sweep, if any. */
  datatype DecOp =
    | DataIn(id: U32, index: Byte, p: Packet, now: int, victim: Option<int>)
    | ParityIn(id: U32, index: Byte, k: Byte, m: Byte, shard: Bytes, now: int, victim: Option<int>)

  function Step(c: Codec, d: Dec, op: DecOp): Dec {
    match op
    case DataIn(id, index, p, now, victim) => RegisterData(c, d, id, index, p, now, victim)
    case ParityIn(id, index, k, m, shard, now, victim) => RegisterParity(c, d, id, index, k, m, shard, now, victim)
  }

  function Run(c: Codec, d: Dec, ops: seq<DecOp>): Dec
    decreases |ops|
  {
    if ops == [] then d else Run(c, Step(c, d, ops[0]), ops[1..])
  }

  /** If it is about group `id`, the operation carries a true shard of `g`. */
  ghost predicate Truthful(c: Codec, g: Group, id: int, op: DecOp)
    requires Real(c, g)
  {
    op.id == id ==>
      match op
      case DataIn(_, index, p, _, _) => index < g.K() && p == g.packets[index]
      case ParityIn(_, index, k, m, shard, _, _) =>
        g.K() <= index && IsShard(c, g, index, shard) && k == g.K() && m == g.m
  }

  /** The group is swept away by this operation. */
  predicate Evicts(d: Dec, op: DecOp, id: int) {
    id in d.groups &&
    (id !in MaybeSweep(d, op.now).groups ||
     (op.id != id && id !in Prepare(d, op.id, op.now, op.victim).groups))
  }

  /** The entry the operation finds or starts. */
  function Found(d: Dec, op: DecOp): Entry {
    Prepare(d, op.id, op.now, op.victim).groups[op.id]
  }

  /** The entry with the shard of the operation added. */
  function Extended(d: Dec, op: DecOp): Entry {
    var e := Found(d, op);
    match op
    case DataIn(_, index, p, _, _) =>
      if index in e.shards then e else e.(shards := e.shards[index := BuildShard(p)])
    case ParityIn(_, index, k, m, shard, _, _) =>
      var f := e.(k := k, m := m, shardLen := |shard|);
      if index in f.shards then f else f.(shards := f.shards[index := shard])
  }

  lemma FoundShards(d: Dec, op: DecOp)
    ensures Found(d, op) == if op.id in d.groups && !Evicts(d, op, op.id)
                            then d.groups[op.id].(touched := op.now)
                            else Entry(map[], 0, 0, 0, op.now)
    ensures Prepare(d, op.id, op.now, op.victim).recovered == d.recovered
  {
  }

  lemma SettleLocal(c: Codec, d: Dec, at: int, e: Entry, id: int)
    requires at != id
    ensures var r := Settle(c, d, at, e);
            && (id in r.groups <==> id in d.groups)
            && (id in r.groups ==> r.groups[id] == d.groups[id])
            && d.recovered <= r.recovered
  {
    hide Rebuilt, Aligned, DataKeys;
  }

  // A registration for another group leaves this one alone, unless it evicts it.
  lemma OtherGroup(c: Codec, d: Dec, op: DecOp, id: int)
    requires op.id != id
    ensures var r := Step(c, d, op);
            && (id in r.groups <==> id in d.groups && !Evicts(d, op, id))
            && (id in r.groups ==> r.groups[id] == d.groups[id])
            && d.recovered <= r.recovered
  {
    hide Settle, BuildShard;
    PrepareLocal(d, op, id);
    SettleLocal(c, Prepare(d, op.id, op.now, op.victim), op.id, Extended(d, op), id);
  }

  lemma PrepareLocal(d: Dec, op: DecOp, id: int)
    requires op.id != id
    ensures var r := Prepare(d, op.id, op.now, op.victim);
            && (id in r.groups <==> id in d.groups && !Evicts(d, op, id))
            && (id in r.groups ==> r.groups[id] == d.groups[id])
            && d.recovered == r.recovered
  {
  }

  lemma ExtendedOk(c: Codec, g: Group, d: Dec, op: DecOp)
    requires Real(c, g) && Truthful(c, g, op.id, op)
    requires op.id in d.groups ==> EntryOk(c, g, d.groups[op.id])
    ensures EntryOk(c, g, Extended(d, op))
    ensures Extended(d, op).shards.Keys == Found(d, op).shards.Keys + {op.index}
  {
    hide Lawful, BuildShard, Parity, Longest;
    FoundShards(d, op);
    ParityOf(c, g);
    if op.DataIn? {
      assert IsShard(c, g, op.index, BuildShard(op.p));
    }
  }

  // The operation either finds its shard already there, or settles the extended entry.
  lemma StepSettles(c: Codec, g: Group, d: Dec, op: DecOp)
    requires Real(c, g) && Truthful(c, g, op.id, op)
    ensures var pre := Prepare(d, op.id, op.now, op.victim);
            Step(c, d, op) ==
              if op.index in Found(d, op).shards
              then pre.(groups := pre.groups[op.id := Extended(d, op)])
              else Settle(c, pre, op.id, Extended(d, op))
  {
    hide Lawful, BuildShard, Settle, Prepare, IsShard;
  }
}
