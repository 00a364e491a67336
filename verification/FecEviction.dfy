/**
 When the decoder forgets a group: a group is swept only after a second without a
 shard, or as the victim of a table of 512 groups, and every 128th registration
 sweeps all that are due. So a group whose shards arrive within a second is repaired.
 */
module FecEviction {
  import opened Words
  import opened FecShards
  import opened FecDecoder
  import opened FecRepair
  import opened FecTheorems

  /** How long the group has been without a shard. */
  function Idle(d: Dec, id: int, now: int): int
    requires id in d.groups
  {
    now - d.groups[id].touched
  }

  /**
   Exactly which other groups a registration forgets: those idle for more than a
   second when this is a 128th registration or the table is full, and the victim of
   a full table. `full` is measured after the periodic sweep.
   */
  lemma EvictionExact(c: Codec, d: Dec, op: DecOp, id: int)
    requires id in d.groups && id != op.id
    ensures var r := Step(c, d, op);
            var due := (d.adds + 1) % 128 == 0;
            var recent := set i | i in d.groups && Idle(d, i, op.now) <= 1_000_000_000;
            var full := if due then op.id !in recent && |recent| >= 512 else op.id !in d.groups && |d.groups| >= 512;
            && (id in r.groups ==> r.groups[id] == d.groups[id])
            && (id !in r.groups <==>
                 || (Idle(d, id, op.now) > 1_000_000_000 && (due || full))
                 || (full && op.victim == Some(id)))
  {
    hide Settle, BuildShard;
    var pre := Prepare(d, op.id, op.now, op.victim);
    SettleLocal(c, pre, op.id, Extended(d, op), id);
    SettleLocal(c, pre, op.id, pre.groups[op.id], id);
    var m := MaybeSweep(d, op.now).groups;
    var recent := set i | i in d.groups && Idle(d, i, op.now) <= 1_000_000_000;
    assert m.Keys == if (d.adds + 1) % 128 == 0 then recent else d.groups.Keys;
    assert |m| == |m.Keys|;
  }

  /** A group leaves by a sweep only if it was idle for more than a second, or as victim of a full table. */
  lemma EvictionReason(d: Dec, op: DecOp, id: int)
    requires Evicts(d, op, id)
    ensures Idle(d, id, op.now) > 1_000_000_000 || (|d.groups| >= 512 && op.victim == Some(id))
  {
    var m := MaybeSweep(d, op.now);
    assert m.groups.Keys <= d.groups.Keys;
    SubsetSize(m.groups.Keys, d.groups.Keys);
  }

  /** After every 128th registration no other group is left that was idle for more than a second. */
  lemma PeriodicSweepIsThorough(c: Codec, d: Dec, op: DecOp, id: int)
    requires (d.adds + 1) % 128 == 0 && id in Step(c, d, op).groups && id != op.id
    ensures op.now - Step(c, d, op).groups[id].touched <= 1_000_000_000
  {
    hide Step;
    OtherGroup(c, d, op, id);
    EvictionExact(c, d, op, id);
  }

  /**
   The group of the registration itself: it is touched, it keeps its shards when it
   was not idle for more than a second, and on a 128th registration starts afresh
   when it was.
   */
  lemma OwnGroup(c: Codec, d: Dec, op: DecOp)
    ensures var r := Step(c, d, op);
            && r.adds == d.adds + 1
            && (op.id in r.groups ==>
                 && r.groups[op.id].touched == op.now
                 && (op.id in d.groups && Idle(d, op.id, op.now) <= 1_000_000_000 ==>
                      d.groups[op.id].shards.Keys <= r.groups[op.id].shards.Keys)
                 && (op.id in d.groups && Idle(d, op.id, op.now) > 1_000_000_000 && (d.adds + 1) % 128 == 0 ==>
                      r.groups[op.id].shards.Keys <= {op.index as int}))
  {
    hide BuildShard, Rebuilt, Aligned, DataKeys;
  }

  // ----- Runs within a second -----

  function Ids(ops: seq<DecOp>): set<int> {
    set i | 0 <= i < |ops| :: ops[i].id as int
  }

  /** No operation comes more than a second after another one or after a group was touched. */
  ghost predicate WithinSecond(d: Dec, ops: seq<DecOp>) {
    && (forall id, i :: id in d.groups && 0 <= i < |ops| ==> Idle(d, id, ops[i].now) <= 1_000_000_000)
    && (forall i, j :: 0 <= i < j < |ops| ==> ops[j].now - ops[i].now <= 1_000_000_000)
  }

  lemma WithinSecondStep(c: Codec, d: Dec, ops: seq<DecOp>)
    requires ops != [] && WithinSecond(d, ops)
    ensures WithinSecond(Step(c, d, ops[0]), ops[1..])
  {
    hide Step;
    var op, r := ops[0], Step(c, d, ops[0]);
    OwnGroup(c, d, op);
    forall id, i | id in r.groups && 0 <= i < |ops[1..]|
      ensures Idle(r, id, ops[1..][i].now) <= 1_000_000_000
    {
      assert ops[1..][i] == ops[i + 1];
      if id != op.id {
        OtherGroup(c, d, op, id);
      }
    }
  }

  lemma KeysStep(c: Codec, d: Dec, op: DecOp)
    ensures Step(c, d, op).groups.Keys <= d.groups.Keys + {op.id as int}
  {
    hide Step;
    forall id | id in Step(c, d, op).groups
      ensures id in d.groups || id == op.id
    {
      if id != op.id {
        OtherGroup(c, d, op, id);
      }
    }
  }

  /** With at most 512 groups in play and everything within a second, nothing is ever evicted. */
  lemma {:induction false} ActiveNeverEvicted(c: Codec, d: Dec, ops: seq<DecOp>, id: int)
    requires WithinSecond(d, ops) && |d.groups.Keys + Ids(ops)| <= 512
    ensures NeverEvicted(c, d, ops, id)
    decreases |ops|
  {
    hide Step, WithinSecond, Evicts;
    if ops != [] {
      var r := Step(c, d, ops[0]);
      assert ops[0].id in Ids(ops);
      forall x | x in Ids(ops[1..])
        ensures x in Ids(ops)
      {
        var i :| 0 <= i < |ops[1..]| && x == ops[1..][i].id;
        assert ops[i + 1].id == x;
      }
      KeysStep(c, d, ops[0]);
      SubsetSize(r.groups.Keys + Ids(ops[1..]), d.groups.Keys + Ids(ops));
      WithinSecondStep(c, d, ops);
      NotEvicted(d, ops, id);
      ActiveNeverEvicted(c, r, ops[1..], id);
    }
  }

  lemma NotEvicted(d: Dec, ops: seq<DecOp>, id: int)
    requires ops != [] && WithinSecond(d, ops) && |d.groups.Keys + Ids(ops)| <= 512
    ensures !Evicts(d, ops[0], id)
  {
    var op := ops[0];
    if Evicts(d, op, id) {
      EvictionReason(d, op, id);
      assert |d.groups| == |d.groups.Keys|;
      assert op.id in Ids(ops);
      SubsetSize(d.groups.Keys, d.groups.Keys + Ids(ops));
      OnlyNewEvicts(d, op, id);
    }
  }

  // A group not due for a sweep only makes room for a group that is not in the table.
  lemma OnlyNewEvicts(d: Dec, op: DecOp, id: int)
    requires Evicts(d, op, id) && Idle(d, id, op.now) <= 1_000_000_000
    requires forall i :: i in d.groups ==> Idle(d, i, op.now) <= 1_000_000_000
    ensures op.id !in d.groups
  {
    var m := MaybeSweep(d, op.now).groups;
    forall i
      ensures i in m <==> i in d.groups
    {
      assert i in d.groups ==> Idle(d, i, op.now) <= 1_000_000_000;
    }
  }

  /**
   Repair in terms of time: when the registrations, of at most 512 groups, all fall
   within a second, any k of the k + m shards of a group bring back every packet.
   */
  lemma ShardsWithinSecondRepair(c: Codec, g: Group, id: int, ops: seq<DecOp>)
    requires Real(c, g) && |Ids(ops)| <= 512
    requires forall i, j :: 0 <= i < j < |ops| ==> ops[j].now - ops[i].now <= 1_000_000_000
    requires forall i :: 0 <= i < |ops| ==> Truthful(c, g, id, ops[i])
    requires |Registered(ops, id)| >= g.K()
    ensures Covered(g, Registered(ops, id), Run(c, NewDec(), ops).recovered)
  {
    hide Real, Step, Truthful, Registered, Run, NeverEvicted;
    assert NewDec().groups.Keys + Ids(ops) == Ids(ops);
    ActiveNeverEvicted(c, NewDec(), ops, id);
    EnoughShardsRepair(c, g, id, NewDec(), ops);
    var out := Run(c, NewDec(), ops).recovered;
    assert out[0..] == out;
  }

  /**
   When the code cannot repair a group although enough shards are there, nothing is
   emitted and the group keeps all its shards, the new one included.
   */
  lemma FailedRepairKeepsShards(c: Codec, d: Dec, op: DecOp)
    requires op.index !in Found(d, op).shards && (op.ParityIn? ==> op.k > 0)
    requires var e := Extended(d, op);
             e.k > 0 && |DataKeys(e)| < e.k && c.repair(e.k, e.m, Aligned(e)) == None
    ensures var r := Step(c, d, op);
            && r.recovered == d.recovered && op.id in r.groups
            && r.groups[op.id].shards.Keys == Found(d, op).shards.Keys + {op.index as int}
  {
    hide BuildShard, Aligned, DataKeys, Rebuilt;
  }
}
