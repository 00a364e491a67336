/**
 What the decoder promises over whole runs: truthful shards keep it truthful, and
 enough of them repair every packet of a group. The table of groups stays small.
 */
module FecTheorems {
  import opened Words
  import opened FecShards
  import opened FecDecoder
  import opened FecRepair

  function Below(n: nat): (s: set<int>)
    ensures forall i :: i in s <==> 0 <= i < n
    ensures |s| == n
  {
    if n == 0 then {}
    else
      assert (n - 1) !in Below(n - 1);
      Below(n - 1) + {n - 1}
  }

  lemma SubsetSize(a: set<int>, b: set<int>)
    requires a <= b
    ensures |a| <= |b|
    ensures |a| == |b| ==> a == b
  {
    assert |b| == |a| + |b - a| by {
      assert b == a + (b - a);
    }
    if |a| == |b| {
      assert b - a == {};
      assert b == a;
    }
  }

  // ----- What a new shard does -----

  /** A shard not seen before is stored, completes its group, or repairs it. */
  lemma NewShard(c: Codec, g: Group, d: Dec, op: DecOp)
    requires Real(c, g) && Truthful(c, g, op.id, op)
    requires op.id in d.groups ==> EntryOk(c, g, d.groups[op.id])
    requires op.index !in Found(d, op).shards
    ensures var e, r := Extended(d, op), Step(c, d, op);
            && EntryOk(c, g, e)
            && e.shards.Keys == Found(d, op).shards.Keys + {op.index}
            && |e.shards| == |Found(d, op).shards| + 1
            && if e.k == 0 || (|e.shards| < g.K() && |DataKeys(e)| < g.K())
               then op.id in r.groups && r.groups[op.id] == e && r.recovered == d.recovered
               else op.id !in r.groups
                    && r.recovered == d.recovered + if |DataKeys(e)| >= g.K() then []
                                                    else Absent(g.packets, e.shards.Keys, 0)
  {
    hide Real, EntryOk, Absent, DataKeys, Settle, Step, Extended, Found, Prepare;
    var e := Extended(d, op);
    FoundShards(d, op);
    ExtendedOk(c, g, d, op);
    StepSettles(c, g, d, op);
    SettleExact(c, g, Prepare(d, op.id, op.now, op.victim), op.id, e);
    assert |e.shards.Keys| == |Found(d, op).shards.Keys| + 1;
  }

  /** A shard seen before changes nothing but the geometry. */
  lemma OldShard(c: Codec, g: Group, d: Dec, op: DecOp)
    requires Real(c, g) && Truthful(c, g, op.id, op)
    requires op.id in d.groups ==> EntryOk(c, g, d.groups[op.id])
    requires op.index in Found(d, op).shards
    ensures var r := Step(c, d, op);
            && op.id in r.groups && EntryOk(c, g, r.groups[op.id])
            && r.groups[op.id].shards.Keys == Found(d, op).shards.Keys
            && (r.groups[op.id].k == 0 ==> Found(d, op).k == 0)
            && r.recovered == d.recovered
  {
    hide Real, EntryOk, Absent, DataKeys, Settle, Step, Found, Prepare;
    FoundShards(d, op);
    ExtendedOk(c, g, d, op);
    StepSettles(c, g, d, op);
    TruthfulIndex(c, g, op.id, op);
    assert op.index in Extended(d, op).shards;
  }

  // ----- Safety: only true packets are emitted -----

  /** Each operation of a truthful stream keeps the entry true and emits only packets of the group. */
  lemma StepSafe(c: Codec, g: Group, d: Dec, op: DecOp)
    requires Real(c, g) && Truthful(c, g, op.id, op)
    requires op.id in d.groups ==> EntryOk(c, g, d.groups[op.id])
    ensures var r := Step(c, d, op);
            && (op.id in r.groups ==> EntryOk(c, g, r.groups[op.id]))
            && d.recovered <= r.recovered
            && (forall i :: |d.recovered| <= i < |r.recovered| ==> r.recovered[i] in g.packets)
  {
    hide Real, EntryOk, Absent, DataKeys, Step, Extended, Found, Truthful;
    var r := Step(c, d, op);
    if op.index in Found(d, op).shards {
      OldShard(c, g, d, op);
    } else {
      NewShard(c, g, d, op);
      forall i | |d.recovered| <= i < |r.recovered|
        ensures r.recovered[i] in g.packets
      {
        var have := Extended(d, op).shards.Keys;
        assert r.recovered[i] in Absent(g.packets, have, 0);
        AbsentExactly(g.packets, have, 0, r.recovered[i]);
      }
    }
  }

  // ----- Repair -----

  /** Every packet of the group arrived or was rebuilt. */
  ghost predicate Covered(g: Group, seen: set<int>, out: seq<Packet>) {
    forall i :: 0 <= i < g.K() ==> i in seen || g.packets[i] in out
  }

  /** The entry holds exactly the shards seen so far, and the geometry once parity came. */
  ghost predicate Collecting(g: Group, id: int, d: Dec, seen: set<int>) {
    && (seen != {} ==> id in d.groups)
    && (id in d.groups ==> d.groups[id].shards.Keys == seen)
    && (id in d.groups && d.groups[id].k == 0 ==> forall i :: i in seen ==> i < g.K())
  }

  ghost predicate Progress(c: Codec, g: Group, id: int, d: Dec, seen: set<int>, base: nat)
    requires Real(c, g)
  {
    && base <= |d.recovered|
    && seen <= Below(g.K() + g.m)
    && (id in d.groups ==> EntryOk(c, g, d.groups[id]))
    && if |seen| < g.K() then Collecting(g, id, d, seen) else Covered(g, seen, d.recovered[base..])
  }

  lemma CoveredGrows(g: Group, seen: set<int>, out: seq<Packet>, more: set<int>, longer: seq<Packet>)
    requires Covered(g, seen, out) && seen <= more && out <= longer
    ensures Covered(g, more, longer)
  {
    forall i | 0 <= i < g.K() && i !in more
      ensures g.packets[i] in longer
    {
      var j :| 0 <= j < |out| && out[j] == g.packets[i];
      assert longer[j] == out[j];
    }
  }

  // All data indexes are present: the group is complete without parity.
  lemma AllDataSeen(g: Group, seen: set<int>, out: seq<Packet>)
    requires |seen| >= g.K() && forall i :: i in seen ==> 0 <= i < g.K()
    ensures Covered(g, seen, out)
  {
    assert seen <= Below(g.K());
    SubsetSize(seen, Below(g.K()));
  }

  // The k-th distinct shard completes the group.
  lemma CompletingStep(c: Codec, g: Group, id: int, d: Dec, op: DecOp, seen: set<int>, base: nat)
    requires Real(c, g) && op.id == id && Truthful(c, g, id, op)
    requires Progress(c, g, id, d, seen, base) && |seen| < g.K() && op.index !in seen
    requires Found(d, op).shards.Keys == seen && (Found(d, op).k == 0 ==> forall i :: i in seen ==> i < g.K())
    ensures Progress(c, g, id, Step(c, d, op), seen + {op.index}, base)
    ensures |seen| + 1 == g.K() && (exists i :: i in seen + {op.index} && i >= g.K()) ==>
            var r := Step(c, d, op);
            id !in r.groups && r.recovered == d.recovered + Absent(g.packets, seen + {op.index}, 0)
  {
    hide Real, EntryOk, Absent, Step, Found, Truthful, DataKeys, Covered;
    var e, r, more := Extended(d, op), Step(c, d, op), seen + {op.index};
    NewShard(c, g, d, op);
    TruthfulIndex(c, g, id, op);
    EntryGeometry(c, g, e);
    ExtendedGeometry(d, op);
    if |more| < g.K() {
      FewData(e);
    } else if forall i :: i in more ==> i < g.K() {
      AllDataSeen(g, more, r.recovered[base..]);
    } else {
      SomeParity(e, g.K());
      EmittedCovers(g, d, more, r, base);
    }
  }

  lemma ExtendedGeometry(d: Dec, op: DecOp)
    ensures op.DataIn? ==> Extended(d, op).k == Found(d, op).k
    ensures op.ParityIn? ==> Extended(d, op).k == op.k
  {
  }

  lemma TruthfulIndex(c: Codec, g: Group, id: int, op: DecOp)
    requires Real(c, g) && op.id == id && Truthful(c, g, id, op)
    ensures 0 <= op.index < g.K() + g.m
    ensures op.ParityIn? ==> op.k != 0 && op.index >= g.K()
    ensures op.DataIn? ==> op.index < g.K()
  {
    hide Lawful;
  }

  lemma FewData(e: Entry)
    ensures |DataKeys(e)| <= |e.shards|
  {
    SubsetSize(DataKeys(e), e.shards.Keys);
  }

  lemma SomeParity(e: Entry, k: nat)
    requires e.k == k && exists i :: i in e.shards && i >= k
    ensures |DataKeys(e)| < |e.shards|
  {
    SubsetSize(DataKeys(e), e.shards.Keys);
  }

  lemma EmittedCovers(g: Group, d: Dec, seen: set<int>, r: Dec, base: nat)
    requires base <= |d.recovered|
    requires r.recovered == d.recovered + Absent(g.packets, seen, 0)
    ensures Covered(g, seen, r.recovered[base..])
  {
    var es := Absent(g.packets, seen, 0);
    assert r.recovered[base..] == d.recovered[base..] + es;
    forall i | 0 <= i < g.K() && i !in seen
      ensures g.packets[i] in r.recovered[base..]
    {
      AbsentExactly(g.packets, seen, 0, g.packets[i]);
    }
  }

  lemma FoundCollecting(g: Group, id: int, d: Dec, op: DecOp, seen: set<int>)
    requires op.id == id && Collecting(g, id, d, seen) && !Evicts(d, op, id)
    ensures Found(d, op).shards.Keys == seen
    ensures Found(d, op).k == 0 ==> forall i :: i in seen ==> i < g.K()
  {
    hide Found, Evicts;
    FoundShards(d, op);
  }

  lemma ProgressStep(c: Codec, g: Group, id: int, d: Dec, op: DecOp, seen: set<int>, base: nat)
    requires Real(c, g) && Truthful(c, g, id, op) && Progress(c, g, id, d, seen, base) && !Evicts(d, op, id)
    ensures Progress(c, g, id, Step(c, d, op), if op.id == id then seen + {op.index} else seen, base)
  {
    hide Real, EntryOk, Step, Found, Truthful, Covered, Evicts, Collecting;
    var r := Step(c, d, op);
    if op.id != id {
      OtherGroup(c, d, op, id);
      if |seen| < g.K() {
        CollectingElsewhere(g, id, d, seen, r);
      } else {
        CoveredGrows(g, seen, d.recovered[base..], seen, r.recovered[base..]);
      }
      return;
    }
    TruthfulIndex(c, g, id, op);
    StepSafe(c, g, d, op);
    SubsetSize(seen, seen + {op.index});
    if |seen| >= g.K() {
      CoveredGrows(g, seen, d.recovered[base..], seen + {op.index}, r.recovered[base..]);
      return;
    }
    FoundCollecting(g, id, d, op, seen);
    if op.index in seen {
      OldShard(c, g, d, op);
      assert seen + {op.index} == seen;
      CollectingAgain(g, id, r, seen);
    } else {
      CompletingStep(c, g, id, d, op, seen, base);
    }
  }

  lemma CollectingElsewhere(g: Group, id: int, d: Dec, seen: set<int>, r: Dec)
    requires Collecting(g, id, d, seen)
    requires id in r.groups <==> id in d.groups
    requires id in r.groups ==> r.groups[id] == d.groups[id]
    ensures Collecting(g, id, r, seen)
  {
  }

  lemma CollectingAgain(g: Group, id: int, r: Dec, seen: set<int>)
    requires id in r.groups && r.groups[id].shards.Keys == seen
    requires r.groups[id].k == 0 ==> forall i :: i in seen ==> i < g.K()
    ensures Collecting(g, id, r, seen)
  {
  }

  /** The shard indexes of group `id` among the operations. */
  function Registered(ops: seq<DecOp>, id: int): set<int> {
    if ops == [] then {}
    else (if ops[0].id == id then {ops[0].index as int} else {}) + Registered(ops[1..], id)
  }

  /** The group survives every sweep of the run. */
  ghost predicate NeverEvicted(c: Codec, d: Dec, ops: seq<DecOp>, id: int)
    decreases |ops|
  {
    ops == [] || (!Evicts(d, ops[0], id) && NeverEvicted(c, Step(c, d, ops[0]), ops[1..], id))
  }

  lemma {:induction false} ProgressRun(c: Codec, g: Group, id: int, d: Dec, ops: seq<DecOp>, seen: set<int>, base: nat)
    requires Real(c, g) && Progress(c, g, id, d, seen, base) && NeverEvicted(c, d, ops, id)
    requires forall i :: 0 <= i < |ops| ==> Truthful(c, g, id, ops[i])
    ensures Progress(c, g, id, Run(c, d, ops), seen + Registered(ops, id), base)
    decreases |ops|
  {
    hide Real, Step, Truthful, Evicts, Progress;
    if ops == [] {
      assert seen + Registered(ops, id) == seen;
    } else {
      var now := if ops[0].id == id then seen + {ops[0].index as int} else seen;
      ProgressStep(c, g, id, d, ops[0], seen, base);
      ProgressRun(c, g, id, Step(c, d, ops[0]), ops[1..], now, base);
      assert now + Registered(ops[1..], id) == seen + Registered(ops, id);
    }
  }

  /**
   Repair: once any k of the k + m shards of a group have been registered, in any
   order, with repetitions, interleaved with arbitrary shards of other groups and
   without eviction, every packet of the group has arrived as DATA or been
   emitted by the decoder with its exact sequence number and bytes.
   */
  lemma EnoughShardsRepair(c: Codec, g: Group, id: int, d: Dec, ops: seq<DecOp>)
    requires Real(c, g) && id !in d.groups && NeverEvicted(c, d, ops, id)
    requires forall i :: 0 <= i < |ops| ==> Truthful(c, g, id, ops[i])
    requires |Registered(ops, id)| >= g.K()
    ensures |d.recovered| <= |Run(c, d, ops).recovered|
    ensures Covered(g, Registered(ops, id), Run(c, d, ops).recovered[|d.recovered|..])
  {
    hide Real, Step, Truthful, Evicts, Registered, NeverEvicted, Run;
    assert Progress(c, g, id, d, {}, |d.recovered|);
    ProgressRun(c, g, id, d, ops, {}, |d.recovered|);
    assert {} + Registered(ops, id) == Registered(ops, id);
  }

  // ----- The size of the table -----

  /** The choice of a forced sweep is one the map iteration can make. */
  ghost predicate LegalOp(d: Dec, op: DecOp) {
    var m := MaybeSweep(d, op.now).groups;
    op.id !in m && |m| >= MAX_GROUPS ==> LegalVictim(m, op.now, op.victim)
  }

  lemma ForcedSweepFrees(groups: map<int, Entry>, now: int, victim: Option<int>)
    requires LegalVictim(groups, now, victim)
    ensures |Sweep(groups, now, victim)| < |groups| || |groups| == 0
  {
    var after := Sweep(groups, now, victim);
    assert after.Keys <= groups.Keys;
    if groups != map[] {
      var gone: int;
      if victim.Some? {
        gone := victim.value;
      } else {
        gone :| gone in groups && Stale(groups[gone], now);
      }
      assert gone in groups.Keys && gone !in after.Keys;
      SubsetSize(after.Keys, groups.Keys - {gone});
    }
  }

  /** The table never holds more than 512 groups. */
  lemma TableBounded(c: Codec, d: Dec, op: DecOp)
    requires |d.groups| <= 512 && LegalOp(d, op)
    ensures |Step(c, d, op).groups| <= 512
  {
    hide Settle;
    var m, pre := MaybeSweep(d, op.now), Prepare(d, op.id, op.now, op.victim);
    assert m.groups.Keys <= d.groups.Keys;
    SubsetSize(m.groups.Keys, d.groups.Keys);
    PreparedSize(m, op.id, op.now, op.victim);
    SettleShrinks(c, pre, op.id, Extended(d, op));
    SettleShrinks(c, pre, op.id, pre.groups[op.id]);
  }

  lemma PreparedSize(m: Dec, id: int, now: int, victim: Option<int>)
    requires |m.groups| <= MAX_GROUPS
    requires id !in m.groups && |m.groups| >= MAX_GROUPS ==> LegalVictim(m.groups, now, victim)
    ensures |Touch(m, id, now, victim).groups| <= MAX_GROUPS
  {
    if id in m.groups {
      assert m.groups[id := m.groups[id].(touched := now)].Keys == m.groups.Keys;
    } else {
      var room := if |m.groups| >= MAX_GROUPS then Sweep(m.groups, now, victim) else m.groups;
      if |m.groups| >= MAX_GROUPS {
        ForcedSweepFrees(m.groups, now, victim);
      }
      assert room[id := Entry(map[], 0, 0, 0, now)].Keys == room.Keys + {id};
    }
  }

  lemma SettleShrinks(c: Codec, d: Dec, id: int, e: Entry)
    requires id in d.groups
    ensures |Settle(c, d, id, e).groups| <= |d.groups|
    ensures |d.groups[id := e]| == |d.groups|
  {
    hide Rebuilt, Aligned, DataKeys;
    assert d.groups[id := e].Keys == d.groups.Keys;
    assert (d.groups - {id}).Keys == d.groups.Keys - {id};
  }
}
