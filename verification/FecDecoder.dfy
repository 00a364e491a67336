/**
 The receiving side of forward error correction: shards are collected per group,
 the geometry is learned from parity, and missing packets are rebuilt.
 */
module FecDecoder {
  import opened Words
  import opened FecShards

  const MAX_GROUPS := 512
  const GROUP_EXPIRY := 1_000_000_000
  const SWEEP_EVERY := 128

  /** The shards of one group; `k == 0` until a parity shard reveals the geometry. */
  datatype Entry = Entry(shards: map<int, Bytes>, k: nat, m: nat, shardLen: nat, touched: int)

  /** `recovered` lists the repaired packets handed to the callback. */
  datatype Dec = Dec(groups: map<int, Entry>, adds: nat, recovered: seq<Packet>)

  function NewDec(): Dec {
    Dec(map[], 0, [])
  }

  // ----- Sweeping -----

  predicate Stale(g: Entry, now: int) {
    g.touched < now - GROUP_EXPIRY
  }

  /** All stale groups go, and at most one victim besides. */
  function Sweep(groups: map<int, Entry>, now: int, victim: Option<int>): map<int, Entry> {
    map id | id in groups && !Stale(groups[id], now) && victim != Some(id) :: groups[id]
  }

  lemma SweepUnique(groups: map<int, Entry>, now: int, victim: Option<int>, r: map<int, Entry>)
    requires forall id :: id in r <==> id in groups && !Stale(groups[id], now) && victim != Some(id)
    requires forall id :: id in r ==> r[id] == groups[id]
    ensures r == Sweep(groups, now, victim)
  {
    var s := Sweep(groups, now, victim);
    assert forall id :: id in s <==> id in r;
    assert r.Keys == s.Keys;
    assert forall id :: id in s ==> s[id] == r[id];
    assert r == s;
  }

  /**
   What a forced sweep of a full table may choose: map order is arbitrary, so
   either some fresh group is visited first and goes, or a stale one is.
   */
  ghost predicate LegalVictim(groups: map<int, Entry>, now: int, victim: Option<int>) {
    && (victim.Some? ==> victim.value in groups && !Stale(groups[victim.value], now))
    && ((forall id :: id in groups ==> !Stale(groups[id], now)) ==> victim.Some?)
  }

  // ----- One registration -----

  function MaybeSweep(d: Dec, now: int): Dec {
    d.(adds := d.adds + 1,
       groups := if (d.adds + 1) % SWEEP_EVERY == 0 then Sweep(d.groups, now, None) else d.groups)
  }

  /** Find the group or start it, evicting when the table is full. */
  function Touch(d: Dec, id: int, now: int, victim: Option<int>): Dec {
    if id in d.groups then d.(groups := d.groups[id := d.groups[id].(touched := now)])
    else
      var room := if |d.groups| >= MAX_GROUPS then Sweep(d.groups, now, victim) else d.groups;
      d.(groups := room[id := Entry(map[], 0, 0, 0, now)])
  }

  function Prepare(d: Dec, id: int, now: int, victim: Option<int>): (r: Dec)
    ensures id in r.groups
  {
    Touch(MaybeSweep(d, now), id, now, victim)
  }

  /** The shards that belong to the data part. */
  function DataKeys(g: Entry): set<int> {
    set i | i in g.shards && i < g.k
  }

  /** The shards given to the codec, all cut or padded to one length. */
  function Aligned(g: Entry): map<int, Bytes> {
    map i | i in g.shards && i < g.k + g.m :: Fit(g.shards[i], g.shardLen)
  }

  /** The packets rebuilt from data shards that had not arrived, from index `i` on. */
  function Rebuilt(g: Entry, data: seq<Bytes>, i: nat): seq<Packet>
    decreases g.k - i
  {
    if i >= g.k || i >= |data| then []
    else
      var here := if i in g.shards then None else ParseShard(data[i]);
      (if here.Some? then [here.value] else []) + Rebuilt(g, data, i + 1)
  }

  /** Store the group, or finish it: complete groups vanish, repairable ones are repaired. */
  function Settle(c: Codec, d: Dec, id: int, g: Entry): Dec {
    var kept := d.(groups := d.groups[id := g]);
    if g.k == 0 then kept
    else if |DataKeys(g)| >= g.k then d.(groups := d.groups - {id})
    else if |g.shards| < g.k then kept
    else match c.repair(g.k, g.m, Aligned(g))
      case None => kept
      case Some(data) => d.(groups := d.groups - {id}, recovered := d.recovered + Rebuilt(g, data, 0))
  }

  function RegisterData(c: Codec, d: Dec, id: U32, index: Byte, p: Packet, now: int, victim: Option<int>): Dec {
    var e := Prepare(d, id, now, victim);
    var g := e.groups[id];
    if index in g.shards then e
    else Settle(c, e, id, g.(shards := g.shards[index := BuildShard(p)]))
  }

  function RegisterParity(c: Codec, d: Dec, id: U32, index: Byte, k: Byte, m: Byte, shard: Bytes,
                     now: int, victim: Option<int>): Dec
  {
    var e := Prepare(d, id, now, victim);
    if k == 0 then e
    else
      var g := e.groups[id].(k := k, m := m, shardLen := |shard|);
      if index in g.shards then e.(groups := e.groups[id := g])
      else Settle(c, e, id, g.(shards := g.shards[index := shard]))
  }

  // ----- The decoder itself -----

  class Decoder {
    const codec: Codec
    var groups: map<int, Entry>
    var adds: nat
    var recovered: seq<Packet>

    function State(): Dec
      reads this
    {
      Dec(groups, adds, recovered)
    }

    constructor (codec: Codec)
      ensures this.codec == codec && State() == NewDec()
    {
      this.codec := codec;
      groups, adds, recovered := map[], 0, [];
    }

    method AddData(id: U32, index: Byte, p: Packet, now: int) returns (ghost victim: Option<int>)
      modifies this
      ensures State() == RegisterData(codec, old(State()), id, index, p, now, victim)
    {
      MaybeSweepLocked(now);
      victim := GroupLocked(id, now);
      var g := groups[id];
      if index in g.shards {
        return;
      }
      SettleLocked(id, g.(shards := g.shards[index := BuildShard(p)]));
    }

    method AddParity(id: U32, index: Byte, k: Byte, m: Byte, shard: Bytes, now: int)
      returns (ghost victim: Option<int>)
      modifies this
      ensures State() == RegisterParity(codec, old(State()), id, index, k, m, shard, now, victim)
    {
      MaybeSweepLocked(now);
      victim := GroupLocked(id, now);
      if k == 0 {
        return;
      }
      var g := groups[id].(k := k, m := m, shardLen := |shard|);
      if index in g.shards {
        groups := groups[id := g];
        return;
      }
      SettleLocked(id, g.(shards := g.shards[index := shard]));
    }

    method GroupLocked(id: int, now: int) returns (ghost victim: Option<int>)
      modifies this`groups
      ensures State() == Touch(old(State()), id, now, victim)
      ensures id !in old(groups) && |old(groups)| >= MAX_GROUPS ==> LegalVictim(old(groups), now, victim)
    {
      victim := None;
      if id in groups {
        groups := groups[id := groups[id].(touched := now)];
        return;
      }
      if |groups| >= MAX_GROUPS {
        victim := SweepLocked(now, true);
      }
      groups := groups[id := Entry(map[], 0, 0, 0, now)];
    }

    method MaybeSweepLocked(now: int)
      modifies this`adds, this`groups
      ensures State() == MaybeSweep(old(State()), now)
    {
      adds := adds + 1;
      if adds % SWEEP_EVERY == 0 {
        var _ := SweepLocked(now, false);
      }
    }

    method SweepLocked(now: int, force: bool) returns (ghost victim: Option<int>)
      modifies this`groups
      ensures groups == Sweep(old(groups), now, victim)
      ensures !force ==> victim == None
      ensures force && |old(groups)| >= MAX_GROUPS ==> LegalVictim(old(groups), now, victim)
    {
      var forced := force;
      var pending := groups.Keys;
      victim := None;
      while pending != {}
        invariant pending <= groups.Keys <= old(groups).Keys
        invariant forall id :: id in groups ==> groups[id] == old(groups)[id]
        invariant forall id :: id in old(groups) && id !in pending ==>
                    (id in groups <==> !Stale(old(groups)[id], now) && victim != Some(id))
        invariant victim.Some? ==> !forced && victim.value in old(groups) && victim.value !in pending
                                   && !Stale(old(groups)[victim.value], now)
        invariant !force ==> victim == None && !forced
        invariant force && |old(groups)| >= MAX_GROUPS ==>
                    if forced then groups == old(groups) && pending == groups.Keys && victim == None
                    else victim.Some? || exists id :: id in old(groups) && Stale(old(groups)[id], now)
        decreases |pending|
      {
        if forall id :: id !in pending {
          assert false;
        }
        var id :| id in pending;
        if Stale(groups[id], now) || (forced && |groups| >= MAX_GROUPS) {
          if !Stale(groups[id], now) {
            victim := Some(id);
          }
          groups := groups - {id};
          forced := false;
        }
        pending := pending - {id};
      }
      assert forall id :: id !in pending;
      SweepUnique(old(groups), now, victim, groups);
    }

    method SettleLocked(id: int, g: Entry)
      modifies this`groups, this`recovered
      ensures State() == Settle(codec, old(State()), id, g)
    {
      if g.k == 0 {
        groups := groups[id := g];
        return;
      }
      var dataHave := CountData(g);
      if dataHave >= g.k {
        groups := groups - {id};
        return;
      }
      if |g.shards| < g.k {
        groups := groups[id := g];
        return;
      }
      var all := AlignShards(g);
      var repaired := codec.repair(g.k, g.m, all);
      if repaired.None? {
        groups := groups[id := g];
        return;
      }
      var data := repaired.value;
      var i := 0;
      while i < g.k && i < |data|
        invariant 0 <= i
        invariant groups == old(groups)
        invariant recovered + Rebuilt(g, data, i) == old(recovered) + Rebuilt(g, data, 0)
        decreases g.k - i
      {
        if i !in g.shards {
          var p := ParseShard(data[i]);
          if p.Some? {
            recovered := recovered + [p.value];
          }
        }
        i := i + 1;
      }
      groups := groups - {id};
    }

    static method CountData(g: Entry) returns (n: nat)
      ensures n == |DataKeys(g)|
    {
      n := 0;
      var pending := g.shards.Keys;
      ghost var seen: set<int> := {};
      while pending != {}
        invariant pending <= g.shards.Keys
        invariant seen == set i | i in g.shards && i < g.k && i !in pending
        invariant n == |seen|
        decreases |pending|
      {
        if forall i :: i !in pending {
          assert false;
        }
        var i :| i in pending;
        if i < g.k {
          n := n + 1;
          seen := seen + {i};
        }
        pending := pending - {i};
      }
      assert seen == DataKeys(g);
    }

    static method AlignShards(g: Entry) returns (all: map<int, Bytes>)
      ensures all == Aligned(g)
    {
      all := map[];
      var pending := g.shards.Keys;
      while pending != {}
        invariant pending <= g.shards.Keys
        invariant all.Keys == set i | i in g.shards && i < g.k + g.m && i !in pending
        invariant forall i :: i in all ==> all[i] == Fit(g.shards[i], g.shardLen)
        decreases |pending|
      {
        if forall i :: i !in pending {
          assert false;
        }
        var i :| i in pending;
        if i < g.k + g.m {
          var s := g.shards[i];
          if |s| < g.shardLen {
            s := s + Zeros(g.shardLen - |s|);
          }
          all := all[i := s[..g.shardLen]];
        }
        pending := pending - {i};
      }
    }
  }
}
