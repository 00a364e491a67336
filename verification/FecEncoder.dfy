/**
 The sending side of forward error correction: packets are collected into
 groups, and closing a group emits its parity shards.
 */
module FecEncoder {
  import opened Words
  import opened FecShards

  const FLUSH_TIMEOUT := 8_000_000
  const GROUP_IDS := 0x100_0000

  /** A group geometry; `k == 0` means off. */
  datatype Params = Params(k: nat, m: nat)

  /** The geometries that `PickParams` and `ParseForce` produce. */
  predicate WellFormed(p: Params) {
    p.k == 0 || (1 <= p.k <= MAX_K && 1 <= p.m <= MAX_M)
  }

  /**
   The controller table, over the aggregate loss rate. `m <= k` holds of its rows, not
   of the groups: a flush closes a group with fewer than k packets.
   */
  function PickParams(loss: real): (p: Params)
    ensures WellFormed(p)
    ensures p.k == 0 <==> loss < 0.001
    ensures p.m <= p.k
  {
    if loss < 0.001 then Params(0, 0)
    else if loss < 0.005 then Params(10, 1)
    else if loss < 0.02 then Params(10, 2)
    else if loss < 0.05 then Params(8, 3)
    else Params(5, 2)
  }

  /** Thousandths of parity per data packet the table promises at a loss rate. */
  function Overhead(loss: real): int {
    if loss < 0.001 then 0
    else if loss < 0.005 then 100
    else if loss < 0.02 then 200
    else if loss < 0.05 then 375
    else 400
  }

  /** Some threshold of the table lies between the two loss rates. */
  predicate Crosses(a: real, b: real) {
    a < 0.001 <= b || a < 0.005 <= b || a < 0.02 <= b || a < 0.05 <= b
  }

  /**
   More loss never gets less parity per packet, strictly more exactly across a
   threshold, in groups of 10 packets below 2%, of 8 below 5% and of 5 above.
   */
  lemma RedundancyRises(a: real, b: real)
    requires a <= b
    ensures var p, q := PickParams(a), PickParams(b);
            && 1000 * p.m == Overhead(a) * p.k && 1000 * q.m == Overhead(b) * q.k
            && (q.k > 0 ==> p.m * q.k <= q.m * p.k || p.k == 0)
            && (Crosses(a, b) <==> Overhead(a) < Overhead(b)) && (!Crosses(a, b) ==> p == q)
            && (0.001 <= b ==> q.k == if b < 0.02 then 10 else if b < 0.05 then 8 else 5)
  {
  }

  /** The stamp a protected packet carries in its DATA header. */
  datatype Tag = Tag(group: U32, index: Byte)

  /** One FEC datagram. */
  datatype ParityShard = ParityShard(group: U32, index: Byte, k: Byte, m: Byte, shard: Bytes)

  // ----- Groups by number -----

  /** A protected packet with its place: group number (not wrapped) and index. */
  datatype Placed = Placed(number: int, index: nat, packet: Packet)

  /**
   The encoder as a history of groups. `opens` counts groups ever opened,
   `closed[n]` is group number `n`, `adopted[n]` the geometry in force when its
   first packet came, and `placed` lists the protected packets.
   */
  datatype Enc = Enc(params: Params, opens: nat, open: seq<Packet>, m: nat, firstAt: int,
                     closed: seq<Group>, adopted: seq<Params>,
                     placed: seq<Placed>, emitted: seq<ParityShard>)

  function NewEnc(): Enc {
    Enc(Params(0, 0), 0, [], 0, 0, [], [], [], [])
  }

  /** The 24-bit identifier of group number `n`. */
  function GroupId(n: int): U32 {
    n % GROUP_IDS
  }

  /** The geometries the erasure code library accepts. */
  predicate Accepts(k: nat, m: nat) {
    1 <= k && k + m <= 256
  }

  ghost predicate Sized(c: Codec) {
    forall k: nat, m: nat :: Accepts(k, m) ==> ParityShape(c, k, m)
  }

  lemma ParityCount(c: Codec, g: Group)
    requires Sized(c) && Accepts(g.K(), g.m)
    ensures |Parity(c, g)| == g.m
    ensures Uniform(Parity(c, g), Longest(g.packets))
  {
    assert ParityShape(c, g.K(), g.m);
    assert Uniform(Padded(g.packets), Longest(g.packets));
  }

  ghost function ParityShards(c: Codec, n: int, g: Group): (ps: seq<ParityShard>)
    requires Sized(c)
    ensures g.m == 0 || !Accepts(g.K(), g.m) ==> ps == []
    ensures g.m > 0 && Accepts(g.K(), g.m) ==> |ps| == g.m
  {
    if g.m == 0 || !Accepts(g.K(), g.m) then []
    else
      ParityCount(c, g);
      seq(g.m, i requires 0 <= i < g.m =>
        ParityShard(GroupId(n), (g.K() + i) % 256, g.K() % 256, g.m % 256, Parity(c, g)[i]))
  }

  ghost function CloseGroup(c: Codec, e: Enc): Enc
    requires Sized(c)
  {
    var g := Group(e.open, e.m);
    e.(open := [], closed := e.closed + [g], emitted := e.emitted + ParityShards(c, e.opens - 1, g))
  }

  /** How many closed groups got parity. */
  function GroupsWithParity(closed: seq<Group>): nat {
    if closed == [] then 0
    else
      var g := closed[|closed| - 1];
      GroupsWithParity(closed[..|closed| - 1]) + (if g.m > 0 && Accepts(g.K(), g.m) then 1 else 0)
  }

  lemma GroupsAppend(closed: seq<Group>, g: Group)
    ensures GroupsWithParity(closed + [g]) ==
            GroupsWithParity(closed) + (if g.m > 0 && Accepts(g.K(), g.m) then 1 else 0)
  {
    assert (closed + [g])[..|closed|] == closed;
  }

  /** A new group adopts the current geometry. */
  function OpenGroup(e: Enc, now: int): Enc {
    e.(opens := e.opens + 1, m := e.params.m, firstAt := now, adopted := e.adopted + [e.params])
  }

  function Place(e: Enc, p: Packet): Enc {
    e.(open := e.open + [p], placed := e.placed + [Placed(e.opens - 1, |e.open|, p)])
  }

  predicate Protects(e: Enc) {
    e.open != [] || e.params.k > 0
  }

  ghost function Protect(c: Codec, e: Enc, p: Packet, now: int): Enc
    requires Sized(c)
  {
    if !Protects(e) then e
    else
      var s := Place(if e.open == [] then OpenGroup(e, now) else e, p);
      if |s.open| >= s.params.k then CloseGroup(c, s) else s
  }

  /** The stamp for the next packet, if it is going to be protected. */
  function NextTag(e: Enc): Option<Tag> {
    if !Protects(e) then None
    else Some(Tag(GroupId(if e.open == [] then e.opens else e.opens - 1), |e.open| % 256))
  }

  ghost function FlushStale(c: Codec, e: Enc, now: int): Enc
    requires Sized(c)
  {
    if e.open != [] && now - e.firstAt >= FLUSH_TIMEOUT then CloseGroup(c, e) else e
  }

  // ----- The encoder itself -----

  lemma WrapKeepsGroupId(n: int)
    ensures Wrap32(n) % GROUP_IDS == GroupId(n)
  {
    var k := n / TWO_TO_32;
    assert n == k * TWO_TO_32 + Wrap32(n);
    assert n - Wrap32(n) == GROUP_IDS * (k * 256);
  }

  lemma LongestAppend(packets: seq<Packet>, p: Packet)
    ensures Longest(packets + [p]) ==
            if |BuildShard(p)| > Longest(packets) then |BuildShard(p)| else Longest(packets)
  {
    assert (packets + [p])[..|packets|] == packets;
  }

  class Encoder {
    const codec: Codec
    var params: Params
    var nextGroup: U32
    var shards: seq<Bytes>
    var maxLen: nat
    var firstAt: int
    var groupID: U32
    var m: nat
    var emitted: seq<ParityShard>
    var groupsClosed: nat
    var parityEmitted: nat
    ghost var e: Enc

    ghost predicate Valid()
      reads this
    {
      && Sized(codec)
      && params == e.params
      && nextGroup == Wrap32(e.opens)
      && |shards| == |e.open|
      && (forall i :: 0 <= i < |shards| ==> shards[i] == BuildShard(e.open[i]))
      && (e.open != [] ==> e.opens > 0 && maxLen == Longest(e.open) && groupID == GroupId(e.opens - 1))
      && m == e.m
      && firstAt == e.firstAt
      && emitted == e.emitted
      && groupsClosed == GroupsWithParity(e.closed)
      && parityEmitted == |e.emitted|
    }

    constructor (codec: Codec)
      requires Sized(codec)
      ensures Valid() && this.codec == codec && e == NewEnc()
    {
      this.codec := codec;
      params, nextGroup, shards, maxLen := Params(0, 0), 0, [], 0;
      firstAt, groupID, m := 0, 0, 0;
      emitted, groupsClosed, parityEmitted := [], 0, 0;
      e := NewEnc();
    }

    method SetParams(p: Params)
      requires Valid()
      modifies this`params, this`e
      ensures Valid() && e == old(e).(params := p)
    {
      params := p;
      e := e.(params := p);
    }

    method Add(p: Packet, now: int) returns (tag: Option<Tag>)
      requires Valid()
      modifies this
      ensures Valid()
      ensures e == Protect(codec, old(e), p, now)
      ensures tag == NextTag(old(e))
    {
      hide BuildShard, Longest, Wrap32, CloseGroup, Sized, GroupsWithParity;
      if |shards| == 0 {
        if params.k == 0 {
          return None;
        }
        OpenLocked(now);
      }
      tag := Some(Tag(groupID, |shards| % 256));
      AppendLocked(p);
      if |shards| >= params.k {
        CloseLocked();
      }
    }

    /** The first packet of a group fixes its identifier and parity count. */
    method OpenLocked(now: int)
      requires Valid() && e.open == []
      modifies this
      ensures Valid() && e == OpenGroup(old(e), now)
      ensures groupID == GroupId(e.opens - 1) && maxLen == 0
    {
      hide BuildShard, Wrap32, Sized, GroupsWithParity;
      WrapKeepsGroupId(e.opens);
      WrapAdd(e.opens, 1);
      groupID := nextGroup % GROUP_IDS;
      nextGroup := Wrap32(nextGroup + 1);
      m := params.m;
      firstAt := now;
      maxLen := 0;
      e := OpenGroup(e, now);
    }

    method AppendLocked(p: Packet)
      requires Valid() && e.opens > 0 && groupID == GroupId(e.opens - 1)
      requires e.open == [] ==> maxLen == 0
      modifies this`shards, this`maxLen, this`e
      ensures Valid() && e == Place(old(e), p)
    {
      hide Wrap32, Sized, GroupsWithParity;
      LongestAppend(e.open, p);
      var s := BuildShard(p);
      shards := shards + [s];
      if |s| > maxLen {
        maxLen := |s|;
      }
      e := Place(e, p);
    }

    method Flush(now: int)
      requires Valid()
      modifies this
      ensures Valid() && e == FlushStale(codec, old(e), now)
    {
      if |shards| > 0 && now - firstAt >= FLUSH_TIMEOUT {
        CloseLocked();
      }
    }

    method CloseLocked()
      requires Valid() && e.open != []
      modifies this`shards, this`emitted, this`groupsClosed, this`parityEmitted, this`e
      ensures Valid() && e == CloseGroup(codec, old(e))
    {
      hide BuildShard, Longest, Wrap32, Sized, ParityShape, GroupsWithParity;
      ghost var g := Group(e.open, e.m);
      GroupsAppend(e.closed, g);
      var k := |shards|;
      if m > 0 && k + m <= 256 {
        var all := PadLocked();
        ParityCount(codec, g);
        EmitLocked(k, codec.parity(k, m, all), g);
        groupsClosed := groupsClosed + 1;
      }
      shards := [];
      e := CloseGroup(codec, e);
    }

    /** The data shards, zero-padded to the longest one. */
    method PadLocked() returns (all: seq<Bytes>)
      requires Valid() && e.open != []
      ensures all == Padded(e.open)
    {
      hide BuildShard, Longest, Wrap32, Sized, GroupsWithParity;
      all := [];
      for i := 0 to |shards|
        invariant |all| == i
        invariant forall j :: 0 <= j < i ==> all[j] == Padded(e.open)[j]
      {
        var s := shards[i];
        all := all + [if |s| < maxLen then s + Zeros(maxLen - |s|) else s];
      }
    }

    method EmitLocked(k: nat, parity: seq<Bytes>, ghost g: Group)
      requires Sized(codec) && m > 0 && Accepts(k, m) && g.m == m && g.K() == k && parity == Parity(codec, g)
      requires e.opens > 0 && groupID == GroupId(e.opens - 1)
      modifies this`emitted, this`parityEmitted
      ensures emitted == old(emitted) + ParityShards(codec, e.opens - 1, g)
      ensures parityEmitted == old(parityEmitted) + m
    {
      hide Sized, Parity;
      ParityCount(codec, g);
      ghost var out := ParityShards(codec, e.opens - 1, g);
      for i := 0 to m
        invariant emitted == old(emitted) + out[..i]
        invariant parityEmitted == old(parityEmitted) + i
      {
        emitted := emitted + [ParityShard(groupID, (k + i) % 256, k % 256, m % 256, parity[i])];
        parityEmitted := parityEmitted + 1;
        assert out[..i + 1] == out[..i] + [out[i]];
      }
      assert out[..m] == out;
    }
  }
}
