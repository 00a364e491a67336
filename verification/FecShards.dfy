/**
 Shards and groups of the forward error correction layer.

 The Reed-Solomon arithmetic belongs to a foreign library. It appears here as a
 pair of functions, and the one law the datapath relies on is a hypothesis.
 */
module FecShards {
  import opened Words
  import opened BigEndian

  const SHARD_HEADER := 6
  const MAX_K := 64
  const MAX_M := 16

  /** A sequenced bulk packet. */
  datatype Packet = Packet(seqNo: U32, ct: Bytes)

  /** Prefix a packet with its sequence number and length. */
  function BuildShard(p: Packet): (s: Bytes)
    ensures |s| == SHARD_HEADER + |p.ct|
  {
    PutU32(p.seqNo) + PutU16(|p.ct| % 0x1_0000) + p.ct
  }

  function ParseShard(s: Bytes): Option<Packet> {
    if |s| < SHARD_HEADER then None
    else
      var l := GetU16(s[4..]);
      if SHARD_HEADER + l > |s| then None
      else Some(Packet(GetU32(s), s[SHARD_HEADER..SHARD_HEADER + l]))
  }

  function Zeros(n: nat): (z: Bytes)
    ensures |z| == n
  {
    seq(n, _ => 0)
  }

  /** Zero-pad to `len`; longer shards stay as they are. */
  function Pad(s: Bytes, len: nat): (r: Bytes)
    ensures |r| == if |s| < len then len else |s|
  {
    if |s| < len then s + Zeros(len - |s|) else s
  }

  /** Exactly `len` bytes: zero-padded or cut. */
  function Fit(s: Bytes, len: nat): (r: Bytes)
    ensures |r| == len
  {
    Pad(s, len)[..len]
  }

  /** Four bytes of sequence number, two of length, then the ciphertext. */
  lemma ShardLayout(p: Packet)
    ensures var s := BuildShard(p);
            |s| == 6 + |p.ct| && Number(s[..4]) == p.seqNo && Number(s[4..6]) == |p.ct| % 0x1_0000 && s[6..] == p.ct
  {
    hide PutU32, PutU16, Number;
    var s := BuildShard(p);
    assert s[..4] == PutU32(p.seqNo) && s[4..6] == PutU16(|p.ct| % 0x1_0000) && s[6..] == p.ct;
    U32Number(p.seqNo);
    U16Number(|p.ct| % 0x1_0000);
  }

  // A shard followed by anything still yields its packet.
  lemma ParseBuilt(p: Packet, tail: Bytes)
    requires |p.ct| < 0x1_0000
    ensures ParseShard(BuildShard(p) + tail) == Some(p)
  {
    var s := BuildShard(p) + tail;
    var len := PutU16(|p.ct|);
    assert s == PutU32(p.seqNo) + (len + (p.ct + tail));
    U32RoundTrip(p.seqNo, len + (p.ct + tail));
    assert s[4..] == len + (p.ct + tail);
    U16RoundTrip(|p.ct|, p.ct + tail);
    assert s[SHARD_HEADER..SHARD_HEADER + |p.ct|] == p.ct;
  }

  /**
   A padded shard is self-describing exactly when the ciphertext length fits the
   16-bit length field.
   */
  lemma ShardRoundTrip(p: Packet, len: nat)
    ensures ParseShard(Pad(BuildShard(p), len)) == Some(p) <==> |p.ct| < 0x1_0000
  {
    var s := BuildShard(p);
    if |p.ct| < 0x1_0000 {
      ParseBuilt(p, if |s| < len then Zeros(len - |s|) else []);
      assert s + [] == s;
    } else {
      var parsed := ParseShard(Pad(s, len));
      assert parsed.Some? ==> |parsed.value.ct| < 0x1_0000;
    }
  }

  // ----- Groups -----

  /** `m` parity shards protect the packets of a group. */
  datatype Group = Group(packets: seq<Packet>, m: nat) {
    function K(): nat {
      |packets|
    }
  }

  /** The longest shard of the packets. */
  function Longest(packets: seq<Packet>): (l: nat)
    ensures forall i :: 0 <= i < |packets| ==> |BuildShard(packets[i])| <= l
    ensures packets != [] ==> l >= SHARD_HEADER
  {
    if packets == [] then 0
    else
      var l := Longest(packets[..|packets| - 1]);
      var last := |BuildShard(packets[|packets| - 1])|;
      if last > l then last else l
  }

  /** The data shards, all of the same length. */
  function Padded(packets: seq<Packet>): (d: seq<Bytes>)
    ensures |d| == |packets|
    ensures forall i :: 0 <= i < |d| ==> d[i] == Pad(BuildShard(packets[i]), Longest(packets))
    ensures forall i :: 0 <= i < |d| ==> |d[i]| == Longest(packets)
  {
    seq(|packets|, i requires 0 <= i < |packets| => Pad(BuildShard(packets[i]), Longest(packets)))
  }

  /**
   An erasure codec: `parity(k, m, data)` is the parity of `data`, `repair(k, m,
   have)` the data shards computed from the shards in `have`, if it can.
   */
  datatype Codec = Codec(parity: (nat, nat, seq<Bytes>) -> seq<Bytes>,
                         repair: (nat, nat, map<int, Bytes>) -> Option<seq<Bytes>>)

  ghost predicate Uniform(data: seq<Bytes>, len: nat) {
    forall i :: 0 <= i < |data| ==> |data[i]| == len
  }

  /** `have` consists of shards of the code word of `data`. */
  ghost predicate Shards(data: seq<Bytes>, parity: seq<Bytes>, have: map<int, Bytes>) {
    forall i :: i in have ==> 0 <= i < |data| + |parity| && have[i] == (data + parity)[i]
  }

  /** The codec yields `m` parity shards of the common length. */
  ghost predicate ParityShape(c: Codec, k: nat, m: nat) {
    forall data: seq<Bytes>, len: nat :: |data| == k && Uniform(data, len) ==>
      |c.parity(k, m, data)| == m && Uniform(c.parity(k, m, data), len)
  }

  /** Any `k` of the `k + m` shards determine the data. */
  ghost predicate AnyKRepair(c: Codec, k: nat, m: nat) {
    forall data: seq<Bytes>, len: nat, have: map<int, Bytes> ::
      |data| == k && Uniform(data, len) && len > 0 && |have| >= k && Shards(data, c.parity(k, m, data), have)
      ==> c.repair(k, m, have) == Some(data)
  }

  /** The law of an erasure code for one geometry. */
  ghost predicate Lawful(c: Codec, k: nat, m: nat) {
    ParityShape(c, k, m) && AnyKRepair(c, k, m)
  }

  function Parity(c: Codec, g: Group): seq<Bytes> {
    c.parity(g.K(), g.m, Padded(g.packets))
  }
}
