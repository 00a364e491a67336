/**
 One direction of the datapath: sequence assignment, FEC encoder, a network that
 loses, reorders and duplicates, FEC decoder, resequencing buffer.

 The network delivers any datagram that was ever sent, at any time and any number
 of times. Datagrams that do not fit a slab never leave the sender.
 */
module EndToEnd {
  import opened Words
  import opened FecShards
  import opened FecEncoder
  import G = FecGeometry
  import opened FecDecoder
  import F = FecRepair
  import T = FecTheorems
  import Q = ReorderModel
  import R = ReorderRuns
  import A = ReorderAccounting
  import opened ReorderFaithful

  const SLAB_SIZE := 2048
  const FEC_HEADER_SIZE := 16
  const DATA_HEADER_SIZE := 20
  const DATA_HEADER_FEC_SIZE := 24

  /**
   `stream` lists the bulk ciphertexts handed to the sender; number `n`, counted
   from 1, is `stream[n - 1]`, and `tags[n - 1]` its FEC stamp. `pending` holds the
   packets, received or rebuilt, that the receiving threads have yet to push into the
   buffer. `fed` and `skipped` record which positions were pushed and whether they
   were accepted or dropped as far out of the window.
   */
  datatype Sys = Sys(enc: Enc, stream: seq<Bytes>, tags: seq<Option<Tag>>, dec: Dec,
                     pending: seq<Packet>, buf: Q.Queue<Bytes>, fed: set<int>, skipped: set<int>)

  function Init(): Sys {
    Sys(NewEnc(), [], [], NewDec(), [], Q.Empty<Bytes>(), {}, {})
  }

  datatype Op =
    | SendOp(ct: Bytes, now: int)
    | ParamsOp(params: Params)
    | FlushOp(now: int)
    | DataOp(n: nat, now: int, victim: Option<int>)
    | ParityOp(j: nat, now: int, victim: Option<int>)
    | PushOp(i: nat, now: int)
    | BufferOp(op: Q.Op<Bytes>)

  // ----- Steps -----

  function PacketOf(s: Sys, n: int): Packet
    requires 1 <= n <= |s.stream|
  {
    Packet(Wrap32(n), s.stream[n - 1])
  }

  ghost function SendStep(c: Codec, s: Sys, ct: Bytes, now: int): Sys
    requires Sized(c)
  {
    var p := Packet(Wrap32(|s.stream| + 1), ct);
    s.(stream := s.stream + [ct], tags := s.tags + [NextTag(s.enc)], enc := Protect(c, s.enc, p, now))
  }

  /** Push one packet into the buffer. */
  ghost function PushStep(s: Sys, p: Packet, now: int): Sys {
    var q := Q.Start(s.buf, p.seqNo);
    var pos := Q.Position(q.next, p.seqNo);
    var t := s.(buf := Q.Push(s.buf, p.seqNo, p.ct, now));
    if A.FarDrop(q, pos) then t.(skipped := s.skipped + {pos}) else t.(fed := s.fed + {pos})
  }

  /** A rebuilt ciphertext is copied into a slab before it is pushed. */
  function IntoSlab(p: Packet): Packet {
    if |p.ct| > SLAB_SIZE then p.(ct := p.ct[..SLAB_SIZE]) else p
  }

  function IntoSlabs(ps: seq<Packet>): seq<Packet> {
    seq(|ps|, i requires 0 <= i < |ps| => IntoSlab(ps[i]))
  }

  /** Give an operation to the decoder; what it rebuilds is to be pushed. */
  ghost function DecodeStep(c: Codec, s: Sys, op: F.DecOp): Sys {
    var d := F.Step(c, s.dec, op);
    var rebuilt := if |s.dec.recovered| <= |d.recovered| then d.recovered[|s.dec.recovered|..] else [];
    s.(dec := d, pending := s.pending + IntoSlabs(rebuilt))
  }

  /** Push a pending packet; threads may do so in any order. */
  ghost function PushPending(s: Sys, i: nat, now: int): Sys
    requires i < |s.pending|
  {
    PushStep(s.(pending := s.pending[..i] + s.pending[i + 1..]), s.pending[i], now)
  }

  /** The decoder operation a received datagram causes, if any. */
  function Decoding(s: Sys, op: Op): Option<F.DecOp> {
    match op
    case DataOp(n, now, victim) =>
      if 1 <= n <= |s.stream| && n <= |s.tags| && s.tags[n - 1].Some?
      then Some(F.DataIn(s.tags[n - 1].value.group, s.tags[n - 1].value.index, PacketOf(s, n), now, victim))
      else None
    case ParityOp(j, now, victim) =>
      if j < |s.enc.emitted|
      then var x := s.enc.emitted[j]; Some(F.ParityIn(x.group, x.index, x.k, x.m, x.shard, now, victim))
      else None
    case _ => None
  }

  ghost function Step(c: Codec, s: Sys, op: Op): Sys
    requires Sized(c)
  {
    match op
    case SendOp(ct, now) => SendStep(c, s, ct, now)
    case ParamsOp(params) => s.(enc := G.Step(c, s.enc, G.ParamsOp(params)))
    case FlushOp(now) => s.(enc := G.Step(c, s.enc, G.FlushOp(now)))
    case BufferOp(q) => if q.PushOp? then s else s.(buf := Q.Step(s.buf, q))
    case ParityOp(_, _, _) =>
      var x := Decoding(s, op);
      if x.Some? then DecodeStep(c, s, x.value) else s
    case PushOp(i, now) => if i < |s.pending| then PushPending(s, i, now) else s
    case DataOp(n, _, _) =>
      if 1 <= n <= |s.stream| then
        var x := Decoding(s, op);
        var t := if x.Some? then DecodeStep(c, s, x.value) else s;
        t.(pending := t.pending + [PacketOf(s, n)])
      else s
  }

  /** Group identifiers are not reused, and datagrams fit a slab. */
  predicate Allowed(s: Sys, op: Op) {
    match op
    case SendOp(ct, now) => |ct| < 0x1_0000 && s.enc.opens < GROUP_IDS
    case ParamsOp(params) => WellFormed(params)
    case DataOp(n, now, victim) =>
      1 <= n <= |s.stream| && n <= |s.tags|
      && |s.stream[n - 1]| + (if s.tags[n - 1].Some? then DATA_HEADER_FEC_SIZE else DATA_HEADER_SIZE) <= SLAB_SIZE
    case ParityOp(j, now, victim) =>
      j < |s.enc.emitted| && |s.enc.emitted[j].shard| + FEC_HEADER_SIZE <= SLAB_SIZE
    case _ => true
  }

  // ----- The invariant -----

  /** The erasure code is lawful for every geometry the encoder may use. */
  ghost predicate LawfulCode(c: Codec) {
    Sized(c) && forall k: nat, m: nat :: 1 <= k <= MAX_K && 1 <= m <= MAX_M ==> Lawful(c, k, m)
  }

  ghost predicate IsSent(stream: seq<Bytes>, p: Packet) {
    Sequenced(stream, p.seqNo, p.ct)
  }

  /** Group numbers are still their own identifiers, and every protected packet was sent. */
  ghost predicate SenderOk(c: Codec, s: Sys)
    requires Sized(c)
  {
    && G.EncInv(c, s.enc)
    && s.enc.opens <= GROUP_IDS
    && |s.tags| == |s.stream|
    && (forall i :: 0 <= i < |s.stream| ==> |s.stream[i]| < 0x1_0000)
    && (forall i :: 0 <= i < |s.enc.placed| ==> IsSent(s.stream, s.enc.placed[i].packet))
    && (forall i :: 0 <= i < |s.tags| && s.tags[i].Some? ==> TagOk(s, i))
  }

  /** The stamp of packet `i + 1` names its group number and index. */
  ghost predicate TagOk(s: Sys, i: nat)
    requires i < |s.tags| && i < |s.stream| && s.tags[i].Some?
  {
    Placed(s.tags[i].value.group, s.tags[i].value.index, PacketOf(s, i + 1)) in s.enc.placed
  }

  /** Shards of a group that is still open: data only, geometry unknown. */
  ghost predicate PartialOk(open: seq<Packet>, e: Entry) {
    && (forall i :: i in e.shards ==> 0 <= i < |open| && e.shards[i] == BuildShard(open[i]))
    && e.k == 0
  }

  /** The shards in the receiver's entry number `id` are those of sender group `id`. */
  ghost predicate EntryTrue(c: Codec, enc: Enc, id: int, e: Entry) {
    && 0 <= id < enc.opens
    && (if id < |enc.closed| then F.Real(c, enc.closed[id]) && F.EntryOk(c, enc.closed[id], e)
        else PartialOk(enc.open, e))
    && (e.k != 0 ==> e.shardLen + FEC_HEADER_SIZE <= SLAB_SIZE)
  }

  ghost predicate DecoderOk(c: Codec, s: Sys) {
    forall id :: id in s.dec.groups ==> EntryTrue(c, s.enc, id, s.dec.groups[id])
  }

  ghost predicate BufferOk(s: Sys) {
    && R.Inv(s.buf)
    && Faithful(s.buf, s.stream)
    && (forall p :: p in s.fed ==> A.Accounted(s.buf, p))
  }

  ghost predicate PendingOk(s: Sys) {
    forall i :: 0 <= i < |s.pending| ==> IsSent(s.stream, s.pending[i])
  }

  ghost predicate SysInv(c: Codec, s: Sys)
    requires Sized(c)
  {
    SenderOk(c, s) && DecoderOk(c, s) && BufferOk(s) && PendingOk(s)
  }

  // ----- The buffer -----

  /** Only the buffer and its record moved, and nothing was forgotten. */
  ghost predicate OnlyPushed(s: Sys, r: Sys) {
    && r == s.(buf := r.buf, fed := r.fed, skipped := r.skipped)
    && s.fed <= r.fed && s.skipped <= r.skipped
  }

  /** A packet with number `w` was pushed. */
  ghost predicate Seen(s: Sys, w: U32) {
    exists pos :: (pos in s.fed || pos in s.skipped) && Wrap32(pos) == w
  }

  lemma PushStepOk(s: Sys, p: Packet, now: int)
    requires BufferOk(s) && IsSent(s.stream, p)
    ensures var r := PushStep(s, p, now);
            BufferOk(r) && OnlyPushed(s, r) && Seen(r, p.seqNo)
  {
    hide R.Inv, Q.Push, Q.Position, Faithful, A.Accounted, A.FarDrop;
    var r, n := PushStep(s, p, now), p.seqNo;
    PushFaithful(s.buf, s.stream, n, p.ct, now);
    R.PushKeeps(s.buf, n, p.ct, now);
    forall x | x in r.fed
      ensures A.Accounted(r.buf, x)
    {
      A.PushAccounts(s.buf, n, p.ct, now, x);
    }
  }

  /** The packet was pushed or is about to be. */
  ghost predicate Arrived(s: Sys, p: Packet) {
    Seen(s, p.seqNo) || p in s.pending
  }

  lemma PushPendingOk(s: Sys, i: nat, now: int)
    requires BufferOk(s) && PendingOk(s) && i < |s.pending|
    ensures var r := PushPending(s, i, now);
            && BufferOk(r) && PendingOk(r) && OnlyPushed(s.(pending := r.pending), r)
            && forall p :: p in s.pending ==> Arrived(r, p)
  {
    hide BufferOk, IsSent, PushStep, Seen;
    var t, x := s.(pending := s.pending[..i] + s.pending[i + 1..]), s.pending[i];
    SameBuffer(s, t);
    PushStepOk(t, x, now);
    assert s.pending == s.pending[..i] + [x] + s.pending[i + 1..];
  }

  lemma SameBuffer(s: Sys, t: Sys)
    requires BufferOk(s) && t.buf == s.buf && t.stream == s.stream && t.fed == s.fed
    ensures BufferOk(t)
  {
  }

  lemma BufferOpOk(s: Sys, op: Q.Op<Bytes>)
    requires BufferOk(s) && !op.PushOp?
    ensures BufferOk(s.(buf := Q.Step(s.buf, op)))
  {
    hide R.Inv, Q.Step, Each, A.Accounted;
    R.StepKeeps(s.buf, op);
    QuietEach(s.buf, UnderNumber(s.stream), op);
    forall x | x in s.fed
      ensures A.Accounted(Q.Step(s.buf, op), x)
    {
      A.StepAccounts(s.buf, op, x);
    }
  }

  // ----- The sender -----

  /** The encoder's history only grows; an open group may gain packets and close. */
  ghost predicate Grows(e: Enc, f: Enc) {
    && e.closed <= f.closed && e.opens <= f.opens && e.placed <= f.placed
    && (e.open != [] ==> if |f.closed| == |e.closed| then e.open <= f.open
                         else e.open <= f.closed[|e.closed|].packets)
  }

  lemma EncGrows(c: Codec, e: Enc, op: G.EncOp)
    requires Sized(c)
    ensures Grows(e, G.Step(c, e, op))
  {
    hide Sized, ParityShards;
  }

  lemma PlacedPacket(c: Codec, s: Sys, n: nat, i: nat)
    requires Sized(c) && SenderOk(c, s) && n < |s.enc.closed| && i < s.enc.closed[n].K()
    ensures IsSent(s.stream, s.enc.closed[n].packets[i])
  {
    hide Sized, IsSent, G.AllParity, TagOk;
    var x := Placed(n, i, s.enc.closed[n].packets[i]);
    G.PlacedExactly(s.enc.closed, x);
    assert x in s.enc.placed;
  }

  lemma ClosedReal(c: Codec, s: Sys, n: nat)
    requires LawfulCode(c) && SenderOk(c, s) && n < |s.enc.closed|
    ensures F.Real(c, s.enc.closed[n])
  {
    hide Lawful, G.AllPlaced, G.AllParity, G.PlacedOf, TagOk;
    var g := s.enc.closed[n];
    assert G.Fits(g);
    forall i | 0 <= i < g.K()
      ensures |g.packets[i].ct| < 0x1_0000
    {
      PlacedPacket(c, s, n, i);
    }
  }

  lemma EntryGrows(c: Codec, e: Enc, f: Enc, id: int, x: Entry)
    requires EntryTrue(c, e, id, x) && Grows(e, f)
    requires e.opens == |e.closed| + (if e.open == [] then 0 else 1)
    requires forall n :: 0 <= n < |f.closed| ==> F.Real(c, f.closed[n])
    ensures EntryTrue(c, f, id, x)
  {
    hide F.Real, BuildShard;
    if id < |e.closed| {
      assert f.closed[id] == e.closed[id];
    } else if |f.closed| > |e.closed| {
      var g := f.closed[id];
      forall i | i in x.shards
        ensures F.IsShard(c, g, i, x.shards[i])
      {
        assert g.packets[i] == e.open[i];
      }
    }
  }

  lemma DecoderGrows(c: Codec, s: Sys, t: Sys)
    requires LawfulCode(c) && SenderOk(c, s) && SenderOk(c, t) && DecoderOk(c, s)
    requires Grows(s.enc, t.enc) && t.dec == s.dec
    ensures DecoderOk(c, t)
  {
    hide F.Real, EntryTrue, G.AllPlaced, G.AllParity, G.PlacedOf, TagOk, Grows, Lawful;
    forall n | 0 <= n < |t.enc.closed|
      ensures F.Real(c, t.enc.closed[n])
    {
      ClosedReal(c, t, n);
    }
    forall id | id in t.dec.groups
      ensures EntryTrue(c, t.enc, id, t.dec.groups[id])
    {
      EntryGrows(c, s.enc, t.enc, id, t.dec.groups[id]);
    }
  }

  // What protecting one packet adds to the list of protected packets.
  lemma ProtectPlaces(c: Codec, e: Enc, p: Packet, now: int)
    requires Sized(c) && G.EncInv(c, e) && e.opens < GROUP_IDS
    ensures var f := Protect(c, e, p, now);
            && f.opens <= e.opens + 1
            && match NextTag(e)
               case None => f.placed == e.placed
               case Some(t) => f.placed == e.placed + [Placed(t.group, t.index, p)]
  {
    hide Sized, ParityShards, G.AllPlaced, G.AllParity, G.PlacedOf;
  }

  lemma SendKeepsSender(c: Codec, s: Sys, ct: Bytes, now: int)
    requires LawfulCode(c) && SenderOk(c, s) && Allowed(s, SendOp(ct, now))
    ensures SenderOk(c, SendStep(c, s, ct, now))
  {
    hide Sized, Protect, NextTag, G.EncInv;
    var t := SendStep(c, s, ct, now);
    var n := |s.stream| + 1;
    var p := Packet(Wrap32(n), ct);
    G.StepKeeps(c, s.enc, G.AddOp(p, now));
    ProtectPlaces(c, s.enc, p, now);
    IsSentPacket(t, n);
    assert PacketOf(t, n) == p;
    forall i | 0 <= i < |t.enc.placed|
      ensures IsSent(t.stream, t.enc.placed[i].packet)
    {
      if i < |s.enc.placed| {
        assert t.enc.placed[i] == s.enc.placed[i];
        var prev := s.enc.placed[i].packet;
        SequencedGrows(s.stream, t.stream, prev.seqNo, prev.ct);
      }
    }
    forall i | 0 <= i < |t.tags| && t.tags[i].Some?
      ensures TagOk(t, i)
    {
      if i < |s.tags| {
        assert TagOk(s, i);
        assert PacketOf(t, i + 1) == PacketOf(s, i + 1);
      } else {
        assert t.enc.placed[|s.enc.placed|].packet == p;
        assert PacketOf(t, i + 1) == p;
      }
    }
  }

  lemma SenderOpKeeps(c: Codec, s: Sys, op: G.EncOp)
    requires LawfulCode(c) && SenderOk(c, s) && !op.AddOp? && G.WellFormedOp(op)
    ensures SenderOk(c, s.(enc := G.Step(c, s.enc, op)))
  {
    hide Sized, G.EncInv, ParityShards;
    G.StepKeeps(c, s.enc, op);
    var t := s.(enc := G.Step(c, s.enc, op));
    forall i | 0 <= i < |t.tags| && t.tags[i].Some?
      ensures TagOk(t, i)
    {
      assert TagOk(s, i);
    }
  }

  // ----- The decoder -----

  // As `StepSafe`, and parity that fits a slab rebuilds packets that fit one.
  lemma ClosedStep(c: Codec, g: Group, d: Dec, op: F.DecOp, limit: nat)
    requires F.Real(c, g) && F.Truthful(c, g, op.id, op)
    requires op.id in d.groups ==> F.EntryOk(c, g, d.groups[op.id])
    requires op.id in d.groups && d.groups[op.id].k != 0 ==> d.groups[op.id].shardLen <= limit
    requires op.ParityIn? ==> |op.shard| <= limit
    ensures var r := F.Step(c, d, op);
            && (op.id in r.groups ==> F.EntryOk(c, g, r.groups[op.id]))
            && (op.id in r.groups && r.groups[op.id].k != 0 ==> r.groups[op.id].shardLen <= limit)
            && d.recovered <= r.recovered
            && (forall i :: |d.recovered| <= i < |r.recovered| ==>
                  r.recovered[i] in g.packets && |r.recovered[i].ct| <= limit)
  {
    hide F.Real, F.EntryOk, F.Absent, DataKeys, F.Step, F.Truthful, F.Found, F.Extended;
    var r := F.Step(c, d, op);
    T.StepSafe(c, g, d, op);
    GeometryLimit(c, g, d, op, limit);
    F.FoundShards(d, op);
    if op.index in F.Found(d, op).shards {
      T.OldShard(c, g, d, op);
      LimitHolds(c, g, d, op, r, limit);
    } else {
      T.NewShard(c, g, d, op);
      forall i | |d.recovered| <= i < |r.recovered|
        ensures |r.recovered[i].ct| <= limit
      {
        ShardLimit(c, g, F.Extended(d, op), r.recovered[i]);
      }
    }
  }

  // The known geometry comes from parity that fits.
  lemma GeometryLimit(c: Codec, g: Group, d: Dec, op: F.DecOp, limit: nat)
    requires F.Real(c, g) && F.Truthful(c, g, op.id, op)
    requires op.id in d.groups && d.groups[op.id].k != 0 ==> d.groups[op.id].shardLen <= limit
    requires op.ParityIn? ==> |op.shard| <= limit
    ensures F.Extended(d, op).k != 0 ==> F.Extended(d, op).shardLen <= limit
  {
    hide F.Real, F.Truthful, F.Found;
    F.FoundShards(d, op);
  }

  lemma LimitHolds(c: Codec, g: Group, d: Dec, op: F.DecOp, r: Dec, limit: nat)
    requires F.Real(c, g) && F.Truthful(c, g, op.id, op) && r == F.Step(c, d, op)
    requires op.index in F.Found(d, op).shards
    requires F.Extended(d, op).k != 0 ==> F.Extended(d, op).shardLen <= limit
    ensures op.id in r.groups && r.groups[op.id].k != 0 ==> r.groups[op.id].shardLen <= limit
  {
    hide F.Real, F.Truthful, F.Found, F.Step, F.Extended, Settle;
    F.StepSettles(c, g, d, op);
  }

  lemma ShardLimit(c: Codec, g: Group, e: Entry, p: Packet)
    requires F.Real(c, g) && F.EntryOk(c, g, e) && e.k != 0 && p in g.packets
    ensures |p.ct| <= e.shardLen
  {
    hide F.Real, F.IsShard, BuildShard;
    var i :| 0 <= i < |g.packets| && g.packets[i] == p;
    assert |BuildShard(g.packets[i])| <= Longest(g.packets);
  }

  // While a group is open its shards are only stored.
  lemma OpenStep(c: Codec, enc: Enc, d: Dec, op: F.DecOp)
    requires op.DataIn? && op.index < |enc.open| && op.p == enc.open[op.index]
    requires op.id in d.groups ==> PartialOk(enc.open, d.groups[op.id])
    ensures var r := F.Step(c, d, op);
            op.id in r.groups && PartialOk(enc.open, r.groups[op.id]) && r.recovered == d.recovered
  {
    hide BuildShard;
    F.FoundShards(d, op);
  }

  // Where a received shard comes from.
  lemma DataOrigin(c: Codec, s: Sys, i: nat)
    requires LawfulCode(c) && SenderOk(c, s) && i < |s.tags| && s.tags[i].Some?
    ensures var t, p := s.tags[i].value, PacketOf(s, i + 1);
            if t.group < |s.enc.closed|
            then t.index < s.enc.closed[t.group].K() && s.enc.closed[t.group].packets[t.index] == p
            else t.group == |s.enc.closed| && t.index < |s.enc.open| && s.enc.open[t.index] == p
  {
    hide Sized, Lawful, G.AllParity, IsSent, G.PlacedOf, G.AllPlaced;
    assert TagOk(s, i);
    var x := Placed(s.tags[i].value.group, s.tags[i].value.index, PacketOf(s, i + 1));
    G.PlacedExactly(s.enc.closed, x);
    G.InPlacedOf(|s.enc.closed|, s.enc.open, x);
  }

  lemma ParityOrigin(c: Codec, s: Sys, x: ParityShard)
    requires LawfulCode(c) && SenderOk(c, s) && x in s.enc.emitted
    ensures x.group < |s.enc.closed| && F.Real(c, s.enc.closed[x.group])
    ensures forall now: int, victim: Option<int> ::
              F.Truthful(c, s.enc.closed[x.group], x.group, F.ParityIn(x.group, x.index, x.k, x.m, x.shard, now, victim))
  {
    hide Lawful, F.Real, F.Truthful, G.AllParity, G.PlacedOf, G.AllPlaced, TagOk, IsSent, G.Announcement;
    G.ParityExactly(c, s.enc.closed, x);
    var n: nat, i: nat :| n < |s.enc.closed| && i < s.enc.closed[n].m
                          && x == G.Announcement(c, n, s.enc.closed[n], i);
    ClosedReal(c, s, n);
    AnnouncementTruthful(c, n, s.enc.closed[n], i);
  }

  lemma AnnouncementTruthful(c: Codec, n: nat, g: Group, i: nat)
    requires Sized(c) && G.Fits(g) && F.Real(c, g) && i < g.m && n < GROUP_IDS
    ensures var x := G.Announcement(c, n, g, i);
            x.group == n && forall now: int, victim: Option<int> ::
              F.Truthful(c, g, n, F.ParityIn(n, x.index, x.k, x.m, x.shard, now, victim))
  {
    hide F.Real, Parity;
    F.ParityOf(c, g);
  }

  /** The new packets of a decoder step were all sent and fit a slab. */
  ghost predicate GoodRebuild(s: Sys, d: Dec) {
    && s.dec.recovered <= d.recovered
    && forall i :: |s.dec.recovered| <= i < |d.recovered| ==>
         IsSent(s.stream, d.recovered[i]) && |d.recovered[i].ct| <= SLAB_SIZE
  }

  lemma ClosedDecode(c: Codec, s: Sys, op: F.DecOp)
    requires LawfulCode(c) && SenderOk(c, s) && DecoderOk(c, s)
    requires op.id < |s.enc.closed| && F.Real(c, s.enc.closed[op.id])
    requires F.Truthful(c, s.enc.closed[op.id], op.id, op)
    requires op.ParityIn? ==> |op.shard| + FEC_HEADER_SIZE <= SLAB_SIZE
    ensures GoodRebuild(s, F.Step(c, s.dec, op))
    ensures DecoderOk(c, s.(dec := F.Step(c, s.dec, op)))
  {
    hide Lawful, F.Real, F.EntryOk, F.Truthful, F.Step, G.EncInv, TagOk, IsSent, PartialOk, F.Evicts;
    var g, d := s.enc.closed[op.id], F.Step(c, s.dec, op);
    ClosedStep(c, g, s.dec, op, SLAB_SIZE - FEC_HEADER_SIZE);
    forall i | |s.dec.recovered| <= i < |d.recovered|
      ensures IsSent(s.stream, d.recovered[i])
    {
      assert d.recovered[i] in g.packets;
      var j :| 0 <= j < |g.packets| && g.packets[j] == d.recovered[i];
      PlacedPacket(c, s, op.id, j);
    }
    ClosedCount(c, s);
    forall id | id in d.groups
      ensures EntryTrue(c, s.enc, id, d.groups[id])
    {
      if id != op.id {
        F.OtherGroup(c, s.dec, op, id);
        assert EntryTrue(c, s.enc, id, s.dec.groups[id]);
      }
    }
  }

  lemma ClosedCount(c: Codec, s: Sys)
    requires Sized(c) && SenderOk(c, s)
    ensures |s.enc.closed| <= s.enc.opens
    ensures s.enc.opens == |s.enc.closed| + (if s.enc.open == [] then 0 else 1)
  {
  }

  lemma OpenDecode(c: Codec, s: Sys, op: F.DecOp)
    requires LawfulCode(c) && SenderOk(c, s) && DecoderOk(c, s)
    requires op.DataIn? && op.id == |s.enc.closed| && op.index < |s.enc.open| && op.p == s.enc.open[op.index]
    ensures GoodRebuild(s, F.Step(c, s.dec, op))
    ensures DecoderOk(c, s.(dec := F.Step(c, s.dec, op)))
  {
    hide Lawful, F.Real, F.EntryOk, F.Step, G.EncInv, TagOk, IsSent, PartialOk, F.Evicts;
    var d := F.Step(c, s.dec, op);
    ClosedCount(c, s);
    OpenStep(c, s.enc, s.dec, op);
    PartialGeometry(s.enc.open, d.groups[op.id]);
    forall id | id in d.groups
      ensures EntryTrue(c, s.enc, id, d.groups[id])
    {
      if id != op.id {
        F.OtherGroup(c, s.dec, op, id);
        assert EntryTrue(c, s.enc, id, s.dec.groups[id]);
      }
    }
  }

  lemma PartialGeometry(open: seq<Packet>, e: Entry)
    requires PartialOk(open, e)
    ensures e.k == 0
  {
  }

  lemma DecodingOk(c: Codec, s: Sys, op: Op)
    requires LawfulCode(c) && SysInv(c, s) && Allowed(s, op) && Decoding(s, op).Some?
    ensures GoodRebuild(s, F.Step(c, s.dec, Decoding(s, op).value))
    ensures DecoderOk(c, s.(dec := F.Step(c, s.dec, Decoding(s, op).value)))
  {
    hide Lawful, F.Real, F.Step, G.EncInv, TagOk, IsSent, BufferOk, DecoderOk, GoodRebuild;
    var x := Decoding(s, op).value;
    if op.ParityOp? {
      ParityOrigin(c, s, s.enc.emitted[op.j]);
      ClosedDecode(c, s, x);
    } else {
      DataOrigin(c, s, op.n - 1);
      if x.id < |s.enc.closed| {
        ClosedReal(c, s, x.id);
        ClosedDecode(c, s, x);
      } else {
        OpenDecode(c, s, x);
      }
    }
  }

  lemma DecodeStepOk(c: Codec, s: Sys, op: Op)
    requires LawfulCode(c) && SysInv(c, s) && Allowed(s, op) && Decoding(s, op).Some?
    ensures var x := Decoding(s, op).value;
            var d := F.Step(c, s.dec, x);
            var r := DecodeStep(c, s, x);
            && SysInv(c, r) && r == s.(dec := d, pending := r.pending) && s.pending <= r.pending
            && s.dec.recovered <= d.recovered
            && forall i :: |s.dec.recovered| <= i < |d.recovered| ==> d.recovered[i] in r.pending
  {
    hide Lawful, F.Real, F.Step, G.EncInv, TagOk, IsSent, EntryTrue, Decoding, R.Inv, Faithful, A.Accounted;
    DecodingOk(c, s, op);
    var x := Decoding(s, op).value;
    var d := F.Step(c, s.dec, x);
    var r := DecodeStep(c, s, x);
    var rebuilt := d.recovered[|s.dec.recovered|..];
    assert IntoSlabs(rebuilt) == rebuilt;
    forall i | |s.dec.recovered| <= i < |d.recovered|
      ensures d.recovered[i] in r.pending
    {
      assert rebuilt[i - |s.dec.recovered|] == d.recovered[i];
      assert r.pending[|s.pending| + i - |s.dec.recovered|] == d.recovered[i];
    }
    SameSender(c, s, r);
    SameDecoder(c, s.(dec := d), r);
    SameBuffer(s, r);
  }

  lemma SameSender(c: Codec, s: Sys, r: Sys)
    requires Sized(c) && SenderOk(c, s) && r.enc == s.enc && r.stream == s.stream && r.tags == s.tags
    ensures SenderOk(c, r)
  {
    hide G.EncInv, IsSent;
    forall i | 0 <= i < |r.tags| && r.tags[i].Some?
      ensures TagOk(r, i)
    {
      assert TagOk(s, i);
    }
  }

  // ----- Safety -----

  lemma DataStepOk(c: Codec, s: Sys, op: Op)
    requires LawfulCode(c) && SysInv(c, s) && Allowed(s, op) && op.DataOp?
    ensures var r := Step(c, s, op);
            && SysInv(c, r) && Grows(s.enc, r.enc) && r == s.(dec := r.dec, pending := r.pending)
            && s.pending <= r.pending && PacketOf(s, op.n) in r.pending
  {
    hide Lawful, G.EncInv, EntryTrue, IsSent, TagOk, R.Inv, Faithful, A.Accounted, DecodeStep;
    var x := Decoding(s, op);
    var t := if x.Some? then DecodeStep(c, s, x.value) else s;
    if x.Some? {
      DecodeStepOk(c, s, op);
    }
    var r := Step(c, s, op);
    IsSentPacket(s, op.n);
    assert r.pending[|t.pending|] == PacketOf(s, op.n);
    SameSender(c, t, r);
    SameDecoder(c, t, r);
    SameBuffer(t, r);
  }

  lemma IsSentPacket(s: Sys, n: nat)
    requires 1 <= n <= |s.stream|
    ensures IsSent(s.stream, PacketOf(s, n))
  {
  }

  lemma SendStepOk(c: Codec, s: Sys, ct: Bytes, now: int)
    requires LawfulCode(c) && SysInv(c, s) && Allowed(s, SendOp(ct, now))
    ensures SysInv(c, SendStep(c, s, ct, now)) && Grows(s.enc, SendStep(c, s, ct, now).enc)
  {
    hide Lawful, SenderOk, DecoderOk, R.Inv, Faithful, A.Accounted, Grows, Protect, Sequenced;
    var t := SendStep(c, s, ct, now);
    forall i | 0 <= i < |t.pending|
      ensures IsSent(t.stream, t.pending[i])
    {
      assert IsSent(s.stream, s.pending[i]);
      SequencedGrows(s.stream, t.stream, s.pending[i].seqNo, s.pending[i].ct);
    }
    SendKeepsSender(c, s, ct, now);
    EncGrows(c, s.enc, G.AddOp(Packet(Wrap32(|s.stream| + 1), ct), now));
    DecoderGrows(c, s, t);
    FaithfulGrows(s.buf, s.stream, t.stream);
  }

  lemma SenderStepOk(c: Codec, s: Sys, op: G.EncOp)
    requires LawfulCode(c) && SysInv(c, s) && !op.AddOp? && G.WellFormedOp(op)
    ensures var t := s.(enc := G.Step(c, s.enc, op)); SysInv(c, t) && Grows(s.enc, t.enc)
  {
    hide Lawful, SenderOk, DecoderOk, R.Inv, Faithful, A.Accounted, Grows, G.Step;
    SenderOpKeeps(c, s, op);
    EncGrows(c, s.enc, op);
    DecoderGrows(c, s, s.(enc := G.Step(c, s.enc, op)));
  }

  lemma StepKeeps(c: Codec, s: Sys, op: Op)
    requires LawfulCode(c) && SysInv(c, s) && Allowed(s, op)
    ensures SysInv(c, Step(c, s, op)) && Grows(s.enc, Step(c, s, op).enc)
    ensures forall p :: Arrived(s, p) ==> Arrived(Step(c, s, op), p)
  {
    hide Lawful, SenderOk, DecoderOk, BufferOk, PendingOk, G.Step, DecodeStep, SendStep, PushPending, Decoding;
    var r := Step(c, s, op);
    match op
    case SendOp(ct, now) =>
      SendStepOk(c, s, ct, now);
      SendLeavesBuffer(c, s, ct, now);
    case ParamsOp(params) => SenderStepOk(c, s, G.ParamsOp(params));
    case FlushOp(now) => SenderStepOk(c, s, G.FlushOp(now));
    case BufferOp(q) =>
      if !q.PushOp? {
        BufferOpOk(s, q);
        SameSender(c, s, r);
        SameDecoder(c, s, r);
        SamePending(s, r);
      }
    case PushOp(i, now) =>
      if i < |s.pending| {
        PushPendingOk(s, i, now);
        SameSender(c, s, r);
        SameDecoder(c, s, r);
      }
    case ParityOp(_, _, _) =>
      if Decoding(s, op).Some? {
        DecodeStepOk(c, s, op);
      }
    case DataOp(_, _, _) => DataStepOk(c, s, op);
  }

  lemma SamePending(s: Sys, t: Sys)
    requires PendingOk(s) && t.pending == s.pending && t.stream == s.stream
    ensures PendingOk(t)
  {
  }

  lemma SameDecoder(c: Codec, s: Sys, t: Sys)
    requires DecoderOk(c, s) && t.dec == s.dec && t.enc == s.enc
    ensures DecoderOk(c, t)
  {
  }

  lemma SendLeavesBuffer(c: Codec, s: Sys, ct: Bytes, now: int)
    requires Sized(c)
    ensures var t := SendStep(c, s, ct, now); t.buf == s.buf && t.fed == s.fed && t.skipped == s.skipped && t.dec == s.dec && t.pending == s.pending
  {
  }

  ghost predicate AllowedRun(c: Codec, s: Sys, ops: seq<Op>)
    requires Sized(c)
    decreases |ops|
  {
    ops == [] || (Allowed(s, ops[0]) && AllowedRun(c, Step(c, s, ops[0]), ops[1..]))
  }

  ghost function Run(c: Codec, s: Sys, ops: seq<Op>): Sys
    requires Sized(c)
    decreases |ops|
  {
    if ops == [] then s else Run(c, Step(c, s, ops[0]), ops[1..])
  }

  lemma {:induction false} RunKeeps(c: Codec, s: Sys, ops: seq<Op>)
    requires LawfulCode(c) && SysInv(c, s) && AllowedRun(c, s, ops)
    ensures SysInv(c, Run(c, s, ops))
    decreases |ops|
  {
    hide Lawful, SysInv, Step, Allowed;
    if ops != [] {
      StepKeeps(c, s, ops[0]);
      RunKeeps(c, Step(c, s, ops[0]), ops[1..]);
    }
  }

  lemma InitOk(c: Codec)
    requires Sized(c)
    ensures SysInv(c, Init())
  {
    hide Sized, G.EncInv;
    G.Geometry(c, []);
    assert G.Run(c, NewEnc(), []) == NewEnc();
  }

  /**
   End-to-end safety, for streams of any length: whatever is lost, reordered,
   duplicated, rebuilt or expired, every packet the receiver releases or drops is a
   ciphertext the sender sequenced under the number it carries, and in-order
   releases between resets have strictly increasing positions. Until numbers are
   reused it is the one ciphertext of that number.
   */
  lemma EndToEndSafety(c: Codec, ops: seq<Op>)
    requires LawfulCode(c) && AllowedRun(c, Init(), ops)
    ensures var s := Run(c, Init(), ops);
            && (forall i :: 0 <= i < |s.buf.log| ==>
                  Sequenced(s.stream, Wrap32(s.buf.log[i].pos), s.buf.log[i].val))
            && R.Increasing(s.buf.log)
    ensures var s := Run(c, Init(), ops);
            |s.stream| < TWO_TO_32 ==> forall i :: 0 <= i < |s.buf.log| ==>
              var w := Wrap32(s.buf.log[i].pos);
              1 <= w <= |s.stream| && s.buf.log[i].val == s.stream[w - 1]
  {
    hide Lawful, SenderOk, DecoderOk, Run, AllowedRun, Sequenced;
    InitOk(c);
    RunKeeps(c, Init(), ops);
    var s := Run(c, Init(), ops);
    if |s.stream| < TWO_TO_32 {
      forall i | 0 <= i < |s.buf.log|
        ensures var w := Wrap32(s.buf.log[i].pos); 1 <= w <= |s.stream| && s.buf.log[i].val == s.stream[w - 1]
      {
        SequencedUnique(s.stream, Wrap32(s.buf.log[i].pos), s.buf.log[i].val);
      }
    }
  }
}
