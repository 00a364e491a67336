/** What every interleaving of packets, flushes and geometry changes keeps. */
module FecGeometry {
  import opened Words
  import opened FecShards
  import opened FecEncoder

  datatype EncOp = AddOp(p: Packet, now: int) | FlushOp(now: int) | ParamsOp(params: Params)

  ghost function Step(c: Codec, e: Enc, op: EncOp): Enc
    requires Sized(c)
  {
    match op
    case AddOp(p, now) => Protect(c, e, p, now)
    case FlushOp(now) => FlushStale(c, e, now)
    case ParamsOp(params) => e.(params := params)
  }

  ghost predicate WellFormedOp(op: EncOp) {
    op.ParamsOp? ==> WellFormed(op.params)
  }

  /** The packets of group number `n` with their indexes 0, 1, 2, ... */
  function PlacedOf(n: int, packets: seq<Packet>): seq<Placed> {
    seq(|packets|, j requires 0 <= j < |packets| => Placed(n, j, packets[j]))
  }

  function AllPlaced(closed: seq<Group>): seq<Placed> {
    if closed == [] then []
    else AllPlaced(closed[..|closed| - 1]) + PlacedOf(|closed| - 1, closed[|closed| - 1].packets)
  }

  ghost function AllParity(c: Codec, closed: seq<Group>): seq<ParityShard>
    requires Sized(c)
  {
    if closed == [] then []
    else AllParity(c, closed[..|closed| - 1]) + ParityShards(c, |closed| - 1, closed[|closed| - 1])
  }

  /** A geometry whose fields all fit a byte. */
  predicate Fits(g: Group) {
    1 <= g.K() <= MAX_K && 1 <= g.m <= MAX_M
  }

  /** Holds also when a full group is about to close. */
  ghost predicate Consistent(c: Codec, e: Enc)
    requires Sized(c)
  {
    && WellFormed(e.params)
    && |e.open| <= MAX_K
    && e.opens == |e.closed| + (if e.open == [] then 0 else 1) == |e.adopted|
    && (e.open != [] ==> e.m == e.adopted[e.opens - 1].m && 1 <= e.m <= MAX_M)
    && (forall n :: 0 <= n < |e.closed| ==> Fits(e.closed[n]) && e.closed[n].m == e.adopted[n].m)
    && e.placed == AllPlaced(e.closed) + PlacedOf(|e.closed|, e.open)
    && e.emitted == AllParity(c, e.closed)
  }

  ghost predicate EncInv(c: Codec, e: Enc)
    requires Sized(c)
  {
    Consistent(c, e) && |e.open| < MAX_K
  }

  lemma CloseKeeps(c: Codec, e: Enc)
    requires Sized(c) && e.open != [] && Consistent(c, e)
    ensures EncInv(c, CloseGroup(c, e))
  {
    var r := CloseGroup(c, e);
    assert r.closed[..|e.closed|] == e.closed;
    assert PlacedOf(|r.closed|, []) == [];
  }

  lemma PlaceKeeps(c: Codec, e: Enc, p: Packet, now: int)
    requires Sized(c) && EncInv(c, e) && Protects(e)
    ensures Consistent(c, Place(if e.open == [] then OpenGroup(e, now) else e, p))
  {
    var n := |e.closed|;
    assert PlacedOf(n, e.open + [p]) == PlacedOf(n, e.open) + [Placed(n, |e.open|, p)];
  }

  lemma StepKeeps(c: Codec, e: Enc, op: EncOp)
    requires Sized(c) && EncInv(c, e) && WellFormedOp(op)
    ensures EncInv(c, Step(c, e, op))
  {
    hide Sized, AllPlaced, AllParity, PlacedOf, CloseGroup;
    match op
    case AddOp(p, now) =>
      if Protects(e) {
        PlaceKeeps(c, e, p, now);
        var s := Place(if e.open == [] then OpenGroup(e, now) else e, p);
        if |s.open| >= s.params.k {
          CloseKeeps(c, s);
        }
      }
    case FlushOp(now) =>
      if e.open != [] {
        CloseKeeps(c, e);
      }
    case ParamsOp(params) =>
  }

  ghost function Run(c: Codec, e: Enc, ops: seq<EncOp>): Enc
    requires Sized(c)
    decreases |ops|
  {
    if ops == [] then e else Run(c, Step(c, e, ops[0]), ops[1..])
  }

  lemma {:induction false} RunKeeps(c: Codec, e: Enc, ops: seq<EncOp>)
    requires Sized(c) && EncInv(c, e) && forall i :: 0 <= i < |ops| ==> WellFormedOp(ops[i])
    ensures EncInv(c, Run(c, e, ops))
    decreases |ops|
  {
    if ops != [] {
      StepKeeps(c, e, ops[0]);
      RunKeeps(c, Step(c, e, ops[0]), ops[1..]);
    }
  }

  /**
   Group geometry under every interleaving of well-formed operations: closed
   group `n` has between 1 and 64 packets with the indexes 0..k-1 in order, and
   the parity count in force when it was opened.
   */
  lemma Geometry(c: Codec, ops: seq<EncOp>)
    requires Sized(c) && forall i :: 0 <= i < |ops| ==> WellFormedOp(ops[i])
    ensures EncInv(c, Run(c, NewEnc(), ops))
  {
    assert PlacedOf(0, []) == [];
    RunKeeps(c, NewEnc(), ops);
  }

  // ----- What the stamps and the parity headers say -----

  /**
   The stamp of the next packet: while FEC is off and no group is open there is none,
   otherwise it names the group after the closed ones, by 24 bits, and the number of
   packets before this one in it.
   */
  lemma StampExact(c: Codec, e: Enc)
    requires Sized(c) && EncInv(c, e)
    ensures NextTag(e) == if e.open == [] && e.params.k == 0 then None
                          else Some(Tag(|e.closed| % 0x100_0000, |e.open|))
  {
  }

  lemma {:induction false} PlacedExactly(closed: seq<Group>, x: Placed)
    ensures x in AllPlaced(closed) <==>
            0 <= x.number < |closed| && x.index < closed[x.number].K() && x.packet == closed[x.number].packets[x.index]
  {
    if closed != [] {
      var n := |closed| - 1;
      PlacedExactly(closed[..n], x);
      InPlacedOf(n, closed[n].packets, x);
    }
  }

  lemma InPlacedOf(n: int, packets: seq<Packet>, x: Placed)
    ensures x in PlacedOf(n, packets) <==>
            x.number == n && x.index < |packets| && x.packet == packets[x.index]
  {
    if x.number == n && x.index < |packets| && x.packet == packets[x.index] {
      assert PlacedOf(n, packets)[x.index] == x;
    }
  }

  /** The parity datagram number `i` of a closed group, with nothing truncated. */
  ghost function Announcement(c: Codec, n: nat, g: Group, i: nat): ParityShard
    requires Sized(c) && Fits(g) && i < g.m
  {
    ParityCount(c, g);
    ParityShard(GroupId(n), g.K() + i, g.K(), g.m, Parity(c, g)[i])
  }

  lemma InParityShards(c: Codec, n: nat, g: Group, x: ParityShard)
    requires Sized(c) && Fits(g)
    ensures x in ParityShards(c, n, g) <==> exists i: nat :: i < g.m && x == Announcement(c, n, g, i)
  {
    var ps := ParityShards(c, n, g);
    forall i | 0 <= i < g.m
      ensures ps[i] == Announcement(c, n, g, i)
    {
    }
  }

  /** Some closed group announces `x`. */
  ghost predicate Announced(c: Codec, closed: seq<Group>, x: ParityShard)
    requires Sized(c) && forall n :: 0 <= n < |closed| ==> Fits(closed[n])
  {
    exists n: nat, i: nat :: n < |closed| && i < closed[n].m && x == Announcement(c, n, closed[n], i)
  }

  lemma AnnouncedStep(c: Codec, closed: seq<Group>, g: Group, x: ParityShard)
    requires Sized(c) && Fits(g) && forall n :: 0 <= n < |closed| ==> Fits(closed[n])
    ensures Announced(c, closed + [g], x) <==>
            Announced(c, closed, x) || exists i: nat :: i < g.m && x == Announcement(c, |closed|, g, i)
  {
    hide Announcement, Sized;
    var all := closed + [g];
    if Announced(c, closed, x) {
      var n: nat, i: nat :| n < |closed| && i < closed[n].m && x == Announcement(c, n, closed[n], i);
      assert all[n] == closed[n];
    }
    if i: nat :| i < g.m && x == Announcement(c, |closed|, g, i) {
      assert all[|closed|] == g;
    }
    if Announced(c, all, x) {
      var n: nat, i: nat :| n < |all| && i < all[n].m && x == Announcement(c, n, all[n], i);
      assert n < |closed| ==> all[n] == closed[n];
    }
  }

  /**
   The parity datagrams are exactly those of the closed groups: indexes
   k..k+m-1, announcing the true k and m.
   */
  lemma {:induction false} ParityExactly(c: Codec, closed: seq<Group>, x: ParityShard)
    requires Sized(c) && forall n :: 0 <= n < |closed| ==> Fits(closed[n])
    ensures x in AllParity(c, closed) <==> Announced(c, closed, x)
  {
    hide Sized;
    if closed != [] {
      hide Announced, ParityShards, Announcement;
      var n := |closed| - 1;
      ParityExactly(c, closed[..n], x);
      InParityShards(c, n, closed[n], x);
      AnnouncedStep(c, closed[..n], closed[n], x);
      assert closed[..n] + [closed[n]] == closed;
    }
  }

  /** The two counters: every closed group is counted, and every parity datagram of it. */
  lemma {:induction false} CountersExact(c: Codec, closed: seq<Group>)
    requires Sized(c) && forall n :: 0 <= n < |closed| ==> Fits(closed[n])
    ensures GroupsWithParity(closed) == |closed| && |AllParity(c, closed)| == TotalParity(closed)
  {
    hide Sized;
    if closed != [] {
      CountersExact(c, closed[..|closed| - 1]);
    }
  }

  function TotalParity(closed: seq<Group>): nat {
    if closed == [] then 0 else TotalParity(closed[..|closed| - 1]) + closed[|closed| - 1].m
  }

  // ----- When the announced k is the configured one -----

  /**
   `SetParams` reaches into the open group: the close test reads the current k.
   A group opened under k = 3 closes with two packets once k is set to 1.
   */
  lemma KChangesMidGroup(c: Codec, p: Packet, r: Packet)
    requires Sized(c)
    ensures var e0 := Step(c, NewEnc(), ParamsOp(Params(3, 1)));
            var e1 := Step(c, e0, AddOp(p, 0));
            var e2 := Step(c, e1, ParamsOp(Params(1, 1)));
            var e3 := Step(c, e2, AddOp(r, 0));
            e3.adopted == [Params(3, 1)] && e3.closed == [Group([p, r], 1)]
  {
    var e0 := Step(c, NewEnc(), ParamsOp(Params(3, 1)));
    var e1 := Step(c, e0, AddOp(p, 0));
    assert e1.open == [p];
    var e2 := Step(c, e1, ParamsOp(Params(1, 1)));
    var e3 := Step(c, e2, AddOp(r, 0));
    assert Place(e2, r).open == [p, r];
  }

  /** The part of a run before a flush comes 8 ms or more after `t`. */
  function BeforeFlush(ops: seq<EncOp>, t: int): seq<EncOp> {
    if ops == [] || (ops[0].FlushOp? && ops[0].now - t >= 8_000_000) then []
    else [ops[0]] + BeforeFlush(ops[1..], t)
  }

  /** The k in force at each packet of a run that starts with `k` in force. */
  function InForce(k: nat, ops: seq<EncOp>): seq<nat>
    decreases |ops|
  {
    if ops == [] then []
    else
      match ops[0]
      case AddOp(_, _) => [k] + InForce(k, ops[1..])
      case FlushOp(_) => InForce(k, ops[1..])
      case ParamsOp(params) => InForce(params.k, ops[1..])
  }

  /** After `a` packets, the k in force exceeds the packet count up to packet `n`. */
  ghost predicate Exceeds(ks: seq<nat>, a: nat, n: nat) {
    forall j :: 0 <= j < |ks| && a + j + 1 <= n ==> ks[j] > a + j + 1
  }

  /** Packet number `k` of the group is the first at which the k in force is reached. */
  ghost predicate Fills(ks: seq<nat>, a: nat, k: nat) {
    a < k <= a + |ks| && Exceeds(ks, a, k - 1) && ks[k - a - 1] <= k
  }

  /** The group that follows those of `e` is closed in `r` and announces `k`. */
  predicate Announces(e: Enc, r: Enc, k: nat) {
    |r.closed| > |e.closed| && r.closed[|e.closed|].K() == k
  }

  lemma {:induction false} ClosedStays(c: Codec, e: Enc, ops: seq<EncOp>)
    requires Sized(c)
    ensures e.closed <= Run(c, e, ops).closed
    decreases |ops|
  {
    hide Sized, ParityShards;
    if ops != [] {
      ClosedStays(c, Step(c, e, ops[0]), ops[1..]);
    }
  }

  // The k an open group of `|e.open|` packets announces.
  lemma {:induction false} OpenGroupAnnounces(c: Codec, e: Enc, ops: seq<EncOp>, k: nat)
    requires Sized(c) && e.open != []
    ensures var before := BeforeFlush(ops, e.firstAt);
            var ks := InForce(e.params.k, before);
            Announces(e, Run(c, e, ops), k) <==>
            || Fills(ks, |e.open|, k)
            || (before != ops && k == |e.open| + |ks| && Exceeds(ks, |e.open|, k))
    decreases |ops|
  {
    hide Sized, ParityShards;
    if ops != [] {
      var r, rest := Step(c, e, ops[0]), ops[1..];
      ClosedStays(c, r, rest);
      if |r.closed| == |e.closed| {
        OpenGroupAnnounces(c, r, rest, k);
        var before := BeforeFlush(rest, e.firstAt);
        assert ([ops[0]] + before)[1..] == before;
        assert before == rest <==> [ops[0]] + before == ops;
        if ops[0].AddOp? {
          OneMorePacket(e.params.k, InForce(e.params.k, before), |e.open|, k);
        }
      } else if ops[0].AddOp? {
        var before := BeforeFlush(rest, e.firstAt);
        assert ([ops[0]] + before)[1..] == before;
        LastPacket(e.params.k, InForce(e.params.k, before), |e.open|, k);
      }
    }
  }

  lemma LastPacket(k0: nat, ks: seq<nat>, a: nat, k: nat)
    requires k0 <= a + 1
    ensures Fills([k0] + ks, a, k) <==> k == a + 1
    ensures k > a ==> !Exceeds([k0] + ks, a, k)
  {
    assert ([k0] + ks)[0] == k0;
  }

  lemma OneMorePacket(k0: nat, ks: seq<nat>, a: nat, k: nat)
    requires k0 > a + 1
    ensures Fills([k0] + ks, a, k) <==> Fills(ks, a + 1, k)
    ensures forall n: nat :: Exceeds([k0] + ks, a, n) <==> Exceeds(ks, a + 1, n)
  {
    var all := [k0] + ks;
    assert forall j :: 0 <= j < |ks| ==> all[j + 1] == ks[j];
    forall n: nat
      ensures Exceeds(all, a, n) <==> Exceeds(ks, a + 1, n)
    {
      if Exceeds(all, a, n) {
        forall j | 0 <= j < |ks| && a + 1 + j + 1 <= n
          ensures ks[j] > a + 1 + j + 1
        {
          assert all[j + 1] > a + j + 2;
        }
      }
    }
    assert k > a + 1 ==> (Exceeds(all, a, k - 1) <==> Exceeds(ks, a + 1, k - 1));
  }

  /**
   The k a group announces, over every run. The group is opened by packet `p` under
   `e.params` and `ks` lists the k in force at its packets until a flush 8 ms later.
   It announces k exactly when packet k is the first whose number reaches the k in
   force, or when no packet reaches it and k packets came before the flush. So the
   k it was opened under is announced exactly when the k in force exceeds i at
   packet i for every i below it and is at most that at the last one.
   */
  lemma AnnouncedExactly(c: Codec, e: Enc, p: Packet, t: int, ops: seq<EncOp>, k: nat)
    requires Sized(c) && e.open == [] && e.params.k > 0
    ensures var before := BeforeFlush(ops, t);
            var ks := [e.params.k] + InForce(e.params.k, before);
            Announces(e, Run(c, e, [AddOp(p, t)] + ops), k) <==>
            Fills(ks, 0, k) || (before != ops && k == |ks| && Exceeds(ks, 0, k))
  {
    hide Sized, ParityShards, Run;
    var all := [AddOp(p, t)] + ops;
    var r := Step(c, e, all[0]);
    RunFirst(c, e, all);
    assert all[1..] == ops;
    ClosedStays(c, r, ops);
    var ks := InForce(e.params.k, BeforeFlush(ops, t));
    assert ([e.params.k] + ks)[0] == e.params.k;
    if e.params.k > 1 {
      OpenGroupAnnounces(c, r, ops, k);
      OneMorePacket(e.params.k, ks, 0, k);
    }
  }

  lemma RunFirst(c: Codec, e: Enc, ops: seq<EncOp>)
    requires Sized(c) && ops != []
    ensures Run(c, e, ops) == Run(c, Step(c, e, ops[0]), ops[1..])
  {
  }

  /** Without a change of k, a group announces the k it was opened under unless it is flushed first. */
  lemma SteadyGroupsAreFull(c: Codec, e: Enc, p: Packet, t: int, ops: seq<EncOp>)
    requires Sized(c) && e.open == [] && e.params.k > 0
    requires forall i :: 0 <= i < |ops| && ops[i].ParamsOp? ==> ops[i].params.k == e.params.k
    ensures var r := Run(c, e, [AddOp(p, t)] + ops);
            var n := 1 + |InForce(e.params.k, BeforeFlush(ops, t))|;
            && (Announces(e, r, e.params.k) <==> n >= e.params.k)
            && (|r.closed| > |e.closed| && n < e.params.k ==> r.closed[|e.closed|].K() == n)
  {
    hide Sized, Run;
    var k, before := e.params.k, BeforeFlush(ops, t);
    var ks := [k] + InForce(k, before);
    BeforeFlushSome(ops, t);
    SameInForce(k, before);
    AnnouncedExactly(c, e, p, t, ops, k);
    var r := Run(c, e, [AddOp(p, t)] + ops);
    if |r.closed| > |e.closed| {
      AnnouncedExactly(c, e, p, t, ops, r.closed[|e.closed|].K());
    }
    assert forall i :: 0 <= i < |ks| ==> ks[i] == k;
  }

  lemma {:induction false} BeforeFlushSome(ops: seq<EncOp>, t: int)
    ensures forall i :: 0 <= i < |BeforeFlush(ops, t)| ==> BeforeFlush(ops, t)[i] in ops
  {
    if ops != [] {
      BeforeFlushSome(ops[1..], t);
    }
  }

  lemma {:induction false} SameInForce(k: nat, ops: seq<EncOp>)
    requires forall i :: 0 <= i < |ops| && ops[i].ParamsOp? ==> ops[i].params.k == k
    ensures forall i :: 0 <= i < |InForce(k, ops)| ==> InForce(k, ops)[i] == k
  {
    if ops != [] {
      SameInForce(k, ops[1..]);
    }
  }

  // ----- When a partial group is flushed -----

  function AddOps(ps: seq<(Packet, int)>): seq<EncOp> {
    seq(|ps|, i requires 0 <= i < |ps| => AddOp(ps[i].0, ps[i].1))
  }

  lemma {:induction false} OpenGroupKeepsTime(c: Codec, e: Enc, ps: seq<(Packet, int)>)
    requires Sized(c) && e.open != [] && |e.open| + |ps| < e.params.k
    ensures var r := Run(c, e, AddOps(ps));
            r.firstAt == e.firstAt && |r.open| == |e.open| + |ps| && r.closed == e.closed
    decreases |ps|
  {
    if ps != [] {
      assert AddOps(ps)[1..] == AddOps(ps[1..]);
      OpenGroupKeepsTime(c, Step(c, e, AddOps(ps)[0]), ps[1..]);
    }
  }

  /**
   A partial group opened at time `t` is flushed exactly when 8 ms have passed
   since its first packet, whatever came in between.
   */
  lemma FlushIsTimedFromFirstPacket(c: Codec, e: Enc, p: Packet, t: int, ps: seq<(Packet, int)>, now: int)
    requires Sized(c) && e.open == [] && 1 + |ps| < e.params.k
    ensures var r := Run(c, Step(c, e, AddOp(p, t)), AddOps(ps));
            |FlushStale(c, r, now).closed| == |e.closed| + (if now - t >= 8_000_000 then 1 else 0)
  {
    OpenGroupKeepsTime(c, Step(c, e, AddOp(p, t)), ps);
  }
}
