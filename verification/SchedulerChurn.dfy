/**
 Balances when paths come and go: at every pick the candidates may be any set of
 paths and their weights arbitrary. Among N paths no balance ever leaves
 [-(N-1)/2, (N-1)/2].

 The balances of any k of the N paths sum to at most k(N-k)/2. A pick keeps that:
 either one of the k pays for what they earn, or a candidate outside the k was at
 least as rich as all candidates among them.
 */
module SchedulerChurn {
  import opened Words
  import opened Scheduler
  import opened SchedulerFairness

  // ----- Sums over sets of paths -----

  ghost function Total(credits: map<Byte, real>, ids: set<Byte>): real {
    if ids == {} then 0.0
    else
      var x :| x in ids;
      Credit(credits, x) + Total(credits, ids - {x})
  }

  lemma {:induction false} TotalRemove(credits: map<Byte, real>, ids: set<Byte>, x: Byte)
    requires x in ids
    ensures Total(credits, ids) == Credit(credits, x) + Total(credits, ids - {x})
  {
    var y :| y in ids && Total(credits, ids) == Credit(credits, y) + Total(credits, ids - {y});
    if y != x {
      TotalRemove(credits, ids - {y}, x);
      TotalRemove(credits, ids - {x}, y);
      assert ids - {y} - {x} == ids - {x} - {y};
    }
  }

  lemma TotalAdd(credits: map<Byte, real>, ids: set<Byte>, x: Byte)
    requires x !in ids
    ensures Total(credits, ids + {x}) == Total(credits, ids) + Credit(credits, x)
  {
    TotalRemove(credits, ids + {x}, x);
    assert ids + {x} - {x} == ids;
  }

  lemma {:induction false} TotalUnion(credits: map<Byte, real>, a: set<Byte>, b: set<Byte>)
    requires a !! b
    ensures Total(credits, a + b) == Total(credits, a) + Total(credits, b)
    decreases |b|
  {
    hide Total;
    if b == {} {
      TotalEmpty(credits);
      assert a + b == a;
    } else {
      if forall x :: x !in b {
        assert false;
      }
      var x :| x in b;
      TotalUnion(credits, a, b - {x});
      TotalRemove(credits, b, x);
      TotalAdd(credits, a + (b - {x}), x);
      assert a + (b - {x}) + {x} == a + b;
    }
  }

  lemma TotalEmpty(credits: map<Byte, real>)
    ensures Total(credits, {}) == 0.0
  {
  }

  lemma {:induction false} TotalUpdate(credits: map<Byte, real>, ids: set<Byte>, id: Byte, c: real)
    ensures Total(credits[id := c], ids) ==
            Total(credits, ids) + (if id in ids then c - Credit(credits, id) else 0.0)
    decreases |ids|
  {
    hide Total;
    if ids == {} {
      TotalEmpty(credits);
      TotalEmpty(credits[id := c]);
    } else {
      if forall x :: x !in ids {
        assert false;
      }
      var x :| x in ids;
      TotalRemove(credits, ids, x);
      TotalRemove(credits[id := c], ids, x);
      TotalUpdate(credits, ids - {x}, id, c);
    }
  }

  lemma {:induction false} TotalAtMost(credits: map<Byte, real>, ids: set<Byte>, top: real)
    requires forall x :: x in ids ==> Credit(credits, x) <= top
    ensures Total(credits, ids) <= Times(|ids|, top)
    decreases |ids|
  {
    hide Total;
    if ids == {} {
      TotalEmpty(credits);
    } else {
      if forall x :: x !in ids {
        assert false;
      }
      var x :| x in ids;
      TotalRemove(credits, ids, x);
      TotalAtMost(credits, ids - {x}, top);
      assert |ids| as real * top == (|ids| - 1) as real * top + top;
    }
  }

  lemma {:induction false} TotalOfNothing(ids: set<Byte>)
    ensures Total(map[], ids) == 0.0
    decreases |ids|
  {
    if ids != {} {
      if forall x :: x !in ids {
        assert false;
      }
      var x :| x in ids;
      TotalRemove(map[], ids, x);
      TotalOfNothing(ids - {x});
    }
  }

  // ----- What a set of paths earns -----

  /** The shares of the first `n` candidates that are in `among`. */
  function Earned(ids: seq<Byte>, shares: seq<real>, among: set<Byte>, n: nat): real
    requires n <= |ids| == |shares|
  {
    if n == 0 then 0.0
    else Earned(ids, shares, among, n - 1) + (if ids[n - 1] in among then shares[n - 1] else 0.0)
  }

  lemma {:induction false} ChargeTotal(credits: map<Byte, real>, ids: seq<Byte>, shares: seq<real>, among: set<Byte>, n: nat)
    requires n <= |ids| == |shares|
    ensures Total(Charge(credits, ids, shares, n).credits, among) ==
            Total(credits, among) + Earned(ids, shares, among, n)
  {
    hide Total;
    if n > 0 {
      ChargeTotal(credits, ids, shares, among, n - 1);
      var s := Charge(credits, ids, shares, n - 1);
      TotalUpdate(s.credits, among, ids[n - 1], Credit(s.credits, ids[n - 1]) + shares[n - 1]);
    }
  }

  lemma {:induction false} EarnedBounds(ids: seq<Byte>, shares: seq<real>, among: set<Byte>, n: nat)
    requires n <= |ids| == |shares| && forall i :: 0 <= i < |shares| ==> shares[i] > 0.0
    ensures 0.0 <= Earned(ids, shares, among, n) <= Sum(shares[..n])
    ensures (forall i :: 0 <= i < n ==> ids[i] in among) ==> Earned(ids, shares, among, n) == Sum(shares[..n])
    ensures (forall i :: 0 <= i < n ==> ids[i] !in among) ==> Earned(ids, shares, among, n) == 0.0
  {
    if n > 0 {
      EarnedBounds(ids, shares, among, n - 1);
      SumStep(shares, n - 1);
    }
  }

  // ----- The invariant -----

  /** Twice the most that `k` of `n` balances can sum to. */
  function Cap(k: int, n: int): int {
    k * (n - k)
  }

  ghost predicate Capped(credits: map<Byte, real>, paths: set<Byte>) {
    && Total(credits, paths) == 0.0
    && forall among :: among <= paths ==> 2.0 * Total(credits, among) <= Cap(|among|, |paths|) as real
  }

  lemma EmptyCapped(paths: set<Byte>)
    ensures Capped(map[], paths)
  {
    TotalOfNothing(paths);
    forall among | among <= paths
      ensures 2.0 * Total(map[], among) <= Cap(|among|, |paths|) as real
    {
      TotalOfNothing(among);
      SmallerSet(among, paths);
      CapPositive(|among|, |paths|);
    }
  }

  lemma CapPositive(k: nat, n: nat)
    requires k <= n
    ensures Cap(k, n) >= 0
  {
  }

  // j + 1 times the new sum, from what the candidates had and earned together.
  lemma RicherOutside(j: real, x: real, p: real, t: real, y: real)
    requires j >= 0.0 && p <= j * t && p + t <= y + 1.0
    ensures (j + 1.0) * (x + p) <= j * (x + y) + x + j
  {
    var jp, jt, jx, jy := j * p, j * t, j * x, j * y;
    ScaleBound(j, p + t, y + 1.0);
    assert j * (p + t) == jp + jt && j * (y + 1.0) == jy + j;
    assert (j + 1.0) * (x + p) == jx + x + jp + p;
    assert j * (x + y) == jx + jy;
  }

  lemma CapIdentity(j: int, k: int, n: int)
    ensures j * Cap(k + 1, n) + Cap(k - j, n) + 2 * j == (j + 1) * Cap(k, n) - j * (j - 1)
  {
    var a, b := j * k, j * n;
    assert Cap(k + 1, n) == Cap(k, n) + n - 2 * k - 1;
    assert Cap(k - j, n) == Cap(k, n) - b + 2 * a - j * j;
    assert j * Cap(k + 1, n) == j * Cap(k, n) + b - 2 * a - j;
  }

  lemma CapReal(j: nat, k: int, n: int)
    requires j > 0
    ensures j as real * Cap(k + 1, n) as real + Cap(k - j, n) as real + 2.0 * j as real
            <= (j as real + 1.0) * Cap(k, n) as real
  {
    hide Cap;
    CapIdentity(j, k, n);
    var u, v, z := Cap(k + 1, n), Cap(k - j, n), Cap(k, n);
    assert j * (j - 1) >= 0;
    assert (j * u) as real == j as real * u as real;
    assert ((j + 1) * z) as real == (j as real + 1.0) * z as real;
  }

  /** The product, kept out of sight where only its bound matters. */
  function Times(j: nat, t: real): real {
    j as real * t
  }

  lemma CapStep(j: nat, k: nat, n: nat, x: real, p: real, t: real, y: real)
    requires j <= k < n && p <= Times(j, t) && p + t <= y + 1.0
    requires 2.0 * (x + y) <= Cap(k + 1, n) as real && 2.0 * x <= Cap(k - j, n) as real
    ensures 2.0 * (x + p) <= Cap(k, n) as real
  {
    hide Cap;
    if j > 0 {
      var r := j as real;
      var u, v, z := Cap(k + 1, n) as real, Cap(k - j, n) as real, Cap(k, n) as real;
      RicherOutside(r, x, p, t, y);
      CapReal(j, k, n);
      ScaleBound(r, 2.0 * (x + y), u);
      Combine(r, x, p, y, u, v, z);
    }
  }

  lemma Combine(r: real, x: real, p: real, y: real, u: real, v: real, z: real)
    requires r > 0.0 && (r + 1.0) * (x + p) <= r * (x + y) + x + r
    requires r * (2.0 * (x + y)) <= r * u && 2.0 * x <= v && r * u + v + 2.0 * r <= (r + 1.0) * z
    ensures 2.0 * (x + p) <= z
  {
    var s, t, q := x + p, x + y, r * (x + y);
    assert r * (2.0 * t) == 2.0 * q;
    assert (r + 1.0) * s <= q + x + r;
    assert 2.0 * q + v + 2.0 * r <= (r + 1.0) * z;
    assert 2.0 * ((r + 1.0) * s) <= (r + 1.0) * z;
    Doubled(r + 1.0, s);
    Unscale(r + 1.0, 2.0 * s, z);
  }

  lemma Doubled(r: real, s: real)
    ensures r * (2.0 * s) == 2.0 * (r * s)
  {
  }

  lemma ScaleBound(r: real, a: real, b: real)
    requires r >= 0.0 && a <= b
    ensures r * a <= r * b
  {
  }

  lemma Unscale(r: real, a: real, b: real)
    requires r > 0.0 && r * a <= r * b
    ensures a <= b
  {
    if a > b {
      SmallerProduct(b, a, r);
    }
  }

  // ----- One pick -----

  /** The balances a pick starts from. */
  function Opened(credits: map<Byte, real>, ids: seq<Byte>): map<Byte, real> {
    if |credits| > 2 * |ids| then map[] else credits
  }

  lemma OpenedCapped(credits: map<Byte, real>, ids: seq<Byte>, paths: set<Byte>)
    requires Capped(credits, paths)
    ensures Capped(Opened(credits, ids), paths)
  {
    hide Capped;
    EmptyCapped(paths);
  }

  // What a pick does to the sum over a set of paths.
  lemma PickTotal(credits: map<Byte, real>, ids: seq<Byte>, ws: seq<real>, among: set<Byte>)
    requires |ids| == |ws| >= 2
    ensures var (best, after) := PickStep(credits, ids, ws);
            && 0 <= best < |ids|
            && Total(after, among) == Total(Opened(credits, ids), among)
                                      + Earned(ids, Shares(ws), among, |ids|) - (if ids[best] in among then 1.0 else 0.0)
  {
    hide Total, Shares, Charge, Earned;
    var start, shares := Opened(credits, ids), Shares(ws);
    assert Purged(credits, ids) == start;
    ChargeBest(start, ids, shares, |ids|);
    ChargeTotal(start, ids, shares, among, |ids|);
    var s := Charge(start, ids, shares, |ids|);
    TotalUpdate(s.credits, among, ids[s.best], s.credits[ids[s.best]] - 1.0);
  }

  lemma EarnedAtMostOne(ids: seq<Byte>, ws: seq<real>, among: set<Byte>)
    requires |ids| == |ws| >= 2
    ensures 0.0 <= Earned(ids, Shares(ws), among, |ids|) <= 1.0
    ensures (forall i :: 0 <= i < |ids| ==> ids[i] in among) ==> Earned(ids, Shares(ws), among, |ids|) == 1.0
    ensures (forall i :: 0 <= i < |ids| ==> ids[i] !in among) ==> Earned(ids, Shares(ws), among, |ids|) == 0.0
  {
    hide Shares, Sum, Earned;
    SharesPositive(ws);
    EarnedBounds(ids, Shares(ws), among, |ids|);
    assert Shares(ws)[..|ids|] == Shares(ws);
  }

  // The winner was, before it paid, at least as rich as every candidate.
  lemma WinnerTop(credits: map<Byte, real>, ids: seq<Byte>, ws: seq<real>, i: nat)
    requires |ids| == |ws| >= 2 && Distinct(ids) && i < |ids|
    ensures var (best, after) := PickStep(credits, ids, ws);
            0 <= best < |ids| && Credit(after, ids[i]) <= Credit(after, ids[best]) + 1.0
  {
    hide PickStep, Shares, Distinct, Opening;
    PickExact(credits, ids, ws, i);
    PickExact(credits, ids, ws, PickStep(credits, ids, ws).0);
  }

  lemma WinnerTops(credits: map<Byte, real>, ids: seq<Byte>, ws: seq<real>, among: set<Byte>, best: nat, after: map<Byte, real>)
    requires |ids| == |ws| >= 2 && Distinct(ids) && among <= IdSet(ids)
    requires best < |ids| && (best, after) == PickStep(credits, ids, ws)
    ensures Total(after, among) <= Times(|among|, Credit(after, ids[best]) + 1.0)
  {
    hide Total, PickStep, Distinct, Credit, Times;
    forall x | x in among
      ensures Credit(after, x) <= Credit(after, ids[best]) + 1.0
    {
      assert x in IdSet(ids);
      var i :| 0 <= i < |ids| && ids[i] == x;
      WinnerTop(credits, ids, ws, i);
    }
    TotalAtMost(after, among, Credit(after, ids[best]) + 1.0);
  }

  // The candidates in `among` and the winner earn at most one credit together, the others nothing.
  lemma OutsideSums(credits: map<Byte, real>, ids: seq<Byte>, ws: seq<real>, inside: set<Byte>, rest: set<Byte>,
                    best: nat, after: map<Byte, real>)
    requires |ids| == |ws| >= 2 && inside <= IdSet(ids) && rest !! IdSet(ids)
    requires best < |ids| && (best, after) == PickStep(credits, ids, ws) && ids[best] !in inside
    ensures var start, b := Opened(credits, ids), ids[best];
            && Total(after, inside + rest) == Total(after, inside) + Total(start, rest)
            && Total(after, inside) + (Credit(after, b) + 1.0) <= Total(start, inside + {b}) + 1.0
            && Total(start, inside + rest + {b}) == Total(start, inside + {b}) + Total(start, rest)
  {
    hide Total, PickStep, Earned, Credit;
    var start, b := Opened(credits, ids), ids[best];
    assert b in IdSet(ids);
    TotalUnion(after, inside, rest);
    PickTotal(credits, ids, ws, rest);
    assert forall i :: 0 <= i < |ids| ==> ids[i] in IdSet(ids);
    EarnedAtMostOne(ids, ws, rest);
    PickTotal(credits, ids, ws, inside + {b});
    EarnedAtMostOne(ids, ws, inside + {b});
    TotalAdd(after, inside, b);
    TotalUnion(start, inside + {b}, rest);
    assert inside + {b} + rest == inside + rest + {b};
  }

  lemma OutsideFacts(credits: map<Byte, real>, ids: seq<Byte>, ws: seq<real>, paths: set<Byte>, among: set<Byte>,
                     best: nat, after: map<Byte, real>) returns (j: nat, x: real, p: real, t: real, y: real)
    requires |ids| == |ws| >= 2 && Distinct(ids) && IdSet(ids) <= paths && Capped(credits, paths) && among <= paths
    requires best < |ids| && (best, after) == PickStep(credits, ids, ws) && ids[best] !in among
    ensures j <= |among| < |paths| && p <= Times(j, t) && p + t <= y + 1.0
    ensures 2.0 * (x + y) <= Cap(|among| + 1, |paths|) as real && 2.0 * x <= Cap(|among| - j, |paths|) as real
    ensures Total(after, among) == x + p
  {
    hide Total, PickStep, Cap, Distinct, Credit, Opened, Capped, IdSet, Times;
    var start, b := Opened(credits, ids), ids[best];
    var inside, rest := among * IdSet(ids), among - IdSet(ids);
    BestIsCandidate(ids, best);
    SplitSizes(among, IdSet(ids), b, paths);
    OpenedCapped(credits, ids, paths);
    OutsideSums(credits, ids, ws, inside, rest, best, after);
    CappedSet(start, paths, rest);
    CappedSet(start, paths, among + {b});
    j, x, p, t, y := |inside|, Total(start, rest), Total(after, inside), Credit(after, b) + 1.0, Total(start, inside + {b});
    WinnerTops(credits, ids, ws, inside, best, after);
  }

  lemma OutsideCapped(credits: map<Byte, real>, ids: seq<Byte>, ws: seq<real>, paths: set<Byte>, among: set<Byte>,
                      best: nat, after: map<Byte, real>)
    requires |ids| == |ws| >= 2 && Distinct(ids) && IdSet(ids) <= paths && Capped(credits, paths) && among <= paths
    requires best < |ids| && (best, after) == PickStep(credits, ids, ws) && ids[best] !in among
    ensures 2.0 * Total(after, among) <= Cap(|among|, |paths|) as real
  {
    hide Total, PickStep, Cap, Distinct, Capped, IdSet, Times;
    var j, x, p, t, y := OutsideFacts(credits, ids, ws, paths, among, best, after);
    CapStep(j, |among|, |paths|, x, p, t, y);
  }

  lemma BestIsCandidate(ids: seq<Byte>, best: nat)
    requires best < |ids|
    ensures ids[best] in IdSet(ids)
  {
  }

  lemma CappedSet(credits: map<Byte, real>, paths: set<Byte>, among: set<Byte>)
    requires Capped(credits, paths) && among <= paths
    ensures 2.0 * Total(credits, among) <= Cap(|among|, |paths|) as real
  {
    hide Total, Cap;
  }

  lemma SplitSizes(among: set<Byte>, cands: set<Byte>, b: Byte, paths: set<Byte>)
    requires among <= paths && cands <= paths && b in cands && b !in among
    ensures among * cands + (among - cands) == among && among - cands <= paths && among + {b} <= paths
    ensures |among - cands| == |among| - |among * cands| && |among + {b}| == |among| + 1 <= |paths|
  {
    assert among * cands + (among - cands) == among;
    SmallerSet(among + {b}, paths);
  }

  lemma PickCapped(credits: map<Byte, real>, ids: seq<Byte>, ws: seq<real>, paths: set<Byte>)
    requires |ids| == |ws| && Distinct(ids) && IdSet(ids) <= paths && Capped(credits, paths)
    ensures Capped(PickStep(credits, ids, ws).1, paths)
  {
    if |ids| >= 2 {
      hide Total, PickStep, Shares, Cap, Distinct, Earned;
      var (best, after) := PickStep(credits, ids, ws);
      OpenedCapped(credits, ids, paths);
      PickTotal(credits, ids, ws, paths);
      EarnedAtMostOne(ids, ws, paths);
      assert forall i :: 0 <= i < |ids| ==> ids[i] in IdSet(ids);
      forall among | among <= paths
        ensures 2.0 * Total(after, among) <= Cap(|among|, |paths|) as real
      {
        if ids[best] in among {
          PickTotal(credits, ids, ws, among);
          EarnedAtMostOne(ids, ws, among);
        } else {
          OutsideCapped(credits, ids, ws, paths, among, best, after);
        }
      }
    }
  }

  // ----- Runs -----

  /** The candidates of one pick and their weights. */
  datatype Round = Round(ids: seq<Byte>, ws: seq<real>)

  ghost predicate Among(rounds: seq<Round>, paths: set<Byte>) {
    forall t :: 0 <= t < |rounds| ==>
      |rounds[t].ids| == |rounds[t].ws| && Distinct(rounds[t].ids) && IdSet(rounds[t].ids) <= paths
  }

  function After(credits: map<Byte, real>, rounds: seq<Round>): map<Byte, real>
    requires forall t :: 0 <= t < |rounds| ==> |rounds[t].ids| == |rounds[t].ws|
    decreases |rounds|
  {
    if rounds == [] then credits else After(PickStep(credits, rounds[0].ids, rounds[0].ws).1, rounds[1..])
  }

  lemma {:induction false} AfterCapped(credits: map<Byte, real>, rounds: seq<Round>, paths: set<Byte>)
    requires Among(rounds, paths) && Capped(credits, paths)
    ensures Capped(After(credits, rounds), paths)
    decreases |rounds|
  {
    hide Capped, PickStep, Distinct;
    if rounds != [] {
      PickCapped(credits, rounds[0].ids, rounds[0].ws, paths);
      AfterCapped(PickStep(credits, rounds[0].ids, rounds[0].ws).1, rounds[1..], paths);
    }
  }

  /**
   Over every run in which candidates and weights change arbitrarily among N paths,
   forgotten balances included, all balances sum to zero and each lies in
   [-(N-1)/2, (N-1)/2].
   */
  lemma ChurnBound(rounds: seq<Round>, paths: set<Byte>, id: Byte)
    requires Among(rounds, paths) && id in paths
    ensures var after := After(map[], rounds);
            && Total(after, paths) == 0.0
            && -((|paths| - 1) as real) <= 2.0 * Credit(after, id) <= (|paths| - 1) as real
  {
    hide Total, After, Distinct;
    EmptyCapped(paths);
    AfterCapped(map[], rounds, paths);
    var after := After(map[], rounds);
    var others := paths - {id};
    TotalRemove(after, paths, id);
    TotalRemove(after, {id}, id);
    assert {id} - {id} == {};
    TotalEmpty(after);
    assert {id} <= paths && others <= paths;
    assert |others| == |paths| - 1 && |{id}| == 1;
  }
}
