/**
 The weighted round-robin scheduler: one credit balance per path, each pick adds
 every path's normalised share and charges one credit to the richest path.
 Floating point is modelled by the reals.
 */
module Scheduler {
  import opened Words

  const WEIGHT_FLOOR := 0.05

  function Sum(xs: seq<real>): real {
    if xs == [] then 0.0 else Sum(xs[..|xs| - 1]) + xs[|xs| - 1]
  }

  // ----- Shares -----

  /** Sum and number of the weights that are known, that is positive. */
  function Known(ws: seq<real>): (real, nat) {
    if ws == [] then (0.0, 0)
    else
      var (total, n) := Known(ws[..|ws| - 1]);
      var w := ws[|ws| - 1];
      if w > 0.0 then (total + w, n + 1) else (total, n)
  }

  /** What an unknown weight counts as. */
  function Mean(ws: seq<real>): real {
    var (total, n) := Known(ws);
    if n > 0 then total / n as real else 1.0
  }

  function Filled(ws: seq<real>): (r: seq<real>)
    ensures |r| == |ws|
  {
    seq(|ws|, i requires 0 <= i < |ws| => if ws[i] <= 0.0 then Mean(ws) else ws[i])
  }

  function Scaled(xs: seq<real>, den: real): (r: seq<real>)
    requires den > 0.0
    ensures |r| == |xs|
    ensures forall i :: 0 <= i < |xs| ==> r[i] == xs[i] / den
  {
    seq(|xs|, i requires 0 <= i < |xs| => xs[i] / den)
  }

  function AtLeastFloor(xs: seq<real>): (r: seq<real>)
    ensures |r| == |xs|
    ensures forall i :: 0 <= i < |xs| ==> r[i] == if xs[i] < WEIGHT_FLOOR then WEIGHT_FLOOR else xs[i]
  {
    seq(|xs|, i requires 0 <= i < |xs| => if xs[i] < WEIGHT_FLOOR then WEIGHT_FLOOR else xs[i])
  }

  lemma {:induction false} SumPositive(xs: seq<real>)
    requires xs != [] && forall i :: 0 <= i < |xs| ==> xs[i] > 0.0
    ensures Sum(xs) > 0.0
  {
    if |xs| > 1 {
      SumPositive(xs[..|xs| - 1]);
    } else {
      assert xs[..0] == [];
    }
  }

  lemma {:induction false} SumScaled(xs: seq<real>, den: real)
    requires den > 0.0
    ensures Sum(Scaled(xs, den)) == Sum(xs) / den
  {
    if xs != [] {
      var init := xs[..|xs| - 1];
      SumScaled(init, den);
      assert Scaled(xs, den)[..|xs| - 1] == Scaled(init, den);
    }
  }

  lemma {:induction false} KnownPositive(ws: seq<real>)
    ensures Known(ws).1 > 0 ==> Known(ws).0 > 0.0
    ensures Known(ws).0 >= 0.0
  {
    if ws != [] {
      KnownPositive(ws[..|ws| - 1]);
    }
  }

  lemma FilledPositive(ws: seq<real>)
    ensures forall i :: 0 <= i < |ws| ==> Filled(ws)[i] > 0.0
    ensures ws != [] ==> Sum(Filled(ws)) > 0.0
  {
    KnownPositive(ws);
    MeanPositive(ws);
    if ws != [] {
      SumPositive(Filled(ws));
    }
  }

  lemma MeanPositive(ws: seq<real>)
    ensures Mean(ws) > 0.0
  {
    KnownPositive(ws);
    var (total, n) := Known(ws);
    if n > 0 {
      QuotientPositive(total, n as real);
    }
  }

  lemma SelfQuotient(x: real)
    requires x > 0.0
    ensures x / x == 1.0
  {
  }

  lemma QuotientPositive(x: real, y: real)
    requires x > 0.0 && y > 0.0
    ensures x / y > 0.0
  {
  }

  /** The shares before the final normalisation, each at least the floor. */
  function Floored(ws: seq<real>): (r: seq<real>)
    requires ws != []
    ensures |r| == |ws| && Sum(r) > 0.0
  {
    FilledPositive(ws);
    var r := AtLeastFloor(Scaled(Filled(ws), Sum(Filled(ws))));
    SumPositive(r);
    r
  }

  /** The credit each path earns per pick. */
  function Shares(ws: seq<real>): (r: seq<real>)
    requires ws != []
    ensures |r| == |ws|
  {
    Scaled(Floored(ws), Sum(Floored(ws)))
  }

  lemma {:induction false} FloorAddsLittle(xs: seq<real>)
    requires forall i :: 0 <= i < |xs| ==> xs[i] > 0.0
    ensures Sum(AtLeastFloor(xs)) <= Sum(xs) + WEIGHT_FLOOR * |xs| as real
  {
    if xs != [] {
      var init := xs[..|xs| - 1];
      FloorAddsLittle(init);
      assert AtLeastFloor(xs)[..|xs| - 1] == AtLeastFloor(init);
    }
  }

  /** The shares sum to the one credit the winner pays, and none is below 1/(n+20). */
  lemma SharesBalanced(ws: seq<real>)
    requires ws != []
    ensures Sum(Shares(ws)) == 1.0
    ensures forall i :: 0 <= i < |ws| ==> Shares(ws)[i] * (|ws| as real + 20.0) >= 1.0
  {
    hide Sum, Filled;
    var n := |ws| as real;
    var filled, floored := Filled(ws), Floored(ws);
    FilledPositive(ws);
    var norm := Scaled(filled, Sum(filled));
    forall i | 0 <= i < |ws|
      ensures norm[i] > 0.0
    {
      QuotientPositive(filled[i], Sum(filled));
    }
    SumScaled(filled, Sum(filled));
    SelfQuotient(Sum(filled));
    FloorAddsLittle(norm);
    var s := Sum(floored);
    SumScaled(floored, s);
    SelfQuotient(s);
    forall i | 0 <= i < |ws|
      ensures Shares(ws)[i] * (n + 20.0) >= 1.0
    {
      FloorShare(floored[i], s, n);
    }
  }

  lemma FloorShare(x: real, s: real, n: real)
    requires x >= 0.05 && 0.0 < s <= 1.0 + 0.05 * n && n >= 0.0
    ensures x / s * (n + 20.0) >= 1.0
  {
    var q, bound := x / s, 1.0 + 0.05 * n;
    QuotientPositive(x, s);
    ProductMonotone(q, s, bound);
    assert q * s == x;
    Distribute(q, n);
  }

  lemma ProductMonotone(a: real, b: real, c: real)
    requires a > 0.0 && b <= c
    ensures a * b <= a * c
  {
  }

  lemma Distribute(q: real, n: real)
    ensures q * (1.0 + 0.05 * n) == 0.05 * (q * (n + 20.0))
  {
    var t := q * n;
    assert q * (n + 20.0) == t + 20.0 * q;
    assert q * (1.0 + 0.05 * n) == q + 0.05 * t;
  }

  // ----- One pick -----

  function Credit(credits: map<Byte, real>, id: Byte): real {
    if id in credits then credits[id] else 0.0
  }

  /** Balances, best candidate and its balance after charging the first `n` paths. */
  datatype Scan = Scan(credits: map<Byte, real>, best: int, bestCredit: real)

  function Charge(credits: map<Byte, real>, ids: seq<Byte>, shares: seq<real>, n: nat): Scan
    requires n <= |ids| == |shares|
  {
    if n == 0 then Scan(credits, -1, 0.0)
    else
      var s := Charge(credits, ids, shares, n - 1);
      var c := Credit(s.credits, ids[n - 1]) + shares[n - 1];
      var better := s.best == -1 || c > s.bestCredit;
      Scan(s.credits[ids[n - 1] := c], if better then n - 1 else s.best, if better then c else s.bestCredit)
  }

  /** Balances of paths that left are dropped when they pile up. */
  function Purged(credits: map<Byte, real>, ids: seq<Byte>): map<Byte, real> {
    if |credits| > |ids| * 2 then map[] else credits
  }

  lemma ChargeBest(credits: map<Byte, real>, ids: seq<Byte>, shares: seq<real>, n: nat)
    requires n <= |ids| == |shares|
    ensures var s := Charge(credits, ids, shares, n);
            if n == 0 then s.best == -1 else 0 <= s.best < n && ids[s.best] in s.credits
  {
  }

  /** The index picked and the new balances. */
  function PickStep(credits: map<Byte, real>, ids: seq<Byte>, ws: seq<real>): (int, map<Byte, real>)
    requires |ids| == |ws|
  {
    if |ids| == 0 then (-1, credits)
    else if |ids| == 1 then (0, credits)
    else
      var s := Charge(Purged(credits, ids), ids, Shares(ws), |ids|);
      ChargeBest(Purged(credits, ids), ids, Shares(ws), |ids|);
      (s.best, s.credits[ids[s.best] := s.credits[ids[s.best]] - 1.0])
  }

  // ----- The scheduler itself -----

  lemma SumEmpty()
    ensures Sum([]) == 0.0
  {
  }

  lemma SumStep(xs: seq<real>, i: nat)
    requires i < |xs|
    ensures Sum(xs[..i + 1]) == Sum(xs[..i]) + xs[i]
  {
    assert xs[..i + 1][..i] == xs[..i];
  }

  class Weighted {
    var credits: map<Byte, real>

    constructor ()
      ensures credits == map[]
    {
      credits := map[];
    }

    method Pick(ids: seq<Byte>, weights: seq<real>) returns (best: int)
      requires |ids| == |weights|
      modifies this
      ensures (best, credits) == PickStep(old(credits), ids, weights)
    {
      hide Shares, Charge;
      if |ids| == 0 {
        return -1;
      }
      if |ids| == 1 {
        return 0;
      }
      var shares := ComputeShares(weights);
      if |credits| > |ids| * 2 {
        credits := map[];
      }
      best := ChargeLocked(ids, shares);
      credits := credits[ids[best] := credits[ids[best]] - 1.0];
    }

    method ChargeLocked(ids: seq<Byte>, shares: seq<real>) returns (best: int)
      requires |ids| == |shares| && ids != []
      modifies this
      ensures var s := Charge(old(credits), ids, shares, |ids|);
              credits == s.credits && best == s.best && 0 <= best < |ids| && ids[best] in credits
    {
      best := -1;
      var bestCredit := 0.0;
      for i := 0 to |ids|
        invariant Scan(credits, best, bestCredit) == Charge(old(credits), ids, shares, i)
      {
        var c := Credit(credits, ids[i]) + shares[i];
        credits := credits[ids[i] := c];
        if best == -1 || c > bestCredit {
          best, bestCredit := i, c;
        }
      }
      ChargeBest(old(credits), ids, shares, |ids|);
    }

    static method ComputeShares(weights: seq<real>) returns (shares: seq<real>)
      requires weights != []
      ensures shares == Shares(weights)
    {
      hide Sum, Filled;
      var filled, sum := Fill(weights);
      FilledPositive(weights);
      var floors, floored := FloorAll(filled, sum);
      assert floors == Floored(weights);
      shares := Normalise(floors, floored);
    }

    static method Fill(weights: seq<real>) returns (shares: seq<real>, sum: real)
      ensures shares == Filled(weights) && sum == Sum(shares)
    {
      hide Sum, Mean;
      var mean := ComputeMean(weights);
      shares, sum := [], 0.0;
      ghost var goal := Filled(weights);
      SumEmpty();
      for i := 0 to |weights|
        invariant shares == goal[..i] && sum == Sum(goal[..i])
      {
        var wt := if weights[i] <= 0.0 then mean else weights[i];
        SumStep(goal, i);
        shares, sum := shares + [wt], sum + wt;
      }
    }

    static method FloorAll(shares: seq<real>, sum: real) returns (r: seq<real>, floored: real)
      requires sum > 0.0
      ensures r == AtLeastFloor(Scaled(shares, sum)) && floored == Sum(r)
    {
      hide Sum;
      ghost var goal := AtLeastFloor(Scaled(shares, sum));
      r, floored := shares, 0.0;
      SumEmpty();
      for i := 0 to |shares|
        invariant |r| == |shares|
        invariant forall j :: 0 <= j < |r| ==> r[j] == if j < i then goal[j] else shares[j]
        invariant floored == Sum(goal[..i])
      {
        var s := r[i] / sum;
        if s < WEIGHT_FLOOR {
          s := WEIGHT_FLOOR;
        }
        SumStep(goal, i);
        r, floored := r[i := s], floored + s;
      }
      assert r == goal && goal[..|shares|] == goal;
    }

    static method Normalise(shares: seq<real>, floored: real) returns (r: seq<real>)
      requires floored > 0.0
      ensures r == Scaled(shares, floored)
    {
      r := shares;
      for i := 0 to |shares|
        invariant |r| == |shares|
        invariant forall j :: 0 <= j < |r| ==> r[j] == if j < i then shares[j] / floored else shares[j]
      {
        r := r[i := r[i] / floored];
      }
      assert r == Scaled(shares, floored);
    }

    static method ComputeMean(weights: seq<real>) returns (mean: real)
      ensures mean == Mean(weights)
    {
      var total, known := 0.0, 0;
      for i := 0 to |weights|
        invariant (total, known) == Known(weights[..i])
      {
        assert weights[..i + 1][..i] == weights[..i];
        if weights[i] > 0.0 {
          total, known := total + weights[i], known + 1;
        }
      }
      assert weights[..|weights|] == weights;
      mean := 1.0;
      if known > 0 {
        mean := total / known as real;
      }
    }
  }
}
