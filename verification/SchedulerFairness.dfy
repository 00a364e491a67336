/**
 Fairness of the scheduler for a fixed set of distinct paths, with weights that
 may change arbitrarily at every pick.
 */
module SchedulerFairness {
  import opened Words
  import opened Scheduler

  ghost predicate Distinct(ids: seq<Byte>) {
    forall i, j :: 0 <= i < j < |ids| ==> ids[i] != ids[j]
  }

  /** The balances of the candidates, by index. */
  function Balances(credits: map<Byte, real>, ids: seq<Byte>): (v: seq<real>)
    ensures |v| == |ids|
    ensures forall i :: 0 <= i < |ids| ==> v[i] == Credit(credits, ids[i])
  {
    seq(|ids|, i requires 0 <= i < |ids| => Credit(credits, ids[i]))
  }

  // ----- Sums of vectors -----

  lemma {:induction false} SumAdd(a: seq<real>, b: seq<real>, c: seq<real>)
    requires |a| == |b| == |c| && forall i :: 0 <= i < |a| ==> c[i] == a[i] + b[i]
    ensures Sum(c) == Sum(a) + Sum(b)
  {
    if a != [] {
      var n := |a| - 1;
      SumAdd(a[..n], b[..n], c[..n]);
    }
  }

  lemma {:induction false} SumUpdate(a: seq<real>, k: nat, x: real)
    requires k < |a|
    ensures Sum(a[k := x]) == Sum(a) - a[k] + x
  {
    var n := |a| - 1;
    if k == n {
      assert a[k := x][..n] == a[..n];
    } else {
      SumUpdate(a[..n], k, x);
      assert a[k := x][..n] == a[..n][k := x];
    }
  }

  lemma {:induction false} SumAtMost(a: seq<real>, top: real)
    requires forall i :: 0 <= i < |a| ==> a[i] <= top
    ensures Sum(a) <= |a| as real * top
  {
    if a != [] {
      var n := |a| - 1;
      SumAtMost(a[..n], top);
      assert |a| as real * top == n as real * top + top;
    }
  }

  lemma {:induction false} SumAbove(a: seq<real>)
    requires forall i :: 0 <= i < |a| ==> a[i] > -1.0
    ensures a != [] ==> Sum(a) > -(|a| as real)
    ensures a == [] ==> Sum(a) == 0.0
  {
    if a != [] {
      SumAbove(a[..|a| - 1]);
    }
  }

  // Of n balances above -1 that sum to zero, each is below n - 1.
  lemma BelowCount(a: seq<real>, k: nat)
    requires |a| >= 2 && k < |a| && Sum(a) == 0.0 && forall i :: 0 <= i < |a| ==> a[i] > -1.0
    ensures a[k] < |a| as real - 1.0
  {
    SumUpdate(a, k, 0.0);
    SumRest(a[k := 0.0], k);
  }

  lemma {:induction false} SumRest(a: seq<real>, k: nat)
    requires |a| >= 2 && k < |a| && a[k] == 0.0 && forall i :: 0 <= i < |a| ==> a[i] > -1.0
    ensures Sum(a) > -(|a| as real) + 1.0
  {
    var n := |a| - 1;
    if k == n {
      SumAbove(a[..n]);
    } else if n >= 2 {
      SumRest(a[..n], k);
    } else {
      assert a[..n] == [0.0];
      assert [0.0][..0] == [];
      assert Sum([0.0]) == 0.0;
    }
  }

  // ----- One pick on vectors -----

  // Charging adds its share to every candidate.
  lemma {:induction false} ChargeAdds(credits: map<Byte, real>, ids: seq<Byte>, shares: seq<real>, n: nat, i: nat)
    requires n <= |ids| == |shares| && Distinct(ids) && i < |ids|
    ensures Credit(Charge(credits, ids, shares, n).credits, ids[i]) ==
            Credit(credits, ids[i]) + (if i < n then shares[i] else 0.0)
  {
    if n > 0 {
      ChargeAdds(credits, ids, shares, n - 1, i);
      assert i != n - 1 ==> ids[i] != ids[n - 1];
    }
  }

  // The scan ends at the richest candidate.
  lemma {:induction false} ChargeRichest(credits: map<Byte, real>, ids: seq<Byte>, shares: seq<real>, n: nat, i: nat)
    requires i < n <= |ids| == |shares| && Distinct(ids)
    ensures var s := Charge(credits, ids, shares, n);
            && 0 <= s.best < n && s.bestCredit == Credit(s.credits, ids[s.best])
            && Credit(s.credits, ids[i]) <= s.bestCredit
  {
    hide Distinct;
    var p, s := Charge(credits, ids, shares, n - 1), Charge(credits, ids, shares, n);
    ChargeAdds(credits, ids, shares, n, i);
    ChargeAdds(credits, ids, shares, n - 1, i);
    if n > 1 {
      ChargeRichest(credits, ids, shares, n - 1, if i < n - 1 then i else 0);
      ChargeAdds(credits, ids, shares, n, p.best);
      ChargeAdds(credits, ids, shares, n - 1, p.best);
    }
  }

  /** Balances of exactly these candidates: they sum to zero and exceed -1. */
  ghost predicate Fair(credits: map<Byte, real>, ids: seq<Byte>) {
    && (forall id :: id in credits ==> id in ids)
    && Sum(Balances(credits, ids)) == 0.0
    && (forall i :: 0 <= i < |ids| ==> Credit(credits, ids[i]) > -1.0)
  }

  function IdSet(ids: seq<Byte>): set<Byte> {
    set x | x in ids
  }

  lemma {:induction false} KeysBound(ids: seq<Byte>)
    ensures |IdSet(ids)| <= |ids|
  {
    if ids != [] {
      var n := |ids| - 1;
      KeysBound(ids[..n]);
      assert IdSet(ids) == IdSet(ids[..n]) + {ids[n]};
    }
  }

  lemma SmallerSet(a: set<Byte>, b: set<Byte>)
    requires a <= b
    ensures |a| <= |b|
  {
    assert b == a + (b - a);
  }

  // Charging leaves every other path alone.
  lemma {:induction false} ChargeOthers(credits: map<Byte, real>, ids: seq<Byte>, shares: seq<real>, n: nat, id: Byte)
    requires n <= |ids| == |shares| && id !in ids
    ensures var s := Charge(credits, ids, shares, n);
            (id in s.credits <==> id in credits) && (id in credits ==> s.credits[id] == credits[id])
  {
    if n > 0 {
      ChargeOthers(credits, ids, shares, n - 1, id);
    }
  }

  // Of equally rich candidates the scan ends at the first.
  lemma {:induction false} ChargeFirst(credits: map<Byte, real>, ids: seq<Byte>, shares: seq<real>, n: nat, i: nat)
    requires n <= |ids| == |shares| && Distinct(ids) && n > 0 && i < Charge(credits, ids, shares, n).best
    ensures var s := Charge(credits, ids, shares, n);
            s.best < n && Credit(s.credits, ids[i]) < Credit(s.credits, ids[s.best])
  {
    hide Distinct;
    var p, s := Charge(credits, ids, shares, n - 1), Charge(credits, ids, shares, n);
    ChargeBest(credits, ids, shares, n);
    ChargeAdds(credits, ids, shares, n, i);
    ChargeAdds(credits, ids, shares, n - 1, i);
    ChargeAdds(credits, ids, shares, n, s.best);
    ChargeAdds(credits, ids, shares, n - 1, s.best);
    if n > 1 {
      if s.best == n - 1 {
        ChargeRichest(credits, ids, shares, n - 1, i);
        ChargeBest(credits, ids, shares, n - 1);
      } else {
        ChargeFirst(credits, ids, shares, n - 1, i);
      }
    }
  }

  /** The balance a pick starts from: more than twice as many balances as candidates are all forgotten. */
  function Opening(credits: map<Byte, real>, ids: seq<Byte>, id: Byte): real {
    if |credits| > 2 * |ids| then 0.0 else Credit(credits, id)
  }

  /**
   Exactly what one pick does. Candidate `i` earns its share on its opening balance,
   and the first of the richest pays one credit. Paths that left keep their balance,
   unless balances pile up and all of them start again from nothing.
   */
  lemma PickExact(credits: map<Byte, real>, ids: seq<Byte>, ws: seq<real>, i: nat)
    requires |ids| == |ws| >= 2 && Distinct(ids) && i < |ids|
    ensures var (best, after) := PickStep(credits, ids, ws);
            && 0 <= best < |ids|
            && Credit(after, ids[i]) == Opening(credits, ids, ids[i]) + Shares(ws)[i] - (if i == best then 1.0 else 0.0)
            && Opening(credits, ids, ids[i]) + Shares(ws)[i] <= Opening(credits, ids, ids[best]) + Shares(ws)[best]
            && (i < best ==> Opening(credits, ids, ids[i]) + Shares(ws)[i]
                             < Opening(credits, ids, ids[best]) + Shares(ws)[best])
    ensures var after := PickStep(credits, ids, ws).1;
            forall id :: id !in ids ==>
              if |credits| > 2 * |ids| then id !in after
              else (id in after <==> id in credits) && (id in credits ==> after[id] == credits[id])
  {
    hide Shares, Charge;
    var shares, n, start := Shares(ws), |ids|, Purged(credits, ids);
    var s := Charge(start, ids, shares, n);
    ChargeBest(start, ids, shares, n);
    ChargeRichest(start, ids, shares, n, i);
    ChargeAdds(start, ids, shares, n, i);
    ChargeAdds(start, ids, shares, n, s.best);
    if i < s.best {
      ChargeFirst(start, ids, shares, n, i);
    }
    assert i < s.best ==> ids[i] != ids[s.best];
    assert i > s.best ==> ids[s.best] != ids[i];
    forall id | id !in ids
      ensures (id in s.credits <==> id in start) && (id in start ==> s.credits[id] == start[id])
    {
      ChargeOthers(start, ids, shares, n, id);
    }
  }

  // Nothing is forgotten while only candidates have balances.
  lemma PickPresent(credits: map<Byte, real>, ids: seq<Byte>, ws: seq<real>)
    requires |ids| == |ws| >= 2 && Distinct(ids) && forall id :: id in credits ==> id in ids
    ensures |credits| <= 2 * |ids| && forall id :: id in PickStep(credits, ids, ws).1 ==> id in ids
  {
    hide PickStep;
    assert forall id :: id in credits.Keys ==> id in IdSet(ids);
    SmallerSet(credits.Keys, IdSet(ids));
    KeysBound(ids);
    assert |credits| == |credits.Keys|;
    PickExact(credits, ids, ws, 0);
  }

  lemma FairStep(credits: map<Byte, real>, ids: seq<Byte>, ws: seq<real>)
    requires |ids| == |ws| >= 2 && Distinct(ids) && Fair(credits, ids)
    ensures Fair(PickStep(credits, ids, ws).1, ids)
  {
    hide Shares, Sum, PickStep, Distinct;
    var (best, after) := PickStep(credits, ids, ws);
    var shares, a, b := Shares(ws), Balances(credits, ids), Balances(after, ids);
    PickExact(credits, ids, ws, 0);
    PickPresent(credits, ids, ws);
    forall i | 0 <= i < |ids|
      ensures b[i] == a[i] + shares[i] - (if i == best then 1.0 else 0.0)
      ensures a[i] + shares[i] <= a[best] + shares[best]
    {
      PickExact(credits, ids, ws, i);
    }
    SharesPositive(ws);
    FairVectors(a, shares, best, b);
    forall i | 0 <= i < |ids|
      ensures Credit(after, ids[i]) > -1.0
    {
      assert b[i] > -1.0;
    }
  }

  lemma SharesPositive(ws: seq<real>)
    requires ws != []
    ensures Sum(Shares(ws)) == 1.0
    ensures forall i :: 0 <= i < |ws| ==> Shares(ws)[i] > 0.0
  {
    hide Shares, Sum;
    SharesBalanced(ws);
    forall i | 0 <= i < |ws|
      ensures Shares(ws)[i] > 0.0
    {
      SignOfProduct(|ws| as real + 20.0, Shares(ws)[i]);
    }
  }

  // The same step on vectors of balances.
  lemma FairVectors(a: seq<real>, shares: seq<real>, best: nat, b: seq<real>)
    requires |a| == |shares| == |b| >= 2 && best < |a| && Sum(a) == 0.0 && Sum(shares) == 1.0
    requires forall i :: 0 <= i < |a| ==> a[i] > -1.0
    requires forall i :: 0 <= i < |a| ==> shares[i] > 0.0
    requires forall i :: 0 <= i < |a| ==> a[i] + shares[i] <= a[best] + shares[best]
    requires forall i :: 0 <= i < |a| ==> b[i] == a[i] + shares[i] - (if i == best then 1.0 else 0.0)
    ensures Sum(b) == 0.0 && forall i :: 0 <= i < |b| ==> b[i] > -1.0
  {
    hide Sum;
    var mid := seq(|a|, i requires 0 <= i < |a| => a[i] + shares[i]);
    var top := mid[best];
    SumAdd(a, shares, mid);
    SumUpdate(mid, best, top - 1.0);
    assert b == mid[best := top - 1.0];
    TopPositive(mid, top);
  }

  lemma TopPositive(a: seq<real>, top: real)
    requires a != [] && Sum(a) == 1.0 && forall i :: 0 <= i < |a| ==> a[i] <= top
    ensures top > 0.0
  {
    hide Sum;
    SumAtMost(a, top);
    SignOfProduct(|a| as real, top);
  }

  lemma SignOfProduct(n: real, x: real)
    requires n > 0.0
    ensures x <= 0.0 ==> n * x <= 0.0 && x * n <= 0.0
  {
  }

  /** Without candidates nothing is picked, and a single one is picked without charge. */
  lemma FewCandidates(credits: map<Byte, real>, id: Byte, w: real)
    ensures PickStep(credits, [], []) == (-1, credits) && PickStep(credits, [id], [w]) == (0, credits)
  {
  }

  // ----- Runs -----

  /** The balances after one pick for each entry of `rounds`. */
  function Run(credits: map<Byte, real>, ids: seq<Byte>, rounds: seq<seq<real>>): map<Byte, real>
    requires forall t :: 0 <= t < |rounds| ==> |rounds[t]| == |ids|
  {
    if rounds == [] then credits
    else PickStep(Run(credits, ids, rounds[..|rounds| - 1]), ids, rounds[|rounds| - 1]).1
  }

  /** How often candidate `i` was picked. */
  function Picks(credits: map<Byte, real>, ids: seq<Byte>, rounds: seq<seq<real>>, i: nat): nat
    requires forall t :: 0 <= t < |rounds| ==> |rounds[t]| == |ids|
  {
    if rounds == [] then 0
    else
      var init := rounds[..|rounds| - 1];
      Picks(credits, ids, init, i)
      + (if PickStep(Run(credits, ids, init), ids, rounds[|rounds| - 1]).0 == i then 1 else 0)
  }

  /** The share candidate `i` was entitled to so far. */
  function Entitled(ids: seq<Byte>, rounds: seq<seq<real>>, i: nat): real
    requires i < |ids| && forall t :: 0 <= t < |rounds| ==> |rounds[t]| == |ids|
  {
    if rounds == [] then 0.0
    else Entitled(ids, rounds[..|rounds| - 1], i) + Shares(rounds[|rounds| - 1])[i]
  }

  lemma {:induction false} Account(credits: map<Byte, real>, ids: seq<Byte>, rounds: seq<seq<real>>, i: nat)
    requires |ids| >= 2 && Distinct(ids) && Fair(credits, ids) && i < |ids|
    requires forall t :: 0 <= t < |rounds| ==> |rounds[t]| == |ids|
    ensures Fair(Run(credits, ids, rounds), ids)
    ensures Credit(Run(credits, ids, rounds), ids[i]) ==
            Credit(credits, ids[i]) + Entitled(ids, rounds, i) - Picks(credits, ids, rounds, i) as real
    decreases |rounds|
  {
    hide Shares, Sum, PickStep, Distinct;
    if rounds != [] {
      var init, last := rounds[..|rounds| - 1], rounds[|rounds| - 1];
      Account(credits, ids, init, i);
      var mid := Run(credits, ids, init);
      FairStep(mid, ids, last);
      PickExact(mid, ids, last, i);
      PickPresent(mid, ids, last);
    }
  }

  lemma FairBounds(credits: map<Byte, real>, ids: seq<Byte>, i: nat)
    requires |ids| >= 2 && Fair(credits, ids) && i < |ids|
    ensures -1.0 < Credit(credits, ids[i]) < |ids| as real - 1.0
  {
    BelowCount(Balances(credits, ids), i);
  }

  lemma {:induction false} SumZero(v: seq<real>)
    requires forall i :: 0 <= i < |v| ==> v[i] == 0.0
    ensures Sum(v) == 0.0
  {
    if v != [] {
      SumZero(v[..|v| - 1]);
    }
  }

  /**
   Fairness: from empty balances and for arbitrary weights at every pick, the
   balances always sum to zero and each lies in (-1, n-1), so the number of times
   a path was picked exceeds its entitlement by less than 1 and falls short of it
   by less than n-1.
   */
  lemma Fairness(ids: seq<Byte>, rounds: seq<seq<real>>, i: nat)
    requires |ids| >= 2 && Distinct(ids) && i < |ids|
    requires forall t :: 0 <= t < |rounds| ==> |rounds[t]| == |ids|
    ensures Sum(Balances(Run(map[], ids, rounds), ids)) == 0.0
    ensures -1.0 < Credit(Run(map[], ids, rounds), ids[i]) < |ids| as real - 1.0
    ensures Picks(map[], ids, rounds, i) as real < Entitled(ids, rounds, i) + 1.0
    ensures Picks(map[], ids, rounds, i) as real > Entitled(ids, rounds, i) - (|ids| as real - 1.0)
  {
    EmptyIsFair(ids);
    Account(map[], ids, rounds, i);
    FairBounds(Run(map[], ids, rounds), ids, i);
  }

  lemma {:induction false} EntitledGrows(ids: seq<Byte>, rounds: seq<seq<real>>, i: nat)
    requires i < |ids| && forall t :: 0 <= t < |rounds| ==> |rounds[t]| == |ids|
    ensures Entitled(ids, rounds, i) * (|ids| as real + 20.0) >= |rounds| as real
  {
    hide Shares;
    if rounds != [] {
      var init, last := rounds[..|rounds| - 1], rounds[|rounds| - 1];
      EntitledGrows(ids, init, i);
      SharesBalanced(last);
      var n := |ids| as real + 20.0;
      assert Entitled(ids, rounds, i) * n == Entitled(ids, init, i) * n + Shares(last)[i] * n;
    }
  }

  /** No starvation: in any n(n+20) consecutive picks every path is picked at least once. */
  lemma NoStarvation(ids: seq<Byte>, before: seq<seq<real>>, rounds: seq<seq<real>>, i: nat)
    requires |ids| >= 2 && Distinct(ids) && i < |ids|
    requires forall t :: 0 <= t < |before| ==> |before[t]| == |ids|
    requires forall t :: 0 <= t < |rounds| ==> |rounds[t]| == |ids|
    requires |rounds| >= |ids| * (|ids| + 20)
    ensures Picks(Run(map[], ids, before), ids, rounds, i) >= 1
  {
    hide Shares, Sum, PickStep, Distinct, Run, Picks, Entitled, Fair;
    var start := Run(map[], ids, before);
    EmptyIsFair(ids);
    Account(map[], ids, before, i);
    Account(start, ids, rounds, i);
    FairBounds(start, ids, i);
    FairBounds(Run(start, ids, rounds), ids, i);
    EntitledEnough(ids, rounds, i);
  }

  lemma EntitledEnough(ids: seq<Byte>, rounds: seq<seq<real>>, i: nat)
    requires i < |ids| && forall t :: 0 <= t < |rounds| ==> |rounds[t]| == |ids|
    requires |rounds| >= |ids| * (|ids| + 20)
    ensures Entitled(ids, rounds, i) >= |ids| as real
  {
    hide Entitled;
    EntitledGrows(ids, rounds, i);
    var n, e := |ids| as real, Entitled(ids, rounds, i);
    assert (|ids| * (|ids| + 20)) as real == n * (n + 20.0);
    SmallerProduct(e, n, n + 20.0);
  }

  lemma SmallerProduct(a: real, b: real, c: real)
    requires c > 0.0
    ensures a < b ==> a * c < b * c
  {
  }

  lemma EmptyIsFair(ids: seq<Byte>)
    ensures Fair(map[], ids)
  {
    SumZero(Balances(map[], ids));
  }

  // ----- What the shares mean -----

  /** No weight is unknown or below the floor. */
  ghost predicate AboveFloor(ws: seq<real>) {
    && Sum(ws) > 0.0
    && (forall j :: 0 <= j < |ws| ==> ws[j] > 0.0)
    && (forall j :: 0 <= j < |ws| ==> ws[j] / Sum(ws) >= WEIGHT_FLOOR)
  }

  lemma FlooredIsScaled(ws: seq<real>)
    requires ws != [] && AboveFloor(ws)
    ensures Floored(ws) == Scaled(ws, Sum(ws))
  {
    hide Sum, Mean;
    FilledIsItself(ws);
    var norm := Scaled(ws, Sum(ws));
    assert AtLeastFloor(norm) == norm;
  }

  lemma FilledIsItself(ws: seq<real>)
    requires forall j :: 0 <= j < |ws| ==> ws[j] > 0.0
    ensures Filled(ws) == ws
  {
    hide Mean;
    var f := Filled(ws);
    assert f == ws;
  }

  /** The part of the known total a weight has, lifted to 5%. */
  function Lifted(w: real, total: real): real
    requires total > 0.0
  {
    if w / total < 0.05 then 0.05 else w / total
  }

  /** Known weights are split in proportion to their part of the total, where less than 5% counts as 5%. */
  lemma SharesLifted(ws: seq<real>, i: nat, j: nat)
    requires i < |ws| && j < |ws| && Sum(ws) > 0.0 && forall k :: 0 <= k < |ws| ==> ws[k] > 0.0
    ensures Shares(ws)[i] * Lifted(ws[j], Sum(ws)) == Shares(ws)[j] * Lifted(ws[i], Sum(ws))
  {
    hide Shares, Sum, Floored, Lifted;
    FilledIsItself(ws);
    FlooredLifts(ws);
    SharesNormalised(ws);
    var f := Floored(ws);
    CrossProduct(f[i], f[j], Sum(f));
  }

  lemma SharesNormalised(ws: seq<real>)
    requires ws != []
    ensures forall i :: 0 <= i < |ws| ==> Shares(ws)[i] == Floored(ws)[i] / Sum(Floored(ws))
  {
    hide Sum, Floored;
  }

  lemma FlooredLifts(ws: seq<real>)
    requires ws != [] && Sum(ws) > 0.0 && Filled(ws) == ws
    ensures forall i :: 0 <= i < |ws| ==> Floored(ws)[i] == Lifted(ws[i], Sum(ws))
  {
    hide Sum, Mean, Filled;
  }

  lemma CrossProduct(a: real, b: real, s: real)
    requires s > 0.0
    ensures a / s * b == b / s * a
  {
    assert a / s * b == a * b / s;
    assert b / s * a == a * b / s;
  }

  /** Known weights above the floor are split in exact proportion. */
  lemma SharesProportional(ws: seq<real>, i: nat)
    requires i < |ws| && AboveFloor(ws)
    ensures Shares(ws)[i] == ws[i] / Sum(ws)
  {
    hide Sum, Floored;
    FlooredIsScaled(ws);
    SumScaled(ws, Sum(ws));
    SelfQuotient(Sum(ws));
  }

  /** Candidates with equal weights, known or unknown, get equal shares. */
  lemma SharesEqual(ws: seq<real>, i: nat, j: nat)
    requires i < |ws| && j < |ws| && (ws[i] == ws[j] || (ws[i] <= 0.0 && ws[j] <= 0.0))
    ensures Shares(ws)[i] == Shares(ws)[j]
  {
    hide Sum, Mean;
    FilledPositive(ws);
    assert Filled(ws)[i] == Filled(ws)[j];
  }

  /** The weights that are known, that is positive. */
  function Positives(ws: seq<real>): seq<real> {
    if ws == [] then []
    else Positives(ws[..|ws| - 1]) + (if ws[|ws| - 1] > 0.0 then [ws[|ws| - 1]] else [])
  }

  /** The weights with their average in place of the unknown ones, and equal weights when none is known. */
  function Guessed(ws: seq<real>): (r: seq<real>)
    ensures |r| == |ws|
  {
    var known := Positives(ws);
    var guess := if known == [] then 1.0 else Sum(known) / |known| as real;
    seq(|ws|, i requires 0 <= i < |ws| => if ws[i] > 0.0 then ws[i] else guess)
  }

  lemma {:induction false} KnownIsPositives(ws: seq<real>)
    ensures Known(ws) == (Sum(Positives(ws)), |Positives(ws)|)
  {
    if ws != [] {
      var init, w := ws[..|ws| - 1], ws[|ws| - 1];
      KnownIsPositives(init);
      var known := Positives(init);
      assert (known + [w])[..|known|] == known && known + [] == known;
      assert Positives(ws) == if w > 0.0 then known + [w] else known;
    }
  }

  /** An unknown weight gets the share it would have with the average of the known weights. */
  lemma UnknownSharesAverage(ws: seq<real>)
    requires ws != []
    ensures Shares(ws) == Shares(Guessed(ws)) && forall i :: 0 <= i < |ws| ==> Guessed(ws)[i] > 0.0
  {
    hide Sum, Known;
    KnownIsPositives(ws);
    MeanPositive(ws);
    var g := Guessed(ws);
    assert Filled(ws) == g;
    FilledIsItself(g);
    SameFilled(ws, g);
  }

  lemma SameFilled(ws: seq<real>, g: seq<real>)
    requires ws != [] && g != [] && Filled(ws) == Filled(g)
    ensures Shares(ws) == Shares(g)
  {
    hide Sum, Mean, Filled;
  }

  lemma {:induction false} KnownBounds(ws: seq<real>, lo: real, hi: real)
    requires forall i :: 0 <= i < |ws| && ws[i] > 0.0 ==> lo <= ws[i] <= hi
    ensures Known(ws).1 as real * lo <= Known(ws).0 <= Known(ws).1 as real * hi
  {
    if ws != [] {
      KnownBounds(ws[..|ws| - 1], lo, hi);
    }
  }

  /** An unknown weight counts as the mean of the known ones: never more than the best, never less than the worst. */
  lemma UnknownCountsAsMean(ws: seq<real>, lo: real, hi: real)
    requires Known(ws).1 > 0 && forall i :: 0 <= i < |ws| && ws[i] > 0.0 ==> lo <= ws[i] <= hi
    ensures lo <= Mean(ws) <= hi
  {
    hide Known;
    KnownBounds(ws, lo, hi);
    QuotientBounds(Known(ws).0, Known(ws).1 as real, lo, hi);
  }

  lemma QuotientBounds(x: real, n: real, lo: real, hi: real)
    requires n > 0.0 && n * lo <= x <= n * hi
    ensures lo <= x / n <= hi
  {
    var q := x / n;
    assert q * n == x;
    SmallerProduct(q, lo, n);
    SmallerProduct(hi, q, n);
  }
}
