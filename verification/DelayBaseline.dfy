/**
 The propagation baseline of a path: a rolling minimum of reported one-way delays
 kept in two buckets, with 32-bit wrapping comparisons.
 */
module DelayBaseline {
  import opened Words

  const SECOND := 1_000_000_000
  const HALF_WINDOW := 15 * SECOND

  type I32 = x: int | -0x8000_0000 <= x < 0x8000_0000

  /** The `int32` subtraction `a - b`. */
  function Minus(a: I32, b: I32): int {
    Signed32(Wrap32(a - b))
  }

  /** A receiver report: the minimum one-way delay of its window. */
  datatype Report = Report(at: int, delay: I32)

  /**
   All reports so far; `reports[cur..]` fill the current bucket and
   `reports[prev..cur]` the previous one.
   */
  datatype History = History(reports: seq<Report>, prev: nat, cur: nat)

  predicate Rotates(h: History, now: int) {
    h.cur < |h.reports| && now - h.reports[h.cur].at > HALF_WINDOW
  }

  function Ingest(h: History, r: Report): History {
    if Rotates(h, r.at) then History(h.reports + [r], h.cur, |h.reports|)
    else h.(reports := h.reports + [r])
  }

  /** Delay differences fit in 32 bits. */
  ghost predicate Comparable(reports: seq<Report>) {
    forall i, j :: 0 <= i < |reports| && 0 <= j < |reports| ==>
      -TWO_TO_31 <= reports[i].delay - reports[j].delay < TWO_TO_31
  }

  ghost predicate Chronological(reports: seq<Report>) {
    forall i, j :: 0 <= i <= j < |reports| ==> reports[i].at <= reports[j].at
  }

  /** `d` is the least delay of `reports[from..to]`, and one of them reports it. */
  ghost predicate IsMin(reports: seq<Report>, from: nat, to: nat, d: int)
    requires from <= to <= |reports|
  {
    && (exists i :: from <= i < to && reports[i].delay == d)
    && (forall i :: from <= i < to ==> d <= reports[i].delay)
  }

  ghost predicate Inv(h: History) {
    && h.prev <= h.cur <= |h.reports|
    && (h.cur == |h.reports| ==> h.cur == 0)
    && (h.prev < h.cur ==> h.reports[h.cur].at - h.reports[h.prev].at > HALF_WINDOW)
    && (h.prev == h.cur ==> h.prev == 0)
    && (h.reports != [] ==> h.reports[|h.reports| - 1].at - h.reports[h.cur].at <= HALF_WINDOW)
    && Chronological(h.reports)
  }

  lemma MinusExact(a: I32, b: I32)
    requires -TWO_TO_31 <= a - b < TWO_TO_31
    ensures Minus(a, b) == a - b
  {
  }

  function Least(a: I32, b: I32): I32 {
    if a < b then a else b
  }

  // Minima of longer and of joined stretches.

  lemma MinSame(reports: seq<Report>, from: nat, to: nat, d: I32, r: Report)
    requires from <= to <= |reports| && IsMin(reports, from, to, d)
    ensures IsMin(reports + [r], from, to, d)
  {
    var i :| from <= i < to && reports[i].delay == d;
    assert (reports + [r])[i].delay == d;
  }

  lemma MinLast(reports: seq<Report>, r: Report)
    ensures IsMin(reports + [r], |reports|, |reports| + 1, r.delay)
  {
    assert (reports + [r])[|reports|].delay == r.delay;
  }

  lemma MinJoin(reports: seq<Report>, from: nat, mid: nat, to: nat, d: I32, e: I32)
    requires from <= mid <= to <= |reports|
    requires IsMin(reports, from, mid, d) && IsMin(reports, mid, to, e)
    ensures IsMin(reports, from, to, Least(d, e))
  {
    var i :| from <= i < mid && reports[i].delay == d;
    var j :| mid <= j < to && reports[j].delay == e;
    assert reports[if d < e then i else j].delay == Least(d, e);
  }

  // Delays that were reported compare correctly in 32 bits.
  lemma MinusOfMins(reports: seq<Report>, from: nat, mid: nat, to: nat, d: I32, e: I32)
    requires from <= mid <= to <= |reports| && Comparable(reports)
    requires IsMin(reports, from, mid, d) && IsMin(reports, mid, to, e)
    ensures Minus(d, e) == d - e && Minus(e, d) == e - d
  {
    var i :| from <= i < mid && reports[i].delay == d;
    var j :| mid <= j < to && reports[j].delay == e;
    MinusExact(d, e);
    MinusExact(e, d);
  }

  class Baseline {
    var base0: I32
    var base1: I32
    var set0: bool
    var set1: bool
    var bucketAt: Option<int>
    ghost var h: History

    ghost predicate Valid()
      reads this
    {
      && Inv(h)
      && bucketAt == (if h.reports == [] then None else Some(h.reports[h.cur].at))
      && set0 == (h.prev < h.cur)
      && set1 == (h.reports != [])
      && (set0 ==> IsMin(h.reports, h.prev, h.cur, base0))
      && (set1 ==> IsMin(h.reports, h.cur, |h.reports|, base1))
    }

    constructor ()
      ensures Valid() && h == History([], 0, 0)
    {
      base0, base1, set0, set1, bucketAt := 0, 0, false, false, None;
      h := History([], 0, 0);
    }

    /** The part of `updateDelayLocked` that computes the baseline. */
    method Update(delay: I32, now: int) returns (base: I32)
      requires Valid()
      requires Comparable(h.reports + [Report(now, delay)]) && Chronological(h.reports + [Report(now, delay)])
      modifies this
      ensures Valid() && h == Ingest(old(h), Report(now, delay))
      ensures IsMin(h.reports, h.prev, |h.reports|, base)
    {
      hide IsMin, Comparable, Minus, Chronological;
      ghost var r := Report(now, delay);
      IngestKeeps(h, r);
      RotateLocked(now);
      ghost var old0, all := h.reports, h.reports + [r];
      MinLast(old0, r);
      if set0 {
        MinSame(old0, h.prev, h.cur, base0, r);
      }
      if set1 {
        MinSame(old0, h.cur, |old0|, base1, r);
        MinusOfMins(all, h.cur, |old0|, |all|, base1, delay);
        MinJoin(all, h.cur, |old0|, |all|, base1, delay);
      }
      if !set1 || Minus(delay, base1) < 0 {
        base1, set1 := delay, true;
      }
      if bucketAt.None? {
        bucketAt := Some(now);
      }
      h := h.(reports := all);
      base := base1;
      if set0 {
        MinusOfMins(all, h.prev, h.cur, |all|, base0, base1);
        MinJoin(all, h.prev, h.cur, |all|, base0, base1);
        if Minus(base0, base) < 0 {
          base := base0;
        }
      }
    }

    /** Start a new bucket when the current one spans half the window. */
    method RotateLocked(now: int)
      requires Valid()
      modifies this
      ensures if Rotates(old(h), now)
              then h == History(old(h).reports, old(h).cur, |old(h).reports|) && !set1 && set0
                   && base0 == old(base1) && bucketAt == Some(now)
              else unchanged(this)
    {
      if bucketAt.Some? && now - bucketAt.value > HALF_WINDOW {
        base0, set0 := base1, set1;
        set1 := false;
        bucketAt := Some(now);
        h := History(h.reports, h.cur, |h.reports|);
      }
    }
  }

  // ----- What the two buckets cover -----

  lemma IngestKeeps(h: History, r: Report)
    requires Inv(h) && Chronological(h.reports + [r])
    ensures Inv(Ingest(h, r))
  {
  }

  function Run(h: History, rs: seq<Report>): History
    decreases |rs|
  {
    if rs == [] then h else Run(Ingest(h, rs[0]), rs[1..])
  }

  lemma {:induction false} RunKeeps(h: History, rs: seq<Report>)
    requires Inv(h) && Chronological(h.reports + rs)
    ensures Inv(Run(h, rs)) && Run(h, rs).reports == h.reports + rs
    decreases |rs|
  {
    if rs == [] {
      assert h.reports + rs == h.reports;
    } else {
      var s := Ingest(h, rs[0]);
      assert s.reports + rs[1..] == h.reports + rs;
      assert Chronological(h.reports + [rs[0]]) by {
        assert h.reports + [rs[0]] == (h.reports + rs)[..|h.reports| + 1];
      }
      IngestKeeps(h, rs[0]);
      RunKeeps(s, rs[1..]);
    }
  }

  lemma EmptyInv()
    ensures Inv(History([], 0, 0))
  {
  }

  lemma CoversState(h: History, j: nat)
    requires Inv(h) && j < |h.reports| && h.reports[|h.reports| - 1].at - h.reports[j].at <= HALF_WINDOW
    ensures h.prev <= j
  {
    var rs := h.reports;
    assert j <= h.prev ==> rs[j].at <= rs[h.prev].at;
    assert rs[h.cur].at <= rs[|rs| - 1].at;
  }

  /** Every report of the last 15 seconds is covered, across all rotations. */
  lemma CoversLastHalfWindow(rs: seq<Report>, j: nat)
    requires Chronological(rs) && j < |rs| && rs[|rs| - 1].at - rs[j].at <= 15_000_000_000
    ensures var h := Run(History([], 0, 0), rs); h.reports == rs && h.prev <= j
  {
    hide Run, Inv, Chronological;
    assert [] + rs == rs;
    EmptyInv();
    RunKeeps(History([], 0, 0), rs);
    CoversState(Run(History([], 0, 0), rs), j);
  }

  /** Reports never pause longer than `gap`. */
  ghost predicate Steady(rs: seq<Report>, gap: int) {
    forall i :: 0 < i < |rs| ==> rs[i].at - rs[i - 1].at <= gap
  }

  ghost predicate Recent(h: History, gap: int) {
    h.prev < h.cur < |h.reports| ==> h.reports[h.cur].at - h.reports[h.prev].at <= HALF_WINDOW + gap
  }

  lemma IngestRecent(h: History, r: Report, gap: int)
    requires Inv(h) && Recent(h, gap) && Steady(h.reports + [r], gap)
    ensures Recent(Ingest(h, r), gap)
  {
    var rs := h.reports + [r];
    if Rotates(h, r.at) {
      assert rs[|rs| - 1].at - rs[|rs| - 2].at <= gap;
    }
  }

  lemma {:induction false} RunRecent(h: History, rs: seq<Report>, gap: int)
    requires Inv(h) && Recent(h, gap) && Chronological(h.reports + rs) && Steady(h.reports + rs, gap)
    ensures Recent(Run(h, rs), gap)
    decreases |rs|
  {
    if rs != [] {
      var s := Ingest(h, rs[0]);
      assert s.reports + rs[1..] == h.reports + rs;
      var init := h.reports + [rs[0]];
      assert init == (h.reports + rs)[..|h.reports| + 1];
      IngestKeeps(h, rs[0]);
      IngestRecent(h, rs[0], gap);
      RunRecent(s, rs[1..], gap);
    }
  }

  lemma RecentState(h: History, gap: int, j: nat)
    requires Inv(h) && Recent(h, gap) && gap >= 0 && h.prev <= j < |h.reports|
    ensures h.reports[|h.reports| - 1].at - h.reports[j].at <= 2 * HALF_WINDOW + gap
  {
    assert h.reports[h.prev].at <= h.reports[j].at;
  }

  /** With steady reports nothing older than 30 seconds and one gap is covered. */
  lemma ForgetsOldReports(rs: seq<Report>, gap: int, j: nat)
    requires Chronological(rs) && Steady(rs, gap) && gap >= 0
    requires var h := Run(History([], 0, 0), rs); h.prev <= j < |rs|
    ensures rs[|rs| - 1].at - rs[j].at <= 30_000_000_000 + gap
  {
    hide Run, Inv, Chronological, Steady;
    assert [] + rs == rs;
    EmptyInv();
    RunKeeps(History([], 0, 0), rs);
    RunRecent(History([], 0, 0), rs, gap);
    RecentState(Run(History([], 0, 0), rs), gap, j);
  }
}
