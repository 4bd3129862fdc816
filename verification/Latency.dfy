/**
 * The percentile report: samples are sorted in place, then read at nearest-rank positions.
 * Durations are whole nanoseconds.
 */
module Latency {

  predicate Ascending(s: seq<int>) {
    forall i, j :: 0 <= i <= j < |s| ==> s[i] <= s[j]
  }

  /** The least whole number that is not below `a / b`. */
  function CeilDiv(a: nat, b: nat): (r: nat)
    requires b > 0
    ensures (r - 1) * b < a <= r * b
  {
    (a + b - 1) / b
  }

  /** How many samples are at most `x`, and how many are below it. */
  function AtMost(s: seq<int>, x: int): nat {
    if s == [] then 0 else AtMost(s[..|s| - 1], x) + if s[|s| - 1] <= x then 1 else 0
  }

  function Below(s: seq<int>, x: int): nat {
    if s == [] then 0 else Below(s[..|s| - 1], x) + if s[|s| - 1] < x then 1 else 0
  }

  /**
   * `x` is the nearest-rank percentile `p` of the samples: a sample such that at least
   * ceil(p * n / 100) samples are at most `x`, and fewer than that are below it.
   */
  predicate IsNearestRank(s: seq<int>, p: nat, x: int) {
    && x in s
    && AtMost(s, x) >= CeilDiv(p * |s|, 100)
    && Below(s, x) < CeilDiv(p * |s|, 100)
  }

  datatype LatencyReport = LatencyReport(totalCount: nat, p50: int, p90: int, p99: int)

  /** What a report says about the samples, whatever order they came in. */
  predicate Reports(s: seq<int>, r: LatencyReport) {
    && r.totalCount == |s|
    && if s == [] then r.p50 == r.p90 == r.p99 == 0
       else IsNearestRank(s, 50, r.p50) && IsNearestRank(s, 90, r.p90) && IsNearestRank(s, 99, r.p99)
  }

  // ---------------------------------------------------------------- counting

  lemma {:induction false} CountPrefix(s: seq<int>, k: nat, x: int)
    requires k <= |s|
    ensures AtMost(s, x) >= AtMost(s[..k], x) && Below(s, x) <= Below(s[..k], x) + (|s| - k)
    ensures (forall i :: k <= i < |s| ==> s[i] >= x) ==> Below(s, x) == Below(s[..k], x)
  {
    if k < |s| {
      CountPrefix(s[..|s| - 1], k, x);
      assert s[..|s| - 1][..k] == s[..k];
    } else {
      assert s[..k] == s;
    }
  }

  lemma {:induction false} CountAll(s: seq<int>, x: int)
    ensures (forall i :: 0 <= i < |s| ==> s[i] <= x) ==> AtMost(s, x) == |s|
    ensures Below(s, x) <= AtMost(s, x) <= |s|
  {
    if s != [] {
      CountAll(s[..|s| - 1], x);
    }
  }

  /** The positions of the samples that are at most `x`, and of those below it. */
  function PositionsAtMost(s: seq<int>, x: int): set<nat> {
    set i: nat | i < |s| && s[i] <= x
  }

  function PositionsBelow(s: seq<int>, x: int): set<nat> {
    set i: nat | i < |s| && s[i] < x
  }

  lemma {:induction false} CountsArePositions(s: seq<int>, x: int)
    ensures AtMost(s, x) == |PositionsAtMost(s, x)| && Below(s, x) == |PositionsBelow(s, x)|
  {
    if s != [] {
      var n := |s| - 1;
      var init := s[..n];
      CountsArePositions(init, x);
      assert PositionsAtMost(s, x) == PositionsAtMost(init, x) + if s[n] <= x then {n} else {};
      assert PositionsBelow(s, x) == PositionsBelow(init, x) + if s[n] < x then {n} else {};
    }
  }

  /** The nearest rank in percent: a sample with at least `p` percent of all at most it, and fewer below it. */
  lemma {:induction false} NearestRankInPercent(s: seq<int>, p: nat, x: int)
    ensures IsNearestRank(s, p, x) <==>
            && x in s
            && 100 * |set i: nat | i < |s| && s[i] <= x| >= p * |s|
            && 100 * |set i: nat | i < |s| && s[i] < x| < p * |s|
  {
    CountsArePositions(s, x);
    assert PositionsAtMost(s, x) == set i: nat | i < |s| && s[i] <= x;
    assert PositionsBelow(s, x) == set i: nat | i < |s| && s[i] < x;
    CeilAgainst(AtMost(s, x), p * |s|);
    CeilAgainst(Below(s, x), p * |s|);
    hide CeilDiv;
  }

  /** A whole number reaches a rounded-up quotient when it reaches the quotient. */
  lemma CeilAgainst(k: nat, a: nat)
    ensures k >= CeilDiv(a, 100) <==> 100 * k >= a
  {
  }

  /** In ascending samples, the one at rank `k` is the nearest rank. */
  lemma RankIsNearest(s: seq<int>, p: nat)
    requires Ascending(s) && s != [] && 0 < p <= 100
    ensures 1 <= CeilDiv(p * |s|, 100) <= |s|
    ensures IsNearestRank(s, p, s[CeilDiv(p * |s|, 100) - 1])
  {
    var k := CeilDiv(p * |s|, 100);
    RankInRange(|s|, p);
    var x := s[k - 1];
    CountPrefix(s, k, x);
    CountAll(s[..k], x);
    CountPrefix(s, k - 1, x);
    CountAll(s[..k - 1], x);
  }

  lemma RankInRange(n: nat, p: nat)
    requires n > 0 && 0 < p <= 100
    ensures 1 <= CeilDiv(p * n, 100) <= n
  {
  }

  /** Counts do not depend on the order of the samples. */
  lemma {:induction false} CountsPermute(s: seq<int>, t: seq<int>, x: int)
    requires multiset(s) == multiset(t)
    ensures AtMost(s, x) == AtMost(t, x) && Below(s, x) == Below(t, x)
  {
    assert |s| == |multiset(s)| && |t| == |multiset(t)|;
    if s != [] {
      var init, last := s[..|s| - 1], s[|s| - 1];
      assert s == init + [last];
      assert last in multiset(t);
      var i :| 0 <= i < |t| && t[i] == last;
      WithoutOne(t, i);
      CountsPermute(init, t[..i] + t[i + 1..], x);
      RemoveOne(t, i, x);
    }
  }

  lemma WithoutOne(t: seq<int>, i: nat)
    requires i < |t|
    ensures multiset(t[..i] + t[i + 1..]) == multiset(t) - multiset{t[i]}
  {
    assert t == t[..i] + [t[i]] + t[i + 1..];
  }

  lemma {:induction false} RemoveOne(t: seq<int>, i: nat, x: int)
    requires i < |t|
    ensures AtMost(t, x) == AtMost(t[..i] + t[i + 1..], x) + if t[i] <= x then 1 else 0
    ensures Below(t, x) == Below(t[..i] + t[i + 1..], x) + if t[i] < x then 1 else 0
  {
    var rest := t[..i] + t[i + 1..];
    if i == |t| - 1 {
      assert rest == t[..|t| - 1];
    } else {
      RemoveOne(t[..|t| - 1], i, x);
      assert rest[..|rest| - 1] == t[..|t| - 1][..i] + t[..|t| - 1][i + 1..];
      assert rest[|rest| - 1] == t[|t| - 1];
    }
  }

  /** The nearest rank depends on the samples only, not on their order. */
  lemma NearestRankPermutes(s: seq<int>, t: seq<int>, p: nat, x: int)
    requires multiset(s) == multiset(t) && IsNearestRank(s, p, x)
    ensures IsNearestRank(t, p, x)
  {
    CountsPermute(s, t, x);
    assert |s| == |multiset(s)| && |t| == |multiset(t)|;
    assert x in multiset(t);
  }

  lemma {:induction false} CountsMonotone(s: seq<int>, x: int, y: int)
    requires x < y
    ensures AtMost(s, x) <= Below(s, y)
  {
    if s != [] {
      CountsMonotone(s[..|s| - 1], x, y);
    }
  }

  lemma CeilMonotone(a: nat, b: nat)
    requires a <= b
    ensures CeilDiv(a, 100) <= CeilDiv(b, 100)
  {
    hide CeilDiv;
    var x, y := CeilDiv(a, 100), CeilDiv(b, 100);
  }

  lemma RanksAreMonotone(p: nat, q: nat, n: nat)
    requires p <= q
    ensures CeilDiv(p * n, 100) <= CeilDiv(q * n, 100)
  {
    hide CeilDiv;
    assert q * n == p * n + (q - p) * n;
    CeilMonotone(p * n, q * n);
  }

  /** Percentiles grow with their rank; for one rank there is only one. */
  lemma PercentilesAreOrdered(s: seq<int>, p: nat, q: nat, x: int, y: int)
    requires p <= q && IsNearestRank(s, p, x) && IsNearestRank(s, q, y)
    ensures x <= y
  {
    RanksAreMonotone(p, q, |s|);
    hide CeilDiv;
    if y < x {
      CountsMonotone(s, y, x);
    }
  }

  lemma ReportIsOrdered(s: seq<int>, r: LatencyReport)
    requires Reports(s, r)
    ensures r.p50 <= r.p90 <= r.p99
  {
    if s != [] {
      PercentilesAreOrdered(s, 50, 90, r.p50, r.p90);
      PercentilesAreOrdered(s, 90, 99, r.p90, r.p99);
    }
  }

  /** A report is determined by the samples. */
  lemma ReportIsUnique(s: seq<int>, a: LatencyReport, b: LatencyReport)
    requires Reports(s, a) && Reports(s, b)
    ensures a == b
  {
    if s != [] {
      PercentilesAreOrdered(s, 50, 50, a.p50, b.p50);
      PercentilesAreOrdered(s, 50, 50, b.p50, a.p50);
      PercentilesAreOrdered(s, 90, 90, a.p90, b.p90);
      PercentilesAreOrdered(s, 90, 90, b.p90, a.p90);
      PercentilesAreOrdered(s, 99, 99, a.p99, b.p99);
      PercentilesAreOrdered(s, 99, 99, b.p99, a.p99);
    }
  }

  /** The report computed from sorted samples, about the samples as they came. */
  lemma SortedReports(was: seq<int>, s: seq<int>, r: LatencyReport)
    requires multiset(was) == multiset(s) && Ascending(s) && s != []
    requires forall p :: p in {50, 90, 99} ==> 1 <= CeilDiv(p * |s|, 100) <= |s|
    requires r == LatencyReport(|s|, s[CeilDiv(50 * |s|, 100) - 1], s[CeilDiv(90 * |s|, 100) - 1],
                 s[CeilDiv(99 * |s|, 100) - 1])
    ensures Reports(was, r)
  {
    RankIsNearest(s, 50);
    RankIsNearest(s, 90);
    RankIsNearest(s, 99);
    NearestRankPermutes(s, was, 50, r.p50);
    NearestRankPermutes(s, was, 90, r.p90);
    NearestRankPermutes(s, was, 99, r.p99);
    assert |was| == |multiset(was)| && |s| == |multiset(s)|;
  }

  class LatencyMetrics {
    var latencies: seq<int>

    constructor ()
      ensures latencies == []
    {
      latencies := [];
    }

    method AddLatencyMetrics(newLatency: int)
      modifies this
      ensures latencies == old(latencies) + [newLatency]
    {
      latencies := latencies + [newLatency];
    }

    function Len(): nat
      reads this
    {
      |latencies|
    }

    predicate Less(i: nat, j: nat)
      requires i < |latencies| && j < |latencies|
      reads this
    {
      latencies[i] < latencies[j]
    }

    method Swap(i: nat, j: nat)
      requires i < |latencies| && j < |latencies|
      modifies this
      ensures latencies == old(latencies)[i := old(latencies[j])][j := old(latencies[i])]
      ensures multiset(latencies) == old(multiset(latencies))
    {
      latencies := latencies[i := latencies[j]][j := latencies[i]];
    }

    /** The library's sort, through Less and Swap alone; any order of swaps gives the same result. */
    method Sort()
      modifies this
      ensures Ascending(latencies) && multiset(latencies) == old(multiset(latencies))
    {
      var i := 0;
      while i < Len()
        invariant i <= |latencies| == old(|latencies|)
        invariant multiset(latencies) == old(multiset(latencies))
        invariant Ascending(latencies[..i])
      {
        var j := i;
        while j > 0 && Less(j, j - 1)
          invariant 0 <= j <= i < |latencies| == old(|latencies|)
          invariant multiset(latencies) == old(multiset(latencies))
          invariant forall a, b :: 0 <= a <= b <= i && b != j ==> latencies[a] <= latencies[b]
        {
          Swap(j, j - 1);
          j := j - 1;
        }
        i := i + 1;
      }
    }

    method GetSummary() returns (r: LatencyReport)
      modifies this
      ensures Reports(old(latencies), r) && r.p50 <= r.p90 <= r.p99
      ensures r.totalCount == |old(latencies)|
      ensures if old(latencies) == [] then r.p50 == r.p90 == r.p99 == 0
              else IsNearestRank(old(latencies), 50, r.p50) && IsNearestRank(old(latencies), 90, r.p90)
                   && IsNearestRank(old(latencies), 99, r.p99)
      ensures Ascending(latencies) && multiset(latencies) == old(multiset(latencies))
    {
      Sort();
      var count := |latencies|;
      if count == 0 {
        assert |multiset(latencies)| == 0;
        return LatencyReport(0, 0, 0, 0);
      }
      RankInRange(count, 50);
      RankInRange(count, 90);
      RankInRange(count, 99);
      r := LatencyReport(count, latencies[CeilDiv(count * 50, 100) - 1], latencies[CeilDiv(count * 90, 100) - 1],
          latencies[CeilDiv(count * 99, 100) - 1]);
      SortedReports(old(latencies), latencies, r);
      ReportIsOrdered(old(latencies), r);
    }
  }
}
