/** How much of a log run its samples cover (Coverage in ectest/internal/logger/events.go).

  Times and lengths are nanoseconds. A gap of at most 90 s counts as covered; a longer one counts
  as uncovered, less one sampling interval and less the planned downtime in it. */
module Coverage {
  import opened StoredTime

  const GAP_MAX := 90 * NS_PER_S

  /** A planned downtime. */
  datatype Down = Down(lo: int, hi: int)

  function Max(a: int, b: int): int {
    if a < b then b else a
  }

  function Min(a: int, b: int): int {
    if a < b then a else b
  }

  function Overlap(a: int, b: int, x: Down): nat {
    Max(0, Min(b, x.hi) - Max(a, x.lo))
  }

  /** The downtime in a gap; one planned twice counts twice. */
  function Planned(a: int, b: int, downs: seq<Down>): nat {
    if downs == [] then 0 else Planned(a, b, downs[..|downs|-1]) + Overlap(a, b, downs[|downs|-1])
  }

  function Gap(a: int, b: int, interval: int, downs: seq<Down>): nat {
    if b - a <= GAP_MAX then 0 else Max(0, b - a - interval - Planned(a, b, downs))
  }

  predicate InWindow(t: int, from: int, to: int) {
    from <= t <= to
  }

  /** What is uncovered after prev; samples outside the window do not count. */
  function Uncovered(prev: int, s: seq<int>, from: int, to: int, interval: int, downs: seq<Down>): nat
    decreases |s|
  {
    if s == [] then Gap(prev, to, interval, downs)
    else if !InWindow(s[0], from, to) then Uncovered(prev, s[1..], from, to, interval, downs)
    else Gap(prev, s[0], interval, downs) + Uncovered(s[0], s[1..], from, to, interval, downs)
  }

  function Percent(unc: nat, span: int): real
    requires span > 0
  {
    var c := 100.0 * (1.0 - unc as real / span as real);
    if c < 0.0 then 0.0 else c
  }

  function CoverageOf(s: seq<int>, from: int, to: int, interval: int, downs: seq<Down>): real {
    if to - from <= 0 then 100.0 else Percent(Uncovered(from, s, from, to, interval, downs), to - from)
  }

  method PlannedIn(a: int, b: int, downs: seq<Down>) returns (ov: nat)
    ensures ov == Planned(a, b, downs)
  {
    ov := 0;
    for k := 0 to |downs|
      invariant ov == Planned(a, b, downs[..k])
    {
      assert downs[..k+1][..k] == downs[..k];
      var lo, hi := Max(a, downs[k].lo), Min(b, downs[k].hi);
      if hi > lo {
        ov := ov + (hi - lo);
      }
    }
    assert downs[..|downs|] == downs;
  }

  method GapOf(a: int, b: int, interval: int, downs: seq<Down>) returns (u: nat)
    ensures u == Gap(a, b, interval, downs)
  {
    if b - a <= GAP_MAX {
      return 0;
    }
    var ov := PlannedIn(a, b, downs);
    u := if b - a - interval - ov > 0 then b - a - interval - ov else 0;
  }

  /** The coverage in percent, sample by sample. */
  method CoverageScan(s: seq<int>, from: int, to: int, interval: int, downs: seq<Down>) returns (c: real)
    ensures c == CoverageOf(s, from, to, interval, downs)
    ensures 0.0 <= c <= 100.0
    ensures to <= from ==> c == 100.0
    ensures to > from ==> CoveredPart(MissedIn([from] + Windowed(s, from, to) + [to], interval, downs), to - from, c)
  {
    if to - from <= 0 {
      return 100.0;
    }
    var unc: nat, prev := 0, from;
    for k := 0 to |s|
      invariant unc + Uncovered(prev, s[k..], from, to, interval, downs)
                == Uncovered(from, s, from, to, interval, downs)
    {
      assert s[k..][1..] == s[k+1..];
      if InWindow(s[k], from, to) {
        var g := GapOf(prev, s[k], interval, downs);
        unc, prev := unc + g, s[k];
      }
    }
    var g := GapOf(prev, to, interval, downs);
    unc := unc + g;
    c := 100.0 * (1.0 - unc as real / (to - from) as real);
    if c < 0.0 {
      c := 0.0;
    }
    PercentRange(unc, to - from);
    UncoveredExact(from, s, from, to, interval, downs);
    PartExact(unc, to - from);
  }

  // ---- what is uncovered -----------------------------------------------------------------

  /** The samples in the window, in the order of the log. */
  function Windowed(s: seq<int>, from: int, to: int): seq<int> {
    if s == [] then [] else (if from <= s[0] <= to then [s[0]] else []) + Windowed(s[1..], from, to)
  }

  /** What lies between two neighbours more than 90 s apart, less one interval and the planned downtime. */
  function Missed(a: int, b: int, interval: int, downs: seq<Down>): int {
    if b - a <= 90_000_000_000 || b - a <= interval + Planned(a, b, downs) then 0
    else b - a - interval - Planned(a, b, downs)
  }

  function MissedIn(marks: seq<int>, interval: int, downs: seq<Down>): int {
    if |marks| < 2 then 0 else Missed(marks[0], marks[1], interval, downs) + MissedIn(marks[1..], interval, downs)
  }

  /** Uncovered is what is missed between the begin of the window, the samples in it, one after the other, and
    its end. */
  lemma {:induction false} UncoveredExact(prev: int, s: seq<int>, from: int, to: int, interval: int, downs: seq<Down>)
    ensures Uncovered(prev, s, from, to, interval, downs)
            == MissedIn([prev] + Windowed(s, from, to) + [to], interval, downs)
    decreases |s|
  {
    var marks := [prev] + Windowed(s, from, to) + [to];
    if s == [] {
      assert marks[1..] == [to];
    } else if from <= s[0] <= to {
      UncoveredExact(s[0], s[1..], from, to, interval, downs);
      assert marks[1..] == [s[0]] + Windowed(s[1..], from, to) + [to];
    } else {
      UncoveredExact(prev, s[1..], from, to, interval, downs);
      assert Windowed(s, from, to) == Windowed(s[1..], from, to);
    }
  }

  /** c is the covered part of a span in percent. */
  predicate CoveredPart(missed: int, span: int, c: real) {
    (missed <= span ==> c * span as real == (100 * (span - missed)) as real) && (missed > span ==> c == 0.0)
  }

  lemma PartExact(unc: nat, span: int)
    requires span > 0
    ensures CoveredPart(unc, span, Percent(unc, span))
  {
    var q := unc as real / span as real;
    assert q * span as real == unc as real;
    if unc <= span {
      assert q <= 1.0;
      assert (1.0 - q) * span as real == span as real - unc as real;
    } else {
      assert q > 1.0;
    }
  }

  lemma PercentRange(unc: nat, span: int)
    requires span > 0
    ensures 0.0 <= Percent(unc, span) <= 100.0
  {
    assert unc as real / span as real >= 0.0;
  }

  lemma PercentFalls(u: nat, v: nat, span: int)
    requires span > 0 && u <= v
    ensures Percent(u, span) >= Percent(v, span)
  {
    assert u as real / span as real <= v as real / span as real;
  }

  // ---- a further sample never lowers it -----------------------------------------------

  predicate Apart(x: Down, y: Down) {
    x.hi <= x.lo || y.hi <= y.lo || x.hi <= y.lo || y.hi <= x.lo
  }

  /** No two planned downtimes overlap. */
  predicate Disjoint(downs: seq<Down>) {
    forall i, j :: 0 <= i < j < |downs| ==> Apart(downs[i], downs[j])
  }

  predicate Ordered(s: seq<int>) {
    forall i, j :: 0 <= i < j < |s| ==> s[i] <= s[j]
  }

  lemma {:induction false} PlannedSplits(a: int, t: int, b: int, downs: seq<Down>)
    requires a <= t <= b
    ensures Planned(a, b, downs) == Planned(a, t, downs) + Planned(t, b, downs)
  {
    if downs != [] {
      PlannedSplits(a, t, b, downs[..|downs|-1]);
    }
  }

  lemma {:induction false} NothingPlanned(a: int, b: int, downs: seq<Down>)
    requires forall i :: 0 <= i < |downs| ==> Overlap(a, b, downs[i]) == 0
    ensures Planned(a, b, downs) == 0
  {
    if downs != [] {
      NothingPlanned(a, b, downs[..|downs|-1]);
    }
  }

  /** Disjoint downtimes never plan more than the whole gap. */
  lemma {:induction false} PlannedFits(a: int, b: int, downs: seq<Down>)
    requires a <= b && Disjoint(downs)
    ensures Planned(a, b, downs) <= b - a
    decreases |downs|
  {
    if downs != [] {
      var init, x := downs[..|downs|-1], downs[|downs|-1];
      if Overlap(a, b, x) == 0 {
        PlannedFits(a, b, init);
      } else {
        var lo, hi := Max(a, x.lo), Min(b, x.hi);
        PlannedSplits(a, lo, b, init);
        PlannedSplits(lo, hi, b, init);
        forall i | 0 <= i < |init|
          ensures Overlap(lo, hi, init[i]) == 0
        {
          assert Apart(downs[i], downs[|downs|-1]);
        }
        NothingPlanned(lo, hi, init);
        PlannedFits(a, lo, init);
        PlannedFits(hi, b, init);
      }
    }
  }

  lemma GapSplits(a: int, t: int, b: int, interval: int, downs: seq<Down>)
    requires a <= t <= b && interval >= 0 && Disjoint(downs)
    ensures Gap(a, t, interval, downs) + Gap(t, b, interval, downs) <= Gap(a, b, interval, downs)
  {
    PlannedSplits(a, t, b, downs);
    PlannedFits(a, t, downs);
    PlannedFits(t, b, downs);
  }

  /** A sample between prev and the rest. */
  lemma {:induction false} FurtherSample(prev: int, t: int, s: seq<int>, from: int, to: int, interval: int,
                                         downs: seq<Down>)
    requires from <= prev <= t <= to && interval >= 0 && Disjoint(downs)
    requires forall i :: 0 <= i < |s| ==> t <= s[i]
    ensures Gap(prev, t, interval, downs) + Uncovered(t, s, from, to, interval, downs)
            <= Uncovered(prev, s, from, to, interval, downs)
  {
    if s == [] {
      GapSplits(prev, t, to, interval, downs);
    } else if !InWindow(s[0], from, to) {
      FurtherSample(prev, t, s[1..], from, to, interval, downs);
    } else {
      GapSplits(prev, t, s[0], interval, downs);
    }
  }

  lemma {:induction false} InsertUncovered(prev: int, s: seq<int>, k: nat, t: int, from: int, to: int, interval: int,
                                           downs: seq<Down>)
    requires from <= prev <= to && k <= |s| && interval >= 0 && Disjoint(downs)
    requires Ordered(s[..k] + [t] + s[k..]) && forall i :: 0 <= i < |s| ==> prev <= s[i] || s[i] < from
    requires prev <= t || t < from
    ensures Uncovered(prev, s[..k] + [t] + s[k..], from, to, interval, downs)
            <= Uncovered(prev, s, from, to, interval, downs)
    decreases |s|
  {
    var r := s[..k] + [t] + s[k..];
    if k == 0 {
      assert r[1..] == s;
      if InWindow(t, from, to) {
        forall i | 0 <= i < |s|
          ensures t <= s[i]
        {
          assert r[0] <= r[i+1];
        }
        FurtherSample(prev, t, s, from, to, interval, downs);
      }
    } else {
      assert r[0] == s[0] && r[1..] == s[1..][..k-1] + [t] + s[1..][k-1..];
      assert r[0] <= r[k];
      forall i | 0 < i < |s|
        ensures s[0] <= s[i]
      {
        assert r[0] <= r[if i < k then i else i + 1];
      }
      forall i, j | 0 <= i < j < |r[1..]|
        ensures r[1..][i] <= r[1..][j]
      {
        assert r[i+1] <= r[j+1];
      }
      InsertUncovered(if InWindow(s[0], from, to) then s[0] else prev, s[1..], k - 1, t, from, to, interval, downs);
    }
  }

  /** Inserting a sample into time-ordered ones. */
  predicate Inserted(s: seq<int>, s': seq<int>) {
    Ordered(s') && exists k :: 0 <= k < |s'| && s == s'[..k] + s'[k+1..]
  }

  lemma NeverLowers(s: seq<int>, s': seq<int>, from: int, to: int, interval: int, downs: seq<Down>)
    requires Inserted(s, s') && interval >= 0 && Disjoint(downs)
    ensures CoverageOf(s', from, to, interval, downs) >= CoverageOf(s, from, to, interval, downs)
  {
    var k :| 0 <= k < |s'| && s == s'[..k] + s'[k+1..];
    assert s[..k] + [s'[k]] + s[k..] == s';
    if to > from {
      InsertUncovered(from, s, k, s'[k], from, to, interval, downs);
      PercentFalls(Uncovered(from, s', from, to, interval, downs), Uncovered(from, s, from, to, interval, downs),
                   to - from);
    }
  }

  // ---- ... exactly when the planned downtimes are disjoint ------------------------------

  function Total(downs: seq<Down>): nat {
    if downs == [] then 0 else Total(downs[..|downs|-1]) + Max(0, downs[|downs|-1].hi - downs[|downs|-1].lo)
  }

  lemma {:induction false} PlannedBounded(a: int, b: int, downs: seq<Down>)
    ensures Planned(a, b, downs) <= Total(downs)
  {
    if downs != [] {
      PlannedBounded(a, b, downs[..|downs|-1]);
    }
  }

  /** Every entry counts. */
  lemma {:induction false} PlannedAtLeast(a: int, b: int, downs: seq<Down>, i: nat, j: nat)
    requires i < j < |downs|
    ensures Planned(a, b, downs) >= Overlap(a, b, downs[i]) + Overlap(a, b, downs[j])
  {
    var init := downs[..|downs|-1];
    if j < |init| {
      PlannedAtLeast(a, b, init, i, j);
    } else {
      PlannedAtLeastOne(a, b, init, i);
    }
  }

  lemma {:induction false} PlannedAtLeastOne(a: int, b: int, downs: seq<Down>, i: nat)
    requires i < |downs|
    ensures Planned(a, b, downs) >= Overlap(a, b, downs[i])
  {
    if i < |downs| - 1 {
      PlannedAtLeastOne(a, b, downs[..|downs|-1], i);
    }
  }

  /** Where two downtimes overlap, a sample at the start of the overlap lowers the coverage of a
    window that begins early enough and ends within it. */
  lemma OverlapLowers(interval: int, downs: seq<Down>, i: nat, j: nat) returns (from: int, t: int, to: int)
    requires interval >= 0 && i < j < |downs| && !Apart(downs[i], downs[j])
    ensures CoverageOf([t], from, to, interval, downs) < CoverageOf([], from, to, interval, downs)
  {
    t := Max(downs[i].lo, downs[j].lo);
    to := Min(Min(downs[i].hi, downs[j].hi), t + NS_PER_S);
    from := t - (interval + Total(downs) + 2 * GAP_MAX);
    var w := to - t;
    assert 0 < w <= NS_PER_S;
    PlannedBounded(from, t, downs);
    PlannedSplits(from, t, to, downs);
    PlannedAtLeast(t, to, downs, i, j);
    assert Overlap(t, to, downs[i]) == w && Overlap(t, to, downs[j]) == w;
    OneSample(from, t, to, interval, downs);
    PercentDrops(Gap(from, to, interval, downs), Gap(from, t, interval, downs), to - from);
  }

  lemma OneSample(from: int, t: int, to: int, interval: int, downs: seq<Down>)
    requires from <= t <= to && to - t <= GAP_MAX
    ensures Uncovered(from, [t], from, to, interval, downs) == Gap(from, t, interval, downs)
  {
    assert [t][1..] == [];
  }

  lemma PercentDrops(u: nat, v: nat, span: int)
    requires u < v && u < span
    ensures Percent(u, span) > Percent(v, span)
  {
    assert u as real / span as real < v as real / span as real;
    assert u as real / span as real < 1.0;
  }

  /** Coverage is monotone in the samples if and only if the planned downtimes are disjoint. */
  lemma MonotoneExact(interval: int, downs: seq<Down>)
    requires interval >= 0
    ensures Disjoint(downs) <==>
              forall s, s', from, to :: Inserted(s, s') ==>
                CoverageOf(s', from, to, interval, downs) >= CoverageOf(s, from, to, interval, downs)
  {
    if Disjoint(downs) {
      forall s, s', from, to | Inserted(s, s')
        ensures CoverageOf(s', from, to, interval, downs) >= CoverageOf(s, from, to, interval, downs)
      {
        NeverLowers(s, s', from, to, interval, downs);
      }
    } else {
      var i, j :| 0 <= i < j < |downs| && !Apart(downs[i], downs[j]);
      var from, t, to := OverlapLowers(interval, downs, i, j);
      assert [] == [t][..0] + [t][1..];
      assert Inserted([], [t]);
    }
  }
}
