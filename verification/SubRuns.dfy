/** What the verdicts of a sub-run say, stated over its samples (EvalHandback and EvalHandbackRegs in
  ectest/internal/spec/eval.go): T2 FAIL, T3 PASS and T3 FAIL. T2 PASS is in HandbackData. */
module SubRuns {
  import opened Wrappers
  import opened StoredTime
  import opened RunLog
  import opened SpecRules
  import opened StoredInputs
  import opened Handback
  import opened Aggregate
  import opened HandbackData

  // ---- samples and entries of the series ----------------------------------------------------

  /** Sample i shows register n; */
  predicate Shows(auto: seq<Sample>, n: int, i: int) {
    0 <= i < |auto| && RegDcr(auto[i], n) >= 0
  }

  /** ... `At` is its time since the auto command, in milliseconds. */
  function At(auto: seq<Sample>, t0: int, i: int): int
    requires 0 <= i < |auto|
  {
    SinceMs(auto[i].ts, t0)
  }

  /** The samples that show register n, in the order of the log. */
  function Shown(auto: seq<Sample>, n: int): seq<nat> {
    if auto == [] then []
    else Shown(auto[..|auto|-1], n) + if RegDcr(auto[|auto|-1], n) >= 0 then [|auto| - 1] else []
  }

  /** Entry j of the series is sample i. */
  predicate IsEntry(auto: seq<Sample>, n: int, t0: int, j: int, i: int) {
    && 0 <= j < |Shown(auto, n)| && |Series(auto, n, t0)| == |Shown(auto, n)| && Shown(auto, n)[j] == i
    && Shows(auto, n, i) && Series(auto, n, t0)[j] == DcrSample(At(auto, t0, i), RegDcr(auto[i], n))
  }

  lemma {:induction false} EntryIsSample(auto: seq<Sample>, n: int, t0: int, j: nat) returns (i: int)
    requires j < |Series(auto, n, t0)|
    ensures IsEntry(auto, n, t0, j, i)
  {
    var init := auto[..|auto|-1];
    SameLength(auto, n, t0);
    SameLength(init, n, t0);
    if j < |Series(init, n, t0)| {
      i := EntryIsSample(init, n, t0, j);
      assert auto[i] == init[i];
    } else {
      i := |auto| - 1;
    }
  }

  lemma {:induction false} SameLength(auto: seq<Sample>, n: int, t0: int)
    ensures |Series(auto, n, t0)| == |Shown(auto, n)|
  {
    if auto != [] {
      SameLength(auto[..|auto|-1], n, t0);
    }
  }

  lemma {:induction false} SampleIsEntry(auto: seq<Sample>, n: int, t0: int, i: nat) returns (j: nat)
    requires Shows(auto, n, i)
    ensures IsEntry(auto, n, t0, j, i)
  {
    var init := auto[..|auto|-1];
    SameLength(auto, n, t0);
    SameLength(init, n, t0);
    if i < |init| {
      j := SampleIsEntry(init, n, t0, i);
    } else {
      j := |Shown(init, n)|;
    }
  }

  lemma {:induction false} ShownIncreases(auto: seq<Sample>, n: int, j: nat, k: nat)
    requires j < k < |Shown(auto, n)|
    ensures Shown(auto, n)[j] < Shown(auto, n)[k] < |auto|
  {
    var init := auto[..|auto|-1];
    if k < |Shown(init, n)| {
      ShownIncreases(init, n, j, k);
    } else {
      ShownBelow(init, n, j);
    }
  }

  lemma {:induction false} ShownBelow(auto: seq<Sample>, n: int, j: nat)
    requires j < |Shown(auto, n)|
    ensures Shown(auto, n)[j] < |auto|
  {
    var init := auto[..|auto|-1];
    if j < |Shown(init, n)| {
      ShownBelow(init, n, j);
    }
  }

  /** The entries stand in the order of the samples. */
  lemma EntriesInOrder(auto: seq<Sample>, n: int, t0: int, j: nat, i: int, k: nat, q: int)
    requires IsEntry(auto, n, t0, j, i) && IsEntry(auto, n, t0, k, q)
    ensures j < k <==> i < q
    ensures j == k <==> i == q
  {
    if j < k {
      ShownIncreases(auto, n, j, k);
    } else if k < j {
      ShownIncreases(auto, n, k, j);
    }
  }

  // ---- one register ----------------------------------------------------------------------

  /** The register was seen at time t or later. */
  predicate SeenAt(auto: seq<Sample>, n: int, t0: int, t: int) {
    exists q :: 0 <= q < |auto| && Shows(auto, n, q) && At(auto, t0, q) >= t
  }

  /** Sample q shows the register in the 120 s from sample p on; of the samples of the same time those
    before p in the log do not belong to them. */
  predicate InWindow(auto: seq<Sample>, n: int, t0: int, p: int, q: int)
    requires 0 <= p < |auto|
  {
    && Shows(auto, n, q)
    && (At(auto, t0, q) > At(auto, t0, p) || (At(auto, t0, q) == At(auto, t0, p) && q >= p))
    && At(auto, t0, q) <= At(auto, t0, p) + 120_000
  }

  /** The register is steady from sample p on: it is seen 120 s later or after that, and no sample of these
    120 s shows it more than 2 counts away. */
  predicate SteadyAt(auto: seq<Sample>, n: int, t0: int, p: int) {
    && Shows(auto, n, p)
    && SeenAt(auto, n, t0, At(auto, t0, p) + 120_000)
    && forall q :: 0 <= q < |auto| && InWindow(auto, n, t0, p, q) ==> Abs(RegDcr(auto[q], n) - RegDcr(auto[p], n)) <= 2
  }

  predicate Settles(auto: seq<Sample>, n: int, t0: int) {
    exists p :: 0 <= p < |auto| && SteadyAt(auto, n, t0, p)
  }

  /** What T3 asks of one judged register: steady from a sample on, at most `limit` seconds after the auto
    command. */
  predicate SettlesBy(auto: seq<Sample>, n: int, t0: int, limit: int) {
    exists p :: 0 <= p < |auto| && SteadyAt(auto, n, t0, p) && At(auto, t0, p) <= limit * 1000
  }

  /** Every reading of the register is within 2 counts of the written value. */
  predicate Holds(auto: seq<Sample>, n: int, written: int) {
    forall q :: 0 <= q < |auto| && Shows(auto, n, q) ==> Abs(RegDcr(auto[q], n) - written) <= 2
  }

  lemma SeenExact(auto: seq<Sample>, n: int, t0: int, t: int)
    ensures SeenUntil(Series(auto, n, t0), t) <==> SeenAt(auto, n, t0, t)
  {
    var s := Series(auto, n, t0);
    if SeenUntil(s, t) {
      var j :| 0 <= j < |s| && s[j].t >= t;
      var i := EntryIsSample(auto, n, t0, j);
    }
    if SeenAt(auto, n, t0, t) {
      var q :| 0 <= q < |auto| && Shows(auto, n, q) && At(auto, t0, q) >= t;
      var j := SampleIsEntry(auto, n, t0, q);
      assert s[j].t >= t;
    }
  }

  lemma HoldsExact(r: HandbackRun, auto: seq<Sample>, n: int, t0: int)
    requires r.samples == Series(auto, n, t0)
    ensures Stays(r) <==> Holds(auto, n, r.written)
  {
    if Stays(r) {
      forall q | 0 <= q < |auto| && Shows(auto, n, q)
        ensures Abs(RegDcr(auto[q], n) - r.written) <= 2
      {
        var j := SampleIsEntry(auto, n, t0, q);
      }
    }
    if Holds(auto, n, r.written) {
      forall j | 0 <= j < |r.samples|
        ensures Abs(r.samples[j].dcr - r.written) <= HOLD_COUNTS
      {
        var i := EntryIsSample(auto, n, t0, j);
      }
    }
  }

  lemma SteadyIfEntry(auto: seq<Sample>, n: int, t0: int, j: nat, p: int)
    requires IsEntry(auto, n, t0, j, p) && SteadyFrom(Series(auto, n, t0), j)
    ensures SteadyAt(auto, n, t0, p)
  {
    var s := Series(auto, n, t0);
    SeenExact(auto, n, t0, At(auto, t0, p) + 120_000);
    forall q | 0 <= q < |auto| && InWindow(auto, n, t0, p, q)
      ensures Abs(RegDcr(auto[q], n) - RegDcr(auto[p], n)) <= 2
    {
      var k := SampleIsEntry(auto, n, t0, q);
      EntriesInOrder(auto, n, t0, j, p, k, q);
      assert !Earlier(s, k, j);
    }
  }

  lemma SteadyIfSample(auto: seq<Sample>, n: int, t0: int, j: nat, p: int)
    requires IsEntry(auto, n, t0, j, p) && SteadyAt(auto, n, t0, p)
    ensures SteadyFrom(Series(auto, n, t0), j)
  {
    var s := Series(auto, n, t0);
    SeenExact(auto, n, t0, At(auto, t0, p) + 120_000);
    forall k | 0 <= k < |s| && !Earlier(s, k, j) && s[k].t <= s[j].t + HOLD_MS
      ensures Abs(s[k].dcr - s[j].dcr) <= SETTLE_BAND
    {
      var q := EntryIsSample(auto, n, t0, k);
      EntriesInOrder(auto, n, t0, j, p, k, q);
      assert InWindow(auto, n, t0, p, q);
    }
  }

  lemma SettlesExact(r: HandbackRun, auto: seq<Sample>, n: int, t0: int)
    requires r.samples == Series(auto, n, t0)
    ensures SettledInTime(r) <==> SettlesBy(auto, n, t0, Limit(r))
    ensures (exists p :: SteadyFrom(r.samples, p)) <==> Settles(auto, n, t0)
  {
    forall p | 0 <= p < |auto| && SteadyAt(auto, n, t0, p)
      ensures exists j :: SteadyFrom(r.samples, j) && r.samples[j].t == At(auto, t0, p)
    {
      var j := SampleIsEntry(auto, n, t0, p);
      SteadyIfSample(auto, n, t0, j, p);
    }
    forall j | SteadyFrom(r.samples, j)
      ensures exists p :: 0 <= p < |auto| && SteadyAt(auto, n, t0, p) && r.samples[j].t == At(auto, t0, p)
    {
      var p := EntryIsSample(auto, n, t0, j);
      SteadyIfEntry(auto, n, t0, j, p);
    }
  }

  // ---- the rules of one register ------------------------------------------------------------

  /** What a T2 FAIL asks: the register holds the written value in all samples, up to 120 s after the T3
    limit, and A is not within 16 counts of it. */
  predicate FailsT2(auto: seq<Sample>, n: int, t0: int, written: int, a: Option<int>, limit: int) {
    && (a.Some? ==> Abs(written - a.value) >= 16)
    && Holds(auto, n, written) && SeenAt(auto, n, t0, (limit + 120) * 1000)
  }

  /** What a T3 FAIL asks: the register settles too late, or it is seen 120 s after the limit and never
    settles. */
  predicate FailsT3(auto: seq<Sample>, n: int, t0: int, limit: int) {
    !SettlesBy(auto, n, t0, limit) && (Settles(auto, n, t0) || SeenAt(auto, n, t0, (limit + 120) * 1000))
  }

  lemma RegisterFailsT2(r: HandbackRun, auto: seq<Sample>, n: int, t0: int)
    requires r.samples == Series(auto, n, t0) && r.timingKnown
    ensures T2Of(r) == Fail <==> !r.crossed && FailsT2(auto, n, t0, r.written, r.auto, Limit(r))
  {
    HoldsExact(r, auto, n, t0);
    SeenExact(auto, n, t0, (Limit(r) + 120) * 1000);
  }

  lemma RegisterOfT3(r: HandbackRun, auto: seq<Sample>, n: int, t0: int)
    requires r.samples == Series(auto, n, t0) && r.timingKnown
    ensures T3Of(r) == Pass <==> !r.crossed && SettlesBy(auto, n, t0, Limit(r))
    ensures T3Of(r) == Fail <==> !r.crossed && FailsT3(auto, n, t0, Limit(r))
  {
    SettlesExact(r, auto, n, t0);
    SeenExact(auto, n, t0, (Limit(r) + 120) * 1000);
  }

  // ---- the sub-run ----------------------------------------------------------------------------

  /** The T3 limit of a channel in seconds. */
  function LimitOf(ch: int): nat {
    if ch == 1 || ch == 2 then 180 else 900
  }

  /** The table input crossed no step, neither in the window of A nor since the write. */
  ghost predicate Free(ch: int, hold: seq<Sample>, auto: seq<Sample>, preCrossed: bool) {
    1 <= ch <= 4 && !preCrossed && !CrossedIn(ch, hold + auto)
  }

  lemma AllRegistersFailsT2(ch: int, sub: Label, written: int, auto: seq<Sample>, t0: int, a: seq<Option<int>>,
                            crossed: bool)
    requires |a| == |JudgedRegs(ch)| > 0
    ensures AllRegs(T2, RunsFor(ch, sub, written, auto, t0, a, crossed), Fail) <==>
              !crossed && forall k :: 0 <= k < |a| ==> FailsT2(auto, JudgedRegs(ch)[k], t0, written, a[k], LimitOf(ch))
  {
    var runs := RunsFor(ch, sub, written, auto, t0, a, crossed);
    forall k | 0 <= k < |runs|
      ensures RuleOf(T2, runs[k]) == Fail <==>
              !crossed && FailsT2(auto, JudgedRegs(ch)[k], t0, written, a[k], LimitOf(ch))
    {
      RegisterFailsT2(runs[k], auto, JudgedRegs(ch)[k], t0);
    }
    assert RuleOf(T2, runs[0]) == Fail ==> !crossed;
  }

  /** A sub-run fails T2 if and only if no input crossed and every judged register fails it. */
  lemma SubRunFailsT2(ch: int, sub: Label, written: int, hold: seq<Sample>, auto: seq<Sample>, t0: int,
                   a: seq<Option<int>>, preCrossed: bool)
    requires |a| == |JudgedRegs(ch)|
    ensures SubEvaluation(ch, sub, written, hold, auto, t0, a, preCrossed).t2 == Fail <==>
              && Free(ch, hold, auto, preCrossed)
              && forall k :: 0 <= k < |a| ==> FailsT2(auto, JudgedRegs(ch)[k], t0, written, a[k], LimitOf(ch))
  {
    var crossed := preCrossed || InputCrossed(ch, SubInputs(ch, hold, auto));
    SubCrossedExact(ch, hold, auto);
    MergedExact(T2, RunsFor(ch, sub, written, auto, t0, a, crossed), Fail);
    if 1 <= ch <= 4 {
      AllRegistersFailsT2(ch, sub, written, auto, t0, a, crossed);
    }
  }

  lemma AllRegistersPassesT3(ch: int, sub: Label, written: int, auto: seq<Sample>, t0: int, a: seq<Option<int>>,
                             crossed: bool)
    requires |a| == |JudgedRegs(ch)| > 0
    ensures AllRegs(T3, RunsFor(ch, sub, written, auto, t0, a, crossed), Pass) <==>
              !crossed && forall k :: 0 <= k < |a| ==> SettlesBy(auto, JudgedRegs(ch)[k], t0, LimitOf(ch))
  {
    var runs := RunsFor(ch, sub, written, auto, t0, a, crossed);
    forall k | 0 <= k < |runs|
      ensures RuleOf(T3, runs[k]) == Pass <==> !crossed && SettlesBy(auto, JudgedRegs(ch)[k], t0, LimitOf(ch))
    {
      RegisterOfT3(runs[k], auto, JudgedRegs(ch)[k], t0);
    }
    assert RuleOf(T3, runs[0]) == Pass ==> !crossed;
  }

  /** A sub-run passes T3 if and only if no input crossed and every judged register is steady for 120 s from
    a sample within the limit on. */
  lemma SubRunPassesT3(ch: int, sub: Label, written: int, hold: seq<Sample>, auto: seq<Sample>, t0: int,
                   a: seq<Option<int>>, preCrossed: bool)
    requires |a| == |JudgedRegs(ch)|
    ensures SubEvaluation(ch, sub, written, hold, auto, t0, a, preCrossed).t3 == Pass <==>
              && Free(ch, hold, auto, preCrossed)
              && forall k :: 0 <= k < |a| ==> SettlesBy(auto, JudgedRegs(ch)[k], t0, LimitOf(ch))
  {
    var crossed := preCrossed || InputCrossed(ch, SubInputs(ch, hold, auto));
    SubCrossedExact(ch, hold, auto);
    MergedExact(T3, RunsFor(ch, sub, written, auto, t0, a, crossed), Pass);
    if 1 <= ch <= 4 {
      AllRegistersPassesT3(ch, sub, written, auto, t0, a, crossed);
    }
  }

  lemma AllRegistersFailsT3(ch: int, sub: Label, written: int, auto: seq<Sample>, t0: int, a: seq<Option<int>>,
                            crossed: bool)
    requires |a| == |JudgedRegs(ch)| > 0
    ensures AllRegs(T3, RunsFor(ch, sub, written, auto, t0, a, crossed), Fail) <==>
              !crossed && forall k :: 0 <= k < |a| ==> FailsT3(auto, JudgedRegs(ch)[k], t0, LimitOf(ch))
  {
    var runs := RunsFor(ch, sub, written, auto, t0, a, crossed);
    forall k | 0 <= k < |runs|
      ensures RuleOf(T3, runs[k]) == Fail <==> !crossed && FailsT3(auto, JudgedRegs(ch)[k], t0, LimitOf(ch))
    {
      RegisterOfT3(runs[k], auto, JudgedRegs(ch)[k], t0);
    }
    assert RuleOf(T3, runs[0]) == Fail ==> !crossed;
  }

  /** A sub-run fails T3 if and only if no input crossed and every judged register fails it. */
  lemma SubRunFailsT3(ch: int, sub: Label, written: int, hold: seq<Sample>, auto: seq<Sample>, t0: int,
                   a: seq<Option<int>>, preCrossed: bool)
    requires |a| == |JudgedRegs(ch)|
    ensures SubEvaluation(ch, sub, written, hold, auto, t0, a, preCrossed).t3 == Fail <==>
              && Free(ch, hold, auto, preCrossed)
              && forall k :: 0 <= k < |a| ==> FailsT3(auto, JudgedRegs(ch)[k], t0, LimitOf(ch))
  {
    var crossed := preCrossed || InputCrossed(ch, SubInputs(ch, hold, auto));
    SubCrossedExact(ch, hold, auto);
    MergedExact(T3, RunsFor(ch, sub, written, auto, t0, a, crossed), Fail);
    if 1 <= ch <= 4 {
      AllRegistersFailsT3(ch, sub, written, auto, t0, a, crossed);
    }
  }
}
