/** How the data of a hand-back sub-run is taken from samples. The runner and the report share
  these rules (observeIn, AutoValues, HandbackRuns, PreCrossing and MarkCrossing in
  ectest/internal/runner/runner.go). */
module HandbackData {
  import opened Wrappers
  import opened StoredTime
  import opened RunLog
  import opened SpecRules
  import opened StoredInputs
  import opened Handback
  import opened Aggregate

  /** The readings of register n, relative to t0. */
  function Series(smp: seq<Sample>, n: int, t0: int): seq<DcrSample> {
    if smp == [] then []
    else
      var last := smp[|smp|-1];
      var rest := Series(smp[..|smp|-1], n, t0);
      if RegDcr(last, n) >= 0 then rest + [DcrSample(SinceMs(last.ts, t0), RegDcr(last, n))] else rest
  }

  /** The automatic value A of register n: its last reading in the window that determines it. */
  function AutoValue(pre: seq<Sample>, n: int): Option<int> {
    if pre == [] then None
    else if RegDcr(pre[|pre|-1], n) >= 0 then Some(RegDcr(pre[|pre|-1], n))
    else AutoValue(pre[..|pre|-1], n)
  }

  /** Sample i is the last one of the window that shows register n. */
  predicate LastShown(pre: seq<Sample>, n: int, i: int) {
    && 0 <= i < |pre| && RegDcr(pre[i], n) >= 0
    && forall j :: i < j < |pre| ==> RegDcr(pre[j], n) < 0
  }

  /** A is v if and only if the last sample that shows the register shows v, and unknown if and only if
    no sample of the window shows it. */
  lemma {:induction false} AutoValueExact(pre: seq<Sample>, n: int)
    ensures forall v :: AutoValue(pre, n) == Some(v) <==> exists i :: LastShown(pre, n, i) && RegDcr(pre[i], n) == v
    ensures AutoValue(pre, n).None? <==> forall i :: 0 <= i < |pre| ==> RegDcr(pre[i], n) < 0
  {
    if pre != [] {
      var init := pre[..|pre|-1];
      if RegDcr(pre[|init|], n) >= 0 {
        assert LastShown(pre, n, |init|);
      } else {
        AutoValueExact(init, n);
        forall i
          ensures LastShown(pre, n, i) <==> LastShown(init, n, i)
        {
          assert forall j :: 0 <= j < |init| ==> pre[j] == init[j];
        }
      }
    }
  }

  /** A of the channel is known from the window: some sample of it shows the primary register. */
  predicate KnownIn(ch: int, pre: seq<Sample>)
    requires 1 <= ch <= 4
  {
    exists i :: 0 <= i < |pre| && RegDcr(pre[i], JudgedRegs(ch)[0]) >= 0
  }

  /** m is the second duty for the window of A: 48 above the last reading of the primary register of the
    channel, within 100..200. */
  predicate DutyOfWindow(ch: int, pre: seq<Sample>, m: int)
    requires 1 <= ch <= 4
  {
    exists i :: 0 <= i < |pre| && LastShown(pre, JudgedRegs(ch)[0], i)
        && DutyOfReading(RegDcr(pre[i], JudgedRegs(ch)[0]), m)
  }

  predicate DutyOfReading(a: int, m: int) {
    && 100 <= m <= 200
    && (52 <= a <= 152 ==> m == a + 48)
    && (a < 52 ==> m == 100)
    && (a > 152 ==> m == 200)
  }

  function AutoValues(ch: int, pre: seq<Sample>): (a: seq<Option<int>>)
    ensures |a| == |JudgedRegs(ch)|
  {
    seq(|JudgedRegs(ch)|, k requires 0 <= k < |JudgedRegs(ch)| => AutoValue(pre, JudgedRegs(ch)[k]))
  }

  function Inputs(ch: int, smp: seq<Sample>): (r: seq<Temp>)
    ensures |r| == |smp| && forall i :: 0 <= i < |r| ==> r[i] == TableInput(ch, smp[i])
  {
    seq(|smp|, i requires 0 <= i < |smp| => TableInput(ch, smp[i]))
  }

  /** Sample i is the first one that has the table input of the channel. */
  predicate FirstInput(ch: int, smp: seq<Sample>, i: int) {
    && 0 <= i < |smp| && TableInput(ch, smp[i]).Some?
    && forall j :: 0 <= j < i ==> TableInput(ch, smp[j]).None?
  }

  /** A value at least 2 C beyond a step, seen from a first value on its other side. */
  predicate Beyond(first: int, step: int, v: int) {
    (first < step && v >= step + 2_000) || (first >= step && v <= step - 2_000)
  }

  /** The table input of the channel went from its first value in the samples beyond a step. */
  ghost predicate CrossedIn(ch: int, smp: seq<Sample>) {
    exists i, j, b :: FirstInput(ch, smp, i) && 0 <= j < |smp| && TableInput(ch, smp[j]).Some?
                      && 0 <= b < |StepBoundaries(ch)|
                      && Beyond(TableInput(ch, smp[i]).value, StepBoundaries(ch)[b], TableInput(ch, smp[j]).value)
  }

  lemma {:induction false} FirstInputExact(ch: int, smp: seq<Sample>)
    ensures FirstTemp(Inputs(ch, smp)).None? <==> forall i :: !FirstInput(ch, smp, i)
    ensures forall i :: FirstInput(ch, smp, i) ==> FirstTemp(Inputs(ch, smp)) == TableInput(ch, smp[i])
  {
    if smp != [] {
      var rest := smp[1..];
      assert Inputs(ch, smp)[1..] == Inputs(ch, rest);
      if TableInput(ch, smp[0]).Some? {
        assert FirstInput(ch, smp, 0);
      } else {
        FirstInputExact(ch, rest);
        forall i
          ensures FirstInput(ch, smp, i) <==> FirstInput(ch, rest, i - 1)
        {
          assert forall j :: 0 < j < |smp| ==> smp[j] == rest[j-1];
        }
        assert forall i :: FirstInput(ch, rest, i) ==> FirstInput(ch, smp, i + 1);
      }
    }
  }

  lemma CrossedExact(ch: int, smp: seq<Sample>)
    ensures InputCrossed(ch, Inputs(ch, smp)) <==> CrossedIn(ch, smp)
  {
    FirstInputExact(ch, smp);
    var vals := Inputs(ch, smp);
    if InputCrossed(ch, vals) {
      var i :| FirstInput(ch, smp, i);
      var j, b :| 0 <= j < |vals| && vals[j].Some? && 0 <= b < |StepBoundaries(ch)|
                  && Across(FirstTemp(vals).value as real, StepBoundaries(ch)[b], vals[j].value);
      assert Beyond(TableInput(ch, smp[i]).value, StepBoundaries(ch)[b], TableInput(ch, smp[j]).value);
    }
    if i, j, b :| FirstInput(ch, smp, i) && 0 <= j < |smp| && TableInput(ch, smp[j]).Some?
                  && 0 <= b < |StepBoundaries(ch)|
                  && Beyond(TableInput(ch, smp[i]).value, StepBoundaries(ch)[b], TableInput(ch, smp[j]).value) {
      assert vals[j] == TableInput(ch, smp[j]);
      assert Across(FirstTemp(vals).value as real, StepBoundaries(ch)[b], vals[j].value);
    }
  }

  /** What is evaluated for a sub-run, register by register. */
  function RunsFor(ch: int, sub: Label, written: int, auto: seq<Sample>, t0: int, a: seq<Option<int>>, crossed: bool)
    : (r: seq<HandbackRun>)
    requires |a| == |JudgedRegs(ch)|
  {
    var regs := JudgedRegs(ch);
    seq(|regs|, k requires 0 <= k < |regs| =>
      HandbackRun(sub, written, Series(auto, regs[k], t0), true, a[k], T3LimitS(ch), crossed))
  }

  /** The result of one sub-run: `hold` and `auto` are the samples before and after the auto
    command sent at t0, `preCrossed` says whether the input crossed while A was determined. */
  ghost function SubEvaluation(ch: int, sub: Label, written: int, hold: seq<Sample>, auto: seq<Sample>, t0: int,
                               a: seq<Option<int>>, preCrossed: bool): Merged
    requires |a| == |JudgedRegs(ch)|
  {
    EvaluationRegs(RunsFor(ch, sub, written, auto, t0, a,
                           preCrossed || InputCrossed(ch, SubInputs(ch, hold, auto))))
  }

  method EvalSubRun(ch: int, sub: Label, written: int, hold: seq<Sample>, auto: seq<Sample>, t0: int,
                    a: seq<Option<int>>, preCrossed: bool) returns (m: Merged)
    requires |a| == |JudgedRegs(ch)|
    ensures m == SubEvaluation(ch, sub, written, hold, auto, t0, a, preCrossed)
  {
    var crossed := preCrossed || InputCrossed(ch, SubInputs(ch, hold, auto));
    m := EvalHandbackRegs(RunsFor(ch, sub, written, auto, t0, a, crossed));
  }

  // ---- storing the samples changes none of it ----------------------------------

  ghost predicate AllRepresentable(smp: seq<Sample>) {
    forall i :: 0 <= i < |smp| ==> Representable(smp[i])
  }

  lemma {:induction false} PhaseRepresentable(smp: seq<Sample>, phase: Phase)
    requires AllRepresentable(smp)
    ensures AllRepresentable(PhaseSamples(smp, phase))
  {
    if smp != [] {
      PhaseRepresentable(smp[..|smp|-1], phase);
    }
  }

  lemma {:induction false} SeriesOfStored(smp: seq<Sample>, n: int, t0: int)
    ensures Series(StoredSamples(smp), n, Stored(t0)) == Series(smp, n, t0)
  {
    if smp != [] {
      SeriesOfStored(smp[..|smp|-1], n, t0);
      assert StoredSamples(smp)[..|smp|-1] == StoredSamples(smp[..|smp|-1]);
      RegDcrOfStored(smp[|smp|-1], n);
      SinceMsOfStored(smp[|smp|-1].ts, t0);
    }
  }

  lemma {:induction false} AutoValueOfStored(pre: seq<Sample>, n: int)
    ensures AutoValue(StoredSamples(pre), n) == AutoValue(pre, n)
  {
    if pre != [] {
      AutoValueOfStored(pre[..|pre|-1], n);
      assert StoredSamples(pre)[..|pre|-1] == StoredSamples(pre[..|pre|-1]);
      RegDcrOfStored(pre[|pre|-1], n);
    }
  }

  lemma AutoValuesOfStored(ch: int, pre: seq<Sample>)
    ensures AutoValues(ch, StoredSamples(pre)) == AutoValues(ch, pre)
  {
    forall k | 0 <= k < |JudgedRegs(ch)|
      ensures AutoValues(ch, StoredSamples(pre))[k] == AutoValues(ch, pre)[k]
    {
      AutoValueOfStored(pre, JudgedRegs(ch)[k]);
    }
  }

  lemma InputsOfStored(ch: int, smp: seq<Sample>)
    ensures Inputs(ch, StoredSamples(smp)) == StoredTemps(Inputs(ch, smp))
  {
    forall i | 0 <= i < |smp|
      ensures TableInput(ch, StoredSample(smp[i])) == StoredTemp(TableInput(ch, smp[i]))
    {
    }
  }

  /** The table input of the channel is stable in every sample: storing it with one decimal changes
    no comparison with a step. */
  ghost predicate AllStable(ch: int, smp: seq<Sample>) {
    forall i :: 0 <= i < |smp| ==> Stable(ch, TableInput(ch, smp[i]))
  }

  /** ... in every sample of the hand-back test. */
  ghost predicate HandbackStable(ch: int, smp: seq<Sample>) {
    forall i :: 0 <= i < |smp| && InHandback(smp[i].phase) ==> Stable(ch, TableInput(ch, smp[i]))
  }

  lemma {:induction false} PhaseStable(ch: int, smp: seq<Sample>, phase: Phase)
    requires HandbackStable(ch, smp) && InHandback(phase)
    ensures AllStable(ch, PhaseSamples(smp, phase))
  {
    if smp != [] {
      PhaseStable(ch, smp[..|smp|-1], phase);
    }
  }

  /** Samples with at most one decimal are stable. */
  lemma RepresentableIsStable(ch: int, smp: seq<Sample>)
    requires AllRepresentable(smp)
    ensures AllStable(ch, smp)
  {
    forall i | 0 <= i < |smp|
      ensures Stable(ch, TableInput(ch, smp[i]))
    {
      TenthsAreStable(ch, TableInput(ch, smp[i]));
    }
  }

  /** The inputs that a sub-run saw: first in its hold, then in its log. */
  function SubInputs(ch: int, hold: seq<Sample>, auto: seq<Sample>): seq<Temp> {
    Inputs(ch, hold) + Inputs(ch, auto)
  }

  lemma SubCrossedExact(ch: int, hold: seq<Sample>, auto: seq<Sample>)
    ensures InputCrossed(ch, SubInputs(ch, hold, auto)) <==> CrossedIn(ch, hold + auto)
  {
    assert SubInputs(ch, hold, auto) == Inputs(ch, hold + auto);
    CrossedExact(ch, hold + auto);
  }

  lemma SubInputsOfStored(ch: int, hold: seq<Sample>, auto: seq<Sample>)
    ensures SubInputs(ch, StoredSamples(hold), StoredSamples(auto)) == StoredTemps(SubInputs(ch, hold, auto))
  {
    InputsOfStored(ch, hold);
    InputsOfStored(ch, auto);
  }

  lemma RunsForStored(ch: int, sub: Label, written: int, auto: seq<Sample>, t0: int, a: seq<Option<int>>, crossed: bool)
    requires |a| == |JudgedRegs(ch)|
    ensures RunsFor(ch, sub, written, StoredSamples(auto), Stored(t0), a, crossed) ==
            RunsFor(ch, sub, written, auto, t0, a, crossed)
  {
    forall k | 0 <= k < |JudgedRegs(ch)|
      ensures Series(StoredSamples(auto), JudgedRegs(ch)[k], Stored(t0)) == Series(auto, JudgedRegs(ch)[k], t0)
    {
      SeriesOfStored(auto, JudgedRegs(ch)[k], t0);
    }
  }

  /** The stored sub-run, before its crossing is decided: everything else is kept. */
  lemma SubEvaluationSplit(ch: int, sub: Label, written: int, hold: seq<Sample>, auto: seq<Sample>, t0: int,
                           a: seq<Option<int>>, preCrossed: bool)
    requires |a| == |JudgedRegs(ch)|
    ensures SubEvaluation(ch, sub, written, StoredSamples(hold), StoredSamples(auto), Stored(t0), a, preCrossed)
            == EvaluationRegs(RunsFor(ch, sub, written, auto, t0, a,
                                      preCrossed || StoredCrosses(ch, SubInputs(ch, hold, auto))))
  {
    SubInputsOfStored(ch, hold, auto);
    CrossingOfStored(ch, SubInputs(ch, hold, auto));
    RunsForStored(ch, sub, written, auto, t0, a, preCrossed || StoredCrosses(ch, SubInputs(ch, hold, auto)));
  }

  /** The result of a sub-run is the same on the stored samples and the stored time of the command,
    for all inputs that are stable. */
  lemma SubEvaluationOfStored(ch: int, sub: Label, written: int, hold: seq<Sample>, auto: seq<Sample>, t0: int,
                              a: seq<Option<int>>, preCrossed: bool)
    requires |a| == |JudgedRegs(ch)| && AllStable(ch, hold) && AllStable(ch, auto)
    ensures SubEvaluation(ch, sub, written, StoredSamples(hold), StoredSamples(auto), Stored(t0), a, preCrossed)
            == SubEvaluation(ch, sub, written, hold, auto, t0, a, preCrossed)
  {
    SubEvaluationSplit(ch, sub, written, hold, auto, t0, a, preCrossed);
    CrossingOfStored(ch, SubInputs(ch, hold, auto));
    StableKeepsCrossing(ch, SubInputs(ch, hold, auto));
  }

  // ---- what a sub-run's result says --------------------------------------------------------

  /** Sample i shows register n at least 16 counts off the written value, at most 60 s after the
    auto command. */
  predicate LeavesAt(auto: seq<Sample>, n: int, t0: int, written: int, i: int) {
    && 0 <= i < |auto| && RegDcr(auto[i], n) >= 0
    && Abs(RegDcr(auto[i], n) - written) >= 16
    && SinceMs(auto[i].ts, t0) <= 60_000
  }

  lemma {:induction false} SeriesFrom(smp: seq<Sample>, n: int, t0: int, j: int)
    requires 0 <= j < |Series(smp, n, t0)|
    ensures exists i :: 0 <= i < |smp| && RegDcr(smp[i], n) >= 0
                        && Series(smp, n, t0)[j] == DcrSample(SinceMs(smp[i].ts, t0), RegDcr(smp[i], n))
  {
    var init := smp[..|smp|-1];
    if j < |Series(init, n, t0)| {
      SeriesFrom(init, n, t0, j);
      var i :| 0 <= i < |init| && RegDcr(init[i], n) >= 0
               && Series(init, n, t0)[j] == DcrSample(SinceMs(init[i].ts, t0), RegDcr(init[i], n));
      assert smp[i] == init[i];
    } else {
      assert RegDcr(smp[|smp|-1], n) >= 0;
    }
  }

  lemma {:induction false} SeriesHas(smp: seq<Sample>, n: int, t0: int, i: int)
    requires 0 <= i < |smp| && RegDcr(smp[i], n) >= 0
    ensures exists j :: 0 <= j < |Series(smp, n, t0)|
                        && Series(smp, n, t0)[j] == DcrSample(SinceMs(smp[i].ts, t0), RegDcr(smp[i], n))
  {
    var init := smp[..|smp|-1];
    if i < |init| {
      SeriesHas(init, n, t0, i);
      var j :| 0 <= j < |Series(init, n, t0)|
               && Series(init, n, t0)[j] == DcrSample(SinceMs(smp[i].ts, t0), RegDcr(smp[i], n));
      assert Series(smp, n, t0)[j] == Series(init, n, t0)[j];
    } else {
      assert Series(smp, n, t0)[|Series(init, n, t0)|] == DcrSample(SinceMs(smp[i].ts, t0), RegDcr(smp[i], n));
    }
  }

  lemma LeftInTimeExact(r: HandbackRun, auto: seq<Sample>, n: int, t0: int)
    requires r.samples == Series(auto, n, t0)
    ensures LeftInTime(r) <==> exists i :: LeavesAt(auto, n, t0, r.written, i)
  {
    if LeftInTime(r) {
      var j :| Leaves(r, j) && r.samples[j].t <= LEAVE_WITHIN_S * MS_PER_S;
      SeriesFrom(auto, n, t0, j);
      var i :| 0 <= i < |auto| && RegDcr(auto[i], n) >= 0
               && r.samples[j] == DcrSample(SinceMs(auto[i].ts, t0), RegDcr(auto[i], n));
      assert LeavesAt(auto, n, t0, r.written, i);
    }
    forall i | LeavesAt(auto, n, t0, r.written, i)
      ensures LeftInTime(r)
    {
      SeriesHas(auto, n, t0, i);
      var j :| 0 <= j < |r.samples| && r.samples[j] == DcrSample(SinceMs(auto[i].ts, t0), RegDcr(auto[i], n));
      assert Leaves(r, j);
    }
  }

  /** What T2 asks of one judged register. */
  ghost predicate RegisterLeaves(auto: seq<Sample>, n: int, t0: int, written: int, a: Option<int>) {
    && (a.Some? ==> Abs(written - a.value) >= 16)
    && exists i :: LeavesAt(auto, n, t0, written, i)
  }

  lemma RegisterPasses(r: HandbackRun, auto: seq<Sample>, n: int, t0: int)
    requires r.samples == Series(auto, n, t0) && r.timingKnown
    ensures T2Of(r) == Pass <==> !r.crossed && RegisterLeaves(auto, n, t0, r.written, r.auto)
  {
    LeftInTimeExact(r, auto, n, t0);
  }

  /** A sub-run passes T2 if and only if its table input crossed no step, neither in the window of A
    nor since the write, and every judged register of the channel has a sample that left the written
    value within 60 s, which is not within 16 counts of the automatic value. */
  lemma SubRunPasses(ch: int, sub: Label, written: int, hold: seq<Sample>, auto: seq<Sample>, t0: int,
                     a: seq<Option<int>>, preCrossed: bool)
    requires |a| == |JudgedRegs(ch)|
    ensures SubEvaluation(ch, sub, written, hold, auto, t0, a, preCrossed).t2 == Pass <==>
              && 1 <= ch <= 4 && !preCrossed && !CrossedIn(ch, hold + auto)
              && forall k :: 0 <= k < |a| ==> RegisterLeaves(auto, JudgedRegs(ch)[k], t0, written, a[k])
  {
    var crossed := preCrossed || InputCrossed(ch, SubInputs(ch, hold, auto));
    SubCrossedExact(ch, hold, auto);
    var runs := RunsFor(ch, sub, written, auto, t0, a, crossed);
    MergedExact(T2, runs, Pass);
    forall k | 0 <= k < |runs|
      ensures RuleOf(T2, runs[k]) == Pass <==> !crossed && RegisterLeaves(auto, JudgedRegs(ch)[k], t0, written, a[k])
    {
      RegisterPasses(runs[k], auto, JudgedRegs(ch)[k], t0);
    }
  }

  // ---- when storing changes a result ----------------------------------------------------------

  predicate BothUndecided(r: SubResult) {
    r.t2 == Inconclusive && r.t3 == Inconclusive
  }

  /** A crossing takes nothing but the verdicts of a register. */
  lemma CrossingDecides(r: HandbackRun)
    requires !r.crossed
    ensures Evaluation(r.(crossed := true)) == Evaluation(r) <==> BothUndecided(Evaluation(r))
    ensures BothUndecided(Evaluation(r.(crossed := true)))
  {
    var c := r.(crossed := true);
    var e := Evaluation(r).(t2 := Inconclusive, t3 := Inconclusive);
    assert forall i :: Leaves(c, i) <==> Leaves(r, i);
    assert Evaluates(c, e);
    EvaluatesOnce(c, e, Evaluation(c));
  }

  /** Some judged register is decided when no crossing is taken into account. */
  ghost predicate Decided(ch: int, sub: Label, written: int, auto: seq<Sample>, t0: int, a: seq<Option<int>>)
    requires |a| == |JudgedRegs(ch)|
  {
    var runs := RunsFor(ch, sub, written, auto, t0, a, false);
    exists k :: 0 <= k < |runs| && !BothUndecided(Evaluation(runs[k]))
  }

  lemma CrossingMatters(ch: int, sub: Label, written: int, auto: seq<Sample>, t0: int, a: seq<Option<int>>)
    requires |a| == |JudgedRegs(ch)|
    ensures EvaluationRegs(RunsFor(ch, sub, written, auto, t0, a, true))
            == EvaluationRegs(RunsFor(ch, sub, written, auto, t0, a, false))
            <==> !Decided(ch, sub, written, auto, t0, a)
  {
    var with, without := RunsFor(ch, sub, written, auto, t0, a, true), RunsFor(ch, sub, written, auto, t0, a, false);
    forall k | 0 <= k < |with|
      ensures Evaluation(with[k]) == Evaluation(without[k]) <==> BothUndecided(Evaluation(without[k]))
    {
      assert with[k] == without[k].(crossed := true);
      CrossingDecides(without[k]);
    }
    RegsOfMerged(Evaluations(with));
    RegsOfMerged(Evaluations(without));
    if !Decided(ch, sub, written, auto, t0, a) {
      assert Evaluations(with) == Evaluations(without);
    }
  }

  lemma RegsOfMerged(all: seq<SubResult>)
    ensures MergeResults(all).regs == all
  {
  }

  /** Storing changes the result of a sub-run if and only if it changes whether the input crossed a
    step, no crossing in the window of A decides that already, and some register is decided. */
  lemma StoringChangesExact(ch: int, sub: Label, written: int, hold: seq<Sample>, auto: seq<Sample>, t0: int,
                            a: seq<Option<int>>, preCrossed: bool)
    requires |a| == |JudgedRegs(ch)|
    ensures SubEvaluation(ch, sub, written, StoredSamples(hold), StoredSamples(auto), Stored(t0), a, preCrossed)
            != SubEvaluation(ch, sub, written, hold, auto, t0, a, preCrossed)
            <==> && !preCrossed
                 && StoredCrosses(ch, SubInputs(ch, hold, auto)) != InputCrossed(ch, SubInputs(ch, hold, auto))
                 && Decided(ch, sub, written, auto, t0, a)
  {
    SubEvaluationSplit(ch, sub, written, hold, auto, t0, a, preCrossed);
    CrossingMatters(ch, sub, written, auto, t0, a);
  }

  const COOL: Sample := Sample(0, T2Hold(1, H), 2, 255, [-1, 255, -1, -1, -1], [-1, -1, -1],
                               None, None, Some(59_900), None, None, None, None)
  const WARM: Sample := Sample(30 * NS_PER_S, T2Auto(1, H), 2, -1, [-1, 100, -1, -1, -1], [-1, -1, -1],
                               None, None, Some(61_960), None, None, None, None)

  lemma OnlyStoredCrosses()
    ensures !InputCrossed(2, SubInputs(2, [COOL], [WARM]))
    ensures InputCrossed(2, SubInputs(2, StoredSamples([COOL]), StoredSamples([WARM])))
  {
    assert SubInputs(2, [COOL], [WARM]) == [Some(59_900), Some(61_960)];
    PairCrossing(2, 59_900, 61_960);
    assert StoredAcross(59_900, StepBoundaries(2)[0], 61_960);
    SubInputsOfStored(2, [COOL], [WARM]);
    CrossingOfStored(2, SubInputs(2, [COOL], [WARM]));
  }

  /** It does: board inputs of 59.90 C and then 61.96 C cross nothing, their stored 59.9 C and
    62.0 C cross the step at 60 C, so a T2 PASS of pwm2 is rebuilt as undecided. */
  lemma StoredInputCanCross()
    ensures SubEvaluation(2, H, 255, [COOL], [WARM], 0, [None], false).t2 == Pass
    ensures SubEvaluation(2, H, 255, StoredSamples([COOL]), StoredSamples([WARM]), Stored(0), [None], false).t2 != Pass
  {
    OnlyStoredCrosses();
    SinceThirty();
    assert LeavesAt([WARM], 2, 0, 255, 0);
    assert RegisterLeaves([WARM], 2, 0, 255, None);
    SubRunPasses(2, H, 255, [COOL], [WARM], 0, [None], false);
    SubRunPasses(2, H, 255, StoredSamples([COOL]), StoredSamples([WARM]), Stored(0), [None], false);
  }

  lemma SinceThirty()
    ensures SinceMs(30 * NS_PER_S, 0) == 30_000
  {
    assert 30 * NS_PER_S == 30_000 * NS_PER_MS;
    RoundMsExact(30_000);
    RoundMsExact(0);
    assert Stored(30 * NS_PER_S) - Stored(0) == 30_000 * NS_PER_MS;
  }
}
