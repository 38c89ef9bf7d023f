/** What storing a log does to the T1 verdict the report computes from it: for every log, the exact
  condition under which it stays what the exact log gives. */
module StoredMapping {
  import opened Wrappers
  import opened StoredTime
  import opened RunLog
  import opened SpecRules
  import opened StoredInputs
  import opened Mapping
  import opened RecomputeMapping
  import HandbackData

  // ---- rows ------------------------------------------------------------------------

  function StoredAt(t: Option<int>): Option<int> {
    if t.Some? then Some(Stored(t.value)) else None
  }

  /** Storing changes nothing but the table inputs of a row, */
  function StoredRow(r: FullRow): FullRow {
    r.(inputs := StoredTemps(r.inputs))
  }

  function StoredRows(rows: seq<FullRow>): (r: seq<FullRow>)
    ensures |r| == |rows| && forall i :: 0 <= i < |r| ==> r[i] == StoredRow(rows[i])
  {
    seq(|rows|, i requires 0 <= i < |rows| => StoredRow(rows[i]))
  }

  function StoredSteps(steps: seq<Step>): (r: seq<Step>)
    ensures |r| == |steps| && forall k :: 0 <= k < |r| ==> r[k] == Step(steps[k].duty, StoredRows(steps[k].rows))
  {
    seq(|steps|, k requires 0 <= k < |steps| => Step(steps[k].duty, StoredRows(steps[k].rows)))
  }

  /** ... and so of the data of a test. */
  function StoredData(d: Data): Data {
    d.(rest := StoredRows(d.rest), steps := StoredSteps(d.steps))
  }

  lemma RowOfStored(s: Sample, t0: Option<int>)
    ensures RowOf(StoredSample(s), StoredAt(t0)) == StoredRow(RowOf(s, t0))
  {
    if t0.Some? {
      SinceMsOfStored(s.ts, t0.value);
    }
    assert forall f :: 1 <= f <= 3 ==> FanOf(StoredSample(s), f) == FanOf(s, f);
    assert forall n :: 1 <= n <= 5 ==> RegDcr(StoredSample(s), n) == RegDcr(s, n);
  }

  lemma RowsOfStored(smp: seq<Sample>, t0: Option<int>)
    ensures RowsOf(StoredSamples(smp), StoredAt(t0)) == StoredRows(RowsOf(smp, t0))
  {
    forall i | 0 <= i < |smp|
      ensures RowOf(StoredSample(smp[i]), StoredAt(t0)) == StoredRow(RowOf(smp[i], t0))
    {
      RowOfStored(smp[i], t0);
    }
  }

  // ---- the data of a log ---------------------------------------------------------------

  /** The writes of the log are not before the start of the run. */
  predicate Timed(ev: seq<Event>) {
    forall i :: 0 <= i < |ev| && ev[i].text.Wrote? ==> ev[i].ts >= 0
  }

  lemma {:induction false} WriteTimeOfStored(ev: seq<Event>, ch: int, duty: int)
    requires Timed(ev)
    ensures WriteTime(StoredEvents(ev), ch, duty) == StoredAt(WriteTime(ev, ch, duty))
  {
    if ev != [] {
      WriteTimeOfStored(ev[..|ev|-1], ch, duty);
      assert StoredEvents(ev)[..|ev|-1] == StoredEvents(ev[..|ev|-1]);
      if ev[|ev|-1].ts >= 0 {
        RoundMsMonotone(0, ev[|ev|-1].ts);
      }
    }
  }

  /** Only the writes and the end of T1 in a log need to be timed. */
  lemma WriteTimeOfLog(ev: seq<Event>, ch: int, duty: int)
    requires Timed(T1Events(ev))
    ensures WriteTime(StoredEvents(ev), ch, duty) == StoredAt(WriteTime(ev, ch, duty))
  {
    OnlyT1Events(ev, ch, duty);
    OnlyT1Events(StoredEvents(ev), ch, duty);
    T1EventsOfStored(ev);
    WriteTimeOfStored(T1Events(ev), ch, duty);
  }

  lemma StepOfStored(ch: int, smp: seq<Sample>, ev: seq<Event>, duty: int)
    requires Timed(T1Events(ev))
    ensures StepOfLog(ch, StoredSamples(smp), StoredEvents(ev), duty)
            == Step(duty, StoredRows(StepOfLog(ch, smp, ev, duty).rows))
  {
    PhaseSamplesOfStored(smp, T1Step(duty));
    WriteTimeOfLog(ev, ch, duty);
    RowsOfStored(PhaseSamples(smp, T1Step(duty)), WriteTime(ev, ch, duty));
  }

  lemma DataOfStored(ch: int, smp: seq<Sample>, ev: seq<Event>)
    requires Timed(T1Events(ev))
    ensures DataOfLog(ch, StoredSamples(smp), StoredEvents(ev)) == StoredData(DataOfLog(ch, smp, ev))
  {
    PhaseSamplesOfStored(smp, T1Rest);
    RowsOfStored(PhaseSamples(smp, T1Rest), None);
    var got, want := DataOfLog(ch, StoredSamples(smp), StoredEvents(ev)), StoredData(DataOfLog(ch, smp, ev));
    forall k | 0 <= k < |T1_STEPS|
      ensures got.steps[k] == want.steps[k]
    {
      StepOfStored(ch, smp, ev, T1_STEPS[k]);
    }
    assert got.steps == want.steps;
  }

  lemma CompleteOfStored(ev: seq<Event>)
    ensures HasComplete(StoredEvents(ev)) <==> HasComplete(ev)
  {
    if HasComplete(ev) {
      var i :| 0 <= i < |ev| && ev[i].text.T1Complete?;
      assert StoredEvents(ev)[i].text.T1Complete?;
    }
  }

  // ---- the verdict -----------------------------------------------------------------------

  /** Something other than a crossing keeps the test from being decided. */
  predicate Undecided(d: Data)
    requires d.Valid()
  {
    !d.DcrKnown() || d.OtherMissing() || d.NoisyRest() || !OwnFalls(d.own, d.steps)
  }

  /** Of the crossings the verdict only depends on whether there is one. */
  lemma VerdictInShort(d: Data)
    requires d.Valid()
    ensures T1Of(d) == if d.Differs() then Fail
                       else if d.AnyCrossed() then Inconclusive
                       else if d.OtherMoved() then Fail
                       else if Undecided(d) then Inconclusive
                       else Pass
  {
  }

  lemma SameJudged(ch: int, n: int, base: int, st: Step, st': Step)
    requires 1 <= n <= 5 && st' == Step(st.duty, StoredRows(st.rows))
    ensures StepDiffers(ch, n, st') == StepDiffers(ch, n, st)
    ensures StepKnown(ch, n, st') == StepKnown(ch, n, st)
    ensures StepMoved(ch, n, base, st') == StepMoved(ch, n, base, st)
  {
    assert forall i :: 0 <= i < |st.rows| ==> st'.rows[i] == StoredRow(st.rows[i]);
    assert forall i :: 0 <= i < |st.rows| ==> (JudgedRow(ch, st'.rows[i]) <==> JudgedRow(ch, st.rows[i]));
  }

  lemma SameSeries(rows: seq<FullRow>)
    ensures forall n :: 1 <= n <= 5 ==> DcrSeries(StoredRows(rows), n) == DcrSeries(rows, n)
    ensures forall f :: 1 <= f <= 3 ==> FanSeries(StoredRows(rows), f) == FanSeries(rows, f)
  {
  }

  lemma SameRegisters(d: Data)
    requires d.Valid()
    ensures var s := StoredData(d);
            && s.Differs() == d.Differs() && s.DcrKnown() == d.DcrKnown()
            && s.OtherMoved() == d.OtherMoved() && s.OtherMissing() == d.OtherMissing()
  {
    var s := StoredData(d);
    SameSeries(d.rest);
    forall n, base, k | 1 <= n <= 5 && 0 <= k < |d.steps|
      ensures StepDiffers(d.ch, n, s.steps[k]) == StepDiffers(d.ch, n, d.steps[k])
      ensures StepKnown(d.ch, n, s.steps[k]) == StepKnown(d.ch, n, d.steps[k])
      ensures StepMoved(d.ch, n, base, s.steps[k]) == StepMoved(d.ch, n, base, d.steps[k])
    {
      SameJudged(d.ch, n, base, d.steps[k], s.steps[k]);
    }
  }

  lemma SameTachs(d: Data)
    requires d.Valid()
    ensures StoredData(d).NoisyRest() == d.NoisyRest()
    ensures OwnFalls(d.own, StoredData(d).steps) == OwnFalls(d.own, d.steps)
  {
    SameSeries(d.rest);
    forall k | 0 <= k < |d.steps|
      ensures forall f :: 1 <= f <= 3 ==> FanSeries(StoredData(d).steps[k].rows, f) == FanSeries(d.steps[k].rows, f)
    {
      SameSeries(d.steps[k].rows);
    }
    if d.own > 0 {
      assert forall k :: 0 <= k < |d.steps| ==>
             EndRpm(StoredData(d).steps[k].rows, d.own) == EndRpm(d.steps[k].rows, d.own);
      assert forall k :: 0 <= k < |d.steps| ==> (Falls(d.own, StoredData(d).steps, k) <==> Falls(d.own, d.steps, k));
    }
  }

  /** Storing keeps whether a table input of another channel crossed a step, or the verdict does not
    depend on it: a judged register differs, or the test is undecided anyway while no other register
    moved. */
  predicate DataKept(d: Data)
    requires d.Valid()
  {
    || (StoredData(d).AnyCrossed() <==> d.AnyCrossed())
    || d.Differs()
    || (Undecided(d) && !d.OtherMoved())
  }

  /** Exactly then the verdict is the same on the stored data. */
  lemma StoredVerdictExact(d: Data)
    requires d.Valid()
    ensures T1Of(StoredData(d)) == T1Of(d) <==> DataKept(d)
  {
    VerdictInShort(d);
    VerdictInShort(StoredData(d));
    SameRegisters(d);
    SameTachs(d);
  }

  predicate Kept(ch: int, smp: seq<Sample>, ev: seq<Event>)
    requires 1 <= ch <= 4
  {
    HasComplete(ev) ==> DataKept(DataOfLog(ch, smp, ev))
  }

  /** For every log whose writes are timed: the report computes from the stored samples and events the
    verdict it would compute from the exact ones if and only if storing keeps the crossing or the
    verdict does not depend on it. */
  lemma StoringKeepsExactly(ch: int, smp: seq<Sample>, ev: seq<Event>)
    requires 1 <= ch <= 4 && Timed(T1Events(ev))
    ensures Recomputed(ch, StoredSamples(smp), StoredEvents(ev)) == Recomputed(ch, smp, ev) <==> Kept(ch, smp, ev)
  {
    DataOfStored(ch, smp, ev);
    CompleteOfStored(ev);
    StoredVerdictExact(DataOfLog(ch, smp, ev));
  }

  // ---- readings for which it does -----------------------------------------------------------

  lemma RoundTenthClose(v: int)
    ensures v - HALF <= RoundTenth(v) <= v + HALF
  {
  }

  /** Two sums of n values are at most n halves of a tenth apart. */
  predicate SumsClose(s: int, s': int, n: nat) {
    s - HALF * n <= s' <= s + HALF * n
  }

  lemma SumsCloseStep(s: int, s': int, n: nat, v: int)
    requires SumsClose(s, s', n)
    ensures SumsClose(s + v, s' + RoundTenth(v), n + 1)
  {
    RoundTenthClose(v);
  }

  lemma {:induction false} SumOfStored(v: seq<Temp>)
    ensures Known(StoredTemps(v)) == Known(v)
    ensures SumsClose(Sum(v), Sum(StoredTemps(v)), Known(v))
  {
    if v != [] {
      SumOfStored(v[..|v|-1]);
      assert StoredTemps(v)[..|v|-1] == StoredTemps(v[..|v|-1]);
      if v[|v|-1].Some? {
        SumsCloseStep(Sum(v[..|v|-1]), Sum(StoredTemps(v[..|v|-1])), Known(v[..|v|-1]), v[|v|-1].value);
      }
    }
  }

  lemma Quotient(a: int, b: int, n: nat)
    requires n > 0 && SumsClose(b, a, n)
    ensures b as real / n as real - HALF as real <= a as real / n as real <= b as real / n as real + HALF as real
  {
    var x, y := a as real / n as real, b as real / n as real;
    assert a as real == x * n as real && b as real == y * n as real;
  }

  /** The mean of stored readings is off the exact one by at most half a tenth. */
  lemma MeanOfStored(v: seq<Temp>)
    ensures Mean(StoredTemps(v)).Some? <==> Mean(v).Some?
    ensures Mean(v).Some? ==> Mean(v).value - HALF as real <= Mean(StoredTemps(v)).value <= Mean(v).value + HALF as real
  {
    SumOfStored(v);
    if Known(v) > 0 {
      Quotient(Sum(StoredTemps(v)), Sum(v), Known(v));
    }
  }

  /** Two references lie on the same side of every step. */
  predicate SameSide(oc: int, ref: Option<real>, ref': Option<real>) {
    && (ref.Some? <==> ref'.Some?)
    && (ref.Some? ==> forall b :: 0 <= b < |StepBoundaries(oc)| ==>
                        (ref'.value < StepBoundaries(oc)[b] as real <==> ref.value < StepBoundaries(oc)[b] as real))
  }

  /** The mean at rest of another channel stays on its side of every step when it is at least half a
    tenth away from all of them. */
  lemma FarStaysOnItsSide(oc: int, v: seq<Temp>)
    requires Mean(v).Some? ==> forall b :: 0 <= b < |StepBoundaries(oc)| ==>
               || Mean(v).value < (StepBoundaries(oc)[b] - HALF) as real
               || Mean(v).value >= (StepBoundaries(oc)[b] + HALF) as real
    ensures SameSide(oc, Mean(v), Mean(StoredTemps(v)))
  {
    MeanOfStored(v);
  }

  /** A reading is stored on the side of both thresholds of every step on which it is. */
  predicate StableReading(oc: int, v: Temp) {
    v.Some? ==>
      forall b :: 0 <= b < |StepBoundaries(oc)| ==>
        var s := StepBoundaries(oc)[b];
        !(s + CROSSING - HALF <= v.value < s + CROSSING) && !(s - CROSSING < v.value <= s - CROSSING + HALF)
  }

  lemma ReadingKept(oc: int, ref: Option<real>, ref': Option<real>, v: Temp)
    requires SameSide(oc, ref, ref') && StableReading(oc, v)
    ensures CrossesValue(oc, ref', StoredTemp(v)) <==> CrossesValue(oc, ref, v)
  {
    if ref.Some? && v.Some? {
      forall b | 0 <= b < |StepBoundaries(oc)|
        ensures Across(ref'.value, StepBoundaries(oc)[b], RoundTenth(v.value)) <==>
                Across(ref.value, StepBoundaries(oc)[b], v.value)
      {
        BoundariesEven(oc, b);
        RoundTenthSide(v.value, StepBoundaries(oc)[b] + CROSSING);
        RoundTenthSide(v.value, StepBoundaries(oc)[b] - CROSSING);
      }
    }
  }

  /** The table inputs of the other channels: at rest their mean stays on its side of every step, and
    the readings of the steps are stable. */
  predicate DataStable(d: Data)
    requires d.Valid()
  {
    forall oc :: 1 <= oc <= 3 && oc != d.ch ==>
      && SameSide(oc, Mean(InputSeries(d.rest, oc)), Mean(StoredTemps(InputSeries(d.rest, oc))))
      && forall k, i :: 0 <= k < |d.steps| && 0 <= i < |d.steps[k].rows| ==>
          StableReading(oc, d.steps[k].rows[i].inputs[oc-1])
  }

  lemma InputsOfStored(rows: seq<FullRow>, oc: int)
    requires 1 <= oc <= 3
    ensures InputSeries(StoredRows(rows), oc) == StoredTemps(InputSeries(rows, oc))
  {
  }

  /** Such data are kept by storing. */
  lemma StableIsKept(d: Data)
    requires d.Valid() && DataStable(d)
    ensures StoredData(d).AnyCrossed() <==> d.AnyCrossed()
  {
    var s := StoredData(d);
    AnyCrossedExact(d);
    AnyCrossedExact(s);
    forall oc, k, i | 1 <= oc <= 3 && oc != d.ch && 0 <= k < |d.steps| && 0 <= i < |d.steps[k].rows|
      ensures CrossesAt(s, oc, k, i) <==> CrossesAt(d, oc, k, i)
    {
      InputsOfStored(d.rest, oc);
      ReadingKept(oc, Mean(InputSeries(d.rest, oc)), Mean(InputSeries(s.rest, oc)), d.steps[k].rows[i].inputs[oc-1]);
    }
  }

  lemma RowsStable(smp: seq<Sample>, phase: Phase, t0: Option<int>, oc: int)
    requires HandbackData.AllRepresentable(smp) && 1 <= oc <= 3
    ensures StoredTemps(InputSeries(RowsOf(PhaseSamples(smp, phase), t0), oc)) ==
            InputSeries(RowsOf(PhaseSamples(smp, phase), t0), oc)
  {
    HandbackData.PhaseRepresentable(smp, phase);
  }

  lemma SeriesStable(rows: seq<FullRow>, oc: int)
    requires 1 <= oc <= 3 && StoredTemps(InputSeries(rows, oc)) == InputSeries(rows, oc)
    ensures forall i :: 0 <= i < |rows| ==> StableReading(oc, rows[i].inputs[oc-1])
  {
    forall i | 0 <= i < |rows|
      ensures StableReading(oc, rows[i].inputs[oc-1])
    {
      assert InputSeries(rows, oc)[i] == StoredTemps(InputSeries(rows, oc))[i];
      TenthsAreStable(oc, rows[i].inputs[oc-1]);
    }
  }

  /** Readings with at most one decimal are such data. */
  lemma RepresentableIsStable(ch: int, smp: seq<Sample>, ev: seq<Event>)
    requires 1 <= ch <= 4 && HandbackData.AllRepresentable(smp)
    ensures DataStable(DataOfLog(ch, smp, ev))
  {
    var d := DataOfLog(ch, smp, ev);
    forall oc | 1 <= oc <= 3
      ensures SameSide(oc, Mean(InputSeries(d.rest, oc)), Mean(StoredTemps(InputSeries(d.rest, oc))))
      ensures forall k, i :: 0 <= k < |d.steps| && 0 <= i < |d.steps[k].rows| ==>
              StableReading(oc, d.steps[k].rows[i].inputs[oc-1])
    {
      RowsStable(smp, T1Rest, None, oc);
      forall k | 0 <= k < |d.steps|
        ensures forall i :: 0 <= i < |d.steps[k].rows| ==> StableReading(oc, d.steps[k].rows[i].inputs[oc-1])
      {
        RowsStable(smp, T1Step(T1_STEPS[k]), WriteTime(ev, ch, T1_STEPS[k]), oc);
        SeriesStable(d.steps[k].rows, oc);
      }
    }
  }

  // ---- it can change ---------------------------------------------------------------------------

  function ExampleRow(duty: int, board: int): FullRow {
    Row(None, [120, 120, 120, 120, duty], [None, None, None], [None, Some(board), None])
  }

  /** A test of pwm4 with board inputs of 59.90 C at rest and of 61.96 C in its steps. */
  const EXAMPLE: Data :=
    Data(4, 0, [ExampleRow(120, 59_900)],
         seq(|T1_STEPS|, k requires 0 <= k < |T1_STEPS| => Step(T1_STEPS[k], [ExampleRow(T1_STEPS[k], 61_960)])),
         TACHS)

  lemma ExampleMeans(n: int)
    requires 1 <= n <= 4
    ensures RestBase(EXAMPLE.rest, n) == Some(120)
    ensures Mean(InputSeries(EXAMPLE.rest, 2)) == Some(59_900 as real)
    ensures Mean(InputSeries(EXAMPLE.rest, 1)).None? && Mean(InputSeries(EXAMPLE.rest, 3)).None?
  {
    assert DcrSeries(EXAMPLE.rest, n) == [Some(120)];
    assert InputSeries(EXAMPLE.rest, 2) == [Some(59_900)];
    assert InputSeries(EXAMPLE.rest, 1) == [None];
    assert InputSeries(EXAMPLE.rest, 3) == [None];
    OneMean(120);
    OneMean(59_900);
    assert Known([None]) == 0;
  }

  lemma OneMean(v: int)
    ensures Mean([Some(v)]) == Some(v as real)
  {
    var one := [Some(v)];
    assert one[|one|-1] == Some(v) && one[..|one|-1] == [];
    assert Known(one) == 1 && Sum(one) == v;
  }

  lemma ExampleStays()
    ensures !EXAMPLE.AnyCrossed()
  {
    ExampleMeans(1);
    AnyCrossedExact(EXAMPLE);
    forall oc, k, i
      ensures !CrossesAt(EXAMPLE, oc, k, i)
    {
    }
  }

  lemma ExampleCrosses()
    ensures StoredData(EXAMPLE).AnyCrossed()
  {
    var d, s := EXAMPLE, StoredData(EXAMPLE);
    AnyCrossedExact(s);
    InputsOfStored(d.rest, 2);
    assert InputSeries(s.rest, 2) == [Some(59_900)];
    OneMean(59_900);
    assert s.steps[0].rows[0].inputs[1] == Some(62_000);
    assert Across(59_900 as real, StepBoundaries(2)[0], 62_000);
    assert CrossesAt(s, 2, 0, 0);
  }

  lemma ExampleStep(k: int)
    requires 0 <= k < |T1_STEPS|
    ensures Shows(4, 5, EXAMPLE.steps[k])
    ensures forall n :: 1 <= n <= 4 ==> Stays(4, n, 120, EXAMPLE.steps[k])
  {
    assert JudgedRow(4, EXAMPLE.steps[k].rows[0]);
  }

  lemma ExampleQuiet()
    ensures !EXAMPLE.NoisyRest()
  {
    forall i | 0 <= i < 3
      ensures !Noisy(FanSeries(EXAMPLE.rest, EXAMPLE.tachs[i]))
    {
      assert FanSeries(EXAMPLE.rest, EXAMPLE.tachs[i]) == [None];
    }
  }

  lemma ExamplePasses()
    ensures T1Of(EXAMPLE) == Pass
  {
    var d := EXAMPLE;
    ExampleStays();
    ExampleQuiet();
    forall n | 1 <= n <= 4
      ensures RestBase(d.rest, n) == Some(120)
    {
      ExampleMeans(n);
    }
    forall n, k | 1 <= n <= 5 && RegChannel(n) == 4 && 0 <= k < |d.steps|
      ensures Shows(4, n, d.steps[k])
    {
      ExampleStep(k);
    }
    forall n, k | 1 <= n <= 5 && RegChannel(n) != 4 && 0 <= k < |d.steps|
      ensures Stays(4, n, RestBase(d.rest, n).value, d.steps[k])
    {
      ExampleStep(k);
    }
    OwnExact(d);
    OthersExact(d);
    VerdictInShort(d);
  }

  /** Storing can change the verdict: this test passes, and the report calls it undecided. */
  lemma StoredVerdictCanChange()
    ensures T1Of(EXAMPLE) == Pass && T1Of(StoredData(EXAMPLE)) == Inconclusive
  {
    ExamplePasses();
    ExampleStays();
    ExampleCrosses();
    SameRegisters(EXAMPLE);
    VerdictInShort(EXAMPLE);
    VerdictInShort(StoredData(EXAMPLE));
  }
}
