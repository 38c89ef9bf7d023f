/** T1, the mapping test (EvalT1 in ectest/internal/spec/eval.go): the channel under test follows
  every written step, its own tach falls with it and nothing else moves.

  The criteria are stated over all samples at once; the methods decide them the way the tool
  does, register by register and step by step. */
module Mapping {
  import opened Wrappers
  import opened StoredTime
  import opened RunLog
  import opened SpecRules

  /** What the test uses of one sample: the time since the write of its step (None: the write is
    not in the log, every sample is judged), DCR1..DCR5 (-1: not read), the tachs and the table
    inputs of pwm1..pwm3. */
  datatype Row = Row(t: Option<int>, dcr: seq<int>, fan: seq<Option<int>>, inputs: seq<Temp>)

  type FullRow = r: Row | |r.dcr| == 5 && |r.fan| == 3 && |r.inputs| == 3
    witness Row(None, [-1, -1, -1, -1, -1], [None, None, None], [None, None, None])

  datatype Step = Step(duty: int, rows: seq<FullRow>)

  function Distance(a: int, b: int): nat {
    if a < b then b - a else a - b
  }

  // ---- means -----------------------------------------------------------------------

  function Known(v: seq<Option<int>>): nat {
    if v == [] then 0 else Known(v[..|v|-1]) + if v[|v|-1].Some? then 1 else 0
  }

  function Sum(v: seq<Option<int>>): int {
    if v == [] then 0 else Sum(v[..|v|-1]) + if v[|v|-1].Some? then v[|v|-1].value else 0
  }

  /** The mean of the known values. */
  function Mean(v: seq<Option<int>>): Option<real> {
    if Known(v) == 0 then None else Some(Sum(v) as real / Known(v) as real)
  }

  method MeanOf(v: seq<Option<int>>) returns (m: Option<real>)
    ensures m == Mean(v)
  {
    var sum: int, n: nat := 0, 0;
    for k := 0 to |v|
      invariant sum == Sum(v[..k]) && n == Known(v[..k])
    {
      assert v[..k+1][..k] == v[..k];
      if v[k].Some? {
        sum, n := sum + v[k].value, n + 1;
      }
    }
    assert v[..|v|] == v;
    if n == 0 {
      return None;
    }
    m := Some(sum as real / n as real);
  }

  /** A mean of non-negative values to the nearest integer, halves up. */
  function Round(m: real): int {
    (m + 0.5).Floor
  }

  // ---- the criteria ------------------------------------------------------------------

  /** A row is judged from 10 s after the write on for pwm3, and from 1 s on for the others, less 1 ms. */
  predicate JudgedRow(ch: int, r: FullRow): (j: bool)
    ensures j <==> (r.t.Some? ==> r.t.value >= if ch == 3 then 9_999 else 999)
  {
    r.t.Some? ==> Judged(ch, r.t.value)
  }

  predicate SomeJudged(ch: int, st: Step) {
    exists i :: 0 <= i < |st.rows| && JudgedRow(ch, st.rows[i])
  }

  /** Register n of a judged sample shows something else than the written duty. */
  predicate StepDiffers(ch: int, n: int, st: Step)
    requires 1 <= n <= 5
  {
    exists i :: 0 <= i < |st.rows| && JudgedRow(ch, st.rows[i]) && st.rows[i].dcr[n-1] >= 0
                && st.rows[i].dcr[n-1] != st.duty
  }

  /** Register n was read in every judged sample, and there is one. */
  predicate StepKnown(ch: int, n: int, st: Step)
    requires 1 <= n <= 5
  {
    SomeJudged(ch, st) && forall i :: 0 <= i < |st.rows| && JudgedRow(ch, st.rows[i]) ==> st.rows[i].dcr[n-1] >= 0
  }

  /** Register n of a judged sample is at least 16 counts away from base. */
  predicate StepMoved(ch: int, n: int, base: int, st: Step)
    requires 1 <= n <= 5
  {
    exists i :: 0 <= i < |st.rows| && JudgedRow(ch, st.rows[i]) && st.rows[i].dcr[n-1] >= 0
                && Distance(st.rows[i].dcr[n-1], base) >= T1_OTHER_DCR
  }

  predicate AnyDiffers(ch: int, n: int, steps: seq<Step>)
    requires 1 <= n <= 5
  {
    exists k :: 0 <= k < |steps| && StepDiffers(ch, n, steps[k])
  }

  predicate AllKnown(ch: int, n: int, steps: seq<Step>)
    requires 1 <= n <= 5
  {
    forall k :: 0 <= k < |steps| ==> StepKnown(ch, n, steps[k])
  }

  predicate AnyMoved(ch: int, n: int, base: int, steps: seq<Step>)
    requires 1 <= n <= 5
  {
    exists k :: 0 <= k < |steps| && StepMoved(ch, n, base, steps[k])
  }

  function DcrSeries(rows: seq<FullRow>, n: int): (v: seq<Option<int>>)
    requires 1 <= n <= 5
    ensures |v| == |rows|
  {
    seq(|rows|, i requires 0 <= i < |rows| => if rows[i].dcr[n-1] < 0 then None else Some(rows[i].dcr[n-1]))
  }

  function FanSeries(rows: seq<FullRow>, f: int): (v: seq<Option<int>>)
    requires 1 <= f <= 3
    ensures |v| == |rows|
  {
    seq(|rows|, i requires 0 <= i < |rows| => rows[i].fan[f-1])
  }

  function InputSeries(rows: seq<FullRow>, oc: int): (v: seq<Temp>)
    requires 1 <= oc <= 3
    ensures |v| == |rows|
  {
    seq(|rows|, i requires 0 <= i < |rows| => rows[i].inputs[oc-1])
  }

  function AllInputs(steps: seq<Step>, oc: int): seq<Temp>
    requires 1 <= oc <= 3
  {
    if steps == [] then [] else AllInputs(steps[..|steps|-1], oc) + InputSeries(steps[|steps|-1].rows, oc)
  }

  /** The rest value of a register: the rounded mean of its readings at rest. */
  function RestBase(rest: seq<FullRow>, n: int): Option<int>
    requires 1 <= n <= 5
  {
    var m := Mean(DcrSeries(rest, n));
    if m.None? then None else Some(Round(m.value))
  }

  /** An other register left its rest value. */
  predicate Moved(ch: int, rest: seq<FullRow>, steps: seq<Step>, n: int)
    requires 1 <= n <= 5
  {
    RestBase(rest, n).Some? && AnyMoved(ch, n, RestBase(rest, n).value, steps)
  }

  /** Whether an other register moved cannot be told. */
  predicate Missing(ch: int, rest: seq<FullRow>, steps: seq<Step>, n: int)
    requires 1 <= n <= 5
  {
    RestBase(rest, n).None? || !AllKnown(ch, n, steps)
  }

  /** The table input of channel oc crossed a step against its mean at rest. */
  predicate Crossed(rest: seq<FullRow>, steps: seq<Step>, oc: int)
    requires 1 <= oc <= 3
  {
    Crosses(oc, Mean(InputSeries(rest, oc)), AllInputs(steps, oc))
  }

  /** Two known readings are more than 50 rpm apart. */
  predicate Noisy(v: seq<Option<int>>) {
    exists i, j :: 0 <= i < |v| && 0 <= j < |v| && v[i].Some? && v[j].Some? && v[i].value - v[j].value > T1_OTHER_RPM
  }

  /** The rpm at the end of a step: the mean of its last three readings. */
  function EndRpm(rows: seq<FullRow>, own: int): Option<real>
    requires 1 <= own <= 3
  {
    var v := FanSeries(rows, own);
    Mean(if |v| > 3 then v[|v|-3..] else v)
  }

  predicate Falls(own: int, steps: seq<Step>, i: int)
    requires 1 <= own <= 3 && 0 <= i < |steps|
  {
    && EndRpm(steps[i].rows, own).Some?
    && (i > 0 && EndRpm(steps[i-1].rows, own).Some? ==>
          EndRpm(steps[i-1].rows, own).value - EndRpm(steps[i].rows, own).value >= T1_OWN_STEP_RPM as real)
  }

  /** The own tach is known at the end of every step and 200 rpm below the step before. */
  predicate OwnFalls(own: int, steps: seq<Step>)
    requires 0 <= own <= 3
  {
    own > 0 ==> forall i :: 0 <= i < |steps| ==> Falls(own, steps, i)
  }

  /** The data of one mapping test; own 0: the channel has no tach. */
  datatype Data = Data(ch: int, own: int, rest: seq<FullRow>, steps: seq<Step>, tachs: seq<int>)
  {
    predicate Valid() {
      && 1 <= ch <= 4 && 0 <= own <= 3
      && forall i :: 0 <= i < |tachs| ==> 1 <= tachs[i] <= 3
    }

    predicate Differs()
      requires Valid()
    {
      exists n :: 1 <= n <= 5 && RegChannel(n) == ch && AnyDiffers(ch, n, steps)
    }

    predicate DcrKnown()
      requires Valid()
    {
      forall n :: 1 <= n <= 5 && RegChannel(n) == ch ==> AllKnown(ch, n, steps)
    }

    predicate NoisyRest()
      requires Valid()
    {
      exists i :: 0 <= i < |tachs| && Noisy(FanSeries(rest, tachs[i]))
    }

    /** A duty register of channel oc, not the one under test, moved. */
    predicate MovedChannel(oc: int)
      requires Valid()
    {
      exists n :: 1 <= n <= 5 && RegChannel(n) == oc && oc != ch && Moved(ch, rest, steps, n)
    }

    predicate OtherMoved()
      requires Valid()
    {
      exists n :: 1 <= n <= 5 && RegChannel(n) != ch && Moved(ch, rest, steps, n)
    }

    predicate OtherMissing()
      requires Valid()
    {
      exists n :: 1 <= n <= 5 && RegChannel(n) != ch && Missing(ch, rest, steps, n)
    }

    predicate InputCrossed(oc: int)
      requires Valid() && 1 <= oc <= 3
    {
      oc != ch && Crossed(rest, steps, oc)
    }

    predicate AnyCrossed()
      requires Valid()
    {
      exists oc :: 1 <= oc <= 3 && InputCrossed(oc)
    }

    /** A channel moved whose own table input crossed a step: it may have followed that. */
    predicate CrossedFollows()
      requires Valid()
    {
      exists oc :: 1 <= oc <= 3 && InputCrossed(oc) && MovedChannel(oc)
    }
  }

  /** The verdict, in the order in which the specification asks. */
  function T1Of(d: Data): Verdict
    requires d.Valid()
  {
    if d.Differs() then Fail
    else if d.OtherMoved() && !d.AnyCrossed() then Fail
    else if d.CrossedFollows() then Inconclusive
    else if !d.DcrKnown() || d.OtherMissing() then Inconclusive
    else if d.NoisyRest() then Inconclusive
    else if !OwnFalls(d.own, d.steps) then Inconclusive
    else if d.AnyCrossed() then Inconclusive
    else Pass
  }

  // ---- the evaluation ----------------------------------------------------------------

  /** One register over the judged samples of one step. */
  method StepRegister(ch: int, n: int, st: Step, base: int) returns (differs: bool, known: bool, moved: bool)
    requires 1 <= n <= 5
    ensures differs == StepDiffers(ch, n, st) && known == StepKnown(ch, n, st) && moved == StepMoved(ch, n, base, st)
  {
    var judged, missing := 0, 0;
    differs, moved := false, false;
    for i := 0 to |st.rows|
      invariant judged > 0 <==> exists j :: 0 <= j < i && JudgedRow(ch, st.rows[j])
      invariant missing > 0 <==> exists j :: 0 <= j < i && JudgedRow(ch, st.rows[j]) && st.rows[j].dcr[n-1] < 0
      invariant differs <==> exists j :: 0 <= j < i && JudgedRow(ch, st.rows[j]) && st.rows[j].dcr[n-1] >= 0
                                         && st.rows[j].dcr[n-1] != st.duty
      invariant moved <==> exists j :: 0 <= j < i && JudgedRow(ch, st.rows[j]) && st.rows[j].dcr[n-1] >= 0
                                       && Distance(st.rows[j].dcr[n-1], base) >= T1_OTHER_DCR
      invariant judged >= 0 && missing >= 0
    {
      var v := st.rows[i].dcr[n-1];
      if JudgedRow(ch, st.rows[i]) {
        judged := judged + 1;
        if v < 0 {
          missing := missing + 1;
        } else {
          differs := differs || v != st.duty;
          moved := moved || Distance(v, base) >= T1_OTHER_DCR;
        }
      }
    }
    known := judged > 0 && missing == 0;
  }

  /** One register over all steps. */
  method Register(ch: int, n: int, steps: seq<Step>, base: int) returns (differs: bool, known: bool, moved: bool)
    requires 1 <= n <= 5
    ensures differs == AnyDiffers(ch, n, steps) && known == AllKnown(ch, n, steps)
            && moved == AnyMoved(ch, n, base, steps)
  {
    differs, known, moved := false, true, false;
    for k := 0 to |steps|
      invariant differs <==> exists j :: 0 <= j < k && StepDiffers(ch, n, steps[j])
      invariant known <==> forall j :: 0 <= j < k ==> StepKnown(ch, n, steps[j])
      invariant moved <==> exists j :: 0 <= j < k && StepMoved(ch, n, base, steps[j])
    {
      var d, kn, m := StepRegister(ch, n, steps[k], base);
      differs, known, moved := differs || d, known && kn, moved || m;
    }
  }

  /** The registers of the channel under test. */
  method OwnRegisters(d: Data) returns (differs: bool, known: bool)
    requires d.Valid()
    ensures differs == d.Differs() && known == d.DcrKnown()
  {
    differs, known := false, true;
    for n := 1 to 6
      invariant differs <==> exists j :: 1 <= j < n && RegChannel(j) == d.ch && AnyDiffers(d.ch, j, d.steps)
      invariant known <==> forall j :: 1 <= j < n && RegChannel(j) == d.ch ==> AllKnown(d.ch, j, d.steps)
    {
      if RegChannel(n) == d.ch {
        var df, kn, moved := Register(d.ch, n, d.steps, 0);
        differs, known := differs || df, known && kn;
      }
    }
  }

  /** One register of an other channel against its rest value. */
  method OtherRegister(d: Data, n: int) returns (moved: bool, missing: bool)
    requires d.Valid() && 1 <= n <= 5
    ensures moved == Moved(d.ch, d.rest, d.steps, n) && missing == Missing(d.ch, d.rest, d.steps, n)
  {
    var m := MeanOf(DcrSeries(d.rest, n));
    if m.None? {
      return false, true;
    }
    var differs, known;
    differs, known, moved := Register(d.ch, n, d.steps, Round(m.value));
    missing := !known;
  }

  /** The registers of the other channels: the ones that moved, and whether one is missing. */
  method OtherRegisters(d: Data) returns (regs: set<int>, missing: bool)
    requires d.Valid()
    ensures forall n :: n in regs <==> 1 <= n <= 5 && RegChannel(n) != d.ch && Moved(d.ch, d.rest, d.steps, n)
    ensures missing == d.OtherMissing()
  {
    regs, missing := {}, false;
    for n := 1 to 6
      invariant forall j :: j in regs <==> 1 <= j < n && RegChannel(j) != d.ch && Moved(d.ch, d.rest, d.steps, j)
      invariant missing <==> exists j :: 1 <= j < n && RegChannel(j) != d.ch && Missing(d.ch, d.rest, d.steps, j)
    {
      if RegChannel(n) != d.ch {
        var mv, ms := OtherRegister(d, n);
        missing := missing || ms;
        if mv {
          regs := regs + {n};
        }
      }
    }
  }

  lemma MovedDecides(d: Data, regs: set<int>)
    requires d.Valid()
    requires forall n :: n in regs <==> 1 <= n <= 5 && RegChannel(n) != d.ch && Moved(d.ch, d.rest, d.steps, n)
    ensures regs != {} <==> d.OtherMoved()
    ensures forall oc :: oc in (set n | n in regs :: RegChannel(n)) <==> d.MovedChannel(oc)
  {
    if !d.OtherMoved() {
      EmptySet(regs);
    }
  }

  lemma CrossedDecides(d: Data, crossed: set<int>, moved: set<int>)
    requires d.Valid()
    requires forall oc :: oc in moved <==> d.MovedChannel(oc)
    requires forall oc :: oc in crossed <==> 1 <= oc <= 3 && d.InputCrossed(oc)
    ensures crossed != {} <==> d.AnyCrossed()
    ensures crossed * moved != {} <==> d.CrossedFollows()
  {
    if !d.AnyCrossed() {
      EmptySet(crossed);
    }
    if !d.CrossedFollows() {
      EmptySet(crossed * moved);
    }
    if d.CrossedFollows() {
      var oc :| 1 <= oc <= 3 && d.InputCrossed(oc) && d.MovedChannel(oc);
      assert oc in crossed * moved;
    }
  }

  /** The tach noise at rest. */
  method IsNoisy(v: seq<Option<int>>) returns (noisy: bool)
    ensures noisy == Noisy(v)
  {
    var lo, hi: Option<int> := None, None;
    for k := 0 to |v|
      invariant lo.Some? == hi.Some?
      invariant lo.None? ==> forall i :: 0 <= i < k ==> v[i].None?
      invariant lo.Some? ==> forall i :: 0 <= i < k && v[i].Some? ==> lo.value <= v[i].value <= hi.value
      invariant lo.Some? ==> (exists i :: 0 <= i < k && v[i] == lo) && (exists i :: 0 <= i < k && v[i] == hi)
    {
      if v[k].Some? {
        if lo.None? || v[k].value < lo.value {
          lo := v[k];
        }
        if hi.None? || v[k].value > hi.value {
          hi := v[k];
        }
      }
    }
    noisy := lo.Some? && hi.value - lo.value > T1_OTHER_RPM;
  }

  method RestNoise(d: Data) returns (noisy: bool)
    requires d.Valid()
    ensures noisy == d.NoisyRest()
  {
    noisy := false;
    for k := 0 to |d.tachs|
      invariant noisy <==> exists i :: 0 <= i < k && Noisy(FanSeries(d.rest, d.tachs[i]))
    {
      var n := IsNoisy(FanSeries(d.rest, d.tachs[k]));
      noisy := noisy || n;
    }
  }

  method Inputs(steps: seq<Step>, oc: int) returns (vals: seq<Temp>)
    requires 1 <= oc <= 3
    ensures vals == AllInputs(steps, oc)
  {
    vals := [];
    for k := 0 to |steps|
      invariant vals == AllInputs(steps[..k], oc)
    {
      assert steps[..k+1][..k] == steps[..k];
      vals := vals + InputSeries(steps[k].rows, oc);
    }
    assert steps[..|steps|] == steps;
  }

  /** The channels whose table input crossed a step. */
  method CrossedInputs(d: Data) returns (channels: set<int>)
    requires d.Valid()
    ensures forall oc :: oc in channels <==> 1 <= oc <= 3 && d.InputCrossed(oc)
  {
    channels := {};
    for oc := 1 to 4
      invariant forall c :: c in channels <==> 1 <= c < oc && d.InputCrossed(c)
    {
      if oc != d.ch {
        var ref := MeanOf(InputSeries(d.rest, oc));
        var vals := Inputs(d.steps, oc);
        if Crosses(oc, ref, vals) {
          channels := channels + {oc};
        }
      }
    }
  }

  method OwnTach(own: int, steps: seq<Step>) returns (ok: bool)
    requires 0 <= own <= 3
    ensures ok == OwnFalls(own, steps)
  {
    ok := true;
    if own == 0 {
      return;
    }
    var last: Option<real> := None;
    for i := 0 to |steps|
      invariant last == if i == 0 then None else EndRpm(steps[i-1].rows, own)
      invariant ok <==> forall j :: 0 <= j < i ==> Falls(own, steps, j)
    {
      var v := FanSeries(steps[i].rows, own);
      var m := MeanOf(if |v| > 3 then v[|v|-3..] else v);
      if m.None? || (last.Some? && last.value - m.value < T1_OWN_STEP_RPM as real) {
        ok := false;
        assert !Falls(own, steps, i);
      }
      last := m;
    }
  }

  /** Evaluates the mapping test. */
  method EvalT1(d: Data) returns (v: Verdict)
    requires d.Valid()
    ensures v == T1Of(d)
  {
    var differs, known := OwnRegisters(d);
    var noisy := RestNoise(d);
    var regs, missing := OtherRegisters(d);
    var moved := set n | n in regs :: RegChannel(n);
    var crossed := CrossedInputs(d);
    var ownOK := OwnTach(d.own, d.steps);
    MovedDecides(d, regs);
    CrossedDecides(d, crossed, moved);
    if differs || (regs != {} && crossed == {}) {
      return Fail;
    }
    if crossed * moved != {} || !known || missing || noisy || !ownOK || crossed != {} {
      return Inconclusive;
    }
    return Pass;
  }

  // ---- what the verdicts mean ------------------------------------------------------------

  /** The register shows the written duty in every judged sample, and there is one. */
  predicate Shows(ch: int, n: int, st: Step)
    requires 1 <= n <= 5
  {
    SomeJudged(ch, st) && forall i :: 0 <= i < |st.rows| && JudgedRow(ch, st.rows[i]) ==> st.rows[i].dcr[n-1] == st.duty
  }

  /** The register was read in every judged sample and stayed within 15 counts of its rest value. */
  predicate Stays(ch: int, n: int, base: int, st: Step)
    requires 1 <= n <= 5
  {
    && SomeJudged(ch, st)
    && forall i :: 0 <= i < |st.rows| && JudgedRow(ch, st.rows[i]) ==>
         st.rows[i].dcr[n-1] >= 0 && base - 16 < st.rows[i].dcr[n-1] < base + 16
  }

  // ---- the tach at the end of a step --------------------------------------------------------

  /** The own tach in the last row of a step but `back`. */
  function TachAt(rows: seq<FullRow>, own: int, back: nat): Option<int>
    requires 1 <= own <= 3
  {
    if back < |rows| then rows[|rows|-1-back].fan[own-1] else None
  }

  function One(v: Option<int>): nat {
    if v.Some? then 1 else 0
  }

  function Val(v: Option<int>): int {
    if v.Some? then v.value else 0
  }

  /** How many of the last three rows of a step have a value of the own tach, */
  function EndCount(rows: seq<FullRow>, own: int): nat
    requires 1 <= own <= 3
  {
    One(TachAt(rows, own, 0)) + One(TachAt(rows, own, 1)) + One(TachAt(rows, own, 2))
  }

  /** ... and the sum of these. */
  function EndSum(rows: seq<FullRow>, own: int): int
    requires 1 <= own <= 3
  {
    Val(TachAt(rows, own, 0)) + Val(TachAt(rows, own, 1)) + Val(TachAt(rows, own, 2))
  }

  lemma ShortSum(v: seq<Option<int>>)
    requires |v| <= 3
    ensures Known(v) == (if |v| > 0 then One(v[0]) else 0) + (if |v| > 1 then One(v[1]) else 0) +
            (if |v| > 2 then One(v[2]) else 0)
    ensures Sum(v) == (if |v| > 0 then Val(v[0]) else 0) + (if |v| > 1 then Val(v[1]) else 0) +
            (if |v| > 2 then Val(v[2]) else 0)
  {
    if v != [] {
      ShortSum(v[..|v|-1]);
    }
  }

  /** The rpm at the end of a step is the mean of the known values among its last three rows. */
  lemma EndRpmExact(rows: seq<FullRow>, own: int)
    requires 1 <= own <= 3
    ensures EndRpm(rows, own).Some? <==> EndCount(rows, own) > 0
    ensures EndCount(rows, own) > 0 ==>
            EndRpm(rows, own).value == EndSum(rows, own) as real / EndCount(rows, own) as real
  {
    var v := FanSeries(rows, own);
    var w := if |v| > 3 then v[|v|-3..] else v;
    ShortSum(w);
    assert forall i :: 0 <= i < |w| ==> w[i] == rows[|rows| - |w| + i].fan[own-1];
  }

  /** The step ends with a value of the own tach, at least 200 rpm below the step before. */
  predicate EndsLower(own: int, steps: seq<Step>, i: int)
    requires 1 <= own <= 3 && 0 <= i < |steps|
  {
    && EndCount(steps[i].rows, own) > 0
    && (i > 0 && EndCount(steps[i-1].rows, own) > 0 ==>
          EndSum(steps[i-1].rows, own) as real / EndCount(steps[i-1].rows, own) as real
          - EndSum(steps[i].rows, own) as real / EndCount(steps[i].rows, own) as real >= 200.0)
  }

  lemma FallsExact(own: int, steps: seq<Step>)
    requires 0 <= own <= 3
    ensures OwnFalls(own, steps) <==> own == 0 || forall i :: 0 <= i < |steps| ==> EndsLower(own, steps, i)
  {
    if own > 0 {
      forall i | 0 <= i < |steps|
        ensures Falls(own, steps, i) <==> EndsLower(own, steps, i)
      {
        EndRpmExact(steps[i].rows, own);
        if i > 0 {
          EndRpmExact(steps[i-1].rows, own);
        }
      }
    }
  }

  lemma OwnExact(d: Data)
    requires d.Valid() && forall k :: 0 <= k < |d.steps| ==> d.steps[k].duty >= 0
    ensures !d.Differs() && d.DcrKnown() <==>
              forall n, k :: 1 <= n <= 5 && RegChannel(n) == d.ch && 0 <= k < |d.steps| ==> Shows(d.ch, n, d.steps[k])
  {
    forall n, k | 1 <= n <= 5 && 0 <= k < |d.steps|
      ensures Shows(d.ch, n, d.steps[k]) <==> !StepDiffers(d.ch, n, d.steps[k]) && StepKnown(d.ch, n, d.steps[k])
    {
    }
  }

  lemma OthersExact(d: Data)
    requires d.Valid()
    ensures !d.OtherMoved() && !d.OtherMissing() <==>
              && (forall n :: 1 <= n <= 5 && RegChannel(n) != d.ch ==> RestBase(d.rest, n).Some?)
              && (forall n, k :: 1 <= n <= 5 && RegChannel(n) != d.ch && 0 <= k < |d.steps| ==>
                    Stays(d.ch, n, RestBase(d.rest, n).value, d.steps[k]))
  {
    forall n, k | 1 <= n <= 5 && 0 <= k < |d.steps| && RestBase(d.rest, n).Some?
      ensures Stays(d.ch, n, RestBase(d.rest, n).value, d.steps[k]) <==>
                !StepMoved(d.ch, n, RestBase(d.rest, n).value, d.steps[k]) && StepKnown(d.ch, n, d.steps[k])
    {
    }
  }

  /** In judged sample i of step k, register n of the channel was read and shows something else
    than the duty. */
  predicate DiffersAt(d: Data, n: int, k: int, i: int) {
    && 1 <= n <= 5 && RegChannel(n) == d.ch && 0 <= k < |d.steps| && 0 <= i < |d.steps[k].rows|
    && JudgedRow(d.ch, d.steps[k].rows[i])
    && d.steps[k].rows[i].dcr[n-1] >= 0 && d.steps[k].rows[i].dcr[n-1] != d.steps[k].duty
  }

  /** In judged sample i of step k, register n of another channel was read and is at least 16 counts
    away from its rest value. */
  predicate MovedAt(d: Data, n: int, k: int, i: int) {
    && 1 <= n <= 5 && RegChannel(n) != d.ch && 0 <= k < |d.steps| && 0 <= i < |d.steps[k].rows|
    && RestBase(d.rest, n).Some? && JudgedRow(d.ch, d.steps[k].rows[i])
    && d.steps[k].rows[i].dcr[n-1] >= 0
    && Distance(d.steps[k].rows[i].dcr[n-1], RestBase(d.rest, n).value) >= T1_OTHER_DCR
  }

  /** In sample i of step k, judged or not, the table input of another channel is across one of its
    steps from its mean at rest. */
  predicate CrossesAt(d: Data, oc: int, k: int, i: int) {
    && 1 <= oc <= 3 && oc != d.ch && 0 <= k < |d.steps| && 0 <= i < |d.steps[k].rows|
    && CrossesValue(oc, Mean(InputSeries(d.rest, oc)), d.steps[k].rows[i].inputs[oc-1])
  }

  predicate StepCrosses(oc: int, ref: Option<real>, st: Step)
    requires 1 <= oc <= 3
  {
    exists i :: 0 <= i < |st.rows| && CrossesValue(oc, ref, st.rows[i].inputs[oc-1])
  }

  lemma CrossesInStep(st: Step, oc: int, ref: Option<real>)
    requires 1 <= oc <= 3
    ensures Crosses(oc, ref, InputSeries(st.rows, oc)) <==> StepCrosses(oc, ref, st)
  {
    CrossesEach(oc, ref, InputSeries(st.rows, oc));
    assert forall i :: 0 <= i < |st.rows| ==> InputSeries(st.rows, oc)[i] == st.rows[i].inputs[oc-1];
  }

  lemma {:induction false} CrossesInSteps(steps: seq<Step>, oc: int, ref: Option<real>)
    requires 1 <= oc <= 3
    ensures Crosses(oc, ref, AllInputs(steps, oc)) <==> exists k :: 0 <= k < |steps| && StepCrosses(oc, ref, steps[k])
  {
    if steps != [] {
      var init, last := steps[..|steps|-1], steps[|steps|-1];
      CrossesInSteps(init, oc, ref);
      CrossesSum(oc, ref, AllInputs(init, oc), InputSeries(last.rows, oc));
      CrossesInStep(last, oc, ref);
      assert forall k :: 0 <= k < |init| ==> init[k] == steps[k];
    }
  }

  lemma AnyCrossedExact(d: Data)
    requires d.Valid()
    ensures d.AnyCrossed() <==> exists oc, k, i :: CrossesAt(d, oc, k, i)
  {
    if d.AnyCrossed() {
      var oc :| 1 <= oc <= 3 && d.InputCrossed(oc);
      var ref := Mean(InputSeries(d.rest, oc));
      CrossesInSteps(d.steps, oc, ref);
      var k :| 0 <= k < |d.steps| && StepCrosses(oc, ref, d.steps[k]);
      var i :| 0 <= i < |d.steps[k].rows| && CrossesValue(oc, ref, d.steps[k].rows[i].inputs[oc-1]);
      assert CrossesAt(d, oc, k, i);
    }
    forall oc, k, i | CrossesAt(d, oc, k, i)
      ensures d.AnyCrossed()
    {
      assert StepCrosses(oc, Mean(InputSeries(d.rest, oc)), d.steps[k]);
      CrossesInSteps(d.steps, oc, Mean(InputSeries(d.rest, oc)));
      assert d.InputCrossed(oc);
    }
  }

  lemma DiffersExact(d: Data)
    requires d.Valid()
    ensures d.Differs() <==> exists n, k, i :: DiffersAt(d, n, k, i)
  {
    if d.Differs() {
      var n :| 1 <= n <= 5 && RegChannel(n) == d.ch && AnyDiffers(d.ch, n, d.steps);
      var k :| 0 <= k < |d.steps| && StepDiffers(d.ch, n, d.steps[k]);
      var i :| 0 <= i < |d.steps[k].rows| && JudgedRow(d.ch, d.steps[k].rows[i])
               && d.steps[k].rows[i].dcr[n-1] >= 0 && d.steps[k].rows[i].dcr[n-1] != d.steps[k].duty;
      assert DiffersAt(d, n, k, i);
    }
    forall n, k, i | DiffersAt(d, n, k, i)
      ensures d.Differs()
    {
      assert StepDiffers(d.ch, n, d.steps[k]);
      assert AnyDiffers(d.ch, n, d.steps);
    }
  }

  lemma MovedExact(d: Data)
    requires d.Valid()
    ensures d.OtherMoved() <==> exists n, k, i :: MovedAt(d, n, k, i)
  {
    if d.OtherMoved() {
      var n :| 1 <= n <= 5 && RegChannel(n) != d.ch && Moved(d.ch, d.rest, d.steps, n);
      var base := RestBase(d.rest, n).value;
      var k :| 0 <= k < |d.steps| && StepMoved(d.ch, n, base, d.steps[k]);
      var i :| 0 <= i < |d.steps[k].rows| && JudgedRow(d.ch, d.steps[k].rows[i]) && d.steps[k].rows[i].dcr[n-1] >= 0
               && Distance(d.steps[k].rows[i].dcr[n-1], base) >= T1_OTHER_DCR;
      assert MovedAt(d, n, k, i);
    }
    forall n, k, i | MovedAt(d, n, k, i)
      ensures d.OtherMoved()
    {
      assert StepMoved(d.ch, n, RestBase(d.rest, n).value, d.steps[k]);
      assert Moved(d.ch, d.rest, d.steps, n);
    }
  }

  /** T1 is FAIL if and only if some judged sample shows a judged register off its duty, or some
    judged sample shows an other register 16 counts off its rest value while no sample of any step
    has an other table input across a step. */
  lemma FailExact(d: Data)
    requires d.Valid()
    ensures T1Of(d) == Fail <==>
              || (exists n, k, i :: DiffersAt(d, n, k, i))
              || ((exists n, k, i :: MovedAt(d, n, k, i)) && !exists oc, k, i :: CrossesAt(d, oc, k, i))
  {
    DiffersExact(d);
    MovedExact(d);
    AnyCrossedExact(d);
  }

  // ---- the rest reference -------------------------------------------------------------------

  /** How many rows show register n, */
  function RestCount(rows: seq<FullRow>, n: int): nat
    requires 1 <= n <= 5
  {
    if rows == [] then 0 else RestCount(rows[1..], n) + if rows[0].dcr[n-1] >= 0 then 1 else 0
  }

  /** ... and the sum of what they show. */
  function RestSum(rows: seq<FullRow>, n: int): int
    requires 1 <= n <= 5
  {
    if rows == [] then 0 else RestSum(rows[1..], n) + if rows[0].dcr[n-1] >= 0 then rows[0].dcr[n-1] else 0
  }

  lemma {:induction false} RestSumLast(rows: seq<FullRow>, n: int)
    requires 1 <= n <= 5 && rows != []
    ensures var init, v := rows[..|rows|-1], rows[|rows|-1].dcr[n-1];
            && RestCount(rows, n) == RestCount(init, n) + (if v >= 0 then 1 else 0)
            && RestSum(rows, n) == RestSum(init, n) + (if v >= 0 then v else 0)
  {
    if |rows| > 1 {
      RestSumLast(rows[1..], n);
      assert rows[1..][..|rows|-2] == rows[..|rows|-1][1..];
    }
  }

  lemma {:induction false} SeriesSums(rows: seq<FullRow>, n: int)
    requires 1 <= n <= 5
    ensures Known(DcrSeries(rows, n)) == RestCount(rows, n) && Sum(DcrSeries(rows, n)) == RestSum(rows, n)
  {
    if rows != [] {
      SeriesSums(rows[..|rows|-1], n);
      RestSumLast(rows, n);
      assert DcrSeries(rows, n)[..|rows|-1] == DcrSeries(rows[..|rows|-1], n);
    }
  }

  lemma Scaled(x: real, y: real, c: real)
    requires c > 0.0
    ensures x <= y <==> x * c <= y * c
  {
  }

  lemma NearestInteger(s: int, c: nat, b: int)
    requires c > 0 && b == Round(s as real / c as real)
    ensures 2 * c * b <= 2 * s + c < 2 * c * (b + 1)
  {
    var x, r := s as real / c as real, c as real;
    assert x * r == s as real;
    Scaled(b as real, x + 0.5, r);
    Scaled(b as real + 1.0, x + 0.5, r);
    assert (x + 0.5) * r == s as real + 0.5 * r;
    assert b as real * r == (b * c) as real;
    assert (b as real + 1.0) * r == (b * c + c) as real;
    assert 2 * c * b == 2 * (b * c) && 2 * c * (b + 1) == 2 * (b * c + c);
  }

  /** The rest value of a register is the integer nearest to the mean of what the rows at rest show of it,
    a half rounded up; there is none when no row shows it. */
  lemma RestBaseExact(rest: seq<FullRow>, n: int)
    requires 1 <= n <= 5
    ensures RestBase(rest, n).None? <==> forall i :: 0 <= i < |rest| ==> rest[i].dcr[n-1] < 0
    ensures RestBase(rest, n).Some? ==>
              var b, c := RestBase(rest, n).value, RestCount(rest, n);
              c > 0 && 2 * c * b <= 2 * RestSum(rest, n) + c < 2 * c * (b + 1)
  {
    SeriesSums(rest, n);
    CountsKnown(rest, n);
    if RestCount(rest, n) > 0 {
      NearestInteger(RestSum(rest, n), RestCount(rest, n), RestBase(rest, n).value);
    }
  }

  lemma {:induction false} CountsKnown(rows: seq<FullRow>, n: int)
    requires 1 <= n <= 5
    ensures RestCount(rows, n) == 0 <==> forall i :: 0 <= i < |rows| ==> rows[i].dcr[n-1] < 0
  {
    if rows != [] {
      CountsKnown(rows[1..], n);
      assert forall i :: 0 < i < |rows| ==> rows[i] == rows[1..][i-1];
    }
  }

  /** Two samples at rest show one of the tachs more than 50 rpm apart. */
  predicate NoisyAt(d: Data, t: int, i: int, j: int) {
    && t in d.tachs && 1 <= t <= 3 && 0 <= i < |d.rest| && 0 <= j < |d.rest|
    && d.rest[i].fan[t-1].Some? && d.rest[j].fan[t-1].Some?
    && d.rest[i].fan[t-1].value - d.rest[j].fan[t-1].value > 50
  }

  lemma NoisyExact(d: Data)
    requires d.Valid()
    ensures d.NoisyRest() <==> exists t, i, j :: NoisyAt(d, t, i, j)
  {
    if k :| 0 <= k < |d.tachs| && Noisy(FanSeries(d.rest, d.tachs[k])) {
      var v := FanSeries(d.rest, d.tachs[k]);
      var i, j :| 0 <= i < |v| && 0 <= j < |v| && v[i].Some? && v[j].Some? && v[i].value - v[j].value > T1_OTHER_RPM;
      assert NoisyAt(d, d.tachs[k], i, j);
    }
    forall t, i, j | NoisyAt(d, t, i, j)
      ensures d.NoisyRest()
    {
      var k :| 0 <= k < |d.tachs| && d.tachs[k] == t;
      var v := FanSeries(d.rest, t);
      assert v[i].value - v[j].value > T1_OTHER_RPM;
    }
  }

  /** T1 is PASS exactly when every judged register of the channel shows the written duty in every
    step, every other register stays within 15 counts of its rest value, no two samples at rest show a tach
    more than 50 rpm apart, every step ends with the own tach 200 rpm below the one before, and no
    sample has another table input across a step. */
  lemma PassExact(d: Data)
    requires d.Valid() && forall k :: 0 <= k < |d.steps| ==> d.steps[k].duty >= 0
    ensures T1Of(d) == Pass <==>
              && (forall n, k :: 1 <= n <= 5 && RegChannel(n) == d.ch && 0 <= k < |d.steps| ==>
                  Shows(d.ch, n, d.steps[k]))
              && (forall n :: 1 <= n <= 5 && RegChannel(n) != d.ch ==> RestBase(d.rest, n).Some?)
              && (forall n, k :: 1 <= n <= 5 && RegChannel(n) != d.ch && 0 <= k < |d.steps| ==>
                    Stays(d.ch, n, RestBase(d.rest, n).value, d.steps[k]))
              && (forall t, i, j :: !NoisyAt(d, t, i, j))
              && (forall oc, k, i :: !CrossesAt(d, oc, k, i))
              && (d.own == 0 || forall i :: 0 <= i < |d.steps| ==> EndsLower(d.own, d.steps, i))
  {
    OwnExact(d);
    OthersExact(d);
    FallsExact(d.own, d.steps);
    NoisyExact(d);
    AnyCrossedExact(d);
  }

  /** A passed test moved the own tach by at least 200 rpm per step over all steps. */
  lemma {:induction false} OwnFallsOverall(own: int, steps: seq<Step>)
    requires 1 <= own <= 3 && steps != [] && OwnFalls(own, steps)
    ensures EndRpm(steps[0].rows, own).Some? && EndRpm(steps[|steps|-1].rows, own).Some?
    ensures EndRpm(steps[0].rows, own).value - EndRpm(steps[|steps|-1].rows, own).value
            >= (T1_OWN_STEP_RPM * (|steps| - 1)) as real
  {
    assert Falls(own, steps, |steps| - 1);
    if |steps| > 1 {
      var init := steps[..|steps|-1];
      forall i | 0 <= i < |init|
        ensures Falls(own, init, i)
      {
        assert Falls(own, steps, i);
      }
      OwnFallsOverall(own, init);
    }
  }

  /** ... where the rpm of a step is the mean of the known values in its last three rows. */
  lemma PassMovesOwnTach(d: Data)
    requires d.Valid() && d.own > 0 && d.steps != [] && T1Of(d) == Pass
    ensures var first, last := d.steps[0].rows, d.steps[|d.steps|-1].rows;
            && EndCount(first, d.own) > 0 && EndCount(last, d.own) > 0
            && EndSum(first, d.own) as real / EndCount(first, d.own) as real
               - EndSum(last, d.own) as real / EndCount(last, d.own) as real >= (200 * (|d.steps| - 1)) as real
  {
    OwnFallsOverall(d.own, d.steps);
    EndRpmExact(d.steps[0].rows, d.own);
    EndRpmExact(d.steps[|d.steps|-1].rows, d.own);
  }
}
