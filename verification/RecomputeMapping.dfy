/** T1 from the log: how the rows of a mapping test are taken from samples, and the rebuild from
  the stored log (AddT1Sample in ectest/internal/runner/runner.go; recomputeT1 and writeTS in
  ectest/internal/report/recompute.go). */
module RecomputeMapping {
  import opened Wrappers
  import opened StoredTime
  import opened RunLog
  import opened SpecRules
  import opened Mapping

  const TACHS: seq<int> := [1, 2, 3]

  /** The tach of a channel; the PCIe channel has none. */
  function TachOf(ch: int): int {
    if 1 <= ch <= 3 then ch else 0
  }

  // ---- rows ------------------------------------------------------------------------

  function FanOf(s: Sample, f: int): Option<int> {
    if f < 1 || f > |s.fan| || s.fan[f-1] < 0 then None else Some(s.fan[f-1])
  }

  /** One sample of a step written at t0. */
  function RowOf(s: Sample, t0: Option<int>): FullRow {
    Row(if t0.Some? then Some(SinceMs(s.ts, t0.value)) else None,
        [RegDcr(s, 1), RegDcr(s, 2), RegDcr(s, 3), RegDcr(s, 4), RegDcr(s, 5)],
        [FanOf(s, 1), FanOf(s, 2), FanOf(s, 3)],
        [TableInput(1, s), TableInput(2, s), TableInput(3, s)])
  }

  /** What a row has of a sample: every register and tach that was read, the CPU, board and ambient inputs
    of the EC tables, and the time since the write as the stored times tell. */
  lemma RowExact(s: Sample, t0: Option<int>)
    requires s.WellFormed()
    ensures var r := RowOf(s, t0);
            && (forall n :: 0 <= n < 5 ==> r.dcr[n] == if s.dcr[n] >= 0 then s.dcr[n] else -1)
            && (forall f :: 0 <= f < 3 ==> r.fan[f] == if s.fan[f] >= 0 then Some(s.fan[f]) else None)
            && r.inputs == [s.ecCpu, s.ecBoard, s.ecAmb]
            && (r.t.Some? <==> t0.Some?) && (t0.Some? ==> r.t.value == SinceMs(s.ts, t0.value))
  {
  }

  function RowsOf(smp: seq<Sample>, t0: Option<int>): (r: seq<FullRow>)
    ensures |r| == |smp| && forall i :: 0 <= i < |r| ==> r[i] == RowOf(smp[i], t0)
  {
    seq(|smp|, i requires 0 <= i < |smp| => RowOf(smp[i], t0))
  }

  // ---- the events the report uses ------------------------------------------------------

  predicate ForT1(e: Event) {
    e.text.Wrote? || e.text.T1Complete?
  }

  function T1Events(ev: seq<Event>): seq<Event> {
    if ev == [] then []
    else if ForT1(ev[|ev|-1]) then T1Events(ev[..|ev|-1]) + [ev[|ev|-1]]
    else T1Events(ev[..|ev|-1])
  }

  predicate HasComplete(ev: seq<Event>) {
    exists i :: 0 <= i < |ev| && ev[i].text.T1Complete?
  }

  /** The time of the first event of a write. */
  function WriteTime(ev: seq<Event>, ch: int, duty: int): Option<int> {
    if ev == [] then None
    else
      var before := WriteTime(ev[..|ev|-1], ch, duty);
      var e := ev[|ev|-1];
      if before.Some? then before
      else if e.ts >= 0 && e.text == Wrote(ch, duty) then Some(e.ts)
      else None
  }

  /** It is the first one: no event of this write stands before it. */
  lemma {:induction false} WriteTimeIsFirst(ev: seq<Event>, ch: int, duty: int)
    ensures WriteTime(ev, ch, duty).None? ==>
              forall i :: 0 <= i < |ev| && ev[i].text == Wrote(ch, duty) ==> ev[i].ts < 0
    ensures WriteTime(ev, ch, duty).Some? ==>
              exists i :: 0 <= i < |ev| && ev[i] == Event(WriteTime(ev, ch, duty).value, Wrote(ch, duty))
                  && ev[i].ts >= 0
                          && forall j :: 0 <= j < i && ev[j].text == Wrote(ch, duty) ==> ev[j].ts < 0
  {
    if ev != [] {
      var init := ev[..|ev|-1];
      WriteTimeIsFirst(init, ch, duty);
      if WriteTime(init, ch, duty).Some? {
        var i :| 0 <= i < |init| && init[i] == Event(WriteTime(init, ch, duty).value, Wrote(ch, duty))
            && init[i].ts >= 0
                 && forall j :: 0 <= j < i && init[j].text == Wrote(ch, duty) ==> init[j].ts < 0;
        assert ev[i] == init[i];
        assert forall j :: 0 <= j < i ==> ev[j] == init[j];
      } else if ev[|init|].ts >= 0 && ev[|init|].text == Wrote(ch, duty) {
        assert forall j :: 0 <= j < |init| ==> ev[j] == init[j];
      }
    }
  }

  /** Both only depend on the events for T1. */
  lemma {:induction false} OnlyT1Events(ev: seq<Event>, ch: int, duty: int)
    ensures WriteTime(T1Events(ev), ch, duty) == WriteTime(ev, ch, duty)
  {
    if ev != [] {
      var init := ev[..|ev|-1];
      OnlyT1Events(init, ch, duty);
      if ForT1(ev[|ev|-1]) {
        assert T1Events(ev)[..|T1Events(ev)|-1] == T1Events(init);
      }
    }
  }

  lemma {:induction false} OnlyT1Complete(ev: seq<Event>)
    ensures HasComplete(T1Events(ev)) <==> HasComplete(ev)
  {
    if ev != [] {
      var init, last := ev[..|ev|-1], ev[|ev|-1];
      OnlyT1Complete(init);
      HasCompleteStep(init, last);
      assert ev == init + [last];
      if ForT1(last) {
        HasCompleteStep(T1Events(init), last);
      }
    }
  }

  lemma HasCompleteStep(ev: seq<Event>, e: Event)
    ensures HasComplete(ev + [e]) <==> HasComplete(ev) || e.text.T1Complete?
  {
    if HasComplete(ev) {
      var i :| 0 <= i < |ev| && ev[i].text.T1Complete?;
      assert (ev + [e])[i].text.T1Complete?;
    }
    assert (ev + [e])[|ev|] == e;
    if HasComplete(ev + [e]) {
      var i :| 0 <= i <= |ev| && (ev + [e])[i].text.T1Complete?;
      assert i == |ev| || ev[i].text.T1Complete?;
    }
  }

  lemma {:induction false} T1EventsOfStored(ev: seq<Event>)
    ensures T1Events(StoredEvents(ev)) == StoredEvents(T1Events(ev))
  {
    if ev != [] {
      T1EventsOfStored(ev[..|ev|-1]);
      assert StoredEvents(ev)[..|ev|-1] == StoredEvents(ev[..|ev|-1]);
    }
  }

  // ---- the rebuild -----------------------------------------------------------------------

  function StepOfLog(ch: int, smp: seq<Sample>, ev: seq<Event>, duty: int): Step {
    Step(duty, RowsOf(PhaseSamples(smp, T1Step(duty)), WriteTime(ev, ch, duty)))
  }

  function DataOfLog(ch: int, smp: seq<Sample>, ev: seq<Event>): Data {
    Data(ch, TachOf(ch), RowsOf(PhaseSamples(smp, T1Rest), None),
         seq(|T1_STEPS|, k requires 0 <= k < |T1_STEPS| => StepOfLog(ch, smp, ev, T1_STEPS[k])), TACHS)
  }

  /** The T1 verdict of a log. */
  function Recomputed(ch: int, smp: seq<Sample>, ev: seq<Event>): Verdict
    requires 1 <= ch <= 4
  {
    if !HasComplete(ev) then Inconclusive else T1Of(DataOfLog(ch, smp, ev))
  }

  method FindComplete(ev: seq<Event>) returns (found: bool)
    ensures found == HasComplete(ev)
  {
    for k := 0 to |ev|
      invariant !HasComplete(ev[..k])
    {
      if ev[k].text.T1Complete? {
        return true;
      }
    }
    assert ev[..|ev|] == ev;
    return false;
  }

  method FindWrite(ev: seq<Event>, ch: int, duty: int) returns (t: Option<int>)
    ensures t == WriteTime(ev, ch, duty)
  {
    t := None;
    for k := 0 to |ev|
      invariant t == WriteTime(ev[..k], ch, duty)
    {
      assert ev[..k+1][..k] == ev[..k];
      if t.None? && ev[k].ts >= 0 && ev[k].text == Wrote(ch, duty) {
        t := Some(ev[k].ts);
      }
    }
    assert ev[..|ev|] == ev;
  }

  method RecomputeT1(ch: int, smp: seq<Sample>, ev: seq<Event>) returns (v: Verdict)
    requires 1 <= ch <= 4
    ensures v == Recomputed(ch, smp, ev)
  {
    var complete := FindComplete(ev);
    if !complete {
      return Inconclusive;
    }
    var steps: seq<Step> := [];
    for k := 0 to |T1_STEPS|
      invariant |steps| == k && forall i :: 0 <= i < k ==> steps[i] == StepOfLog(ch, smp, ev, T1_STEPS[i])
    {
      var t0 := FindWrite(ev, ch, T1_STEPS[k]);
      steps := steps + [Step(T1_STEPS[k], RowsOf(PhaseSamples(smp, T1Step(T1_STEPS[k])), t0))];
    }
    var d := Data(ch, TachOf(ch), RowsOf(PhaseSamples(smp, T1Rest), None), steps, TACHS);
    assert d == DataOfLog(ch, smp, ev);
    v := EvalT1(d);
  }
}
