/** The offline rebuild of T2 and T3 from the stored log (recomputeT2 and the comparison with
  the stored verdicts in ectest/internal/report/recompute.go). */
module RecomputeHandback {
  import opened Wrappers
  import opened StoredTime
  import opened RunLog
  import opened SpecRules
  import opened StoredInputs
  import opened Handback
  import opened Aggregate
  import opened HandbackData

  const NOT_RUN := TestResult(Inconclusive, [])
  const NOT_APPLICABLE := TestResult(Verdict.NotApplicable, [])

  /** The auto events of the sub-runs, in the order of the log. */
  function AutoEvents(ev: seq<Event>): (r: seq<Event>)
    ensures forall i :: 0 <= i < |r| ==> r[i].text.T2AutoSent?
  {
    if ev == [] then []
    else if ev[|ev|-1].text.T2AutoSent? then AutoEvents(ev[..|ev|-1]) + [ev[|ev|-1]]
    else AutoEvents(ev[..|ev|-1])
  }

  /** What the report knows about the run before it looks at the sub-runs. */
  datatype AnyContext = Context(ch: int, a: seq<Option<int>>, m: int, preCrossed: bool)

  /** There is an automatic value, known or not, for every judged register. */
  type Context = c: AnyContext | |c.a| == |JudgedRegs(c.ch)| witness Context(0, [], MIN_DUTY, false)

  function ContextOf(ch: int, pre: seq<Sample>): (c: Context)
    ensures c.ch == ch
  {
    var a := AutoValues(ch, pre);
    var primary := if a == [] || a[0].None? then 0 else a[0].value;
    Context(ch, a, MValue(primary), InputCrossed(ch, Inputs(ch, pre)))
  }

  /** A of the channel is known. */
  predicate Measured(c: Context) {
    c.a != [] && c.a[0].Some?
  }

  /** The context takes A of every judged register from the last sample of the window that shows it, M from
    A of the primary one, and the crossing of the window from its table inputs. */
  lemma ContextOfWindow(ch: int, pre: seq<Sample>)
    requires 1 <= ch <= 4
    ensures var c := ContextOf(ch, pre);
            && (Measured(c) <==> KnownIn(ch, pre))
            && (Measured(c) ==> DutyOfWindow(ch, pre, c.m))
            && (forall k, v :: 0 <= k < |c.a| ==>
                  (c.a[k] == Some(v) <==>
                     exists i :: LastShown(pre, JudgedRegs(ch)[k], i) && RegDcr(pre[i], JudgedRegs(ch)[k]) == v))
            && (c.preCrossed <==> CrossedIn(ch, pre))
  {
    CrossedExact(ch, pre);
    forall k | 0 <= k < |JudgedRegs(ch)|
      ensures forall v :: AutoValue(pre, JudgedRegs(ch)[k]) == Some(v) <==>
                            exists i :: LastShown(pre, JudgedRegs(ch)[k], i) && RegDcr(pre[i], JudgedRegs(ch)[k]) == v
    {
      AutoValueExact(pre, JudgedRegs(ch)[k]);
    }
    AutoValueExact(pre, JudgedRegs(ch)[0]);
  }

  /** The duty written in a sub-run: the one its hold samples name, else the one of its label. */
  function WrittenDuty(hold: seq<Sample>, sub: Label, m: int): int {
    if hold == [] then (if sub == H then MAX_DUTY else m)
    else if hold[0].written >= 0 then hold[0].written
    else WrittenDuty(hold[1..], sub, m)
  }

  ghost function SubOf(c: Context, smp: seq<Sample>, e: Event): Merged
    requires e.text.T2AutoSent?
  {
    var hold := PhaseSamples(smp, T2Hold(e.text.rep, e.text.sub));
    var auto := PhaseSamples(smp, T2Auto(e.text.rep, e.text.sub));
    SubEvaluation(c.ch, e.text.sub, WrittenDuty(hold, e.text.sub, c.m), hold, auto, e.ts, c.a, c.preCrossed)
  }

  /** The sub-runs grouped by repetition: an event of another repetition opens a new group. */
  ghost function Groups(c: Context, smp: seq<Sample>, evs: seq<Event>): seq<seq<Merged>>
    requires forall i :: 0 <= i < |evs| ==> evs[i].text.T2AutoSent?
  {
    if evs == [] then []
    else
      var init, last := evs[..|evs|-1], evs[|evs|-1];
      AddTo(Groups(c, smp, init), init != [] && init[|init|-1].text.rep == last.text.rep, SubOf(c, smp, last))
  }

  /** The T2 or T3 result of a log. */
  ghost function Recomputed(t: Test, ch: int, aborted: bool, smp: seq<Sample>, ev: seq<Event>): TestResult {
    if ch == PCIE_CHANNEL then NOT_APPLICABLE
    else
      var pre := PhaseSamples(smp, T2Pre);
      var c := ContextOf(ch, pre);
      if !Measured(c) then NOT_RUN
      else TestOf(t, Groups(c, smp, AutoEvents(ev)), aborted)
  }

  /** One more auto event. */
  lemma GroupsStep(c: Context, smp: seq<Sample>, evs: seq<Event>, e: Event)
    requires forall i :: 0 <= i < |evs| ==> evs[i].text.T2AutoSent?
    requires e.text.T2AutoSent?
    ensures Groups(c, smp, evs + [e])
            == AddTo(Groups(c, smp, evs), evs != [] && evs[|evs|-1].text.rep == e.text.rep, SubOf(c, smp, e))
  {
  }

  method EvalSub(c: Context, smp: seq<Sample>, e: Event) returns (m: Merged)
    requires e.text.T2AutoSent?
    ensures m == SubOf(c, smp, e)
  {
    var hold := PhaseSamples(smp, T2Hold(e.text.rep, e.text.sub));
    var auto := PhaseSamples(smp, T2Auto(e.text.rep, e.text.sub));
    m := EvalSubRun(c.ch, e.text.sub, WrittenDuty(hold, e.text.sub, c.m), hold, auto, e.ts, c.a, c.preCrossed);
  }

  /** The event loop of the report. */
  method RebuildRuns(c: Context, smp: seq<Sample>, ev: seq<Event>) returns (runs: seq<seq<Merged>>)
    ensures runs == Groups(c, smp, AutoEvents(ev))
  {
    runs := [];
    var cur: int := 0;
    ghost var evs: seq<Event> := [];
    for k := 0 to |ev|
      invariant evs == AutoEvents(ev[..k])
      invariant runs == Groups(c, smp, evs)
      invariant cur == if evs == [] then 0 else evs[|evs|-1].text.rep
    {
      assert ev[..k+1][..k] == ev[..k];
      var e := ev[k];
      if e.text.T2AutoSent? {
        var m := EvalSub(c, smp, e);
        GroupsStep(c, smp, evs, e);
        if e.text.rep != cur {
          runs, cur := runs + [[m]], e.text.rep;
        } else {
          runs := runs[..|runs|-1] + [runs[|runs|-1] + [m]];
        }
        evs := evs + [e];
      }
    }
    assert ev[..|ev|] == ev;
  }

  method RecomputeT2(ch: int, aborted: bool, smp: seq<Sample>, ev: seq<Event>) returns (t2: TestResult, t3: TestResult)
    ensures t2 == Recomputed(T2, ch, aborted, smp, ev) && t3 == Recomputed(T3, ch, aborted, smp, ev)
  {
    if ch == PCIE_CHANNEL {
      return NOT_APPLICABLE, NOT_APPLICABLE;
    }
    var c := ContextOf(ch, PhaseSamples(smp, T2Pre));
    if !Measured(c) {
      return NOT_RUN, NOT_RUN;
    }
    var runs := RebuildRuns(c, smp, ev);
    t2, t3 := FinishHandback(runs, aborted);
  }
}
