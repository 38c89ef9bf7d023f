/** The mapping run: T1 of one channel (RunT1 in ectest/internal/runner/runner.go), and the proof
  that the report rebuilds its verdict from the stored log. */
module RunMapping {
  import opened Wrappers
  import opened StoredTime
  import opened RunLog
  import opened SpecRules
  import opened Mapping
  import opened RecomputeMapping
  import opened WorkerTrace
  import opened Runner
  import opened Procedure
  import StoredMapping

  /** One step: the stamp of its write and what its hold sampled. */
  datatype StepRec = StepRec(duty: int, at: int, got: seq<Sample>)

  function StepSamples(recs: seq<StepRec>): seq<Sample> {
    if recs == [] then [] else StepSamples(recs[..|recs|-1]) + recs[|recs|-1].got
  }

  function Writes(ch: int, recs: seq<StepRec>): (ev: seq<Event>)
    ensures |ev| == |recs| && forall i :: 0 <= i < |ev| ==> ev[i] == Event(recs[i].at, Wrote(ch, recs[i].duty))
  {
    seq(|recs|, i requires 0 <= i < |recs| => Event(recs[i].at, Wrote(ch, recs[i].duty)))
  }

  /** The steps in the order of the test. */
  predicate InOrder(recs: seq<StepRec>) {
    && |recs| <= |T1_STEPS|
    && forall i :: 0 <= i < |recs| ==>
         recs[i].duty == T1_STEPS[i] && recs[i].at >= 0 && Uniform(recs[i].got, T1Step(recs[i].duty))
  }

  function StepsOf(recs: seq<StepRec>): (s: seq<Step>)
    ensures |s| == |recs|
  {
    seq(|recs|, i requires 0 <= i < |recs| => Step(recs[i].duty, RowsOf(recs[i].got, Some(recs[i].at))))
  }

  function DataOf(ch: int, rest: seq<Sample>, recs: seq<StepRec>): Data {
    Data(ch, TachOf(ch), RowsOf(rest, None), StepsOf(recs), TACHS)
  }

  // ---- the rebuild is exact ----------------------------------------------------------

  predicate InMapping(p: Phase) {
    p.T1Rest? || p.T1Step?
  }

  lemma {:induction false} NotInMapping(before: seq<Sample>, phase: Phase)
    requires InMapping(phase) && forall i :: 0 <= i < |before| ==> !InMapping(before[i].phase)
    ensures PhaseSamples(before, phase) == []
  {
    if before != [] {
      NotInMapping(before[..|before|-1], phase);
    }
  }

  lemma StepPhases(recs: seq<StepRec>, phase: Phase)
    requires recs != [] && InOrder(recs)
    ensures PhaseSamples(StepSamples(recs), phase)
            == PhaseSamples(StepSamples(recs[..|recs|-1]), phase)
               + if phase == T1Step(recs[|recs|-1].duty) then recs[|recs|-1].got else []
  {
    var init, last := recs[..|recs|-1], recs[|recs|-1];
    PhaseSamplesOfSum(StepSamples(init), last.got, phase);
    PhaseSamplesUniform(last.got, T1Step(last.duty), phase);
  }

  lemma {:induction false} UnusedPhase(recs: seq<StepRec>, phase: Phase)
    requires InOrder(recs) && forall i :: 0 <= i < |recs| ==> phase != T1Step(recs[i].duty)
    ensures PhaseSamples(StepSamples(recs), phase) == []
  {
    if recs != [] {
      UnusedPhase(recs[..|recs|-1], phase);
      StepPhases(recs, phase);
    }
  }

  lemma DutiesDiffer(i: nat, j: nat)
    requires i < j < |T1_STEPS|
    ensures T1_STEPS[i] > T1_STEPS[j]
  {
  }

  /** A phase of the log holds the samples of its step, and nothing else. */
  lemma {:induction false} PhaseOfStep(recs: seq<StepRec>, i: nat)
    requires InOrder(recs) && i < |recs|
    ensures PhaseSamples(StepSamples(recs), T1Step(recs[i].duty)) == recs[i].got
  {
    var init, phase := recs[..|recs|-1], T1Step(recs[i].duty);
    StepPhases(recs, phase);
    if i < |init| {
      PhaseOfStep(init, i);
      DutiesDiffer(i, |init|);
    } else {
      forall j | 0 <= j < |init|
        ensures phase != T1Step(init[j].duty)
      {
        DutiesDiffer(j, i);
      }
      UnusedPhase(init, phase);
    }
  }

  /** The log of a mapping run. */
  ghost predicate LogOf(smp: seq<Sample>, before: seq<Sample>, rest: seq<Sample>, recs: seq<StepRec>) {
    && smp == before + rest + StepSamples(recs)
    && Uniform(rest, T1Rest) && InOrder(recs)
    && forall i :: 0 <= i < |before| ==> !InMapping(before[i].phase)
  }

  lemma PhasesOfLog(smp: seq<Sample>, before: seq<Sample>, rest: seq<Sample>, recs: seq<StepRec>, phase: Phase)
    requires LogOf(smp, before, rest, recs) && InMapping(phase)
    ensures PhaseSamples(smp, phase) == (if phase == T1Rest then rest else []) + PhaseSamples(StepSamples(recs), phase)
  {
    PhaseSamplesOfSum(before + rest, StepSamples(recs), phase);
    PhaseSamplesOfSum(before, rest, phase);
    NotInMapping(before, phase);
    PhaseSamplesUniform(rest, T1Rest, phase);
    var p := if phase == T1Rest then rest else [];
    assert [] + p == p;
  }

  /** The first write event of a step is its own. */
  lemma {:induction false} WriteTimeOfStep(ch: int, ev: seq<Event>, recs: seq<StepRec>, n: nat, i: nat)
    requires InOrder(recs) && i < |recs| && n <= |ev|
    requires forall k :: 0 <= k < |recs| && k < n ==> ev[k] == Event(recs[k].at, Wrote(ch, recs[k].duty))
    requires forall k :: |recs| <= k < n ==> !ev[k].text.Wrote?
    ensures WriteTime(ev[..n], ch, recs[i].duty) == if i < n then Some(recs[i].at) else None
  {
    if n > 0 {
      WriteTimeOfStep(ch, ev, recs, n - 1, i);
      assert ev[..n][..n-1] == ev[..n-1];
      assert recs[i].duty == T1_STEPS[i];
      if n - 1 < |recs| {
        assert recs[n-1].duty == T1_STEPS[n-1];
      }
    }
  }

  /** The events of a complete mapping run. */
  predicate EventsOfRun(ev: seq<Event>, ch: int, recs: seq<StepRec>, end: Event) {
    T1Events(ev) == Writes(ch, recs) + [end] && end.text.T1Complete?
  }

  lemma StepOfRun(ch: int, smp: seq<Sample>, ev: seq<Event>, before: seq<Sample>, rest: seq<Sample>, recs: seq<StepRec>,
                  end: Event, i: nat)
    requires LogOf(smp, before, rest, recs) && EventsOfRun(ev, ch, recs, end) && i < |recs|
    ensures StepOfLog(ch, smp, ev, recs[i].duty) == StepsOf(recs)[i]
  {
    PhasesOfLog(smp, before, rest, recs, T1Step(recs[i].duty));
    PhaseOfStep(recs, i);
    assert [] + recs[i].got == recs[i].got;
    var evs := T1Events(ev);
    WriteTimeOfStep(ch, evs, recs, |evs|, i);
    assert evs[..|evs|] == evs;
    OnlyT1Events(ev, ch, recs[i].duty);
  }

  /** From the exact log of a complete mapping run the report takes the data the runner evaluated. */
  lemma DataOfRun(ch: int, smp: seq<Sample>, ev: seq<Event>, before: seq<Sample>, rest: seq<Sample>, recs: seq<StepRec>,
                  end: Event)
    requires |recs| == |T1_STEPS| && LogOf(smp, before, rest, recs) && EventsOfRun(ev, ch, recs, end)
    ensures DataOfLog(ch, smp, ev) == DataOf(ch, rest, recs)
  {
    var got, want := DataOfLog(ch, smp, ev), DataOf(ch, rest, recs);
    PhasesOfLog(smp, before, rest, recs, T1Rest);
    UnusedPhase(recs, T1Rest);
    assert rest + [] == rest;
    forall i | 0 <= i < |T1_STEPS|
      ensures got.steps[i] == want.steps[i]
    {
      StepOfRun(ch, smp, ev, before, rest, recs, end, i);
    }
    assert got.steps == want.steps;
  }

  /** From its stored log the report rebuilds the verdict of the runner if and only if storing keeps
    the crossing of the other channels' table inputs or the verdict does not depend on it. */
  lemma RebuildIsExact(ch: int, smp: seq<Sample>, ev: seq<Event>, before: seq<Sample>, rest: seq<Sample>,
                       recs: seq<StepRec>, end: Event)
    requires 1 <= ch <= 4 && |recs| == |T1_STEPS|
    requires LogOf(smp, before, rest, recs) && EventsOfRun(ev, ch, recs, end)
    ensures Recomputed(ch, StoredSamples(smp), StoredEvents(ev)) == T1Of(DataOf(ch, rest, recs))
            <==> StoredMapping.Kept(ch, smp, ev)
  {
    DataOfRun(ch, smp, ev, before, rest, recs, end);
    assert T1Events(ev)[|recs|] == end;
    OnlyT1Complete(ev);
    StoredMapping.StoringKeepsExactly(ch, smp, ev);
  }

  /** A run that ended before its last step is undecided for the report too. */
  lemma RebuildIncomplete(ch: int, smp: seq<Sample>, ev: seq<Event>, recs: seq<StepRec>)
    requires 1 <= ch <= 4 && T1Events(ev) == Writes(ch, recs)
    ensures Recomputed(ch, StoredSamples(smp), StoredEvents(ev)) == Inconclusive && StoredMapping.Kept(ch, smp, ev)
  {
    OnlyT1Complete(ev);
    StoredMapping.CompleteOfStored(ev);
  }

  // ---- the run -------------------------------------------------------------------------

  /** The commands of the first n steps. */
  function T1Plan(n: nat): seq<Cmd>
    requires n <= |T1_STEPS|
  {
    if n == 0 then [Manual] else T1Plan(n - 1) + [Duty(T1_STEPS[n-1])]
  }

  /** All four steps, written out: T1 steps down from 255. */
  lemma T1PlanWritten()
    ensures T1Plan(|T1_STEPS|) == [Manual, Duty(255), Duty(217), Duty(179), Duty(140)]
  {
    assert T1Plan(1) == [Manual] + [Duty(255)];
    assert T1Plan(2) == T1Plan(1) + [Duty(217)];
    assert T1Plan(3) == T1Plan(2) + [Duty(179)];
    assert T1Plan(4) == T1Plan(3) + [Duty(140)];
  }

  lemma {:induction false} NotesKeepT1Events(before: seq<Event>, after: seq<Event>)
    requires OnlyNotes(before, after)
    ensures T1Events(after) == T1Events(before)
    decreases |after|
  {
    if |after| > |before| {
      NotesKeepT1Events(before, after[..|after|-1]);
    } else {
      assert after == before;
    }
  }

  lemma OneT1Event(ev: seq<Event>, e: Event)
    ensures T1Events(ev + [e]) == T1Events(ev) + if ForT1(e) then [e] else []
  {
  }

  /** What a mapping run adds between the logs `from` and `to`: its rest samples, its steps so far
    and their write events. */
  datatype AnyT1Log = T1Log(ch: int, from: Log, to: Log, rest: seq<Sample>, recs: seq<StepRec>)
  {
    ghost predicate Exact() {
      && to.samples == from.samples + rest + StepSamples(recs)
      && Uniform(rest, T1Rest) && InOrder(recs)
      && T1Events(to.events) == T1Events(from.events) + Writes(ch, recs)
      && Follows(from.trace, to.trace, T1Plan(|recs|), true)
    }
  }

  type T1Log = l: AnyT1Log | l.Exact() ghost witness T1LogNone()

  ghost function T1LogNone(): (l: AnyT1Log)
    ensures l.Exact()
  {
    var tr := Then(Start, Commanded(1, Manual, true));
    assert Commands(tr) == [Manual];
    T1Log(1, Log([], [], Start), Log([], [], tr), [], [])
  }

  lemma FirstT1Log(ch: int, from: Log, to: Log, rest: seq<Sample>)
    requires to.samples == from.samples + rest && Uniform(rest, T1Rest)
    requires T1Events(to.events) == T1Events(from.events) && Follows(from.trace, to.trace, [Manual], true)
    ensures T1Log(ch, from, to, rest, []).Exact()
  {
  }

  lemma StepRecorded(ch: int, recs: seq<StepRec>, rec: StepRec)
    ensures Writes(ch, recs + [rec]) == Writes(ch, recs) + [Event(rec.at, Wrote(ch, rec.duty))]
    ensures StepSamples(recs + [rec]) == StepSamples(recs) + rec.got
    ensures StepsOf(recs + [rec]) == StepsOf(recs) + [Step(rec.duty, RowsOf(rec.got, Some(rec.at)))]
  {
  }

  /** The next step in the order of the test. */
  predicate NextStep(recs: seq<StepRec>, rec: StepRec) {
    |recs| < |T1_STEPS| && rec.duty == T1_STEPS[|recs|] && rec.at >= 0 && Uniform(rec.got, T1Step(rec.duty))
  }

  lemma StepInOrder(recs: seq<StepRec>, rec: StepRec)
    requires InOrder(recs) && NextStep(recs, rec)
    ensures InOrder(recs + [rec])
  {
  }

  lemma StepAdded(l: T1Log, to: Log, rec: StepRec)
    requires NextStep(l.recs, rec)
    requires to.samples == l.to.samples + rec.got
    requires T1Events(to.events) == T1Events(l.to.events) + [Event(rec.at, Wrote(l.ch, rec.duty))]
    requires Follows(l.to.trace, to.trace, [Duty(rec.duty)], true)
    ensures T1Log(l.ch, l.from, to, l.rest, l.recs + [rec]).Exact()
  {
    StepInOrder(l.recs, rec);
    StepRecorded(l.ch, l.recs, rec);
    Associative(l.from.samples + l.rest, StepSamples(l.recs), rec.got);
    Associative(T1Events(l.from.events), Writes(l.ch, l.recs), [Event(rec.at, Wrote(l.ch, rec.duty))]);
    T1PlanStep(|l.recs|);
    FollowsOn(l.from.trace, l.to.trace, to.trace, T1Plan(|l.recs|), [Duty(rec.duty)], true);
    assert Follows(l.from.trace, to.trace, T1Plan(|l.recs + [rec]|), true);
  }

  lemma T1PlanStep(n: nat)
    requires n < |T1_STEPS|
    ensures T1Plan(n + 1) == T1Plan(n) + [Duty(T1_STEPS[n])]
  {
  }

  lemma {:induction false} T1PlanGrows(n: nat, k: nat)
    requires n <= k <= |T1_STEPS|
    ensures T1Plan(n) <= T1Plan(k)
  {
    if n < k {
      T1PlanGrows(n, k - 1);
    }
  }

  /** A run that ended after l, in the next step. */
  lemma StepEnded(l: T1Log, tr: Trace, done: bool)
    requires |l.recs| < |T1_STEPS| && Follows(l.to.trace, tr, [Duty(T1_STEPS[|l.recs|])], done)
    ensures Follows(l.from.trace, tr, T1Plan(|T1_STEPS|), false)
  {
    var n := |l.recs|;
    FollowsOn(l.from.trace, l.to.trace, tr, T1Plan(n), [Duty(T1_STEPS[n])], done);
    T1PlanStep(n);
    T1PlanGrows(n + 1, |T1_STEPS|);
    FollowsLonger(l.from.trace, tr, T1Plan(n + 1), T1Plan(|T1_STEPS|), false);
  }

  /** The rest reference and manual mode. */
  method Prepare(r: Run) returns (ok: bool, rest: seq<Sample>, ghost h: CadencedHold)
    requires r.Valid() && r.abort.None?
    modifies r, r.env
    ensures r.Valid()
    ensures ok <==> r.abort.None?
    ensures r.samples == old(r.samples) + rest && Uniform(rest, T1Rest)
    ensures T1Events(r.events) == T1Events(old(r.events))
    ensures Follows(old(r.env.trace), r.env.trace, [Manual], ok)
    ensures ok ==> r.cfg.channel in r.touched
    ensures ok ==>
              && old(r.env.clock) <= h.anchor
              && h == Hold(r.start, h.anchor, r.cfg.sample, r.cfg.hold, T1Rest, -1, h.watch, rest, h.slots, true, true)
  {
    ghost var ev := r.events;
    r.LogNote();
    var now := r.env.Now();
    NotesKeepT1Events(ev, r.events);
    ev := r.events;
    ok, rest, h := r.HoldRun(now, T1Rest, -1, r.cfg.hold);
    NotesKeepT1Events(ev, r.events);
    if !ok {
      return;
    }
    ev := r.events;
    var at;
    ok, at := ModeOrFail(r, Manual);
    NotesKeepT1Events(ev, r.events);
  }

  /** The hold of a step, behind its write. */
  method HoldOfStep(r: Run, at: int, duty: int) returns (ok: bool, rec: StepRec, ghost h: CadencedHold)
    requires r.Valid() && r.abort.None? && r.start <= at <= r.env.clock
    modifies r`samples, r`events, r`nanRun, r`hot, r`abort, r.env`clock, r.env`heard
    ensures r.Valid() && (ok <==> r.abort.None?)
    ensures rec == StepRec(duty, at - r.start, rec.got) && Uniform(rec.got, T1Step(duty))
    ensures r.samples == old(r.samples) + rec.got && T1Events(r.events) == T1Events(old(r.events))
    ensures h == Hold(r.start, at, r.cfg.sample, r.cfg.hold, T1Step(duty), duty, h.watch, rec.got, h.slots, h.clean, ok)
  {
    ghost var ev := r.events;
    var got;
    ok, got, h := r.HoldRun(at, T1Step(duty), duty, r.cfg.hold);
    NotesKeepT1Events(ev, r.events);
    rec := StepRec(duty, at - r.start, got);
  }

  /** One step: the write and its hold on the cadence of its event. None: the write failed. */
  method RunStep(r: Run, duty: int) returns (ok: bool, rec: Option<StepRec>, ghost h: CadencedHold)
    requires r.Valid() && r.abort.None? && MIN_DUTY <= duty <= MAX_DUTY
    modifies r, r.env
    ensures r.Valid() && old(r.touched) <= r.touched
    ensures (ok <==> r.abort.None?) && (ok ==> rec.Some?)
    ensures rec.Some? ==>
              && rec.value.duty == duty && rec.value.at >= 0 && Uniform(rec.value.got, T1Step(duty))
              && r.samples == old(r.samples) + rec.value.got
              && T1Events(r.events) == T1Events(old(r.events)) + [Event(rec.value.at, Wrote(r.cfg.channel, duty))]
    ensures rec.Some? ==>
              h == Hold(r.start, r.start + rec.value.at, r.cfg.sample, r.cfg.hold, T1Step(duty), duty, h.watch,
                        rec.value.got, h.slots, h.clean, ok)
    ensures rec.None? ==> r.samples == old(r.samples) && T1Events(r.events) == T1Events(old(r.events))
    ensures Follows(old(r.env.trace), r.env.trace, [Duty(duty)], rec.Some?)
  {
    ghost var ev := r.events;
    var at;
    ok, at := WriteOrFail(r, duty);
    if !ok {
      NotesKeepT1Events(ev, r.events);
      h := NO_HOLD;
      return false, None, h;
    }
    OneT1Event(ev, Event(at - r.start, Wrote(r.cfg.channel, duty)));
    var step;
    ok, step, h := HoldOfStep(r, at, duty);
    rec := Some(step);
  }

  /** One step after others; false when the run ended in it. */
  method AddStep(r: Run, k: nat, ghost l: T1Log) returns (ok: bool, step: Step, ghost l': T1Log)
    requires r.Valid() && r.abort.None? && l.to == Log(r.samples, r.events, r.env.trace)
    requires l.ch == r.cfg.channel && k == |l.recs| < |T1_STEPS|
    modifies r, r.env
    ensures r.Valid() && old(r.touched) <= r.touched
    ensures ok <==> r.abort.None?
    ensures l'.ch == l.ch && l'.from == l.from && l'.rest == l.rest && T1Events(r.events) == T1Events(l'.to.events)
    ensures ok ==>
              && l'.to == Log(r.samples, r.events, r.env.trace) && |l'.recs| == |l.recs| + 1
              && StepsOf(l'.recs) == StepsOf(l.recs) + [step]
    ensures !ok ==> Follows(l.from.trace, r.env.trace, T1Plan(|T1_STEPS|), false)
  {
    var rec;
    ghost var h;
    ok, rec, h := RunStep(r, T1_STEPS[k]);
    StepEnded(l, r.env.trace, rec.Some?);
    if rec.None? {
      return false, Step(0, []), l;
    }
    StepAdded(l, Log(r.samples, r.events, r.env.trace), rec.value);
    StepRecorded(l.ch, l.recs, rec.value);
    l' := T1Log(l.ch, l.from, Log(r.samples, r.events, r.env.trace), l.rest, l.recs + [rec.value]);
    step := Step(rec.value.duty, RowsOf(rec.value.got, Some(rec.value.at)));
  }

  /** A run whose log holds nothing of a mapping test yet. */
  predicate NoMappingYet(l: Log) {
    && (forall i :: 0 <= i < |l.samples| ==> !InMapping(l.samples[i].phase))
    && T1Events(l.events) == []
  }

  /** The T1 verdict a run returns is the one the report rebuilds from its stored log, if and only if
    storing keeps it. */
  ghost predicate Rebuilt(v: Verdict, ch: int, before: Log, smp: seq<Sample>, ev: seq<Event>)
    requires 1 <= ch <= 4
  {
    NoMappingYet(before) ==>
      (v == Recomputed(ch, StoredSamples(smp), StoredEvents(ev)) <==> StoredMapping.Kept(ch, smp, ev))
  }

  lemma NotRunRebuilt(ch: int, before: Log, smp: seq<Sample>, ev: seq<Event>, recs: seq<StepRec>)
    requires 1 <= ch <= 4 && T1Events(ev) == T1Events(before.events) + Writes(ch, recs)
    ensures Rebuilt(Inconclusive, ch, before, smp, ev)
  {
    if NoMappingYet(before) {
      assert T1Events(ev) == Writes(ch, recs);
      RebuildIncomplete(ch, smp, ev, recs);
    }
  }

  lemma CompleteRebuilt(l: T1Log, ev: seq<Event>, end: Event)
    requires 1 <= l.ch <= 4 && |l.recs| == |T1_STEPS| && end.text.T1Complete?
    requires T1Events(ev) == T1Events(l.to.events) + [end]
    ensures Rebuilt(T1Of(DataOf(l.ch, l.rest, l.recs)), l.ch, l.from, l.to.samples, ev)
  {
    if NoMappingYet(l.from) {
      assert T1Events(ev) == Writes(l.ch, l.recs) + [end];
      RebuildIsExact(l.ch, l.to.samples, ev, l.from.samples, l.rest, l.recs, end);
    }
  }

  lemma PreparedOnly(a: Trace, b: Trace)
    requires Follows(a, b, [Manual], false)
    ensures Follows(a, b, T1Plan(|T1_STEPS|), false)
  {
    T1PlanGrows(0, |T1_STEPS|);
    FollowsLonger(a, b, T1Plan(0), T1Plan(|T1_STEPS|), false);
  }

  /** What a mapping run leaves: a verdict the report rebuilds, and the commands of the procedure
    followed by one try to put the channel back, which only a complete run takes; `left`: the channel
    is still listed. */
  datatype AnyOutcome = Outcome(ch: int, v: Verdict, before: Log, after: Log, mid: Trace, complete: bool,
                                left: bool)
  {
    ghost predicate Exact() {
      && 1 <= ch <= 4
      && Rebuilt(v, ch, before, after.samples, after.events)
      && Follows(before.trace, mid, T1Plan(|T1_STEPS|), complete)
      && if complete then Tried(mid, after.trace, ch, false, !left) else mid == after.trace
    }
  }

  type Outcome = o: AnyOutcome | o.Exact() ghost witness OutcomeNone()

  ghost function OutcomeNone(): (o: AnyOutcome)
    ensures o.Exact()
  {
    NotRunRebuilt(1, Log([], [], Start), [], [], []);
    Outcome(1, Inconclusive, Log([], [], Start), Log([], [], Start), Start, false, false)
  }

  lemma EndedEarly(ch: int, before: Log, after: Log, recs: seq<StepRec>, left: bool) returns (o: Outcome)
    requires 1 <= ch <= 4
    requires T1Events(after.events) == T1Events(before.events) + Writes(ch, recs)
    requires Follows(before.trace, after.trace, T1Plan(|T1_STEPS|), false)
    ensures o == Outcome(ch, Inconclusive, before, after, after.trace, false, left)
  {
    NotRunRebuilt(ch, before, after.samples, after.events, recs);
    o := Outcome(ch, Inconclusive, before, after, after.trace, false, left);
  }

  lemma EndedInSteps(l: T1Log, after: Log, left: bool) returns (o: Outcome)
    requires 1 <= l.ch <= 4 && T1Events(after.events) == T1Events(l.to.events)
    requires Follows(l.from.trace, after.trace, T1Plan(|T1_STEPS|), false)
    ensures o == Outcome(l.ch, Inconclusive, l.from, after, after.trace, false, left)
  {
    o := EndedEarly(l.ch, l.from, after, l.recs, left);
  }

  lemma EndedWhole(l: T1Log, after: Log, end: Event, v: Verdict, left: bool) returns (o: Outcome)
    requires 1 <= l.ch <= 4 && |l.recs| == |T1_STEPS| && end.text.T1Complete?
    requires after.samples == l.to.samples && T1Events(after.events) == T1Events(l.to.events) + [end]
    requires Tried(l.to.trace, after.trace, l.ch, false, !left)
    requires v == T1Of(DataOf(l.ch, l.rest, l.recs))
    ensures o == Outcome(l.ch, v, l.from, after, l.to.trace, true, left)
  {
    CompleteRebuilt(l, after.events, end);
    o := Outcome(l.ch, v, l.from, after, l.to.trace, true, left);
  }

  /** The complete event and the restore. */
  method CompleteAndRestore(r: Run) returns (ghost end: Event)
    requires r.Valid() && r.abort.None? && r.cfg.channel in r.touched
    modifies r`events, r`touched, r`overrides, r.env
    ensures r.Valid() && Tried(old(r.env.trace), r.env.trace, r.cfg.channel, false, r.cfg.channel !in r.touched)
    ensures end.text.T1Complete? && T1Events(r.events) == T1Events(old(r.events)) + [end]
  {
    ghost var ev := r.events;
    var t := r.EventAt(T1Complete);
    end := Event(t - r.start, T1Complete);
    OneT1Event(ev, end);
    ev := r.events;
    var back := r.Restore(r.cfg.channel);
    NotesKeepT1Events(ev, r.events);
  }

  /** The four steps; false when the run ended before. */
  method RunSteps(r: Run, ghost first: T1Log) 
    returns (ok: bool, steps: seq<Step>, ghost l: T1Log, ghost o: Outcome)
    requires r.Valid() && r.abort.None? && first.to == Log(r.samples, r.events, r.env.trace)
    requires first.ch == r.cfg.channel && first.recs == []
    modifies r, r.env
    ensures r.Valid() && old(r.touched) <= r.touched
    ensures ok <==> r.abort.None?
    ensures l.ch == first.ch && l.from == first.from && l.rest == first.rest
    ensures ok ==> l.to == Log(r.samples, r.events, r.env.trace) && |l.recs| == |T1_STEPS| && steps == StepsOf(l.recs)
    ensures !ok ==> o == Outcome(first.ch, Inconclusive, first.from, Log(r.samples, r.events, r.env.trace), r.env.trace,
                                 false, first.ch in r.touched)
  {
    ok, steps, l, o := true, [], first, OutcomeNone();
    for k := 0 to |T1_STEPS|
      invariant r.Valid() && r.abort.None? && old(r.touched) <= r.touched && ok
      invariant l.ch == first.ch && l.from == first.from && l.rest == first.rest
      invariant l.to == Log(r.samples, r.events, r.env.trace) && |l.recs| == k && steps == StepsOf(l.recs)
    {
      var step;
      ok, step, l := AddStep(r, k, l);
      if !ok {
        o := EndedInSteps(l, Log(r.samples, r.events, r.env.trace), first.ch in r.touched);
        return;
      }
      steps := steps + [step];
    }
  }

  method Evaluate(ch: int, own: int, rest: seq<Sample>, steps: seq<Step>, tachs: seq<int>, ghost recs: seq<StepRec>)
    returns (v: Verdict)
    requires 1 <= ch <= 4 && own == TachOf(ch) && tachs == TACHS && steps == StepsOf(recs)
    ensures v == T1Of(DataOf(ch, rest, recs))
  {
    v := EvalT1(Data(ch, own, RowsOf(rest, None), steps, tachs));
  }

  /** The restore and the evaluation. */
  method Finish(r: Run, rest: seq<Sample>, steps: seq<Step>, ghost l: T1Log) returns (v: Verdict, ghost o: Outcome)
    requires r.Valid() && r.abort.None? && r.cfg.tachs == TACHS && r.cfg.ownTach == TachOf(r.cfg.channel)
    requires l.ch == r.cfg.channel && l.to == Log(r.samples, r.events, r.env.trace) && r.cfg.channel in r.touched
    requires |l.recs| == |T1_STEPS| && steps == StepsOf(l.recs) && l.rest == rest
    modifies r`events, r`touched, r`overrides, r.env
    ensures r.Valid()
    ensures o == Outcome(l.ch, v, l.from, Log(r.samples, r.events, r.env.trace), o.mid, true, l.ch in r.touched)
  {
    ghost var end := CompleteAndRestore(r);
    v := Evaluate(r.cfg.channel, r.cfg.ownTach, rest, steps, r.cfg.tachs, l.recs);
    o := EndedWhole(l, Log(r.samples, r.events, r.env.trace), end, v, l.ch in r.touched);
  }

  /** The steps and, when all of them were held, the restore and the evaluation. */
  method StepsAndFinish(r: Run, rest: seq<Sample>, ghost first: T1Log) returns (v: Verdict, ghost o: Outcome)
    requires r.Valid() && r.abort.None? && r.cfg.tachs == TACHS && r.cfg.ownTach == TachOf(r.cfg.channel)
    requires first.ch == r.cfg.channel && first.to == Log(r.samples, r.events, r.env.trace)
    requires first.rest == rest && first.recs == [] && r.cfg.channel in r.touched
    modifies r, r.env
    ensures r.Valid()
    ensures r.abort.Some? ==> v == Inconclusive
    ensures o == Outcome(first.ch, v, first.from, Log(r.samples, r.events, r.env.trace), o.mid, r.abort.None?,
                         first.ch in r.touched)
  {
    var ok, steps;
    ghost var l;
    ok, steps, l, o := RunSteps(r, first);
    if !ok {
      return Inconclusive, o;
    }
    v, o := Finish(r, rest, steps, l);
  }

  /** T1 of the channel under test. Without the duty registers or after an abort nothing is
    written; a run that ends early is undecided, and so it is for the report. */
  method RunT1(r: Run) returns (v: Verdict, ghost o: Outcome)
    requires r.Valid() && r.cfg.tachs == TACHS && r.cfg.ownTach == TachOf(r.cfg.channel)
    modifies r, r.env
    ensures r.Valid()
    ensures !r.dcrOK || old(r.abort).Some? ==> v == Inconclusive && r.env.trace == old(r.env.trace)
    ensures r.abort.Some? ==> v == Inconclusive
    ensures o == Outcome(r.cfg.channel, v, Log(old(r.samples), old(r.events), old(r.env.trace)),
                         Log(r.samples, r.events, r.env.trace), o.mid, r.dcrOK && r.abort.None?,
                         r.cfg.channel in r.touched)
  {
    var ch := r.cfg.channel;
    ghost var before := Log(r.samples, r.events, r.env.trace);
    if !r.dcrOK || r.abort.Some? {
      o := EndedEarly(ch, before, before, [], ch in r.touched);
      return Inconclusive, o;
    }
    ghost var h;
    var ok, rest;
    ok, rest, h := Prepare(r);
    ghost var after := Log(r.samples, r.events, r.env.trace);
    if !ok {
      PreparedOnly(before.trace, after.trace);
      o := EndedEarly(ch, before, after, [], ch in r.touched);
      return Inconclusive, o;
    }
    FirstT1Log(ch, before, after, rest);
    v, o := StepsAndFinish(r, rest, T1Log(ch, before, after, rest, []));
  }
}
