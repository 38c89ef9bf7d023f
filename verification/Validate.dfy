/** A whole validation run (validation.run in ectest/cmd/n5-ectest/validate.go): the first sample,
  the gate window, one test, and the restore on every exit path. */
module Validate {
  import opened Wrappers
  import opened StoredTime
  import opened RunLog
  import opened SpecRules
  import opened Aggregate
  import opened HandbackData
  import opened RecomputeHandback
  import opened WorkerTrace
  import opened Env
  import opened Runner
  import opened Procedure
  import opened Compare
  import C = Cadence
  import RM = RecomputeMapping
  import RunMapping
  import RunHandback
  import StoredHandback
  import StoredMapping

  datatype Kind = Mapping | Handback

  /** The configuration of the specification for a channel. */
  function SpecConfig(ch: int): Config {
    Config(ch, RM.TachOf(ch), RM.TACHS, T1_STEP_HOLD_S * NS_PER_S, SAMPLE_S * NS_PER_S, T3LimitS(ch) * NS_PER_S,
           PreWindowS(ch) * NS_PER_S, GATE_WINDOW_S * NS_PER_S, RUNS_REQUIRED)
  }

  /** It is a valid one; a hold has 12 samples, and the samples after a hand-back reach the T3 limit
    and the 120 s behind it. */
  lemma SpecConfigTiming(ch: int)
    requires 1 <= ch <= 4
    ensures SpecConfig(ch).Valid()
    ensures C.Slots(SpecConfig(ch).hold, SpecConfig(ch).sample) == 12
    ensures var c := SpecConfig(ch);
            C.Due(0, c.sample, C.Slots(c.HandbackObserve(), c.sample)) == (T3LimitS(ch) + SETTLE_HOLD_S) * NS_PER_S
  {
  }

  /** The stored results of a run: the verdict of the one test it was started for. */
  datatype Results = T1Result(v: Verdict) | T2T3Results(t2: TestResult, t3: TestResult)

  function NotRun(kind: Kind, ch: int): Results {
    if kind == Mapping then T1Result(Inconclusive)
    else if ch == PCIE_CHANNEL then T2T3Results(NOT_APPLICABLE, NOT_APPLICABLE)
    else T2T3Results(NOT_RUN, NOT_RUN)
  }

  /** What the report computes from the stored samples and events of a bundle. */
  ghost function Report(kind: Kind, ch: int, aborted: bool, smp: seq<Sample>, ev: seq<Event>): Results
    requires 1 <= ch <= 4
  {
    if kind == Mapping then T1Result(RM.Recomputed(ch, smp, ev))
    else T2T3Results(RecomputeHandback.Recomputed(T2, ch, aborted, smp, ev),
                     RecomputeHandback.Recomputed(T3, ch, aborted, smp, ev))
  }

  /** Storing keeps the crossings of the log, or its results do not depend on them. */
  ghost predicate Kept(kind: Kind, ch: int, smp: seq<Sample>, ev: seq<Event>)
    requires 1 <= ch <= 4
  {
    if kind == Mapping then StoredMapping.Kept(ch, smp, ev) else StoredHandback.Kept(ch, smp, ev)
  }

  /** The table inputs that the test uses are stable: those of the channel in the samples of a
    hand-back, those of the other channels in the samples of a mapping test. */
  ghost predicate Storable(kind: Kind, ch: int, smp: seq<Sample>, ev: seq<Event>)
    requires 1 <= ch <= 4
  {
    if kind == Mapping then StoredMapping.DataStable(RM.DataOfLog(ch, smp, ev)) else HandbackStable(ch, smp)
  }

  /** That is enough, */
  lemma StorableIsKept(kind: Kind, ch: int, smp: seq<Sample>, ev: seq<Event>)
    requires 1 <= ch <= 4 && Storable(kind, ch, smp, ev)
    ensures Kept(kind, ch, smp, ev)
  {
    if kind == Mapping {
      StoredMapping.StableIsKept(RM.DataOfLog(ch, smp, ev));
    } else {
      StoredHandback.StableIsKept(ch, smp, ev);
    }
  }

  /** ... and readings with at most one decimal are stable, and so are all readings of the driver. */
  lemma RepresentableIsStorable(kind: Kind, ch: int, smp: seq<Sample>, ev: seq<Event>)
    requires 1 <= ch <= 4 && AllRepresentable(smp)
    ensures Storable(kind, ch, smp, ev)
  {
    if kind == Mapping {
      StoredMapping.RepresentableIsStable(ch, smp, ev);
    } else {
      RepresentableIsStable(ch, smp);
    }
  }

  /** The results of a run are the ones the report computes from its stored log, if and only if storing
    keeps what they depend on. */
  ghost predicate Agrees(kind: Kind, ch: int, aborted: bool, l: Log, res: Results)
    requires 1 <= ch <= 4
  {
    res == Report(kind, ch, aborted, StoredSamples(l.samples), StoredEvents(l.events))
    <==> Kept(kind, ch, l.samples, l.events)
  }

  predicate Fresh(l: Log) {
    RunMapping.NoMappingYet(l) && RunHandback.NoHandbackYet(l)
  }

  predicate BeforeTests(p: Phase) {
    p == Boot || p == Gate
  }

  lemma {:induction false} OnlyNotesIsFresh(ev: seq<Event>)
    requires OnlyNotes([], ev)
    ensures RM.T1Events(ev) == [] && AutoEvents(ev) == []
  {
    RunMapping.NotesKeepT1Events([], ev);
    RunHandback.NotesKeepAutoEvents([], ev);
  }

  /** A run that took no test: the report finds none either. */
  lemma NotRunAgrees(kind: Kind, ch: int, aborted: bool, l: Log)
    requires 1 <= ch <= 4 && Fresh(l)
    ensures Agrees(kind, ch, aborted, l, NotRun(kind, ch))
  {
    if kind == Mapping {
      RunMapping.NotRunRebuilt(ch, l, l.samples, l.events, []);
    } else if ch != PCIE_CHANNEL {
      assert l.samples == l.samples + [];
      RunHandback.NotRunRebuilt(ch, l, [], l.samples, l.events, aborted);
    }
  }

  /** The log so far holds only the first sample and the gate window. */
  predicate OnlyGates(smp: seq<Sample>, ev: seq<Event>) {
    (forall i :: 0 <= i < |smp| ==> BeforeTests(smp[i].phase)) && OnlyNotes([], ev)
  }

  lemma OnlyGatesIsFresh(smp: seq<Sample>, ev: seq<Event>, tr: Trace)
    requires OnlyGates(smp, ev)
    ensures Fresh(Log(smp, ev, tr))
  {
    OnlyNotesIsFresh(ev);
  }

  /** One sample outside a hold; what it shows may end the run. */
  method SampleOnce(r: Run, phase: Phase)
    requires r.Valid() && r.abort.None? && BeforeTests(phase) && OnlyGates(r.samples, r.events)
    modifies r`samples, r`events, r`nanRun, r`hot, r`abort, r.env`clock, r.env`heard
    ensures r.Valid() && OnlyGates(r.samples, r.events)
    ensures |r.samples| == |old(r.samples)| + 1 && old(r.samples) <= r.samples
    ensures r.samples[|old(r.samples)|].phase == phase
    ensures r.samples[|old(r.samples)|].WellFormed()
    ensures r.abort.Some? ==> Justified(r.abort.value, r.samples[|old(r.samples)|], r.cfg.tachs, r.limitSensors)
  {
    ghost var before := r.samples;
    var s, why, readAt := r.SampleAt(phase, -1, None);
    AllInLimitsSum(before, [s], r.cfg.tachs);
    if why.Some? {
      r.Stop(why.value);
    }
  }

  /** The gate window, without writes: a sample and a hold of the length of the window. Which limit sensors
    had a value in it is decided from its samples when it was completed. */
  method Gates(r: Run) returns (ghost h: CadencedHold)
    requires r.Valid() && r.abort.None? && OnlyGates(r.samples, r.events)
    modifies r`samples, r`events, r`nanRun, r`hot, r`abort, r`limitSensors, r.env`clock, r.env`heard
    ensures r.Valid() && OnlyGates(r.samples, r.events)
    ensures r.abort.None? ==>
              && |r.samples| == |old(r.samples)| + 1 + |h.got| && r.samples[|old(r.samples)| + 1..] == h.got
              && h == Hold(r.start, h.anchor, r.cfg.sample, r.cfg.window, Gate, -1, h.watch, h.got, h.slots, true, true)
    ensures r.abort.Some? ==> r.limitSensors == old(r.limitSensors)
    ensures old(r.samples) <= r.samples
  {
    h := NO_HOLD;
    SampleOnce(r, Gate);
    if r.abort.None? {
      var now := r.env.Now();
      var ok, got;
      ok, got, h := r.HoldRun(now, Gate, -1, r.cfg.window);
      if ok {
        var sensors: set<Sensor> := *;
        r.limitSensors := sensors;
      }
    }
  }

  /** The commands of a whole test; m is the second duty of a hand-back. */
  function ProcedureOf(kind: Kind, repeat: nat, m: int): seq<Cmd> {
    if kind == Mapping then RunMapping.T1Plan(|T1_STEPS|) else [EcAuto] + RunHandback.Plan(repeat, m)
  }

  /** The commands sent are a beginning of the procedure. A run that took its test with the duty registers and
    was not aborted (`done`) sent all of it, with m from the last reading of the A window; only a hand-back
    whose window shows no A stopped behind its first automatic command. */
  predicate Keeps(cmds: seq<Cmd>, kind: Kind, ch: int, repeat: nat, m: int, smp: seq<Sample>, done: bool)
    requires 1 <= ch <= 4
  {
    && MIN_DUTY <= m <= MAX_M
    && cmds <= ProcedureOf(kind, repeat, m)
    && (done && kind == Mapping ==> cmds == ProcedureOf(kind, repeat, m))
    && (done && kind == Handback && ch != PCIE_CHANNEL ==>
          var pre := PhaseSamples(smp, T2Pre);
          if KnownIn(ch, pre) then cmds == ProcedureOf(kind, repeat, m) && DutyOfWindow(ch, pre, m)
          else cmds == [EcAuto] && pre != [])
  }

  lemma FollowsFromStart(tr: Trace, plan: seq<Cmd>, done: bool)
    requires Follows(Start, tr, plan, done)
    ensures Commands(tr) <= plan && (done ==> Commands(tr) == plan)
  {
    assert Commands(tr)[0..] == Commands(tr);
    assert [] + plan == plan;
  }

  /** The test. */
  method RunTest(r: Run, kind: Kind) returns (res: Results, ghost m: int, ghost mid: Trace)
    requires r.Valid() && r.abort.None? && OnlyGates(r.samples, r.events) && r.env.trace == Start
    requires r.cfg.tachs == RM.TACHS && r.cfg.ownTach == RM.TachOf(r.cfg.channel)
    modifies r, r.env
    ensures r.Valid()
    ensures Agrees(kind, r.cfg.channel, r.abort.Some?, Log(r.samples, r.events, r.env.trace), res)
    ensures Keeps(Commands(mid), kind, r.cfg.channel, r.cfg.repeat, m, r.samples, r.dcrOK && r.abort.None?)
    ensures Closing(mid, r.env.trace, r.HotChannel())
  {
    OnlyGatesIsFresh(r.samples, r.events, r.env.trace);
    if kind == Mapping {
      var v;
      v, mid := RunMappingTest(r);
      return T1Result(v), MIN_DUTY, mid;
    }
    var t2, t3;
    t2, t3, m, mid := RunHandbackTest(r);
    return T2T3Results(t2, t3), m, mid;
  }

  method RunMappingTest(r: Run) returns (v: Verdict, ghost mid: Trace)
    requires r.Valid() && r.abort.None? && r.env.trace == Start
    requires RunMapping.NoMappingYet(Log(r.samples, r.events, r.env.trace))
    requires r.cfg.tachs == RM.TACHS && r.cfg.ownTach == RM.TachOf(r.cfg.channel)
    modifies r, r.env
    ensures r.Valid()
    ensures Agrees(Mapping, r.cfg.channel, r.abort.Some?, Log(r.samples, r.events, r.env.trace), T1Result(v))
    ensures Keeps(Commands(mid), Mapping, r.cfg.channel, r.cfg.repeat, MIN_DUTY, r.samples, r.dcrOK && r.abort.None?)
    ensures Closing(mid, r.env.trace, r.HotChannel())
  {
    ghost var o;
    v, o := RunMapping.RunT1(r);
    assert RunMapping.Rebuilt(o.v, o.ch, o.before, o.after.samples, o.after.events);
    FollowsFromStart(o.mid, RunMapping.T1Plan(|T1_STEPS|), r.dcrOK && r.abort.None?);
    if r.dcrOK && r.abort.None? {
      TriedIsClosing(o.mid, r.env.trace, o.ch, 0, !o.left);
    }
    mid := o.mid;
  }

  method RunHandbackTest(r: Run) returns (t2: TestResult, t3: TestResult, ghost m: int, ghost mid: Trace)
    requires r.Valid() && r.abort.None? && r.env.trace == Start
    requires RunHandback.NoHandbackYet(Log(r.samples, r.events, r.env.trace))
    modifies r, r.env
    ensures r.Valid()
    ensures Agrees(Handback, r.cfg.channel, r.abort.Some?, Log(r.samples, r.events, r.env.trace), T2T3Results(t2, t3))
    ensures Keeps(Commands(mid), Handback, r.cfg.channel, r.cfg.repeat, m, r.samples, r.dcrOK && r.abort.None?)
    ensures Closing(mid, r.env.trace, r.HotChannel())
  {
    ghost var o;
    t2, t3, o := RunHandback.RunHandback(r);
    m, mid := MIN_DUTY, Start;
    if r.cfg.channel != PCIE_CHANNEL {
      FollowsFromStart(o.mid, [EcAuto] + RunHandback.Plan(o.repeat, o.m), !o.aborted && o.back.Some?);
      m, mid := o.m, o.mid;
      if o.back.Some? {
        TriedIsClosing(o.mid, r.env.trace, o.ch, o.hot, o.back.value);
      }
    }
  }

  // ---- the end of a run -----------------------------------------------------------------

  lemma SameT1Events(ch: int, smp: seq<Sample>, ev: seq<Event>, ev': seq<Event>)
    requires RM.T1Events(ev) == RM.T1Events(ev')
    ensures RM.DataOfLog(ch, smp, ev) == RM.DataOfLog(ch, smp, ev')
    ensures RM.HasComplete(ev) == RM.HasComplete(ev')
  {
    RM.OnlyT1Complete(ev);
    RM.OnlyT1Complete(ev');
    forall duty: int
      ensures RM.WriteTime(ev, ch, duty) == RM.WriteTime(ev', ch, duty)
    {
      RM.OnlyT1Events(ev, ch, duty);
      RM.OnlyT1Events(ev', ch, duty);
    }
    assert RM.DataOfLog(ch, smp, ev).steps == RM.DataOfLog(ch, smp, ev').steps;
  }

  lemma NotesKeepMapping(ch: int, smp: seq<Sample>, ev: seq<Event>, ev': seq<Event>)
    requires 1 <= ch <= 4 && OnlyNotes(ev, ev')
    ensures RM.Recomputed(ch, StoredSamples(smp), StoredEvents(ev))
            == RM.Recomputed(ch, StoredSamples(smp), StoredEvents(ev'))
    ensures StoredMapping.Kept(ch, smp, ev) == StoredMapping.Kept(ch, smp, ev')
  {
    RunMapping.NotesKeepT1Events(ev, ev');
    RM.T1EventsOfStored(ev);
    RM.T1EventsOfStored(ev');
    SameT1Events(ch, smp, ev, ev');
    SameT1Events(ch, StoredSamples(smp), StoredEvents(ev), StoredEvents(ev'));
  }

  lemma NotesKeepHandback(t: Test, ch: int, aborted: bool, smp: seq<Sample>, ev: seq<Event>, ev': seq<Event>)
    requires OnlyNotes(ev, ev')
    ensures RecomputeHandback.Recomputed(t, ch, aborted, StoredSamples(smp), StoredEvents(ev))
            == RecomputeHandback.Recomputed(t, ch, aborted, StoredSamples(smp), StoredEvents(ev'))
    ensures StoredHandback.Kept(ch, smp, ev) == StoredHandback.Kept(ch, smp, ev')
  {
    RunHandback.NotesKeepAutoEvents(ev, ev');
    StoredHandback.AutoEventsOfStored(ev);
    StoredHandback.AutoEventsOfStored(ev');
  }

  /** Lines the report does not use change nothing for it. */
  lemma NotesKeepAgreement(kind: Kind, ch: int, aborted: bool, l: Log, l': Log, res: Results)
    requires 1 <= ch <= 4 && Agrees(kind, ch, aborted, l, res)
    requires l'.samples == l.samples && OnlyNotes(l.events, l'.events)
    ensures Agrees(kind, ch, aborted, l', res)
  {
    if kind == Mapping {
      NotesKeepMapping(ch, l.samples, l.events, l'.events);
    } else {
      NotesKeepHandback(T2, ch, aborted, l.samples, l.events, l'.events);
      NotesKeepHandback(T3, ch, aborted, l.samples, l.events, l'.events);
    }
  }

  /** Every channel that was sent anything is back. */
  ghost predicate AllBack(tr: Trace) {
    forall ch :: WasSent(tr, ch) ==> EndsBack(Of(tr, ch))
  }

  lemma NothingListedIsBack(r: Run)
    requires r.Valid() && r.touched == {}
    ensures AllBack(r.env.trace) && Replay(r.env.trace).dirty == {}
  {
    EmptySet(Replay(r.env.trace).dirty);
    forall ch | WasSent(r.env.trace, ch)
      ensures EndsBack(Of(r.env.trace, ch))
    {
      r.UnlistedIsBack(ch);
    }
  }

  lemma HotIsHeld(r: Run)
    requires r.Valid() && r.HotChannel() != 0
    requires r.HotChannel() in r.touched || r.HotChannel() in r.overrides
    ensures r.HotChannel() in r.touched || EndsAt255(Of(r.env.trace, r.HotChannel()))
  {
    if r.HotChannel() !in r.touched {
      r.UnlistedIsBack(r.HotChannel());
    }
  }

  lemma NoneListed(touched: set<int>)
    requires touched <= CHANNELS && Listed(touched, 4) == []
    ensures touched == {}
  {
  }

  /** One more close after n closes since t0. */
  method CloseOnce(r: Run, ghost t0: Trace, ghost listed: set<int>, ghost n: nat)
    requires r.Valid() && Closed(t0, r.env.trace, r.HotChannel(), listed, r.ToRestore(), n)
    modifies r`touched, r`overrides, r`events, r.env
    ensures r.Valid() && OnlyNotes(old(r.events), r.events)
    ensures Closed(t0, r.env.trace, r.HotChannel(), listed, r.ToRestore(), n + 1) && r.ToRestore() == r.touched
    ensures old(r.ToRestore()) == {} ==> r.touched == {} && r.env.trace == old(r.env.trace)
  {
    ghost var toRestore := r.ToRestore();
    ghost var at := r.Close();
    OneMoreClose(t0, at, r.HotChannel(), listed, toRestore, r.touched, n);
    if toRestore == {} {
      NothingToClose(at, r.HotChannel(), r.touched);
      assert forall ch :: ch in r.touched ==> 1 <= ch <= 4;
      EmptySet(r.touched);
    }
  }

  /** Closes a run that is over at once. */
  method CloseOnAbort(r: Run, cancelled: bool) returns (over: bool)
    requires r.Valid()
    modifies r`touched, r`overrides, r`events, r.env
    ensures r.Valid() && OnlyNotes(old(r.events), r.events)
    ensures over == (r.abort.Some? || cancelled)
    ensures Closed(old(r.env.trace), r.env.trace, r.HotChannel(), old(r.ToRestore()), r.ToRestore(),
                   if over then 1 else 0)
    ensures old(r.ToRestore()) == {} ==> r.ToRestore() == {} && r.env.trace == old(r.env.trace)
  {
    over := r.abort.Some? || cancelled;
    if over {
      CloseOnce(r, r.env.trace, r.ToRestore(), 0);
    }
  }

  /** The restore on every exit path, by two closes, three when the run was aborted or cancelled: every
    channel to restore is tried in each of them until that worked. True when the state file may be
    marked restored. */
  method End(r: Run, cancelled: bool) returns (restored: bool, ghost closes: nat)
    requires r.Valid()
    modifies r`touched, r`overrides, r`events, r.env
    ensures r.Valid() && OnlyNotes(old(r.events), r.events)
    ensures restored <==> r.touched == {}
    ensures closes == if r.abort.Some? || cancelled then 3 else 2
    ensures Closed(old(r.env.trace), r.env.trace, r.HotChannel(), old(r.ToRestore()), r.touched, closes)
    ensures r.ToRestore() == r.touched
    ensures old(r.ToRestore()) == {} ==> r.env.trace == old(r.env.trace)
  {
    ghost var t0, listed := r.env.trace, r.ToRestore();
    var over := CloseOnAbort(r, cancelled);
    closes := if over then 1 else 0;
    CloseOnce(r, t0, listed, closes);
    r.LogNote();
    CloseOnce(r, t0, listed, closes + 1);
    closes := closes + 2;
    restored := r.Unrestored() == [];
    if restored {
      NoneListed(r.touched);
    }
  }

  /** What a run leaves: every channel that was sent anything is back, or listed and failed in each of the
    last n closes; with nothing listed no channel is dirty; the hot channel is listed or at 255. */
  ghost predicate Ended(tr: Trace, hot: int, touched: set<int>, n: nat) {
    && (forall ch :: WasSent(tr, ch) && ch !in touched ==> EndsBack(Of(tr, ch)))
    && (forall ch :: ch in touched ==> EndsInFailures(Of(tr, ch), ch, ch == hot, n))
    && (touched == {} ==> AllBack(tr) && Replay(tr).dirty == {})
    && (hot != 0 ==> hot in touched || EndsAt255(Of(tr, hot)))
  }

  lemma EndLeaves(r: Run, t0: Trace, listed: set<int>, n: nat)
    requires r.Valid() && Closed(t0, r.env.trace, r.HotChannel(), listed, r.touched, n) && r.ToRestore() == r.touched
    ensures Ended(r.env.trace, r.HotChannel(), r.touched, n)
  {
    forall ch | WasSent(r.env.trace, ch) && ch !in r.touched
      ensures EndsBack(Of(r.env.trace, ch))
    {
      r.UnlistedIsBack(ch);
    }
    forall ch | ch in r.touched
      ensures EndsInFailures(Of(r.env.trace, ch), ch, ch == r.HotChannel(), n)
    {
      LeftFailed(t0, r.env.trace, r.HotChannel(), listed, r.touched, n, ch);
    }
    if r.touched == {} {
      NothingListedIsBack(r);
    }
    if r.HotChannel() != 0 {
      HotIsHeld(r);
    }
  }

  /** The gates that are known before the first sample; `board`: G7 is the failed one. */
  datatype EarlyGates = Passed | Blocked(board: bool)

  /** Whether the test commands anything: the PCIe channel has no automatic to hand back to. */
  predicate Writes(kind: Kind, ch: int) {
    kind == Mapping || ch != PCIE_CHANNEL
  }

  /** The samples and gates before the test; `late`: a gate of the window failed. The run is over if and only
    if it is blocked, cancelled or aborted by then. The gate window is only taken for a test that may
    write. */
  method BeforeTest(r: Run, kind: Kind, early: EarlyGates, cancelled: bool) returns (over: bool, ghost late: bool)
    requires r.Valid() && r.abort.None? && r.samples == [] && r.events == [] && r.env.trace == Start
    modifies r, r.env
    ensures r.Valid() && OnlyGates(r.samples, r.events)
    ensures r.env.trace == Start && r.touched == {} && r.HotChannel() == 0
    ensures over <==> early.Blocked? || late || cancelled || r.abort.Some?
    ensures late ==> r.dcrOK && Writes(kind, r.cfg.channel) && early != Blocked(true)
    ensures r.samples != [] && r.samples[0].phase == Boot
  {
    SampleOnce(r, Boot);
    var failed := false;
    if r.abort.None? && r.dcrOK && Writes(kind, r.cfg.channel) && early != Blocked(true) {
      ghost var h := Gates(r);
      failed := *;
    }
    late, over := failed, early.Blocked? || failed;
    if !over {
      over := CloseOnAbort(r, cancelled);
    }
  }

  /** Everything up to the restore: the samples and gates, and the test unless the run is over. */
  method Tests(r: Run, kind: Kind, early: EarlyGates, cancelled: bool)
    returns (res: Results, ran: bool, ghost m: int, ghost mid: Trace, ghost late: bool)
    requires r.Valid() && r.abort.None? && r.samples == [] && r.events == [] && r.env.trace == Start
    requires r.cfg.tachs == RM.TACHS && r.cfg.ownTach == RM.TachOf(r.cfg.channel)
    modifies r, r.env
    ensures r.Valid()
    ensures Agrees(kind, r.cfg.channel, r.abort.Some?, Log(r.samples, r.events, r.env.trace), res)
    ensures ran ==> !early.Blocked? && !late && !cancelled
    ensures !ran ==> early.Blocked? || late || cancelled || r.abort.Some?
    ensures !ran ==> r.env.trace == Start && r.touched == {} && r.HotChannel() == 0
    ensures Keeps(Commands(mid), kind, r.cfg.channel, r.cfg.repeat, m, r.samples, ran && r.dcrOK && r.abort.None?)
    ensures Closing(mid, r.env.trace, r.HotChannel())
  {
    var over;
    over, late := BeforeTest(r, kind, early, cancelled);
    if over {
      OnlyGatesIsFresh(r.samples, r.events, r.env.trace);
      NotRunAgrees(kind, r.cfg.channel, r.abort.Some?, Log(r.samples, r.events, r.env.trace));
      return NotRun(kind, r.cfg.channel), false, MIN_DUTY, Start, late;
    }
    res, m, mid := RunTest(r, kind);
    ran := true;
  }

  /** The end of a run after its tests, which left the log l. */
  method Finish(r: Run, kind: Kind, res: Results, ghost l: Log, ghost mid: Trace)
    returns (restored: bool, ghost closes: nat)
    requires r.Valid() && l == Log(r.samples, r.events, r.env.trace) && Closing(mid, l.trace, r.HotChannel())
    requires Agrees(kind, r.cfg.channel, r.abort.Some?, l, res)
    modifies r`touched, r`overrides, r`events, r.env
    ensures r.Valid() && Agrees(kind, r.cfg.channel, r.abort.Some?, Log(r.samples, r.events, r.env.trace), res)
    ensures restored <==> r.touched == {}
    ensures 2 <= closes <= 3 && (r.abort.Some? ==> closes == 3)
    ensures Ended(r.env.trace, r.HotChannel(), r.touched, closes)
    ensures Closing(mid, r.env.trace, r.HotChannel())
    ensures old(r.ToRestore()) == {} ==> r.env.trace == old(r.env.trace)
  {
    ghost var listed := r.ToRestore();
    var cancelled: bool := *;
    restored, closes := End(r, cancelled);
    EndLeaves(r, l.trace, listed, closes);
    ClosingOn(mid, l.trace, r.env.trace, r.HotChannel());
    NotesKeepAgreement(kind, r.cfg.channel, r.abort.Some?, l, Log(r.samples, r.events, r.env.trace), res);
  }

  /** One validation run, whatever the machine answers and wherever it stops. The results are the ones
    the report computes from the stored log, if and only if storing keeps what they depend on. A run
    that ends left every channel it was sent anything back, except the listed ones, whose restore
    failed in each of its closes; the channel of a temperature abort in a run that wrote is at 255
    or listed. Until an abort every sample was within the limits. Up to a point `mid` the commands
    of the run are a beginning of the procedure, and all of it when the test was not aborted and A
    is known; behind it the run only put channels back and held the hot one at 255. The test is
    taken unless a gate failed, the run was cancelled before it (`stopped`) or aborted; then nothing
    is sent. */
  method Validation(env: Machine, cfg: Config, kind: Kind, early: EarlyGates)
    returns (r: Run, res: Results, restored: bool, ran: bool, ghost m: int, ghost mid: Trace, ghost closes: nat,
             ghost stopped: bool)
    requires cfg.Valid() && cfg.tachs == RM.TACHS && cfg.ownTach == RM.TachOf(cfg.channel) && env.trace == Start
    modifies env
    ensures r.env == env && r.cfg == cfg && r.Valid()
    ensures Agrees(kind, cfg.channel, r.abort.Some?, Log(r.samples, r.events, env.trace), res)
    ensures restored <==> r.touched == {}
    ensures Allowed(cfg.channel, env.trace)
    ensures 2 <= closes <= 3 && (r.abort.Some? ==> closes == 3)
    ensures Ended(env.trace, r.HotChannel(), r.touched, closes)
    ensures r.abort.None? ==> AllInLimits(r.samples, cfg.tachs)
    ensures Keeps(Commands(mid), kind, cfg.channel, cfg.repeat, m, r.samples, ran && r.dcrOK && r.abort.None?)
    ensures Closing(mid, env.trace, r.HotChannel())
    ensures ran ==> !early.Blocked? && !stopped
    ensures !ran ==> (early.Blocked? || stopped || r.abort.Some?) && env.trace == Start
  {
    r := new Run(env, cfg);
    var cancelled: bool := *;
    ghost var late;
    res, ran, m, mid, late := Tests(r, kind, early, cancelled);
    stopped := late || cancelled;
    restored, closes := Finish(r, kind, res, Log(r.samples, r.events, r.env.trace), mid);
  }

  // ---- the report of a run ---------------------------------------------------------------

  /** The tests of a result as the bundle stores them. */
  function Entries(res: Results): seq<StoredTest> {
    match res
    case T1Result(v) => [StoredTest("T1", TestResult(v, []))]
    case T2T3Results(t2, t3) => [StoredTest("T2", t2), StoredTest("T3", t3)]
  }

  lemma ConfirmsItself(r: TestResult)
    requires Numbered(r.runs)
    ensures SameRuns(r.runs, r.runs)
  {
    NumberedExact(r.runs, r.runs);
  }

  lemma ReportIsNumbered(t: Test, ch: int, aborted: bool, smp: seq<Sample>, ev: seq<Event>)
    ensures Numbered(RecomputeHandback.Recomputed(t, ch, aborted, smp, ev).runs)
  {
  }

  lemma NoMismatchWithItself(res: Results)
    requires res.T2T3Results? ==> Numbered(res.t2.runs) && Numbered(res.t3.runs)
    ensures SameTests(Entries(res), Entries(res))
  {
    match res
    case T1Result(v) =>
      FindOnly(Entries(res)[0]);
      ConfirmsItself(TestResult(v, []));
    case T2T3Results(t2, t3) =>
      ConfirmsItself(t2);
      ConfirmsItself(t3);
      FindBoth(Entries(res)[0], Entries(res)[1]);
  }

  /** The report of a run shows no mismatch between its stored results and the ones it computes from
    the stored log. */
  lemma NoMismatch(kind: Kind, ch: int, aborted: bool, l: Log, res: Results)
    requires 1 <= ch <= 4 && Agrees(kind, ch, aborted, l, res) && Kept(kind, ch, l.samples, l.events)
    ensures SameTests(Entries(res),
                      Entries(Report(kind, ch, aborted, StoredSamples(l.samples), StoredEvents(l.events))))
  {
    ReportIsNumbered(T2, ch, aborted, StoredSamples(l.samples), StoredEvents(l.events));
    ReportIsNumbered(T3, ch, aborted, StoredSamples(l.samples), StoredEvents(l.events));
    NoMismatchWithItself(res);
  }
}
