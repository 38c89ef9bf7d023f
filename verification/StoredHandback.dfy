/** What storing a log does to the T2 and T3 results the report computes from it: for every log, the
  exact condition under which they stay what the exact log gives. */
module StoredHandback {
  import opened Wrappers
  import opened StoredTime
  import opened RunLog
  import opened SpecRules
  import opened StoredInputs
  import opened Handback
  import opened Aggregate
  import opened HandbackData
  import opened RecomputeHandback

  type AutoEvent = e: Event | e.text.T2AutoSent? witness Event(0, T2AutoSent(1, H))

  function Hold(smp: seq<Sample>, e: AutoEvent): seq<Sample>
  {
    PhaseSamples(smp, T2Hold(e.text.rep, e.text.sub))
  }

  function Auto(smp: seq<Sample>, e: AutoEvent): seq<Sample>
  {
    PhaseSamples(smp, T2Auto(e.text.rep, e.text.sub))
  }

  /** The table input crossed a step in the window of A or in the sub-run of e. */
  predicate CrossedIn(ch: int, smp: seq<Sample>, e: AutoEvent)
  {
    || InputCrossed(ch, Inputs(ch, PhaseSamples(smp, T2Pre)))
    || InputCrossed(ch, SubInputs(ch, Hold(smp, e), Auto(smp, e)))
  }

  /** ... as its stored readings tell, in exact temperatures. */
  predicate StoredCrossedIn(ch: int, smp: seq<Sample>, e: AutoEvent)
  {
    || StoredCrosses(ch, Inputs(ch, PhaseSamples(smp, T2Pre)))
    || StoredCrosses(ch, SubInputs(ch, Hold(smp, e), Auto(smp, e)))
  }

  /** Some judged register of the sub-run is decided unless its input crossed. */
  ghost predicate DecidedIn(ch: int, smp: seq<Sample>, e: AutoEvent)
  {
    var c := ContextOf(ch, PhaseSamples(smp, T2Pre));
    Decided(ch, e.text.sub, WrittenDuty(Hold(smp, e), e.text.sub, c.m), Auto(smp, e), e.ts, c.a)
  }

  ghost predicate SubKept(ch: int, smp: seq<Sample>, e: AutoEvent)
  {
    (StoredCrossedIn(ch, smp, e) <==> CrossedIn(ch, smp, e)) || !DecidedIn(ch, smp, e)
  }

  ghost predicate AllKept(ch: int, smp: seq<Sample>, evs: seq<AutoEvent>) {
    evs != [] ==> AllKept(ch, smp, evs[..|evs|-1]) && SubKept(ch, smp, evs[|evs|-1])
  }

  /** Every sub-run of the log crosses the same after storing, or is undecided anyway. */
  ghost predicate Kept(ch: int, smp: seq<Sample>, ev: seq<Event>) {
    ch != PCIE_CHANNEL && Measured(ContextOf(ch, PhaseSamples(smp, T2Pre))) ==>
      AllKept(ch, smp, AutoEvents(ev))
  }

  lemma {:induction false} WrittenDutyOfStored(hold: seq<Sample>, sub: Label, m: int)
    ensures WrittenDuty(StoredSamples(hold), sub, m) == WrittenDuty(hold, sub, m)
  {
    if hold != [] {
      WrittenDutyOfStored(hold[1..], sub, m);
      assert StoredSamples(hold)[1..] == StoredSamples(hold[1..]);
    }
  }

  /** The context of the stored log differs at most in the crossing of the A window. */
  lemma ContextOfStored(ch: int, pre: seq<Sample>)
    ensures ContextOf(ch, StoredSamples(pre))
            == ContextOf(ch, pre).(preCrossed := StoredCrosses(ch, Inputs(ch, pre)))
  {
    AutoValuesOfStored(ch, pre);
    InputsOfStored(ch, pre);
    CrossingOfStored(ch, Inputs(ch, pre));
  }

  function StoredEvent(e: AutoEvent): AutoEvent {
    Event(Stored(e.ts), e.text)
  }

  /** One sub-run, found by its event. */
  lemma SubOfStored(ch: int, smp: seq<Sample>, e: AutoEvent)
    ensures SubOf(ContextOf(ch, PhaseSamples(StoredSamples(smp), T2Pre)), StoredSamples(smp), StoredEvent(e))
            == SubOf(ContextOf(ch, PhaseSamples(smp, T2Pre)), smp, e)
            <==> SubKept(ch, smp, e)
  {
    var c := ContextOf(ch, PhaseSamples(smp, T2Pre));
    var hold, auto := Hold(smp, e), Auto(smp, e);
    var w := WrittenDuty(hold, e.text.sub, c.m);
    PhaseSamplesOfStored(smp, T2Pre);
    PhaseSamplesOfStored(smp, T2Hold(e.text.rep, e.text.sub));
    PhaseSamplesOfStored(smp, T2Auto(e.text.rep, e.text.sub));
    ContextOfStored(ch, PhaseSamples(smp, T2Pre));
    WrittenDutyOfStored(hold, e.text.sub, c.m);
    SubEvaluationSplit(ch, e.text.sub, w, hold, auto, e.ts, c.a,
                       StoredCrosses(ch, Inputs(ch, PhaseSamples(smp, T2Pre))));
    CrossingMatters(ch, e.text.sub, w, auto, e.ts, c.a);
  }

  lemma AddToInjective(r: seq<seq<Merged>>, r': seq<seq<Merged>>, same: bool, m: Merged, m': Merged)
    requires |r| == |r'|
    ensures AddTo(r, same, m) == AddTo(r', same, m') <==> r == r' && m == m'
  {
    var a, b := AddTo(r, same, m), AddTo(r', same, m');
    if a == b {
      assert a[|a|-1] == b[|b|-1];
      if same && r != [] {
        var x, y := r[|r|-1], r'[|r'|-1];
        assert (x + [m])[|x|] == m && (y + [m'])[|y|] == m';
        assert (x + [m])[..|x|] == x && (y + [m'])[..|y|] == y;
        assert a[..|a|-1] == r[..|r|-1] && b[..|b|-1] == r'[..|r'|-1];
        assert r == r[..|r|-1] + [x] && r' == r'[..|r'|-1] + [y];
      } else {
        assert a[..|a|-1] == r && b[..|b|-1] == r';
      }
    }
  }

  ghost predicate SameSub(c: Context, c': Context, smp: seq<Sample>, smp': seq<Sample>, e: AutoEvent, e': AutoEvent) {
    SubOf(c', smp', e') == SubOf(c, smp, e)
  }

  ghost predicate SameSubs(c: Context, c': Context, smp: seq<Sample>, smp': seq<Sample>, evs: seq<AutoEvent>,
                           evs': seq<AutoEvent>)
    requires |evs'| == |evs|
  {
    var n := |evs| - 1;
    evs != [] ==> SameSubs(c, c', smp, smp', evs[..n], evs'[..n]) && SameSub(c, c', smp, smp', evs[n], evs'[n])
  }

  predicate SameTexts(evs: seq<AutoEvent>, evs': seq<AutoEvent>) {
    |evs'| == |evs| && forall i :: 0 <= i < |evs| ==> evs'[i].text == evs[i].text
  }

  /** Events of the same sub-runs, in two logs: the same groups are the same results, one by one. */
  lemma {:induction false} GroupsAgree(c: Context, c': Context, smp: seq<Sample>, smp': seq<Sample>,
                                       evs: seq<AutoEvent>, evs': seq<AutoEvent>)
    requires SameTexts(evs, evs')
    ensures |Groups(c', smp', evs')| == |Groups(c, smp, evs)|
    ensures Groups(c', smp', evs') == Groups(c, smp, evs) <==> SameSubs(c, c', smp, smp', evs, evs')
  {
    if evs != [] {
      var n := |evs| - 1;
      var init, init' := evs[..n], evs'[..n];
      GroupsAgree(c, c', smp, smp', init, init');
      AddToInjective(Groups(c', smp', init'), Groups(c, smp, init),
                     init != [] && init[|init|-1].text.rep == evs[n].text.rep,
                     SubOf(c', smp', evs'[n]), SubOf(c, smp, evs[n]));
    }
  }

  lemma StoredEventsInit(evs: seq<Event>)
    requires evs != []
    ensures StoredEvents(evs)[..|evs|-1] == StoredEvents(evs[..|evs|-1])
  {
  }

  lemma {:induction false} SubsOfStored(ch: int, smp: seq<Sample>, evs: seq<AutoEvent>)
    ensures SameSubs(ContextOf(ch, PhaseSamples(smp, T2Pre)), ContextOf(ch, PhaseSamples(StoredSamples(smp), T2Pre)),
                     smp, StoredSamples(smp), evs, StoredEvents(evs))
            <==> AllKept(ch, smp, evs)
  {
    if evs != [] {
      var n := |evs| - 1;
      SubsOfStored(ch, smp, evs[..n]);
      SubOfStored(ch, smp, evs[n]);
      StoredEventsInit(evs);
    }
  }

  lemma {:induction false} AutoEventsOfStored(ev: seq<Event>)
    ensures AutoEvents(StoredEvents(ev)) == StoredEvents(AutoEvents(ev))
  {
    if ev != [] {
      AutoEventsOfStored(ev[..|ev|-1]);
      assert StoredEvents(ev)[..|ev|-1] == StoredEvents(ev[..|ev|-1]);
    }
  }

  /** The result of a test shows all its sub-runs. */
  lemma TestOfInjective(t: Test, runs: seq<seq<Merged>>, runs': seq<seq<Merged>>, aborted: bool)
    ensures TestOf(t, runs, aborted) == TestOf(t, runs', aborted) <==> runs == runs'
  {
    var rs, rs' := RunsOf(t, runs), RunsOf(t, runs');
    if rs == rs' {
      forall i | 0 <= i < |runs|
        ensures runs[i] == runs'[i]
      {
        assert rs[i].subs == runs[i] && rs'[i].subs == runs'[i];
      }
      assert runs == runs';
    }
  }

  /** For every log: the report computes from the stored samples and events what it would compute
    from the exact ones if and only if every sub-run crosses the same or is undecided. */
  lemma StoringKeepsExactly(t: Test, ch: int, aborted: bool, smp: seq<Sample>, ev: seq<Event>)
    ensures Recomputed(t, ch, aborted, StoredSamples(smp), StoredEvents(ev)) == Recomputed(t, ch, aborted, smp, ev)
            <==> Kept(ch, smp, ev)
  {
    var c, c' := ContextOf(ch, PhaseSamples(smp, T2Pre)), ContextOf(ch, PhaseSamples(StoredSamples(smp), T2Pre));
    PhaseSamplesOfStored(smp, T2Pre);
    ContextOfStored(ch, PhaseSamples(smp, T2Pre));
    AutoEventsOfStored(ev);
    SubsOfStored(ch, smp, AutoEvents(ev));
    GroupsAgree(c, c', smp, StoredSamples(smp), AutoEvents(ev), StoredEvents(AutoEvents(ev)));
    TestOfInjective(t, Groups(c', StoredSamples(smp), StoredEvents(AutoEvents(ev))), Groups(c, smp, AutoEvents(ev)),
                    aborted);
  }

  lemma SeriesKept(ch: int, smp: seq<Sample>)
    requires AllStable(ch, smp)
    ensures StoredCrosses(ch, Inputs(ch, smp)) <==> InputCrossed(ch, Inputs(ch, smp))
  {
    CrossingOfStored(ch, Inputs(ch, smp));
    StableKeepsCrossing(ch, Inputs(ch, smp));
  }

  lemma SubSeriesKept(ch: int, hold: seq<Sample>, auto: seq<Sample>)
    requires AllStable(ch, hold) && AllStable(ch, auto)
    ensures StoredCrosses(ch, SubInputs(ch, hold, auto)) <==> InputCrossed(ch, SubInputs(ch, hold, auto))
  {
    CrossingOfStored(ch, SubInputs(ch, hold, auto));
    StableKeepsCrossing(ch, SubInputs(ch, hold, auto));
  }

  lemma StableKeepsSub(ch: int, smp: seq<Sample>, e: AutoEvent)
    requires HandbackStable(ch, smp)
    ensures SubKept(ch, smp, e)
  {
    PhaseStable(ch, smp, T2Pre);
    PhaseStable(ch, smp, T2Hold(e.text.rep, e.text.sub));
    PhaseStable(ch, smp, T2Auto(e.text.rep, e.text.sub));
    SeriesKept(ch, PhaseSamples(smp, T2Pre));
    SubSeriesKept(ch, Hold(smp, e), Auto(smp, e));
  }

  lemma {:induction false} StableKeepsAll(ch: int, smp: seq<Sample>, evs: seq<AutoEvent>)
    requires HandbackStable(ch, smp)
    ensures AllKept(ch, smp, evs)
  {
    if evs != [] {
      StableKeepsAll(ch, smp, evs[..|evs|-1]);
      StableKeepsSub(ch, smp, evs[|evs|-1]);
    }
  }

  /** Stable inputs in the samples of the hand-back test are enough. */
  lemma StableIsKept(ch: int, smp: seq<Sample>, ev: seq<Event>)
    requires HandbackStable(ch, smp)
    ensures Kept(ch, smp, ev)
  {
    StableKeepsAll(ch, smp, AutoEvents(ev));
  }
}
