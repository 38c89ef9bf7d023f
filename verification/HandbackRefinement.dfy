/** Online and offline T2/T3 agree: the results a hand-back run computes while it samples are
  the ones the report rebuilds from the stored log.

  A run is described by its records, one per sub-run it started, in the order they ran; the
  log is the concatenation of what the records hold. */
module HandbackRefinement {
  import opened Wrappers
  import opened StoredTime
  import opened RunLog
  import opened SpecRules
  import opened StoredInputs
  import opened Handback
  import opened Aggregate
  import opened HandbackData
  import opened RecomputeHandback
  import StoredHandback

  /** One sub-run: `sentAt` is the time of its auto event, None when it ended before. */
  datatype Rec = Rec(rep: Rep, sub: Label, duty: int, hold: seq<Sample>, auto: seq<Sample>, sentAt: Option<int>)

  /** A sub-run whose auto command was sent. */
  type SentRec = r: Rec | r.sentAt.Some? witness Rec(1, H, MAX_DUTY, [], [], Some(0))

  predicate RecOk(r: Rec) {
    && r.duty >= 0
    && Uniform(r.hold, T2Hold(r.rep, r.sub)) && Uniform(r.auto, T2Auto(r.rep, r.sub))
    && (forall i :: 0 <= i < |r.hold| ==> r.hold[i].written == r.duty)
    && (r.sentAt.Some? ==> r.hold != [])
    && (r.sentAt.None? ==> r.auto == [])
  }

  predicate Before(r: Rec, q: Rec) {
    r.rep < q.rep || (r.rep == q.rep && r.sub == H && q.sub == M)
  }

  predicate Ordered(recs: seq<Rec>) {
    && (forall i :: 0 <= i < |recs| ==> RecOk(recs[i]))
    && (forall i, j :: 0 <= i < j < |recs| ==> Before(recs[i], recs[j]))
  }

  function SamplesOf(recs: seq<Rec>): seq<Sample> {
    if recs == [] then []
    else SamplesOf(recs[..|recs|-1]) + (recs[|recs|-1].hold + recs[|recs|-1].auto)
  }

  /** The records whose auto command was sent. */
  function Sent(recs: seq<Rec>): seq<SentRec> {
    if recs == [] then []
    else if recs[|recs|-1].sentAt.Some? then Sent(recs[..|recs|-1]) + [recs[|recs|-1]]
    else Sent(recs[..|recs|-1])
  }

  function EventOf(r: SentRec): Event {
    Event(r.sentAt.value, T2AutoSent(r.rep, r.sub))
  }

  function EventsOf(sent: seq<SentRec>): (ev: seq<Event>)
    ensures |ev| == |sent| && forall i :: 0 <= i < |ev| ==> ev[i] == EventOf(sent[i])
  {
    seq(|sent|, i requires 0 <= i < |sent| => EventOf(sent[i]))
  }

  ghost function ResultOf(c: Context, r: SentRec): Merged {
    SubEvaluation(c.ch, r.sub, r.duty, r.hold, r.auto, r.sentAt.value, c.a, c.preCrossed)
  }

  /** What the runner has: the results of the sub-runs, one list per repetition. */
  ghost function RunsOf(c: Context, sent: seq<SentRec>): seq<seq<Merged>> {
    if sent == [] then []
    else
      var init, last := sent[..|sent|-1], sent[|sent|-1];
      AddTo(RunsOf(c, init), init != [] && init[|init|-1].rep == last.rep, ResultOf(c, last))
  }

  lemma SnocParts<T>(s: seq<T>, x: T)
    ensures (s + [x])[..|s + [x]|-1] == s && (s + [x])[|s + [x]|-1] == x
  {
  }

  lemma RunsOfLast(c: Context, sent: seq<SentRec>)
    requires sent != []
    ensures var init, last := sent[..|sent|-1], sent[|sent|-1];
            RunsOf(c, sent) == AddTo(RunsOf(c, init), init != [] && init[|init|-1].rep == last.rep, ResultOf(c, last))
  {
  }

  lemma RunsOfStep(c: Context, sent: seq<SentRec>, last: SentRec)
    ensures RunsOf(c, sent + [last])
            == AddTo(RunsOf(c, sent), sent != [] && sent[|sent|-1].rep == last.rep, ResultOf(c, last))
  {
    SnocParts(sent, last);
    RunsOfLast(c, sent + [last]);
  }

  // ---- finding the samples of a sub-run in the log ------------------------------

  predicate Uses(r: Rec, phase: Phase) {
    phase == T2Hold(r.rep, r.sub) || phase == T2Auto(r.rep, r.sub)
  }

  /** The samples of a record that belong to a phase. */
  function PartOf(r: Rec, phase: Phase): seq<Sample> {
    if phase == T2Hold(r.rep, r.sub) then r.hold
    else if phase == T2Auto(r.rep, r.sub) then r.auto
    else []
  }

  lemma PhaseOfOneRec(r: Rec, phase: Phase)
    requires RecOk(r)
    ensures PhaseSamples(r.hold + r.auto, phase) == PartOf(r, phase)
  {
    PhaseSamplesOfSum(r.hold, r.auto, phase);
    PhaseSamplesUniform(r.hold, T2Hold(r.rep, r.sub), phase);
    PhaseSamplesUniform(r.auto, T2Auto(r.rep, r.sub), phase);
  }

  lemma RecPhases(recs: seq<Rec>, phase: Phase)
    requires recs != [] && RecOk(recs[|recs|-1])
    ensures PhaseSamples(SamplesOf(recs), phase)
            == PhaseSamples(SamplesOf(recs[..|recs|-1]), phase) + PartOf(recs[|recs|-1], phase)
  {
    var r, init := recs[|recs|-1], SamplesOf(recs[..|recs|-1]);
    PhaseSamplesOfSum(init, r.hold + r.auto, phase);
    PhaseOfOneRec(r, phase);
  }

  lemma {:induction false} UnusedPhase(recs: seq<Rec>, phase: Phase)
    requires Ordered(recs) && forall i :: 0 <= i < |recs| ==> !Uses(recs[i], phase)
    ensures PhaseSamples(SamplesOf(recs), phase) == []
  {
    if recs != [] {
      UnusedPhase(recs[..|recs|-1], phase);
      RecPhases(recs, phase);
    }
  }

  /** The log holds the samples of a sub-run under its phase names, and nothing else there. */
  lemma {:induction false} PhaseOfRec(recs: seq<Rec>, i: nat)
    requires Ordered(recs) && i < |recs|
    ensures PhaseSamples(SamplesOf(recs), T2Hold(recs[i].rep, recs[i].sub)) == recs[i].hold
    ensures PhaseSamples(SamplesOf(recs), T2Auto(recs[i].rep, recs[i].sub)) == recs[i].auto
  {
    var init := recs[..|recs|-1];
    RecPhases(recs, T2Hold(recs[i].rep, recs[i].sub));
    RecPhases(recs, T2Auto(recs[i].rep, recs[i].sub));
    if i < |init| {
      PhaseOfRec(init, i);
      assert Before(recs[i], recs[|recs|-1]);
    } else {
      forall j | 0 <= j < |init|
        ensures !Uses(init[j], T2Hold(recs[i].rep, recs[i].sub)) && !Uses(init[j], T2Auto(recs[i].rep, recs[i].sub))
      {
        assert Before(recs[j], recs[i]);
      }
      UnusedPhase(init, T2Hold(recs[i].rep, recs[i].sub));
      UnusedPhase(init, T2Auto(recs[i].rep, recs[i].sub));
    }
  }

  /** The log of a hand-back run: what was sampled before, the window that determines A, and
    the sub-runs. */
  ghost predicate LogOf(smp: seq<Sample>, before: seq<Sample>, pre: seq<Sample>, recs: seq<Rec>) {
    && smp == before + pre + SamplesOf(recs)
    && Uniform(pre, T2Pre)
    && Ordered(recs)
    && forall i :: 0 <= i < |before| ==> !InHandback(before[i].phase)
  }

  lemma {:induction false} NotInHandback(before: seq<Sample>, phase: Phase)
    requires InHandback(phase) && forall i :: 0 <= i < |before| ==> !InHandback(before[i].phase)
    ensures PhaseSamples(before, phase) == []
  {
    if before != [] {
      NotInHandback(before[..|before|-1], phase);
    }
  }

  lemma PhaseOfLog(smp: seq<Sample>, before: seq<Sample>, pre: seq<Sample>, recs: seq<Rec>, phase: Phase)
    requires LogOf(smp, before, pre, recs) && InHandback(phase)
    ensures PhaseSamples(smp, phase) == (if phase == T2Pre then pre else []) + PhaseSamples(SamplesOf(recs), phase)
  {
    PhaseSamplesOfSum(before + pre, SamplesOf(recs), phase);
    PhaseSamplesOfSum(before, pre, phase);
    NotInHandback(before, phase);
    PhaseSamplesUniform(pre, T2Pre, phase);
    var p := if phase == T2Pre then pre else [];
    assert [] + p == p;
  }

  lemma PreOfLog(smp: seq<Sample>, before: seq<Sample>, pre: seq<Sample>, recs: seq<Rec>)
    requires LogOf(smp, before, pre, recs)
    ensures PhaseSamples(smp, T2Pre) == pre
  {
    PhaseOfLog(smp, before, pre, recs, T2Pre);
    UnusedPhase(recs, T2Pre);
  }

  lemma RecOfLog(smp: seq<Sample>, before: seq<Sample>, pre: seq<Sample>, recs: seq<Rec>, i: nat)
    requires LogOf(smp, before, pre, recs) && i < |recs|
    ensures FoundOne(smp, recs[i])
  {
    PhaseOfLog(smp, before, pre, recs, T2Hold(recs[i].rep, recs[i].sub));
    PhaseOfLog(smp, before, pre, recs, T2Auto(recs[i].rep, recs[i].sub));
    PhaseOfRec(recs, i);
  }

  /** The samples of a record can be found in smp under its phase names. */
  ghost predicate FoundOne(smp: seq<Sample>, r: Rec) {
    && RecOk(r)
    && PhaseSamples(smp, T2Hold(r.rep, r.sub)) == r.hold
    && PhaseSamples(smp, T2Auto(r.rep, r.sub)) == r.auto
  }

  // ---- the rebuild ---------------------------------------------------------------

  lemma {:induction false} WrittenDutyOfHold(hold: seq<Sample>, sub: Label, m: int, duty: int)
    requires hold != [] && hold[0].written == duty && duty >= 0
    ensures WrittenDuty(hold, sub, m) == duty
  {
  }

  /** One sub-run, found in the log by its event, gives the runner's result. */
  lemma SubOfLog(c: Context, smp: seq<Sample>, r: SentRec)
    requires FoundOne(smp, r)
    ensures SubOf(c, smp, EventOf(r)) == ResultOf(c, r)
  {
    WrittenDutyOfHold(r.hold, r.sub, c.m, r.duty);
  }

  ghost predicate Found(smp: seq<Sample>, sent: seq<SentRec>) {
    forall i :: 0 <= i < |sent| ==> FoundOne(smp, sent[i])
  }

  lemma EventsOfStep(sent: seq<SentRec>, last: SentRec)
    ensures EventsOf(sent + [last]) == EventsOf(sent) + [EventOf(last)]
  {
  }

  lemma {:induction false} GroupsOfLog(c: Context, smp: seq<Sample>, sent: seq<SentRec>)
    requires Found(smp, sent)
    ensures Groups(c, smp, EventsOf(sent)) == RunsOf(c, sent)
  {
    if sent != [] {
      var init, last := sent[..|sent|-1], sent[|sent|-1];
      assert sent == init + [last];
      GroupsOfLog(c, smp, init);
      EventsOfStep(init, last);
      GroupsStep(c, smp, EventsOf(init), EventOf(last));
      SubOfLog(c, smp, last);
      RunsOfStep(c, init, last);
    }
  }

  lemma {:induction false} SentFound(smp: seq<Sample>, recs: seq<Rec>)
    requires forall i :: 0 <= i < |recs| ==> FoundOne(smp, recs[i])
    ensures Found(smp, Sent(recs))
  {
    if recs != [] {
      SentFound(smp, recs[..|recs|-1]);
    }
  }

  /** From the exact log of a hand-back run that got past its A window, the report's rebuild gives
    the T2 and T3 results of the runner. */
  lemma RebuildOfLog(t: Test, ch: int, aborted: bool, smp: seq<Sample>, ev: seq<Event>,
                     before: seq<Sample>, pre: seq<Sample>, recs: seq<Rec>)
    requires ch != PCIE_CHANNEL && LogOf(smp, before, pre, recs)
    requires AutoEvents(ev) == EventsOf(Sent(recs))
    requires Measured(ContextOf(ch, pre))
    ensures Recomputed(t, ch, aborted, smp, ev) == TestOf(t, RunsOf(ContextOf(ch, pre), Sent(recs)), aborted)
  {
    PreOfLog(smp, before, pre, recs);
    forall i | 0 <= i < |recs|
      ensures FoundOne(smp, recs[i])
    {
      RecOfLog(smp, before, pre, recs, i);
    }
    SentFound(smp, recs);
    GroupsOfLog(ContextOf(ch, pre), smp, Sent(recs));
  }

  /** From the stored log it gives these results, of the test, of every repetition, of every sub-run
    and of every register, if and only if storing keeps the crossings of all decided sub-runs. */
  lemma RebuildIsExact(t: Test, ch: int, aborted: bool, smp: seq<Sample>, ev: seq<Event>,
                       before: seq<Sample>, pre: seq<Sample>, recs: seq<Rec>)
    requires ch != PCIE_CHANNEL && LogOf(smp, before, pre, recs)
    requires AutoEvents(ev) == EventsOf(Sent(recs))
    requires Measured(ContextOf(ch, pre))
    ensures Recomputed(t, ch, aborted, StoredSamples(smp), StoredEvents(ev))
            == TestOf(t, RunsOf(ContextOf(ch, pre), Sent(recs)), aborted)
            <==> StoredHandback.Kept(ch, smp, ev)
  {
    RebuildOfLog(t, ch, aborted, smp, ev, before, pre, recs);
    StoredHandback.StoringKeepsExactly(t, ch, aborted, smp, ev);
  }

  /** A run that ended before A was known is not run for the report either. */
  lemma RebuildWithoutA(t: Test, ch: int, aborted: bool, smp: seq<Sample>, ev: seq<Event>,
                        before: seq<Sample>, pre: seq<Sample>)
    requires ch != PCIE_CHANNEL && LogOf(smp, before, pre, [])
    requires AutoEvents(ev) == []
    requires !Measured(ContextOf(ch, pre)) || aborted
    ensures Recomputed(t, ch, aborted, StoredSamples(smp), StoredEvents(ev)) == NOT_RUN
    ensures StoredHandback.Kept(ch, smp, ev)
  {
    PreOfLog(smp, before, pre, []);
    StoredHandback.StoringKeepsExactly(t, ch, aborted, smp, ev);
  }
}
