/** T2 and T3 of a channel from its sub-runs: merging the judged registers, combining the
  sub-runs of a repetition and the repetitions (EvalHandbackRegs, AggregateHandback in
  ectest/internal/spec/eval.go; FinishHandback in ectest/internal/runner/runner.go). */
module Aggregate {
  import opened Wrappers
  import opened RunLog
  import opened SpecRules
  import opened Handback

  /** The results of all registers of a sub-run and what they amount to; regs[0] is the primary one. */
  datatype Merged = Merged(regs: seq<SubResult>, left: bool, t2: Verdict, t3: Verdict, agree: Option<bool>)

  datatype RunResult = RunResult(run: nat, verdict: Verdict, missing: bool, subs: seq<Merged>)

  datatype TestResult = TestResult(verdict: Verdict, runs: seq<RunResult>)

  /** Which of the two tests is asked for; both come from the same data. */
  datatype Test = T2 | T3

  function VerdictOf(t: Test, s: SubResult): Verdict {
    if t == T2 then s.t2 else s.t3
  }

  function MergedVerdict(t: Test, m: Merged): Verdict {
    if t == T2 then m.t2 else m.t3
  }

  ghost function RuleOf(t: Test, r: HandbackRun): Verdict {
    if t == T2 then T2Of(r) else T3Of(r)
  }

  // ---- registers ---------------------------------------------------------------

  predicate Same(vs: seq<Verdict>) {
    forall i :: 0 <= i < |vs| ==> vs[i] == vs[0]
  }

  function Verdicts(t: Test, all: seq<SubResult>): (vs: seq<Verdict>)
    ensures |vs| == |all| && forall i :: 0 <= i < |vs| ==> vs[i] == VerdictOf(t, all[i])
  {
    seq(|all|, i requires 0 <= i < |all| => VerdictOf(t, all[i]))
  }

  /** Different verdicts in the registers decide nothing. */
  function MergeVerdicts(vs: seq<Verdict>): Verdict {
    if Same(vs) then Combine(vs) else Inconclusive
  }

  function MergeResults(all: seq<SubResult>): Merged {
    if all == [] then Merged([], false, Inconclusive, Inconclusive, None)
    else if |all| == 1 then Merged(all, all[0].left, all[0].t2, all[0].t3, None)
    else
      Merged(all, forall i :: 0 <= i < |all| ==> all[i].left,
             MergeVerdicts(Verdicts(T2, all)), MergeVerdicts(Verdicts(T3, all)),
             Some(Same(Verdicts(T2, all)) && Same(Verdicts(T3, all))))
  }

  ghost function Evaluations(runs: seq<HandbackRun>): (all: seq<SubResult>)
    ensures |all| == |runs| && forall i :: 0 <= i < |all| ==> all[i] == Evaluation(runs[i])
  {
    seq(|runs|, i requires 0 <= i < |runs| => Evaluation(runs[i]))
  }

  /** The result of a sub-run over all its registers, fixed by the rules. */
  ghost function EvaluationRegs(runs: seq<HandbackRun>): Merged {
    MergeResults(Evaluations(runs))
  }

  method EvalEach(runs: seq<HandbackRun>) returns (all: seq<SubResult>)
    ensures all == Evaluations(runs)
  {
    all := [];
    for k := 0 to |runs|
      invariant |all| == k && forall i :: 0 <= i < k ==> all[i] == Evaluation(runs[i])
    {
      var s := EvalHandback(runs[k]);
      EvaluatesOnce(runs[k], s, Evaluation(runs[k]));
      all := all + [s];
    }
  }

  method MergeEach(all: seq<SubResult>) returns (m: Merged)
    ensures m == MergeResults(all)
  {
    if all == [] {
      return Merged([], false, Inconclusive, Inconclusive, None);
    }
    if |all| == 1 {
      return Merged(all, all[0].left, all[0].t2, all[0].t3, None);
    }
    var left, v2: seq<Verdict>, v3: seq<Verdict> := true, [], [];
    for k := 0 to |all|
      invariant left <==> forall i :: 0 <= i < k ==> all[i].left
      invariant |v2| == k && forall i :: 0 <= i < k ==> v2[i] == all[i].t2
      invariant |v3| == k && forall i :: 0 <= i < k ==> v3[i] == all[i].t3
    {
      left := left && all[k].left;
      v2, v3 := v2 + [all[k].t2], v3 + [all[k].t3];
    }
    assert v2 == Verdicts(T2, all) && v3 == Verdicts(T3, all);
    m := Merged(all, left, MergeVerdicts(v2), MergeVerdicts(v3), Some(Same(v2) && Same(v3)));
  }

  method EvalHandbackRegs(runs: seq<HandbackRun>) returns (m: Merged)
    ensures m == EvaluationRegs(runs)
  {
    var all := EvalEach(runs);
    m := MergeEach(all);
  }

  /** The verdicts the rules give each register. */
  ghost function Rules(t: Test, runs: seq<HandbackRun>): (vs: seq<Verdict>)
    ensures |vs| == |runs| && forall i :: 0 <= i < |vs| ==> vs[i] == RuleOf(t, runs[i])
  {
    seq(|runs|, i requires 0 <= i < |runs| => RuleOf(t, runs[i]))
  }

  ghost predicate AllRegs(t: Test, runs: seq<HandbackRun>, v: Verdict) {
    forall i :: 0 <= i < |runs| ==> RuleOf(t, runs[i]) == v
  }

  lemma VerdictsAreRules(t: Test, runs: seq<HandbackRun>)
    ensures Verdicts(t, Evaluations(runs)) == Rules(t, runs)
  {
  }

  lemma RulesAll(t: Test, runs: seq<HandbackRun>, v: Verdict)
    ensures All(Rules(t, runs), v) <==> AllRegs(t, runs, v)
  {
  }

  lemma MergeResultsExact(t: Test, all: seq<SubResult>, v: Verdict)
    requires v == Pass || v == Fail
    ensures MergedVerdict(t, MergeResults(all)) == v <==> all != [] && All(Verdicts(t, all), v)
  {
  }

  /** A sub-run passes (fails) exactly when every judged register does. */
  lemma MergedExact(t: Test, runs: seq<HandbackRun>, v: Verdict)
    requires v == Pass || v == Fail
    ensures MergedVerdict(t, EvaluationRegs(runs)) == v <==> runs != [] && AllRegs(t, runs, v)
  {
    MergeResultsExact(t, Evaluations(runs), v);
    VerdictsAreRules(t, runs);
    RulesAll(t, runs, v);
  }

  // ---- repetitions -------------------------------------------------------------

  predicate HasLabel(subs: seq<Merged>, l: Label) {
    exists i :: 0 <= i < |subs| && subs[i].regs != [] && subs[i].regs[0].sub == l
  }

  predicate Complete(subs: seq<Merged>) {
    HasLabel(subs, H) && HasLabel(subs, M)
  }

  function SubVerdicts(t: Test, subs: seq<Merged>): (vs: seq<Verdict>)
    ensures |vs| == |subs| && forall i :: 0 <= i < |vs| ==> vs[i] == MergedVerdict(t, subs[i])
  {
    seq(|subs|, i requires 0 <= i < |subs| => MergedVerdict(t, subs[i]))
  }

  function RunOf(t: Test, i: nat, subs: seq<Merged>): RunResult {
    RunResult(i + 1, if Complete(subs) then Combine(SubVerdicts(t, subs)) else Inconclusive, !Complete(subs), subs)
  }

  /** One more sub-run: of the last repetition, or the first of a new one. */
  function AddTo(runs: seq<seq<Merged>>, same: bool, m: Merged): (r: seq<seq<Merged>>)
    ensures r != []
  {
    if same && runs != [] then runs[..|runs|-1] + [runs[|runs|-1] + [m]] else runs + [[m]]
  }

  function RunVerdicts(rs: seq<RunResult>): (vs: seq<Verdict>)
    ensures |vs| == |rs| && forall i :: 0 <= i < |vs| ==> vs[i] == rs[i].verdict
  {
    seq(|rs|, i requires 0 <= i < |rs| => rs[i].verdict)
  }

  function RunsOf(t: Test, runs: seq<seq<Merged>>): (rs: seq<RunResult>)
    ensures |rs| == |runs| && forall i :: 0 <= i < |rs| ==> rs[i] == RunOf(t, i, runs[i])
  {
    seq(|runs|, i requires 0 <= i < |runs| => RunOf(t, i, runs[i]))
  }

  /** The result of one test over the repetitions; an aborted run decides nothing. */
  function TestOf(t: Test, runs: seq<seq<Merged>>, aborted: bool): TestResult {
    var rs := RunsOf(t, runs);
    TestResult(if aborted || |runs| < RUNS_REQUIRED then Inconclusive else Combine(RunVerdicts(rs)), rs)
  }

  /** Which directions a repetition has. */
  method Labels(subs: seq<Merged>) returns (labels: set<Label>)
    ensures forall l :: l in labels <==> HasLabel(subs, l)
  {
    labels := {};
    for k := 0 to |subs|
      invariant forall l :: l in labels <==> HasLabel(subs[..k], l)
    {
      HasLabelStep(subs, k);
      if subs[k].regs != [] {
        labels := labels + {subs[k].regs[0].sub};
      }
    }
    assert subs[..|subs|] == subs;
  }

  lemma HasLabelStep(subs: seq<Merged>, k: nat)
    requires k < |subs|
    ensures forall l :: HasLabel(subs[..k+1], l) <==>
            HasLabel(subs[..k], l) || (subs[k].regs != [] && subs[k].regs[0].sub == l)
  {
    forall l | HasLabel(subs[..k], l)
      ensures HasLabel(subs[..k+1], l)
    {
      var i :| 0 <= i < k && subs[..k][i].regs != [] && subs[..k][i].regs[0].sub == l;
      assert subs[..k+1][i] == subs[..k][i];
    }
    assert subs[..k+1][k] == subs[k];
    forall l | HasLabel(subs[..k+1], l)
      ensures HasLabel(subs[..k], l) || (subs[k].regs != [] && subs[k].regs[0].sub == l)
    {
      var i :| 0 <= i < k+1 && subs[..k+1][i].regs != [] && subs[..k+1][i].regs[0].sub == l;
      if i < k {
        assert subs[..k][i] == subs[..k+1][i];
      }
    }
  }

  /** One repetition: its directions and its sub-run verdicts. */
  method AggregateRun(i: nat, subs: seq<Merged>) returns (r2: RunResult, r3: RunResult)
    ensures r2 == RunOf(T2, i, subs) && r3 == RunOf(T3, i, subs)
  {
    var labels := Labels(subs);
    var s2: seq<Verdict>, s3: seq<Verdict> := [], [];
    for k := 0 to |subs|
      invariant |s2| == k && forall j :: 0 <= j < k ==> s2[j] == subs[j].t2
      invariant |s3| == k && forall j :: 0 <= j < k ==> s3[j] == subs[j].t3
    {
      s2, s3 := s2 + [subs[k].t2], s3 + [subs[k].t3];
    }
    assert s2 == SubVerdicts(T2, subs) && s3 == SubVerdicts(T3, subs);
    var missing := !(H in labels && M in labels);
    assert missing == !Complete(subs);
    r2 := RunResult(i + 1, if missing then Inconclusive else Combine(s2), missing, subs);
    r3 := RunResult(i + 1, if missing then Inconclusive else Combine(s3), missing, subs);
  }

  method AggregateHandback(runs: seq<seq<Merged>>) returns (t2: TestResult, t3: TestResult)
    ensures t2 == TestOf(T2, runs, false) && t3 == TestOf(T3, runs, false)
  {
    var rs2: seq<RunResult>, rs3: seq<RunResult> := [], [];
    var v2: seq<Verdict>, v3: seq<Verdict> := [], [];
    for i := 0 to |runs|
      invariant |rs2| == |rs3| == |v2| == |v3| == i
      invariant forall j :: 0 <= j < i ==> rs2[j] == RunOf(T2, j, runs[j]) && v2[j] == rs2[j].verdict
      invariant forall j :: 0 <= j < i ==> rs3[j] == RunOf(T3, j, runs[j]) && v3[j] == rs3[j].verdict
    {
      var r2, r3 := AggregateRun(i, runs[i]);
      rs2, rs3 := rs2 + [r2], rs3 + [r3];
      v2, v3 := v2 + [r2.verdict], v3 + [r3.verdict];
    }
    assert rs2 == RunsOf(T2, runs) && v2 == RunVerdicts(rs2);
    assert rs3 == RunsOf(T3, runs) && v3 == RunVerdicts(rs3);
    t2, t3 := TestResult(Combine(v2), rs2), TestResult(Combine(v3), rs3);
    if |runs| < RUNS_REQUIRED {
      t2, t3 := t2.(verdict := Inconclusive), t3.(verdict := Inconclusive);
    }
  }

  /** The results of a test: those of the repetitions, or undecided after an abort. */
  method FinishHandback(runs: seq<seq<Merged>>, aborted: bool) returns (t2: TestResult, t3: TestResult)
    ensures t2 == TestOf(T2, runs, aborted) && t3 == TestOf(T3, runs, aborted)
  {
    t2, t3 := AggregateHandback(runs);
    if aborted {
      t2, t3 := t2.(verdict := Inconclusive), t3.(verdict := Inconclusive);
    }
  }

  // ---- aggregation is exact ----------------------------------------------------

  ghost function EvaluationsOfRun(subs: seq<seq<HandbackRun>>): (ms: seq<Merged>)
    ensures |ms| == |subs| && forall i :: 0 <= i < |ms| ==> ms[i] == EvaluationRegs(subs[i])
  {
    seq(|subs|, i requires 0 <= i < |subs| => EvaluationRegs(subs[i]))
  }

  ghost function EvaluationsOfRuns(runs: seq<seq<seq<HandbackRun>>>): (ms: seq<seq<Merged>>)
    ensures |ms| == |runs| && forall i :: 0 <= i < |ms| ==> ms[i] == EvaluationsOfRun(runs[i])
  {
    seq(|runs|, i requires 0 <= i < |runs| => EvaluationsOfRun(runs[i]))
  }

  ghost predicate HasSub(subs: seq<seq<HandbackRun>>, l: Label) {
    exists i :: 0 <= i < |subs| && subs[i] != [] && subs[i][0].sub == l
  }

  /** Every judged register of every sub-run of a repetition has verdict v, in both directions. */
  ghost predicate RunAll(t: Test, subs: seq<seq<HandbackRun>>, v: Verdict) {
    && HasSub(subs, H) && HasSub(subs, M)
    && forall i :: 0 <= i < |subs| ==> subs[i] != [] && AllRegs(t, subs[i], v)
  }

  lemma LabelsKept(subs: seq<seq<HandbackRun>>, l: Label)
    ensures HasLabel(EvaluationsOfRun(subs), l) <==> HasSub(subs, l)
  {
  }

  lemma RunExact(t: Test, i: nat, subs: seq<seq<HandbackRun>>, v: Verdict)
    requires v == Pass || v == Fail
    ensures RunOf(t, i, EvaluationsOfRun(subs)).verdict == v <==> RunAll(t, subs, v)
  {
    LabelsKept(subs, H);
    LabelsKept(subs, M);
    SubsExact(t, subs, v);
  }

  lemma SubsExact(t: Test, subs: seq<seq<HandbackRun>>, v: Verdict)
    requires v == Pass || v == Fail
    ensures All(SubVerdicts(t, EvaluationsOfRun(subs)), v)
            <==> forall j :: 0 <= j < |subs| ==> subs[j] != [] && AllRegs(t, subs[j], v)
  {
    var vs := SubVerdicts(t, EvaluationsOfRun(subs));
    forall j | 0 <= j < |subs|
      ensures vs[j] == v <==> subs[j] != [] && AllRegs(t, subs[j], v)
    {
      MergedExact(t, subs[j], v);
    }
  }

  /** T2 (likewise T3) is PASS, or FAIL, exactly when there are at least three repetitions, each
    with both directions, and every judged register of every sub-run has that verdict. */
  lemma AggregationExact(t: Test, runs: seq<seq<seq<HandbackRun>>>, v: Verdict)
    requires v == Pass || v == Fail
    ensures TestOf(t, EvaluationsOfRuns(runs), false).verdict == v
            <==> |runs| >= RUNS_REQUIRED && forall i :: 0 <= i < |runs| ==> RunAll(t, runs[i], v)
  {
    var vs := RunVerdicts(RunsOf(t, EvaluationsOfRuns(runs)));
    forall i | 0 <= i < |runs|
      ensures vs[i] == v <==> RunAll(t, runs[i], v)
    {
      RunExact(t, i, runs[i], v);
    }
  }

  /** The sub-run on one register with later samples added. */
  ghost predicate Extends(r: HandbackRun, r': HandbackRun) {
    exists more :: Continues(r, more) && r' == Continued(r, more)
  }

  ghost predicate RunExtends(subs: seq<seq<HandbackRun>>, subs': seq<seq<HandbackRun>>) {
    && |subs'| == |subs|
    && (forall j :: 0 <= j < |subs| ==> |subs'[j]| == |subs[j]|)
    && (forall j, k :: 0 <= j < |subs| && 0 <= k < |subs[j]| ==> Extends(subs[j][k], subs'[j][k]))
  }

  lemma RunIsFinal(subs: seq<seq<HandbackRun>>, subs': seq<seq<HandbackRun>>, v: Verdict)
    requires v == Pass || v == Fail
    requires RunExtends(subs, subs') && RunAll(T3, subs, v)
    ensures RunAll(T3, subs', v)
  {
    forall j, k | 0 <= j < |subs| && 0 <= k < |subs[j]|
      ensures T3Of(subs'[j][k]) == v && subs'[j][k].sub == subs[j][k].sub
    {
      assert Extends(subs[j][k], subs'[j][k]) && AllRegs(T3, subs[j], v);
      var more :| Continues(subs[j][k], more) && subs'[j][k] == Continued(subs[j][k], more);
      T3Final(subs[j][k], more);
    }
    assert forall j :: 0 <= j < |subs| ==> AllRegs(T3, subs'[j], v);
    var h :| 0 <= h < |subs| && subs[h] != [] && subs[h][0].sub == H;
    assert subs'[h][0].sub == H;
    var m :| 0 <= m < |subs| && subs[m] != [] && subs[m][0].sub == M;
    assert subs'[m][0].sub == M;
  }

  /** Later samples in the same sub-runs never change a PASS or FAIL of T3: the verdict of the
    whole test is as final as those of its registers. */
  lemma TestIsFinal(runs: seq<seq<seq<HandbackRun>>>, runs': seq<seq<seq<HandbackRun>>>, v: Verdict)
    requires v == Pass || v == Fail
    requires TestOf(T3, EvaluationsOfRuns(runs), false).verdict == v
    requires |runs'| == |runs| && forall i :: 0 <= i < |runs| ==> RunExtends(runs[i], runs'[i])
    ensures TestOf(T3, EvaluationsOfRuns(runs'), false).verdict == v
  {
    AggregationExact(T3, runs, v);
    AggregationExact(T3, runs', v);
    forall i | 0 <= i < |runs|
      ensures RunAll(T3, runs'[i], v)
    {
      RunIsFinal(runs[i], runs'[i], v);
    }
  }
}
