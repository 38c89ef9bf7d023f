/** T2 (hand-back) and T3 (settling) of one sub-run and one duty register
  (EvalHandback in ectest/internal/spec/eval.go).

  The rules are first stated over the samples as recorded, without any order of evaluation;
  `EvalHandback` then evaluates them the way the tool does: sort by time, one pass for the
  deviations, one search for the first steady window. */
module Handback {
  import opened Wrappers
  import opened StoredTime
  import opened RunLog
  import opened SpecRules

  /** One reading of a judged register, t milliseconds after the auto command. */
  datatype DcrSample = DcrSample(t: int, dcr: int)

  datatype HandbackRun = HandbackRun(
    sub: Label,
    written: int,
    samples: seq<DcrSample>,
    timingKnown: bool,
    auto: Option<int>,   // the automatic value A, when it was measured
    limitS: nat,         // T3 limit in seconds, 0: OBSERVE_S
    crossed: bool)       // the table input crossed a step

  datatype SubResult = SubResult(
    sub: Label,
    written: int,
    left: bool,
    leftAt: Option<int>,
    t2: Verdict,
    settleAt: Option<int>,
    finalValue: Option<int>,
    t3: Verdict)

  function Abs(x: int): nat {
    if x < 0 then -x else x
  }

  function Limit(r: HandbackRun): nat {
    if r.limitS == 0 then OBSERVE_S else r.limitS
  }

  const HOLD_MS := SETTLE_HOLD_S * MS_PER_S

  // ---- the rules -----------------------------------------------------------

  ghost predicate Leaves(r: HandbackRun, i: int) {
    0 <= i < |r.samples| && Abs(r.samples[i].dcr - r.written) >= LEAVE_COUNTS
  }

  ghost predicate Left(r: HandbackRun) {
    exists i :: Leaves(r, i)
  }

  ghost predicate LeftInTime(r: HandbackRun) {
    exists i :: Leaves(r, i) && r.samples[i].t <= LEAVE_WITHIN_S * MS_PER_S
  }

  ghost predicate Stays(r: HandbackRun) {
    forall i :: 0 <= i < |r.samples| ==> Abs(r.samples[i].dcr - r.written) <= HOLD_COUNTS
  }

  /** The log reaches time t. */
  ghost predicate SeenUntil(s: seq<DcrSample>, t: int) {
    exists i :: 0 <= i < |s| && s[i].t >= t
  }

  /** Leaving the written value cannot be told from returning to the automatic value. */
  predicate TooCloseToAuto(r: HandbackRun) {
    r.auto.Some? && Abs(r.written - r.auto.value) < LEAVE_COUNTS
  }

  ghost function T2Of(r: HandbackRun): Verdict {
    if r.samples == [] || r.crossed || TooCloseToAuto(r) || !r.timingKnown then Inconclusive
    else if LeftInTime(r) then Pass
    else if Stays(r) && SeenUntil(r.samples, (Limit(r) + SETTLE_HOLD_S) * MS_PER_S) then Fail
    else Inconclusive
  }

  /** Sample p comes before sample q: by time, and in the order of the log at the same time. */
  predicate Earlier(s: seq<DcrSample>, p: int, q: int)
    requires 0 <= p < |s| && 0 <= q < |s|
  {
    s[p].t < s[q].t || (s[p].t == s[q].t && p < q)
  }

  /** From sample p on every sample of the next 120 s lies within the band around sample p, and
    the log covers these 120 s. */
  ghost predicate SteadyFrom(s: seq<DcrSample>, p: int) {
    && 0 <= p < |s|
    && SeenUntil(s, s[p].t + HOLD_MS)
    && forall q :: 0 <= q < |s| && !Earlier(s, q, p) && s[q].t <= s[p].t + HOLD_MS
         ==> Abs(s[q].dcr - s[p].dcr) <= SETTLE_BAND
  }

  ghost predicate FirstSteady(s: seq<DcrSample>, p: int) {
    && SteadyFrom(s, p)
    && forall q :: SteadyFrom(s, q) ==> !Earlier(s, q, p)
  }

  ghost predicate SettledInTime(r: HandbackRun) {
    exists p :: SteadyFrom(r.samples, p) && r.samples[p].t <= Limit(r) * MS_PER_S
  }

  ghost function T3Of(r: HandbackRun): Verdict {
    if r.samples == [] || r.crossed || !r.timingKnown then Inconclusive
    else if SettledInTime(r) then Pass
    else if (exists p :: SteadyFrom(r.samples, p)) || SeenUntil(r.samples, (Limit(r) + SETTLE_HOLD_S) * MS_PER_S)
    then Fail
    else Inconclusive
  }

  /** The T2 part of the result: the verdict and the first time the written value was left. */
  ghost predicate LeaveResult(r: HandbackRun, left: bool, leftAt: Option<int>, t2: Verdict) {
    && left == Left(r)
    && t2 == T2Of(r)
    && (leftAt.Some? <==> r.timingKnown && Left(r))
    && (leftAt.Some? ==>
          && (exists i :: Leaves(r, i) && r.samples[i].t == leftAt.value)
          && (forall i :: Leaves(r, i) ==> leftAt.value <= r.samples[i].t))
  }

  /** The T3 part: the verdict and the first steady sample. */
  ghost predicate SettleResult(r: HandbackRun, settleAt: Option<int>, final: Option<int>, t3: Verdict) {
    && t3 == T3Of(r)
    && (settleAt.Some? <==> exists p :: SteadyFrom(r.samples, p))
    && (settleAt.Some? <==> final.Some?)
    && (settleAt.Some? ==>
          exists p :: FirstSteady(r.samples, p) && r.samples[p] == DcrSample(settleAt.value, final.value))
  }

  /** The whole result of a sub-run on one register, fixed by the rules. */
  ghost predicate Evaluates(r: HandbackRun, s: SubResult) {
    && s.sub == r.sub && s.written == r.written
    && LeaveResult(r, s.left, s.leftAt, s.t2)
    && SettleResult(r, s.settleAt, s.finalValue, s.t3)
  }

  /** Two results of the same sub-run are equal: the rules leave nothing open. */
  lemma EvaluatesOnce(r: HandbackRun, s: SubResult, u: SubResult)
    requires Evaluates(r, s) && Evaluates(r, u)
    ensures s == u
  {
    LeaveOnce(r, s.left, s.leftAt, s.t2, u.left, u.leftAt, u.t2);
    SettleOnce(r, s.settleAt, s.finalValue, s.t3, u.settleAt, u.finalValue, u.t3);
  }

  lemma LeaveOnce(r: HandbackRun, l: bool, a: Option<int>, v: Verdict, l': bool, a': Option<int>, v': Verdict)
    requires LeaveResult(r, l, a, v) && LeaveResult(r, l', a', v')
    ensures l == l' && a == a' && v == v'
  {
    if a.Some? {
      var i :| Leaves(r, i) && r.samples[i].t == a.value;
      var j :| Leaves(r, j) && r.samples[j].t == a'.value;
    }
  }

  lemma SettleOnce(r: HandbackRun, a: Option<int>, f: Option<int>, v: Verdict, a': Option<int>, f': Option<int>,
                   v': Verdict)
    requires SettleResult(r, a, f, v) && SettleResult(r, a', f', v')
    ensures a == a' && f == f' && v == v'
  {
    if a.Some? {
      var p :| FirstSteady(r.samples, p) && r.samples[p] == DcrSample(a.value, f.value);
      var q :| FirstSteady(r.samples, q) && r.samples[q] == DcrSample(a'.value, f'.value);
      assert !Earlier(r.samples, p, q) && !Earlier(r.samples, q, p);
    }
  }

  // ---- the stable sort by time ----------------------------------------------

  /** Positions of s in the order of time. */
  ghost predicate InOrder(s: seq<DcrSample>, o: seq<nat>) {
    && (forall i :: 0 <= i < |o| ==> o[i] < |s|)
    && (forall i, j :: 0 <= i < j < |o| ==> Earlier(s, o[i], o[j]))
  }

  /** How many of the sorted positions hold a sample that is not later than sample k. */
  function Place(s: seq<DcrSample>, o: seq<nat>, k: nat): (p: nat)
    requires k < |s| && InOrder(s, o)
    ensures p <= |o|
    ensures forall i :: 0 <= i < p ==> s[o[i]].t <= s[k].t
    ensures forall i :: p <= i < |o| ==> s[o[i]].t > s[k].t
  {
    if o == [] then 0
    else if s[o[|o|-1]].t <= s[k].t then
      assert forall i :: 0 <= i < |o|-1 ==> Earlier(s, o[i], o[|o|-1]);
      |o|
    else Place(s, o[..|o|-1], k)
  }

  /** Inserts position k behind all samples that are not later. */
  function Insert(s: seq<DcrSample>, o: seq<nat>, k: nat): (r: seq<nat>)
    requires k < |s| && InOrder(s, o)
  {
    var p := Place(s, o, k);
    o[..p] + [k] + o[p..]
  }

  /** Inserting the next position keeps the order. */
  lemma InsertKeepsOrder(s: seq<DcrSample>, o: seq<nat>, k: nat)
    requires k < |s|
    requires InOrder(s, o) && forall i :: 0 <= i < |o| ==> o[i] < k
    ensures InOrder(s, Insert(s, o, k))
  {
  }

  lemma InsertMembers(s: seq<DcrSample>, o: seq<nat>, k: nat)
    requires k < |s|
    requires InOrder(s, o) && forall i :: 0 <= i < |o| ==> o[i] < k
    ensures |Insert(s, o, k)| == |o| + 1
    ensures k in Insert(s, o, k) && forall x :: x in o ==> x in Insert(s, o, k)
    ensures forall i :: 0 <= i <= |o| ==> Insert(s, o, k)[i] <= k
  {
  }

  /** The positions of s sorted by time, positions of equal time in their own order. */
  method SortPositions(s: seq<DcrSample>) returns (o: seq<nat>)
    ensures InOrder(s, o) && |o| == |s|
    ensures forall x :: 0 <= x < |s| ==> x in o
  {
    o := [];
    for k := 0 to |s|
      invariant InOrder(s, o) && |o| == k
      invariant forall x :: 0 <= x < k ==> x in o
      invariant forall i :: 0 <= i < |o| ==> o[i] < k
    {
      InsertKeepsOrder(s, o, k);
      InsertMembers(s, o, k);
      o := Insert(s, o, k);
    }
  }

  /** The position o[i] is not earlier than o[j] exactly when it does not stand before it. */
  lemma OrderIsPosition(s: seq<DcrSample>, o: seq<nat>, i: int, j: int)
    requires InOrder(s, o) && 0 <= i < |o| && 0 <= j < |o|
    ensures Earlier(s, o[i], o[j]) <==> i < j
  {
  }

  // ---- the evaluation --------------------------------------------------------

  /** Steady from position i of the sorted samples, as the tool tests it. */
  ghost predicate SteadyAt(smp: seq<DcrSample>, i: int) {
    && 0 <= i < |smp|
    && smp[i].t + HOLD_MS <= smp[|smp|-1].t
    && forall j :: i <= j < |smp| && smp[j].t <= smp[i].t + HOLD_MS ==> Abs(smp[j].dcr - smp[i].dcr) <= SETTLE_BAND
  }

  ghost predicate SortedOf(s: seq<DcrSample>, o: seq<nat>, smp: seq<DcrSample>) {
    && InOrder(s, o) && |o| == |s| == |smp|
    && (forall x :: 0 <= x < |s| ==> x in o)
    && (forall i :: 0 <= i < |o| ==> smp[i] == s[o[i]])
  }

  lemma SteadyAtSorted(s: seq<DcrSample>, o: seq<nat>, smp: seq<DcrSample>, i: int)
    requires SortedOf(s, o, smp) && 0 <= i < |smp|
    ensures SteadyAt(smp, i) <==> SteadyFrom(s, o[i])
  {
    var p := o[i];
    if SteadyAt(smp, i) {
      assert s[o[|o|-1]].t >= s[p].t + HOLD_MS;
      forall q | 0 <= q < |s| && !Earlier(s, q, p) && s[q].t <= s[p].t + HOLD_MS
        ensures Abs(s[q].dcr - s[p].dcr) <= SETTLE_BAND
      {
        assert q in o;
        var j :| 0 <= j < |o| && o[j] == q;
        OrderIsPosition(s, o, j, i);
      }
    }
    if SteadyFrom(s, p) {
      var q :| 0 <= q < |s| && s[q].t >= s[p].t + HOLD_MS;
      assert q in o;
      var j :| 0 <= j < |o| && o[j] == q;
      assert j == |o|-1 || Earlier(s, o[j], o[|o|-1]);
      forall j | i <= j < |smp| && smp[j].t <= smp[i].t + HOLD_MS
        ensures Abs(smp[j].dcr - smp[i].dcr) <= SETTLE_BAND
      {
        OrderIsPosition(s, o, j, i);
      }
    }
  }

  /** The first steady position of the sorted samples is the first steady sample. */
  lemma FirstSteadySorted(s: seq<DcrSample>, o: seq<nat>, smp: seq<DcrSample>, i: int)
    requires SortedOf(s, o, smp) && 0 <= i < |smp|
    requires SteadyAt(smp, i) && forall h :: 0 <= h < i ==> !SteadyAt(smp, h)
    ensures FirstSteady(s, o[i])
  {
    SteadyAtSorted(s, o, smp, i);
    forall q | SteadyFrom(s, q)
      ensures !Earlier(s, q, o[i])
    {
      assert q in o;
      var j :| 0 <= j < |o| && o[j] == q;
      SteadyAtSorted(s, o, smp, j);
      OrderIsPosition(s, o, j, i);
    }
  }

  lemma NoneSteadySorted(s: seq<DcrSample>, o: seq<nat>, smp: seq<DcrSample>)
    requires SortedOf(s, o, smp)
    requires forall h :: 0 <= h < |smp| ==> !SteadyAt(smp, h)
    ensures !exists p :: SteadyFrom(s, p)
  {
    forall p | 0 <= p < |s|
      ensures !SteadyFrom(s, p)
    {
      assert p in o;
      var j :| 0 <= j < |o| && o[j] == p;
      SteadyAtSorted(s, o, smp, j);
    }
  }

  /** The pass over the sorted samples for T2. */
  method Deviations(written: int, smp: seq<DcrSample>) returns (leftPos: Option<nat>, stays: bool)
    ensures stays <==> forall i :: 0 <= i < |smp| ==> Abs(smp[i].dcr - written) <= HOLD_COUNTS
    ensures leftPos.None? ==> forall i :: 0 <= i < |smp| ==> Abs(smp[i].dcr - written) < LEAVE_COUNTS
    ensures leftPos.Some? ==>
              && leftPos.value < |smp| && Abs(smp[leftPos.value].dcr - written) >= LEAVE_COUNTS
              && forall i :: 0 <= i < leftPos.value ==> Abs(smp[i].dcr - written) < LEAVE_COUNTS
  {
    leftPos, stays := None, true;
    for k := 0 to |smp|
      invariant stays <==> forall i :: 0 <= i < k ==> Abs(smp[i].dcr - written) <= HOLD_COUNTS
      invariant leftPos.None? ==> forall i :: 0 <= i < k ==> Abs(smp[i].dcr - written) < LEAVE_COUNTS
      invariant leftPos.Some? ==>
                  && leftPos.value < k && Abs(smp[leftPos.value].dcr - written) >= LEAVE_COUNTS
                  && forall i :: 0 <= i < leftPos.value ==> Abs(smp[i].dcr - written) < LEAVE_COUNTS
    {
      var d := Abs(smp[k].dcr - written);
      if d >= LEAVE_COUNTS && leftPos.None? {
        leftPos := Some(k);
      }
      if d > HOLD_COUNTS {
        stays := false;
      }
    }
  }

  /** The search for the first steady window, over samples in the order of time. */
  method FindSteady(smp: seq<DcrSample>) returns (found: Option<nat>)
    requires forall i, j :: 0 <= i < j < |smp| ==> smp[i].t <= smp[j].t
    ensures found.Some? ==> SteadyAt(smp, found.value) && forall h :: 0 <= h < found.value ==> !SteadyAt(smp, h)
    ensures found.None? ==> forall h :: 0 <= h < |smp| ==> !SteadyAt(smp, h)
  {
    var i := 0;
    while i < |smp|
      invariant 0 <= i <= |smp|
      invariant forall h :: 0 <= h < i ==> !SteadyAt(smp, h)
    {
      var end := smp[i].t + HOLD_MS;
      if end > smp[|smp|-1].t {
        return None;
      }
      var ok, j := true, i;
      while j < |smp| && smp[j].t <= end && ok
        invariant i <= j <= |smp|
        invariant ok ==> forall k :: i <= k < j ==> Abs(smp[k].dcr - smp[i].dcr) <= SETTLE_BAND
        invariant !ok ==> j < |smp| && smp[j].t <= end && Abs(smp[j].dcr - smp[i].dcr) > SETTLE_BAND
        decreases |smp| - j, ok
      {
        if Abs(smp[j].dcr - smp[i].dcr) > SETTLE_BAND {
          ok := false;
        } else {
          j := j + 1;
        }
      }
      if ok {
        assert forall k :: i <= k < |smp| && smp[k].t <= end ==> k < j;
        return Some(i);
      }
      i := i + 1;
    }
    return None;
  }

  /** The T2 rule over the sorted samples. */
  method EvalLeave(r: HandbackRun, smp: seq<DcrSample>, ghost o: seq<nat>)
    returns (left: bool, leftAt: Option<int>, t2: Verdict)
    requires SortedOf(r.samples, o, smp) && smp != []
    ensures LeaveResult(r, left, leftAt, t2)
  {
    left, leftAt, t2 := false, None, Inconclusive;
    var leftPos, stays := Deviations(r.written, smp);
    SortedFacts(r, o, smp);
    if leftPos.Some? {
      LeftSorted(r, o, smp, leftPos.value);
      left := true;
      if r.timingKnown {
        leftAt := Some(smp[leftPos.value].t);
        if smp[leftPos.value].t <= LEAVE_WITHIN_S * MS_PER_S {
          t2 := Pass;
        }
      }
    } else {
      NotLeftSorted(r, o, smp);
      if stays && r.timingKnown && smp[|smp|-1].t >= (Limit(r) + SETTLE_HOLD_S) * MS_PER_S {
        t2 := Fail;
      }
    }
    if TooCloseToAuto(r) || r.crossed {
      t2 := Inconclusive;
    }
  }

  /** The T3 rule over the sorted samples. */
  method EvalSettle(r: HandbackRun, smp: seq<DcrSample>, ghost o: seq<nat>)
    returns (settleAt: Option<int>, final: Option<int>, t3: Verdict)
    requires SortedOf(r.samples, o, smp) && smp != []
    ensures SettleResult(r, settleAt, final, t3)
  {
    settleAt, final, t3 := None, None, Inconclusive;
    var found := FindSteady(smp);
    SortedFacts(r, o, smp);
    if found.Some? {
      FirstSteadySorted(r.samples, o, smp, found.value);
      settleAt, final := Some(smp[found.value].t), Some(smp[found.value].dcr);
      if r.timingKnown {
        t3 := if smp[found.value].t <= Limit(r) * MS_PER_S then Pass else Fail;
      }
    } else {
      NoneSteadySorted(r.samples, o, smp);
      if r.timingKnown && smp[|smp|-1].t >= (Limit(r) + SETTLE_HOLD_S) * MS_PER_S {
        t3 := Fail;
      }
    }
    if r.crossed {
      t3 := Inconclusive;
    }
  }

  /** The result of a sub-run on one register. */
  method EvalHandback(r: HandbackRun) returns (s: SubResult)
    ensures Evaluates(r, s)
  {
    if r.samples == [] {
      return SubResult(r.sub, r.written, false, None, Inconclusive, None, None, Inconclusive);
    }
    var o := SortPositions(r.samples);
    var smp := seq(|o|, i requires 0 <= i < |o| => r.samples[o[i]]);
    var left, leftAt, t2 := EvalLeave(r, smp, o);
    var settleAt, final, t3 := EvalSettle(r, smp, o);
    return SubResult(r.sub, r.written, left, leftAt, t2, settleAt, final, t3);
  }

  lemma SortedFacts(r: HandbackRun, o: seq<nat>, smp: seq<DcrSample>)
    requires SortedOf(r.samples, o, smp) && smp != []
    ensures Stays(r) <==> forall i :: 0 <= i < |smp| ==> Abs(smp[i].dcr - r.written) <= HOLD_COUNTS
    ensures forall t :: SeenUntil(r.samples, t) <==> smp[|smp|-1].t >= t
  {
    forall i | 0 <= i < |smp|
      ensures exists j :: 0 <= j < |o| && o[j] == i && r.samples[i] == smp[j] && smp[j].t <= smp[|smp|-1].t
    {
      assert i in o;
      var j :| 0 <= j < |o| && o[j] == i;
      assert j == |o|-1 || Earlier(r.samples, o[j], o[|o|-1]);
    }
    assert r.samples[o[|o|-1]] == smp[|smp|-1];
  }

  lemma LeftSorted(r: HandbackRun, o: seq<nat>, smp: seq<DcrSample>, k: nat)
    requires SortedOf(r.samples, o, smp) && k < |smp|
    requires Abs(smp[k].dcr - r.written) >= LEAVE_COUNTS
    requires forall i :: 0 <= i < k ==> Abs(smp[i].dcr - r.written) < LEAVE_COUNTS
    ensures Leaves(r, o[k])
    ensures forall i :: Leaves(r, i) ==> smp[k].t <= r.samples[i].t
  {
    forall i | Leaves(r, i)
      ensures smp[k].t <= r.samples[i].t
    {
      assert i in o;
      var j :| 0 <= j < |o| && o[j] == i;
      assert j == k || Earlier(r.samples, o[k], o[j]);
    }
  }

  lemma NotLeftSorted(r: HandbackRun, o: seq<nat>, smp: seq<DcrSample>)
    requires SortedOf(r.samples, o, smp)
    requires forall i :: 0 <= i < |smp| ==> Abs(smp[i].dcr - r.written) < LEAVE_COUNTS
    ensures !Left(r)
  {
    forall i | 0 <= i < |r.samples|
      ensures !Leaves(r, i)
    {
      assert i in o;
    }
  }

  // ---- the result as a value ---------------------------------------------------

  /** Among the steady samples there is a first one. */
  lemma FirstSteadyExists(s: seq<DcrSample>)
    requires exists p :: SteadyFrom(s, p)
    ensures exists p :: FirstSteady(s, p)
  {
    var best :| SteadyFrom(s, best);
    for k := 0 to |s|
      invariant SteadyFrom(s, best)
      invariant forall q :: 0 <= q < k && SteadyFrom(s, q) ==> !Earlier(s, q, best)
    {
      if SteadyFrom(s, k) && Earlier(s, k, best) {
        best := k;
      }
    }
    assert FirstSteady(s, best);
  }

  /** Among the samples that left the written value one has the least time. */
  lemma FirstLeaveExists(r: HandbackRun)
    requires Left(r)
    ensures exists i :: Leaves(r, i) && forall j :: Leaves(r, j) ==> r.samples[i].t <= r.samples[j].t
  {
    var best :| Leaves(r, best);
    for k := 0 to |r.samples|
      invariant Leaves(r, best)
      invariant forall q :: 0 <= q < k && Leaves(r, q) ==> r.samples[best].t <= r.samples[q].t
    {
      if Leaves(r, k) && r.samples[k].t < r.samples[best].t {
        best := k;
      }
    }
  }

  lemma EvaluationExists(r: HandbackRun)
    ensures exists s :: Evaluates(r, s)
  {
    var leftAt, settleAt, final := None, None, None;
    if r.timingKnown && Left(r) {
      FirstLeaveExists(r);
      var i :| Leaves(r, i) && forall j :: Leaves(r, j) ==> r.samples[i].t <= r.samples[j].t;
      leftAt := Some(r.samples[i].t);
    }
    if exists p :: SteadyFrom(r.samples, p) {
      FirstSteadyExists(r.samples);
      var p :| FirstSteady(r.samples, p);
      settleAt, final := Some(r.samples[p].t), Some(r.samples[p].dcr);
      assert r.samples[p] == DcrSample(settleAt.value, final.value);
    }
    assert Evaluates(r, SubResult(r.sub, r.written, Left(r), leftAt, T2Of(r), settleAt, final, T3Of(r)));
  }

  /** The result the rules fix for a sub-run; `EvalHandback` returns it (`EvaluatesOnce`). */
  ghost function Evaluation(r: HandbackRun): (s: SubResult)
    ensures Evaluates(r, s)
  {
    EvaluationExists(r);
    var s :| Evaluates(r, s);
    s
  }

  // ---- verdicts are final ----------------------------------------------------

  /** The sub-run with more samples, all of them later than the ones it has. */
  ghost predicate Continues(r: HandbackRun, more: seq<DcrSample>) {
    forall i, j :: 0 <= i < |r.samples| && 0 <= j < |more| ==> r.samples[i].t < more[j].t
  }

  function Continued(r: HandbackRun, more: seq<DcrSample>): HandbackRun {
    r.(samples := r.samples + more)
  }

  /** A window that the log covers is judged once and for all. */
  lemma SteadyIsFinal(r: HandbackRun, more: seq<DcrSample>, p: int)
    requires Continues(r, more) && 0 <= p < |r.samples|
    requires SeenUntil(r.samples, r.samples[p].t + HOLD_MS)
    ensures SteadyFrom(Continued(r, more).samples, p) <==> SteadyFrom(r.samples, p)
  {
    var s, s' := r.samples, Continued(r, more).samples;
    assert forall q :: 0 <= q < |s| ==> s'[q] == s[q];
    assert SeenUntil(s', s'[p].t + HOLD_MS) by {
      var q :| 0 <= q < |s| && s[q].t >= s[p].t + HOLD_MS;
      assert s'[q].t >= s'[p].t + HOLD_MS;
    }
    var w :| 0 <= w < |s| && s[w].t >= s[p].t + HOLD_MS;
    assert forall q :: |s| <= q < |s'| ==> s'[q] == more[q - |s|] && s'[q].t > s[w].t;
    if SteadyFrom(s', p) {
      forall q | 0 <= q < |s| && !Earlier(s, q, p) && s[q].t <= s[p].t + HOLD_MS
        ensures Abs(s[q].dcr - s[p].dcr) <= SETTLE_BAND
      {
        assert !Earlier(s', q, p) && s'[q] == s[q];
      }
    }
  }

  /** T3 is final: no later sample changes a PASS or a FAIL. */
  lemma T3Final(r: HandbackRun, more: seq<DcrSample>)
    requires Continues(r, more)
    requires T3Of(r) in {Pass, Fail}
    ensures T3Of(Continued(r, more)) == T3Of(r)
  {
    var r' := Continued(r, more);
    var s, s' := r.samples, r'.samples;
    assert forall q :: 0 <= q < |s| ==> s'[q] == s[q];
    forall p | SteadyFrom(s, p)
      ensures SteadyFrom(s', p) && s'[p] == s[p]
    {
      SteadyIsFinal(r, more, p);
    }
    if T3Of(r) == Fail {
      FailWasSeen(r);
      forall p | SteadyFrom(s', p)
        ensures s'[p].t > Limit(r) * MS_PER_S
      {
        NoEarlyWindowLater(r, more, p);
      }
      var w :| 0 <= w < |s| && s[w].t >= Limit(r) * MS_PER_S + HOLD_MS;
      assert s'[w].t >= Limit(r) * MS_PER_S + HOLD_MS;
    }
  }

  /** Once the log has reached the limit plus 120 s without an early steady window, no later
    sample makes one. */
  lemma NoEarlyWindowLater(r: HandbackRun, more: seq<DcrSample>, p: int)
    requires Continues(r, more) && SteadyFrom(Continued(r, more).samples, p)
    requires SeenUntil(r.samples, Limit(r) * MS_PER_S + HOLD_MS) && !SettledInTime(r)
    ensures Continued(r, more).samples[p].t > Limit(r) * MS_PER_S
  {
    var s, s' := r.samples, Continued(r, more).samples;
    var w :| 0 <= w < |s| && s[w].t >= Limit(r) * MS_PER_S + HOLD_MS;
    if p >= |s| {
      assert s'[p] == more[p - |s|];
    } else {
      assert s'[p] == s[p];
      if s[p].t <= Limit(r) * MS_PER_S {
        assert s[w].t >= s[p].t + HOLD_MS;
        SteadyIsFinal(r, more, p);
        assert false;
      }
    }
  }

  /** A T3 FAIL has seen the limit plus 120 s. */
  lemma FailWasSeen(r: HandbackRun)
    requires T3Of(r) == Fail
    ensures SeenUntil(r.samples, Limit(r) * MS_PER_S + HOLD_MS)
  {
  }

  /** T2: a PASS is kept, and a FAIL never becomes a PASS. */
  lemma T2PassKept(r: HandbackRun, more: seq<DcrSample>)
    requires Continues(r, more) && T2Of(r) == Pass
    ensures T2Of(Continued(r, more)) == Pass
  {
    var i :| Leaves(r, i) && r.samples[i].t <= LEAVE_WITHIN_S * MS_PER_S;
    assert Leaves(Continued(r, more), i);
  }

  lemma T2FailNeverPasses(r: HandbackRun, more: seq<DcrSample>)
    requires Continues(r, more) && T2Of(r) == Fail
    ensures T2Of(Continued(r, more)) != Pass
    ensures T2Of(Continued(r, more)) == Fail <==>
            forall j :: 0 <= j < |more| ==> Abs(more[j].dcr - r.written) <= HOLD_COUNTS
  {
    var r' := Continued(r, more);
    var w :| 0 <= w < |r.samples| && r.samples[w].t >= (Limit(r) + SETTLE_HOLD_S) * MS_PER_S;
    assert r'.samples[w] == r.samples[w];
    forall i | Leaves(r', i)
      ensures r'.samples[i].t > LEAVE_WITHIN_S * MS_PER_S
    {
      assert !Leaves(r, i);
      assert r'.samples[i] == more[i - |r.samples|];
    }
    assert forall j :: 0 <= j < |more| ==> r'.samples[|r.samples| + j] == more[j];
    assert forall i :: 0 <= i < |r.samples| ==> r'.samples[i] == r.samples[i];
  }
}
