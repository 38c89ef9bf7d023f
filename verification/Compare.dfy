/** The comparison of stored and recomputed results (compareTests and compareRuns in
  ectest/internal/report/recompute.go): verdicts of the tests, of every repetition and of every
  sub-run, in both directions. */
module Compare {
  import opened Wrappers
  import opened SpecRules
  import opened Aggregate

  datatype StoredTest = StoredTest(id: string, result: TestResult)

  datatype Mismatch =
    | TestDiffers(id: string)
    | TestMissing(id: string)
    | RunDiffers(run: nat)
    | RunMissing(run: nat)
    | SubDiffers(run: nat, i: nat)

  // ---- repetitions -------------------------------------------------------------------

  /** The entry of a repetition number; the last one counts. */
  function FindRun(rs: seq<RunResult>, n: nat): Option<RunResult> {
    if rs == [] then None
    else if rs[|rs|-1].run == n then Some(rs[|rs|-1])
    else FindRun(rs[..|rs|-1], n)
  }

  lemma {:induction false} FindRunExact(rs: seq<RunResult>, n: nat)
    ensures FindRun(rs, n).None? ==> forall i :: 0 <= i < |rs| ==> rs[i].run != n
    ensures FindRun(rs, n).Some? ==> exists i :: 0 <= i < |rs| && rs[i] == FindRun(rs, n).value && rs[i].run == n
  {
    if rs != [] {
      FindRunExact(rs[..|rs|-1], n);
    }
  }

  predicate SameSub(a: Merged, b: Merged) {
    a.t2 == b.t2 && a.t3 == b.t3
  }

  predicate SameSubs(a: seq<Merged>, b: seq<Merged>) {
    |a| == |b| && forall i :: 0 <= i < |a| ==> SameSub(a[i], b[i])
  }

  /** The stored repetition with the number of r says the same. */
  predicate Confirmed(stored: seq<RunResult>, r: RunResult) {
    var s := FindRun(stored, r.run);
    s.Some? && s.value.verdict == r.verdict && SameSubs(s.value.subs, r.subs)
  }

  predicate SameRuns(stored: seq<RunResult>, recomputed: seq<RunResult>) {
    && (forall i :: 0 <= i < |recomputed| ==> Confirmed(stored, recomputed[i]))
    && (forall i :: 0 <= i < |stored| ==> FindRun(recomputed, stored[i].run).Some?)
  }

  /** No two repetitions have the same number. */
  predicate Distinct(rs: seq<RunResult>) {
    forall i, j :: 0 <= i < j < |rs| ==> rs[i].run != rs[j].run
  }

  /** Two repetitions with one number, the same verdict and the same verdicts of their sub-runs. */
  predicate SameRun(s: RunResult, r: RunResult) {
    s.run == r.run && s.verdict == r.verdict && SameSubs(s.subs, r.subs)
  }

  predicate HasSame(stored: seq<RunResult>, r: RunResult) {
    exists j :: 0 <= j < |stored| && SameRun(stored[j], r)
  }

  predicate HasRun(rs: seq<RunResult>, n: nat) {
    exists j :: 0 <= j < |rs| && rs[j].run == n
  }

  /** The comparison, without the order of a search: every recomputed repetition has its equal among
    the stored ones, and every stored one has one of its number among the recomputed. */
  lemma SameRunsExact(stored: seq<RunResult>, recomputed: seq<RunResult>)
    requires Distinct(stored)
    ensures SameRuns(stored, recomputed) <==>
              && (forall i :: 0 <= i < |recomputed| ==> HasSame(stored, recomputed[i]))
              && (forall i :: 0 <= i < |stored| ==> HasRun(recomputed, stored[i].run))
  {
    forall i | 0 <= i < |recomputed|
      ensures Confirmed(stored, recomputed[i]) <==> HasSame(stored, recomputed[i])
    {
      FindRunExact(stored, recomputed[i].run);
    }
    forall i | 0 <= i < |stored|
      ensures FindRun(recomputed, stored[i].run).Some? <==> HasRun(recomputed, stored[i].run)
    {
      FindRunExact(recomputed, stored[i].run);
    }
  }

  method CompareSubs(run: nat, stored: seq<Merged>, recomputed: seq<Merged>) returns (out: seq<Mismatch>)
    ensures out == [] <==> SameSubs(stored, recomputed)
  {
    out := [];
    var n := if |stored| < |recomputed| then |recomputed| else |stored|;
    for i := 0 to n
      invariant out == [] <==> && i <= |stored| && i <= |recomputed|
                               && forall k :: 0 <= k < i ==> SameSub(stored[k], recomputed[k])
    {
      if i >= |stored| || i >= |recomputed| || !SameSub(stored[i], recomputed[i]) {
        out := out + [SubDiffers(run, i)];
      }
    }
  }

  method CompareRun(stored: seq<RunResult>, r: RunResult) returns (out: seq<Mismatch>)
    ensures out == [] <==> Confirmed(stored, r)
  {
    var s := FindRun(stored, r.run);
    if s.None? {
      return [RunMissing(r.run)];
    }
    out := CompareSubs(r.run, s.value.subs, r.subs);
    if s.value.verdict != r.verdict {
      out := [RunDiffers(r.run)] + out;
    }
  }

  method CompareRuns(stored: seq<RunResult>, recomputed: seq<RunResult>) returns (out: seq<Mismatch>)
    ensures out == [] <==> SameRuns(stored, recomputed)
  {
    out := [];
    for k := 0 to |recomputed|
      invariant out == [] <==> forall i :: 0 <= i < k ==> Confirmed(stored, recomputed[i])
    {
      var more := CompareRun(stored, recomputed[k]);
      out := out + more;
    }
    for k := 0 to |stored|
      invariant out == [] <==>
                  && (forall i :: 0 <= i < |recomputed| ==> Confirmed(stored, recomputed[i]))
                  && (forall i :: 0 <= i < k ==> FindRun(recomputed, stored[i].run).Some?)
    {
      if FindRun(recomputed, stored[k].run).None? {
        out := out + [RunMissing(stored[k].run)];
      }
    }
  }

  // ---- tests -------------------------------------------------------------------------

  function FindTest(ts: seq<StoredTest>, id: string): Option<TestResult> {
    if ts == [] then None
    else if ts[|ts|-1].id == id then Some(ts[|ts|-1].result)
    else FindTest(ts[..|ts|-1], id)
  }

  predicate TestConfirmed(stored: seq<StoredTest>, t: StoredTest) {
    var s := FindTest(stored, t.id);
    s.Some? && s.value.verdict == t.result.verdict && SameRuns(s.value.runs, t.result.runs)
  }

  predicate SameTests(stored: seq<StoredTest>, recomputed: seq<StoredTest>) {
    && (forall i :: 0 <= i < |recomputed| ==> TestConfirmed(stored, recomputed[i]))
    && (forall i :: 0 <= i < |stored| ==> FindTest(recomputed, stored[i].id).Some?)
  }

  method CompareTest(stored: seq<StoredTest>, t: StoredTest) returns (out: seq<Mismatch>)
    ensures out == [] <==> TestConfirmed(stored, t)
  {
    var s := FindTest(stored, t.id);
    if s.None? {
      return [TestMissing(t.id)];
    }
    out := CompareRuns(s.value.runs, t.result.runs);
    if s.value.verdict != t.result.verdict {
      out := [TestDiffers(t.id)] + out;
    }
  }

  method CompareTests(stored: seq<StoredTest>, recomputed: seq<StoredTest>) returns (out: seq<Mismatch>)
    ensures out == [] <==> SameTests(stored, recomputed)
  {
    out := [];
    for k := 0 to |recomputed|
      invariant out == [] <==> forall i :: 0 <= i < k ==> TestConfirmed(stored, recomputed[i])
    {
      var more := CompareTest(stored, recomputed[k]);
      out := out + more;
    }
    for k := 0 to |stored|
      invariant out == [] <==>
                  && (forall i :: 0 <= i < |recomputed| ==> TestConfirmed(stored, recomputed[i]))
                  && (forall i :: 0 <= i < k ==> FindTest(recomputed, stored[i].id).Some?)
    {
      if FindTest(recomputed, stored[k].id).None? {
        out := out + [TestMissing(stored[k].id)];
      }
    }
  }

  // ---- a faithful report shows nothing ------------------------------------------------------

  predicate Numbered(rs: seq<RunResult>) {
    forall i :: 0 <= i < |rs| ==> rs[i].run == i + 1
  }

  /** Numbered repetitions agree exactly when there are as many, with the same verdicts, and their
    sub-runs agree. */
  lemma NumberedExact(stored: seq<RunResult>, recomputed: seq<RunResult>)
    requires Numbered(stored) && Numbered(recomputed)
    ensures SameRuns(stored, recomputed) <==>
              |stored| == |recomputed| && forall i :: 0 <= i < |stored| ==>
                stored[i].verdict == recomputed[i].verdict && SameSubs(stored[i].subs, recomputed[i].subs)
  {
    SameRunsExact(stored, recomputed);
    if SameRuns(stored, recomputed) {
      if recomputed != [] {
        assert HasSame(stored, recomputed[|recomputed|-1]);
      }
      if stored != [] {
        assert HasRun(recomputed, stored[|stored|-1].run);
      }
      forall i | 0 <= i < |stored|
        ensures SameRun(stored[i], recomputed[i])
      {
        assert HasSame(stored, recomputed[i]);
      }
    }
    if |stored| == |recomputed| && forall i :: 0 <= i < |stored| ==>
         stored[i].verdict == recomputed[i].verdict && SameSubs(stored[i].subs, recomputed[i].subs) {
      forall i | 0 <= i < |recomputed|
        ensures HasSame(stored, recomputed[i]) && HasRun(recomputed, stored[i].run)
      {
        assert SameRun(stored[i], recomputed[i]);
        assert recomputed[i].run == stored[i].run;
      }
    }
  }

  lemma FindOnly(t: StoredTest)
    ensures FindTest([t], t.id) == Some(t.result)
  {
  }

  lemma FindBoth(a: StoredTest, b: StoredTest)
    requires a.id != b.id
    ensures FindTest([a, b], a.id) == Some(a.result) && FindTest([a, b], b.id) == Some(b.result)
  {
    assert [a, b][..1] == [a];
    FindOnly(a);
  }
}
