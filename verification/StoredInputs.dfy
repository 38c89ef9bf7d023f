/** Table inputs and their stored form: when storing a temperature with one decimal changes whether
  an input crossed a table step (PreCrossing and MarkCrossing in ectest/internal/runner/runner.go,
  Crossing in ectest/internal/spec/eval.go). */
module StoredInputs {
  import opened Wrappers
  import opened RunLog
  import opened SpecRules

  /** The first known value. */
  function FirstTemp(v: seq<Temp>): Temp {
    if v == [] then None
    else if v[0].Some? then v[0]
    else FirstTemp(v[1..])
  }

  function FirstKnown(v: seq<Temp>): Option<real> {
    if FirstTemp(v).None? then None else Some(FirstTemp(v).value as real)
  }

  /** The table input crossed a step, against its first known value. */
  predicate InputCrossed(ch: int, inputs: seq<Temp>) {
    Crosses(ch, FirstKnown(inputs), inputs)
  }

  function StoredTemps(v: seq<Temp>): (r: seq<Temp>)
    ensures |r| == |v| && forall i :: 0 <= i < |r| ==> r[i] == StoredTemp(v[i])
  {
    seq(|v|, i requires 0 <= i < |v| => StoredTemp(v[i]))
  }

  // ---- one comparison ------------------------------------------------------------------

  const HALF := TENTH / 2

  /** Storing moves a temperature to the other side of an even number of tenths within half a tenth. */
  lemma RoundTenthSide(v: int, m: int)
    requires m % (2 * TENTH) == 0
    ensures RoundTenth(v) < m <==> v < m - HALF
    ensures RoundTenth(v) <= m <==> v <= m + HALF
  {
    var whole, w := v / TENTH, m / TENTH;
    assert v == whole * TENTH + v % TENTH && m == w * TENTH && w % 2 == 0;
    if whole == w - 1 {
      assert whole % 2 == 1;
    }
  }

  /** What the comparison of two stored temperatures with a step says, in exact temperatures. */
  predicate StoredAcross(ref: int, boundary: int, v: int) {
    || (ref < boundary - HALF && v >= boundary + CROSSING - HALF)
    || (ref >= boundary - HALF && v <= boundary - CROSSING + HALF)
  }

  lemma AcrossOfStored(ref: int, boundary: int, v: int)
    requires boundary % (2 * TENTH) == 0
    ensures Across(RoundTenth(ref) as real, boundary, RoundTenth(v)) <==> StoredAcross(ref, boundary, v)
  {
    RoundTenthSide(ref, boundary);
    RoundTenthSide(v, boundary + CROSSING);
    RoundTenthSide(v, boundary - CROSSING);
  }

  /** Storing changes the comparison in exactly these cases: the reference is rounded onto the step
    while the value is beyond it on either side, or the value is rounded onto the threshold on the
    other side than the reference. */
  lemma AcrossChangesExact(ref: int, boundary: int, v: int)
    requires boundary % (2 * TENTH) == 0
    ensures Across(RoundTenth(ref) as real, boundary, RoundTenth(v)) != Across(ref as real, boundary, v) <==>
              || (boundary - HALF <= ref < boundary && (v >= boundary + CROSSING || v <= boundary - CROSSING + HALF))
              || (ref < boundary - HALF && boundary + CROSSING - HALF <= v < boundary + CROSSING)
              || (ref >= boundary && boundary - CROSSING < v <= boundary - CROSSING + HALF)
  {
    AcrossOfStored(ref, boundary, v);
  }

  lemma BoundariesEven(ch: int, b: int)
    requires 0 <= b < |StepBoundaries(ch)|
    ensures StepBoundaries(ch)[b] % (2 * TENTH) == 0
  {
  }

  // ---- a whole series --------------------------------------------------------------------

  lemma {:induction false} FirstOfStored(v: seq<Temp>)
    ensures FirstTemp(StoredTemps(v)) == StoredTemp(FirstTemp(v))
  {
    if v != [] && v[0].None? {
      FirstOfStored(v[1..]);
      assert StoredTemps(v)[1..] == StoredTemps(v[1..]);
    }
  }

  /** Some value crosses a step from the reference when both are compared as stored. */
  predicate StoredCrosses(ch: int, vals: seq<Temp>) {
    FirstTemp(vals).Some? &&
    exists i, b :: 0 <= i < |vals| && vals[i].Some? && 0 <= b < |StepBoundaries(ch)|
                   && StoredAcross(FirstTemp(vals).value, StepBoundaries(ch)[b], vals[i].value)
  }

  /** The crossing of a stored series, in exact temperatures; so storing keeps the crossing of a
    series if and only if `StoredCrosses` and `InputCrossed` agree on it. */
  lemma CrossingOfStored(ch: int, vals: seq<Temp>)
    ensures InputCrossed(ch, StoredTemps(vals)) <==> StoredCrosses(ch, vals)
  {
    FirstOfStored(vals);
    var st := StoredTemps(vals);
    forall i, b | 0 <= i < |vals| && vals[i].Some? && 0 <= b < |StepBoundaries(ch)| && FirstTemp(vals).Some?
      ensures Across(FirstKnown(st).value, StepBoundaries(ch)[b], st[i].value)
              <==> StoredAcross(FirstTemp(vals).value, StepBoundaries(ch)[b], vals[i].value)
    {
      BoundariesEven(ch, b);
      AcrossOfStored(FirstTemp(vals).value, StepBoundaries(ch)[b], vals[i].value);
    }
  }

  /** The temperature is stored on the side of every step and of both thresholds of it on which it
    is: it is in none of the bands of half a tenth below a step, below the upper and above the
    lower threshold. */
  predicate Stable(ch: int, v: Temp) {
    v.Some? ==>
      forall b :: 0 <= b < |StepBoundaries(ch)| ==>
        var s := StepBoundaries(ch)[b];
        && !(s - HALF <= v.value < s)
        && !(s + CROSSING - HALF <= v.value < s + CROSSING)
        && !(s - CROSSING < v.value <= s - CROSSING + HALF)
  }

  predicate AllStableTemps(ch: int, vals: seq<Temp>) {
    forall i :: 0 <= i < |vals| ==> Stable(ch, vals[i])
  }

  lemma {:induction false} FirstIsOne(vals: seq<Temp>)
    requires FirstTemp(vals).Some?
    ensures FirstTemp(vals) in vals
  {
    if vals[0].None? {
      FirstIsOne(vals[1..]);
    }
  }

  /** Storing a series of such temperatures keeps its crossing. */
  lemma StableKeepsCrossing(ch: int, vals: seq<Temp>)
    requires AllStableTemps(ch, vals)
    ensures InputCrossed(ch, StoredTemps(vals)) <==> InputCrossed(ch, vals)
  {
    CrossingOfStored(ch, vals);
    if FirstTemp(vals).Some? {
      FirstIsOne(vals);
      assert Stable(ch, FirstTemp(vals));
      forall i, b | 0 <= i < |vals| && vals[i].Some? && 0 <= b < |StepBoundaries(ch)|
        ensures Across(FirstKnown(vals).value, StepBoundaries(ch)[b], vals[i].value)
                <==> StoredAcross(FirstTemp(vals).value, StepBoundaries(ch)[b], vals[i].value)
      {
        assert Stable(ch, vals[i]);
      }
    }
  }

  /** A series of two values: the first one and one that follows. */
  lemma PairCrossing(ch: int, a: int, v: int)
    ensures InputCrossed(ch, [Some(a), Some(v)]) <==>
              exists b :: 0 <= b < |StepBoundaries(ch)|
                          && (Across(a as real, StepBoundaries(ch)[b], v)
                              || Across(a as real, StepBoundaries(ch)[b], a))
    ensures StoredCrosses(ch, [Some(a), Some(v)]) <==>
              exists b :: 0 <= b < |StepBoundaries(ch)|
                          && (StoredAcross(a, StepBoundaries(ch)[b], v) || StoredAcross(a, StepBoundaries(ch)[b], a))
  {
    var vals := [Some(a), Some(v)];
    assert FirstTemp(vals) == Some(a);
    if b :| 0 <= b < |StepBoundaries(ch)| && StoredAcross(a, StepBoundaries(ch)[b], v) {
      assert StoredAcross(FirstTemp(vals).value, StepBoundaries(ch)[b], vals[1].value);
    }
    if b :| 0 <= b < |StepBoundaries(ch)| && Across(a as real, StepBoundaries(ch)[b], v) {
      assert Across(FirstKnown(vals).value, StepBoundaries(ch)[b], vals[1].value);
    }
  }

  lemma StepsApart(ch: int, b: int, c: int)
    requires 0 <= b < |StepBoundaries(ch)| && 0 <= c < |StepBoundaries(ch)| && b != c
    ensures StepBoundaries(ch)[b] <= StepBoundaries(ch)[c] - 5_000
            || StepBoundaries(ch)[b] >= StepBoundaries(ch)[c] + 5_000
  {
  }

  /** The crossing of a pair near step b that only its stored form has. */
  lemma PairChanges(ch: int, b: int, a: int, v: int)
    requires 0 <= b < |StepBoundaries(ch)|
    requires var s := StepBoundaries(ch)[b];
             && StoredAcross(a, s, v) && !Across(a as real, s, v)
             && s - CROSSING - HALF <= a <= s + CROSSING && s - CROSSING <= v <= s + CROSSING
    ensures InputCrossed(ch, StoredTemps([Some(a), Some(v)])) && !InputCrossed(ch, [Some(a), Some(v)])
  {
    PairCrossing(ch, a, v);
    CrossingOfStored(ch, [Some(a), Some(v)]);
    forall c | 0 <= c < |StepBoundaries(ch)|
      ensures !Across(a as real, StepBoundaries(ch)[c], v) && !Across(a as real, StepBoundaries(ch)[c], a)
    {
      if c != b {
        StepsApart(ch, b, c);
      }
    }
  }

  /** Three temperatures near a step that storing does not move to another side. */
  lemma NearStepStable(ch: int, b: int, x: int)
    requires 0 <= b < |StepBoundaries(ch)|
    requires var s := StepBoundaries(ch)[b]; x == s - CROSSING || x == s - HALF - 1 || x == s
    ensures Stable(ch, Some(x))
  {
    forall c | 0 <= c < |StepBoundaries(ch)| && c != b
      ensures StepBoundaries(ch)[b] <= StepBoundaries(ch)[c] - 5_000
              || StepBoundaries(ch)[b] >= StepBoundaries(ch)[c] + 5_000
    {
      StepsApart(ch, b, c);
    }
  }

  /** The condition is exact: any temperature outside it is part of a series of two, with a stable
    partner, that crosses a step only once it is stored. */
  lemma UnstableChangesCrossing(ch: int, v: int)
    requires !Stable(ch, Some(v))
    ensures exists x :: Stable(ch, Some(x)) &&
              (|| (InputCrossed(ch, StoredTemps([Some(v), Some(x)])) && !InputCrossed(ch, [Some(v), Some(x)]))
               || (InputCrossed(ch, StoredTemps([Some(x), Some(v)])) && !InputCrossed(ch, [Some(x), Some(v)])))
  {
    var b :| 0 <= b < |StepBoundaries(ch)| &&
             var s := StepBoundaries(ch)[b];
             || (s - HALF <= v < s)
             || (s + CROSSING - HALF <= v < s + CROSSING)
             || (s - CROSSING < v <= s - CROSSING + HALF);
    var s := StepBoundaries(ch)[b];
    if s - HALF <= v < s {
      NearStepStable(ch, b, s - CROSSING);
      PairChanges(ch, b, v, s - CROSSING);
    } else {
      var x := if v < s then s else s - HALF - 1;
      NearStepStable(ch, b, x);
      PairChanges(ch, b, x, v);
    }
  }

  /** Temperatures with at most one decimal are stable for every channel. */
  lemma TenthsAreStable(ch: int, v: Temp)
    requires StoredTemp(v) == v
    ensures Stable(ch, v)
  {
  }
}
