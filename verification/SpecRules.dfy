/** Numbers and channel tables of the test specification (ectest/internal/spec/eval.go). */
module SpecRules {
  import opened Wrappers
  import opened StoredTime
  import opened RunLog

  datatype Verdict = Pass | Fail | Inconclusive | NotApplicable

  const PCIE_CHANNEL := 4
  const LEAVE_COUNTS := 16      // distance at which a register has left the written value
  const HOLD_COUNTS := 2        // distance up to which it still holds it
  const LEAVE_WITHIN_S := 60
  const SETTLE_BAND := 2        // width of the band of a steady window,
  const SETTLE_HOLD_S := 120    // and its length
  const OBSERVE_S := 900
  const OBSERVE_FAST_S := 180
  const PRE_S := 900
  const PRE_FAST_S := 300
  const T1_OWN_STEP_RPM := 200
  const T1_OTHER_RPM := 50
  const T1_OTHER_DCR := 16
  const T1_STEP_HOLD_S := 60
  const SAMPLE_S := 5
  const GATE_WINDOW_S := 300
  const RUNS_REQUIRED := 3
  const MIN_DUTY := 100
  const MAX_DUTY := 255
  const MAX_M := 200
  const M_OFFSET := 48
  const LIMIT_TCTL := 85_000
  const LIMIT_NVME := 70_000
  const LIMIT_HDD := 50_000
  const CROSSING := 2_000

  const T1_STEPS: seq<int> := [255, 217, 179, 140]

  /** How long the EC may take to reach a written value, in seconds. */
  function SettleS(ch: int): int {
    if ch == 3 then 10 else 1
  }

  function T3LimitS(ch: int): nat {
    if ch == 1 || ch == 2 then OBSERVE_FAST_S else OBSERVE_S
  }

  function PreWindowS(ch: int): nat {
    if ch == 1 || ch == 2 then PRE_FAST_S else PRE_S
  }

  /** A register read t milliseconds after the write is judged from the settle time on; the
    millisecond covers the rounding of the stored times. */
  predicate Judged(ch: int, t: int) {
    t >= SettleS(ch) * MS_PER_S - 1
  }

  /** The EC table input of a channel; the PCIe channel has none. */
  function TableInput(ch: int, s: Sample): Temp {
    match ch
    case 1 => s.ecCpu
    case 2 => s.ecBoard
    case 3 => s.ecAmb
    case _ => None
  }

  function StepBoundaries(ch: int): seq<int> {
    match ch
    case 1 => [25_000, 45_000, 55_000, 65_000, 75_000, 82_000, 87_000]
    case 2 => [60_000]
    case 3 => [34_000]
    case _ => []
  }

  /** v lies at least 2 degrees beyond the boundary on the other side than the reference. */
  predicate Across(ref: real, boundary: int, v: int) {
    || (ref < boundary as real && v >= boundary + CROSSING)
    || (ref >= boundary as real && v <= boundary - CROSSING)
  }

  /** Some known value crosses a table step of channel ch against the reference; an unknown
    reference decides nothing. */
  predicate Crosses(ch: int, ref: Option<real>, vals: seq<Temp>) {
    && ref.Some?
    && exists i, b :: 0 <= i < |vals| && vals[i].Some? && 0 <= b < |StepBoundaries(ch)|
                      && Across(ref.value, StepBoundaries(ch)[b], vals[i].value)
  }

  /** One known value lies across some table step of channel ch from the reference. */
  predicate CrossesValue(ch: int, ref: Option<real>, v: Temp) {
    && ref.Some? && v.Some?
    && exists b :: 0 <= b < |StepBoundaries(ch)| && Across(ref.value, StepBoundaries(ch)[b], v.value)
  }

  lemma CrossesEach(ch: int, ref: Option<real>, vals: seq<Temp>)
    ensures Crosses(ch, ref, vals) <==> exists i :: 0 <= i < |vals| && CrossesValue(ch, ref, vals[i])
  {
    if i :| 0 <= i < |vals| && CrossesValue(ch, ref, vals[i]) {
      var b :| 0 <= b < |StepBoundaries(ch)| && Across(ref.value, StepBoundaries(ch)[b], vals[i].value);
      assert Across(ref.value, StepBoundaries(ch)[b], vals[i].value);
    }
    if Crosses(ch, ref, vals) {
      var i, b :| 0 <= i < |vals| && vals[i].Some? && 0 <= b < |StepBoundaries(ch)|
                  && Across(ref.value, StepBoundaries(ch)[b], vals[i].value);
      assert CrossesValue(ch, ref, vals[i]);
    }
  }

  lemma CrossesSum(ch: int, ref: Option<real>, a: seq<Temp>, b: seq<Temp>)
    ensures Crosses(ch, ref, a + b) <==> Crosses(ch, ref, a) || Crosses(ch, ref, b)
  {
    CrossesEach(ch, ref, a + b);
    CrossesEach(ch, ref, a);
    CrossesEach(ch, ref, b);
    assert forall i :: 0 <= i < |a| ==> (a + b)[i] == a[i];
    assert forall i :: 0 <= i < |b| ==> (a + b)[|a| + i] == b[i];
    forall i | 0 <= i < |a + b| && CrossesValue(ch, ref, (a + b)[i])
      ensures Crosses(ch, ref, a) || Crosses(ch, ref, b)
    {
      if i >= |a| {
        assert (a + b)[i] == b[i - |a|];
      }
    }
  }

  function JudgedRegs(ch: int): seq<int> {
    match ch
    case 1 => [1]
    case 2 => [2]
    case 3 => [3, 4]
    case 4 => [5]
    case _ => []
  }

  function OtherRegs(ch: int): seq<int> {
    match ch
    case 1 => [2, 3, 4, 5]
    case 2 => [1, 3, 4, 5]
    case 3 => [1, 2, 5]
    case 4 => [1, 2, 3, 4]
    case _ => [1, 2, 3, 4, 5]
  }

  /** The channel whose fan a duty register drives. */
  function RegChannel(n: int): int {
    match n
    case 1 => 1
    case 2 => 2
    case 3 => 3
    case 4 => 3
    case _ => PCIE_CHANNEL
  }

  /** Every duty register is judged for its channel and an other register for the rest. */
  lemma RegistersPartitioned(ch: int, n: int)
    requires 1 <= ch <= 4 && 1 <= n <= 5
    ensures (n in JudgedRegs(ch)) <==> RegChannel(n) == ch
    ensures (n in OtherRegs(ch)) <==> RegChannel(n) != ch
  {
  }

  /** The value of duty register n in a sample; -1 stands for none. */
  function RegDcr(s: Sample, n: int): int {
    if n < 1 || n > |s.dcr| || s.dcr[n-1] < 0 then -1 else s.dcr[n-1]
  }

  /** The duty of the second direction of T2, placed above the automatic value. */
  function MValue(a: int): (m: int)
    ensures MIN_DUTY <= m <= MAX_M
    ensures MIN_DUTY - M_OFFSET <= a <= MAX_M - M_OFFSET ==> m - a == M_OFFSET
    ensures a < MIN_DUTY - M_OFFSET ==> m == MIN_DUTY
    ensures a > MAX_M - M_OFFSET ==> m == MAX_M
  {
    var m := if a + M_OFFSET > MAX_M then MAX_M else a + M_OFFSET;
    if m < MIN_DUTY then MIN_DUTY else m
  }

  predicate All(vs: seq<Verdict>, v: Verdict) {
    forall i :: 0 <= i < |vs| ==> vs[i] == v
  }

  /** One verdict for several parts: unanimous, or undecided. */
  function Combine(vs: seq<Verdict>): (v: Verdict)
    ensures v == Pass <==> vs != [] && All(vs, Pass)
    ensures v == Fail <==> vs != [] && All(vs, Fail)
    ensures v != NotApplicable
  {
    if vs == [] then Inconclusive
    else if All(vs, Pass) then assert vs[0] == Pass; Pass
    else if All(vs, Fail) then Fail
    else Inconclusive
  }

  // ---- what storing keeps --------------------------------------------------

  lemma RegDcrOfStored(s: Sample, n: int)
    ensures RegDcr(StoredSample(s), n) == RegDcr(s, n)
  {
  }

}
