/** What a run leaves behind: samples and events, and what is left of them in the files
  samples.csv and events.log (ectest/internal/spec/sample.go, ectest/internal/runner/runner.go).

  Temperatures are thousandths of a degree, as hwmon reports them; samples.csv keeps tenths.
  None stands for a value that was not available (NaN, or -1 for a register or tach). */
module RunLog {
  import opened Wrappers
  import opened StoredTime

  datatype Label = H | M

  /** Repetitions are numbered from 1. */
  type Rep = n: int | n >= 1 witness 1

  datatype Phase =
    | Boot
    | Gate
    | T1Rest
    | T1Step(duty: int)
    | T2Pre
    | T2Hold(rep: Rep, sub: Label)
    | T2Auto(rep: Rep, sub: Label)

  predicate InHandback(p: Phase) {
    p.T2Pre? || p.T2Hold? || p.T2Auto?
  }

  type Temp = Option<int>

  datatype Sample = Sample(
    ts: int,                // since the start of the run
    phase: Phase,
    ch: int,
    written: int,           // -1: nothing written in this phase
    dcr: seq<int>,          // DCR1..DCR5, -1 when not read
    fan: seq<int>,          // fan1..fan3, -1 when not readable
    ecCpu: Temp, ecSys: Temp, ecBoard: Temp, ecAmb: Temp,
    hddMax: Temp, nvmeMax: Temp, tctl: Temp)
  {
    predicate WellFormed() {
      |dcr| == 5 && |fan| == 3
    }
  }

  datatype EventText =
    | Wrote(ch: int, duty: int)          // "write pwmC=D"
    | T2AutoSent(rep: Rep, sub: Label) // "T2 rN L auto"
    | T1Complete
    | T2Complete
    | Note                               // every other line

  datatype Event = Event(ts: int, text: EventText)

  // ---- stored form ---------------------------------------------------------

  const TENTH := 100

  /** A temperature with one decimal; a tie goes to the even tenth. */
  function RoundTenth(t: int): int {
    var whole, rest := t / TENTH, t % TENTH;
    if 2 * rest < TENTH || (2 * rest == TENTH && whole % 2 == 0) then whole * TENTH else (whole + 1) * TENTH
  }

  function StoredTemp(t: Temp): Temp {
    if t.None? then None else Some(RoundTenth(t.value))
  }

  /** A negative number is an empty cell, read back as -1. */
  function StoredCell(v: int): int {
    if v < 0 then -1 else v
  }

  function StoredCells(v: seq<int>): (r: seq<int>)
    ensures |r| == |v|
  {
    seq(|v|, i requires 0 <= i < |v| => StoredCell(v[i]))
  }

  function StoredSample(s: Sample): Sample {
    Sample(Stored(s.ts), s.phase, if s.ch < 0 then 0 else s.ch, StoredCell(s.written),
           StoredCells(s.dcr), StoredCells(s.fan),
           StoredTemp(s.ecCpu), StoredTemp(s.ecSys), StoredTemp(s.ecBoard), StoredTemp(s.ecAmb),
           StoredTemp(s.hddMax), StoredTemp(s.nvmeMax), StoredTemp(s.tctl))
  }

  function StoredSamples(smp: seq<Sample>): (r: seq<Sample>)
    ensures |r| == |smp|
    ensures forall i :: 0 <= i < |r| ==> r[i] == StoredSample(smp[i])
  {
    seq(|smp|, i requires 0 <= i < |smp| => StoredSample(smp[i]))
  }

  function StoredEvents(ev: seq<Event>): (r: seq<Event>)
    ensures |r| == |ev|
    ensures forall i :: 0 <= i < |r| ==> r[i] == Event(Stored(ev[i].ts), ev[i].text)
  {
    seq(|ev|, i requires 0 <= i < |ev| => Event(Stored(ev[i].ts), ev[i].text))
  }

  /** The EC table inputs of a sample have at most one decimal, so storing them loses nothing. */
  predicate Representable(s: Sample) {
    && StoredTemp(s.ecCpu) == s.ecCpu
    && StoredTemp(s.ecBoard) == s.ecBoard
    && StoredTemp(s.ecAmb) == s.ecAmb
  }

  // ---- selection -----------------------------------------------------------

  /** The samples of one phase, in the order of the log. */
  function PhaseSamples(smp: seq<Sample>, phase: Phase): seq<Sample> {
    if smp == [] then []
    else
      var rest := PhaseSamples(smp[..|smp|-1], phase);
      if smp[|smp|-1].phase == phase then rest + [smp[|smp|-1]] else rest
  }

  lemma PhaseSamplesOfSum(a: seq<Sample>, b: seq<Sample>, phase: Phase)
    ensures PhaseSamples(a + b, phase) == PhaseSamples(a, phase) + PhaseSamples(b, phase)
  {
    if b == [] {
      assert a + b == a;
    } else {
      var l := b[|b|-1];
      assert (a + b)[..|a + b|-1] == a + b[..|b|-1];
      PhaseSamplesOfSum(a, b[..|b|-1], phase);
    }
  }

  predicate Uniform(smp: seq<Sample>, phase: Phase) {
    forall i :: 0 <= i < |smp| ==> smp[i].phase == phase
  }

  lemma PhaseSamplesUniform(smp: seq<Sample>, p: Phase, phase: Phase)
    requires Uniform(smp, p)
    ensures PhaseSamples(smp, phase) == if p == phase then smp else []
  {
  }

  lemma PhaseSamplesOfStored(smp: seq<Sample>, phase: Phase)
    ensures PhaseSamples(StoredSamples(smp), phase) == StoredSamples(PhaseSamples(smp, phase))
  {
    if smp != [] {
      PhaseSamplesOfStored(smp[..|smp|-1], phase);
      assert StoredSamples(smp)[..|smp|-1] == StoredSamples(smp[..|smp|-1]);
    }
  }

}
