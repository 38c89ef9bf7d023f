/** The machine a run talks to (Env in ectest/internal/runner/runner.go, the hooks of the run in
  ectest/cmd/n5-ectest/validate.go). Every answer is arbitrary: a command or a read may fail at
  any time, any sensor may be missing, and any amount of time may pass in any call. What is sent is
  recorded. */
module Env {
  import opened Wrappers
  import opened RunLog
  import opened WorkerTrace

  /** The readings of one sample beside the duty registers; None or -1: not available. */
  datatype Readings = Readings(fan: seq<int>, tctl: Temp, nvmeMax: Temp, hddMax: Temp,
                               ecCpu: Temp, ecSys: Temp, ecBoard: Temp, ecAmb: Temp)

  datatype RestoreOutcome = Ok | Unverified | Failed

  /** What the machine has answered: to the guard, one answer a sample, how many waits it cancelled, and the
    last answers to a read of the registers and of the sensors. */
  datatype Heard = Heard(guards: seq<bool>, cancels: nat, dcr: Option<seq<int>>, row: Readings)

  class Machine {
    var clock: int
    ghost var trace: Trace
    ghost var heard: Heard

    constructor ()
      ensures trace == Start
    {
      trace := Start;
      heard := *;
      clock := 0;
    }

    method Now() returns (t: int)
      modifies this`clock
      ensures old(clock) <= t == clock
    {
      var d: int :| d >= 0;
      clock := clock + d;
      t := clock;
    }

    /** Waits at least d; false when the run is cancelled. */
    method Sleep(d: int) returns (ok: bool)
      requires d >= 0
      modifies this`clock, this`heard
      ensures old(clock) <= clock
      ensures ok ==> old(clock) + d <= clock
      ensures heard == if ok then old(heard) else old(heard).(cancels := old(heard).cancels + 1)
    {
      var t := Now();
      ok := *;
      if ok {
        clock := clock + d;
      } else {
        heard := heard.(cancels := heard.cancels + 1);
      }
    }

    /** DCR1..DCR5. */
    method Dcr() returns (d: Option<seq<int>>)
      modifies this`clock, this`heard
      ensures heard == old(heard).(dcr := d)
      ensures old(clock) <= clock
      ensures d.Some? ==> |d.value| == 5 && forall i :: 0 <= i < 5 ==> 0 <= d.value[i] <= 255
    {
      var t := Now();
      var ok: bool := *;
      heard := heard.(dcr := None);
      if !ok {
        return None;
      }
      var regs := [];
      for k := 0 to 5
        invariant |regs| == k && forall i :: 0 <= i < k ==> 0 <= regs[i] <= 255
      {
        var v: int :| 0 <= v <= 255;
        regs := regs + [v];
      }
      d := Some(regs);
      heard := heard.(dcr := d);
    }

    method Read() returns (rd: Readings)
      modifies this`clock, this`heard
      ensures heard == old(heard).(row := rd)
      ensures old(clock) <= clock
      ensures |rd.fan| == 3
    {
      var t := Now();
      var f1: int, f2: int, f3: int := *, *, *;
      rd := *;
      rd := rd.(fan := [f1, f2, f3]);
      heard := heard.(row := rd);
    }

    /** Whether no other pwm writer became active. */
    method Guard() returns (quiet: bool)
      modifies this`clock, this`heard
      ensures old(clock) <= clock
      ensures heard == old(heard).(guards := old(heard).guards + [quiet])
    {
      var t := Now();
      quiet := *;
      heard := heard.(guards := heard.guards + [quiet]);
    }

    method EnterManual(ch: int) returns (ok: bool)
      modifies this`clock, this`trace
      ensures old(clock) <= clock
      ensures trace == Then(old(trace), Commanded(ch, Manual, ok))
    {
      var t := Now();
      ok := *;
      trace := Then(trace, Commanded(ch, Manual, ok));
    }

    method WriteDuty(ch: int, duty: int) returns (ok: bool)
      modifies this`clock, this`trace
      ensures old(clock) <= clock
      ensures trace == Then(old(trace), Commanded(ch, Duty(duty), ok))
    {
      var t := Now();
      ok := *;
      trace := Then(trace, Commanded(ch, Duty(duty), ok));
    }

    method Auto(ch: int) returns (ok: bool)
      modifies this`clock, this`trace
      ensures old(clock) <= clock
      ensures trace == Then(old(trace), Commanded(ch, EcAuto, ok))
    {
      var t := Now();
      ok := *;
      trace := Then(trace, Commanded(ch, EcAuto, ok));
    }

    /** Tries to give the channel back its restore value. */
    method Restore(ch: int) returns (r: RestoreOutcome)
      modifies this`clock, this`trace
      ensures old(clock) <= clock
      ensures trace == Then(old(trace), PutBack(ch, r != Failed))
    {
      var t := Now();
      r := *;
      trace := Then(trace, PutBack(ch, r != Failed));
    }

    /** Writes the state file before the first write. */
    method BeforeWrite() returns (ok: bool)
      modifies this`clock, this`trace
      ensures old(clock) <= clock
      ensures trace == Then(old(trace), StateWritten(ok))
    {
      var t := Now();
      ok := *;
      trace := Then(trace, StateWritten(ok));
    }

    /** Records 255 for a hot channel in the state file. */
    method BeforeHot(ch: int) returns (ok: bool)
      modifies this`clock, this`trace
      ensures old(clock) <= clock
      ensures trace == Then(old(trace), HotRecorded(ch, ok))
    {
      var t := Now();
      ok := *;
      trace := Then(trace, HotRecorded(ch, ok));
    }
  }
}
