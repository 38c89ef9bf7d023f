/** The port handshake with the embedded controller (n5_wait_status, n5_drain_output, n5_pmc2_*,
  n5_ec_read_locked in driver/upstream/driver-prototype/minisforum_n5_it5571.c): the EC RAM
  interface at 0x62/0x66 (RD_EC 0x80, section 12.3.1 of the ACPI Specification 6.5) and the PMC2
  interface at 0x68/0x6c (vendor command 0xd5).

  Every byte read from a port is arbitrary. All accesses are recorded, and what the EC has been
  told is decoded from the record. */
module EcPorts {
  import opened Wrappers

  type Byte = b: int | 0 <= b < 256

  datatype Interface = EcRam | Pmc2
  datatype Port = Data(i: Interface) | Status(i: Interface)   // the status port takes the commands

  datatype Access = In(port: Port, v: Byte) | Out(port: Port, v: Byte)

  /** The accesses so far, the latest one outermost. */
  datatype PortTrace = NoAccess | Then(before: PortTrace, access: Access)

  const EC_READ: Byte := 0x80
  const PMC2_COMMAND: Byte := 0xd5
  const WAIT_LOOPS := 5000
  const DRAIN_LOOPS := 16

  // status bits, section 12.2.1 of the ACPI Specification 6.5
  predicate Obf(s: Byte) {
    s % 2 == 1
  }

  predicate Ibf(s: Byte) {
    (s / 2) % 2 == 1
  }

  // ---- handshake safety ---------------------------------------------------------------

  /** The last access read the status of interface i with the input buffer empty. */
  predicate SeenInputFree(tr: PortTrace, i: Interface) {
    tr.Then? && tr.access.In? && tr.access.port == Status(i) && !Ibf(tr.access.v)
  }

  /** The last access read the status of interface i with the output buffer full. */
  predicate SeenOutputFull(tr: PortTrace, i: Interface) {
    tr.Then? && tr.access.In? && tr.access.port == Status(i) && Obf(tr.access.v)
  }

  /** Every byte was written right after the input buffer was seen empty and every data byte read
    right after the output buffer was seen full. */
  predicate Safe(tr: PortTrace) {
    tr.Then? ==>
      && Safe(tr.before)
      && (tr.access.Out? ==> SeenInputFree(tr.before, tr.access.port.i))
      && (tr.access.In? && tr.access.port.Data? ==> SeenOutputFull(tr.before, tr.access.port.i))
  }

  /** The trace ends with accesses in which no byte was written to interface i after the input
    buffer was last seen empty: another byte may follow. */
  predicate InputFreeSinceLastByte(tr: PortTrace, i: Interface) {
    && tr.Then?
    && !(tr.access.Out? && tr.access.port.i == i)
    && (SeenInputFree(tr, i) || InputFreeSinceLastByte(tr.before, i))
  }

  predicate Prefix(p: PortTrace, tr: PortTrace) {
    p == tr || (tr.Then? && Prefix(p, tr.before))
  }

  /** Between any two bytes written to one interface the input buffer was seen empty. */
  lemma {:induction false} BytesAreAcknowledged(tr: PortTrace, p: PortTrace)
    requires Safe(tr) && Prefix(p, tr) && p.Then? && p.access.Out?
    ensures InputFreeSinceLastByte(p.before, p.access.port.i)
  {
    if p != tr {
      BytesAreAcknowledged(tr.before, p);
    }
  }

  lemma {:induction false} PrefixOn(a: PortTrace, b: PortTrace, c: PortTrace)
    requires Prefix(a, b) && Prefix(b, c)
    ensures Prefix(a, c)
  {
    if b != c {
      PrefixOn(a, b, c.before);
    }
  }

  /** The number of accesses, the instant at which a trace ends. */
  function Length(tr: PortTrace): nat {
    if tr.Then? then Length(tr.before) + 1 else 0
  }

  lemma {:induction false} PrefixLength(a: PortTrace, b: PortTrace)
    requires Prefix(a, b)
    ensures Length(a) <= Length(b)
  {
    if a != b {
      PrefixLength(a, b.before);
    }
  }

  /** The last byte written to the data port of an interface. */
  function LastSent(tr: PortTrace, i: Interface): Option<Byte> {
    match tr
    case NoAccess => None
    case Then(before, a) => if a.Out? && a.port == Data(i) then Some(a.v) else LastSent(before, i)
  }

  /** The last command written to an interface. */
  function LastCommand(tr: PortTrace, i: Interface): Option<Byte> {
    match tr
    case NoAccess => None
    case Then(before, a) => if a.Out? && a.port == Status(i) then Some(a.v) else LastCommand(before, i)
  }

  /** The trace ends with byte v, read in answer to the request sub. */
  predicate Answer(tr: PortTrace, i: Interface, sub: Byte, v: Byte) {
    && tr.Then? && tr.access == In(Data(i), v) && SeenOutputFull(tr.before, i)
    && LastSent(tr, i) == Some(sub)
  }

  // ---- draining -------------------------------------------------------------------------

  /** From b to tr n bytes that the EC had left in the output buffer were read. */
  predicate Discarded(b: PortTrace, tr: PortTrace, i: Interface, n: nat)
    decreases n
  {
    if n == 0 then tr == b
    else
      && tr.Then? && tr.access.In? && tr.access.port == Data(i) && SeenOutputFull(tr.before, i)
      && Discarded(b, tr.before.before, i, n - 1)
  }

  predicate SeenOutputEmpty(tr: PortTrace, i: Interface) {
    tr.Then? && tr.access.In? && tr.access.port == Status(i) && !Obf(tr.access.v)
  }

  /** From b to tr bytes were discarded until the output buffer was seen empty, or 16 of them. */
  ghost predicate Drained(b: PortTrace, tr: PortTrace, i: Interface) {
    || Discarded(b, tr, i, DRAIN_LOOPS)
    || (SeenOutputEmpty(tr, i) && exists n: nat :: n < DRAIN_LOOPS && Discarded(b, tr.before, i, n))
  }

  /** What happened after b began with a drain: no answer to an earlier request is taken for one of a
    later request. */
  ghost predicate BeginsDrained(b: PortTrace, tr: PortTrace, i: Interface) {
    exists m :: Drained(b, m, i) && Prefix(m, tr)
  }

  lemma StillDrained(b: PortTrace, t: PortTrace, tr: PortTrace, i: Interface)
    requires BeginsDrained(b, t, i) && Prefix(t, tr)
    ensures BeginsDrained(b, tr, i)
  {
    var m :| Drained(b, m, i) && Prefix(m, t);
    PrefixOn(m, t, tr);
  }

  // ---- giving up ------------------------------------------------------------------------

  /** From b to tr the status of interface i was polled n times and never showed what was waited for. */
  predicate Polled(b: PortTrace, tr: PortTrace, i: Interface, forOutput: bool, n: nat)
    decreases n
  {
    if n == 0 then tr == b
    else
      && tr.Then? && tr.access.In? && tr.access.port == Status(i)
      && (if forOutput then !Obf(tr.access.v) else Ibf(tr.access.v))
      && Polled(b, tr.before, i, forOutput, n - 1)
  }

  /** After b the trace ends with a wait that was given up after all its polls. */
  ghost predicate TimedOut(b: PortTrace, tr: PortTrace) {
    exists p, i, forOutput :: Prefix(b, p) && Polled(p, tr, i, forOutput, WAIT_LOOPS)
  }

  lemma TimedOutSince(a: PortTrace, b: PortTrace, tr: PortTrace)
    requires Prefix(a, b) && TimedOut(b, tr)
    ensures TimedOut(a, tr)
  {
    var p, i, forOutput :| Prefix(b, p) && Polled(p, tr, i, forOutput, WAIT_LOOPS);
    PrefixOn(a, b, p);
  }

  // ---- what the EC has been told --------------------------------------------------------

  const CHANNELS := 4
  const CURVE_REGS: seq<seq<Byte>> := [[0x23, 0x25, 0x27, 0x29], [0x2f], [0x2c], [0x33, 0x35, 0x37, 0x39]]
  const APPLY: seq<Byte> := [0x20, 0x2d, 0x2a, 0x30]
  const AUTO: seq<Byte> := [0x21, 0x2e, 0x2b, 0x31]

  datatype Command = NoCommand | RegWritten | Applied | Automatic

  datatype Phase = Quiet | Opened | Awaiting(sub: Byte)

  /** The EC as seen through its PMC2 interface: what it waits for, its pwm registers and the last
    command it got for each channel. */
  datatype Ec = Ec(phase: Phase, regs: map<Byte, Byte>, last: map<int, Command>)
  {
    function Last(ch: int): Command {
      if ch in last then last[ch] else NoCommand
    }
  }

  const FRESH := Ec(Quiet, map[], map[])

  function ChannelOfReg(sub: Byte): Option<int> {
    if sub in CURVE_REGS[0] then Some(0)
    else if sub in CURVE_REGS[1] then Some(1)
    else if sub in CURVE_REGS[2] then Some(2)
    else if sub in CURVE_REGS[3] then Some(3)
    else None
  }

  function ChannelOfApply(sub: Byte): Option<int> {
    if sub == APPLY[0] then Some(0)
    else if sub == APPLY[1] then Some(1)
    else if sub == APPLY[2] then Some(2)
    else if sub == APPLY[3] then Some(3)
    else None
  }

  function ChannelOfAuto(sub: Byte): Option<int> {
    if sub == AUTO[0] then Some(0)
    else if sub == AUTO[1] then Some(1)
    else if sub == AUTO[2] then Some(2)
    else if sub == AUTO[3] then Some(3)
    else None
  }

  /** A subcommand byte. */
  function Subcommand(e: Ec, sub: Byte): Ec {
    if ChannelOfReg(sub).Some? then e.(phase := Awaiting(sub))
    else if ChannelOfApply(sub).Some? then Ec(Quiet, e.regs, e.last[ChannelOfApply(sub).value := Applied])
    else if ChannelOfAuto(sub).Some? then Ec(Quiet, e.regs, e.last[ChannelOfAuto(sub).value := Automatic])
    else e.(phase := Quiet)
  }

  /** The value byte of a register write. */
  function Value(e: Ec, sub: Byte, v: Byte): Ec {
    Ec(Quiet, e.regs[sub := v],
       if ChannelOfReg(sub).Some? then e.last[ChannelOfReg(sub).value := RegWritten] else e.last)
  }

  /** One access: a command byte opens a new transaction whatever was left open, a data byte is a
    subcommand or a value; reads tell the EC nothing. */
  function Receive(e: Ec, a: Access): Ec {
    match a
    case Out(Status(Pmc2), v) => e.(phase := if v == PMC2_COMMAND then Opened else Quiet)
    case Out(Data(Pmc2), v) =>
      if e.phase == Opened then Subcommand(e, v)
      else if e.phase.Awaiting? then Value(e, e.phase.sub, v)
      else e
    case _ => e
  }

  function Told(tr: PortTrace): Ec {
    match tr
    case NoAccess => FRESH
    case Then(before, a) => Receive(Told(before), a)
  }

  // ---- the transactions -------------------------------------------------------------------

  /** The EC after a transaction was begun: not at all, with the command byte, or with the
    subcommand. */
  predicate Begun(e: Ec, e': Ec, sub: Byte, ok: bool) {
    if ok then e' == Subcommand(e, sub)
    else e' == e || e' == e.(phase := Opened) || e' == Subcommand(e, sub)
  }

  /** A register write that succeeded, or stopped somewhere. */
  predicate WroteReg(e: Ec, e': Ec, sub: Byte, v: Byte, ok: bool) {
    if ok then e' == Value(e, sub, v)
    else Begun(e, e', sub, false) || e' == Value(e, sub, v)
  }

  /** From tr to tr' nothing was written. */
  predicate OnlyReads(tr: PortTrace, tr': PortTrace) {
    tr' == tr || (tr'.Then? && tr'.access.In? && OnlyReads(tr, tr'.before))
  }

  lemma {:induction false} ReadsSendNothing(tr: PortTrace, tr': PortTrace, i: Interface)
    requires OnlyReads(tr, tr')
    ensures LastSent(tr', i) == LastSent(tr, i) && LastCommand(tr', i) == LastCommand(tr, i) && Prefix(tr, tr')
  {
    if tr' != tr {
      ReadsSendNothing(tr, tr'.before, i);
    }
  }

  class Ports {
    ghost var trace: PortTrace
    ghost var waits: nat       // calls of WaitStatus
    ghost var polls: nat       // status reads in them

    constructor ()
      ensures trace == NoAccess && waits == 0 && polls == 0
    {
      trace, waits, polls := NoAccess, 0, 0;
    }

    method Inb(port: Port) returns (v: Byte)
      modifies this`trace
      ensures trace == Then(old(trace), In(port, v))
    {
      v :| 0 <= v < 256;
      trace := Then(trace, In(port, v));
    }

    method Outb(v: Byte, port: Port)
      modifies this`trace
      ensures trace == Then(old(trace), Out(port, v))
    {
      trace := Then(trace, Out(port, v));
    }

    /** Polls until the input buffer is empty, or the output buffer full, at most WAIT_LOOPS times. */
    method WaitStatus(i: Interface, forOutput: bool) returns (ok: bool)
      requires Safe(trace)
      modifies this
      ensures Safe(trace) && Told(trace) == Told(old(trace)) && OnlyReads(old(trace), trace)
      ensures ok ==> if forOutput then SeenOutputFull(trace, i) else SeenInputFree(trace, i)
      ensures !ok ==> TimedOut(old(trace), trace)
      ensures waits == old(waits) + 1 && polls <= old(polls) + WAIT_LOOPS
    {
      waits := waits + 1;
      for k := 0 to WAIT_LOOPS
        invariant Polled(old(trace), trace, i, forOutput, k)
        invariant Safe(trace) && Told(trace) == Told(old(trace)) && OnlyReads(old(trace), trace)
        invariant waits == old(waits) + 1 && polls == old(polls) + k
      {
        var s := Inb(Status(i));
        polls := polls + 1;
        if (if forOutput then Obf(s) else !Ibf(s)) {
          return true;
        }
      }
      assert Prefix(old(trace), old(trace));
      return false;
    }

    /** Throws away what the EC has left in the output buffer. */
    method Drain(i: Interface)
      requires Safe(trace)
      modifies this`trace
      ensures Safe(trace) && Told(trace) == Told(old(trace)) && OnlyReads(old(trace), trace)
      ensures Drained(old(trace), trace, i)
    {
      for k := 0 to DRAIN_LOOPS
        invariant Safe(trace) && Told(trace) == Told(old(trace)) && OnlyReads(old(trace), trace)
        invariant Discarded(old(trace), trace, i, k)
      {
        var s := Inb(Status(i));
        if !Obf(s) {
          return;
        }
        var rest := Inb(Data(i));
      }
    }

    /** Drains the output buffer and waits until a first byte may be sent. */
    method Ready(i: Interface) returns (ok: bool)
      requires Safe(trace)
      modifies this
      ensures Safe(trace) && Told(trace) == Told(old(trace)) && Prefix(old(trace), trace)
      ensures ok ==> SeenInputFree(trace, i)
      ensures !ok ==> TimedOut(old(trace), trace)
      ensures BeginsDrained(old(trace), trace, i)
      ensures waits == old(waits) + 1 && polls <= old(polls) + WAIT_LOOPS
    {
      ghost var t0 := trace;
      Drain(i);
      ghost var t1 := trace;
      ok := WaitStatus(i, false);
      ReadsSendNothing(t0, t1, i);
      ReadsSendNothing(t1, trace, i);
      PrefixOn(t0, t1, trace);
      if !ok {
        TimedOutSince(t0, t1, trace);
      }
    }

    /** Sends one byte and waits for the input buffer, or for the answer. */
    method Send(v: Byte, port: Port, forOutput: bool) returns (ok: bool)
      requires Safe(trace) && SeenInputFree(trace, port.i)
      modifies this
      ensures Safe(trace) && Told(trace) == Receive(Told(old(trace)), Out(port, v)) && Prefix(old(trace), trace)
      ensures LastSent(trace, port.i) == if port.Data? then Some(v) else LastSent(old(trace), port.i)
      ensures LastCommand(trace, port.i) == if port.Status? then Some(v) else LastCommand(old(trace), port.i)
      ensures ok ==> if forOutput then SeenOutputFull(trace, port.i) else SeenInputFree(trace, port.i)
      ensures !ok ==> TimedOut(old(trace), trace)
      ensures waits == old(waits) + 1 && polls <= old(polls) + WAIT_LOOPS
    {
      ghost var t0 := trace;
      Outb(v, port);
      ghost var t1 := trace;
      ok := WaitStatus(port.i, forOutput);
      ReadsSendNothing(t1, trace, port.i);
      PrefixOn(t0, t1, trace);
      if !ok {
        TimedOutSince(t0, t1, trace);
      }
    }

    /** The command byte and the subcommand. */
    method Pmc2Command(sub: Byte) returns (ok: bool)
      requires Safe(trace) && SeenInputFree(trace, Pmc2)
      modifies this
      ensures Safe(trace) && Begun(Told(old(trace)), Told(trace), sub, ok) && Prefix(old(trace), trace)
      ensures waits <= old(waits) + 2 && polls <= old(polls) + 2 * WAIT_LOOPS
      ensures ok ==> SeenInputFree(trace, Pmc2) && LastSent(trace, Pmc2) == Some(sub)
      ensures !ok ==> TimedOut(old(trace), trace)
    {
      ghost var t0 := trace;
      ok := Send(PMC2_COMMAND, Status(Pmc2), false);
      if !ok {
        return;
      }
      ghost var t1 := trace;
      ok := Send(sub, Data(Pmc2), false);
      PrefixOn(t0, t1, trace);
      if !ok {
        TimedOutSince(t0, t1, trace);
      }
    }

    method Pmc2Begin(sub: Byte) returns (ok: bool)
      requires Safe(trace)
      modifies this
      ensures Safe(trace) && Begun(Told(old(trace)), Told(trace), sub, ok) && Prefix(old(trace), trace)
      ensures waits <= old(waits) + 3 && polls <= old(polls) + 3 * WAIT_LOOPS
      ensures ok ==> SeenInputFree(trace, Pmc2) && LastSent(trace, Pmc2) == Some(sub)
      ensures !ok ==> TimedOut(old(trace), trace)
      ensures BeginsDrained(old(trace), trace, Pmc2)
    {
      ghost var t0 := trace;
      ok := Ready(Pmc2);
      if !ok {
        return;
      }
      ghost var t1 := trace;
      ok := Pmc2Command(sub);
      PrefixOn(t0, t1, trace);
      StillDrained(t0, t1, trace, Pmc2);
      if !ok {
        TimedOutSince(t0, t1, trace);
      }
    }

    method Pmc2Read(sub: Byte) returns (v: Option<Byte>)
      requires Safe(trace)
      modifies this
      ensures Safe(trace) && Begun(Told(old(trace)), Told(trace), sub, v.Some?) && Prefix(old(trace), trace)
      ensures waits <= old(waits) + 4 && polls <= old(polls) + 4 * WAIT_LOOPS
      ensures v.Some? ==> Answer(trace, Pmc2, sub, v.value)
      ensures v.None? ==> TimedOut(old(trace), trace)
      ensures BeginsDrained(old(trace), trace, Pmc2)
    {
      ghost var t0 := trace;
      var ok := Pmc2Begin(sub);
      if !ok {
        return None;
      }
      ghost var t1 := trace;
      ok := WaitStatus(Pmc2, true);
      ReadsSendNothing(t1, trace, Pmc2);
      PrefixOn(t0, t1, trace);
      StillDrained(t0, t1, trace, Pmc2);
      if !ok {
        TimedOutSince(t0, t1, trace);
        return None;
      }
      ghost var t2 := trace;
      var b := Inb(Data(Pmc2));
      StillDrained(t0, t2, trace, Pmc2);
      return Some(b);
    }

    method Pmc2Write(sub: Byte, v: Byte) returns (ok: bool)
      requires Safe(trace) && ChannelOfReg(sub).Some?
      modifies this
      ensures Safe(trace) && WroteReg(Told(old(trace)), Told(trace), sub, v, ok) && Prefix(old(trace), trace)
      ensures waits <= old(waits) + 4 && polls <= old(polls) + 4 * WAIT_LOOPS
      ensures !ok ==> TimedOut(old(trace), trace)
    {
      ghost var t0 := trace;
      ok := Pmc2Begin(sub);
      if ok {
        ghost var t1 := trace;
        ok := Send(v, Data(Pmc2), false);
        PrefixOn(t0, t1, trace);
        if !ok {
          TimedOutSince(t0, t1, trace);
        }
      }
    }

    /** One byte of EC RAM. */
    method EcRead(address: Byte) returns (v: Option<Byte>)
      requires Safe(trace)
      modifies this
      ensures Safe(trace) && Told(trace) == Told(old(trace))
      ensures waits <= old(waits) + 3 && polls <= old(polls) + 3 * WAIT_LOOPS
      ensures v.Some? ==> Answer(trace, EcRam, address, v.value) && LastCommand(trace, EcRam) == Some(0x80)
      ensures v.None? ==> TimedOut(old(trace), trace)
    {
      ghost var t0 := trace;
      var ok := Ready(EcRam);
      if !ok {
        return None;
      }
      ghost var t1 := trace;
      ok := Send(EC_READ, Status(EcRam), false);
      PrefixOn(t0, t1, trace);
      if !ok {
        TimedOutSince(t0, t1, trace);
        return None;
      }
      ghost var t2 := trace;
      ok := Send(address, Data(EcRam), true);
      if !ok {
        TimedOutSince(t0, t2, trace);
        return None;
      }
      var b := Inb(Data(EcRam));
      return Some(b);
    }
  }
}
