/** The hwmon driver (driver/upstream/driver-prototype/minisforum_n5_it5571.c): pwm writes with
  their cache, hand-back to the EC, removal, and the tear-free tach reading. Calls are serialized
  by the mutex of the driver. */
module Driver {
  import opened Wrappers
  import opened EcPorts
  import RunLog

  datatype Errno = Ok | EOPNOTSUPP | EPERM | EINVAL | EBUSY | ETIMEDOUT

  /** What a write is addressed to: fan_min, an attribute of a pwm channel, or another sensor type. */
  datatype Attr = FanMin | PwmInput | PwmEnable | OtherPwm | OtherType

  /** What the driver shows of a channel: pwmN and pwmN_enable (0 full speed, 1 manual, 2 EC). */
  datatype Cache = Cache(pwm: int, enable: int)

  const LOADED := Cache(255, 2)

  /** The error a write is refused with before anything is sent. */
  function Refusal(attr: Attr, ch: nat, value: int, writeEnabled: bool, c: Cache): Option<Errno> {
    if attr == FanMin then (if ch >= CHANNELS || value < 0 || value > 65535 then Some(EINVAL) else None)
    else if attr == OtherType || ch >= CHANNELS then Some(EOPNOTSUPP)
    else if !writeEnabled then Some(EPERM)
    else if attr == OtherPwm then Some(EOPNOTSUPP)
    else if attr == PwmInput then
      if value < 0 || value > 255 then Some(EINVAL) else if c.enable != 1 then Some(EBUSY) else None
    else if value < 0 || value > 2 then Some(EINVAL)
    else None
  }

  /** The cache after a write that succeeded. */
  function CacheAfter(c: Cache, attr: Attr, value: int): Cache {
    match attr
    case PwmInput => c.(pwm := value)
    case PwmEnable =>
      if value == 0 then Cache(255, 0)
      else if value == 1 then Cache(if c.enable != 1 then 255 else c.pwm, 1)
      else c.(enable := value)
    case _ => c
  }

  /** Whether a write sends a duty: entering manual mode does, staying in it does not. */
  predicate SendsDuty(c: Cache, attr: Attr, value: int) {
    attr == PwmInput || (attr == PwmEnable && (value == 0 || (value == 1 && c.enable != 1)))
  }

  /** All pwm registers of a channel hold v. */
  predicate Holds(e: Ec, ch: int, v: int)
    requires 0 <= ch < CHANNELS
  {
    forall k :: 0 <= k < |CURVE_REGS[ch]| ==> CURVE_REGS[ch][k] in e.regs && e.regs[CURVE_REGS[ch][k]] == v
  }

  /** Nothing was told about another channel. */
  ghost predicate OnlyChannel(e: Ec, e': Ec, ch: int) {
    && (forall sub: Byte :: ChannelOfReg(sub) != Some(ch) && sub in e.regs ==>
        sub in e'.regs && e'.regs[sub] == e.regs[sub])
    && (forall c :: c != ch ==> e'.Last(c) == e.Last(c))
  }

  lemma RegsOfChannel(ch: int, k: int)
    requires 0 <= ch < CHANNELS && 0 <= k < |CURVE_REGS[ch]|
    ensures ChannelOfReg(CURVE_REGS[ch][k]) == Some(ch)
    ensures ChannelOfApply(APPLY[ch]) == Some(ch) && ChannelOfReg(APPLY[ch]) == None
    ensures ChannelOfAuto(AUTO[ch]) == Some(ch) && ChannelOfReg(AUTO[ch]) == None && ChannelOfApply(AUTO[ch]) == None
  {
  }

  lemma OthersHold(e: Ec, e': Ec, ch: int, c: int, v: int)
    requires OnlyChannel(e, e', ch) && 0 <= c < CHANNELS && c != ch && Holds(e, c, v)
    ensures Holds(e', c, v)
  {
  }

  lemma OnlyChannelTwice(a: Ec, b: Ec, c: Ec, ch: int)
    requires OnlyChannel(a, b, ch) && OnlyChannel(b, c, ch)
    ensures OnlyChannel(a, c, ch)
  {
  }

  /** The duty is on its way: some register of the channel may be written. */
  lemma WriteOnlyChannel(e: Ec, e': Ec, ch: int, k: int, v: Byte, ok: bool)
    requires 0 <= ch < CHANNELS && 0 <= k < |CURVE_REGS[ch]| && WroteReg(e, e', CURVE_REGS[ch][k], v, ok)
    ensures OnlyChannel(e, e', ch)
    ensures ok ==> e' == Value(e, CURVE_REGS[ch][k], v) && e'.Last(ch) == RegWritten
  {
  }

  lemma ApplyOnlyChannel(e: Ec, e': Ec, ch: int, ok: bool)
    requires 0 <= ch < CHANNELS && Begun(e, e', APPLY[ch], ok)
    ensures OnlyChannel(e, e', ch) && e'.regs == e.regs && (ok ==> e'.Last(ch) == Applied)
  {
  }

  lemma AutoOnlyChannel(e: Ec, e': Ec, ch: int, ok: bool)
    requires 0 <= ch < CHANNELS && Begun(e, e', AUTO[ch], ok)
    ensures OnlyChannel(e, e', ch) && e'.regs == e.regs && (ok ==> e'.Last(ch) == Automatic)
    ensures e'.Last(ch) == e.Last(ch) || e'.Last(ch) == Automatic
  {
  }

  /** Sends a duty to all registers of a channel and applies it. */
  method SetPwm(p: Ports, ch: int, v: Byte) returns (ok: bool)
    requires Safe(p.trace) && 0 <= ch < CHANNELS
    modifies p
    ensures Safe(p.trace) && OnlyChannel(Told(old(p.trace)), Told(p.trace), ch)
    ensures ok ==> Holds(Told(p.trace), ch, v) && Told(p.trace).Last(ch) == Applied
    ensures p.waits <= old(p.waits) + 4 * |CURVE_REGS[ch]| + 3
    ensures p.polls <= old(p.polls) + (4 * |CURVE_REGS[ch]| + 3) * WAIT_LOOPS
    ensures !ok ==> TimedOut(old(p.trace), p.trace)
  {
    var regs := CURVE_REGS[ch];
    ghost var t0, e0 := p.trace, Told(p.trace);
    for k := 0 to |regs|
      invariant Prefix(t0, p.trace)
      invariant Safe(p.trace) && OnlyChannel(e0, Told(p.trace), ch)
      invariant forall j :: 0 <= j < k ==> regs[j] in Told(p.trace).regs && Told(p.trace).regs[regs[j]] == v
      invariant p.waits <= old(p.waits) + 4 * k && p.polls <= old(p.polls) + 4 * k * WAIT_LOOPS
    {
      ghost var t, e := p.trace, Told(p.trace);
      RegsOfChannel(ch, k);
      ok := p.Pmc2Write(regs[k], v);
      PrefixOn(t0, t, p.trace);
      WriteOnlyChannel(e, Told(p.trace), ch, k, v, ok);
      OnlyChannelTwice(e0, e, Told(p.trace), ch);
      if !ok {
        TimedOutSince(t0, t, p.trace);
        return;
      }
    }
    ghost var t, e := p.trace, Told(p.trace);
    ok := p.Pmc2Begin(APPLY[ch]);
    ApplyOnlyChannel(e, Told(p.trace), ch, ok);
    OnlyChannelTwice(e0, e, Told(p.trace), ch);
    if !ok {
      TimedOutSince(t0, t, p.trace);
    }
  }

  /** From b to t the automatic command of a channel was sent, or its transaction timed out. */
  ghost predicate HandedBack(b: PortTrace, t: PortTrace, ch: int, ok: bool)
    requires 0 <= ch < CHANNELS
  {
    Begun(Told(b), Told(t), AUTO[ch], ok) && (!ok ==> TimedOut(b, t))
  }

  method SetAuto(p: Ports, ch: int) returns (ok: bool)
    requires Safe(p.trace) && 0 <= ch < CHANNELS
    modifies p
    ensures Safe(p.trace) && OnlyChannel(Told(old(p.trace)), Told(p.trace), ch)
    ensures Told(p.trace).regs == Told(old(p.trace)).regs
    ensures ok ==> Told(p.trace).Last(ch) == Automatic
    ensures Told(p.trace).Last(ch) == Told(old(p.trace)).Last(ch) || Told(p.trace).Last(ch) == Automatic
    ensures p.waits <= old(p.waits) + 3 && p.polls <= old(p.polls) + 3 * WAIT_LOOPS
    ensures HandedBack(old(p.trace), p.trace, ch, ok)
  {
    ghost var e := Told(p.trace);
    ok := p.Pmc2Begin(AUTO[ch]);
    AutoOnlyChannel(e, Told(p.trace), ch, ok);
  }

  /** The waits of a write to CPU and PCIe are 19, to SSD and HDD 7. */
  lemma WaitsOfWrite()
    ensures 4 * |CURVE_REGS[0]| + 3 == 4 * |CURVE_REGS[3]| + 3 == 19
    ensures 4 * |CURVE_REGS[1]| + 3 == 4 * |CURVE_REGS[2]| + 3 == 7
  {
  }

  // ---- the driver ---------------------------------------------------------------------

  /** What the driver keeps of one channel. */
  ghost predicate ChannelOk(e: Ec, ch: int, c: Cache, touched: bool, synced: bool)
    requires 0 <= ch < CHANNELS
  {
    && 0 <= c.pwm <= 255 && 0 <= c.enable <= 2
    && (c.enable != 2 ==> touched)
    && (!touched ==> e.Last(ch) == NoCommand || e.Last(ch) == Automatic)
    && (synced ==> Holds(e, ch, c.pwm))
  }

  class N5 {
    const ports: Ports
    const pwm: array<int>
    const enable: array<int>
    const touched: array<bool>
    const fanMin: array<int>
    const writeEnabled: bool
    ghost var synced: set<int>    // the channels whose last duty was sent completely

    ghost predicate Arrays() {
      && pwm.Length == enable.Length == touched.Length == fanMin.Length == CHANNELS
      && pwm != enable && pwm != fanMin && enable != fanMin
    }

    ghost function CacheOf(ch: int): Cache
      requires Arrays() && 0 <= ch < CHANNELS
      reads pwm, enable
    {
      Cache(pwm[ch], enable[ch])
    }

    /** An untouched channel has been told nothing since the driver was loaded or its last automatic
      command; a channel that is not automatic is touched; and the registers of a channel whose
      last duty was sent completely hold the cached pwm. */
    ghost predicate Valid()
      reads this, ports, pwm, enable, touched
    {
      && Arrays() && Safe(ports.trace)
      && forall ch :: 0 <= ch < CHANNELS ==> ChannelOk(Told(ports.trace), ch, CacheOf(ch), touched[ch], ch in synced)
    }

    constructor (ports: Ports, writeEnabled: bool)
      requires ports.trace == NoAccess
      ensures Valid() && this.ports == ports && this.writeEnabled == writeEnabled
      ensures fresh(pwm) && fresh(enable) && fresh(touched) && fresh(fanMin)
      ensures forall ch :: 0 <= ch < CHANNELS ==> CacheOf(ch) == LOADED && !touched[ch]
    {
      this.ports, this.writeEnabled := ports, writeEnabled;
      pwm := new int[CHANNELS](i => 255);
      enable := new int[CHANNELS](i => 2);
      touched := new bool[CHANNELS](i => false);
      fanMin := new int[CHANNELS](i => 0);
      synced := {};
    }

    /** Sends a duty and caches it when it was sent completely. */
    method UpdatePwm(ch: int, v: Byte) returns (ok: bool)
      requires Valid() && 0 <= ch < CHANNELS
      modifies this`synced, ports, pwm, touched
      ensures Valid() && touched[ch]
      ensures forall c :: 0 <= c < CHANNELS && c != ch ==>
              CacheOf(c) == old(CacheOf(c)) && touched[c] == old(touched[c])
      ensures CacheOf(ch) == if ok then old(CacheOf(ch)).(pwm := v) else old(CacheOf(ch))
      ensures ok <==> ch in synced
      ensures ok ==> Holds(Told(ports.trace), ch, v) && Told(ports.trace).Last(ch) == Applied
      ensures OnlyChannel(Told(old(ports.trace)), Told(ports.trace), ch)
      ensures ports.waits <= old(ports.waits) + 4 * |CURVE_REGS[ch]| + 3
      ensures !ok ==> TimedOut(old(ports.trace), ports.trace)
    {
      ghost var e := Told(ports.trace);
      touched[ch] := true;
      ok := SetPwm(ports, ch, v);
      synced := synced - {ch};
      if ok {
        pwm[ch] := v;
        synced := synced + {ch};
      }
      forall c | 0 <= c < CHANNELS && c != ch && c in synced
        ensures Holds(Told(ports.trace), c, pwm[c])
      {
        OthersHold(e, Told(ports.trace), ch, c, pwm[c]);
      }
    }

    /** Hands a channel back to the EC. */
    method HandBack(ch: int) returns (ok: bool)
      requires Valid() && 0 <= ch < CHANNELS
      modifies ports, enable, touched
      ensures Valid() && touched[ch] == !ok
      ensures forall c :: 0 <= c < CHANNELS && c != ch ==>
              CacheOf(c) == old(CacheOf(c)) && touched[c] == old(touched[c])
      ensures CacheOf(ch) == if ok then old(CacheOf(ch)).(enable := 2) else old(CacheOf(ch))
      ensures OnlyChannel(Told(old(ports.trace)), Told(ports.trace), ch)
              && Told(ports.trace).regs == Told(old(ports.trace)).regs
      ensures ok ==> Told(ports.trace).Last(ch) == Automatic
      ensures ports.waits <= old(ports.waits) + 3
      ensures !ok ==> TimedOut(old(ports.trace), ports.trace)
    {
      touched[ch] := true;
      ok := SetAuto(ports, ch);
      if ok {
        enable[ch] := 2;
        touched[ch] := false;
      }
    }

    /** A sysfs write. Refused writes change nothing; a failed one leaves the cache as it was; one
      that sent a duty leaves all registers of the channel at the cached pwm. */
    method Write(attr: Attr, ch: nat, value: int) returns (ret: Errno)
      requires Valid()
      modifies this`synced, ports, pwm, enable, touched, fanMin
      ensures Valid()
      ensures forall c :: 0 <= c < CHANNELS && c != ch ==>
              CacheOf(c) == old(CacheOf(c)) && touched[c] == old(touched[c])
      ensures fanMin[..] == if attr == FanMin && ch < CHANNELS && ret == Ok then old(fanMin[..])[ch := value]
              else old(fanMin[..])
      ensures ch < CHANNELS && !SendsDuty(old(CacheOf(ch)), attr, value) && !(attr == PwmEnable && value == 2) ==>
                ports.trace == old(ports.trace)
      ensures var why := Refusal(attr, ch, value, writeEnabled, if ch < CHANNELS then old(CacheOf(ch)) else LOADED);
              if why.Some? then ret == why.value && ports.trace == old(ports.trace) else ret == Ok || ret == ETIMEDOUT
      ensures ch < CHANNELS ==>
              CacheOf(ch) == if ret == Ok then CacheAfter(old(CacheOf(ch)), attr, value) else old(CacheOf(ch))
      ensures ch < CHANNELS && ret == Ok && SendsDuty(old(CacheOf(ch)), attr, value) ==>
              Holds(Told(ports.trace), ch, pwm[ch])
      ensures ch < CHANNELS && ret == Ok && attr == PwmEnable && value == 2 ==>
              !touched[ch] && Told(ports.trace).Last(ch) == Automatic
      ensures attr == PwmInput && ret == Ok ==>
                ch < CHANNELS && 0 <= value <= 255 && old(enable[ch]) == enable[ch] == 1 && pwm[ch] == value
      ensures attr == PwmEnable && ret == Ok ==>
                && ch < CHANNELS && 0 <= value <= 2 && enable[ch] == value
                && pwm[ch] == if value == 0 || (value == 1 && old(enable[ch]) != 1) then 255 else old(pwm[ch])
      ensures !writeEnabled && ret == Ok ==> attr == FanMin
      ensures ret == ETIMEDOUT ==> ch < CHANNELS && touched[ch] && TimedOut(old(ports.trace), ports.trace)
      ensures OnlyChannel(Told(old(ports.trace)), Told(ports.trace), ch)
    {
      if attr == FanMin {
        if ch >= CHANNELS || value < 0 || value > 65535 {
          return EINVAL;
        }
        fanMin[ch] := value;
        return Ok;
      }
      if attr == OtherType || ch >= CHANNELS {
        return EOPNOTSUPP;
      }
      if !writeEnabled {
        return EPERM;
      }
      if attr == OtherPwm {
        return EOPNOTSUPP;
      }
      if attr == PwmInput {
        if value < 0 || value > 255 {
          return EINVAL;
        }
        if enable[ch] != 1 {
          return EBUSY;
        }
        var ok := UpdatePwm(ch, value);
        return if ok then Ok else ETIMEDOUT;
      }
      ret := WriteEnable(ch, value);
    }

    method WriteEnable(ch: nat, value: int) returns (ret: Errno)
      requires Valid() && ch < CHANNELS
      modifies this`synced, ports, pwm, enable, touched
      ensures Valid()
      ensures forall c :: 0 <= c < CHANNELS && c != ch ==>
              CacheOf(c) == old(CacheOf(c)) && touched[c] == old(touched[c])
      ensures if value < 0 || value > 2 then ret == EINVAL && ports.trace == old(ports.trace)
              else ret == Ok || ret == ETIMEDOUT
      ensures CacheOf(ch) == if ret == Ok then CacheAfter(old(CacheOf(ch)), PwmEnable, value) else old(CacheOf(ch))
      ensures ret == Ok && SendsDuty(old(CacheOf(ch)), PwmEnable, value) ==> Holds(Told(ports.trace), ch, pwm[ch])
      ensures ret == Ok && value == 2 ==> !touched[ch] && Told(ports.trace).Last(ch) == Automatic
      ensures !SendsDuty(old(CacheOf(ch)), PwmEnable, value) && value != 2 ==> ports.trace == old(ports.trace)
      ensures ret == ETIMEDOUT ==> touched[ch] && TimedOut(old(ports.trace), ports.trace)
      ensures OnlyChannel(Told(old(ports.trace)), Told(ports.trace), ch)
    {
      var ok := true;
      match value {
        case 0 =>
          ok := UpdatePwm(ch, 255);
          if ok {
            enable[ch] := 0;
          }
        case 1 =>
          if enable[ch] != 1 {
            ok := UpdatePwm(ch, 255);
          }
          if ok {
            enable[ch] := 1;
          }
        case 2 =>
          ok := HandBack(ch);
        case _ =>
          return EINVAL;
      }
      ret := if ok then Ok else ETIMEDOUT;
    }

    /** The removal of the driver: every touched channel gets the automatic command. The channels
      for which it failed are reported; every other one was last told to be automatic, if it was
      told anything. */
    method Remove() returns (failed: set<int>, ghost at: seq<PortTrace>)
      requires Valid()
      modifies ports
      ensures Safe(ports.trace)
      ensures forall ch :: ch in failed ==> 0 <= ch < CHANNELS && touched[ch]
      ensures forall ch :: 0 <= ch < CHANNELS && ch !in failed ==>
                Told(ports.trace).Last(ch) == NoCommand || Told(ports.trace).Last(ch) == Automatic
      ensures Told(ports.trace).regs == Told(old(ports.trace)).regs
      ensures |at| == CHANNELS + 1 && at[0] == old(ports.trace) && at[CHANNELS] == ports.trace
      ensures forall ch :: 0 <= ch < CHANNELS ==>
                if touched[ch] then HandedBack(at[ch], at[ch+1], ch, ch !in failed) else at[ch+1] == at[ch]
    {
      failed, at := {}, [ports.trace];
      for i := 0 to CHANNELS
        invariant |at| == i + 1 && at[0] == old(ports.trace) && at[i] == ports.trace
        invariant forall ch :: 0 <= ch < i ==>
                    if touched[ch] then HandedBack(at[ch], at[ch+1], ch, ch !in failed) else at[ch+1] == at[ch]
        invariant Safe(ports.trace)
        invariant forall ch :: ch in failed ==> 0 <= ch < i && touched[ch]
        invariant forall ch :: 0 <= ch < CHANNELS && ch !in failed && (ch < i || !touched[ch]) ==>
                    Told(ports.trace).Last(ch) == NoCommand || Told(ports.trace).Last(ch) == Automatic
        invariant Told(ports.trace).regs == Told(old(ports.trace)).regs
      {
        if touched[i] {
          var ok := SetAuto(ports, i);
          if !ok {
            failed := failed + {i};
          }
        }
        at := at + [ports.trace];
      }
    }

    /** A tach, read high, low and high again until both high bytes agree; None: no answer, or no
      agreement in four attempts. */
    method ReadFan(ch: nat)
      returns (rpm: Option<int>, ghost bytes: seq<(Byte, Byte, Byte)>, ghost t0: PortTrace, ghost t1: PortTrace,
               ghost t2: PortTrace)
      requires Valid() && ch < CHANNELS
      modifies ports
      ensures Valid()
      ensures ch == 3 ==> rpm == Some(0) && ports.trace == old(ports.trace)
      ensures ch != 3 ==> |bytes| <= 4 && forall i :: 0 <= i < |bytes| - 1 ==> !Agrees(bytes[i])
      ensures rpm.None? ==>
                || TimedOut(old(ports.trace), ports.trace)
                || (|bytes| == 4 && forall i :: 0 <= i < 4 ==> !Agrees(bytes[i]))
      ensures ch != 3 && rpm.Some? ==>
                && bytes != [] && Agrees(bytes[|bytes|-1]) && rpm.value == Word(bytes[|bytes|-1].0, bytes[|bytes|-1].1)
                && Attempt(t0, t1, t2, ports.trace, HIGH[ch], LOW[ch], bytes[|bytes|-1])
      ensures ch != 3 && rpm.Some? ==>
                forall v: Stream :: WordStream(v) && Shows(v, t1, t2, ports.trace, bytes[|bytes|-1])
                                    && Monotone(v, Length(t1), Length(ports.trace))
                                    ==> rpm.value == v(Length(t2))
      ensures ports.waits <= old(ports.waits) + 48 && ports.polls <= old(ports.polls) + 48 * WAIT_LOOPS
    {
      bytes, t0, t1, t2 := [], ports.trace, ports.trace, ports.trace;
      if ch == 3 {
        return Some(0), bytes, t0, t1, t2;
      }
      var high, low := HIGH[ch], LOW[ch];
      for attempt := 0 to 4
        invariant Valid() && |bytes| == attempt && forall i :: 0 <= i < |bytes| ==> !Agrees(bytes[i])
        invariant Prefix(old(ports.trace), ports.trace)
        invariant ports.waits <= old(ports.waits) + 12 * attempt
                  && ports.polls <= old(ports.polls) + 12 * attempt * WAIT_LOOPS
      {
        t0 := ports.trace;
        var b;
        b, t1, t2 := ReadThree(high, low);
        PrefixOn(old(ports.trace), t0, ports.trace);
        if b.None? {
          TimedOutSince(old(ports.trace), t0, ports.trace);
          return None, bytes, t0, t1, t2;
        }
        bytes := bytes + [b.value];
        if Agrees(b.value) {
          forall v: Stream | WordStream(v) && Shows(v, t1, t2, ports.trace, b.value)
              && Monotone(v, Length(t1), Length(ports.trace))
            ensures Word(b.value.0, b.value.1) == v(Length(t2))
          {
            TearFree(v, t0, t1, t2, ports.trace, high, low, b.value);
          }
          return Some(Word(b.value.0, b.value.1)), bytes, t0, t1, t2;
        }
      }
      return None, bytes, t0, t1, t2;
    }

    /** One attempt: high, low and high byte, each the answer to its own request, in this order. */
    method ReadThree(high: Byte, low: Byte)
      returns (b: Option<(Byte, Byte, Byte)>, ghost t1: PortTrace, ghost t2: PortTrace)
      requires Valid() && OnlyRead(high) && OnlyRead(low)
      modifies ports
      ensures Valid() && Prefix(old(ports.trace), ports.trace)
      ensures ports.waits <= old(ports.waits) + 12 && ports.polls <= old(ports.polls) + 12 * WAIT_LOOPS
      ensures b.Some? ==> Attempt(old(ports.trace), t1, t2, ports.trace, high, low, b.value)
      ensures b.None? ==> TimedOut(old(ports.trace), ports.trace)
    {
      ghost var t0 := ports.trace;
      t1, t2 := t0, t0;
      var before := ReadByte(high);
      if before.None? {
        return None, t1, t2;
      }
      t1 := ports.trace;
      var l := ReadByte(low);
      PrefixOn(t0, t1, ports.trace);
      if l.None? {
        TimedOutSince(t0, t1, ports.trace);
        return None, t1, t2;
      }
      t2 := ports.trace;
      var after := ReadByte(high);
      PrefixOn(t0, t2, ports.trace);
      if after.None? {
        TimedOutSince(t0, t2, ports.trace);
        return None, t1, t2;
      }
      return Some((before.value, l.value, after.value)), t1, t2;
    }

    method ReadByte(sub: Byte) returns (v: Option<Byte>)
      requires Valid() && OnlyRead(sub)
      modifies ports
      ensures Valid() && Prefix(old(ports.trace), ports.trace)
      ensures ports.waits <= old(ports.waits) + 4 && ports.polls <= old(ports.polls) + 4 * WAIT_LOOPS
      ensures v.Some? ==> Answer(ports.trace, Pmc2, sub, v.value)
      ensures v.None? ==> TimedOut(old(ports.trace), ports.trace)
    {
      ghost var e := Told(ports.trace);
      v := ports.Pmc2Read(sub);
      ReadTellsNothing(e, Told(ports.trace), sub, v.Some?);
    }

    /** A temperature: none for the bytes 0 and 255, else the signed byte in thousandths of a
      degree. */
    method ReadTemp(ch: nat) returns (t: Option<int>)
      requires Valid() && ch < |TEMP_REG|
      modifies ports
      ensures Valid() && Told(ports.trace) == Told(old(ports.trace))
      ensures t.Some? ==>
                exists b: Byte :: Answer(ports.trace, EcRam, TEMP_REG[ch], b) && b != 0 && b != 255
                                  && t.value == Signed(b) * 1000
      ensures t.None? ==>
                || TimedOut(old(ports.trace), ports.trace)
                || Answer(ports.trace, EcRam, TEMP_REG[ch], 0)
                || Answer(ports.trace, EcRam, TEMP_REG[ch], 255)
      ensures ports.waits <= old(ports.waits) + 3
    {
      var b := ports.EcRead(TEMP_REG[ch]);
      if b.None? || b.value == 0 || b.value == 255 {
        return None;
      }
      return Some(Signed(b.value) * 1000);
    }
  }

  // ---- readings -------------------------------------------------------------------------

  const LOW: seq<Byte> := [0x18, 0x16, 0x14]
  const HIGH: seq<Byte> := [0x19, 0x17, 0x15]
  const TEMP_REG: seq<Byte> := [0x09, 0x04, 0x05, 0x06]

  function Signed(b: Byte): int {
    if b < 128 then b else b - 256
  }

  /** A temperature of the driver is a whole degree, so the log stores it without loss. */
  lemma TemperaturesAreStored(b: Byte)
    ensures RunLog.StoredTemp(Some(Signed(b) * 1000)) == Some(Signed(b) * 1000)
  {
  }

  function Word(high: Byte, low: Byte): int {
    high * 256 + low
  }

  predicate Agrees(b: (Byte, Byte, Byte)) {
    b.0 == b.2
  }

  /** From trace t0 on: the three bytes, read in this order in answer to high, low and high. */
  predicate Attempt(t0: PortTrace, t1: PortTrace, t2: PortTrace, t3: PortTrace, high: Byte, low: Byte,
                    b: (Byte, Byte, Byte)) {
    && Prefix(t0, t1) && Prefix(t1, t2) && Prefix(t2, t3)
    && Answer(t1, Pmc2, high, b.0) && Answer(t2, Pmc2, low, b.1) && Answer(t3, Pmc2, high, b.2)
  }

  predicate OnlyRead(sub: Byte) {
    ChannelOfReg(sub).None? && ChannelOfApply(sub).None? && ChannelOfAuto(sub).None?
  }

  lemma ReadTellsNothing(e: Ec, e': Ec, sub: Byte, ok: bool)
    requires OnlyRead(sub) && Begun(e, e', sub, ok)
    ensures e'.regs == e.regs && e'.last == e.last
  {
  }

  /** The value of a tach in the EC at every instant, counted in port accesses. */
  type Stream = int -> int

  ghost predicate WordStream(v: Stream) {
    forall t :: 0 <= v(t) < 65536
  }

  /** The stream does not turn around between two instants. */
  ghost predicate Monotone(v: Stream, from: int, to: int) {
    || (forall a, b :: from <= a <= b <= to ==> v(a) <= v(b))
    || (forall a, b :: from <= a <= b <= to ==> v(a) >= v(b))
  }

  function High(w: int): int {
    w / 256
  }

  function Low(w: int): int {
    w % 256
  }

  /** The three bytes of an attempt are what the EC held when each of them was read. */
  ghost predicate Shows(v: Stream, t1: PortTrace, t2: PortTrace, t3: PortTrace, b: (Byte, Byte, Byte)) {
    b.0 == High(v(Length(t1))) && b.1 == Low(v(Length(t2))) && b.2 == High(v(Length(t3)))
  }

  /** A multiple of 256 lies between two values: to get from one to the other the high byte changes. */
  predicate CrossesBlock(a: int, b: int) {
    exists m :: 0 <= m < 256 && (a < 256 * m <= b || b < 256 * m <= a)
  }

  lemma CrossesExact(a: int, b: int)
    requires 0 <= a < 65536 && 0 <= b < 65536
    ensures CrossesBlock(a, b) <==> High(a) != High(b)
  {
    if High(a) < High(b) {
      assert a < 256 * High(b) <= b;
    } else if High(b) < High(a) {
      assert b < 256 * High(a) <= a;
    }
  }

  /** An accepted attempt is off by whole blocks of 256, and it is torn if and only if the value
    crossed a multiple of 256 between the first and the second read and came back between the second
    and the third. */
  lemma AcceptedExact(v: Stream, t0: PortTrace, t1: PortTrace, t2: PortTrace, t3: PortTrace, high: Byte, low: Byte,
                      b: (Byte, Byte, Byte))
    requires WordStream(v) && Attempt(t0, t1, t2, t3, high, low, b) && Agrees(b) && Shows(v, t1, t2, t3, b)
    ensures Word(b.0, b.1) - v(Length(t2)) == 256 * (High(v(Length(t1))) - High(v(Length(t2))))
    ensures Word(b.0, b.1) != v(Length(t2)) <==>
              CrossesBlock(v(Length(t1)), v(Length(t2))) && CrossesBlock(v(Length(t2)), v(Length(t3)))
  {
    CrossesExact(v(Length(t1)), v(Length(t2)));
    CrossesExact(v(Length(t2)), v(Length(t3)));
    assert v(Length(t2)) == High(v(Length(t2))) * 256 + Low(v(Length(t2)));
  }

  /** No torn reading: if the value does not turn around during an accepted attempt, the reading is
    the value at the instant of the low byte. */
  lemma TearFree(v: Stream, t0: PortTrace, t1: PortTrace, t2: PortTrace, t3: PortTrace, high: Byte, low: Byte,
                 b: (Byte, Byte, Byte))
    requires WordStream(v) && Attempt(t0, t1, t2, t3, high, low, b) && Agrees(b) && Shows(v, t1, t2, t3, b)
    requires Monotone(v, Length(t1), Length(t3))
    ensures Word(b.0, b.1) == v(Length(t2))
  {
    PrefixLength(t1, t2);
    PrefixLength(t2, t3);
    NoReturn(v(Length(t1)), v(Length(t2)), v(Length(t3)));
    AcceptedExact(v, t0, t1, t2, t3, high, low, b);
  }

  lemma NoReturn(a: int, b: int, c: int)
    requires 0 <= a < 65536 && 0 <= b < 65536 && 0 <= c < 65536
    requires (a <= b <= c || a >= b >= c) && High(a) == High(c)
    ensures High(b) == High(a) && !CrossesBlock(a, b)
  {
    CrossesExact(a, b);
  }

  /** A value that turns around within an attempt can be torn: 0x0180, 0x0240 and 0x0180 at the
    three reads give 0x0140. */
  lemma TornReading()
    ensures exists v: Stream, t1: PortTrace, t2: PortTrace, t3: PortTrace, b: (Byte, Byte, Byte) ::
      WordStream(v) && Attempt(NoAccess, t1, t2, t3, HIGH[0], LOW[0], b) && Agrees(b) && Shows(v, t1, t2, t3, b)
      && Word(b.0, b.1) != v(Length(t2))
  {
    var full := In(Status(Pmc2), 1);
    var t1 := Then(Then(Then(NoAccess, Out(Data(Pmc2), HIGH[0])), full), In(Data(Pmc2), 1));
    var t2 := Then(Then(Then(t1, Out(Data(Pmc2), LOW[0])), full), In(Data(Pmc2), 0x40));
    var t3 := Then(Then(Then(t2, Out(Data(Pmc2), HIGH[0])), full), In(Data(Pmc2), 1));
    var v: Stream := t => if t == 6 then 0x0240 else 0x0180;
    var b: (Byte, Byte, Byte) := (1, 0x40, 1);
    assert Length(t1) == 3;
    assert Length(t2) == 6;
    assert Length(t3) == 9;
    assert Prefix(NoAccess, t1) && Prefix(t1, t2) && Prefix(t2, t3);
    assert Answer(t1, Pmc2, HIGH[0], 1) && Answer(t2, Pmc2, LOW[0], 0x40) && Answer(t3, Pmc2, HIGH[0], 1);
    assert Attempt(NoAccess, t1, t2, t3, HIGH[0], LOW[0], b);
    assert Shows(v, t1, t2, t3, b) && Word(b.0, b.1) != v(Length(t2));
  }
}
