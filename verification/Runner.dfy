/** The writing run (Runner in ectest/internal/runner/runner.go): sampling with the safety limits,
  the single write path and the restore of everything it touched. */
module Runner {
  import opened Wrappers
  import opened StoredTime
  import opened RunLog
  import opened SpecRules
  import opened WorkerTrace
  import opened Env
  import C = Cadence
  import Settle

  datatype Sensor = Tctl | Nvme | Hdd

  /** Why a run stopped early. */
  datatype Reason =
    | Cancelled
    | WriterActive
    | SensorLost(sensor: Sensor)
    | TooHot(ch: int)
    | TachZero(tach: int)
    | CommandFailed

  /** Lengths are nanoseconds; pre = 0 stands for observe. */
  datatype Config = Config(channel: int, ownTach: int, tachs: seq<int>, hold: int, sample: int, observe: int, pre: int,
                           window: int, repeat: nat)
  {
    predicate Valid() {
      && 1 <= channel <= 4
      && (forall i :: 0 <= i < |tachs| ==> 1 <= tachs[i] <= 3)
      && 0 < sample && 0 <= hold && 0 <= observe && 0 <= pre && 0 <= window
    }

    function PreWindow(): int {
      if pre > 0 then pre else observe
    }

    /** The length of the log behind an auto command. */
    function HandbackObserve(): int {
      observe + SETTLE_HOLD_S * NS_PER_S
    }
  }

  const LOST_AFTER := 3
  const CHANNELS: set<int> := {1, 2, 3, 4}

  // ---- the limits of one sample ---------------------------------------------------

  function SensorValue(s: Sample, x: Sensor): Temp {
    match x
    case Tctl => s.tctl
    case Nvme => s.nvmeMax
    case Hdd => s.hddMax
  }

  function SensorLimit(x: Sensor): int {
    match x
    case Tctl => LIMIT_TCTL
    case Nvme => LIMIT_NVME
    case Hdd => LIMIT_HDD
  }

  /** The channel a sensor's temperature limit sets to 255. */
  function SensorChannel(x: Sensor): int {
    match x
    case Tctl => 1
    case Nvme => 2
    case Hdd => 3
  }

  function Rank(x: Sensor): nat {
    match x
    case Tctl => 0
    case Nvme => 1
    case Hdd => 2
  }

  function Count(m: map<Sensor, nat>, x: Sensor): nat {
    if x in m then m[x] else 0
  }

  /** How many samples in a row a sensor has been without a value. */
  function NewCount(m: map<Sensor, nat>, s: Sample, x: Sensor): nat {
    if SensorValue(s, x).Some? then 0 else Count(m, x) + 1
  }

  /** The counters after a sample that no enforced sensor was missing from for the third time. */
  predicate Counted(sensors: set<Sensor>, n: map<Sensor, nat>, n': map<Sensor, nat>, s: Sample) {
    forall x :: x in sensors ==> Count(n', x) == NewCount(n, s, x) < LOST_AFTER
  }

  /** How many samples in a row a sensor has been without a value at the end of got. */
  function Lost(n: map<Sensor, nat>, got: seq<Sample>, x: Sensor): nat {
    if got == [] then Count(n, x)
    else if SensorValue(got[|got|-1], x).Some? then 0
    else Lost(n, got[..|got|-1], x) + 1
  }

  /** No enforced sensor was ever without a value three times in a row. */
  predicate Watched(sensors: set<Sensor>, n: map<Sensor, nat>, got: seq<Sample>) {
    got == [] || (Watched(sensors, n, got[..|got|-1]) && forall x :: x in sensors ==> Lost(n, got, x) < 3)
  }

  predicate Follow(sensors: set<Sensor>, n: map<Sensor, nat>, got: seq<Sample>, now: map<Sensor, nat>) {
    forall x :: x in sensors ==> Count(now, x) == Lost(n, got, x)
  }

  lemma WatchedStep(sensors: set<Sensor>, n: map<Sensor, nat>, got: seq<Sample>, now: map<Sensor, nat>,
                    now': map<Sensor, nat>, s: Sample)
    requires Watched(sensors, n, got) && Follow(sensors, n, got, now) && Counted(sensors, now, now', s)
    ensures Watched(sensors, n, got + [s]) && Follow(sensors, n, got + [s], now')
  {
    assert (got + [s])[..|got|] == got;
  }

  lemma LostStep(n: map<Sensor, nat>, got: seq<Sample>, s: Sample, now: map<Sensor, nat>, sensors: set<Sensor>)
    requires Follow(sensors, n, got, now)
    ensures forall x :: x in sensors ==> Lost(n, got + [s], x) == NewCount(now, s, x)
  {
    assert (got + [s])[..|got|] == got;
  }

  predicate Hot(s: Sample, x: Sensor) {
    SensorValue(s, x).Some? && SensorValue(s, x).value >= SensorLimit(x)
  }

  /** The temperature that stops a run for channel 1, 2 or 3: Tctl at 85 C, NVMe at 70 C, HDD at 50 C. */
  predicate OverLimit(s: Sample, ch: int) {
    || (ch == 1 && s.tctl.Some? && s.tctl.value >= LIMIT_TCTL)
    || (ch == 2 && s.nvmeMax.Some? && s.nvmeMax.value >= LIMIT_NVME)
    || (ch == 3 && s.hddMax.Some? && s.hddMax.value >= LIMIT_HDD)
  }

  /** A tach at 0 rpm while its duty is not known to be 0. */
  predicate Stalled(s: Sample, tach: int)
    requires 1 <= tach <= |s.fan|
  {
    s.fan[tach-1] == 0 && RegDcr(s, tach) != 0
  }

  predicate InLimits(s: Sample, tachs: seq<int>)
    requires s.WellFormed() && forall i :: 0 <= i < |tachs| ==> 1 <= tachs[i] <= 3
  {
    && (forall x :: !Hot(s, x))
    && (forall i :: 0 <= i < |tachs| ==> !Stalled(s, tachs[i]))
  }

  /** The sample shows what the run stopped for. */
  predicate Justified(why: Reason, s: Sample, tachs: seq<int>, limitSensors: set<Sensor>)
    requires s.WellFormed() && forall i :: 0 <= i < |tachs| ==> 1 <= tachs[i] <= 3
  {
    match why
    case TooHot(ch) => OverLimit(s, ch)
    case TachZero(n) => n in tachs && 1 <= n <= 3 && Stalled(s, n)
    case SensorLost(x) => x in limitSensors && SensorValue(s, x).None?
    case WriterActive => true      // what the guard said
    case _ => false
  }

  /** A sample is within the limits if and only if it has no temperature over a limit and no tach at 0 rpm
    whose register is not read as 0. */
  lemma LimitsExact(s: Sample, tachs: seq<int>)
    requires s.WellFormed() && forall i :: 0 <= i < |tachs| ==> 1 <= tachs[i] <= 3
    ensures InLimits(s, tachs) <==>
              && !OverLimit(s, 1) && !OverLimit(s, 2) && !OverLimit(s, 3)
              && forall n :: 1 <= n <= 3 && n in tachs && s.fan[n-1] == 0 ==> s.dcr[n-1] == 0
  {
    assert forall x :: Hot(s, x) <==> OverLimit(s, SensorChannel(x));
    assert OverLimit(s, 1) <==> Hot(s, Tctl);
    assert OverLimit(s, 2) <==> Hot(s, Nvme);
    assert OverLimit(s, 3) <==> Hot(s, Hdd);
    forall n | 1 <= n <= 3
      ensures Stalled(s, n) <==> s.fan[n-1] == 0 && s.dcr[n-1] != 0
    {
    }
    assert forall i :: 0 <= i < |tachs| ==> tachs[i] in tachs;
    if InLimits(s, tachs) {
      forall n | 1 <= n <= 3 && n in tachs
        ensures !Stalled(s, n)
      {
        var i :| 0 <= i < |tachs| && tachs[i] == n;
      }
    } else if exists x :: Hot(s, x) {
      var x :| Hot(s, x);
      assert OverLimit(s, SensorChannel(x));
    }
  }

  /** What a hold stops for: a cancelled wait, or its last sample, which shows the reason; a lost sensor
    was without a value for the third time in a row. */
  predicate StopsFor(why: Reason, got: seq<Sample>, w: Watch) {
    || why == Cancelled
    || (&& got != [] && got[|got|-1].WellFormed() && Justified(why, got[|got|-1], w.tachs, w.sensors)
        && (why.SensorLost? ==> Lost(w.counts, got, why.sensor) >= 3))
  }

  /** The guard was asked once for each of n samples and was quiet, but for the last one when another writer
    stopped the run; and one wait was cancelled when the run was cancelled, else none. */
  ghost predicate Guarded(before: Heard, after: Heard, n: nat, why: Option<Reason>) {
    var g := |before.guards|;
    && |after.guards| == g + n && before.guards <= after.guards
    && (forall i :: g <= i < g + n ==> after.guards[i] <==> !(i == g + n - 1 && why == Some(WriterActive)))
    && (why == Some(WriterActive) ==> n > 0)
    && after.cancels == before.cancels + if why == Some(Cancelled) then 1 else 0
  }

  lemma GuardedOn(a: Heard, b: Heard, c: Heard, n: nat, k: nat, why: Option<Reason>)
    requires Guarded(a, b, n, None) && Guarded(b, c, k, why)
    ensures Guarded(a, c, n + k, why)
  {
    assert forall i :: |a.guards| <= i < |a.guards| + n ==> c.guards[i] == b.guards[i];
  }

  /** The sample shows what was answered. */
  ghost predicate OfAnswers(s: Sample, dcr: Option<seq<int>>, rd: Readings) {
    && s.dcr == (if dcr.Some? then dcr.value else [-1, -1, -1, -1, -1]) && s.fan == rd.fan
    && s.tctl == rd.tctl && s.nvmeMax == rd.nvmeMax && s.hddMax == rd.hddMax
    && s.ecCpu == rd.ecCpu && s.ecSys == rd.ecSys && s.ecBoard == rd.ecBoard && s.ecAmb == rd.ecAmb
  }

  // ---- the log only grows -----------------------------------------------------------

  /** Only lines the report does not use were added. */
  predicate OnlyNotes(before: seq<Event>, after: seq<Event>) {
    && before <= after
    && forall i :: |before| <= i < |after| ==> after[i].text.Note?
  }

  /** got is what a hold sampled in one phase. */
  predicate Sampled(got: seq<Sample>, phase: Phase, written: int) {
    forall i :: 0 <= i < |got| ==> got[i].phase == phase && got[i].written == written && got[i].WellFormed()
  }

  predicate Stamped(got: seq<Sample>, slots: seq<C.Slot>) {
    |got| == |slots| && forall i :: 0 <= i < |got| ==> got[i].ts == slots[i].ts
  }

  /** What a hold has sampled: one sample per slot of its cadence. */
  ghost predicate HoldData(start: int, anchor: int, sample: int, n: int, phase: Phase, written: int,
                           got: seq<Sample>, slots: seq<C.Slot>) {
    Sampled(got, phase, written) && Stamped(got, slots) && C.Cadence(start, anchor, sample, n, slots)
  }

  predicate AllInLimits(got: seq<Sample>, tachs: seq<int>)
    requires forall i :: 0 <= i < |tachs| ==> 1 <= tachs[i] <= 3
  {
    forall i :: 0 <= i < |got| ==> got[i].WellFormed() && InLimits(got[i], tachs)
  }

  lemma AllInLimitsSum(a: seq<Sample>, b: seq<Sample>, tachs: seq<int>)
    requires forall i :: 0 <= i < |tachs| ==> 1 <= tachs[i] <= 3
    ensures AllInLimits(a + b, tachs) <==> AllInLimits(a, tachs) && AllInLimits(b, tachs)
  {
    if AllInLimits(a + b, tachs) {
      assert forall i :: 0 <= i < |a| ==> (a + b)[i] == a[i];
      assert forall i :: 0 <= i < |b| ==> (a + b)[|a| + i] == b[i];
    }
  }

  /** The limits a hold enforces: the tachs, the sensors, and for how many samples each of these had
    been without a value before the hold. */
  datatype AnyWatch = Watch(tachs: seq<int>, sensors: set<Sensor>, counts: map<Sensor, nat>)

  type Watch = w: AnyWatch | forall i :: 0 <= i < |w.tachs| ==> 1 <= w.tachs[i] <= 3 witness Watch([], {}, map[])

  /** A hold of length d after the anchor: what it sampled, slot by slot, whether all of it was
    within the limits and whether it reached its last slot. */
  datatype AnyHold = Hold(start: int, anchor: int, sample: int, d: int, phase: Phase, written: int, watch: Watch,
                          got: seq<Sample>, slots: seq<C.Slot>, clean: bool, complete: bool)
  {
    ghost predicate OnCadence() {
      && d >= 0 && sample > 0
      && HoldData(start, anchor, sample, C.Slots(d, sample), phase, written, got, slots)
      && (clean ==> AllInLimits(got, watch.tachs) && Watched(watch.sensors, watch.counts, got))
      && (complete ==> clean && slots != [] && slots[|slots|-1].k == C.Slots(d, sample))
    }
  }

  /** The holds of a run keep their cadence and enforce their limits. */
  type CadencedHold = h: AnyHold | h.OnCadence() ghost witness NO_HOLD

  ghost const NO_HOLD: AnyHold := Hold(0, 0, 1, 0, Boot, -1, Watch([], {}, map[]), [], [], false, false)

  /** A hold with one more sample; `ok`: it was within the limits. */
  lemma HoldStep(h: CadencedHold, s: Sample, slot: C.Slot, now: int, ok: bool, n: map<Sensor, nat>,
                 n': map<Sensor, nat>)
    returns (h': CadencedHold)
    requires h.clean && !h.complete && Follow(h.watch.sensors, h.watch.counts, h.got, n)
    requires s.phase == h.phase && s.written == h.written && s.WellFormed() && s.ts == slot.ts
    requires C.InSlot(h.start, h.anchor, h.sample, C.Slots(h.d, h.sample), slot) && now <= slot.readAt
    requires Reached(h.anchor, h.sample, C.Slots(h.d, h.sample), h.slots, slot.k, now)
    requires ok ==> InLimits(s, h.watch.tachs) && Counted(h.watch.sensors, n, n', s)
    ensures h' == h.(got := h.got + [s], slots := h.slots + [slot], clean := ok)
    ensures ok ==> Follow(h.watch.sensors, h.watch.counts, h'.got, n')
  {
    HoldDataStep(h.start, h.anchor, h.sample, C.Slots(h.d, h.sample), h.phase, h.written, h.got, h.slots, s, slot, now);
    if ok {
      WatchedStep(h.watch.sensors, h.watch.counts, h.got, n, n', s);
    }
    h' := h.(got := h.got + [s], slots := h.slots + [slot], clean := ok);
  }

  lemma HoldDataStep(start: int, anchor: int, sample: int, n: int, phase: Phase, written: int,
                 got: seq<Sample>, slots: seq<C.Slot>, s: Sample, slot: C.Slot, now: int)
    requires HoldData(start, anchor, sample, n, phase, written, got, slots)
    requires s.phase == phase && s.written == written && s.WellFormed() && s.ts == slot.ts
    requires C.InSlot(start, anchor, sample, n, slot) && now <= slot.readAt
    requires Reached(anchor, sample, n, slots, slot.k, now)
    ensures HoldData(start, anchor, sample, n, phase, written, got + [s], slots + [slot])
  {
  }

  /** The slots of a hold so far and the slot it goes on to (past n: it has reached its end). */
  ghost predicate Reached(anchor: int, sample: int, n: int, slots: seq<C.Slot>, k: int, now: int) {
    if slots == [] then k == 1
    else
      var last := slots[|slots|-1];
      last.doneAt <= now && if k <= n then C.GoesOn(anchor, sample, n, last, k) else last.k == n
  }

  /** The channel of the temperature limit a run was aborted for, 0: none. */
  function HotOf(abort: Option<Reason>): int {
    if abort.Some? && abort.value.TooHot? then abort.value.ch else 0
  }

  class Run {
    const env: Machine
    const cfg: Config
    const start: int
    const dcrOK: bool
    var samples: seq<Sample>
    var events: seq<Event>
    var abort: Option<Reason>
    var limitSensors: set<Sensor>
    var nanRun: map<Sensor, nat>
    var touched: set<int>
    var wrote: bool
    var hot: int                 // the hot channel: of the temperature limit that stopped the run, 0: none
    var overrides: set<int>      // channels held at 255 instead of their restore value

    /** The run took only steps it may take, and what it remembers is what its trace says: a
      channel that is not back at a restore value is listed as touched, and a listed channel is
      one, or the hot channel. Until it stops, every sample was within the limits. */
    ghost predicate Valid()
      reads this, env
    {
      && cfg.Valid()
      && start <= env.clock
      && Allowed(cfg.channel, env.trace)
      && Remembers(Replay(env.trace), wrote, touched, hot, overrides)
      && hot == HotOf(abort)
      && (abort.None? ==> AllInLimits(samples, cfg.tachs))
    }

    constructor (env: Machine, cfg: Config)
      requires cfg.Valid() && env.trace == Start
      modifies env`clock, env`heard
      ensures dcrOK == env.heard.dcr.Some?
      ensures Valid() && fresh(this) && this.env == env && this.cfg == cfg
      ensures samples == [] && events == [] && abort == None && !wrote && hot == 0 && overrides == {}
    {
      var t := env.Now();
      var d := env.Dcr();
      this.env, this.cfg, start, dcrOK := env, cfg, t, d.Some?;
      samples, events, abort := [], [], None;
      limitSensors, nanRun, touched, wrote, hot, overrides := {}, map[], {}, false, 0, {};
    }

    /** Adds a line to the log at the current time, which the caller gets back. */
    method EventAt(text: EventText) returns (t: int)
      modifies this`events, env`clock
      ensures old(env.clock) <= t == env.clock
      ensures events == old(events) + [Event(t - start, text)]
    {
      t := env.Now();
      events := events + [Event(t - start, text)];
    }

    method LogNote()
      modifies this`events, env`clock
      ensures old(env.clock) <= env.clock
      ensures OnlyNotes(old(events), events)
    {
      var t := EventAt(Note);
    }

    method Stop(why: Reason)
      modifies this`abort, this`events, env`clock
      ensures old(env.clock) <= env.clock && OnlyNotes(old(events), events)
      ensures abort == if old(abort).None? then Some(why) else old(abort)
    {
      if abort.None? {
        abort := Some(why);
        LogNote();
      }
    }

    // ---- sampling ---------------------------------------------------------------

    /** Counts the consecutive samples a limit sensor had no value. */
    method CountLost(s: Sample) returns (lost: Option<Sensor>)
      modifies this`nanRun
      ensures lost.Some? ==>
                && lost.value in limitSensors && SensorValue(s, lost.value).None?
                && NewCount(old(nanRun), s, lost.value) >= 3
      ensures forall x :: Count(nanRun, x) != Count(old(nanRun), x) ==> Count(nanRun, x) == NewCount(old(nanRun), s, x)
      ensures lost.None? ==> forall x :: x in limitSensors ==>
                Count(nanRun, x) == NewCount(old(nanRun), s, x) < 3
    {
      lost := None;
      var order := [Tctl, Nvme, Hdd];
      for k := 0 to 3
        invariant forall x :: Rank(x) >= k || x !in limitSensors ==> Count(nanRun, x) == Count(old(nanRun), x)
        invariant forall x :: Rank(x) < k && x in limitSensors ==>
                  Count(nanRun, x) == NewCount(old(nanRun), s, x) < LOST_AFTER
      {
        var x := order[k];
        if x in limitSensors {
          nanRun := nanRun[x := NewCount(nanRun, s, x)];
          if nanRun[x] >= LOST_AFTER {
            return Some(x);
          }
        }
      }
    }

    /** The temperature and tach limits, in the order of the tool. */
    method CheckLimits(s: Sample) returns (why: Option<Reason>)
      requires cfg.Valid() && s.WellFormed()
      modifies this`hot
      ensures why.None? <==> InLimits(s, cfg.tachs)
      ensures why.Some? ==>
                && Justified(why.value, s, cfg.tachs, limitSensors)
                && (why.value.TooHot? || why.value.TachZero?)
      ensures why.Some? && why.value.TooHot? ==> 1 <= why.value.ch <= 3
      ensures why == Some(TooHot(1)) <==> OverLimit(s, 1)
      ensures why == Some(TooHot(2)) <==> OverLimit(s, 2) && !OverLimit(s, 1)
      ensures why == Some(TooHot(3)) <==> OverLimit(s, 3) && !OverLimit(s, 1) && !OverLimit(s, 2)
      ensures hot == if why.Some? && why.value.TooHot? && old(hot) == 0 && abort.None? then why.value.ch else old(hot)
    {
      var over := if Hot(s, Tctl) then Some(Tctl)
                  else if Hot(s, Nvme) then Some(Nvme)
                  else if Hot(s, Hdd) then Some(Hdd)
                  else None;
      if over.Some? {
        if hot == 0 && abort.None? {
          hot := SensorChannel(over.value);
        }
        return Some(TooHot(SensorChannel(over.value)));
      }
      for k := 0 to |cfg.tachs|
        invariant forall i :: 0 <= i < k ==> !Stalled(s, cfg.tachs[i])
        invariant hot == old(hot)
      {
        if Stalled(s, cfg.tachs[k]) {
          return Some(TachZero(cfg.tachs[k]));
        }
      }
      return None;
    }

    /** Reads one row; a sample due at `due` gets its due time when it is read within 0.5 s. */
    method ReadRow(phase: Phase, written: int, due: Option<int>)
      returns (s: Sample, ghost readAt: int)
      modifies this`events, this`samples, env`clock, env`heard
      ensures old(env.clock) <= readAt <= env.clock
      ensures s.phase == phase && s.written == written && s.ch == cfg.channel && s.WellFormed()
      ensures s.ts == if due.Some? then C.Stamp(start, readAt, due.value) else readAt - start
      ensures OfAnswers(s, if dcrOK then env.heard.dcr else None, env.heard.row)
      ensures env.heard.guards == old(env.heard).guards && env.heard.cancels == old(env.heard).cancels
      ensures samples == old(samples) + [s]
      ensures OnlyNotes(old(events), events)
    {
      var now := env.Now();
      readAt := now;
      var ts := now - start;
      if due.Some? {
        if -C.DUE_TOLERANCE <= now - due.value <= C.DUE_TOLERANCE {
          ts := due.value - start;
        } else {
          LogNote();
        }
      }
      var row: seq<int> := [-1, -1, -1, -1, -1];
      if dcrOK {
        var d := env.Dcr();
        if d.Some? {
          row := d.value;
        }
      }
      var r := env.Read();
      s := Sample(ts, phase, cfg.channel, written, row, r.fan, r.ecCpu, r.ecSys, r.ecBoard, r.ecAmb,
                  r.hddMax, r.nvmeMax, r.tctl);
      samples := samples + [s];
    }

    /** One row, and the reason to stop that it gives; None: it is within all limits. */
    method SampleAt(phase: Phase, written: int, due: Option<int>)
      returns (s: Sample, why: Option<Reason>, ghost readAt: int)
      requires cfg.Valid()
      modifies this`samples, this`events, this`nanRun, this`hot, env`clock, env`heard
      ensures old(env.clock) <= readAt <= env.clock
      ensures s.phase == phase && s.written == written && s.ch == cfg.channel && s.WellFormed()
      ensures s.ts == if due.Some? then C.Stamp(start, readAt, due.value) else readAt - start
      ensures samples == old(samples) + [s]
      ensures OnlyNotes(old(events), events)
      ensures OfAnswers(s, if dcrOK then env.heard.dcr else None, env.heard.row)
      ensures Guarded(old(env.heard), env.heard, 1, why)
      ensures why.Some? && (why.value.TooHot? || why.value.TachZero?) ==>
                Counted(limitSensors, old(nanRun), nanRun, s)
      ensures why.None? ==> InLimits(s, cfg.tachs) && Counted(limitSensors, old(nanRun), nanRun, s)
      ensures why.Some? ==> Justified(why.value, s, cfg.tachs, limitSensors)
      ensures why.Some? && why.value.SensorLost? ==> NewCount(old(nanRun), s, why.value.sensor) >= LOST_AFTER
      ensures hot == if why.Some? && why.value.TooHot? && old(hot) == 0 && abort.None? then why.value.ch else old(hot)
      ensures why.Some? && why.value.TooHot? ==> 1 <= why.value.ch <= 3
    {
      s, readAt := ReadRow(phase, written, due);
      var quiet := env.Guard();
      if !quiet {
        return s, Some(WriterActive), readAt;
      }
      var lost := CountLost(s);
      if lost.Some? {
        return s, Some(SensorLost(lost.value)), readAt;
      }
      why := CheckLimits(s);
    }

    /** Waits for slot k and samples it; the slot is left out when the wait is cancelled. */
    method SampleSlot(anchor: int, phase: Phase, written: int, k: int)
      returns (go: bool, got: Option<Sample>, ghost slot: C.Slot)
      requires cfg.Valid() && abort.None? && hot == 0 && anchor <= env.clock
      modifies this`samples, this`events, this`nanRun, this`hot, this`abort, env`clock, env`heard
      ensures old(env.clock) <= env.clock && OnlyNotes(old(events), events)
      ensures samples == old(samples) + (if got.Some? then [got.value] else [])
      ensures got.Some? ==>
                && got.value.phase == phase && got.value.written == written && got.value.WellFormed()
                && slot.k == k && slot.ts == got.value.ts
                && slot.ts == C.Stamp(start, slot.readAt, C.Due(anchor, cfg.sample, k))
                && C.Due(anchor, cfg.sample, k) <= slot.readAt <= slot.doneAt == env.clock
                && old(env.clock) <= slot.readAt
      ensures go ==>
                && got.Some? && InLimits(got.value, cfg.tachs)
                && Counted(limitSensors, old(nanRun), nanRun, got.value)
      ensures go <==> abort.None?
      ensures got.None? ==> abort == Some(Cancelled)
      ensures Guarded(old(env.heard), env.heard, if got.Some? then 1 else 0, abort)
      ensures got.Some? && abort.Some? ==>
                && Justified(abort.value, got.value, cfg.tachs, limitSensors)
                && (abort.value.SensorLost? ==> NewCount(old(nanRun), got.value, abort.value.sensor) >= LOST_AFTER)
      ensures hot == HotOf(abort) && 0 <= hot <= 3
    {
      var due := C.Due(anchor, cfg.sample, k);
      slot := C.Slot(k, 0, 0, 0);
      var t := env.Now();
      var wait := due - t;
      if wait < 0 {
        wait := 0;
      }
      var slept := env.Sleep(wait);
      if !slept {
        Stop(Cancelled);
        return false, None, slot;
      }
      var s, why, readAt := SampleAt(phase, written, Some(due));
      if why.Some? {
        Stop(why.value);
      }
      return why.None?, Some(s), C.Slot(k, readAt, env.clock, s.ts);
    }

    /** Samples on the fixed cadence until the hold of length d after the anchor is over; false on
      an abort or a cancelled run. got are the samples handed to the caller one by one. */
    method HoldFrom(anchor: int, phase: Phase, written: int, d: int)
      returns (ok: bool, got: seq<Sample>, ghost h: CadencedHold)
      requires cfg.Valid() && abort.None? && hot == 0 && 0 <= d && anchor <= env.clock
      modifies this`samples, this`events, this`nanRun, this`hot, this`abort, env`clock, env`heard
      ensures old(env.clock) <= env.clock
      ensures samples == old(samples) + got
      ensures OnlyNotes(old(events), events)
      ensures ok <==> abort.None?
      ensures h == Hold(start, anchor, cfg.sample, d, phase, written, Watch(cfg.tachs, limitSensors, old(nanRun)), got,
                        h.slots, h.clean, ok)
      ensures abort.Some? ==> StopsFor(abort.value, got, h.watch) && (abort == Some(Cancelled) ==> h.clean)
      ensures Guarded(old(env.heard), env.heard, |got|, abort)
      ensures hot == HotOf(abort) && 0 <= hot <= 3
    {
      var n := C.Slots(d, cfg.sample);
      got, h := [], Hold(start, anchor, cfg.sample, d, phase, written, Watch(cfg.tachs, limitSensors, nanRun), [], [],
                         true, false);
      var k := 1;
      while k <= n
        invariant anchor <= env.clock && old(env.clock) <= env.clock
        invariant samples == old(samples) + got
        invariant OnlyNotes(old(events), events)
        invariant abort.None? && hot == 0
        invariant h == Hold(start, anchor, cfg.sample, d, phase, written, Watch(cfg.tachs, limitSensors, old(nanRun)),
                            got, h.slots, true, false)
        invariant Follow(limitSensors, old(nanRun), got, nanRun)
        invariant Guarded(old(env.heard), env.heard, |got|, None)
        invariant Reached(anchor, cfg.sample, n, h.slots, k, env.clock)
        decreases n + 1 - k
      {
        ghost var before, counts, heard := env.clock, nanRun, env.heard;
        var go, s, slot := SampleSlot(anchor, phase, written, k);
        GuardedOn(old(env.heard), heard, env.heard, |got|, if s.Some? then 1 else 0, abort);
        if s.None? {
          return false, got, h;
        }
        LostStep(old(nanRun), got, s.value, counts, limitSensors);
        var now := env.Now();
        h := HoldStep(h, s.value, slot.(doneAt := now), before, go, counts, nanRun);
        got := got + [s.value];
        if !go {
          return false, got, h;
        }
        NextSlotGoesOn(anchor, cfg.sample, n, slot.(doneAt := now), now);
        k := NextSlot(anchor, cfg.sample, n, k, now);
      }
      h := h.(complete := true);
      return true, got, h;
    }

    /** HoldFrom in a run: the bookkeeping of the run stays valid. */
    method HoldRun(anchor: int, phase: Phase, written: int, d: int)
      returns (ok: bool, got: seq<Sample>, ghost h: CadencedHold)
      requires Valid() && abort.None? && 0 <= d && anchor <= env.clock
      modifies this`samples, this`events, this`nanRun, this`hot, this`abort, env`clock, env`heard
      ensures Valid() && old(env.clock) <= env.clock
      ensures samples == old(samples) + got && Uniform(got, phase)
      ensures forall i :: 0 <= i < |got| ==> got[i].written == written
      ensures OnlyNotes(old(events), events)
      ensures ok <==> abort.None?
      ensures ok ==> got != []
      ensures h == Hold(start, anchor, cfg.sample, d, phase, written, Watch(cfg.tachs, limitSensors, old(nanRun)), got,
                        h.slots, h.clean, ok)
      ensures abort.Some? ==> StopsFor(abort.value, got, h.watch) && (abort == Some(Cancelled) ==> h.clean)
      ensures Guarded(old(env.heard), env.heard, |got|, abort)
    {
      ok, got, h := HoldFrom(anchor, phase, written, d);
      AllInLimitsSum(old(samples), got, cfg.tachs);
    }

    // ---- the write path -----------------------------------------------------------

    /** Makes sure that the state file is there; only its first success writes it. */
    method FirstWrite() returns (ok: bool)
      requires Valid()
      modifies this`wrote, env
      ensures Valid() && old(env.clock) <= env.clock
      ensures ok == wrote
      ensures env.trace == if old(wrote) then old(env.trace) else Then(old(env.trace), StateWritten(ok))
    {
      if wrote {
        return true;
      }
      ok := env.BeforeWrite();
      wrote := ok;
    }

    method Command(ch: int, cmd: Cmd) returns (ok: bool)
      modifies env
      ensures old(env.clock) <= env.clock
      ensures env.trace == Then(old(env.trace), Commanded(ch, cmd, ok))
    {
      match cmd {
        case Manual => ok := env.EnterManual(ch);
        case Duty(d) => ok := env.WriteDuty(ch, d);
        case EcAuto => ok := env.Auto(ch);
      }
    }

    /** Sends one command to the channel under test. */
    method Send(ch: int, cmd: Cmd) returns (ok: bool)
      requires Valid() && ch == cfg.channel && SafeCommand(cmd)
      modifies this`wrote, this`touched, env
      ensures Valid() && old(env.clock) <= env.clock
      ensures SentOne(old(env.trace), env.trace, old(wrote), wrote, ch, cmd, ok)
      ensures touched == if wrote then old(touched) + {ch} else old(touched)
    {
      var first := FirstWrite();
      if !first {
        return false;
      }
      ok := Command(ch, cmd);
      touched := touched + {ch};
    }

    /** Manual mode or the automatic command; `at` is the time of its line in the log. */
    method SendMode(ch: int, cmd: Cmd) returns (ok: bool, at: int)
      requires Valid() && ch == cfg.channel && (cmd == Manual || cmd == EcAuto)
      modifies this`wrote, this`touched, this`events, env
      ensures Valid() && old(env.clock) <= at == env.clock
      ensures SentOne(old(env.trace), env.trace, old(wrote), wrote, ch, cmd, ok)
      ensures touched == if wrote then old(touched) + {ch} else old(touched)
      ensures OnlyNotes(old(events), events)
    {
      ok := Send(ch, cmd);
      at := EventAt(Note);
    }

    /** Sends a duty. On success the last line of the log is its event, and `at`, the time of that
      line, is what the holds after it count from; nothing is sent for a duty outside 100..255. */
    method Write(ch: int, duty: int) returns (ok: bool, at: int)
      requires Valid() && ch == cfg.channel
      modifies this`wrote, this`touched, this`events, env
      ensures Valid() && old(env.clock) <= env.clock
      ensures !(MIN_DUTY <= duty <= MAX_DUTY) ==> !ok && env.trace == old(env.trace)
      ensures MIN_DUTY <= duty <= MAX_DUTY ==> SentOne(old(env.trace), env.trace, old(wrote), wrote, ch, Duty(duty), ok)
      ensures old(touched) <= touched && (ok ==> ch in touched)
      ensures ok ==> start <= at <= env.clock && events == old(events) + [Event(at - start, Wrote(ch, duty))]
      ensures !ok ==> OnlyNotes(old(events), events)
    {
      at := 0;
      if duty < MIN_DUTY || duty > MAX_DUTY {
        return false, at;
      }
      ok := Send(ch, Duty(duty));
      if !ok {
        LogNote();
        return;
      }
      at := EventAt(Wrote(ch, duty));
    }

    // ---- restoring -----------------------------------------------------------------

    /** The channel to hold at 255, or 0. A run that never wrote holds none. */
    function HotChannel(): int
      reads this`hot, this`wrote
    {
      if wrote then hot else 0
    }

    /** Holds the hot channel at 255 instead of putting it back. */
    method RestoreHot(ch: int) returns (ok: bool)
      requires Valid() && ch == HotChannel() != 0 && ch in touched
      modifies this`touched, this`overrides, this`events, env
      ensures Valid() && old(env.clock) <= env.clock
      ensures ok <==> ch !in touched
      ensures touched == if ok then old(touched) - {ch} else old(touched)
      ensures overrides == if ok then old(overrides) + {ch} else old(overrides)
      ensures OnlyNotes(old(events), events) && Tried(old(env.trace), env.trace, ch, true, ok)
    {
      var recorded := env.BeforeHot(ch);
      assert Allowed(cfg.channel, env.trace);
      var t0 := env.Now();
      ok := env.EnterManual(ch);
      assert Allowed(cfg.channel, env.trace);
      if ok {
        ok := env.WriteDuty(ch, MAX_DUTY);
        assert Allowed(cfg.channel, env.trace);
      }
      if ok {
        touched, overrides := touched - {ch}, overrides + {ch};
        ReadBack(ch, t0);
      }
      LogNote();
    }

    /** Compares the registers with 255 after the settle time; a difference is only reported. */
    method ReadBack(ch: int, t0: int)
      requires 1 <= ch <= 4 && t0 <= env.clock
      modifies this`events, env`clock, env`heard
      ensures old(env.clock) <= env.clock && OnlyNotes(old(events), events)
    {
      if dcrOK {
        var st := Settle.SettleTime(ch);
        ghost var polls;
        var s, cancelled;
        s, cancelled, polls := Settle.WaitDcr(env, t0, JudgedRegs(ch), MAX_DUTY, st, st);
        if s.readable && !s.reached {
          LogNote();
        }
      }
    }

    /** Puts one touched channel back and, when that worked, takes it off the list; a value that
      was written but reads back differently counts as put back. */
    method Restore(ch: int) returns (ok: bool)
      requires Valid() && ch in touched
      modifies this`touched, this`overrides, this`events, env
      ensures Valid() && old(env.clock) <= env.clock
      ensures ok <==> ch !in touched
      ensures touched == if ok then old(touched) - {ch} else old(touched)
      ensures overrides == if ok && ch == HotChannel() then old(overrides) + {ch} else old(overrides)
      ensures OnlyNotes(old(events), events) && Tried(old(env.trace), env.trace, ch, ch == HotChannel(), ok)
    {
      if ch == HotChannel() {
        ok := RestoreHot(ch);
        return;
      }
      var r := env.Restore(ch);
      ok := r != Failed;
      if ok {
        touched := touched - {ch};
      }
      LogNote();
    }

    /** The channels that a close has to restore: the listed ones, and the hot one unless it is held. */
    function ToRestore(): set<int>
      reads this`touched, this`overrides, this`hot, this`wrote
    {
      touched + if HotChannel() > 0 && HotChannel() !in overrides then {HotChannel()} else {}
    }

    /** The round of one channel. */
    method CloseChannel(ch: int)
      requires Valid() && 1 <= ch <= 4
      modifies this`touched, this`overrides, this`events, env
      ensures Valid() && old(env.clock) <= env.clock
      ensures OnlyNotes(old(events), events)
      ensures Round(old(env.trace), env.trace, ch, ch == HotChannel(), ch in old(touched), ch in touched)
      ensures forall c :: c != ch ==> (c in touched <==> c in old(touched)) && (c in overrides <==> c in old(overrides))
      ensures ch in overrides <==> ch in old(overrides) || (ch in old(touched) && ch !in touched && ch == HotChannel())
    {
      if ch in touched {
        var ok := Restore(ch);
      }
    }

    /** Tries every listed channel once, from 1 to 4; the hot channel of a run that wrote is listed here
      first. A channel stays listed if and only if its restore failed. Calling it again does only what
      is left. */
    method Close() returns (ghost at: seq<Trace>)
      requires Valid()
      modifies this`touched, this`overrides, this`events, env
      ensures Valid() && old(env.clock) <= env.clock
      ensures OnlyNotes(old(events), events)
      ensures Rounds(at, HotChannel(), old(ToRestore()), touched) && at[0] == old(env.trace) && at[4] == env.trace
      ensures ToRestore() == touched
    {
      var h := HotChannel();
      if h > 0 && h !in overrides {
        touched := touched + {h};
      }
      at := [env.trace];
      for ch := 1 to 5
        invariant Valid() && old(env.clock) <= env.clock
        invariant OnlyNotes(old(events), events)
        invariant HotChannel() == h && (h > 0 ==> h in touched || h in overrides)
        invariant |at| == ch && at[0] == old(env.trace) && at[ch-1] == env.trace
        invariant forall c :: 1 <= c < ch ==> Round(at[c-1], at[c], c, c == h, c in old(ToRestore()), c in touched)
        invariant forall c :: ch <= c <= 4 ==> (c in touched <==> c in old(ToRestore()))
      {
        CloseChannel(ch);
        at := at + [env.trace];
      }
    }

    /** The channels that were touched and are not back. */
    function Unrestored(): (r: seq<int>)
      reads this`touched
      ensures forall ch :: ch in r <==> 1 <= ch <= 4 && ch in touched
    {
      Listed(touched, 4)
    }

    /** Every channel that was sent anything is back, unless it is listed; and the channel of a
      tripped limit that is not listed any more ends at 255. */
    lemma UnlistedIsBack(ch: int)
      requires Valid() && ch !in touched
      ensures WasSent(env.trace, ch) ==> EndsBack(Of(env.trace, ch))
      ensures ch in overrides ==> EndsAt255(Of(env.trace, ch))
    {
      DirtyExact(env.trace, ch);
    }
  }

  function Listed(touched: set<int>, n: nat): (r: seq<int>)
    ensures forall ch :: ch in r <==> 1 <= ch <= n && ch in touched
  {
    if n == 0 then [] else Listed(touched, n - 1) + (if n in touched then [n] else [])
  }

  /** The bookkeeping of a run against the view of its trace. */
  predicate Remembers(v: View, wrote: bool, touched: set<int>, hot: int, overrides: set<int>) {
    && wrote == v.wrote
    && 0 <= hot <= 3
    && v.dirty <= touched <= CHANNELS * (v.dirty + {hot})
    && v.asked == v.atManual == {}
    && (touched != {} ==> wrote)
    && overrides <= {hot} && (overrides != {} ==> wrote && hot != 0)
    && overrides - touched <= v.at255
  }

  /** One command, with the state file written before it when it is the first one. */
  predicate SentOne(tr: Trace, tr': Trace, wrote: bool, wrote': bool, ch: int, cmd: Cmd, ok: bool) {
    var base := if wrote then tr else Then(tr, StateWritten(wrote'));
    && (wrote || ok ==> wrote')
    && tr' == if wrote' then Then(base, Commanded(ch, cmd, ok)) else base
  }

  /** The slot after k when the clock shows now: the first one not missed, but never past the
    last one. */
  function NextSlot(anchor: int, sample: int, n: int, k: int, now: int): int
    requires sample > 0 && now >= anchor
  {
    var first := (now - anchor) / sample + 1;
    var next := if first <= k then k + 1 else first;
    if k < n && next > n then n else next
  }

  lemma NextSlotGoesOn(anchor: int, sample: int, n: int, s: C.Slot, now: int)
    requires sample > 0 && now >= anchor && s.doneAt == now && 1 <= s.k <= n
    requires C.Due(anchor, sample, s.k) <= s.readAt <= now
    ensures var k := NextSlot(anchor, sample, n, s.k, now);
            k > s.k && if k <= n then C.GoesOn(anchor, sample, n, s, k) else s.k == n
  {
    C.FirstFutureSlot(anchor, sample, now);
    var first := (now - anchor) / sample + 1;
    forall j | s.k < j < first
      ensures C.Due(anchor, sample, j) <= now
    {
      C.DueMonotone(anchor, sample, j, first - 1);
    }
    if first <= s.k {
      C.DueMonotone(anchor, sample, first, s.k);
    }
  }
}
