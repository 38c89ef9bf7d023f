/** What a writing run does to the machine, as a trace of steps: the state file it has written,
  the commands it sends and the restores (Runner in ectest/internal/runner/runner.go and its
  callbacks in ectest/cmd/n5-ectest/validate.go).

  The trace is shared by the runner, whose methods emit it, and by the crash protocol, in which
  a worker is any process that only takes the steps `May` allows. */
module WorkerTrace {
  datatype Cmd = Manual | Duty(duty: int) | EcAuto

  datatype Entry =
    | StateWritten(ok: bool)                     // the state file, before the first write
    | HotRecorded(ch: int, ok: bool)             // 255 recorded in it after a temperature abort
    | Commanded(ch: int, cmd: Cmd, ok: bool)
    | PutBack(ch: int, ok: bool)                 // the channel's restore value

  /** The steps so far, the latest one outermost. */
  datatype Trace = Start | Then(before: Trace, step: Entry)

  /** What a trace leaves: whether the state file was written, which channels are not back at a
    restore value, how far the hold at 255 of a hot channel has got, and which channels were
    last set to 255. */
  datatype View = View(wrote: bool, dirty: set<int>, asked: set<int>, atManual: set<int>, at255: set<int>)

  function Next(v: View, e: Entry): View {
    match e
    case StateWritten(ok) => v.(wrote := v.wrote || ok)
    case HotRecorded(ch, _) => v.(asked := v.asked + {ch}, atManual := v.atManual - {ch})
    case Commanded(ch, cmd, ok) =>
      View(v.wrote,
           if ok && cmd == Duty(255) && ch in v.atManual then v.dirty - {ch} else v.dirty + {ch},
           v.asked - {ch},
           if ok && cmd == Manual && ch in v.asked then v.atManual + {ch} else v.atManual - {ch},
           if ok && cmd == Duty(255) then v.at255 + {ch} else v.at255 - {ch})
    case PutBack(ch, ok) =>
      View(v.wrote, if ok then v.dirty - {ch} else v.dirty + {ch}, v.asked - {ch}, v.atManual - {ch}, v.at255 - {ch})
  }

  function Replay(tr: Trace): View {
    match tr
    case Start => View(false, {}, {}, {}, {})
    case Then(before, e) => Next(Replay(before), e)
  }

  predicate SafeCommand(cmd: Cmd) {
    cmd.Duty? ==> 100 <= cmd.duty <= 255
  }

  /** Whether a run for channel c may take step e. Nothing is commanded before the state file is
    written; only the channel under test is commanded, and a channel whose hold at 255 was
    recorded (or tried to be) before; only a channel that needs it is put back. */
  predicate May(c: int, v: View, e: Entry) {
    match e
    case StateWritten(_) => !v.wrote
    case HotRecorded(ch, _) => v.wrote && 1 <= ch <= 4
    case Commanded(ch, cmd, _) =>
      v.wrote && 1 <= ch <= 4 && SafeCommand(cmd) && (ch == c || ch in v.asked || ch in v.atManual)
    case PutBack(ch, _) => v.wrote && ch in v.dirty
  }

  predicate Allowed(c: int, tr: Trace) {
    tr.Then? ==> Allowed(c, tr.before) && May(c, Replay(tr.before), tr.step)
  }

  /** The commands of a trace. */
  function Commands(tr: Trace): seq<Cmd> {
    match tr
    case Start => []
    case Then(before, e) => if e.Commanded? then Commands(before) + [e.cmd] else Commands(before)
  }

  // ---- what the view means -------------------------------------------------------

  predicate Concerns(e: Entry, ch: int) {
    match e
    case StateWritten(_) => false
    case HotRecorded(n, _) => n == ch
    case Commanded(n, _, _) => n == ch
    case PutBack(n, _) => n == ch
  }

  /** The steps of a trace that concern one channel. */
  function Of(tr: Trace, ch: int): Trace {
    match tr
    case Start => Start
    case Then(before, e) => if Concerns(e, ch) then Then(Of(before, ch), e) else Of(before, ch)
  }

  predicate Sends(e: Entry) {
    e.Commanded? || e.PutBack?
  }

  /** Some step of the trace reached the EC. */
  predicate AnySent(tr: Trace) {
    tr.Then? && (Sends(tr.step) || AnySent(tr.before))
  }

  predicate WasSent(tr: Trace, ch: int) {
    AnySent(Of(tr, ch))
  }

  predicate EndsAsked(t: Trace) {
    t.Then? && t.step.HotRecorded?
  }

  predicate EndsAtManual(t: Trace) {
    t.Then? && t.step.Commanded? && t.step.ok && t.step.cmd == Manual && EndsAsked(t.before)
  }

  /** The channel is back: at its restore value, or held at 255 after a temperature abort with
    the three steps of the hold. */
  predicate EndsBack(t: Trace) {
    && t.Then?
    && (|| (t.step.PutBack? && t.step.ok)
        || (t.step.Commanded? && t.step.ok && t.step.cmd == Duty(255) && EndsAtManual(t.before))
        || (t.step.HotRecorded? && EndsBack(t.before)))
  }

  /** The last step that reached the channel set it to 255. */
  predicate EndsAt255(t: Trace) {
    && t.Then?
    && if t.step.HotRecorded? then EndsAt255(t.before)
       else t.step.Commanded? && t.step.ok && t.step.cmd == Duty(255)
  }

  /** The view is exactly what the trace says: a channel is dirty if and only if it was sent
    something and its steps do not end with it being back. */
  lemma {:induction false} DirtyExact(tr: Trace, ch: int)
    ensures ch in Replay(tr).dirty <==> WasSent(tr, ch) && !EndsBack(Of(tr, ch))
    ensures ch in Replay(tr).asked <==> EndsAsked(Of(tr, ch))
    ensures ch in Replay(tr).atManual <==> EndsAtManual(Of(tr, ch))
    ensures ch in Replay(tr).at255 <==> EndsAt255(Of(tr, ch))
  {
    if tr.Then? {
      DirtyExact(tr.before, ch);
    }
  }

  /** The steps before and after a point of the trace. */
  predicate Prefix(p: Trace, tr: Trace) {
    p == tr || (tr.Then? && Prefix(p, tr.before))
  }

  predicate Contains(tr: Trace, e: Entry) {
    tr.Then? && (tr.step == e || Contains(tr.before, e))
  }

  /** In an allowed trace nothing reaches the EC before the state file has been written: every
    step after which something has been sent comes after a written state file. */
  lemma {:induction false} NothingBeforeStateFile(c: int, tr: Trace, p: Trace)
    requires Allowed(c, tr) && Prefix(p, tr) && p.Then? && (Sends(p.step) || p.step.HotRecorded?)
    ensures Contains(p.before, StateWritten(true))
  {
    if p == tr {
      WroteMeansWritten(p.before);
    } else {
      NothingBeforeStateFile(c, tr.before, p);
    }
  }

  lemma {:induction false} WroteMeansWritten(tr: Trace)
    ensures Replay(tr).wrote <==> Contains(tr, StateWritten(true))
  {
    if tr.Then? {
      WroteMeansWritten(tr.before);
    }
  }

  /** Only the channel under test, and channels whose hold at 255 was recorded before, are ever
    commanded; and never with a duty outside 100..255. */
  lemma {:induction false} OnlyTestedOrHot(c: int, tr: Trace, p: Trace)
    requires Allowed(c, tr) && Prefix(p, tr) && p.Then? && p.step.Commanded?
    ensures || p.step.ch == c
            || Contains(p.before, HotRecorded(p.step.ch, true))
            || Contains(p.before, HotRecorded(p.step.ch, false))
    ensures SafeCommand(p.step.cmd)
  {
    if p != tr {
      OnlyTestedOrHot(c, tr.before, p);
    } else if p.step.ch != c {
      HotWasRecorded(p.before, p.step.ch);
    }
  }

  lemma {:induction false} HotWasRecorded(tr: Trace, ch: int)
    requires ch in Replay(tr).asked || ch in Replay(tr).atManual
    ensures Contains(tr, HotRecorded(ch, true)) || Contains(tr, HotRecorded(ch, false))
  {
    if tr.step != HotRecorded(ch, true) && tr.step != HotRecorded(ch, false) {
      HotWasRecorded(tr.before, ch);
    }
  }

  // ---- the end of a run --------------------------------------------------------------

  /** A step after `before` in the end of a run that starts behind `mid`: the restore of a channel,
    or the hold of channel `hot` (0: none), which is recorded first, then set to manual mode and,
    when that worked, to 255. */
  predicate Closes(mid: Trace, before: Trace, e: Entry, hot: int) {
    match e
    case StateWritten(_) => false
    case HotRecorded(ch, _) => ch == hot != 0
    case Commanded(ch, cmd, _) =>
      && ch == hot != 0 && before != mid && before.Then?
      && (|| (cmd == Manual && before.step.HotRecorded? && before.step.ch == ch)
          || (cmd == Duty(255) && before.step == Commanded(ch, Manual, true)))
    case PutBack(ch, _) => ch != hot
  }

  /** Behind `mid` the run only closed: it put channels back and held the hot one. */
  predicate Closing(mid: Trace, tr: Trace, hot: int) {
    mid == tr || (tr.Then? && Closes(mid, tr.before, tr.step, hot) && Closing(mid, tr.before, hot))
  }

  function Length(tr: Trace): nat {
    if tr == Start then 0 else Length(tr.before) + 1
  }

  lemma {:induction false} ClosingGrows(mid: Trace, tr: Trace, hot: int)
    requires Closing(mid, tr, hot)
    ensures mid == tr || Length(mid) < Length(tr)
  {
    if mid != tr {
      ClosingGrows(mid, tr.before, hot);
    }
  }

  lemma {:induction false} ClosingOn(a: Trace, b: Trace, c: Trace, hot: int)
    requires Closing(a, b, hot) && Closing(b, c, hot)
    ensures Closing(a, c, hot)
  {
    if b != c {
      ClosingOn(a, b, c.before, hot);
      ClosingGrows(a, b, hot);
      ClosingGrows(b, c.before, hot);
    }
  }

  /** Holds at 255, each of them whole or ended after its first command. */
  predicate HoldCommands(s: seq<Cmd>) {
    forall i {:trigger s[i]} :: 0 <= i < |s| ==> s[i] == Manual || (s[i] == Duty(255) && i > 0 && s[i-1] == Manual)
  }

  lemma HoldCommandsStep(s: seq<Cmd>, cmd: Cmd)
    requires HoldCommands(s)
    requires cmd == Manual || (cmd == Duty(255) && s != [] && s[|s|-1] == Manual)
    ensures HoldCommands(s + [cmd])
  {
  }

  /** The end of a run commands nothing but holds of its hot channel, and nothing without one. */
  lemma {:induction false} ClosingCommands(mid: Trace, tr: Trace, hot: int)
    requires Closing(mid, tr, hot)
    ensures Commands(mid) <= Commands(tr) && HoldCommands(Commands(tr)[|Commands(mid)|..])
    ensures hot == 0 ==> Commands(tr) == Commands(mid)
  {
    if mid != tr {
      ClosingCommands(mid, tr.before, hot);
      var n := |Commands(mid)|;
      if tr.step.Commanded? {
        if tr.step.cmd == Duty(255) {
          ClosingCommands(mid, tr.before.before, hot);
        }
        HoldCommandsStep(Commands(tr.before)[n..], tr.step.cmd);
        assert Commands(tr)[n..] == Commands(tr.before)[n..] + [tr.step.cmd];
      }
    }
  }

  // ---- tries to put a channel back -----------------------------------------------------

  /** A hold at 255: recorded, or tried to be, then manual mode and, when that worked, 255; `ok`: both
    commands worked. */
  predicate HeldOnce(b: Trace, t: Trace, ch: int, recorded: bool, ok: bool) {
    var asked := Then(b, HotRecorded(ch, recorded));
    || t == Then(Then(asked, Commanded(ch, Manual, true)), Commanded(ch, Duty(255), ok))
    || (!ok && t == Then(asked, Commanded(ch, Manual, false)))
  }

  /** From b to t the run tried once to put a channel back: to its restore value, or, when it is to be
    held, to 255. */
  predicate Tried(b: Trace, t: Trace, ch: int, held: bool, ok: bool) {
    if held then HeldOnce(b, t, ch, true, ok) || HeldOnce(b, t, ch, false, ok) else t == Then(b, PutBack(ch, ok))
  }

  lemma HeldIsClosing(b: Trace, t: Trace, ch: int, recorded: bool, ok: bool)
    requires HeldOnce(b, t, ch, recorded, ok) && ch != 0
    ensures Closing(b, t, ch)
  {
    var asked := Then(b, HotRecorded(ch, recorded));
    var manual := Then(asked, Commanded(ch, Manual, true));
    assert Length(manual) == Length(asked) + 1 == Length(b) + 2;
    assert Closing(b, asked, ch);
    assert Closes(b, asked, Commanded(ch, Manual, ok), ch);
    assert Closing(b, manual, ch);
  }

  lemma TriedIsClosing(b: Trace, t: Trace, ch: int, hot: int, ok: bool)
    requires Tried(b, t, ch, ch == hot, ok) && ch != 0
    ensures Closing(b, t, hot)
  {
    if ch == hot {
      HeldIsClosing(b, t, ch, HeldOnce(b, t, ch, true, ok), ok);
    } else {
      assert Closing(b, b, hot);
    }
  }

  lemma HeldOf(b: Trace, t: Trace, ch: int, recorded: bool, ok: bool)
    requires HeldOnce(b, t, ch, recorded, ok)
    ensures HeldOnce(Of(b, ch), Of(t, ch), ch, recorded, ok)
    ensures forall c :: c != ch ==> Of(t, c) == Of(b, c)
  {
    var asked := Then(b, HotRecorded(ch, recorded));
    assert Of(asked, ch) == Then(Of(b, ch), HotRecorded(ch, recorded));
    assert Of(Then(asked, Commanded(ch, Manual, true)), ch) == Then(Of(asked, ch), Commanded(ch, Manual, true));
    forall c | c != ch
      ensures Of(t, c) == Of(b, c)
    {
      assert Of(asked, c) == Of(b, c);
      assert Of(Then(asked, Commanded(ch, Manual, true)), c) == Of(b, c);
    }
  }

  /** A try concerns its channel only. */
  lemma TriedOf(b: Trace, t: Trace, ch: int, held: bool, ok: bool)
    requires Tried(b, t, ch, held, ok)
    ensures Tried(Of(b, ch), Of(t, ch), ch, held, ok)
    ensures forall c :: c != ch ==> Of(t, c) == Of(b, c)
  {
    if held {
      HeldOf(b, t, ch, HeldOnce(b, t, ch, true, ok), ok);
    }
  }

  /** What one round of restores does to the steps of a channel: a listed one is tried once and stays
    listed if and only if that failed, any other one is left alone. */
  predicate Round(b: Trace, t: Trace, ch: int, held: bool, listed: bool, left: bool) {
    if listed then Tried(b, t, ch, held, !left) else !left && t == b
  }

  /** One close: at[0] is the trace before it, at[ch] the one behind the round of channel ch. */
  predicate Rounds(at: seq<Trace>, hot: int, listed: set<int>, left: set<int>) {
    && |at| == 5
    && forall ch :: 1 <= ch <= 4 ==> Round(at[ch-1], at[ch], ch, ch == hot, ch in listed, ch in left)
  }

  lemma RoundOf(b: Trace, t: Trace, ch: int, hot: int, listed: bool, left: bool)
    requires Round(b, t, ch, ch == hot, listed, left) && ch != 0
    ensures Round(Of(b, ch), Of(t, ch), ch, ch == hot, listed, left) && Closing(b, t, hot)
    ensures forall c :: c != ch ==> Of(t, c) == Of(b, c)
  {
    if listed {
      TriedOf(b, t, ch, ch == hot, !left);
      TriedIsClosing(b, t, ch, hot, !left);
    }
  }

  /** What a close does to the steps of each channel. */
  lemma RoundsOf(at: seq<Trace>, hot: int, listed: set<int>, left: set<int>)
    requires Rounds(at, hot, listed, left)
    ensures Closing(at[0], at[4], hot)
    ensures forall ch :: 1 <= ch <= 4 ==>
              Round(Of(at[0], ch), Of(at[4], ch), ch, ch == hot, ch in listed, ch in left)
    ensures forall ch :: !(1 <= ch <= 4) ==> Of(at[4], ch) == Of(at[0], ch)
  {
    for c := 1 to 5
      invariant Closing(at[0], at[c-1], hot)
      invariant forall ch :: 1 <= ch < c ==>
                  Round(Of(at[0], ch), Of(at[c-1], ch), ch, ch == hot, ch in listed, ch in left)
      invariant forall ch :: !(1 <= ch < c) ==> Of(at[c-1], ch) == Of(at[0], ch)
    {
      RoundOf(at[c-1], at[c], c, hot, c in listed, c in left);
      ClosingOn(at[0], at[c-1], at[c], hot);
    }
  }

  /** What n rounds do to the steps of a listed channel: it is tried until that worked. */
  ghost predicate TriedUntil(b: Trace, t: Trace, ch: int, held: bool, n: nat, left: bool)
    decreases n
  {
    if n == 0 then t == b && left
    else exists m, l :: Round(m, t, ch, held, l, left) && TriedUntil(b, m, ch, held, n - 1, l)
  }

  lemma OneMoreRound(b: Trace, m: Trace, t: Trace, ch: int, held: bool, n: nat, listed: bool, left: bool)
    requires TriedUntil(b, m, ch, held, n, listed) && Round(m, t, ch, held, listed, left)
    ensures TriedUntil(b, t, ch, held, n + 1, left)
  {
  }

  /** The last steps of a channel are n failed tries. */
  ghost predicate EndsInFailures(t: Trace, ch: int, held: bool, n: nat)
    decreases n
  {
    n > 0 ==> exists m :: Tried(m, t, ch, held, false) && EndsInFailures(m, ch, held, n - 1)
  }

  /** A channel is left after n rounds only when it failed in each of them. */
  lemma {:induction false} LeftAfterFailures(b: Trace, t: Trace, ch: int, held: bool, n: nat)
    requires TriedUntil(b, t, ch, held, n, true)
    ensures EndsInFailures(t, ch, held, n)
    decreases n
  {
    if n > 0 {
      var m, l :| Round(m, t, ch, held, l, true) && TriedUntil(b, m, ch, held, n - 1, l);
      LeftAfterFailures(b, m, ch, held, n - 1);
    }
  }

  /** What n closes do from t0 to t: every channel to restore is tried until that worked, the others are
    left alone. */
  ghost predicate Closed(t0: Trace, t: Trace, hot: int, listed: set<int>, left: set<int>, n: nat) {
    && Closing(t0, t, hot)
    && forall ch :: 1 <= ch <= 4 ==>
         if ch in listed then TriedUntil(Of(t0, ch), Of(t, ch), ch, ch == hot, n, ch in left)
         else ch !in left && Of(t, ch) == Of(t0, ch)
  }

  lemma OneMoreClose(t0: Trace, at: seq<Trace>, hot: int, listed: set<int>, left: set<int>, left': set<int>, n: nat)
    requires Rounds(at, hot, left, left') && Closed(t0, at[0], hot, listed, left, n)
    ensures Closed(t0, at[4], hot, listed, left', n + 1)
  {
    RoundsOf(at, hot, left, left');
    ClosingOn(t0, at[0], at[4], hot);
    forall ch | 1 <= ch <= 4 && ch in listed
      ensures TriedUntil(Of(t0, ch), Of(at[4], ch), ch, ch == hot, n + 1, ch in left')
    {
      OneMoreRound(Of(t0, ch), Of(at[0], ch), Of(at[4], ch), ch, ch == hot, n, ch in left, ch in left');
    }
  }

  /** A channel is left after n closes only when it was to restore and failed in each of them. */
  lemma LeftFailed(t0: Trace, t: Trace, hot: int, listed: set<int>, left: set<int>, n: nat, ch: int)
    requires Closed(t0, t, hot, listed, left, n) && 1 <= ch <= 4 && ch in left
    ensures ch in listed && EndsInFailures(Of(t, ch), ch, ch == hot, n)
  {
    LeftAfterFailures(Of(t0, ch), Of(t, ch), ch, ch == hot, n);
  }

  lemma NothingToClose(at: seq<Trace>, hot: int, left: set<int>)
    requires Rounds(at, hot, {}, left)
    ensures at[4] == at[0] && forall ch :: 1 <= ch <= 4 ==> ch !in left
  {
    assert at[1] == at[0] && at[2] == at[1] && at[3] == at[2] && at[4] == at[3];
  }
}
