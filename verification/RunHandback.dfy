/** The hand-back run: T2 and T3 of one channel (RunHandback in ectest/internal/runner/runner.go).

  `RunHandback` is proved to return what the report rebuilds from the stored log of the run, to
  send the commands of the procedure in order, and to leave the bookkeeping of the run valid. */
module RunHandback {
  import opened Wrappers
  import opened StoredTime
  import opened RunLog
  import opened SpecRules
  import opened StoredInputs
  import opened Handback
  import opened Aggregate
  import opened HandbackData
  import opened RecomputeHandback
  import StoredHandback
  import opened HandbackRefinement
  import opened WorkerTrace
  import opened Runner
  import opened Procedure

  // ---- the procedure ---------------------------------------------------------------

  function SubPlan(duty: int): seq<Cmd> {
    [Manual, Duty(duty), EcAuto]
  }

  function RepPlan(m: int): seq<Cmd> {
    SubPlan(MAX_DUTY) + SubPlan(m)
  }

  /** The commands of n repetitions: 255 and then M, each handed back to the EC. */
  function Plan(n: nat, m: int): seq<Cmd> {
    if n == 0 then [] else Plan(n - 1, m) + RepPlan(m)
  }

  /** Three repetitions, written out: 255 and then m, each handed back to the EC. */
  lemma PlanWritten(m: int)
    ensures RepPlan(m) == [Manual, Duty(255), EcAuto, Manual, Duty(m), EcAuto]
    ensures Plan(3, m) == RepPlan(m) + RepPlan(m) + RepPlan(m)
  {
    assert Plan(1, m) == RepPlan(m);
    assert Plan(3, m) == Plan(2, m) + RepPlan(m) == Plan(1, m) + RepPlan(m) + RepPlan(m);
  }

  // ---- the log of a sub-run ----------------------------------------------------------

  lemma {:induction false} NotesKeepAutoEvents(before: seq<Event>, after: seq<Event>)
    requires OnlyNotes(before, after)
    ensures AutoEvents(after) == AutoEvents(before)
    decreases |after|
  {
    if |after| > |before| {
      NotesKeepAutoEvents(before, after[..|after|-1]);
    } else {
      assert after == before;
    }
  }

  lemma OtherKeepsAutoEvents(ev: seq<Event>, e: Event)
    ensures AutoEvents(ev + [e]) == AutoEvents(ev) + if e.text.T2AutoSent? then [e] else []
  {
  }

  lemma WriteKeepsAutoEvents(ev: seq<Event>, ev': seq<Event>, ok: bool, e: Event)
    requires if ok then ev' == ev + [e] && !e.text.T2AutoSent? else OnlyNotes(ev, ev')
    ensures AutoEvents(ev') == AutoEvents(ev)
  {
  }

  /** The hold of a sub-run: on the cadence of its write event, for the length of the
    configuration, to the end. */
  ghost predicate HoldOf(h: CadencedHold, ev: seq<Event>, start: int, cfg: Config, rec: Rec) {
    && h == Hold(start, h.anchor, cfg.sample, cfg.hold, T2Hold(rec.rep, rec.sub), rec.duty, h.watch, rec.hold, h.slots,
                 true, true)
    && exists i :: 0 <= i < |ev| && ev[i] == Event(h.anchor - start, Wrote(cfg.channel, rec.duty))
  }

  /** The log of a sub-run: on the cadence of its auto event. */
  ghost predicate AutoOf(h: CadencedHold, start: int, cfg: Config, rec: SentRec, complete: bool) {
    h == Hold(start, start + rec.sentAt.value, cfg.sample, cfg.HandbackObserve(), T2Auto(rec.rep, rec.sub), -1, h.watch,
              rec.auto, h.slots, h.clean, complete)
  }

  /** Manual mode and the duty; the event of the write is the last one. */
  method ManualAndWrite(r: Run, duty: int) returns (ok: bool, at: int)
    requires r.Valid() && r.abort.None? && MIN_DUTY <= duty <= MAX_DUTY
    modifies r`wrote, r`touched, r`abort, r`events, r.env
    ensures r.Valid()
    ensures ok <==> r.abort.None?
    ensures AutoEvents(r.events) == AutoEvents(old(r.events))
    ensures Follows(old(r.env.trace), r.env.trace, [Manual, Duty(duty)], ok)
    ensures old(r.touched) <= r.touched && (ok ==> at <= r.env.clock)
    ensures ok ==> r.events != [] && r.events[|r.events|-1] == Event(at - r.start, Wrote(r.cfg.channel, duty))
  {
    ghost var tr0 := r.env.trace;
    ghost var ev := r.events;
    ok, at := ModeOrFail(r, Manual);
    NotesKeepAutoEvents(ev, r.events);
    ghost var tr1 := r.env.trace;
    if !ok {
      StopsHere(tr0, tr1, [Manual], [Duty(duty)], ok);
      return false, 0;
    }
    ev := r.events;
    ok, at := WriteOrFail(r, duty);
    WriteKeepsAutoEvents(ev, r.events, ok, Event(at - r.start, Wrote(r.cfg.channel, duty)));
    FollowsOn(tr0, tr1, r.env.trace, [Manual], [Duty(duty)], ok);
  }

  /** The hold behind the write whose event is the last one. */
  method HoldOfWrite(r: Run, at: int, rep: Rep, sub: Label, duty: int)
    returns (ok: bool, rec: Rec, ghost h: CadencedHold)
    requires r.Valid() && r.abort.None? && at <= r.env.clock && duty >= 0
    requires r.events != [] && r.events[|r.events|-1] == Event(at - r.start, Wrote(r.cfg.channel, duty))
    modifies r`samples, r`events, r`nanRun, r`hot, r`abort, r.env`clock, r.env`heard
    ensures r.Valid()
    ensures ok <==> r.abort.None?
    ensures rec == Rec(rep, sub, duty, rec.hold, [], None) && RecOk(rec)
    ensures r.samples == old(r.samples) + rec.hold
    ensures AutoEvents(r.events) == AutoEvents(old(r.events))
    ensures ok ==> rec.hold != [] && HoldOf(h, r.events, r.start, r.cfg, rec)
  {
    ghost var ev := r.events;
    var hold;
    ok, hold, h := r.HoldRun(at, T2Hold(rep, sub), duty, r.cfg.hold);
    rec := Rec(rep, sub, duty, hold, [], None);
    NotesKeepAutoEvents(ev, r.events);
    assert r.events[|ev|-1] == ev[|ev|-1];
  }

  /** Manual mode, the duty and the hold. */
  method WriteAndHold(r: Run, rep: Rep, sub: Label, duty: int) returns (ok: bool, rec: Rec, ghost h: CadencedHold)
    requires r.Valid() && r.abort.None? && MIN_DUTY <= duty <= MAX_DUTY
    modifies r, r.env
    ensures r.Valid()
    ensures ok <==> r.abort.None?
    ensures rec == Rec(rep, sub, duty, rec.hold, [], None) && RecOk(rec)
    ensures r.samples == old(r.samples) + rec.hold
    ensures AutoEvents(r.events) == AutoEvents(old(r.events))
    ensures Follows(old(r.env.trace), r.env.trace, [Manual, Duty(duty)], ok)
    ensures old(r.touched) <= r.touched && (ok ==> rec.hold != [])
    ensures ok ==> HoldOf(h, r.events, r.start, r.cfg, rec)
  {
    rec := Rec(rep, sub, duty, [], [], None);
    var at;
    ok, at := ManualAndWrite(r, duty);
    h := NO_HOLD;
    if !ok {
      return;
    }
    ok, rec, h := HoldOfWrite(r, at, rep, sub, duty);
    FollowsOn(old(r.env.trace), r.env.trace, r.env.trace, [Manual, Duty(duty)], [], ok);
  }

  // ---- sub-runs and repetitions ------------------------------------------------------

  /** What one sub-run adds to the log and to the results. */
  ghost predicate SubDone(c: Context, rec: Rec, res: Option<Merged>)
  {
    && RecOk(rec)
    && (res.Some? <==> rec.sentAt.Some?)
    && (res.Some? ==> res.value == ResultOf(c, rec))
  }

  function SentEvents(rec: Rec): seq<Event> {
    if rec.sentAt.Some? then [EventOf(rec)] else []
  }

  /** The log behind the auto command, timed from its event. */
  method Observe(r: Run, held: Rec) returns (ok: bool, rec: Rec, ghost h: CadencedHold)
    requires r.Valid() && r.abort.None? && RecOk(held) && held.sentAt.None? && held.hold != []
    modifies r`samples, r`events, r`nanRun, r`hot, r`abort, r.env`clock, r.env`heard
    ensures r.Valid()
    ensures ok <==> r.abort.None?
    ensures rec.sentAt.Some? && rec == held.(auto := rec.auto, sentAt := rec.sentAt) && RecOk(rec)
    ensures r.samples == old(r.samples) + rec.auto
    ensures AutoEvents(r.events) == AutoEvents(old(r.events)) + [EventOf(rec)]
    ensures AutoOf(h, r.start, r.cfg, rec, ok)
  {
    ghost var ev := r.events;
    var at := r.EventAt(T2AutoSent(held.rep, held.sub));
    OtherKeepsAutoEvents(ev, Event(at - r.start, T2AutoSent(held.rep, held.sub)));
    ev := r.events;
    var auto;
    ok, auto, h := r.HoldRun(at, T2Auto(held.rep, held.sub), -1, r.cfg.HandbackObserve());
    NotesKeepAutoEvents(ev, r.events);
    rec := held.(auto := auto, sentAt := Some(at - r.start));
  }

  method EvalRec(c: Context, rec: SentRec) returns (m: Merged)
    ensures m == ResultOf(c, rec)
  {
    m := EvalSubRun(c.ch, rec.sub, rec.duty, rec.hold, rec.auto, rec.sentAt.value, c.a, c.preCrossed);
  }

  /** Write, hold and hand back. */
  method HoldAndHandBack(r: Run, rep: Rep, sub: Label, duty: int) returns (ok: bool, rec: Rec)
    requires r.Valid() && r.abort.None? && MIN_DUTY <= duty <= MAX_DUTY
    modifies r, r.env
    ensures r.Valid()
    ensures ok <==> r.abort.None?
    ensures rec == Rec(rep, sub, duty, rec.hold, [], None) && RecOk(rec)
    ensures r.samples == old(r.samples) + rec.hold
    ensures AutoEvents(r.events) == AutoEvents(old(r.events))
    ensures Follows(old(r.env.trace), r.env.trace, SubPlan(duty), ok)
    ensures old(r.touched) <= r.touched && (ok ==> rec.hold != [])
  {
    ghost var tr0 := r.env.trace;
    ghost var h;
    ok, rec, h := WriteAndHold(r, rep, sub, duty);
    ghost var tr1 := r.env.trace;
    assert SubPlan(duty) == [Manual, Duty(duty)] + [EcAuto];
    if !ok {
      StopsHere(tr0, tr1, [Manual, Duty(duty)], [EcAuto], false);
      return;
    }
    var at;
    ghost var ev := r.events;
    ok, at := ModeOrFail(r, EcAuto);
    NotesKeepAutoEvents(ev, r.events);
    FollowsOn(tr0, tr1, r.env.trace, [Manual, Duty(duty)], [EcAuto], ok);
  }

  /** The results of the sub-runs of a repetition whose auto command was sent. */
  ghost function ResultsOf(c: Context, sent: seq<SentRec>): seq<Merged>
  {
    seq(|sent|, i requires 0 <= i < |sent| => ResultOf(c, sent[i]))
  }

  /** The records of one repetition: 255 first, M only after the auto command of 255. */
  predicate RepShape(rep: Rep, m: int, recs: seq<Rec>, complete: bool) {
    && 1 <= |recs| <= 2 && Ordered(recs)
    && recs[0].rep == rep && recs[0].sub == H && recs[0].duty == MAX_DUTY
    && (|recs| == 2 ==> recs[0].sentAt.Some? && recs[1].rep == rep && recs[1].sub == M && recs[1].duty == m)
    && (complete ==> |recs| == 2 && recs[1].sentAt.Some?)
  }

  /** What a run logs and sends: samples, auto events, commands. */
  ghost predicate Logged(smp: seq<Sample>, smp': seq<Sample>, ev: seq<Event>, ev': seq<Event>, recs: seq<Rec>) {
    && smp' == smp + SamplesOf(recs)
    && AutoEvents(ev') == AutoEvents(ev) + EventsOf(Sent(recs))
  }

  lemma OneRec(rec: Rec)
    ensures SamplesOf([rec]) == rec.hold + rec.auto
    ensures Sent([rec]) == if rec.sentAt.Some? then [rec] else []
    ensures EventsOf(Sent([rec])) == SentEvents(rec)
  {
  }

  lemma SnocOfSum<T>(a: seq<T>, b: seq<T>)
    requires b != []
    ensures a + b == (a + b[..|b|-1]) + [b[|b|-1]]
    ensures b == b[..|b|-1] + [b[|b|-1]]
  {
  }

  lemma {:induction false} SamplesOfSum(a: seq<Rec>, b: seq<Rec>)
    ensures SamplesOf(a + b) == SamplesOf(a) + SamplesOf(b)
  {
    if b == [] {
      assert a + b == a;
    } else {
      SnocOfSum(a, b);
      SamplesOfSum(a, b[..|b|-1]);
      assert (a + b)[..|a + b|-1] == a + b[..|b|-1];
    }
  }

  lemma {:induction false} SentOfSum(a: seq<Rec>, b: seq<Rec>)
    ensures Sent(a + b) == Sent(a) + Sent(b)
  {
    if b == [] {
      assert a + b == a;
    } else {
      SnocOfSum(a, b);
      SentOfSum(a, b[..|b|-1]);
      assert (a + b)[..|a + b|-1] == a + b[..|b|-1];
    }
  }

  lemma EventsOfSum(a: seq<SentRec>, b: seq<SentRec>)
    ensures EventsOf(a + b) == EventsOf(a) + EventsOf(b)
  {
  }

  lemma LoggedOn(s0: seq<Sample>, s1: seq<Sample>, s2: seq<Sample>, e0: seq<Event>, e1: seq<Event>, e2: seq<Event>,
                 a: seq<Rec>, b: seq<Rec>)
    requires Logged(s0, s1, e0, e1, a) && Logged(s1, s2, e1, e2, b)
    ensures Logged(s0, s2, e0, e2, a + b)
  {
    SamplesOfSum(a, b);
    SentOfSum(a, b);
    EventsOfSum(Sent(a), Sent(b));
    Associative(s0, SamplesOf(a), SamplesOf(b));
    Associative(AutoEvents(e0), EventsOf(Sent(a)), EventsOf(Sent(b)));
  }

  ghost predicate Adds(a: Log, b: Log, recs: seq<Rec>, plan: seq<Cmd>, done: bool) {
    Logged(a.samples, b.samples, a.events, b.events, recs) && Follows(a.trace, b.trace, plan, done)
  }

  /** What one sub-run adds between the logs `from` and `to`. */
  datatype AnySubLog = SubLog(c: Context, from: Log, to: Log, rep: Rep, sub: Label, duty: int, rec: Rec,
                              res: Option<Merged>)
  {
    ghost predicate Exact() {
      && rec.rep == rep && rec.sub == sub && rec.duty == duty && SubDone(c, rec, res)
      && Adds(from, to, [rec], SubPlan(duty), res.Some?)
    }
  }

  type SubLog = l: AnySubLog | l.Exact() ghost witness SubNone()

  ghost function SubNone(): (l: AnySubLog)
    ensures l.Exact()
  {
    var h := Rec(1, H, MAX_DUTY, [], [], None);
    OneRec(h);
    assert AutoEvents([]) == [];
    SubLog(Context(0, [], MIN_DUTY, false), Log([], [], Start), Log([], [], Start), 1, H, MAX_DUTY, h, None)
  }

  /** A sub-run that ended before its auto command. */
  lemma SubStopped(c: Context, a: Log, b: Log, rec: Rec) returns (l: SubLog)
    requires RecOk(rec) && rec.sentAt.None?
    requires b.samples == a.samples + rec.hold && AutoEvents(b.events) == AutoEvents(a.events)
    requires Follows(a.trace, b.trace, SubPlan(rec.duty), false)
    ensures l == SubLog(c, a, b, rec.rep, rec.sub, rec.duty, rec, None)
  {
    OneRec(rec);
    assert rec.hold + [] == rec.hold;
    l := SubLog(c, a, b, rec.rep, rec.sub, rec.duty, rec, None);
  }

  lemma SubLogged(a: Log, mid: Log, b: Log, rec: SentRec)
    requires mid.samples == a.samples + rec.hold && AutoEvents(mid.events) == AutoEvents(a.events)
    requires b.samples == mid.samples + rec.auto && AutoEvents(b.events) == AutoEvents(mid.events) + [EventOf(rec)]
    ensures Logged(a.samples, b.samples, a.events, b.events, [rec])
  {
  }

  lemma SubWhole(c: Context, a: Log, mid: Log, b: Log, rec: SentRec) returns (l: SubLog)
    requires RecOk(rec)
    requires mid.samples == a.samples + rec.hold && AutoEvents(mid.events) == AutoEvents(a.events)
    requires Follows(a.trace, mid.trace, SubPlan(rec.duty), true)
    requires b.samples == mid.samples + rec.auto && AutoEvents(b.events) == AutoEvents(mid.events) + [EventOf(rec)]
    requires b.trace == mid.trace
    ensures l == SubLog(c, a, b, rec.rep, rec.sub, rec.duty, rec, Some(ResultOf(c, rec)))
  {
    SubLogged(a, mid, b, rec);
    l := SubLog(c, a, b, rec.rep, rec.sub, rec.duty, rec, Some(ResultOf(c, rec)));
  }

  /** One sub-run: write and hold, the auto command, the log, the evaluation. */
  method RunSub(r: Run, c: Context, rep: Rep, sub: Label, duty: int) returns (res: Option<Merged>, ghost l: SubLog)
    requires r.Valid() && r.abort.None? && MIN_DUTY <= duty <= MAX_DUTY && c.ch == r.cfg.channel
    modifies r, r.env
    ensures r.Valid() && old(r.touched) <= r.touched
    ensures r.abort.None? ==> res.Some?
    ensures l == SubLog(c, Log(old(r.samples), old(r.events), old(r.env.trace)), Log(r.samples, r.events, r.env.trace),
                        rep, sub, duty, l.rec, res)
  {
    ghost var a := Log(r.samples, r.events, r.env.trace);
    var ok, rec := HoldAndHandBack(r, rep, sub, duty);
    ghost var mid := Log(r.samples, r.events, r.env.trace);
    if !ok {
      l := SubStopped(c, a, mid, rec);
      return None, l;
    }
    ghost var h;
    ok, rec, h := Observe(r, rec);
    var m := EvalRec(c, rec);
    l := SubWhole(c, a, mid, Log(r.samples, r.events, r.env.trace), rec);
    return Some(m), l;
  }

  function Known(m: Option<Merged>): seq<Merged> {
    if m.Some? then [m.value] else []
  }

  lemma ResultsOfOne(c: Context, rec: Rec, res: Option<Merged>)
    requires SubDone(c, rec, res)
    ensures ResultsOf(c, Sent([rec])) == Known(res)
  {
  }

  lemma ResultsOfTwo(c: Context, h: Rec, m: Rec, hRes: Option<Merged>, mRes: Option<Merged>)
    requires SubDone(c, h, hRes) && SubDone(c, m, mRes)
    ensures ResultsOf(c, Sent([h] + [m])) == Known(hRes) + Known(mRes)
  {
    ResultsOfOne(c, h, hRes);
    ResultsOfOne(c, m, mRes);
    SentOfSum([h], [m]);
  }

  /** What one repetition adds between the logs `from` and `to`. */
  datatype AnyRepLog = RepLog(c: Context, from: Log, to: Log, rep: Rep, recs: seq<Rec>, subs: seq<Merged>,
                              complete: bool)
  {
    ghost predicate Exact() {
      && RepShape(rep, c.m, recs, complete)
      && subs == ResultsOf(c, Sent(recs))
      && Adds(from, to, recs, RepPlan(c.m), complete)
    }
  }

  type RepLog = r: AnyRepLog | r.Exact() ghost witness RepNone()

  ghost function RepNone(): (r: AnyRepLog)
    ensures r.Exact()
  {
    var c := Context(0, [], MIN_DUTY, false);
    var h := Rec(1, H, MAX_DUTY, [], [], None);
    OneRec(h);
    assert Sent([h]) == [] && EventsOf([]) == [] && AutoEvents([]) == [];
    assert ResultsOf(c, []) == [];
    RepLog(c, Log([], [], Start), Log([], [], Start), 1, [h], [], false)
  }

  /** A repetition that an abort ended in the sub-run of 255. */
  lemma RepEnded(h: SubLog) returns (r: RepLog)
    requires h.sub == H && h.duty == MAX_DUTY
    ensures r == RepLog(h.c, h.from, h.to, h.rep, [h.rec], Known(h.res), false)
  {
    ResultsOfOne(h.c, h.rec, h.res);
    StopsHere(h.from.trace, h.to.trace, SubPlan(MAX_DUTY), SubPlan(h.c.m), h.res.Some?);
    r := RepLog(h.c, h.from, h.to, h.rep, [h.rec], Known(h.res), false);
  }

  lemma AddsOn(a: Log, mid: Log, b: Log, recs: seq<Rec>, more: seq<Rec>, p: seq<Cmd>, q: seq<Cmd>, done: bool)
    requires Adds(a, mid, recs, p, true) && Adds(mid, b, more, q, done)
    ensures Adds(a, b, recs + more, p + q, done)
  {
    LoggedOn(a.samples, mid.samples, b.samples, a.events, mid.events, b.events, recs, more);
    FollowsOn(a.trace, mid.trace, b.trace, p, q, done);
  }

  lemma BothShape(rep: Rep, h: Rec, m: Rec, complete: bool)
    requires h.rep == rep && h.sub == H && h.duty == MAX_DUTY && RecOk(h) && h.sentAt.Some?
    requires m.rep == rep && m.sub == M && RecOk(m) && (complete ==> m.sentAt.Some?)
    ensures RepShape(rep, m.duty, [h] + [m], complete)
  {
  }

  /** A repetition with both sub-runs. */
  lemma RepBoth(h: SubLog, m: SubLog, complete: bool) returns (r: RepLog)
    requires h.sub == H && h.duty == MAX_DUTY && h.res.Some?
    requires m.sub == M && m.duty == m.c.m && m.rep == h.rep && m.c == h.c && m.from == h.to
    requires complete ==> m.res.Some?
    ensures r == RepLog(h.c, h.from, m.to, h.rep, [h.rec] + [m.rec], Known(h.res) + Known(m.res), complete)
  {
    ResultsOfTwo(h.c, h.rec, m.rec, h.res, m.res);
    AddsOn(h.from, h.to, m.to, [h.rec], [m.rec], SubPlan(MAX_DUTY), SubPlan(h.c.m), complete);
    BothShape(h.rep, h.rec, m.rec, complete);
    r := RepLog(h.c, h.from, m.to, h.rep, [h.rec] + [m.rec], Known(h.res) + Known(m.res), complete);
  }

  /** One repetition: 255 and then M, ended by an abort. */
  method RunRep(r: Run, c: Context, rep: Rep) returns (subs: seq<Merged>, ghost l: RepLog)
    requires r.Valid() && r.abort.None? && c.ch == r.cfg.channel && MIN_DUTY <= c.m <= MAX_DUTY
    modifies r, r.env
    ensures r.Valid() && old(r.touched) <= r.touched
    ensures l == RepLog(c, Log(old(r.samples), old(r.events), old(r.env.trace)), Log(r.samples, r.events, r.env.trace),
                        rep, l.recs, subs, r.abort.None?)
  {
    var h, m;
    ghost var hLog, mLog;
    h, hLog := RunSub(r, c, rep, H, MAX_DUTY);
    subs := Known(h);
    if r.abort.Some? {
      l := RepEnded(hLog);
      return;
    }
    m, mLog := RunSub(r, c, rep, M, c.m);
    subs := subs + Known(m);
    l := RepBoth(hLog, mLog, r.abort.None?);
  }

  /** Every record is of an earlier repetition. */
  predicate EarlierReps(recs: seq<Rec>, rep: int) {
    forall i :: 0 <= i < |recs| ==> recs[i].rep < rep
  }

  lemma OrderedOn(recs: seq<Rec>, more: seq<Rec>, rep: Rep, m: int, complete: bool)
    requires Ordered(recs) && EarlierReps(recs, rep) && RepShape(rep, m, more, complete)
    ensures Ordered(recs + more) && EarlierReps(recs + more, rep + 1)
  {
  }

  lemma {:induction false} SentEarlier(recs: seq<Rec>, rep: int)
    requires EarlierReps(recs, rep)
    ensures EarlierReps(Sent(recs), rep)
  {
    if recs != [] {
      SentEarlier(recs[..|recs|-1], rep);
    }
  }

  lemma ResultsOfStep(c: Context, sent: seq<SentRec>, last: SentRec)
    ensures ResultsOf(c, sent + [last]) == ResultsOf(c, sent) + [ResultOf(c, last)]
  {
  }

  lemma LastOfSum<T>(a: seq<T>, b: seq<T>)
    requires b != []
    ensures (a + b)[|a + b|-1] == b[|b|-1]
  {
  }

  /** The results of one more repetition, all of whose records have its number. */
  lemma {:induction false} RunsOfRep(c: Context, sent: seq<SentRec>, more: seq<SentRec>, rep: int)
    requires EarlierReps(sent, rep) && more != []
    requires forall i :: 0 <= i < |more| ==> more[i].rep == rep
    ensures HandbackRefinement.RunsOf(c, sent + more) == HandbackRefinement.RunsOf(c, sent) + [ResultsOf(c, more)]
  {
    var init, last := more[..|more|-1], more[|more|-1];
    SnocOfSum(sent, more);
    RunsOfStep(c, sent + init, last);
    ResultsOfStep(c, init, last);
    if init == [] {
      assert sent + init == sent;
      assert ResultsOf(c, init) + [ResultOf(c, last)] == [ResultOf(c, last)];
      assert sent == [] || sent[|sent|-1].rep != last.rep;
    } else {
      RunsOfRep(c, sent, init, rep);
      var g := HandbackRefinement.RunsOf(c, sent);
      assert (g + [ResultsOf(c, init)])[..|g|] == g;
      LastOfSum(sent, init);
    }
  }

  lemma {:induction false} SentOfOneRep(recs: seq<Rec>, rep: int)
    requires forall i :: 0 <= i < |recs| ==> recs[i].rep == rep
    ensures forall i :: 0 <= i < |Sent(recs)| ==> Sent(recs)[i].rep == rep
  {
    if recs != [] {
      SentOfOneRep(recs[..|recs|-1], rep);
    }
  }

  lemma {:induction false} PlanGrows(n: nat, k: nat, m: int)
    requires n <= k
    ensures Plan(n, m) <= Plan(k, m)
  {
    if n < k {
      PlanGrows(n, k - 1, m);
    }
  }

  /** The records of complete repetitions, two each. */
  predicate AllShaped(recs: seq<Rec>, reps: nat, m: int) {
    && |recs| == 2 * reps
    && forall i :: 0 <= i < reps ==> RepShape(i + 1, m, recs[2*i..2*i+2], true)
  }

  /** What the repetitions so far leave: their records in order, and the results. */
  ghost predicate RepsDone(c: Context, recs: seq<Rec>, runs: seq<seq<Merged>>, reps: nat, complete: bool) {
    && Ordered(recs) && EarlierReps(recs, reps + 1)
    && runs == HandbackRefinement.RunsOf(c, Sent(recs))
    && (complete ==> AllShaped(recs, reps, c.m))
  }

  lemma AllShapedOn(recs: seq<Rec>, more: seq<Rec>, reps: nat, m: int)
    requires AllShaped(recs, reps, m) && RepShape(reps + 1, m, more, true)
    ensures AllShaped(recs + more, reps + 1, m)
  {
  }

  lemma RunsOn(c: Context, recs: seq<Rec>, more: seq<Rec>, rep: int)
    requires EarlierReps(recs, rep) && forall i :: 0 <= i < |more| ==> more[i].rep == rep
    ensures HandbackRefinement.RunsOf(c, Sent(recs + more))
            == HandbackRefinement.RunsOf(c, Sent(recs)) + if Sent(more) == [] then [] else [ResultsOf(c, Sent(more))]
  {
    SentOfSum(recs, more);
    SentEarlier(recs, rep);
    SentOfOneRep(more, rep);
    if Sent(more) == [] {
      assert Sent(recs) + Sent(more) == Sent(recs);
    } else {
      RunsOfRep(c, Sent(recs), Sent(more), rep);
    }
  }

  lemma RepsOn(c: Context, recs: seq<Rec>, runs: seq<seq<Merged>>, reps: nat, more: seq<Rec>, subs: seq<Merged>,
               complete: bool)
    requires RepsDone(c, recs, runs, reps, true) && RepShape(reps + 1, c.m, more, complete)
    requires subs == ResultsOf(c, Sent(more))
    ensures RepsDone(c, recs + more, if subs == [] then runs else runs + [subs], reps + 1, complete)
  {
    OrderedOn(recs, more, reps + 1, c.m, complete);
    RunsOn(c, recs, more, reps + 1);
    if complete {
      AllShapedOn(recs, more, reps, c.m);
    }
  }

  /** What the repetitions so far add between the logs `from` and `to`. */
  datatype AnyStage = Stage(c: Context, from: Log, to: Log, recs: seq<Rec>, runs: seq<seq<Merged>>, reps: nat,
                            complete: bool)
  {
    ghost predicate Exact() {
      && RepsDone(c, recs, runs, reps, complete)
      && Adds(from, to, recs, Plan(reps, c.m), complete)
    }
  }

  type Stage = s: AnyStage | s.Exact() ghost witness StageNone()

  ghost function StageNone(): (s: AnyStage)
    ensures s.Exact()
  {
    FirstStage(Context(0, [], MIN_DUTY, false), Log([], [], Start));
    Stage(Context(0, [], MIN_DUTY, false), Log([], [], Start), Log([], [], Start), [], [], 0, true)
  }

  lemma FirstStage(c: Context, a: Log)
    ensures Stage(c, a, a, [], [], 0, true).Exact()
  {
  }

  lemma PlanStep(n: nat, m: int)
    ensures Plan(n + 1, m) == Plan(n, m) + RepPlan(m)
  {
  }

  ghost function NextStage(s: Stage, l: RepLog): AnyStage {
    Stage(s.c, s.from, l.to, s.recs + l.recs, if l.subs == [] then s.runs else s.runs + [l.subs], s.reps + 1,
          l.complete)
  }

  predicate ComesNext(s: Stage, l: RepLog) {
    s.complete && l.c == s.c && l.from == s.to && l.rep == s.reps + 1
  }

  lemma NextStageRuns(s: Stage, l: RepLog)
    requires ComesNext(s, l)
    ensures RepsDone(s.c, s.recs + l.recs, if l.subs == [] then s.runs else s.runs + [l.subs], s.reps + 1, l.complete)
  {
    RepsOn(s.c, s.recs, s.runs, s.reps, l.recs, l.subs, l.complete);
  }

  lemma NextStageAdds(s: Stage, l: RepLog)
    requires ComesNext(s, l)
    ensures Adds(s.from, l.to, s.recs + l.recs, Plan(s.reps + 1, s.c.m), l.complete)
  {
    AddsOn(s.from, s.to, l.to, s.recs, l.recs, Plan(s.reps, s.c.m), RepPlan(s.c.m), l.complete);
    PlanStep(s.reps, s.c.m);
  }

  lemma MakeStage(s: AnyStage)
    requires RepsDone(s.c, s.recs, s.runs, s.reps, s.complete)
    requires Adds(s.from, s.to, s.recs, Plan(s.reps, s.c.m), s.complete)
    ensures s.Exact()
  {
  }

  lemma NextStageExact(s: Stage, l: RepLog)
    requires ComesNext(s, l)
    ensures NextStage(s, l).Exact()
  {
    NextStageRuns(s, l);
    NextStageAdds(s, l);
    MakeStage(NextStage(s, l));
  }

  /** All repetitions, ended by an abort. */
  method RunReps(r: Run, c: Context) returns (runs: seq<seq<Merged>>, ghost s: Stage)
    requires r.Valid() && r.abort.None? && c.ch == r.cfg.channel && MIN_DUTY <= c.m <= MAX_DUTY
    modifies r, r.env
    ensures r.Valid() && old(r.touched) <= r.touched
    ensures s.c == c && s.runs == runs && s.reps <= r.cfg.repeat && s.complete == r.abort.None?
    ensures s.from == Log(old(r.samples), old(r.events), old(r.env.trace))
            && s.to == Log(r.samples, r.events, r.env.trace)
    ensures r.abort.None? ==> s.reps == r.cfg.repeat
  {
    ghost var a := Log(r.samples, r.events, r.env.trace);
    FirstStage(c, a);
    runs, s := [], Stage(c, a, a, [], [], 0, true);
    var rep := 1;
    while rep <= r.cfg.repeat && r.abort.None?
      invariant 1 <= rep <= r.cfg.repeat + 1 && s.reps == rep - 1
      invariant r.Valid() && old(r.touched) <= r.touched
      invariant s.c == c && s.from == a && s.to == Log(r.samples, r.events, r.env.trace) && s.runs == runs
      invariant s.complete == r.abort.None?
    {
      var subs;
      ghost var l;
      subs, l := RunRep(r, c, rep);
      NextStageExact(s, l);
      s := NextStage(s, l);
      if subs != [] {
        runs := runs + [subs];
      }
      rep := rep + 1;
    }
  }

  // ---- the whole test -------------------------------------------------------------------

  /** The automatic command and the window that determines A, on the cadence of its event. */
  method MeasureA(r: Run) returns (ok: bool, pre: seq<Sample>, ghost h: CadencedHold)
    requires r.Valid() && r.abort.None?
    modifies r, r.env
    ensures r.Valid()
    ensures ok <==> r.abort.None?
    ensures r.samples == old(r.samples) + pre && Uniform(pre, T2Pre)
    ensures AutoEvents(r.events) == AutoEvents(old(r.events))
    ensures Follows(old(r.env.trace), r.env.trace, [EcAuto], ok)
    ensures ok ==> r.cfg.channel in r.touched
    ensures ok ==>
              && old(r.env.clock) <= h.anchor
              && pre != []
              && h == Hold(r.start, h.anchor, r.cfg.sample, r.cfg.PreWindow(), T2Pre, -1, h.watch, pre, h.slots, true,
                           true)
  {
    var at;
    ghost var ev := r.events;
    ok, at := ModeOrFail(r, EcAuto);
    NotesKeepAutoEvents(ev, r.events);
    if !ok {
      return false, [], NO_HOLD;
    }
    ev := r.events;
    ok, pre, h := r.HoldRun(at, T2Pre, -1, r.cfg.PreWindow());
    NotesKeepAutoEvents(ev, r.events);
  }

  /** A run whose log holds nothing of a hand-back test yet. */
  predicate NoHandbackYet(l: Log) {
    && (forall i :: 0 <= i < |l.samples| ==> !InHandback(l.samples[i].phase))
    && AutoEvents(l.events) == []
  }

  /** The report rebuilds each of these results from the stored form of the log if and only if
    storing keeps the crossings of the decided sub-runs. */
  ghost predicate Rebuilt(t2: TestResult, t3: TestResult, ch: int, aborted: bool, smp: seq<Sample>, ev: seq<Event>) {
    && (t2 == Recomputed(T2, ch, aborted, StoredSamples(smp), StoredEvents(ev)) <==> StoredHandback.Kept(ch, smp, ev))
    && (t3 == Recomputed(T3, ch, aborted, StoredSamples(smp), StoredEvents(ev)) <==> StoredHandback.Kept(ch, smp, ev))
  }

  /** The results of the repetitions are what the report rebuilds. */
  lemma StageRebuilt(before: Log, pre: seq<Sample>, s: Stage, aborted: bool, ev: seq<Event>)
    requires s.c == ContextOf(s.c.ch, pre) && s.c.ch != PCIE_CHANNEL && Measured(s.c)
    requires NoHandbackYet(before) && Uniform(pre, T2Pre)
    requires s.from.samples == before.samples + pre && AutoEvents(s.from.events) == []
    requires AutoEvents(ev) == AutoEvents(s.to.events)
    ensures Rebuilt(TestOf(T2, s.runs, aborted), TestOf(T3, s.runs, aborted), s.c.ch, aborted, s.to.samples, ev)
  {
    assert LogOf(s.to.samples, before.samples, pre, s.recs);
    assert AutoEvents(ev) == EventsOf(Sent(s.recs));
    RebuildIsExact(T2, s.c.ch, aborted, s.to.samples, ev, before.samples, pre, s.recs);
    RebuildIsExact(T3, s.c.ch, aborted, s.to.samples, ev, before.samples, pre, s.recs);
  }

  lemma NotRunRebuilt(ch: int, before: Log, pre: seq<Sample>, smp: seq<Sample>, ev: seq<Event>, aborted: bool)
    requires ch != PCIE_CHANNEL && Uniform(pre, T2Pre)
    requires smp == before.samples + pre && AutoEvents(ev) == AutoEvents(before.events)
    requires !Measured(ContextOf(ch, pre)) || aborted
    ensures NoHandbackYet(before) ==> Rebuilt(NOT_RUN, NOT_RUN, ch, aborted, smp, ev)
  {
    if NoHandbackYet(before) {
      assert SamplesOf([]) == [];
      assert smp == before.samples + pre + SamplesOf([]);
      assert LogOf(smp, before.samples, pre, []);
      RebuildWithoutA(T2, ch, aborted, smp, ev, before.samples, pre);
      RebuildWithoutA(T3, ch, aborted, smp, ev, before.samples, pre);
    }
  }

  method LogComplete(r: Run)
    requires r.Valid()
    modifies r`events, r.env`clock
    ensures r.Valid() && AutoEvents(r.events) == AutoEvents(old(r.events))
  {
    ghost var ev := r.events;
    var t := r.EventAt(T2Complete);
    OtherKeepsAutoEvents(ev, Event(t - r.start, T2Complete));
  }

  /** The repetitions and the complete event. */
  method RepsToEnd(r: Run, c: Context) returns (runs: seq<seq<Merged>>, ghost s: Stage)
    requires r.Valid() && r.abort.None? && c.ch == r.cfg.channel && MIN_DUTY <= c.m <= MAX_DUTY
    modifies r, r.env
    ensures r.Valid() && old(r.touched) <= r.touched
    ensures s.c == c && s.runs == runs && s.from == Log(old(r.samples), old(r.events), old(r.env.trace))
    ensures s.complete == r.abort.None? && s.reps <= r.cfg.repeat && (s.complete ==> s.reps == r.cfg.repeat)
    ensures r.samples == s.to.samples && AutoEvents(r.events) == AutoEvents(s.to.events) && r.env.trace == s.to.trace
  {
    runs, s := RunReps(r, c);
    if r.abort.None? {
      LogComplete(r);
    }
  }

  /** The repetitions, their results and the restore. */
  method Repetitions(r: Run, c: Context) returns (t2: TestResult, t3: TestResult, ghost s: Stage)
    requires r.Valid() && r.abort.None? && c.ch == r.cfg.channel && MIN_DUTY <= c.m <= MAX_DUTY
    requires r.cfg.channel in r.touched
    modifies r, r.env
    ensures r.Valid()
    ensures s.c == c && s.from == Log(old(r.samples), old(r.events), old(r.env.trace))
    ensures s.complete == r.abort.None? && s.reps <= r.cfg.repeat && (s.complete ==> s.reps == r.cfg.repeat)
    ensures t2 == TestOf(T2, s.runs, r.abort.Some?) && t3 == TestOf(T3, s.runs, r.abort.Some?)
    ensures r.samples == s.to.samples && AutoEvents(r.events) == AutoEvents(s.to.events)
    ensures Tried(s.to.trace, r.env.trace, c.ch, c.ch == r.HotChannel(), c.ch !in r.touched)
  {
    var runs;
    runs, s := RepsToEnd(r, c);
    t2, t3 := FinishHandback(runs, r.abort.Some?);
    ghost var ev := r.events;
    var back := r.Restore(r.cfg.channel);
    NotesKeepAutoEvents(ev, r.events);
  }

  /** What a hand-back run leaves: results the report rebuilds, and the commands of the procedure
    followed by one try to put the channel back. `back`: whether that worked, None when the run ended
    before the first repetition, with nothing but the first automatic command. */
  datatype Outcome = Outcome(ch: int, t2: TestResult, t3: TestResult, before: Log, after: Log, mid: Trace, repeat: nat,
                             m: int, aborted: bool, hot: int, back: Option<bool>)
  {
    ghost predicate Exact() {
      && (NoHandbackYet(before) ==> Rebuilt(t2, t3, ch, aborted, after.samples, after.events))
      && MIN_DUTY <= m <= MAX_M
      && (if back.Some? then Tried(mid, after.trace, ch, ch == hot, back.value)
          else mid == after.trace && t2 == t3 == NOT_RUN && Commands(mid) <= Commands(before.trace) + [EcAuto])
      && Follows(before.trace, mid, [EcAuto] + Plan(repeat, m), !aborted && back.Some?)
      && (NoHandbackYet(before) && back.Some? ==>
          && 1 <= ch <= 3 && KnownIn(ch, PhaseSamples(after.samples, T2Pre))
          && DutyOfWindow(ch, PhaseSamples(after.samples, T2Pre), m))
    }
  }

  /** An end before the first repetition. */
  lemma EndedEarly(o: Outcome, pre: seq<Sample>, sent: bool)
    requires o.t2 == o.t3 == NOT_RUN && o.ch != PCIE_CHANNEL && Uniform(pre, T2Pre)
    requires o.after.samples == o.before.samples + pre && AutoEvents(o.after.events) == AutoEvents(o.before.events)
    requires !Measured(ContextOf(o.ch, pre)) || o.aborted
    requires o.mid == o.after.trace && o.back.None? && o.m == MIN_DUTY && Follows(o.before.trace, o.mid, [EcAuto], sent)
    ensures o.Exact()
  {
    NotRunRebuilt(o.ch, o.before, pre, o.after.samples, o.after.events, o.aborted);
    StopsHere(o.before.trace, o.mid, [EcAuto], Plan(o.repeat, o.m), sent);
  }

  lemma EndedWhole(o: Outcome, pre: seq<Sample>, s: Stage)
    requires o.ch != PCIE_CHANNEL && s.c == ContextOf(o.ch, pre) && Measured(s.c) && Uniform(pre, T2Pre)
    requires s.from.samples == o.before.samples + pre && AutoEvents(s.from.events) == AutoEvents(o.before.events)
    requires s.to.samples == o.after.samples && AutoEvents(s.to.events) == AutoEvents(o.after.events)
    requires o.t2 == TestOf(T2, s.runs, o.aborted) && o.t3 == TestOf(T3, s.runs, o.aborted)
    requires o.m == s.c.m && o.mid == s.to.trace && 1 <= o.ch <= 3
    requires o.back.Some? && Tried(o.mid, o.after.trace, o.ch, o.ch == o.hot, o.back.value)
    requires Follows(o.before.trace, s.from.trace, [EcAuto], true)
    requires s.complete == !o.aborted && s.reps <= o.repeat && (s.complete ==> s.reps == o.repeat)
    ensures o.Exact()
  {
    if NoHandbackYet(o.before) {
      assert LogOf(s.to.samples, o.before.samples, pre, s.recs);
      PreOfLog(s.to.samples, o.before.samples, pre, s.recs);
      ContextOfWindow(o.ch, pre);
      StageRebuilt(o.before, pre, s, o.aborted, o.after.events);
    }
    PlanGrows(s.reps, o.repeat, o.m);
    FollowsLonger(s.from.trace, s.to.trace, Plan(s.reps, o.m), Plan(o.repeat, o.m), s.complete);
    FollowsOn(o.before.trace, s.from.trace, s.to.trace, [EcAuto], Plan(o.repeat, o.m), s.complete);
  }

  /** The window of A was sampled, and no sample of it shows the primary register. */
  predicate UnknownA(ch: int, smp: seq<Sample>)
    requires 1 <= ch <= 4
  {
    PhaseSamples(smp, T2Pre) != [] && !KnownIn(ch, PhaseSamples(smp, T2Pre))
  }

  lemma UnknownInLog(ch: int, before: Log, smp: seq<Sample>, pre: seq<Sample>)
    requires 1 <= ch <= 3 && NoHandbackYet(before) && smp == before.samples + pre && Uniform(pre, T2Pre)
    requires pre != [] && !Measured(ContextOf(ch, pre))
    ensures UnknownA(ch, smp)
  {
    assert SamplesOf([]) == [];
    assert smp == before.samples + pre + SamplesOf([]);
    assert LogOf(smp, before.samples, pre, []);
    PreOfLog(smp, before.samples, pre, []);
    ContextOfWindow(ch, pre);
  }

  /** The test from the A window on. */
  method FromA(r: Run, c: Context, ghost pre: seq<Sample>, ghost before: Log)
    returns (t2: TestResult, t3: TestResult, ghost o: Outcome)
    requires r.Valid() && r.abort.None? && r.cfg.channel != PCIE_CHANNEL && r.cfg.channel in r.touched
    requires c == ContextOf(r.cfg.channel, pre) && Measured(c) && Uniform(pre, T2Pre)
    requires r.samples == before.samples + pre && AutoEvents(r.events) == AutoEvents(before.events)
    requires Follows(before.trace, r.env.trace, [EcAuto], true)
    modifies r, r.env
    ensures r.Valid()
    ensures o == Outcome(r.cfg.channel, t2, t3, before, Log(r.samples, r.events, r.env.trace), o.mid, r.cfg.repeat, o.m,
                         r.abort.Some?, r.HotChannel(), Some(r.cfg.channel !in r.touched))
    ensures o.Exact()
  {
    ghost var s;
    t2, t3, s := Repetitions(r, c);
    o := Outcome(c.ch, t2, t3, before, Log(r.samples, r.events, r.env.trace), s.to.trace, r.cfg.repeat, c.m,
                 r.abort.Some?, r.HotChannel(), Some(c.ch !in r.touched));
    EndedWhole(o, pre, s);
  }

  /** The whole hand-back test. The PCIe channel has no automatic of the EC, and without the
    duty registers or after an abort nothing is written. */
  method RunHandback(r: Run) returns (t2: TestResult, t3: TestResult, ghost o: Outcome)
    requires r.Valid()
    modifies r, r.env
    ensures r.Valid()
    ensures r.cfg.channel == PCIE_CHANNEL ==> t2 == t3 == NOT_APPLICABLE
    ensures r.cfg.channel == PCIE_CHANNEL || !r.dcrOK || old(r.abort).Some? ==> r.env.trace == old(r.env.trace)
    ensures o == Outcome(r.cfg.channel, t2, t3, Log(old(r.samples), old(r.events), old(r.env.trace)),
                         Log(r.samples, r.events, r.env.trace), o.mid, r.cfg.repeat, o.m, r.abort.Some?, r.HotChannel(),
                         o.back)
    ensures o.back.Some? ==> (o.back.value <==> r.cfg.channel !in r.touched)
    ensures r.cfg.channel != PCIE_CHANNEL ==> o.Exact()
    ensures r.cfg.channel != PCIE_CHANNEL && r.dcrOK && r.abort.None? && o.back.None? && NoHandbackYet(o.before) ==>
              Commands(r.env.trace) == Commands(old(r.env.trace)) + [EcAuto] && UnknownA(r.cfg.channel, r.samples)
  {
    var ch := r.cfg.channel;
    ghost var before := Log(r.samples, r.events, r.env.trace);
    if ch == PCIE_CHANNEL {
      o := Outcome(ch, NOT_APPLICABLE, NOT_APPLICABLE, before, before, before.trace, r.cfg.repeat, MIN_DUTY,
                   r.abort.Some?, r.HotChannel(), None);
      return NOT_APPLICABLE, NOT_APPLICABLE, o;
    }
    if !r.dcrOK || r.abort.Some? {
      o := Outcome(ch, NOT_RUN, NOT_RUN, before, before, before.trace, r.cfg.repeat, MIN_DUTY, r.abort.Some?,
                   r.HotChannel(), None);
      EndedEarly(o, [], false);
      return NOT_RUN, NOT_RUN, o;
    }
    ghost var h;
    var ok, pre;
    ok, pre, h := MeasureA(r);
    ghost var after := Log(r.samples, r.events, r.env.trace);
    var c := ContextOf(ch, pre);
    if !ok || c.a[0].None? {
      o := Outcome(ch, NOT_RUN, NOT_RUN, before, after, after.trace, r.cfg.repeat, MIN_DUTY, r.abort.Some?,
                   r.HotChannel(), None);
      EndedEarly(o, pre, ok);
      if ok && NoHandbackYet(before) {
        UnknownInLog(ch, before, r.samples, pre);
      }
      return NOT_RUN, NOT_RUN, o;
    }
    t2, t3, o := FromA(r, c, pre, before);
  }
}
