/** Commands in the order of a procedure, and the two steps every test takes: a command, and a
  write whose failure ends the run (RunT1 and RunHandback in ectest/internal/runner/runner.go). */
module Procedure {
  import opened Wrappers
  import opened RunLog
  import opened SpecRules
  import opened WorkerTrace
  import opened Runner

  /** What a test adds to: the samples, the events and the trace of a run. */
  datatype Log = Log(samples: seq<Sample>, events: seq<Event>, trace: Trace)

  /** The commands sent since `before` are the beginning of the plan, all of it when done. */
  ghost predicate Follows(before: Trace, now: Trace, plan: seq<Cmd>, done: bool) {
    && Commands(before) <= Commands(now)
    && Commands(now)[|Commands(before)|..] <= plan
    && (done ==> Commands(now) == Commands(before) + plan)
  }

  lemma OneFollows(tr: Trace, tr': Trace, wrote: bool, wrote': bool, ch: int, cmd: Cmd, ok: bool)
    requires SentOne(tr, tr', wrote, wrote', ch, cmd, ok)
    ensures Follows(tr, tr', [cmd], ok)
  {
  }

  lemma FollowsOn(a: Trace, b: Trace, c: Trace, p: seq<Cmd>, q: seq<Cmd>, done: bool)
    requires Follows(a, b, p, true) && Follows(b, c, q, done)
    ensures Follows(a, c, p + q, done)
  {
    var rest := Commands(c)[|Commands(b)|..];
    assert Commands(c) == Commands(a) + (p + rest);
    assert p + rest <= p + q;
  }

  lemma StopsHere(a: Trace, b: Trace, p: seq<Cmd>, q: seq<Cmd>, done: bool)
    requires Follows(a, b, p, done)
    ensures Follows(a, b, p + q, false)
  {
  }

  lemma FollowsLonger(a: Trace, b: Trace, p: seq<Cmd>, q: seq<Cmd>, done: bool)
    requires Follows(a, b, p, done) && p <= q && (done ==> p == q)
    ensures Follows(a, b, q, done)
  {
  }

  lemma Associative<T>(a: seq<T>, b: seq<T>, c: seq<T>)
    ensures (a + b) + c == a + (b + c)
  {
  }

  /** Manual mode or the automatic command; a failure ends the run. */
  method ModeOrFail(r: Run, cmd: Cmd) returns (ok: bool, at: int)
    requires r.Valid() && r.abort.None? && (cmd == Manual || cmd == EcAuto)
    modifies r`wrote, r`touched, r`abort, r`events, r.env
    ensures r.Valid()
    ensures ok <==> r.abort.None?
    ensures OnlyNotes(old(r.events), r.events)
    ensures Follows(old(r.env.trace), r.env.trace, [cmd], ok)
    ensures old(r.touched) <= r.touched && (ok ==> r.cfg.channel in r.touched && old(r.env.clock) <= at <= r.env.clock)
  {
    ok, at := r.SendMode(r.cfg.channel, cmd);
    OneFollows(old(r.env.trace), r.env.trace, old(r.wrote), r.wrote, r.cfg.channel, cmd, ok);
    if !ok {
      r.Stop(CommandFailed);
    }
  }

  /** Writes a duty and leaves its event as the last one; a failure ends the run. */
  method WriteOrFail(r: Run, duty: int) returns (ok: bool, at: int)
    requires r.Valid() && r.abort.None? && MIN_DUTY <= duty <= MAX_DUTY
    modifies r`wrote, r`touched, r`abort, r`events, r.env
    ensures r.Valid()
    ensures ok <==> r.abort.None?
    ensures ok ==>
              && r.start <= at <= r.env.clock
              && r.events == old(r.events) + [Event(at - r.start, Wrote(r.cfg.channel, duty))]
    ensures !ok ==> OnlyNotes(old(r.events), r.events)
    ensures Follows(old(r.env.trace), r.env.trace, [Duty(duty)], ok)
    ensures old(r.touched) <= r.touched && (ok ==> r.cfg.channel in r.touched)
  {
    ok, at := r.Write(r.cfg.channel, duty);
    OneFollows(old(r.env.trace), r.env.trace, old(r.wrote), r.wrote, r.cfg.channel, Duty(duty), ok);
    if !ok {
      r.Stop(CommandFailed);
    }
  }
}
