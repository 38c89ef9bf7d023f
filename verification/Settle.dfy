/** Waiting for the duty registers after a write (WaitDCR in ectest/internal/runner/settle.go). */
module Settle {
  import opened Wrappers
  import opened StoredTime
  import opened SpecRules
  import opened Env

  const POLL := 200 * NS_PER_MS

  function SettleTime(ch: int): (t: int)
    ensures t == if ch == 3 then 10 * NS_PER_S else NS_PER_S
  {
    SettleS(ch) * NS_PER_S
  }

  /** One read of the registers, `at` after the write. */
  datatype Read = Read(at: int, regs: Option<seq<int>>)

  /** Every register shows the wanted value; no register never does. */
  predicate Shows(d: seq<int>, regs: seq<int>, want: int)
    requires |d| == 5 && forall i :: 0 <= i < |regs| ==> 1 <= regs[i] <= 5
  {
    regs != [] && forall i :: 0 <= i < |regs| ==> d[regs[i]-1] == want
  }

  /** The read shows the wanted value in every register. */
  predicate Arrived(r: Read, regs: seq<int>, want: int)
    requires forall i :: 0 <= i < |regs| ==> 1 <= regs[i] <= 5
  {
    && r.regs.Some? && |r.regs.value| == 5 && regs != []
    && forall i :: 0 <= i < |regs| ==> r.regs.value[regs[i]-1] == want
  }

  /** The last reading that succeeded. */
  function LastGood(polls: seq<Read>): Option<seq<int>> {
    if polls == [] then None
    else if polls[|polls|-1].regs.Some? then polls[|polls|-1].regs
    else LastGood(polls[..|polls|-1])
  }

  /** The reads of a wait that went on after each of them: none before `min`, at least a poll
    apart, none of them with the wanted value or past the timeout, the first one readable. */
  ghost predicate Waiting(polls: seq<Read>, regs: seq<int>, want: int, min: int, timeout: int)
    requires forall i :: 0 <= i < |regs| ==> 1 <= regs[i] <= 5
  {
    && (forall i :: 0 <= i < |polls| ==> min <= polls[i].at < timeout && !Arrived(polls[i], regs, want))
    && (forall i :: 0 < i < |polls| ==> polls[i-1].at + POLL <= polls[i].at)
    && (polls != [] ==> polls[0].regs.Some?)
  }

  /** One more read after which the wait went on. */
  lemma WaitsOn(polls: seq<Read>, r: Read, regs: seq<int>, want: int, min: int, timeout: int)
    requires forall i :: 0 <= i < |regs| ==> 1 <= regs[i] <= 5
    requires Waiting(polls, regs, want, min, timeout)
    requires min <= r.at < timeout && !Arrived(r, regs, want)
    requires if polls == [] then r.regs.Some? else polls[|polls|-1].at + POLL <= r.at
    ensures Waiting(polls + [r], regs, want, min, timeout)
  {
  }

  datatype Settled = Settled(dcr: Option<seq<int>>, reached: bool, readable: bool)

  /** Reads from `min` after the write on, every POLL, until every register shows the wanted value,
    the timeout is past, the wait is cancelled or the first read fails. */
  method WaitDcr(env: Machine, t0: int, regs: seq<int>, want: int, min: int, timeout: int)
    returns (s: Settled, cancelled: bool, ghost polls: seq<Read>)
    requires forall i :: 0 <= i < |regs| ==> 1 <= regs[i] <= 5
    requires t0 <= env.clock && 0 <= min <= timeout
    modifies env`clock, env`heard
    ensures old(env.clock) <= env.clock
    ensures cancelled ==> Waiting(polls, regs, want, min, timeout)
    ensures !cancelled ==>
              && polls != [] && polls[|polls|-1].at >= min
              && Waiting(polls[..|polls|-1], regs, want, min, timeout)
    ensures s.reached <==> !cancelled && Arrived(polls[|polls|-1], regs, want)
    ensures !s.readable <==> !cancelled && |polls| == 1 && polls[0].regs.None?
    ensures !cancelled && !s.reached && s.readable ==> polls[|polls|-1].at >= timeout
    ensures s.dcr == LastGood(polls)
    ensures env.heard.cancels == old(env.heard).cancels + if cancelled then 1 else 0
  {
    s, cancelled, polls := Settled(None, false, true), false, [];
    ghost var last := 0;
    while true
      invariant old(env.clock) <= env.clock && t0 <= env.clock
      invariant Waiting(polls, regs, want, min, timeout)
      invariant s == Settled(LastGood(polls), false, true) && !cancelled
      invariant polls != [] ==> s.dcr.Some? && polls[|polls|-1].at + POLL <= env.clock - t0
      invariant last <= env.clock - t0
      invariant env.heard.cancels == old(env.heard).cancels
      decreases timeout - last
    {
      var now := env.Now();
      var el := now - t0;
      if el >= min {
        var d := env.Dcr();
        ghost var before := polls;
        polls := polls + [Read(el, d)];
        assert polls[..|polls|-1] == before;
        if d.Some? {
          s := s.(dcr := d);
          if Shows(d.value, regs, want) {
            s := s.(reached := true);
            return;
          }
        } else if s.dcr.None? {
          s := s.(readable := false);
          return;
        }
        if el >= timeout {
          return;
        }
        WaitsOn(before, Read(el, d), regs, want, min, timeout);
      }
      var wait := if el < min && min - el < POLL then min - el else POLL;
      var slept := env.Sleep(wait);
      if !slept {
        cancelled := true;
        return;
      }
      last := el + wait;
    }
  }
}
