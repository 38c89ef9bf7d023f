/** The crash protocol of a writing run (guardian and worker in
  ectest/cmd/n5-ectest/guardian.go, the callbacks in ectest/cmd/n5-ectest/validate.go, restore and
  discard in ectest/cmd/n5-ectest/restore.go) as a state machine over its processes, the writer
  lock and the state file, which is replaced atomically.

  SIGKILL is a step that is always possible. A worker is any process that takes only the steps a
  run may take (`WorkerTrace.May`), in any order it likes. */
module Crash {
  import opened Wrappers
  import opened WorkerTrace
  import opened WriterLock

  datatype Mark = Active | Restored | Discarded

  /** The state file: its mark and the channels it names. */
  datatype StateFile = StateFile(mark: Mark, channels: set<int>)

  datatype GuardPhase =
    | Locked                                  // has the writer lock
    | Checked                                 // no unrestored run is recorded
    | Cleared                                 // the file of an earlier run is removed
    | Waiting                                 // a worker runs
    | Restoring(pending: set<int>, ok: bool)  // puts the channels of the state file back
    | Done

  datatype WorkPhase = Starting | Running | Marked

  datatype Proc =
    | Guard(phase: GuardPhase, child: Option<Pid>)
    | Restorer(phase: GuardPhase)
    | Work(wphase: WorkPhase, c: int, tr: Trace, mem: set<int>)   // mem: the channels of its state record

  /** `dirty`: the channels commanded and not put back since. `exempt`: hot channels whose hold at
    255 could not be recorded. `givenUp`: channels the operator discarded while dirty. */
  datatype State = State(lock: Kernel, procs: map<Pid, Proc>, file: Option<StateFile>,
                         dirty: set<int>, exempt: set<int>, givenUp: set<int>)
  {
    predicate Unrestored() {
      file.Some? && file.value.mark == Active
    }

    function Named(): set<int> {
      if Unrestored() then file.value.channels else {}
    }
  }

  datatype Label =
    | StartGuard(p: Pid)
    | StartRestorer(p: Pid)
    | Check(p: Pid)
    | Clear(p: Pid)
    | Spawn(p: Pid, w: Pid, c: int)
    | AdoptLock(w: Pid)
    | Take(w: Pid, e: Entry)
    | MarkRun(w: Pid, ok: bool)
    | ChildEnded(p: Pid)
    | ReadState(p: Pid)
    | RestoreOne(p: Pid, ch: int, ok: bool)
    | MarkRestored(p: Pid, ok: bool)
    | Discard(p: Pid, ok: bool)
    | Exit(p: Pid)
    | Sigkill(p: Pid)

  // ---- steps ---------------------------------------------------------------------------

  function Replaced(f: Option<StateFile>, record: StateFile, ok: bool): Option<StateFile> {
    if ok then Some(record) else f
  }

  function Without(procs: map<Pid, Proc>, p: Pid): map<Pid, Proc> {
    map q | q in procs && q != p :: procs[q]
  }

  /** The phase after reading the state file of a run that ended. */
  function AfterRead(s: State): GuardPhase {
    if s.Unrestored() then Restoring(s.file.value.channels, true) else Done
  }

  /** The channels that are dirty after an entry; the same rule as for one run (`Next`). */
  function DirtyAfter(dirty: set<int>, v: View, e: Entry): set<int> {
    match e
    case Commanded(ch, cmd, ok) => if ok && cmd == Duty(255) && ch in v.atManual then dirty - {ch} else dirty + {ch}
    case PutBack(ch, ok) => if ok then dirty - {ch} else dirty + {ch}
    case _ => dirty
  }

  /** A channel that is clean, or commanded while the state file names it, has no excuse. */
  function StillExcused(excused: set<int>, s: State, dirty: set<int>, e: Entry): set<int> {
    match e
    case Commanded(ch, _, _) => if ch in s.Named() || ch !in dirty then excused - {ch} else excused
    case PutBack(ch, _) => if ch in s.Named() || ch !in dirty then excused - {ch} else excused
    case _ => excused
  }

  predicate CanTake(s: State, w: Pid, e: Entry) {
    && w in s.procs && s.procs[w].Work? && s.procs[w].wphase == Running
    && May(s.procs[w].c, Replay(s.procs[w].tr), e)
  }

  /** A worker writes its state record, records a hot channel in it, commands a channel or puts one
    back. */
  function AfterEntry(s: State, w: Pid, e: Entry): State
    requires CanTake(s, w, e)
  {
    var pr := s.procs[w];
    var mem := if e.HotRecorded? then pr.mem + {e.ch} else pr.mem;
    var s1 := s.(procs := s.procs[w := pr.(tr := Then(pr.tr, e), mem := mem)]);
    match e
    case StateWritten(ok) => s1.(file := Replaced(s.file, StateFile(Active, mem), ok))
    case HotRecorded(ch, ok) =>
      var file := Replaced(s.file, StateFile(Active, mem), ok);
      s1.(file := file, exempt := if ch in s1.(file := file).Named() then s.exempt else s.exempt + {ch})
    case _ =>
      var dirty := DirtyAfter(s.dirty, Replay(pr.tr), e);
      s1.(dirty := dirty, exempt := StillExcused(s.exempt, s, dirty, e),
          givenUp := StillExcused(s.givenUp, s, dirty, e))
  }

  predicate Restores(s: State, p: Pid) {
    p in s.procs && !s.procs[p].Work? && s.procs[p].phase.Restoring?
  }

  function WithPhase(s: State, p: Pid, ph: GuardPhase): State
    requires p in s.procs && !s.procs[p].Work?
  {
    s.(procs := s.procs[p := s.procs[p].(phase := ph)])
  }

  /** Which steps are possible. */
  predicate Enabled(s: State, l: Label)
    requires s.lock.Valid()
  {
    match l
    case StartGuard(p) => p !in s.procs && p !in s.lock.fds && s.lock.inode !in s.lock.owner
    case StartRestorer(p) => p !in s.procs && p !in s.lock.fds && s.lock.inode !in s.lock.owner
    case Check(p) => p in s.procs && s.procs[p].Guard? && s.procs[p].phase == Locked
    case Clear(p) => p in s.procs && s.procs[p].Guard? && s.procs[p].phase == Checked
    case Spawn(p, w, c) =>
      && p in s.procs && s.procs[p].Guard? && s.procs[p].phase == Cleared
      && p in s.lock.fds && w !in s.lock.fds && w !in s.procs && 1 <= c <= 4
    case AdoptLock(w) =>
      w in s.procs && w in s.lock.fds && s.procs[w].Work? && s.procs[w].wphase == Starting && !s.Unrestored()
    case Take(w, e) => CanTake(s, w, e)
    case MarkRun(w, ok) =>
      && w in s.procs && s.procs[w].Work? && s.procs[w].wphase == Running
      && Replay(s.procs[w].tr).dirty == {}
    case ChildEnded(p) =>
      && p in s.procs && s.procs[p].Guard? && s.procs[p].phase == Waiting
      && s.procs[p].child.Some? && s.procs[p].child.value !in s.procs
    case ReadState(p) => p in s.procs && s.procs[p].Restorer? && s.procs[p].phase == Locked
    case RestoreOne(p, ch, ok) => Restores(s, p) && ch in s.procs[p].phase.pending
    case MarkRestored(p, ok) => Restores(s, p) && s.procs[p].phase.pending == {}
    case Discard(p, ok) => p in s.procs && s.procs[p].Restorer? && s.procs[p].phase == Locked && s.Unrestored()
    case Exit(p) => p in s.procs && p in s.lock.fds && (s.procs[p].Guard? ==> s.procs[p].phase != Waiting)
    case Sigkill(p) => p in s.procs && p in s.lock.fds
  }

  /** The state after a step. A guardian that finds an unrestored run ends; a state file is only
    marked restored when every channel of it was put back. */
  function After(s: State, l: Label): State
    requires s.lock.Valid() && Enabled(s, l)
  {
    match l
    case StartGuard(p) => s.(lock := Apply(s.lock, Acquire(p)), procs := s.procs[p := Guard(Locked, None)])
    case StartRestorer(p) => s.(lock := Apply(s.lock, Acquire(p)), procs := s.procs[p := Restorer(Locked)])
    case Check(p) => WithPhase(s, p, if s.Unrestored() then Done else Checked)
    case Clear(p) => WithPhase(s.(file := None), p, Cleared)
    case Spawn(p, w, c) =>
      s.(lock := Apply(s.lock, Inherit(p, w)),
         procs := s.procs[p := Guard(Waiting, Some(w))][w := Work(Starting, c, Start, {c})])
    case AdoptLock(w) => s.(lock := Apply(s.lock, Adopt(w)), procs := s.procs[w := s.procs[w].(wphase := Running)])
    case Take(w, e) => AfterEntry(s, w, e)
    case MarkRun(w, ok) =>
      s.(file := Replaced(s.file, StateFile(Mark.Restored, s.procs[w].mem), ok),
         procs := s.procs[w := s.procs[w].(wphase := Marked)])
    case ChildEnded(p) => WithPhase(s, p, AfterRead(s))
    case ReadState(p) => WithPhase(s, p, AfterRead(s))
    case RestoreOne(p, ch, ok) =>
      var ph := s.procs[p].phase;
      var s1 := WithPhase(s, p, Restoring(ph.pending - {ch}, ph.ok && ok));
      if ok then s1.(dirty := s.dirty - {ch}, exempt := s.exempt - {ch}, givenUp := s.givenUp - {ch})
      else s1.(dirty := s.dirty + {ch})
    case MarkRestored(p, ok) =>
      var s1 := WithPhase(s, p, Done);
      if s.procs[p].phase.ok
          && s.file.Some? then s1.(file := Replaced(s.file, s.file.value.(mark := Mark.Restored), ok))
      else s1
    case Discard(p, ok) =>
      var s1 := WithPhase(s, p, Done);
      if ok then s1.(file := Some(s.file.value.(mark := Discarded)),
                     givenUp := s.givenUp + s.dirty * s.file.value.channels)
      else s1
    case Exit(p) => s.(lock := Apply(s.lock, Release(p)), procs := Without(s.procs, p))
    case Sigkill(p) => s.(lock := Apply(s.lock, Kill(p)), procs := Without(s.procs, p))
  }

  // ---- runs ------------------------------------------------------------------------------

  /** Any number of steps from a machine on which no run was ever started. */
  datatype Run = Begin | Go(before: Run, step: Label)

  const FIRST := State(Kernel(0, 0, map[], map[], map[]), map[], None, {}, {}, {})

  ghost function Now(r: Run): State {
    match r
    case Begin => FIRST
    case Go(before, step) =>
      if Now(before).lock.Valid() && Enabled(Now(before), step) then After(Now(before), step) else FIRST
  }

  ghost predicate Possible(r: Run) {
    r.Go? ==> Possible(r.before) && Now(r.before).lock.Valid() && Enabled(Now(r.before), r.step)
  }

  // ---- the invariant -----------------------------------------------------------------------

  /** Every process of the protocol holds the lock. */
  ghost predicate LockInv(s: State) {
    && s.lock.Valid()
    && (forall p :: p in s.procs <==> p in s.lock.fds)
    && (forall p :: p in s.procs ==> Guards(s.lock, s.lock.fds[p].ofd))
    && (forall p :: p in s.procs && s.procs[p].Work? ==> s.lock.fds[p].adopted)
  }

  predicate IsChild(s: State, p: Pid, q: Pid) {
    p in s.procs && q in s.procs && s.procs[p] == Guard(Waiting, Some(q)) && s.procs[q].Work?
  }

  /** At most one process, or a guardian with its worker. */
  predicate Exclusive(s: State) {
    forall p, q :: p in s.procs && q in s.procs && p != q ==> IsChild(s, p, q) || IsChild(s, q, p)
  }

  predicate Accounted(s: State) {
    s.dirty <= s.Named() + s.exempt + s.givenUp
  }

  predicate Excused(s: State) {
    s.dirty <= s.exempt + s.givenUp
  }

  /** What a guardian or restorer knows in its phase. */
  predicate PhaseInv(s: State, ph: GuardPhase) {
    match ph
    case Checked => !s.Unrestored()
    case Cleared => s.file.None?
    case Restoring(pending, ok) =>
      && s.Unrestored() && pending <= s.Named()
      && (ok ==> s.dirty <= pending + s.exempt + s.givenUp)
    case _ => true
  }

  /** What a worker knows: the state file names what it touched, unless it is exempt. */
  predicate WorkInv(s: State, ph: WorkPhase, c: int, tr: Trace, mem: set<int>) {
    var v := Replay(tr);
    match ph
    case Starting => s.file.None? && tr == Start && c in mem
    case Running =>
      && c in mem
      && s.dirty <= v.dirty + s.exempt + s.givenUp
      && (v.wrote ==> s.Unrestored() && c in s.Named() && s.Named() <= mem)
      && (!v.wrote ==> v.dirty == {} && v.asked == {} && v.atManual == {} && !s.Unrestored())
      && v.dirty + v.asked + v.atManual <= s.Named() + s.exempt
    case Marked => true
  }

  predicate ProcInv(s: State, pr: Proc) {
    match pr
    case Guard(ph, child) => PhaseInv(s, ph) && (ph == Waiting ==> child.Some?)
    case Restorer(ph) => PhaseInv(s, ph) && ph != Waiting && ph != Checked && ph != Cleared
    case Work(ph, c, tr, mem) => WorkInv(s, ph, c, tr, mem)
  }

  ghost predicate Inv(s: State) {
    && LockInv(s) && Exclusive(s) && Accounted(s)
    && forall p :: p in s.procs ==> ProcInv(s, s.procs[p])
  }

  // ---- every step keeps the invariant --------------------------------------------------------

  /** A process that is neither a worker nor waits for one is the only one. */
  lemma Alone(s: State, p: Pid)
    requires Exclusive(s) && p in s.procs && !s.procs[p].Work? && s.procs[p].phase != Waiting
    ensures forall q :: q in s.procs ==> q == p
  {
  }

  lemma ChildEndedAlone(s: State, p: Pid)
    requires Exclusive(s) && p in s.procs && s.procs[p].Guard? && s.procs[p].child.Some?
             && s.procs[p].child.value !in s.procs
    ensures forall q :: q in s.procs ==> q == p
  {
  }

  /** With a process alive nobody else gets the lock, and without one everybody does. */
  lemma LockFreeExact(s: State)
    requires LockInv(s)
    ensures s.lock.inode !in s.lock.owner <==> forall p :: p !in s.procs
  {
  }

  lemma StartKeeps(s: State, l: Label)
    requires Inv(s) && (l.StartGuard? || l.StartRestorer?) && Enabled(s, l)
    ensures Inv(After(s, l))
  {
    LockFreeExact(s);
    ApplyValid(s.lock, Acquire(l.p));
    OpenValid(s.lock, l.p);
  }

  lemma SpawnKeeps(s: State, l: Label)
    requires Inv(s) && l.Spawn? && Enabled(s, l)
    ensures Inv(After(s, l))
  {
    Alone(s, l.p);
    ApplyValid(s.lock, Inherit(l.p, l.w));
  }

  /** A worker whose inherited descriptor holds the lock adopts it, and nothing else changes. */
  lemma AdoptSame(k: Kernel, p: Pid)
    requires k.Valid() && p in k.fds && Guards(k, k.fds[p].ofd)
    ensures Apply(k, Adopt(p)) == k.(fds := k.fds[p := Fd(k.fds[p].ofd, true)])
  {
  }

  lemma OtherLock(s: State, k: Kernel)
    requires Inv(s) && LockInv(s.(lock := k))
    ensures Inv(s.(lock := k))
  {
  }

  lemma AdoptKeeps(s: State, l: Label)
    requires Inv(s) && l.AdoptLock? && Enabled(s, l)
    ensures Inv(After(s, l))
  {
    var k := Apply(s.lock, Adopt(l.w));
    AdoptSame(s.lock, l.w);
    MarkedValid(s.lock, l.w);
    assert LockInv(s.(lock := k));
    OtherLock(s, k);
    AdoptedKeeps(s.(lock := k), l.w, After(s, l));
  }

  lemma AdoptedKeeps(s: State, w: Pid, s': State)
    requires Inv(s) && w in s.procs && s.procs[w].Work? && s.procs[w].wphase == Starting
    requires s' == s.(procs := s.procs[w := s.procs[w].(wphase := Running)])
    ensures Inv(s')
  {
    assert ProcInv(s, s.procs[w]);
    WorkKeeps(s, s', w);
  }

  /** When a process ends and others stay, the lock stays with them. */
  lemma LockStays(s: State, l: Label, q: Pid)
    requires Inv(s) && (l.Exit? || l.Sigkill?) && Enabled(s, l) && q in s.procs && q != l.p
    ensures Guards(After(s, l).lock, s.lock.fds[q].ofd)
  {
    var op := if l.Exit? then Release(l.p) else Kill(l.p);
    var k, o := Apply(s.lock, op), s.lock.fds[q].ofd;
    if l.Exit? {
      assert IsChild(s, l.p, q) || IsChild(s, q, l.p);
      assert s.procs[l.p].Work?;
    }
    assert k.fds[q] == s.lock.fds[q];
    assert k.Open(o);
    StepGuards(s.lock, op, o);
  }

  /** The end of a process: nothing but the lock changes. */
  lemma EndKeeps(s: State, l: Label)
    requires Inv(s) && (l.Exit? || l.Sigkill?) && Enabled(s, l)
    ensures Inv(After(s, l))
  {
    ApplyValid(s.lock, if l.Exit? then Release(l.p) else Kill(l.p));
    EndKeepsProcs(s, l);
    forall q | q in s.procs && q != l.p
      ensures Guards(After(s, l).lock, s.lock.fds[q].ofd)
    {
      LockStays(s, l, q);
    }
  }

  lemma EndKeepsProcs(s: State, l: Label)
    requires Inv(s) && (l.Exit? || l.Sigkill?) && Enabled(s, l)
    ensures var s' := After(s, l);
            && Exclusive(s') && Accounted(s')
            && (forall p :: p in s'.procs <==> p in s.procs && p != l.p)
            && (forall p :: p in s'.lock.fds <==> p in s.lock.fds && p != l.p)
            && (forall p :: p in s'.procs ==> s'.procs[p] == s.procs[p] && s'.lock.fds[p] == s.lock.fds[p])
            && (forall p :: p in s'.procs ==> ProcInv(s', s'.procs[p]))
  {
    var s' := After(s, l);
    forall p | p in s'.procs
      ensures ProcInv(s', s'.procs[p])
    {
      assert ProcInv(s, s.procs[p]);
    }
    forall p, q | p in s'.procs && q in s'.procs && p != q
      ensures IsChild(s', p, q) || IsChild(s', q, p)
    {
      assert IsChild(s, p, q) || IsChild(s, q, p);
    }
  }

  /** A step of a guardian or restorer that is alone: what it knows in its next phase follows from
    what is accounted for. */
  lemma PhaseKeeps(s: State, s': State, p: Pid)
    requires Inv(s) && p in s.procs && !s.procs[p].Work? && (forall q :: q in s.procs ==> q == p)
    requires s'.lock == s.lock && p in s'.procs && s'.procs == s.procs[p := s'.procs[p]] && !s'.procs[p].Work?
    requires ProcInv(s', s'.procs[p]) && Accounted(s')
    ensures Inv(s')
  {
  }

  lemma ReadKeeps(s: State, l: Label)
    requires Inv(s) && (l.Check? || l.Clear? || l.ChildEnded? || l.ReadState?) && Enabled(s, l)
    ensures Inv(After(s, l))
  {
    if l.ChildEnded? {
      ChildEndedAlone(s, l.p);
    } else {
      Alone(s, l.p);
    }
    PhaseKeeps(s, After(s, l), l.p);
  }

  lemma RestoreKeeps(s: State, l: Label)
    requires Inv(s) && (l.RestoreOne? || l.MarkRestored? || l.Discard?) && Enabled(s, l)
    ensures Inv(After(s, l))
  {
    Alone(s, l.p);
    PhaseKeeps(s, After(s, l), l.p);
  }

  /** A step of a worker leaves its guardian waiting. */
  lemma WorkKeeps(s: State, s': State, w: Pid)
    requires Inv(s) && w in s.procs && s.procs[w].Work?
    requires s'.lock == s.lock && w in s'.procs && s'.procs == s.procs[w := s'.procs[w]] && s'.procs[w].Work?
    requires ProcInv(s', s'.procs[w]) && Accounted(s')
    ensures Inv(s')
  {
    forall p, q | p in s'.procs && q in s'.procs && p != q
      ensures IsChild(s', p, q) || IsChild(s', q, p)
    {
      assert IsChild(s, p, q) || IsChild(s, q, p);
    }
    forall p | p in s'.procs && p != w
      ensures ProcInv(s', s'.procs[p])
    {
      assert IsChild(s, p, w) || IsChild(s, w, p);
    }
  }

  lemma RecordKeeps(s: State, w: Pid, e: Entry)
    requires Inv(s) && CanTake(s, w, e) && (e.StateWritten? || e.HotRecorded?)
    ensures Accounted(AfterEntry(s, w, e)) && ProcInv(AfterEntry(s, w, e), AfterEntry(s, w, e).procs[w])
  {
  }

  lemma SendKeeps(s: State, w: Pid, e: Entry)
    requires Inv(s) && CanTake(s, w, e) && (e.Commanded? || e.PutBack?)
    ensures Accounted(AfterEntry(s, w, e)) && ProcInv(AfterEntry(s, w, e), AfterEntry(s, w, e).procs[w])
  {
  }

  lemma TakeKeeps(s: State, l: Label)
    requires Inv(s) && l.Take? && Enabled(s, l)
    ensures Inv(After(s, l))
  {
    if l.e.StateWritten? || l.e.HotRecorded? {
      RecordKeeps(s, l.w, l.e);
    } else {
      SendKeeps(s, l.w, l.e);
    }
    WorkKeeps(s, After(s, l), l.w);
  }

  lemma MarkKeeps(s: State, l: Label)
    requires Inv(s) && l.MarkRun? && Enabled(s, l)
    ensures Inv(After(s, l))
  {
    assert ProcInv(s, s.procs[l.w]);
    WorkKeeps(s, After(s, l), l.w);
  }

  lemma StepKeeps(s: State, l: Label)
    requires Inv(s) && Enabled(s, l)
    ensures Inv(After(s, l))
  {
    match l
    case StartGuard(_) => StartKeeps(s, l);
    case StartRestorer(_) => StartKeeps(s, l);
    case Spawn(_, _, _) => SpawnKeeps(s, l);
    case AdoptLock(_) => AdoptKeeps(s, l);
    case Take(_, _) => TakeKeeps(s, l);
    case MarkRun(_, _) => MarkKeeps(s, l);
    case RestoreOne(_, _, _) => RestoreKeeps(s, l);
    case MarkRestored(_, _) => RestoreKeeps(s, l);
    case Discard(_, _) => RestoreKeeps(s, l);
    case Exit(_) => EndKeeps(s, l);
    case Sigkill(_) => EndKeeps(s, l);
    case _ => ReadKeeps(s, l);
  }

  lemma {:induction false} RunKeeps(r: Run)
    requires Possible(r)
    ensures Inv(Now(r))
  {
    if r.Go? {
      RunKeeps(r.before);
      StepKeeps(Now(r.before), r.step);
    }
  }

  // ---- the results -----------------------------------------------------------------------

  /** The step puts the channel back, or commands it while the state file names it. */
  ghost predicate Settles(s: State, l: Label, ch: int)
    requires s.lock.Valid() && Enabled(s, l)
  {
    || (l.Take? && Sends(l.e) && l.e.ch == ch && (ch in s.Named() || ch !in After(s, l).dirty))
    || (l.RestoreOne? && l.ok && l.ch == ch)
  }

  /** The hold at 255 of the channel could not be recorded while the state file did not name it, and
    the channel was not settled since. */
  ghost predicate HotUnrecorded(r: Run, ch: int)
    requires Possible(r)
  {
    && r.Go?
    && (|| (r.step.Take? && r.step.e == HotRecorded(ch, false) && ch !in Now(r.before).Named())
        || (HotUnrecorded(r.before, ch) && !Settles(Now(r.before), r.step, ch)))
  }

  /** The operator discarded a state file that named the channel while it was dirty, and the channel
    was not settled since. */
  ghost predicate WasDiscarded(r: Run, ch: int)
    requires Possible(r)
  {
    && r.Go?
    && (|| (r.step.Discard? && r.step.ok && ch in Now(r.before).Named() && ch in Now(r.before).dirty)
        || (WasDiscarded(r.before, ch) && !Settles(Now(r.before), r.step, ch)))
  }

  /** Only a failed record of a hot channel exempts it. */
  lemma ExemptExact(s: State, l: Label, ch: int)
    requires Inv(s) && Enabled(s, l)
    ensures ch in After(s, l).exempt <==>
              || (l.Take? && l.e == HotRecorded(ch, false) && ch !in s.Named())
              || (ch in s.exempt && !Settles(s, l, ch))
  {
    if l.Take? && l.e.HotRecorded? {
      assert ProcInv(s, s.procs[l.w]);
    }
  }

  /** Only a discard gives a channel up. */
  lemma GivenUpExact(s: State, l: Label, ch: int)
    requires Inv(s) && Enabled(s, l)
    ensures ch in After(s, l).givenUp <==>
              || (l.Discard? && l.ok && ch in s.Named() && ch in s.dirty)
              || (ch in s.givenUp && !Settles(s, l, ch))
  {
  }

  lemma {:induction false} ExcusesAreReal(r: Run, ch: int)
    requires Possible(r)
    ensures ch in Now(r).exempt <==> HotUnrecorded(r, ch)
    ensures ch in Now(r).givenUp <==> WasDiscarded(r, ch)
  {
    if r.Go? {
      ExcusesAreReal(r.before, ch);
      RunKeeps(r.before);
      ExemptExact(Now(r.before), r.step, ch);
      GivenUpExact(Now(r.before), r.step, ch);
    }
  }

  /** A manual channel is never forgotten: wherever guardian, worker and restorer are killed, a
    channel that was commanded and not put back is named in a state file that is still active,
    unless, since it was last settled, its hold at 255 could not be recorded or the operator
    discarded the file. */
  lemma NeverForgotten(r: Run, ch: int)
    requires Possible(r) && ch in Now(r).dirty
    ensures (Now(r).Unrestored() && ch in Now(r).file.value.channels) || HotUnrecorded(r, ch) || WasDiscarded(r, ch)
  {
    RunKeeps(r);
    ExcusesAreReal(r, ch);
  }

  /** No worker starts while a run is unrestored or another worker is alive, and no process of the
    protocol starts beside another one. */
  lemma NoNewWorker(r: Run)
    requires Possible(r) && r.Go?
    ensures r.step.Spawn? || r.step.AdoptLock? ==> !Now(r.before).Unrestored()
    ensures r.step.Spawn? ==> forall p :: p in Now(r.before).procs ==> !Now(r.before).procs[p].Work?
    ensures r.step.StartGuard? || r.step.StartRestorer? ==> forall p :: p !in Now(r.before).procs
  {
    RunKeeps(r.before);
    LockFreeExact(Now(r.before));
    if r.step.Spawn? {
      Alone(Now(r.before), r.step.p);
      assert ProcInv(Now(r.before), Now(r.before).procs[r.step.p]);
    }
  }

  /** Two processes are never at work at the same time. */
  lemma OneAtWork(r: Run, p: Pid, q: Pid)
    requires Possible(r) && p in Now(r).procs && q in Now(r).procs && p != q
    ensures IsChild(Now(r), p, q) || IsChild(Now(r), q, p)
  {
    RunKeeps(r);
  }

  /** A run of the tool is a worker of the protocol: any trace it may take is taken step by step. */
  lemma {:induction false} TraceIsTaken(r: Run, w: Pid, c: int, tr: Trace) returns (r': Run)
    requires Possible(r) && w in Now(r).procs && Now(r).procs[w].Work?
    requires Now(r).procs[w].wphase == Running && Now(r).procs[w].c == c && Now(r).procs[w].tr == Start
    requires Allowed(c, tr)
    ensures Possible(r') && w in Now(r').procs && Now(r').procs[w].Work?
    ensures Now(r').procs[w].wphase == Running && Now(r').procs[w].c == c && Now(r').procs[w].tr == tr
    decreases tr
  {
    r' := r;
    if tr.Then? {
      r' := TraceIsTaken(r, w, c, tr.before);
      RunKeeps(r');
      r' := Go(r', Take(w, tr.step));
    }
  }

  /** A guardian or restorer in phase ph, the only process. */
  ghost predicate At(r: Run, p: Pid, ph: GuardPhase) {
    && Possible(r) && Inv(Now(r))
    && p in Now(r).procs && !Now(r).procs[p].Work? && Now(r).procs[p].phase == ph
  }

  lemma StepOf(r: Run, p: Pid, ph: GuardPhase, l: Label)
    requires At(r, p, ph) && Enabled(Now(r), l)
    ensures Possible(Go(r, l)) && Inv(Now(Go(r, l))) && Now(Go(r, l)) == After(Now(r), l)
  {
    StepKeeps(Now(r), l);
  }

  /** Puts the pending channels back, one after the other. */
  lemma {:induction false} PutAllBack(r: Run, p: Pid, pending: set<int>) returns (r': Run)
    requires At(r, p, Restoring(pending, true))
    ensures At(r', p, Restoring({}, true)) && Now(r').file == Now(r).file
    decreases |pending|
  {
    if ch :| ch in pending {
      StepOf(r, p, Restoring(pending, true), RestoreOne(p, ch, true));
      var next := Go(r, RestoreOne(p, ch, true));
      assert |pending - {ch}| < |pending|;
      r' := PutAllBack(next, p, pending - {ch});
    } else {
      EmptySet(pending);
      r' := r;
    }
  }

  /** The machine is as a new run wants it: no process, nothing unrestored, no channel unaccounted
    for and the lock free. */
  ghost predicate Recovered(r: Run) {
    && Possible(r) && Inv(Now(r))
    && !Now(r).Unrestored() && Excused(Now(r))
    && (forall q :: q !in Now(r).procs)
    && Now(r).lock.inode !in Now(r).lock.owner
  }

  /** The end of a guardian or restorer that restored everything. */
  lemma RestoringEnds(r: Run, p: Pid, channels: set<int>) returns (r': Run)
    requires At(r, p, Restoring(channels, true)) && Now(r).Unrestored()
    ensures Recovered(r')
  {
    var c := PutAllBack(r, p, channels);
    StepOf(c, p, Restoring({}, true), MarkRestored(p, true));
    var d := Go(c, MarkRestored(p, true));
    Alone(Now(d), p);
    StepOf(d, p, Done, Exit(p));
    r' := Go(d, Exit(p));
    LockFreeExact(Now(r'));
  }

  lemma RestorerStarts(r: Run, p: Pid) returns (r': Run)
    requires Possible(r) && Inv(Now(r)) && Now(r).Unrestored() && forall q :: q !in Now(r).procs
    ensures At(r', p, Restoring(Now(r).file.value.channels, true)) && Now(r').file == Now(r).file
  {
    LockFreeExact(Now(r));
    StepKeeps(Now(r), StartRestorer(p));
    var a := Go(r, StartRestorer(p));
    StepOf(a, p, Locked, ReadState(p));
    r' := Go(a, ReadState(p));
  }

  /** Whatever was killed, `restore` run by hand can put everything back: with no process left, a
    run of it that fails nowhere recovers the machine. */
  lemma RestoreByHand(r: Run, p: Pid) returns (r': Run)
    requires Possible(r) && Now(r).Unrestored() && forall q :: q !in Now(r).procs
    ensures Recovered(r') && Enabled(Now(r'), StartGuard(p))
  {
    RunKeeps(r);
    var b := RestorerStarts(r, p);
    r' := RestoringEnds(b, p, Now(r).file.value.channels);
  }

  /** A guardian whose worker was killed does the same on its own: it finds the run unrestored, and
    when nothing fails it recovers the machine. */
  lemma GuardianRestores(r: Run, p: Pid) returns (r': Run)
    requires Possible(r) && p in Now(r).procs && Now(r).procs[p].Guard? && Now(r).procs[p].phase == Waiting
    requires Now(r).procs[p].child.Some? && Now(r).procs[p].child.value !in Now(r).procs && Now(r).Unrestored()
    ensures Recovered(r')
  {
    RunKeeps(r);
    StepOf(r, p, Waiting, ChildEnded(p));
    var b := Go(r, ChildEnded(p));
    r' := RestoringEnds(b, p, Now(r).file.value.channels);
  }

  /** ... in particular after a SIGKILL of a worker that its guardian waits for. */
  lemma KilledWorkerIsRestored(r: Run, p: Pid, w: Pid) returns (r': Run)
    requires Possible(r) && IsChild(Now(r), p, w) && Now(r).Unrestored()
    ensures Recovered(r')
  {
    RunKeeps(r);
    StepOf(r, p, Waiting, Sigkill(w));
    r' := GuardianRestores(Go(r, Sigkill(w)), p);
  }
}
