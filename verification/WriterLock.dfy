/** The lock that keeps two pwm writers apart (go/n5/writerlock/writerlock_unix.go) over the rules of
  flock(2): the lock belongs to an open file description, a child inherits descriptors of it, and
  the kernel frees it when its last descriptor is closed, also by SIGKILL.

  A process holds at most one descriptor of the lock file here, as every program of the tool
  does. */
module WriterLock {
  type Pid = nat

  /** A descriptor; an adopted one is only ever closed. */
  datatype Fd = Fd(ofd: nat, adopted: bool)

  /** The lock file at the path, the open file descriptions with the file they are of, the
    descriptors of the processes, and the description that holds the lock of each file. */
  datatype Kernel = Kernel(inode: nat, next: nat, inodeOf: map<nat, nat>, fds: map<Pid, Fd>, owner: map<nat, nat>)
  {
    ghost predicate Valid() {
      && (forall o :: o in inodeOf ==> o < next && inodeOf[o] <= inode)
      && (forall p :: p in fds ==> fds[p].ofd in inodeOf)
      && (forall i :: i in owner ==> owner[i] in inodeOf && inodeOf[owner[i]] == i && Open(owner[i]))
    }

    /** Some process has a descriptor of the description. */
    predicate Open(o: nat) {
      exists p :: p in fds && fds[p].ofd == o
    }

    /** Process p has a descriptor of a description that holds the lock of its file. */
    predicate Holds(p: Pid) {
      p in fds && Locked(fds[p].ofd)
    }

    predicate Locked(o: nat) {
      o in inodeOf && inodeOf[o] in owner && owner[inodeOf[o]] == o
    }

    /** The lock file is still the one p has open. */
    predicate Verified(p: Pid) {
      p in fds && fds[p].ofd in inodeOf && inodeOf[fds[p].ofd] == inode
    }
  }

  // ---- system calls -----------------------------------------------------------------

  function OpenFile(k: Kernel, p: Pid): Kernel {
    k.(next := k.next + 1, inodeOf := k.inodeOf[k.next := k.inode], fds := k.fds[p := Fd(k.next, false)])
  }

  /** Whether flock succeeds without blocking on the descriptor of p. */
  predicate CanLock(k: Kernel, p: Pid)
    requires k.Valid() && p in k.fds
  {
    var i := k.inodeOf[k.fds[p].ofd];
    i !in k.owner || k.owner[i] == k.fds[p].ofd
  }

  function Lock(k: Kernel, p: Pid): Kernel
    requires k.Valid() && p in k.fds
  {
    k.(owner := k.owner[k.inodeOf[k.fds[p].ofd] := k.fds[p].ofd])
  }

  function Freed(k: Kernel, o: nat): Kernel {
    k.(owner := map i | i in k.owner && k.owner[i] != o :: k.owner[i])
  }

  /** LOCK_UN: frees the lock of the whole description. */
  function Unlock(k: Kernel, p: Pid): Kernel
    requires p in k.fds
  {
    Freed(k, k.fds[p].ofd)
  }

  function Close(k: Kernel, p: Pid): Kernel
    requires p in k.fds
  {
    var closed := k.(fds := map q | q in k.fds && q != p :: k.fds[q]);
    if closed.Open(k.fds[p].ofd) then closed else Freed(closed, k.fds[p].ofd)
  }

  // ---- the operations of the package ---------------------------------------------------

  datatype Op =
    | Acquire(p: Pid)
    | Inherit(p: Pid, child: Pid)
    | Adopt(p: Pid)
    | Release(p: Pid)
    | Kill(p: Pid)
    | Replace                       // the lock file is removed and created again

  predicate Enabled(k: Kernel, op: Op) {
    match op
    case Acquire(p) => p !in k.fds
    case Inherit(p, child) => p in k.fds && child !in k.fds
    case Adopt(p) => p in k.fds
    case Release(p) => p in k.fds
    case Kill(p) => p in k.fds
    case Replace => true
  }

  /** The state after an operation. A refused one changes no lock: Acquire closes its descriptor
    again, a process whose Adopt failed keeps the inherited one until it ends. */
  function Apply(k: Kernel, op: Op): Kernel
    requires k.Valid() && Enabled(k, op)
  {
    match op
    case Acquire(p) =>
      OpenValid(k, p);
      var f := OpenFile(k, p);
      if CanLock(f, p) then Lock(f, p) else Close(f, p)
    case Inherit(p, child) => k.(fds := k.fds[child := Fd(k.fds[p].ofd, true)])
    case Adopt(p) =>
      var marked := k.(fds := k.fds[p := Fd(k.fds[p].ofd, true)]);
      MarkedValid(k, p);
      if marked.Verified(p) && CanLock(marked, p) then Lock(marked, p) else marked
    case Release(p) => if k.fds[p].adopted then Close(k, p) else Close(Unlock(k, p), p)
    case Kill(p) => Close(k, p)
    case Replace => k.(inode := k.inode + 1)
  }

  lemma OpenValid(k: Kernel, p: Pid)
    requires k.Valid() && p !in k.fds
    ensures OpenFile(k, p).Valid()
  {
    var o := OpenFile(k, p);
    forall i | i in o.owner
      ensures o.Open(o.owner[i])
    {
      var q :| q in k.fds && k.fds[q].ofd == k.owner[i];
      assert o.fds[q] == k.fds[q];
    }
  }

  lemma MarkedValid(k: Kernel, p: Pid)
    requires k.Valid() && p in k.fds
    ensures k.(fds := k.fds[p := Fd(k.fds[p].ofd, true)]).Valid()
  {
    SameDescriptions(k, k.fds[p := Fd(k.fds[p].ofd, true)]);
  }

  /** Descriptors that still show every description keep the table valid. */
  lemma SameDescriptions(k: Kernel, fds: map<Pid, Fd>)
    requires k.Valid() && (forall p :: p in k.fds ==> p in fds && fds[p].ofd == k.fds[p].ofd)
    requires forall p :: p in fds ==> fds[p].ofd in k.inodeOf
    ensures k.(fds := fds).Valid()
  {
  }

  lemma CloseValid(k: Kernel, p: Pid)
    requires k.Valid() && p in k.fds
    ensures Close(k, p).Valid()
  {
    var o, c := k.fds[p].ofd, Close(k, p);
    forall i | i in c.owner
      ensures c.Open(c.owner[i])
    {
      var q :| q in k.fds && k.fds[q].ofd == k.owner[i];
      if q != p {
        assert c.fds[q] == k.fds[q];
      }
    }
  }

  lemma LockValid(k: Kernel, p: Pid)
    requires k.Valid() && p in k.fds
    ensures Lock(k, p).Valid()
  {
  }

  /** Every operation keeps the table valid. */
  lemma ApplyValid(k: Kernel, op: Op)
    requires k.Valid() && Enabled(k, op)
    ensures Apply(k, op).Valid()
  {
    match op
    case Acquire(p) =>
      OpenValid(k, p);
      LockValid(OpenFile(k, p), p);
      CloseValid(OpenFile(k, p), p);
    case Inherit(p, child) =>
      SameDescriptions(k, k.fds[child := Fd(k.fds[p].ofd, true)]);
    case Adopt(p) =>
      MarkedValid(k, p);
      LockValid(k.(fds := k.fds[p := Fd(k.fds[p].ofd, true)]), p);
    case Release(p) =>
      UnlockValid(k, p);
      CloseValid(k, p);
      CloseValid(Unlock(k, p), p);
    case Kill(p) =>
      CloseValid(k, p);
    case Replace =>
      SameDescriptions(k, k.fds);
      forall i | i in k.owner
        ensures Apply(k, op).Open(k.owner[i])
      {
        var q :| q in k.fds && k.fds[q].ofd == k.owner[i];
        assert Apply(k, op).fds[q] == k.fds[q];
      }
  }

  lemma UnlockValid(k: Kernel, p: Pid)
    requires k.Valid() && p in k.fds
    ensures Unlock(k, p).Valid()
  {
  }

  // ---- what the operations give ------------------------------------------------------------

  /** Acquire succeeds exactly when the lock of the file at the path is free. */
  lemma AcquireExact(k: Kernel, p: Pid)
    requires k.Valid() && p !in k.fds
    ensures p in Apply(k, Acquire(p)).fds <==> k.inode !in k.owner
    ensures k.inode !in k.owner ==> Apply(k, Acquire(p)).Holds(p) && Apply(k, Acquire(p)).Verified(p)
  {
  }

  /** Releasing a descriptor of the lock frees it exactly when the lock was not adopted or no other
    descriptor is left: an adopted one never unlocks the parent, the parent's own release unlocks a
    child that still has it. */
  lemma ReleaseExact(k: Kernel, p: Pid)
    requires k.Valid() && k.Holds(p)
    ensures var o := k.fds[p].ofd;
            !Apply(k, Release(p)).Locked(o) <==>
              !k.fds[p].adopted || forall q :: q in k.fds && q != p ==> k.fds[q].ofd != o
  {
    var o, r := k.fds[p].ofd, Apply(k, Release(p));
    if k.fds[p].adopted {
      var closed := k.(fds := map q | q in k.fds && q != p :: k.fds[q]);
      if q :| q in k.fds && q != p && k.fds[q].ofd == o {
        assert closed.fds[q].ofd == o;
        assert closed.Open(o);
      } else {
        assert !closed.Open(o);
      }
    }
  }

  /** Description o holds the lock of the file at the path. */
  predicate Guards(k: Kernel, o: nat) {
    k.inode in k.owner && k.owner[k.inode] == o
  }

  /** The step keeps the discipline of the guardian: it does not replace the file, and the process
    that acquired the lock gives it up only when no other descriptor is left. */
  predicate Disciplined(k: Kernel, op: Op, o: nat) {
    && !op.Replace?
    && (op.Release? && op.p in k.fds && k.fds[op.p].ofd == o && !k.fds[op.p].adopted ==>
          forall q :: q in k.fds && q != op.p ==> k.fds[q].ofd != o)
  }

  lemma StepGuards(k: Kernel, op: Op, o: nat)
    requires k.Valid() && Enabled(k, op) && Guards(k, o) && Disciplined(k, op, o)
    ensures var k' := Apply(k, op); k'.Open(o) ==> Guards(k', o)
  {
  }

  /** A sequence of operations that can be taken one after the other. */
  ghost predicate CanRun(k: Kernel, ops: seq<Op>)
    decreases |ops|
  {
    k.Valid() && (ops == [] || (Enabled(k, ops[0]) && Apply(k, ops[0]).Valid() && CanRun(Apply(k, ops[0]), ops[1..])))
  }

  ghost function After(k: Kernel, ops: seq<Op>): Kernel
    requires CanRun(k, ops)
    decreases |ops|
  {
    if ops == [] then k else After(Apply(k, ops[0]), ops[1..])
  }

  /** All steps keep the discipline, and after each of them some process still has description o. */
  ghost predicate KeptOpen(k: Kernel, ops: seq<Op>, o: nat)
    requires CanRun(k, ops)
    decreases |ops|
  {
    ops == [] || (Disciplined(k, ops[0], o) && Apply(k, ops[0]).Open(o) && KeptOpen(Apply(k, ops[0]), ops[1..], o))
  }

  /** From the acquisition until the last descriptor is closed, by release or by SIGKILL and in any
    order, no other process acquires the lock. */
  lemma {:induction false} NobodyElseAcquires(k: Kernel, ops: seq<Op>, o: nat, p: Pid)
    requires CanRun(k, ops) && Guards(k, o) && KeptOpen(k, ops, o)
    ensures Guards(After(k, ops), o)
    ensures p !in After(k, ops).fds && After(k, ops).Valid() ==> p !in Apply(After(k, ops), Acquire(p)).fds
    decreases |ops|
  {
    if ops == [] {
      if p !in k.fds {
        AcquireExact(k, p);
      }
    } else {
      StepGuards(k, ops[0], o);
      NobodyElseAcquires(Apply(k, ops[0]), ops[1..], o, p);
    }
  }

  // ---- exactly what lets somebody else in ------------------------------------------------------

  /** While some process still has description o, the guard of o ends with exactly the steps that
    break the discipline: the release of an acquired descriptor, or a replaced lock file. */
  lemma StepGuardsExact(k: Kernel, op: Op, o: nat)
    requires k.Valid() && Enabled(k, op) && Guards(k, o) && Apply(k, op).Open(o)
    ensures Guards(Apply(k, op), o) <==> Disciplined(k, op, o)
    ensures !Disciplined(k, op, o) ==> Apply(k, op).inode !in Apply(k, op).owner
  {
    if Disciplined(k, op, o) {
      StepGuards(k, op, o);
    } else if op.Release? {
      UnlockedIsFree(k, op.p, o);
    }
  }

  lemma UnlockedIsFree(k: Kernel, p: Pid, o: nat)
    requires k.Valid() && p in k.fds && Guards(k, o) && k.fds[p].ofd == o && !k.fds[p].adopted
    ensures k.inode !in Apply(k, Release(p)).owner
  {
  }

  /** Description o stays open after every step. */
  ghost predicate StaysOpen(k: Kernel, ops: seq<Op>, o: nat)
    requires CanRun(k, ops)
    decreases |ops|
  {
    ops == [] || (Apply(k, ops[0]).Open(o) && StaysOpen(Apply(k, ops[0]), ops[1..], o))
  }

  ghost predicate AllDisciplined(k: Kernel, ops: seq<Op>, o: nat)
    requires CanRun(k, ops)
    decreases |ops|
  {
    ops == [] || (Disciplined(k, ops[0], o) && AllDisciplined(Apply(k, ops[0]), ops[1..], o))
  }

  /** At no point of the run an Acquire of a new process would succeed. */
  ghost predicate NobodyCanAcquire(k: Kernel, ops: seq<Op>)
    requires CanRun(k, ops)
    decreases |ops|
  {
    && (forall p :: p !in k.fds ==> p !in Apply(k, Acquire(p)).fds)
    && (ops == [] || NobodyCanAcquire(Apply(k, ops[0]), ops[1..]))
  }

  lemma NewProcess(k: Kernel) returns (p: Pid)
    ensures p !in k.fds
  {
    p := Above(k.fds.Keys);
  }

  /** A number above all members of a set. */
  ghost function Above(s: set<nat>): (p: nat)
    ensures forall x :: x in s ==> x < p
  {
    if m :| m in s then
      var p := Above(s - {m});
      assert forall x :: x in s && x != m ==> x in s - {m};
      if p <= m then m + 1 else p
    else 0
  }

  lemma FreeExact(k: Kernel)
    requires k.Valid()
    ensures (forall p :: p !in k.fds ==> p !in Apply(k, Acquire(p)).fds) <==> k.inode in k.owner
  {
    forall p | p !in k.fds
      ensures p in Apply(k, Acquire(p)).fds <==> k.inode !in k.owner
    {
      AcquireExact(k, p);
    }
    var p := NewProcess(k);
    AcquireExact(k, p);
  }

  /** From the acquisition on, and as long as some process has the description: nobody can acquire
    the lock at any point of the run if and only if no process that acquired it gave it up beside an
    open descriptor and the lock file was not replaced. */
  lemma {:induction false} LastsExactly(k: Kernel, ops: seq<Op>, o: nat)
    requires CanRun(k, ops) && Guards(k, o) && StaysOpen(k, ops, o)
    ensures NobodyCanAcquire(k, ops) <==> AllDisciplined(k, ops, o)
    decreases |ops|
  {
    FreeExact(k);
    if ops != [] {
      StepGuardsExact(k, ops[0], o);
      FreeExact(Apply(k, ops[0]));
      if Disciplined(k, ops[0], o) {
        LastsExactly(Apply(k, ops[0]), ops[1..], o);
      }
    }
  }

  /** Two processes with the lock of different descriptions are never both verified: whoever holds
    an outdated lock file finds out. */
  lemma VerifiedHoldersShare(k: Kernel, p: Pid, q: Pid)
    requires k.Holds(p) && k.Holds(q) && k.Verified(p) && k.Verified(q)
    ensures k.fds[p].ofd == k.fds[q].ofd
  {
  }

  /** ... and after the file was replaced there can be two holders, so the check is needed. */
  lemma ReplacedLockIsShared(k: Kernel, p: Pid, q: Pid)
    requires k.Valid() && k.Holds(p) && k.Verified(p) && q !in k.fds
    ensures Apply(k, Replace).Valid() && q !in Apply(k, Replace).fds
    ensures var both := Apply(Apply(k, Replace), Acquire(q)); both.Holds(p) && both.Holds(q) && !both.Verified(p)
  {
  }

  // ---- the package as methods ------------------------------------------------------------

  /** The operations as the package performs them, one system call after the other. */
  class System {
    var k: Kernel

    constructor ()
      ensures k == Kernel(0, 0, map[], map[], map[])
    {
      k := Kernel(0, 0, map[], map[], map[]);
    }

    method AcquireLock(p: Pid) returns (ok: bool)
      requires k.Valid() && p !in k.fds
      modifies this
      ensures k.Valid() && k == Apply(old(k), Acquire(p))
      ensures ok <==> old(k).inode !in old(k).owner
      ensures ok <==> p in k.fds
    {
      ApplyValid(k, Acquire(p));
      AcquireExact(k, p);
      OpenValid(k, p);
      k := OpenFile(k, p);
      if !CanLock(k, p) {
        k := Close(k, p);
        return false;
      }
      k := Lock(k, p);
      return true;
    }

    method AdoptLock(p: Pid) returns (ok: bool)
      requires k.Valid() && p in k.fds
      modifies this
      ensures k.Valid() && k == Apply(old(k), Adopt(p))
      ensures ok ==> k.Holds(p) && k.Verified(p) && k.fds[p].adopted
    {
      ApplyValid(k, Adopt(p));
      MarkedValid(k, p);
      k := k.(fds := k.fds[p := Fd(k.fds[p].ofd, true)]);
      if !k.Verified(p) || !CanLock(k, p) {
        return false;
      }
      k := Lock(k, p);
      return true;
    }

    /** An adopted lock is only closed. */
    method ReleaseLock(p: Pid)
      requires k.Valid()
      modifies this
      ensures k.Valid()
      ensures k == if p in old(k).fds then Apply(old(k), Release(p)) else old(k)
    {
      if p !in k.fds {
        return;
      }
      ApplyValid(k, Release(p));
      if !k.fds[p].adopted {
        k := Unlock(k, p);
      }
      k := Close(k, p);
    }
  }
}
