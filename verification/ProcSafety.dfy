/** What every step of the process protocol keeps: who holds which spin lock, who runs where,
    and what state each process is in.
 */
module ProcSafety {
  import opened Prelude
  import opened ProcMachine

  /** Return addresses make sense: what a routine returns to holds the locks it should. */
  ghost predicate Ok(pc: Pc, me: nat)
  {
    match pc
    case Crit(_, k) => Plainly(k, me) && Ok(k, me)
    case Yield0(k) => Plainly(k, me) && Ok(k, me)
    case Yield1(k) => Plainly(k, me) && Ok(k, me)
    case Yield2(k) => Plainly(k, me) && Ok(k, me)
    case Sched(k) => (k.Yield2? || k.Awake1? || k.Dead?) && Ok(k, me)
    case Off(k) => (k.Yield2? || k.Awake1? || k.Dead? || k.ForkRet?) && Ok(k, me)
    case Sleep0(ch, k) => Sleeper(ch, k, me) && Held(k, me) == {LockOf(ch)} && Ok(k, me)
    case Sleep1(ch, k) => Sleeper(ch, k, me) && Held(k, me) == {LockOf(ch)} && Ok(k, me)
    case Sleep2(ch, k) => Sleeper(ch, k, me) && Held(k, me) == {LockOf(ch)} && Ok(k, me)
    case Awake1(ch, k) => Sleeper(ch, k, me) && Held(k, me) == {LockOf(ch)} && Ok(k, me)
    case Awake2(ch, k) => Sleeper(ch, k, me) && Held(k, me) == {LockOf(ch)} && Ok(k, me)
    case Awake3(ch, k) => Sleeper(ch, k, me) && Held(k, me) == {LockOf(ch)} && Ok(k, me)
    case Wake(_, ch, k) => Caller(k) && Held(k, me) == {LockOf(ch)} && Ok(k, me)
    case WakeGot(j, ch, k) => j < NPROC && j != me && Caller(k) && Held(k, me) == {LockOf(ch)} && Ok(k, me)
    case WakeRel(j, ch, k) => j < NPROC && j != me && Caller(k) && Held(k, me) == {LockOf(ch)} && Ok(k, me)
    case _ => true
  }

  /** Interruptible: no lock held, and not switched away. */
  ghost predicate Plainly(k: Pc, me: nat)
  {
    Held(k, me) == {} && !k.Off?
  }

  /** Where sleep is called from. */
  ghost predicate Sleeper(ch: Chan, k: Pc, me: nat)
  {
    k.Crit? || (k == WaitScan(0, false) && ch == OfProc(me)) || (k.Acq1? && ch == OfSleepLock(k.l))
  }

  /** Where wakeup is called from. */
  ghost predicate Caller(k: Pc)
  {
    k.Crit? || k.Reparent? || k.ExitLock? || k.Rel2?
  }

  /** What a move does to the set of locks held. */
  ghost predicate Balanced(pc: Pc, me: nat, m: Move)
  {
    match m.op
    case Acquire(l) => l !in Held(pc, me) && Held(m.next, me) == Held(pc, me) + {l}
    case Release(l) => l in Held(pc, me) && Held(m.next, me) == Held(pc, me) - {l}
    case SwitchIn(j) => pc == Ready(j) && m.next == Back(j)
    case SwitchOut => pc.Sched? && m.next == Off(pc.k)
    case _ => Held(m.next, me) == Held(pc, me)
  }

  lemma WakeBalanced(s: State, me: nat, pc: Pc, m: Move)
    requires Shape(s) && Ok(pc, me) && (pc.Wake? || pc.WakeGot? || pc.WakeRel?)
    requires Some(m) == if pc.Wake? then WakeStep(s, me, pc.j, pc.ch, pc.k)
             else if pc.WakeGot? then WakeTest(s, pc.j, pc.ch, pc.k)
                        else Some(Move(Release(PLock(pc.j)), Wake(pc.j + 1, pc.ch, pc.k)))
    ensures Balanced(pc, me, m) && Ok(m.next, me)
  {
  }

  lemma SchedulerBalanced(s: State, pc: Pc, m: Move)
    requires Shape(s) && Ok(pc, NPROC) && Scheduler(s, pc) == Some(m)
    ensures Balanced(pc, NPROC, m) && (!m.op.SwitchIn? ==> Ok(m.next, NPROC))
  {
    if pc.Wake? || pc.WakeGot? || pc.WakeRel? {
      WakeBalanced(s, NPROC, pc, m);
    }
  }

  lemma ForkBalanced(s: State, me: nat, pc: Pc, m: Move)
    requires Shape(s) && me < NPROC && Ok(pc, me) && ForkCode(s, me, pc) == Some(m)
    ensures Balanced(pc, me, m) && Ok(m.next, me)
  {
  }

  lemma ExitBalanced(s: State, me: nat, pc: Pc, m: Move)
    requires Shape(s) && me < NPROC && Ok(pc, me) && ExitCode(s, me, pc) == Some(m)
    ensures Balanced(pc, me, m) && Ok(m.next, me)
  {
  }

  lemma WaitBalanced(s: State, me: nat, pc: Pc, m: Move)
    requires Shape(s) && me < NPROC && Ok(pc, me) && WaitCode(s, me, pc) == Some(m)
    ensures Balanced(pc, me, m) && Ok(m.next, me)
  {
  }

  lemma SleepLockBalanced(s: State, me: nat, pc: Pc, m: Move)
    requires Shape(s) && Ok(pc, me) && SleepLockCode(s, pc) == Some(m)
    ensures Balanced(pc, me, m) && Ok(m.next, me)
  {
  }

  /** yield, sleep, kill and forkret. */
  lemma PlainBalanced(s: State, me: nat, pc: Pc, m: Move)
    requires Shape(s) && me < NPROC && Ok(pc, me) && Routine(s, me, pc) == Some(m)
    requires || pc.Yield0? || pc.Yield1? || pc.Yield2? || pc.Sched? || pc.ForkRet? || pc.Sleep0? || pc.Sleep1?
             || pc.Sleep2?
             || pc.Awake1? || pc.Awake2? || pc.Awake3? || pc.Kill? || pc.KillGot? || pc.KillSet? || pc.KillRel?
    ensures Balanced(pc, me, m) && Ok(m.next, me)
  {
    hide ForkCode, ExitCode, WaitCode, SleepLockCode, WakeStep, WakeTest;
  }

  lemma RoutineBalanced(s: State, me: nat, pc: Pc, m: Move)
    requires Shape(s) && me < NPROC && Ok(pc, me) && Routine(s, me, pc) == Some(m)
    ensures Balanced(pc, me, m) && Ok(m.next, me)
  {
    hide ForkCode, ExitCode, WaitCode, SleepLockCode, WakeStep, WakeTest, Held, Ok, Balanced;
    if pc.Wake? || pc.WakeGot? || pc.WakeRel? {
      WakeBalanced(s, me, pc, m);
    } else if ForkCode(s, me, pc) == Some(m) {
      ForkBalanced(s, me, pc, m);
    } else if SleepLockCode(s, pc) == Some(m) {
      SleepLockBalanced(s, me, pc, m);
    } else if ExitCode(s, me, pc) == Some(m) {
      ExitBalanced(s, me, pc, m);
    } else if WaitCode(s, me, pc) == Some(m) {
      WaitBalanced(s, me, pc, m);
    } else {
      PlainBalanced(s, me, pc, m);
    }
  }

  lemma SyscallBalanced(s: State, me: nat, a: Choice, m: Move)
    requires Shape(s) && Ok(Run, me) && Syscall(s, me, a) == Some(m)
    ensures Balanced(Run, me, m) && (!m.op.SwitchIn? ==> Ok(m.next, me))
  {
  }

  lemma CodeBalanced(s: State, c: nat, a: Choice, m: Move)
    requires Shape(s) && c < NCPU && Ok(Top(s, c), Who(s, c)) && !Top(s, c).Off? && Code(s, c, a) == Some(m)
    ensures Balanced(Top(s, c), Who(s, c), m) && (!m.op.SwitchIn? ==> Ok(m.next, Who(s, c)))
  {
    hide Routine, Scheduler, Syscall;
    var me, pc := Who(s, c), Top(s, c);
    if pc == Run && Syscall(s, me, a) == Some(m) {
      SyscallBalanced(s, me, a, m);
    }
    if Straight(s, me, pc) == Some(m) {
      if me < NPROC {
        RoutineBalanced(s, me, pc, m);
      } else {
        SchedulerBalanced(s, pc, m);
      }
    }
  }

  // ---------------------------------------------------------------- who writes what, where

  /** The state a process is in while its thread is on a CPU at pc. */
  function StateAt(pc: Pc): St
  {
    if pc.Sched? then
      if pc.k.Yield2? then RUNNABLE else if pc.k.Awake1? then SLEEPING else ZOMBIE
    else if pc.ExitRel? then ZOMBIE
    else RUNNING
  }

  /** What the thread was doing before it was interrupted, put to sleep or called wakeup. */
  function Base(pc: Pc): Pc
  {
    match pc
    case Crit(_, k) => Base(k)
    case Yield0(k) => Base(k)
    case Yield1(k) => Base(k)
    case Yield2(k) => Base(k)
    case Sched(k) => Base(k)
    case Off(k) => Base(k)
    case Sleep0(_, k) => Base(k)
    case Sleep1(_, k) => Base(k)
    case Sleep2(_, k) => Base(k)
    case Awake1(_, k) => Base(k)
    case Awake2(_, k) => Base(k)
    case Awake3(_, k) => Base(k)
    case Wake(_, _, k) => Base(k)
    case WakeGot(_, _, k) => Base(k)
    case WakeRel(_, _, k) => Base(k)
    case _ => pc
  }

  /** The slot a thread in fork is setting up. */
  function Making(pc: Pc): Option<nat>
  {
    var b := Base(pc);
    if b.ForkNew? || b.ForkWait? || b.ForkParent? || b.ForkUnwait? || b.ForkLock? || b.ForkSet? then Some(b.j) else None
  }

  /** The places where each kind of write happens. */
  ghost predicate Duty(s: State, me: nat, pc: Pc, m: Move)
    requires Shape(s)
  {
    match m.op
    case SetState(i, st) =>
      i < NPROC && PLock(i) in Held(pc, me) &&
      ( || (i == me && pc.Yield1? && st == RUNNABLE && m.next == Sched(Yield2(pc.k)))
        || (i == me && pc == ExitSet && st == ZOMBIE && m.next == ExitRel)
        || (s.procs[i].st == SLEEPING && st == RUNNABLE && StateAt(pc) == StateAt(m.next)
            && Making(pc) == Making(m.next)
            && (pc.WakeGot? || pc.KillSet?)
            && (pc.WakeGot? ==> m.next == WakeRel(pc.j, pc.ch, pc.k))
            && (pc.KillSet? ==> m.next.KillRel?))
        || (pc == Got(i) && me == NPROC && s.procs[i].st == RUNNABLE && st == RUNNING && m.next == Chosen(i))
        || (pc == ForkSet(i) && me < NPROC && st == RUNNABLE && m.next == ForkRel(i)))
    case GoToSleep(i, ch) => i == me < NPROC && pc.Sleep2? && ch == pc.ch && m.next == Sched(Awake1(ch, pc.k))
    case ClearChan(i) => i == me < NPROC && pc.Awake1? && m.next == Awake2(pc.ch, pc.k)
    case SetKilled(i) => i < NPROC && PLock(i) in Held(pc, me) && pc.KillGot? && m.next.KillSet? && m.next.j == i
    case SetParent(i, p) => || (pc == ForkParent(i) && p == me < NPROC && m.next == ForkUnwait(i))
                            || (pc == Reparent(i) && me < NPROC && i < NPROC && s.procs[i].parent == Some(me)
                                && p == INIT
                                && m.next == Wake(0, OfProc(INIT), Reparent(i + 1)))
    case Alloc(i) => me < NPROC && i < NPROC && pc == ForkGot(i) && s.procs[i].st == UNUSED && m.next == ForkNew(i)
    case FreeProc(i, reap) => if reap
                              then me < NPROC && i < NPROC && pc == WaitGot(i) && s.procs[i].st == ZOMBIE
                                && m.next == WaitFreed(i)
                              else me < NPROC && pc == ForkNew(i) && m.next == ForkFail(i)
    case LockSleep(l) => pc == Acq2(l) && m.next == Acq3(l)
    case UnlockSleep(l) => pc == Rel1(l) && m.next == Wake(0, OfSleepLock(l), Rel2(l))
    case SetProc(v) => me == NPROC
                       && ((pc.Chosen? && v == Some(pc.j) && m.next == Ready(pc.j))
                           || (pc.Back? && v == None && m.next == Drop(pc.j)))
    case SwitchOut => me < NPROC && pc.Sched? && m.next == Off(pc.k)
    case SwitchIn(j) => me == NPROC && pc == Ready(j) && m.next == Back(j)
    case _ => StateAt(pc) == StateAt(m.next) && Making(pc) == Making(m.next) && !m.next.Chosen? && !m.next.Ready?
              && !m.next.Back? && !m.next.Off?
              && !m.next.Dead?
              && !pc.Sched? && (m.next.Sched? ==> m.next.k.Dead?) && !pc.Chosen? && !pc.Ready? && !pc.Back?
  }

  lemma WakeDuty(s: State, me: nat, pc: Pc, m: Move)
    requires Shape(s) && Ok(pc, me) && (pc.Wake? || pc.WakeGot? || pc.WakeRel?)
    requires Some(m) == if pc.Wake? then WakeStep(s, me, pc.j, pc.ch, pc.k)
             else if pc.WakeGot? then WakeTest(s, pc.j, pc.ch, pc.k)
                        else Some(Move(Release(PLock(pc.j)), Wake(pc.j + 1, pc.ch, pc.k)))
    ensures Duty(s, me, pc, m)
  {
  }

  lemma SchedulerDuty(s: State, pc: Pc, m: Move)
    requires Shape(s) && Ok(pc, NPROC) && Scheduler(s, pc) == Some(m)
    ensures Duty(s, NPROC, pc, m)
  {
    hide Duty, WakeStep, WakeTest;
    if pc.Wake? || pc.WakeGot? || pc.WakeRel? {
      WakeDuty(s, NPROC, pc, m);
    } else {
      PlainSchedulerDuty(s, pc, m);
    }
  }

  lemma PlainSchedulerDuty(s: State, pc: Pc, m: Move)
    requires Shape(s) && Scheduler(s, pc) == Some(m) && !pc.Wake? && !pc.WakeGot? && !pc.WakeRel?
    ensures Duty(s, NPROC, pc, m)
  {
  }

  lemma ForkDuty(s: State, me: nat, pc: Pc, m: Move)
    requires Shape(s) && me < NPROC && ForkCode(s, me, pc) == Some(m)
    requires pc.ForkSet? ==> pc.j < NPROC
    ensures Duty(s, me, pc, m)
  {
  }

  lemma ExitDuty(s: State, me: nat, pc: Pc, m: Move)
    requires Shape(s) && me < NPROC && ExitCode(s, me, pc) == Some(m)
    ensures Duty(s, me, pc, m)
  {
    assert Base(ExitLock) == ExitLock;
  }

  lemma WaitDuty(s: State, me: nat, pc: Pc, m: Move)
    requires Shape(s) && me < NPROC && WaitCode(s, me, pc) == Some(m)
    ensures Duty(s, me, pc, m)
  {
    assert Base(WaitScan(0, false)) == WaitScan(0, false);
  }

  lemma SleepLockDuty(s: State, me: nat, pc: Pc, m: Move)
    requires Shape(s) && SleepLockCode(s, pc) == Some(m)
    ensures Duty(s, me, pc, m)
  {
  }

  lemma YieldDuty(s: State, me: nat, pc: Pc, m: Move)
    requires Shape(s) && me < NPROC && Ok(pc, me) && Routine(s, me, pc) == Some(m)
    requires pc.Yield0? || pc.Yield1? || pc.Yield2? || pc.Sched? || pc.ForkRet?
    ensures Duty(s, me, pc, m)
  {
    hide ForkCode, ExitCode, WaitCode, SleepLockCode, WakeStep, WakeTest;
  }

  lemma SleepDuty(s: State, me: nat, pc: Pc, m: Move)
    requires Shape(s) && me < NPROC && Ok(pc, me) && Routine(s, me, pc) == Some(m)
    requires pc.Sleep0? || pc.Sleep1? || pc.Sleep2? || pc.Awake1? || pc.Awake2? || pc.Awake3?
    ensures Duty(s, me, pc, m)
  {
    hide ForkCode, ExitCode, WaitCode, SleepLockCode, WakeStep, WakeTest;
    if pc.Awake3? {
      LockOfHolder(pc.ch, pc.k, me);
    }
  }

  /** A routine that holds just the lock of a channel is not in sched. */
  lemma LockOfHolder(ch: Chan, k: Pc, me: nat)
    requires Held(k, me) == {LockOf(ch)}
    ensures !k.Sched? && !k.ExitRel? && !k.Off? && !k.Dead? && !k.Chosen? && !k.Ready? && !k.Back?
  {
    assert LockOf(ch) in Held(k, me);
  }

  lemma KillDuty(s: State, me: nat, pc: Pc, m: Move)
    requires Shape(s) && me < NPROC && Routine(s, me, pc) == Some(m)
    requires pc.Kill? || pc.KillGot? || pc.KillSet? || pc.KillRel?
    ensures Duty(s, me, pc, m)
  {
    hide ForkCode, ExitCode, WaitCode, SleepLockCode, WakeStep, WakeTest;
  }

  lemma RoutineDuty(s: State, me: nat, pc: Pc, m: Move)
    requires Shape(s) && me < NPROC && Ok(pc, me) && !pc.Off? && Routine(s, me, pc) == Some(m)
    requires pc.ForkSet? ==> pc.j < NPROC
    ensures Duty(s, me, pc, m)
  {
    hide Duty, ForkCode, ExitCode, WaitCode, SleepLockCode, WakeStep, WakeTest;
    if pc.Wake? || pc.WakeGot? || pc.WakeRel? {
      WakeDuty(s, me, pc, m);
    } else if ForkCode(s, me, pc) == Some(m) {
      ForkDuty(s, me, pc, m);
    } else if SleepLockCode(s, pc) == Some(m) {
      SleepLockDuty(s, me, pc, m);
    } else if ExitCode(s, me, pc) == Some(m) {
      ExitDuty(s, me, pc, m);
    } else if WaitCode(s, me, pc) == Some(m) {
      WaitDuty(s, me, pc, m);
    } else if pc.Yield0? || pc.Yield1? || pc.Yield2? || pc.Sched? || pc.ForkRet? {
      YieldDuty(s, me, pc, m);
    } else if pc.Kill? || pc.KillGot? || pc.KillSet? || pc.KillRel? {
      KillDuty(s, me, pc, m);
    } else {
      SleepDuty(s, me, pc, m);
    }
  }

  /** The moves that depend on a choice. */
  lemma ChoiceDuty(s: State, c: nat, a: Choice, m: Move)
    requires Shape(s) && c < NCPU && Ok(Top(s, c), Who(s, c)) && !Top(s, c).Off? && Code(s, c, a) == Some(m) && a != Go
    ensures Duty(s, Who(s, c), Top(s, c), m)
  {
    hide Straight, Syscall, Duty, Held;
    var me, pc := Who(s, c), Top(s, c);
    if a == Tick || a.Enter? {
      InterruptDuty(s, me, pc, m);
    } else if pc.Crit? {
      CritDuty(s, c, a, m);
    } else if pc == Run {
      SyscallDuty(s, me, a, m);
    } else {
      RestDuty(s, c, a, m);
    }
  }

  lemma InterruptDuty(s: State, me: nat, pc: Pc, m: Move)
    requires Shape(s) && !pc.Off? && Held(pc, me) == {}
    requires m == Move(Jump, Yield0(pc))
             || (m.op.Acquire? && m.op.l.Spin? && m == Move(Acquire(Spin(m.op.l.lk)), Crit(m.op.l.lk, pc)))
    ensures Duty(s, me, pc, m)
  {
    hide Base;
    assert Making(m.next) == Making(pc) by {
      UnderInterrupt(pc, m.next);
    }
  }

  lemma UnderInterrupt(pc: Pc, next: Pc)
    requires next == Yield0(pc) || (next.Crit? && next.k == pc)
    ensures Making(next) == Making(pc)
  {
  }

  lemma SyscallDuty(s: State, me: nat, a: Choice, m: Move)
    requires Shape(s) && Syscall(s, me, a) == Some(m)
    ensures Duty(s, me, Run, m)
  {
  }

  /** The scheduler's choice, and failures in fork and wait. */
  lemma RestDuty(s: State, c: nat, a: Choice, m: Move)
    requires Shape(s) && c < NCPU && Code(s, c, a) == Some(m) && a != Go && a != Tick && !a.Enter?
    requires Top(s, c) != Run && !Top(s, c).Crit?
    ensures Duty(s, Who(s, c), Top(s, c), m)
  {
    hide Straight, Syscall;
  }

  lemma CritDuty(s: State, c: nat, a: Choice, m: Move)
    requires Shape(s) && c < NCPU && Ok(Top(s, c), Who(s, c)) && Code(s, c, a) == Some(m) && Top(s, c).Crit?
    ensures Duty(s, Who(s, c), Top(s, c), m)
  {
    hide Straight, Syscall;
    var pc := Top(s, c);
    assert Base(pc) == Base(pc.k);
  }

  lemma CodeDuty(s: State, c: nat, a: Choice, m: Move)
    requires Shape(s) && c < NCPU && Ok(Top(s, c), Who(s, c)) && !Top(s, c).Off? && Code(s, c, a) == Some(m)
    requires Who(s, c) < NPROC && Top(s, c).ForkSet? ==> Top(s, c).j < NPROC
    ensures Duty(s, Who(s, c), Top(s, c), m)
  {
    hide Duty, Routine, Scheduler;
    var me, pc := Who(s, c), Top(s, c);
    if a != Go {
      ChoiceDuty(s, c, a, m);
    } else if pc.Crit? {
      CritDuty(s, c, a, m);
    } else if me < NPROC {
      RoutineDuty(s, me, pc, m);
    } else {
      SchedulerDuty(s, pc, m);
    }
  }

  // ---------------------------------------------------------------- what a thread is doing

  /** A move of the routine the thread is in, rather than of yield, sleep or wakeup. */
  ghost predicate OwnMove(s: State, me: nat, pc: Pc, m: Move)
    requires Shape(s)
  {
    me < NPROC &&
    ( || ForkCode(s, me, pc) == Some(m) || ExitCode(s, me, pc) == Some(m) || WaitCode(s, me, pc) == Some(m)
     || SleepLockCode(s, pc) == Some(m)
      || (pc == Run && exists a :: Syscall(s, me, a) == Some(m))
      || ((pc.Kill? || pc.KillGot? || pc.KillSet? || pc.KillRel?)
          && (m.next == Run || m.next.Kill? || m.next.KillGot? || m.next.KillSet? || m.next.KillRel?))
      || (pc == ForkRet && m.next == Run)
      || (pc.ForkNew? && m == Move(FreeProc(pc.j, false), ForkFail(pc.j)))
      || (pc.WaitGot? && m == Move(Jump, WaitFreed(pc.j))))
  }

  lemma RoutineOwn(s: State, me: nat, pc: Pc, m: Move)
    requires Shape(s) && me < NPROC && Ok(pc, me) && Routine(s, me, pc) == Some(m)
    ensures Base(m.next) == Base(pc) || OwnMove(s, me, pc, m)
  {
    hide ForkCode, ExitCode, WaitCode, SleepLockCode, Ok, Held;
    if pc.Yield1? {
      assert Base(Yield2(pc.k)) == Base(pc.k);
    } else if pc.Sleep2? {
      assert Base(Awake1(pc.ch, pc.k)) == Base(pc.k);
    }
  }

  lemma CodeOwn(s: State, c: nat, a: Choice, m: Move)
    requires Shape(s) && c < NCPU && Ok(Top(s, c), Who(s, c)) && Code(s, c, a) == Some(m) && Who(s, c) < NPROC
    ensures Base(m.next) == Base(Top(s, c)) || OwnMove(s, Who(s, c), Top(s, c), m)
  {
    hide Routine, Scheduler, Ok, Held, ForkCode, ExitCode, WaitCode, SleepLockCode;
    var me, pc := Who(s, c), Top(s, c);
    if pc == Run && a != Tick && !a.Enter? {
      assert Syscall(s, me, a) == Some(m);
    } else if a == Go && !pc.Crit? {
      RoutineOwn(s, me, pc, m);
    }
  }
}
