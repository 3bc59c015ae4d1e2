/** What sleep and wakeup are for: exit wakes the parent that waits for it, reparent wakes init,
    releasesleep wakes those who want the lock, and kill wakes its victim. In every run nobody is left
    asleep beside what it waits for.
 */
module ProcWait {
  import opened Prelude
  import opened ProcMachine
  import opened ProcSafety
  import opened ProcInvariant
  import opened ProcWakeup

  /** j is a child of p that has exited. */
  ghost predicate Zombie(s: State, p: nat, j: nat)
    requires Shape(s)
  {
    j < NPROC && s.procs[j].parent == Some(p) && s.procs[j].st == ZOMBIE
  }

  /** A wakeup on the channel is on its way to process i. */
  ghost predicate Pending(s: State, i: nat, ch: Chan)
    requires Shape(s)
  {
    exists c: nat :: c < NCPU && Waker(Top(s, c)) && Top(s, c).ch == ch && Cleared(Top(s, c)) <= i && i != Who(s, c)
  }

  /** What the process is about to sleep for has not happened. */
  ghost predicate SleepFine(s: State, i: nat, ch: Chan)
    requires Shape(s)
  {
    && (ch.OfProc? ==> ch.i == i && forall j: nat :: !Zombie(s, i, j))
    && (ch.OfSleepLock? ==> ch.l in s.sl)
  }

  ghost predicate ParentChan(s: State, i: nat, ch: Chan)
    requires Shape(s) && i < NPROC
  {
    ch.OfProc? && s.procs[i].parent == Some(ch.i)
  }

  ghost predicate ParentAwake(s: State, i: nat)
    requires Shape(s) && i < NPROC
  {
    forall p: nat :: p < NPROC && s.procs[i].parent == Some(p) ==> !Waiting(s, p, OfProc(p))
  }

  ghost predicate Killed(s: State, j: nat, pid: nat)
    requires Shape(s)
  {
    j < NPROC && s.procs[j].pid == pid && s.procs[j].killed
  }

  /** wait has passed over the first n slots: no child among them has exited, and, if kids is false,
      there is no child among them. */
  ghost predicate Scanned(s: State, p: nat, n: nat, kids: bool)
    requires Shape(s)
  {
    forall j: nat :: j < n && j < NPROC ==> !Zombie(s, p, j) && (!kids ==> s.procs[j].parent != Some(p))
  }

  /** What a thread knows where it is. */
  ghost predicate PcFine(s: State, i: nat)
    requires Shape(s) && i < NPROC
  {
    match s.pcs[i]
    case WaitScan(k, kids) => Scanned(s, i, k, kids)
    case WaitGot(k) => Scanned(s, i, k, true)
    case WaitNext(k) => Scanned(s, i, k + 1, true)
    case Sleep0(ch, _) => SleepFine(s, i, ch)
    case Sleep1(ch, _) => SleepFine(s, i, ch)
    case Wake(_, ch, k) => k == ExitLock ==> ParentChan(s, i, ch)
    case WakeGot(_, ch, k) => k == ExitLock ==> ParentChan(s, i, ch)
    case WakeRel(_, ch, k) => k == ExitLock ==> ParentChan(s, i, ch)
    case ExitLock => ParentAwake(s, i)
    case ExitSet => ParentAwake(s, i)
    case KillSet(j, pid) => Killed(s, j, pid)
    case KillRel(j, pid, found) => found ==> Killed(s, j, pid) && s.procs[j].st != SLEEPING
    case _ => true
  }

  ghost predicate WaitInv(s: State)
    requires Shape(s)
  {
    && (forall i: nat :: i < NPROC ==> PcFine(s, i))
    && (forall p: nat, j: nat :: p < NPROC && Waiting(s, p, OfProc(p)) && Zombie(s, p, j) ==> Pending(s, p, OfProc(p)))
    && (forall i: nat, l: nat :: i < NPROC && Waiting(s, i, OfSleepLock(l)) && l !in s.sl ==>
          Pending(s, i, OfSleepLock(l)))
  }

  // ---------------------------------------------------------------- how a thread gets there

  /** How a process comes to be where PcFine says something. */
  ghost predicate Arrives(s: State, me: nat, pc: Pc, m: Move)
    requires Shape(s) && me < NPROC
  {
    match m.next
    case WaitScan(k, kids) =>
      || k == 0
      || (pc == WaitScan(k - 1, kids) && m.op == Jump && k - 1 < NPROC && s.procs[k - 1].parent != Some(me))
      || (pc == WaitNext(k - 1) && kids && m.op.Release?)
    case WaitGot(k) => pc.WaitScan? && pc.j == k && m.op.Acquire?
    case WaitNext(k) => pc == WaitGot(k) && m.op == Jump && (k < NPROC ==> s.procs[k].st != ZOMBIE)
    case Sleep0(ch, _) =>
      && (ch.OfProc? ==> ch.i == me && pc.WaitScan? && pc.j >= NPROC && m.op == Jump)
      && (ch.OfSleepLock? ==> ch.l in s.sl && m.op == Jump)
      && (pc.WaitScan? ==> ch.OfProc? && pc.kids && !s.procs[me].killed)
    case Sleep1(ch, k) => pc == Sleep0(ch, k) && m.op.Acquire?
    case Wake(_, ch, k) => k == ExitLock ==> WakesParent(s, me, pc, m, ch)
    case WakeGot(_, ch, k) => k == ExitLock ==> WakesParent(s, me, pc, m, ch)
    case WakeRel(_, ch, k) => k == ExitLock ==> WakesParent(s, me, pc, m, ch)
    case ExitLock => pc.Wake? && pc.k == ExitLock && pc.j >= NPROC && m.op == Jump
    case ExitSet => pc == ExitLock && m.op.Acquire?
    case KillSet(j, pid) => pc == KillGot(j, pid) && m.op == SetKilled(j) && j < NPROC && s.procs[j].pid == pid
    case KillRel(j, pid, found) =>
      found ==> && pc == KillSet(j, pid)
                && (m.op == SetState(j, RUNNABLE) || (m.op == Jump && (j < NPROC ==> s.procs[j].st != SLEEPING)))
    case WaitOut => pc.WaitScan? ==> pc.j >= NPROC && (!pc.kids || s.procs[me].killed)
    case _ => true
  }

  ghost predicate WakesParent(s: State, me: nat, pc: Pc, m: Move, ch: Chan)
    requires Shape(s) && me < NPROC
  {
    || (Waker(pc) && pc.ch == ch && pc.k == ExitLock && (m.op.SetState? ==> m.op.st == RUNNABLE)
        && (m.op == Jump || m.op.Acquire? || m.op.Release? || m.op.SetState?))
    || (m.op == Jump && ParentChan(s, me, ch))
  }

  /** A wakeup goes on to the end of the table, and wakes only those asleep on its channel. */
  ghost predicate GoesOn(s: State, pc: Pc, m: Move)
    requires Shape(s)
  {
    && (Waker(pc) && pc.j < NPROC ==> Waker(m.next) && m.next.ch == pc.ch)
    && (pc.WakeGot? && m.op.SetState? ==> m.op.i == pc.j < NPROC && s.procs[pc.j].chan == Some(pc.ch))
  }

  lemma ForkArrives(s: State, me: nat, pc: Pc, m: Move)
    requires Shape(s) && me < NPROC && ForkCode(s, me, pc) == Some(m)
    ensures Arrives(s, me, pc, m) && !Waker(pc)
  {
  }

  lemma WaitArrives(s: State, me: nat, pc: Pc, m: Move)
    requires Shape(s) && me < NPROC && WaitCode(s, me, pc) == Some(m)
    ensures Arrives(s, me, pc, m) && !Waker(pc)
  {
  }

  lemma ExitArrives(s: State, me: nat, pc: Pc, m: Move)
    requires Shape(s) && me < NPROC && ExitCode(s, me, pc) == Some(m)
    ensures Arrives(s, me, pc, m) && !Waker(pc)
  {
  }

  lemma SleepLockArrives(s: State, me: nat, pc: Pc, m: Move)
    requires Shape(s) && me < NPROC && SleepLockCode(s, pc) == Some(m)
    ensures Arrives(s, me, pc, m) && !Waker(pc)
  {
  }

  lemma SyscallArrives(s: State, me: nat, a: Choice, m: Move)
    requires Shape(s) && me < NPROC && Syscall(s, me, a) == Some(m)
    ensures Arrives(s, me, Run, m)
  {
  }

  lemma SyscallJumps(s: State, me: nat, a: Choice, m: Move)
    requires Shape(s) && Syscall(s, me, a) == Some(m)
    ensures m.op == Jump
  {
  }

  lemma WakeArrives(s: State, me: nat, pc: Pc, m: Move)
    requires Shape(s) && me < NPROC && Ok(pc, me) && Waker(pc)
    requires Some(m) == if pc.Wake? then WakeStep(s, me, pc.j, pc.ch, pc.k)
             else if pc.WakeGot? then WakeTest(s, pc.j, pc.ch, pc.k)
                        else Some(Move(Release(PLock(pc.j)), Wake(pc.j + 1, pc.ch, pc.k)))
    ensures Arrives(s, me, pc, m)
  {
    hide Held;
    WakeReturns(pc, me);
  }

  lemma WakeReturns(pc: Pc, me: nat)
    requires Waker(pc) && Ok(pc, me)
    ensures Caller(pc.k)
  {
    hide Held;
  }

  lemma WakeGoesOn(s: State, me: nat, pc: Pc, m: Move)
    requires Shape(s) && Waker(pc) && (pc.WakeGot? ==> pc.j < NPROC)
    requires Some(m) == if pc.Wake? then WakeStep(s, me, pc.j, pc.ch, pc.k)
             else if pc.WakeGot? then WakeTest(s, pc.j, pc.ch, pc.k)
                        else Some(Move(Release(PLock(pc.j)), Wake(pc.j + 1, pc.ch, pc.k)))
    ensures GoesOn(s, pc, m)
  {
  }

  /** yield, sleep, kill and forkret. */
  lemma PlainArrives(s: State, me: nat, pc: Pc, m: Move)
    requires Shape(s) && me < NPROC && Ok(pc, me) && Routine(s, me, pc) == Some(m)
    requires || pc.Yield0? || pc.Yield1? || pc.Yield2? || pc.Sched? || pc.ForkRet? || pc.Sleep0? || pc.Sleep1?
             || pc.Sleep2?
             || pc.Awake1? || pc.Awake2? || pc.Awake3? || pc.Kill? || pc.KillGot? || pc.KillSet? || pc.KillRel?
    ensures Arrives(s, me, pc, m) && !Waker(pc)
  {
    hide ForkCode, ExitCode, WaitCode, SleepLockCode, WakeStep, WakeTest, Held;
    if pc.Yield2? {
      ReturnsPlainly(s, me, pc, m);
    }
  }

  /** Where an interrupt returns to, no lock is held. */
  lemma ReturnsPlainly(s: State, me: nat, pc: Pc, m: Move)
    requires Shape(s) && me < NPROC && Held(m.next, me) == {} && (Waker(m.next) ==> Ok(m.next, me))
    ensures Arrives(s, me, pc, m)
  {
  }

  lemma RoutineArrives(s: State, me: nat, pc: Pc, m: Move)
    requires Shape(s) && me < NPROC && Ok(pc, me) && Routine(s, me, pc) == Some(m)
    ensures Arrives(s, me, pc, m) && GoesOn(s, pc, m)
  {
    hide Held, ForkCode, ExitCode, WaitCode, SleepLockCode, WakeStep, WakeTest, Arrives, Ok;
    if Waker(pc) {
      WakeArrives(s, me, pc, m);
      WakerSlot(pc, me);
      WakeGoesOn(s, me, pc, m);
    } else if ForkCode(s, me, pc) == Some(m) {
      ForkArrives(s, me, pc, m);
    } else if SleepLockCode(s, pc) == Some(m) {
      SleepLockArrives(s, me, pc, m);
    } else if ExitCode(s, me, pc) == Some(m) {
      ExitArrives(s, me, pc, m);
    } else if WaitCode(s, me, pc) == Some(m) {
      WaitArrives(s, me, pc, m);
    } else {
      PlainArrives(s, me, pc, m);
    }
  }

  lemma WakerSlot(pc: Pc, me: nat)
    requires Ok(pc, me)
    ensures pc.WakeGot? ==> pc.j < NPROC
  {
    hide Held;
  }

  lemma CodeArrives(s: State, c: nat, a: Choice, m: Move)
    requires Shape(s) && c < NCPU && Ok(Top(s, c), Who(s, c)) && Code(s, c, a) == Some(m)
    ensures Who(s, c) < NPROC ==> Arrives(s, Who(s, c), Top(s, c), m)
    ensures GoesOn(s, Top(s, c), m)
    ensures Who(s, c) == NPROC && m.op.SetState? ==> Top(s, c).WakeGot? || Top(s, c).Got?
  {
    hide Held, Routine, Scheduler, Syscall, Arrives, Ok;
    var me, pc := Who(s, c), Top(s, c);
    if a == Tick || a.Enter? {
      InterruptArrives(s, me, pc, m);
    } else if a == Go && !pc.Crit? && pc != Run {
      if me < NPROC {
        RoutineArrives(s, me, pc, m);
      } else {
        SchedulerGoesOn(s, pc, m);
      }
    } else if pc == Run {
      SyscallJumps(s, me, a, m);
      if me < NPROC {
        SyscallArrives(s, me, a, m);
      }
    } else if me < NPROC {
      ChoiceArrives(s, c, a, m);
    }
  }

  lemma InterruptArrives(s: State, me: nat, pc: Pc, m: Move)
    requires Shape(s) && Held(pc, me) == {} && (m.next.Yield0? || m.next.Crit?) && Ok(pc, me)
    ensures (me < NPROC ==> Arrives(s, me, pc, m)) && GoesOn(s, pc, m)
  {
  }

  lemma SchedulerGoesOn(s: State, pc: Pc, m: Move)
    requires Shape(s) && Scheduler(s, pc) == Some(m) && Ok(pc, NPROC)
    ensures GoesOn(s, pc, m) && (m.op.SetState? ==> pc.WakeGot? || pc.Got?)
  {
    hide Held;
    if Waker(pc) {
      WakeGoesOn(s, NPROC, pc, m);
    }
  }

  lemma ChoiceArrives(s: State, c: nat, a: Choice, m: Move)
    requires Shape(s) && c < NCPU && Ok(Top(s, c), Who(s, c)) && Code(s, c, a) == Some(m) && a != Tick && !a.Enter?
    requires Who(s, c) < NPROC && Top(s, c) != Run && (a == Go ==> Top(s, c).Crit?)
    ensures Arrives(s, Who(s, c), Top(s, c), m) && !Waker(Top(s, c))
  {
    hide Straight, Syscall, Held;
    var me, pc := Who(s, c), Top(s, c);
    if pc.Crit? && a == Go {
      ReturnsPlainly(s, me, pc, m);
    }
  }

  // ---------------------------------------------------------------- what others leave alone

  /** Parents and exits change only under wait_lock. */
  lemma FamilyKept(s: State, c: nat, m: Move, t: State)
    requires Moves(s, c, m, t) && WaitLock !in HeldOn(s, c)
    ensures forall p: nat, j: nat :: Zombie(t, p, j) ==> Zombie(s, p, j)
    ensures forall j: nat :: j < NPROC ==>
              t.procs[j].parent == s.procs[j].parent || (t.procs[j].parent == None && m.op == FreeProc(j, false))
  {
    hide Balanced, Next, Frame, Ok, Making;
    NextProcs(s, c, m, t);
  }

  /** What a thread holding wait_lock knows stays true while others move. */
  lemma UnderWaitLock(s: State, c: nat, m: Move, t: State, d: nat, i: nat)
    requires Inv(s) && Moves(s, c, m, t) && Entry(s, Who(s, c), Top(s, c), m)
    requires d < NCPU && d != c && s.on[d] == Some(i) && WaitLock in HeldOn(s, d)
    ensures i < NPROC && t.procs[i].parent == s.procs[i].parent
    ensures forall p: nat, j: nat :: Zombie(t, p, j) ==> Zombie(s, p, j)
    ensures forall p: nat, j: nat :: j < NPROC && t.procs[j].parent == Some(p) ==> s.procs[j].parent == Some(p)
    ensures forall p: nat :: p < NPROC && Waiting(t, p, OfProc(p)) ==> Waiting(s, p, OfProc(p))
  {
    hide Inv, Moves, Entry, Waiting, HeldOn, Zombie;
    MovesShape(s, c, m, t);
    if WaitLock in HeldOn(s, c) {
      LockOnce(s, c, d, WaitLock);
    }
    FamilyKept(s, c, m, t);
    NotFreed(s, c, m, t, d, i);
    forall p: nat | p < NPROC && Waiting(t, p, OfProc(p))
      ensures Waiting(s, p, OfProc(p))
    {
      if !Waiting(s, p, OfProc(p)) {
        NewWaiter(s, c, m, t, p, OfProc(p));
      }
    }
  }

  /** fork gives up only a slot that never ran. */
  lemma NotFreed(s: State, c: nat, m: Move, t: State, d: nat, i: nat)
    requires Inv(s) && Moves(s, c, m, t) && d < NCPU && s.on[d] == Some(i)
    ensures m.op != FreeProc(i, false)
  {
    hide LocksOk, PcsOk, AwayOk, CpuOk, MakersOk, OnceOk, Balanced, Next, Held, Ok, Frame, Making;
    assert On(s, i);
    if m.op == FreeProc(i, false) {
      ForkFrees(s, c, m, i);
    }
  }

  lemma ForkFrees(s: State, c: nat, m: Move, i: nat)
    requires Inv(s) && c < NCPU && Duty(s, Who(s, c), Top(s, c), m) && m.op == FreeProc(i, false)
    ensures !On(s, i)
  {
    hide LocksOk, PcsOk, AwayOk, CpuOk, MakersOk, OnceOk, Held, Ok, Making;
    ForkSets(s, c, i);
  }

  /** A slot changes its process only under its lock. */
  lemma SlotKept(s: State, c: nat, m: Move, t: State, j: nat)
    requires Moves(s, c, m, t) && j < NPROC && PLock(j) !in HeldOn(s, c)
    ensures t.procs[j].pid == s.procs[j].pid && t.procs[j].st == s.procs[j].st
    ensures s.procs[j].killed ==> t.procs[j].killed
  {
    hide Balanced, Next, Frame, Ok, Making;
    NextProcs(s, c, m, t);
  }

  /** A sleep-lock is unlocked only under its inner lock. */
  lemma SleepLockKept(s: State, c: nat, m: Move, t: State, l: nat)
    requires Moves(s, c, m, t) && Inner(l) !in HeldOn(s, c) && l in s.sl
    ensures l in t.sl
  {
    hide Balanced, Frame, Ok, Making;
  }

  /** What PcFine depends on, under the locks the thread holds. */
  lemma OtherFine(s: State, c: nat, m: Move, t: State, i: nat)
    requires Inv(s) && Moves(s, c, m, t) && Entry(s, Who(s, c), Top(s, c), m) && i < NPROC && i != Who(s, c)
    requires PcFine(s, i) && t.pcs[i] == s.pcs[i]
    ensures PcFine(t, i)
  {
    hide LocksOk, PcsOk, CpuOk, MakersOk, OnceOk, Moves, Entry, Waiting, HeldOn, Zombie, Scanned, ParentAwake, Ok, Held;
    MovesShape(s, c, m, t);
    if !s.pcs[i].Off? {
      assert On(s, i) || AwayOk(s, i);
      var d: nat :| 0 <= d < NCPU && s.on[d] == Some(i);
      TopOk(s, d);
      HoldsThere(s, d);
      if WaitLock in HeldOn(s, d) {
        UnderWaitLock(s, c, m, t, d, i);
        StillFine(s, t, i);
      } else {
        OtherKill(s, c, m, t, d, i);
      }
    }
  }

  /** The locks held where PcFine says something. */
  lemma HoldsThere(s: State, d: nat)
    requires Shape(s) && d < NCPU && Ok(Top(s, d), Who(s, d))
    ensures var pc := Top(s, d);
            && (pc.WaitScan? || pc.WaitGot? || pc.WaitNext? || pc == ExitLock || pc == ExitSet
                || (Waker(pc) && pc.k == ExitLock) || ((pc.Sleep0? || pc.Sleep1?) && pc.ch.OfProc?)
                ==> WaitLock in HeldOn(s, d))
            && ((pc.Sleep0? || pc.Sleep1?) && pc.ch.OfSleepLock? ==> Inner(pc.ch.l) in HeldOn(s, d))
            && (pc.KillSet? || pc.KillRel? ==> PLock(pc.j) in HeldOn(s, d))
            && (WaitLock in HeldOn(s, d) ==> !pc.KillSet? && !pc.KillRel?
                                             && ((pc.Sleep0? || pc.Sleep1?) ==> pc.ch.OfProc?))
  {
  }

  lemma StillFine(s: State, t: State, i: nat)
    requires Shape(s) && Shape(t) && i < NPROC && t.pcs[i] == s.pcs[i] && PcFine(s, i)
    requires !s.pcs[i].KillSet? && !s.pcs[i].KillRel?
    requires (s.pcs[i].Sleep0? || s.pcs[i].Sleep1?) ==> s.pcs[i].ch.OfProc?
    requires t.procs[i].parent == s.procs[i].parent
    requires forall p: nat, j: nat :: Zombie(t, p, j) ==> Zombie(s, p, j)
    requires forall p: nat, j: nat :: j < NPROC && t.procs[j].parent == Some(p) ==> s.procs[j].parent == Some(p)
    requires forall p: nat :: p < NPROC && Waiting(t, p, OfProc(p)) ==> Waiting(s, p, OfProc(p))
    ensures PcFine(t, i)
  {
    hide Waiting, Zombie;
  }

  lemma OtherKill(s: State, c: nat, m: Move, t: State, d: nat, i: nat)
    requires Inv(s) && Moves(s, c, m, t) && i < NPROC && d < NCPU && d != c && s.on[d] == Some(i)
    requires PcFine(s, i) && t.pcs[i] == s.pcs[i] && WaitLock !in HeldOn(s, d) && Ok(Top(s, d), Who(s, d))
    ensures PcFine(t, i)
  {
    hide Inv, Moves, HeldOn, Ok, Zombie, Waiting, Scanned, ParentAwake, ParentChan;
    MovesShape(s, c, m, t);
    HoldsThere(s, d);
    var pc := s.pcs[i];
    if pc.KillSet? || (pc.KillRel? && pc.found) {
      if PLock(pc.j) in HeldOn(s, c) {
        LockOnce(s, c, d, PLock(pc.j));
      }
      SlotKept(s, c, m, t, pc.j);
    } else if (pc.Sleep0? || pc.Sleep1?) && pc.ch.OfSleepLock? {
      if Inner(pc.ch.l) in HeldOn(s, c) {
        LockOnce(s, c, d, Inner(pc.ch.l));
      }
      SleepLockKept(s, c, m, t, pc.ch.l);
    }
  }

  // ---------------------------------------------------------------- the thread that moves

  lemma SameProcs(s: State, c: nat, m: Move, t: State)
    requires Moves(s, c, m, t) && (m.op == Jump || m.op.Acquire? || m.op.Release?)
    ensures t.procs == s.procs && t.sl == s.sl
  {
    hide Balanced, Duty, Frame, Ok;
  }

  lemma MoverPc(s: State, c: nat, m: Move, t: State)
    requires Moves(s, c, m, t) && s.on[c].Some?
    ensures t.pcs[Who(s, c)] == m.next && !m.op.SwitchIn?
    ensures !m.op.SwitchOut? ==> Top(t, c) == m.next && Who(t, c) == Who(s, c)
    ensures m.op == Jump || m.op.Acquire? || m.op.Release? ==>
              forall i: nat :: i < NPROC && i != Who(s, c) ==> t.pcs[i] == s.pcs[i]
  {
    hide Balanced, Next, Ok, Held, Making;
  }

  /** A process that runs is not waiting, unless it is just about to sleep. */
  lemma RunnerNotWaiting(s: State, c: nat, i: nat, ch: Chan)
    requires Inv(s) && c < NCPU && s.on[c] == Some(i) && StateAt(s.pcs[i]) != SLEEPING && !s.pcs[i].Sleep2?
    ensures i < NPROC && !Waiting(s, i, ch)
  {
    hide LocksOk, PcsOk, AwayOk, MakersOk, OnceOk, Held, Ok;
    assert CpuOk(s, c);
  }

  /** Where only locks change and nobody starts to sleep, nobody starts to wait. */
  lemma WaitingBack(s: State, c: nat, m: Move, t: State, p: nat, ch: Chan)
    requires Moves(s, c, m, t) && s.on[c].Some? && (m.op == Jump || m.op.Acquire?) && !m.next.Sleep2?
    requires p < NPROC && Waiting(t, p, ch)
    ensures Waiting(s, p, ch)
  {
    hide Moves;
    MovesShape(s, c, m, t);
    SameProcs(s, c, m, t);
    MoverPc(s, c, m, t);
  }

  /** wakeup(p->parent) has come to its end. */
  lemma ParentNowAwake(s: State, c: nat, m: Move, t: State)
    requires Inv(s) && Moves(s, c, m, t) && WakeInv(s) && s.on[c].Some? && m == Move(Jump, ExitLock)
    requires Top(s, c).Wake? && Top(s, c).j >= NPROC && ParentChan(s, Who(s, c), Top(s, c).ch)
    ensures ParentAwake(t, Who(s, c))
  {
    hide Inv, Moves, Waiting;
    MovesShape(s, c, m, t);
    SameProcs(s, c, m, t);
    var me := Who(s, c);
    forall p: nat | p < NPROC && t.procs[me].parent == Some(p)
      ensures !Waiting(t, p, OfProc(p))
    {
      if Waiting(t, p, OfProc(p)) {
        WaitingBack(s, c, m, t, p, OfProc(p));
        RunnerNotWaiting(s, c, me, OfProc(p));
      }
    }
  }

  lemma ParentStillAwake(s: State, c: nat, m: Move, t: State)
    requires Moves(s, c, m, t) && s.on[c].Some? && m.op.Acquire? && m.next == ExitSet && ParentAwake(s, Who(s, c))
    ensures ParentAwake(t, Who(s, c))
  {
    hide Moves, Waiting;
    MovesShape(s, c, m, t);
    SameProcs(s, c, m, t);
    forall p: nat | p < NPROC && t.procs[Who(s, c)].parent == Some(p)
      ensures !Waiting(t, p, OfProc(p))
    {
      if Waiting(t, p, OfProc(p)) {
        WaitingBack(s, c, m, t, p, OfProc(p));
      }
    }
  }

  lemma OwnFine(s: State, c: nat, m: Move, t: State)
    requires Inv(s) && Moves(s, c, m, t) && WakeInv(s) && s.on[c].Some? && !m.op.SwitchOut?
    requires PcFine(s, Who(s, c)) && Arrives(s, Who(s, c), Top(s, c), m)
    ensures PcFine(t, Who(s, c))
  {
    hide Inv, Moves, WakeInv, Waiting, ParentAwake;
    MovesShape(s, c, m, t);
    MoverPc(s, c, m, t);
    if m.op == Jump || m.op.Acquire? || m.op.Release? {
      if m.next == ExitLock {
        ParentNowAwake(s, c, m, t);
      } else if m.next == ExitSet {
        ParentStillAwake(s, c, m, t);
      } else {
        SameProcs(s, c, m, t);
        OwnLooks(s, Who(s, c), Top(s, c), m, t);
      }
    } else {
      NextProcs(s, c, m, t);
    }
  }

  /** A step that changes no process and no sleep-lock. */
  ghost predicate Looks(s: State, me: nat, pc: Pc, m: Move, t: State)
  {
    && Shape(s) && Shape(t) && me < NPROC && s.pcs[me] == pc && t.pcs[me] == m.next
    && t.procs == s.procs && t.sl == s.sl && PcFine(s, me) && Arrives(s, me, pc, m)
    && (m.op == Jump || m.op.Acquire? || m.op.Release?)
  }

  lemma SameZombies(s: State, t: State, p: nat)
    requires Shape(s) && Shape(t) && t.procs == s.procs
    ensures forall j: nat :: Zombie(t, p, j) == Zombie(s, p, j)
    ensures forall j: nat :: j < NPROC && s.procs[j].st != ZOMBIE ==> !Zombie(s, p, j)
    ensures forall j: nat :: j >= NPROC ==> !Zombie(t, p, j)
  {
  }

  lemma LooksWaiting(s: State, me: nat, pc: Pc, m: Move, t: State)
    requires Looks(s, me, pc, m, t) && (m.next.WaitScan? || m.next.WaitGot? || m.next.WaitNext?)
    ensures PcFine(t, me)
  {
    SameZombies(s, t, me);
    hide Zombie, Waiting, SleepFine, ParentChan, ParentAwake, Killed, WakesParent;
    if m.next.WaitScan? && m.next.j > 0 && pc.WaitScan? {
      ScannedOne(s, t, me, pc.j, pc.kids);
    }
  }

  lemma LooksSleeping(s: State, me: nat, pc: Pc, m: Move, t: State)
    requires Looks(s, me, pc, m, t) && (m.next.Sleep0? || m.next.Sleep1?)
    ensures PcFine(t, me)
  {
    SameZombies(s, t, me);
    hide Zombie, Waiting, ParentChan, ParentAwake, Killed, WakesParent;
  }

  lemma LooksElsewhere(s: State, me: nat, pc: Pc, m: Move, t: State)
    requires Looks(s, me, pc, m, t) && m.next != ExitLock && m.next != ExitSet
    requires !m.next.WaitScan? && !m.next.WaitGot? && !m.next.WaitNext? && !m.next.Sleep0? && !m.next.Sleep1?
    ensures PcFine(t, me)
  {
    hide Zombie, Waiting, Scanned, SleepFine, ParentAwake;
  }

  lemma OwnLooks(s: State, me: nat, pc: Pc, m: Move, t: State)
    requires Looks(s, me, pc, m, t) && m.next != ExitLock && m.next != ExitSet
    ensures PcFine(t, me)
  {
    hide PcFine, Arrives;
    if m.next.WaitScan? || m.next.WaitGot? || m.next.WaitNext? {
      LooksWaiting(s, me, pc, m, t);
    } else if m.next.Sleep0? || m.next.Sleep1? {
      LooksSleeping(s, me, pc, m, t);
    } else {
      LooksElsewhere(s, me, pc, m, t);
    }
  }

  lemma ScannedOne(s: State, t: State, p: nat, k: nat, kids: bool)
    requires Shape(s) && Shape(t) && t.procs == s.procs && Scanned(s, p, k, kids) && k < NPROC
    requires s.procs[k].parent != Some(p)
    ensures Scanned(t, p, k + 1, kids)
  {
    forall j: nat | j < k + 1 && j < NPROC
      ensures !Zombie(t, p, j) && (!kids ==> t.procs[j].parent != Some(p))
    {
      assert j < k ==> !Zombie(s, p, j);
    }
  }

  lemma FineAfter(s: State, c: nat, m: Move, t: State, i: nat)
    requires Inv(s) && Moves(s, c, m, t) && WakeInv(s) && WaitInv(s) && Entry(s, Who(s, c), Top(s, c), m) && i < NPROC
    requires Who(s, c) < NPROC ==> Arrives(s, Who(s, c), Top(s, c), m)
    ensures PcFine(t, i)
  {
    hide Inv, Moves, WakeInv, Entry, PcFine, Arrives;
    MovesShape(s, c, m, t);
    assert PcFine(s, i);
    PcAfter(s, c, m, t, i);
    if !OutOfIt(t.pcs[i]) {
      if i == Who(s, c) {
        OwnFine(s, c, m, t);
      } else {
        OtherFine(s, c, m, t, i);
      }
    } else {
      OutIsFine(t, i);
    }
  }

  ghost predicate OutOfIt(pc: Pc)
  {
    pc.Off? || pc.Yield2? || pc.Awake1? || pc.Dead? || pc.ForkRet?
  }

  lemma OutIsFine(s: State, i: nat)
    requires Shape(s) && i < NPROC && OutOfIt(s.pcs[i])
    ensures PcFine(s, i)
  {
  }

  lemma PcAfter(s: State, c: nat, m: Move, t: State, i: nat)
    requires Inv(s) && Moves(s, c, m, t) && i < NPROC
    ensures OutOfIt(t.pcs[i]) || (if i == Who(s, c) then !m.op.SwitchOut? else t.pcs[i] == s.pcs[i])
  {
    hide LocksOk, AwayOk, CpuOk, MakersOk, OnceOk, Balanced, Next, Held, Making;
    SwitchFacts(s, c, m);
    if m.op == SwitchIn(i) {
      PcIsOk(s, i);
    }
  }

  // ---------------------------------------------------------------- nobody is left asleep

  lemma PendingKept(s: State, c: nat, m: Move, t: State, i: nat, ch: Chan)
    requires Inv(s) && Moves(s, c, m, t) && GoesOn(s, Top(s, c), m) && i < NPROC && Pending(s, i, ch)
    requires Shape(t) && WakeInv(t) && Waiting(t, i, ch)
    ensures Pending(t, i, ch)
  {
    hide Inv, Moves, Waiting;
    MovesShape(s, c, m, t);
    var d: nat :| d < NCPU && Waker(Top(s, d)) && Top(s, d).ch == ch && Cleared(Top(s, d)) <= i && i != Who(s, d);
    if d != c {
      OtherTop(s, c, m, t, d);
    } else {
      NoSwitch(s, c, m, t);
      OwnTop(s, c, m, t);
    }
  }

  lemma NoSwitch(s: State, c: nat, m: Move, t: State)
    requires Moves(s, c, m, t) && Waker(Top(s, c))
    ensures !m.op.SwitchIn? && !m.op.SwitchOut?
  {
    hide Balanced, Next, Frame, Ok;
  }

  /** How a child comes to have exited: by exit, or by being handed to init. */
  lemma NewZombie(s: State, c: nat, m: Move, t: State, p: nat, j: nat)
    requires Inv(s) && Moves(s, c, m, t) && p < NPROC && Zombie(t, p, j) && !Zombie(s, p, j)
    ensures s.on[c].Some?
    ensures || (Top(s, c) == ExitSet && j == Who(s, c) && s.procs[j].parent == Some(p))
            || (Top(s, c).Reparent? && p == INIT && m.next.Wake? && m.next.j == 0 && m.next.ch == OfProc(INIT)
                && !m.op.SwitchOut?)
            || (Top(s, c).ForkParent? && p == Who(s, c))
  {
    hide LocksOk, PcsOk, AwayOk, CpuOk, MakersOk, OnceOk, Balanced, Next, Frame, Ok, Making, Held;
    NextProcs(s, c, m, t);
  }

  lemma ZombieKept(s: State, c: nat, m: Move, t: State, p: nat, j: nat)
    requires Inv(s) && WaitInv(s) && Moves(s, c, m, t) && Entry(s, Who(s, c), Top(s, c), m) && GoesOn(s, Top(s, c), m)
    requires Shape(t) && WakeInv(t) && p < NPROC && Waiting(t, p, OfProc(p)) && Zombie(t, p, j)
    ensures Pending(t, p, OfProc(p))
  {
    hide Inv, Moves, WakeInv, Entry, Waiting, GoesOn, HeldOn, Zombie;
    MovesShape(s, c, m, t);
    assert PcFine(s, p);
    if !Waiting(s, p, OfProc(p)) {
      NewWaiter(s, c, m, t, p, OfProc(p));
      SameProcs(s, c, m, t);
      SameZombie(s, t, p, j);
    } else if !Zombie(s, p, j) {
      NewZombie(s, c, m, t, p, j);
      MoverPc(s, c, m, t);
      assert PcFine(s, Who(s, c));
      if s.on[c] == Some(p) && Top(s, c) != ExitSet {
        RunnerNotWaiting(s, c, p, OfProc(p));
      }
    } else {
      PendingKept(s, c, m, t, p, OfProc(p));
    }
  }

  lemma SameZombie(s: State, t: State, p: nat, j: nat)
    requires Shape(s) && Shape(t) && t.procs == s.procs && Zombie(t, p, j)
    ensures Zombie(s, p, j)
  {
  }

  lemma SleepLockChange(s: State, c: nat, m: Move, t: State, l: nat)
    requires Moves(s, c, m, t) && l in s.sl && l !in t.sl
    ensures s.on[c].Some? && Top(s, c) == Rel1(l) && m.next == Wake(0, OfSleepLock(l), Rel2(l)) && !m.op.SwitchOut?
  {
    hide Balanced, Frame, Ok, Making;
  }

  lemma SleepLockWoken(s: State, c: nat, m: Move, t: State, i: nat, l: nat)
    requires Inv(s) && WaitInv(s) && Moves(s, c, m, t) && Entry(s, Who(s, c), Top(s, c), m) && GoesOn(s, Top(s, c), m)
    requires Shape(t) && WakeInv(t) && i < NPROC && Waiting(t, i, OfSleepLock(l)) && l !in t.sl
    ensures Pending(t, i, OfSleepLock(l))
  {
    hide Inv, Moves, WakeInv, Entry, Waiting, GoesOn, HeldOn;
    MovesShape(s, c, m, t);
    assert PcFine(s, i);
    if !Waiting(s, i, OfSleepLock(l)) {
      NewWaiter(s, c, m, t, i, OfSleepLock(l));
      SameProcs(s, c, m, t);
    } else if l in s.sl {
      SleepLockChange(s, c, m, t, l);
      MoverPc(s, c, m, t);
      if s.on[c] == Some(i) {
        RunnerNotWaiting(s, c, i, OfSleepLock(l));
      }
    } else {
      PendingKept(s, c, m, t, i, OfSleepLock(l));
    }
  }

  lemma StepWaitInv(s: State, c: nat, a: Choice, t: State)
    requires Inv(s) && WakeInv(s) && WaitInv(s) && Steps(s, c, a, t)
    ensures Shape(t) && WakeInv(t) && WaitInv(t)
  {
    hide Inv, WakeInv, Moves, Waiting, Code, Entry, Arrives, GoesOn, PcFine, Zombie, Pending, Ok;
    var m := StepMoves(s, c, a, t);
    MovesShape(s, c, m, t);
    TopOk(s, c);
    CodeEntry(s, c, a, m);
    CodeArrives(s, c, a, m);
    StepWakeInv(s, c, a, t);
    forall i: nat | i < NPROC
      ensures PcFine(t, i)
    {
      FineAfter(s, c, m, t, i);
    }
    forall p: nat, j: nat | p < NPROC && Waiting(t, p, OfProc(p)) && Zombie(t, p, j)
      ensures Pending(t, p, OfProc(p))
    {
      ZombieKept(s, c, m, t, p, j);
    }
    forall i: nat, l: nat | i < NPROC && Waiting(t, i, OfSleepLock(l)) && l !in t.sl
      ensures Pending(t, i, OfSleepLock(l))
    {
      SleepLockWoken(s, c, m, t, i, l);
    }
  }

  // ---------------------------------------------------------------- whole runs

  lemma BootWait(s: State)
    requires Boot(s)
    ensures WaitInv(s)
  {
    hide Pending;
    forall i: nat | i < NPROC
      ensures PcFine(s, i) && forall ch :: !Waiting(s, i, ch)
    {
    }
  }

  lemma {:induction false} RunWait(s: State, run: seq<Event>)
    requires Inv(s) && WakeInv(s) && WaitInv(s) && IsRun(s, run)
    ensures Inv(Final(s, run)) && WakeInv(Final(s, run)) && WaitInv(Final(s, run))
    decreases run
  {
    hide Inv, Steps, WakeInv, WaitInv;
    if run != [] {
      InvPreserved(s, run[0].c, run[0].a, run[0].t);
      InvShape(s);
      StepWaitInv(s, run[0].c, run[0].a, run[0].t);
      RunWait(run[0].t, run[1..]);
    }
  }

  lemma FromBoot(s: State, run: seq<Event>)
    requires Boot(s) && IsRun(s, run)
    ensures Inv(Final(s, run)) && WakeInv(Final(s, run)) && WaitInv(Final(s, run)) && Shape(Final(s, run))
  {
    hide Inv, IsRun, WakeInv, WaitInv, Boot;
    BootInv(s);
    InvShape(s);
    BootWake(s);
    BootWait(s);
    RunWait(s, run);
    InvShape(Final(s, run));
  }

  /** A wakeup in progress holds the lock of its channel. */
  lemma PendingHolds(s: State, i: nat, ch: Chan)
    requires Shape(s) && Inv(s) && Pending(s, i, ch)
    ensures LockOf(ch) in s.lock
  {
    hide Inv, HeldOn;
    var c: nat :| c < NCPU && Waker(Top(s, c)) && Top(s, c).ch == ch && Cleared(Top(s, c)) <= i && i != Who(s, c);
    WakerHolds(s, c);
    LockRecord(s, c, LockOf(ch));
  }

  /** In every run from boot, whenever nobody holds wait_lock: no process sleeps in wait, or is on its way
      to, while it has a child that has exited. */
  lemma NoSleepBesideZombie(s: State, run: seq<Event>, p: nat, j: nat)
    requires Boot(s) && IsRun(s, run) && p < NPROC && j < NPROC
    ensures var t := Final(s, run);
            && Shape(t)
            && (WaitLock !in t.lock && Waiting(t, p, OfProc(p)) && t.procs[j].parent == Some(p) ==>
                  t.procs[j].st != ZOMBIE)
  {
    hide Inv, IsRun, WakeInv, Boot, Waiting, PcFine, Pending;
    FromBoot(s, run);
    var t := Final(s, run);
    if WaitLock !in t.lock && Waiting(t, p, OfProc(p)) && t.procs[j].parent == Some(p) && t.procs[j].st == ZOMBIE {
      assert Zombie(t, p, j);
      PendingHolds(t, p, OfProc(p));
    }
  }

  /** In every run from boot, whenever nobody holds its inner lock: no process sleeps for a sleep-lock, or is
      on its way to, while the lock is free. */
  lemma NoSleepBesideFreeLock(s: State, run: seq<Event>, i: nat, l: nat)
    requires Boot(s) && IsRun(s, run) && i < NPROC
    ensures var t := Final(s, run);
            Shape(t) && (Inner(l) !in t.lock && Waiting(t, i, OfSleepLock(l)) ==> l in t.sl)
  {
    hide Inv, IsRun, WakeInv, Boot, Waiting, PcFine, Pending;
    FromBoot(s, run);
    var t := Final(s, run);
    if Inner(l) !in t.lock && Waiting(t, i, OfSleepLock(l)) && l !in t.sl {
      PendingHolds(t, i, OfSleepLock(l));
    }
  }

  /** In every run from boot: a wait that gives up without reaping a child has none, or its process was
      killed; and one that goes to sleep has none that has exited, and its process was not killed. */
  lemma WaitGivesUp(s: State, run: seq<Event>, c: nat, a: Choice, u: State, p: nat, j: nat)
    requires Boot(s) && IsRun(s, run) && Steps(Final(s, run), c, a, u) && p < NPROC && j < NPROC
    ensures var t := Final(s, run);
            && Shape(t) && c < NCPU && Shape(u)
            && (t.on[c] == Some(p) && t.pcs[p].WaitScan? && u.pcs[p] == WaitOut ==>
                  t.procs[p].killed || t.procs[j].parent != Some(p))
            && (t.on[c] == Some(p) && t.pcs[p].WaitScan? && u.pcs[p].Sleep0? ==>
                  !t.procs[p].killed && (t.procs[j].parent == Some(p) ==> t.procs[j].st != ZOMBIE))
  {
    hide Inv, IsRun, WakeInv, Boot, Waiting, Pending, Code, Moves, Ok, Final, PcFine, Arrives;
    FromBoot(s, run);
    var t := Final(s, run);
    var m := StepMoves(t, c, a, u);
    MovesShape(t, c, m, u);
    TopOk(t, c);
    CodeArrives(t, c, a, m);
    assert PcFine(t, p);
    if t.on[c] == Some(p) && t.pcs[p].WaitScan? {
      MoverPc(t, c, m, u);
      GivesUp(t, p, m, j);
    }
  }

  lemma GivesUp(t: State, p: nat, m: Move, j: nat)
    requires Shape(t) && p < NPROC && t.pcs[p].WaitScan? && PcFine(t, p) && Arrives(t, p, t.pcs[p], m) && j < NPROC
    ensures m.next == WaitOut ==> t.procs[p].killed || t.procs[j].parent != Some(p)
    ensures m.next.Sleep0? ==> !t.procs[p].killed && (t.procs[j].parent == Some(p) ==> t.procs[j].st != ZOMBIE)
  {
    assert !Zombie(t, p, j) <==> t.procs[j].parent != Some(p) || t.procs[j].st != ZOMBIE;
  }

  /** In every run from boot: a kill that found its victim has marked the process with that pid, and left it
      awake. */
  lemma KillMarks(s: State, run: seq<Event>, i: nat, j: nat, pid: nat)
    requires Boot(s) && IsRun(s, run) && i < NPROC && Shape(Final(s, run))
    requires Final(s, run).pcs[i] == KillRel(j, pid, true)
    ensures var t := Final(s, run);
            j < NPROC && t.procs[j].pid == pid && t.procs[j].killed && t.procs[j].st != SLEEPING
  {
    hide Inv, IsRun, WakeInv, Boot, Waiting, Pending;
    FromBoot(s, run);
    assert PcFine(Final(s, run), i);
  }

  /** In every run from boot: a process stops sleeping only by a wakeup on the channel it sleeps on, or by
      a kill of its own pid. */
  lemma WokenForAReason(s: State, run: seq<Event>, c: nat, a: Choice, u: State, i: nat)
    requires Boot(s) && IsRun(s, run) && Steps(Final(s, run), c, a, u) && i < NPROC
    requires Shape(Final(s, run)) && Shape(u)
    requires Final(s, run).procs[i].st == SLEEPING && u.procs[i].st != SLEEPING
    ensures var t := Final(s, run);
            && c < NCPU && u.procs[i].st == RUNNABLE
            && ((Top(t, c).WakeGot? && t.procs[i].chan == Some(Top(t, c).ch))
                || (Top(t, c).KillSet? && t.procs[i].pid == Top(t, c).pid && t.procs[i].killed))
  {
    hide Inv, IsRun, WakeInv, Boot, Waiting, Pending, Code, Moves, Ok, Final, Arrives;
    FromBoot(s, run);
    var t := Final(s, run);
    var m := StepMoves(t, c, a, u);
    MovesShape(t, c, m, u);
    TopOk(t, c);
    CodeArrives(t, c, a, m);
    Wakes(t, c, m, u, i);
    if Top(t, c).KillSet? {
      assert PcFine(t, Who(t, c));
    }
  }

  lemma Wakes(s: State, c: nat, m: Move, t: State, i: nat)
    requires Inv(s) && Moves(s, c, m, t) && i < NPROC && s.procs[i].st == SLEEPING && t.procs[i].st != SLEEPING
    ensures t.procs[i].st == RUNNABLE && m.op == SetState(i, RUNNABLE)
    ensures Top(s, c).WakeGot? || (Top(s, c).KillSet? && Top(s, c).j == i)
  {
    hide LocksOk, PcsOk, AwayOk, MakersOk, OnceOk, Balanced, Next, Frame, Ok, Making;
    NextProcs(s, c, m, t);
    assert CpuOk(s, c);
    if Top(s, c) == ForkSet(i) || Top(s, c) == ForkNew(i) {
      ForkSets(s, c, i);
    }
  }
}
