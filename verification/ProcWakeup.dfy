/** sleep and wakeup: a wakeup issued under the lock that guards a channel reaches every process
    that went to sleep on it. Sleep-locks are built on this and have at most one holder.
 */
module ProcWakeup {
  import opened Prelude
  import opened ProcMachine
  import opened ProcSafety
  import opened ProcInvariant

  ghost predicate Waker(pc: Pc)
  {
    pc.Wake? || pc.WakeGot? || pc.WakeRel?
  }

  /** The slots that a wakeup in progress has dealt with: those below this. */
  function Cleared(pc: Pc): nat
    requires Waker(pc)
  {
    if pc.WakeRel? then pc.j + 1 else pc.j
  }

  /** The process has let go of the channel's lock in sleep() and has not been woken. */
  ghost predicate Waiting(s: State, i: nat, ch: Chan)
    requires Shape(s) && i < NPROC
  {
    (s.procs[i].st == SLEEPING && s.procs[i].chan == Some(ch)) || (s.pcs[i].Sleep2? && s.pcs[i].ch == ch)
  }

  /** No process that a wakeup in progress has dealt with is waiting on its channel. */
  ghost predicate WakeInv(s: State)
    requires Shape(s)
  {
    forall c: nat, i: nat :: c < NCPU && i < NPROC && Waker(Top(s, c)) && i < Cleared(Top(s, c)) && i != Who(s, c) ==>
      !Waiting(s, i, Top(s, c).ch)
  }

  // ---------------------------------------------------------------- how a thread gets there

  /** How a thread comes to be in wakeup's loop, and to be about to sleep. */
  ghost predicate Entry(s: State, me: nat, pc: Pc, m: Move)
    requires Shape(s)
  {
    && (m.next.Sleep2? ==> pc == Sleep1(m.next.ch, m.next.k) && m.op == Release(LockOf(m.next.ch)))
    && (m.next.Wake? ==> m.next.j == 0 || (pc == Wake(me, m.next.ch, m.next.k) && m.next.j == me + 1)
                         || (pc.WakeRel? && m.next == Wake(pc.j + 1, pc.ch, pc.k)))
    && (m.next.WakeGot? ==> pc == Wake(m.next.j, m.next.ch, m.next.k))
    && (m.next.WakeRel? ==> pc == WakeGot(m.next.j, m.next.ch, m.next.k) && pc.j < NPROC &&
                            (m.op == SetState(pc.j, RUNNABLE)
                             || !(s.procs[pc.j].st == SLEEPING && s.procs[pc.j].chan == Some(pc.ch))))
  }

  /** Neither in wakeup's loop nor about to sleep. */
  ghost predicate Elsewhere(pc: Pc)
  {
    !pc.Sleep2? && !Waker(pc)
  }

  lemma ForkEntry(s: State, me: nat, pc: Pc, m: Move)
    requires Shape(s) && me < NPROC && ForkCode(s, me, pc) == Some(m)
    ensures Elsewhere(m.next)
  {
  }

  lemma WaitEntry(s: State, me: nat, pc: Pc, m: Move)
    requires Shape(s) && me < NPROC && WaitCode(s, me, pc) == Some(m)
    ensures Elsewhere(m.next)
  {
  }

  lemma ExitEntry(s: State, me: nat, pc: Pc, m: Move)
    requires Shape(s) && me < NPROC && ExitCode(s, me, pc) == Some(m)
    ensures Elsewhere(m.next) || (m.next.Wake? && m.next.j == 0)
  {
  }

  lemma SleepLockEntry(s: State, pc: Pc, m: Move)
    requires Shape(s) && SleepLockCode(s, pc) == Some(m)
    ensures Elsewhere(m.next) || (m.next.Wake? && m.next.j == 0)
  {
  }

  lemma WakeEntry(s: State, me: nat, pc: Pc, m: Move)
    requires Shape(s) && Ok(pc, me) && Waker(pc)
    requires Some(m) == if pc.Wake? then WakeStep(s, me, pc.j, pc.ch, pc.k)
             else if pc.WakeGot? then WakeTest(s, pc.j, pc.ch, pc.k)
                        else Some(Move(Release(PLock(pc.j)), Wake(pc.j + 1, pc.ch, pc.k)))
    ensures Entry(s, me, pc, m)
  {
    hide Held;
    CallerIsElsewhere(pc, me);
  }

  lemma CallerIsElsewhere(pc: Pc, me: nat)
    requires Waker(pc) && Ok(pc, me)
    ensures Elsewhere(pc.k)
  {
    hide Held;
  }

  lemma PlainIsElsewhere(k: Pc, me: nat)
    requires Held(k, me) == {} && (Waker(k) ==> Ok(k, me))
    ensures Elsewhere(k)
  {
  }

  lemma RoutineEntry(s: State, me: nat, pc: Pc, m: Move)
    requires Shape(s) && me < NPROC && Ok(pc, me) && Routine(s, me, pc) == Some(m)
    ensures Entry(s, me, pc, m)
  {
    hide Held, ForkCode, ExitCode, WaitCode, SleepLockCode, WakeStep, WakeTest;
    if Waker(pc) {
      WakeEntry(s, me, pc, m);
    } else if ForkCode(s, me, pc) == Some(m) {
      ForkEntry(s, me, pc, m);
    } else if SleepLockCode(s, pc) == Some(m) {
      SleepLockEntry(s, pc, m);
    } else if ExitCode(s, me, pc) == Some(m) {
      ExitEntry(s, me, pc, m);
    } else if WaitCode(s, me, pc) == Some(m) {
      WaitEntry(s, me, pc, m);
    } else if pc.Yield2? {
      PlainIsElsewhere(pc.k, me);
    }
  }

  lemma SchedulerEntry(s: State, pc: Pc, m: Move)
    requires Shape(s) && Ok(pc, NPROC) && Scheduler(s, pc) == Some(m)
    ensures Entry(s, NPROC, pc, m)
  {
    hide Held, WakeStep, WakeTest, Ok;
    if Waker(pc) {
      WakeEntry(s, NPROC, pc, m);
    }
  }

  lemma CodeEntry(s: State, c: nat, a: Choice, m: Move)
    requires Shape(s) && c < NCPU && Ok(Top(s, c), Who(s, c)) && Code(s, c, a) == Some(m)
    ensures Entry(s, Who(s, c), Top(s, c), m)
  {
    hide Held, Routine, Scheduler;
    var me, pc := Who(s, c), Top(s, c);
    if a == Tick || a.Enter? {
    } else if pc.Crit? {
      PlainIsElsewhere(pc.k, me);
    } else if a == Go {
      if me < NPROC {
        RoutineEntry(s, me, pc, m);
      } else {
        SchedulerEntry(s, pc, m);
      }
    }
  }

  // ---------------------------------------------------------------- preservation

  /** A process starts to wait only by letting go of the channel's lock. */
  lemma NewWaiter(s: State, c: nat, m: Move, t: State, i: nat, ch: Chan)
    requires Inv(s) && Moves(s, c, m, t) && Entry(s, Who(s, c), Top(s, c), m) && i < NPROC
    requires Waiting(t, i, ch) && !Waiting(s, i, ch)
    ensures i == Who(s, c) && LockOf(ch) in HeldOn(s, c)
    ensures Top(s, c).Sleep1? && Top(s, c).ch == ch && m.op == Release(LockOf(ch))
  {
    hide LocksOk, PcsOk, AwayOk, CpuOk, MakersOk, OnceOk, Balanced, Next, Making;
    NextProcs(s, c, m, t);
    SwitchFacts(s, c, m);
    if m.op == SwitchIn(i) {
      PcIsOk(s, i);
      NotAsleep(s, i);
    }
  }

  lemma NotAsleep(s: State, i: nat)
    requires Shape(s) && i < NPROC && s.pcs[i].Off? && Ok(s.pcs[i], i)
    ensures !s.pcs[i].k.Sleep2? && !Waker(s.pcs[i].k)
  {
  }

  lemma WakerHolds(s: State, d: nat)
    requires Inv(s) && d < NCPU && Waker(Top(s, d))
    ensures LockOf(Top(s, d).ch) in HeldOn(s, d) && (Top(s, d).WakeGot? ==> PLock(Top(s, d).j) in HeldOn(s, d))
  {
    hide LocksOk, AwayOk, CpuOk, MakersOk, OnceOk;
    TopOk(s, d);
  }

  lemma OtherWaker(s: State, c: nat, m: Move, t: State, d: nat, i: nat)
    requires Inv(s) && Moves(s, c, m, t) && Entry(s, Who(s, c), Top(s, c), m) && WakeInv(s)
    requires d < NCPU && d != c && i < NPROC && Waker(Top(t, d)) && i < Cleared(Top(t, d)) && i != Who(t, d)
    ensures !Waiting(t, i, Top(t, d).ch)
  {
    hide Inv, Moves, Entry, Waiting, HeldOn;
    MovesShape(s, c, m, t);
    OtherTop(s, c, m, t, d);
    var ch := Top(s, d).ch;
    if Waiting(t, i, ch) {
      assert !Waiting(s, i, ch);
      NewWaiter(s, c, m, t, i, ch);
      WakerHolds(s, d);
      LockOnce(s, c, d, LockOf(ch));
    }
  }

  lemma MovesShape(s: State, c: nat, m: Move, t: State)
    requires Moves(s, c, m, t)
    ensures Shape(s) && Shape(t) && c < NCPU
  {
  }

  lemma OwnTop(s: State, c: nat, m: Move, t: State)
    requires Inv(s) && Moves(s, c, m, t)
    ensures if m.op.SwitchIn? || m.op.SwitchOut? then !Waker(Top(t, c))
            else Top(t, c) == m.next && Who(t, c) == Who(s, c)
  {
    hide LocksOk, AwayOk, MakersOk, OnceOk, Balanced, Next, Held, Ok;
    assert CpuOk(s, c);
    SwitchFacts(s, c, m);
    if m.op.SwitchIn? {
      PcIsOk(s, m.op.j);
      NotAsleep(s, m.op.j);
    }
  }

  lemma OwnWaker(s: State, c: nat, m: Move, t: State, i: nat)
    requires Inv(s) && Moves(s, c, m, t) && Entry(s, Who(s, c), Top(s, c), m) && WakeInv(s)
    requires i < NPROC && Waker(Top(t, c)) && i < Cleared(Top(t, c)) && i != Who(t, c)
    ensures !Waiting(t, i, Top(t, c).ch)
  {
    hide Inv, Moves, Waiting, HeldOn;
    MovesShape(s, c, m, t);
    OwnTop(s, c, m, t);
    var pc, next := Top(s, c), m.next;
    var ch := next.ch;
    if Waiting(t, i, ch) {
      if !Waiting(s, i, ch) {
        NewWaiter(s, c, m, t, i, ch);
      }
      if next.WakeRel? && i == next.j {
        JustWoken(s, c, m, t);
      }
    }
  }

  /** The slot that wakeup has just looked at. */
  lemma JustWoken(s: State, c: nat, m: Move, t: State)
    requires Inv(s) && Moves(s, c, m, t) && Entry(s, Who(s, c), Top(s, c), m) && m.next.WakeRel?
    requires Top(t, c) == m.next && Who(t, c) == Who(s, c)
    ensures m.next.j < NPROC && !Waiting(t, m.next.j, m.next.ch)
  {
    hide LocksOk, PcsOk, AwayOk, CpuOk, MakersOk, OnceOk, Balanced, Next, Making, HeldOn, Held;
    var j := m.next.j;
    NextProcs(s, c, m, t);
    WakerHolds(s, c);
    TopOk(s, c);
    if s.pcs[j].Sleep2? {
      SleeperHolds(s, j);
      var d: nat :| d < NCPU && s.on[d] == Some(j) && PLock(j) in HeldOn(s, d);
      LockOnce(s, c, d, PLock(j));
    }
  }

  lemma SleeperHolds(s: State, j: nat)
    requires Inv(s) && j < NPROC && s.pcs[j].Sleep2?
    ensures exists d: nat :: d < NCPU && s.on[d] == Some(j) && PLock(j) in HeldOn(s, d)
  {
    hide LocksOk, PcsOk, CpuOk, MakersOk, OnceOk;
    assert On(s, j) || AwayOk(s, j);
    var d: nat :| 0 <= d < NCPU && s.on[d] == Some(j);
    assert PLock(j) in HeldOn(s, d);
  }

  lemma StepWakeInv(s: State, c: nat, a: Choice, t: State)
    requires Inv(s) && Steps(s, c, a, t) && WakeInv(s)
    ensures Shape(t) && WakeInv(t)
  {
    hide Inv, Moves, Waiting, Code, Entry, Ok;
    var m := StepMoves(s, c, a, t);
    MovesShape(s, c, m, t);
    TopOk(s, c);
    CodeEntry(s, c, a, m);
    forall d: nat, i: nat | d < NCPU && i < NPROC && Waker(Top(t, d)) && i < Cleared(Top(t, d)) && i != Who(t, d)
      ensures !Waiting(t, i, Top(t, d).ch)
    {
      if d == c {
        OwnWaker(s, c, m, t, i);
      } else {
        OtherWaker(s, c, m, t, d, i);
      }
    }
  }

  // ---------------------------------------------------------------- whole runs

  /** The process is inside sleep() on the channel, from the moment it holds the channel's lock
      on entry until it is woken. */
  ghost predicate GoingToSleep(s: State, i: nat, ch: Chan)
    requires Shape(s) && i < NPROC
  {
    Waiting(s, i, ch) || ((s.pcs[i].Sleep0? || s.pcs[i].Sleep1?) && s.pcs[i].ch == ch)
  }

  lemma BootWake(s: State)
    requires Boot(s)
    ensures WakeInv(s)
  {
  }

  lemma {:induction false} RunWake(s: State, run: seq<Event>)
    requires Inv(s) && WakeInv(s) && IsRun(s, run)
    ensures Inv(Final(s, run)) && WakeInv(Final(s, run))
    decreases run
  {
    hide Inv, Steps, WakeInv;
    if run != [] {
      InvPreserved(s, run[0].c, run[0].a, run[0].t);
      InvShape(s);
      StepWakeInv(s, run[0].c, run[0].a, run[0].t);
      RunWake(run[0].t, run[1..]);
    }
  }

  /** No wakeup is lost: in every run from boot, when a wakeup on a channel has come to the end
      of the table, with the channel's lock still held, no process but the caller is waiting on
      that channel or on its way to. */
  lemma NoLostWakeup(s: State, run: seq<Event>, c: nat, i: nat)
    requires Boot(s) && IsRun(s, run) && c < NCPU && i < NPROC
    ensures var t := Final(s, run);
            && Shape(t)
            && (Top(t, c).Wake? && Top(t, c).j >= NPROC && i != Who(t, c) ==> !GoingToSleep(t, i, Top(t, c).ch))
  {
    hide Inv, IsRun, WakeInv, Boot, GoingToSleep;
    BootInv(s);
    InvShape(s);
    BootWake(s);
    RunWake(s, run);
    var t := Final(s, run);
    InvShape(t);
    if Top(t, c).Wake? && Top(t, c).j >= NPROC && i != Who(t, c) {
      AllAwake(t, c, i);
    }
  }

  lemma AllAwake(t: State, c: nat, i: nat)
    requires Inv(t) && WakeInv(t) && c < NCPU && i < NPROC && Top(t, c).Wake? && Top(t, c).j >= NPROC && i != Who(t, c)
    ensures !GoingToSleep(t, i, Top(t, c).ch)
  {
    hide LocksOk, PcsOk, CpuOk, MakersOk, OnceOk, HeldOn;
    var ch := Top(t, c).ch;
    if (t.pcs[i].Sleep0? || t.pcs[i].Sleep1?) && t.pcs[i].ch == ch {
      assert On(t, i) || AwayOk(t, i);
      var d: nat :| 0 <= d < NCPU && t.on[d] == Some(i);
      EntryHolds(t, d);
      WakerHolds(t, c);
      LockOnce(t, c, d, LockOf(ch));
    }
  }

  lemma EntryHolds(s: State, d: nat)
    requires Shape(s) && d < NCPU && (Top(s, d).Sleep0? || Top(s, d).Sleep1?)
    ensures LockOf(Top(s, d).ch) in HeldOn(s, d)
  {
  }
}
