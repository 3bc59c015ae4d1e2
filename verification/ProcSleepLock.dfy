/** kernel/sleeplock.c over the process protocol: a sleep-lock has at most one holder. */
module ProcSleepLock {
  import opened Prelude
  import opened ProcMachine
  import opened ProcSafety
  import opened ProcInvariant

  /** The process is on its way to release sleep-lock l. */
  ghost predicate Releasing(pc: Pc, l: nat)
  {
    Base(pc) == Rel(l) || Base(pc) == Rel1(l)
  }

  ghost predicate Recorded(sl: map<nat, nat>, has: seq<set<nat>>)
    requires |has| == NPROC
  {
    && (forall l :: l in sl ==> sl[l] < NPROC && l in has[sl[l]])
    && (forall i: nat, l: nat :: i < NPROC && l in has[i] ==> l in sl && sl[l] == i)
  }

  lemma LockedOnce(sl: map<nat, nat>, has: seq<set<nat>>, l: nat, i: nat, j: nat)
    requires |has| == NPROC && Recorded(sl, has) && i < NPROC && j < NPROC
    ensures l in has[i] && l in has[j] ==> i == j
    ensures l in sl <==> exists h: nat :: h < NPROC && l in has[h]
  {
    if l in has[i] && l in has[j] {
      assert sl[l] == i && sl[l] == j;
    }
  }

  /** Locking a lock that nobody has, and unlocking one that the process has. */
  lemma Rerecorded(sl: map<nat, nat>, has: seq<set<nat>>, l: nat, me: nat)
    requires |has| == NPROC && Recorded(sl, has) && me < NPROC
    ensures l !in sl ==> Recorded(sl[l := me], has[me := has[me] + {l}])
    ensures l in has[me] ==> Recorded(sl - {l}, has[me := has[me] - {l}])
  {
    if l in has[me] {
      var sl', has' := sl - {l}, has[me := has[me] - {l}];
      forall i: nat, x: nat | i < NPROC && x in has'[i]
        ensures x in sl' && sl'[x] == i
      {
        assert x in has[i] && sl[x] == i && sl[l] == me;
        assert x == l ==> i == me;
      }
    }
  }

  /** A sleep-lock that is locked records the one process that has it, and a process has only
      locks that record it; the thread about to lock one has found it unlocked. */
  ghost predicate SlInv(s: State)
    requires Shape(s)
  {
    && Recorded(s.sl, s.has)
    && (forall i: nat, l: nat :: i < NPROC && s.pcs[i] == Acq2(l) ==> l !in s.sl)
    && (forall i: nat, l: nat :: i < NPROC && Releasing(s.pcs[i], l) ==> l in s.has[i])
  }

  lemma EffectSl(s: State, c: nat, m: Move, t: State)
    requires Moves(s, c, m, t)
    ensures var me := Who(s, c);
            if me < NPROC && m.op.LockSleep?
              then t.sl == s.sl[m.op.sl := me] && t.has == s.has[me := s.has[me] + {m.op.sl}]
            else if me < NPROC && m.op.UnlockSleep?
              then t.sl == s.sl - {m.op.sl} && t.has == s.has[me := s.has[me] - {m.op.sl}]
            else t.sl == s.sl && t.has == s.has
  {
    hide Frame, Balanced, Duty, Ok;
  }

  /** How a thread gets to the point where it locks, and to release. */
  ghost predicate SlEntry(s: State, me: nat, pc: Pc, m: Move)
    requires Shape(s)
  {
    && (forall l: nat :: m.next == Acq2(l) ==> pc == Acq1(l) && l !in s.sl && m.op == Jump)
    && (forall l: nat :: Releasing(m.next, l) ==> Releasing(pc, l) || (me < NPROC && l in s.has[me]))
    && (m.op.UnlockSleep? ==> !Releasing(m.next, m.op.sl))
  }

  lemma OwnSlEntry(s: State, me: nat, pc: Pc, m: Move)
    requires Shape(s) && OwnMove(s, me, pc, m) && Duty(s, me, pc, m)
    ensures SlEntry(s, me, pc, m)
  {
    hide SlEntry, ForkCode, ExitCode, WaitCode, SleepLockCode, Held, StateAt, Making;
    if SleepLockCode(s, pc) == Some(m) {
      SleepLockSlEntry(s, me, pc, m);
    } else if ForkCode(s, me, pc) == Some(m) {
      ForkSlEntry(s, me, pc, m);
    } else if ExitCode(s, me, pc) == Some(m) {
      ExitSlEntry(s, me, pc, m);
    } else if WaitCode(s, me, pc) == Some(m) {
      WaitSlEntry(s, me, pc, m);
    } else if pc == Run {
      var a :| Syscall(s, me, a) == Some(m);
      SyscallSlEntry(s, me, a, m);
    } else {
      RestSlEntry(s, me, pc, m);
    }
  }

  lemma SyscallSlEntry(s: State, me: nat, a: Choice, m: Move)
    requires Shape(s) && me < NPROC && Syscall(s, me, a) == Some(m)
    ensures SlEntry(s, me, Run, m)
  {
  }

  lemma RestSlEntry(s: State, me: nat, pc: Pc, m: Move)
    requires Shape(s) && !m.op.UnlockSleep?
    requires m.next == Run || m.next.Kill? || m.next.KillGot? || m.next.KillSet? || m.next.KillRel? || m.next.ForkFail?
             || m.next.WaitFreed?
    ensures SlEntry(s, me, pc, m)
  {
  }

  lemma SleepLockSlEntry(s: State, me: nat, pc: Pc, m: Move)
    requires Shape(s) && SleepLockCode(s, pc) == Some(m)
    ensures SlEntry(s, me, pc, m)
  {
    if pc.Rel1? {
      assert Base(m.next) == Base(Rel2(pc.l)) == Rel2(pc.l);
    } else if pc.Acq1? {
      assert Base(Acq1(pc.l)) == Acq1(pc.l);
    }
  }

  lemma ForkSlEntry(s: State, me: nat, pc: Pc, m: Move)
    requires Shape(s) && me < NPROC && ForkCode(s, me, pc) == Some(m)
    ensures SlEntry(s, me, pc, m)
  {
  }

  lemma ExitSlEntry(s: State, me: nat, pc: Pc, m: Move)
    requires Shape(s) && me < NPROC && ExitCode(s, me, pc) == Some(m)
    ensures SlEntry(s, me, pc, m)
  {
    if pc.Reparent? {
      assert Base(ExitLock) == ExitLock && Base(Reparent(pc.j + 1)) == Reparent(pc.j + 1);
    }
    assert Base(Dead) == Dead;
  }

  lemma WaitSlEntry(s: State, me: nat, pc: Pc, m: Move)
    requires Shape(s) && me < NPROC && WaitCode(s, me, pc) == Some(m)
    ensures SlEntry(s, me, pc, m)
  {
    assert Base(WaitScan(0, false)) == WaitScan(0, false);
  }

  /** The moment before a sleep-lock is taken is never interrupted. */
  lemma {:induction false} OkBase(pc: Pc, me: nat)
    requires Ok(pc, me) && Base(pc).Acq2?
    ensures pc.Acq2?
    decreases pc
  {
    if !pc.Acq2? {
      OkBase(pc.k, me);
    }
  }

  /** What becomes of the thread that moves. */
  lemma MoverEntry(s: State, c: nat, a: Choice, m: Move)
    requires Inv(s) && c < NCPU && Code(s, c, a) == Some(m) && SlInv(s) && s.on[c].Some?
    requires Duty(s, Who(s, c), Top(s, c), m) && !m.op.SwitchOut?
    ensures forall l: nat :: m.next == Acq2(l) ==> l !in s.sl && !m.op.LockSleep?
    ensures forall l: nat :: Releasing(m.next, l) ==> l in s.has[Who(s, c)] && !m.op.UnlockSleep?
    ensures m.op.LockSleep? ==> m.op.sl !in s.sl
    ensures m.op.UnlockSleep? ==> m.op.sl in s.has[Who(s, c)]
  {
    hide LocksOk, PcsOk, AwayOk, CpuOk, MakersOk, OnceOk, Code, OwnMove, Ok, Held, StateAt, Making;
    var me, pc := Who(s, c), Top(s, c);
    TopOk(s, c);
    CodeOwn(s, c, a, m);
    RelBase(pc, m);
    if OwnMove(s, me, pc, m) {
      OwnSlEntry(s, me, pc, m);
    } else if m.next.Acq2? {
      assert Base(pc) == m.next;
      OkBase(pc, me);
    }
  }

  lemma RelBase(pc: Pc, m: Move)
    ensures pc.Rel1? ==> Releasing(pc, pc.l)
    ensures m.next.Acq2? ==> Base(m.next) == m.next
    ensures m.op.UnlockSleep? && m.next == Wake(0, OfSleepLock(m.op.sl), Rel2(m.op.sl)) ==>
              Base(m.next) == Rel2(m.op.sl)
  {
    if m.op.UnlockSleep? {
      assert Base(Rel2(m.op.sl)) == Rel2(m.op.sl);
    }
  }

  lemma StepSlInv(s: State, c: nat, a: Choice, t: State)
    requires Inv(s) && SlInv(s) && Steps(s, c, a, t)
    ensures Shape(t) && SlInv(t)
  {
    hide Inv, SlInv, Code, Moves, Duty;
    var m := StepMoves(s, c, a, t);
    MoveFacts(s, c, m, t);
    if s.on[c].Some? && !m.op.SwitchOut? {
      MoverEntry(s, c, a, m);
    }
    EffectSl(s, c, m, t);
    SlKept(s, c, m, t);
  }

  lemma MoveFacts(s: State, c: nat, m: Move, t: State)
    requires Moves(s, c, m, t)
    ensures Shape(s) && Shape(t) && c < NCPU && Frame(s, c, m, t) && Duty(s, Who(s, c), Top(s, c), m)
  {
  }

  lemma SlKept(s: State, c: nat, m: Move, t: State)
    requires Inv(s) && SlInv(s) && Moves(s, c, m, t)
    requires s.on[c].Some? && !m.op.SwitchOut? ==>
               && (forall l: nat :: m.next == Acq2(l) ==> l !in s.sl && !m.op.LockSleep?)
               && (forall l: nat :: Releasing(m.next, l) ==> l in s.has[Who(s, c)] && !m.op.UnlockSleep?)
               && (m.op.LockSleep? ==> m.op.sl !in s.sl) && (m.op.UnlockSleep? ==> m.op.sl in s.has[Who(s, c)])
    ensures SlInv(t)
  {
    hide LocksOk, PcsOk, AwayOk, CpuOk, MakersOk, OnceOk, Next, Balanced, Held, Ok, Releasing, Making, StateAt,
      Recorded, Frame;
    EffectSl(s, c, m, t);
    if s.on[c].Some? && (m.op.LockSleep? || m.op.UnlockSleep?) {
      Rerecorded(s.sl, s.has, m.op.sl, Who(s, c));
    }
    forall i: nat, l: nat | i < NPROC && t.pcs[i] == Acq2(l)
      ensures l !in t.sl
    {
      Acq2Kept(s, c, m, t, i, l);
    }
    forall i: nat, l: nat | i < NPROC && Releasing(t.pcs[i], l)
      ensures l in t.has[i]
    {
      ReleasingKept(s, c, m, t, i, l);
    }
  }

  lemma Acq2Kept(s: State, c: nat, m: Move, t: State, i: nat, l: nat)
    requires Inv(s) && SlInv(s) && Moves(s, c, m, t) && i < NPROC && t.pcs[i] == Acq2(l)
    requires s.on[c].Some? && !m.op.SwitchOut? ==> m.next == Acq2(l) ==> l !in s.sl && !m.op.LockSleep?
    ensures l !in t.sl
  {
    hide LocksOk, PcsOk, CpuOk, MakersOk, OnceOk, Next, Balanced, Held, Ok, Making, StateAt, HeldOn, Releasing;
    EffectSl(s, c, m, t);
    SwitchFacts(s, c, m);
    if m.op == SwitchIn(i) {
      PcIsOk(s, i);
      NotAcq2(s, i);
    } else if i != Who(s, c) && m.op == LockSleep(l) && s.on[c].Some? {
      assert On(s, i) || AwayOk(s, i);
      var d: nat :| 0 <= d < NCPU && s.on[d] == Some(i);
      Acq2Holds(s, d, l);
      Acq2Holds(s, c, l);
      LockOnce(s, c, d, Inner(l));
    }
  }

  lemma NotAcq2(s: State, i: nat)
    requires Shape(s) && i < NPROC && s.pcs[i].Off? && Ok(s.pcs[i], i)
    ensures !s.pcs[i].k.Acq2?
  {
  }

  lemma Acq2Holds(s: State, d: nat, l: nat)
    requires Shape(s) && d < NCPU && Top(s, d) == Acq2(l)
    ensures Inner(l) in HeldOn(s, d)
  {
  }

  lemma ReleasingKept(s: State, c: nat, m: Move, t: State, i: nat, l: nat)
    requires Inv(s) && SlInv(s) && Moves(s, c, m, t) && i < NPROC && Releasing(t.pcs[i], l)
    requires s.on[c].Some? && !m.op.SwitchOut? ==> Releasing(m.next, l) ==> l in s.has[Who(s, c)] && !m.op.UnlockSleep?
    ensures l in t.has[i]
  {
    hide LocksOk, PcsOk, CpuOk, MakersOk, OnceOk, Next, Balanced, Held, Ok, Making, StateAt, HeldOn, AwayOk;
    EffectSl(s, c, m, t);
    SwitchFacts(s, c, m);
    if m.op == SwitchIn(i) {
      assert Base(s.pcs[i]) == Base(s.pcs[i].k);
    } else if m.op.SwitchOut? && i == Who(s, c) {
      assert Base(s.pcs[i]) == Base(s.pcs[i].k) == Base(Off(s.pcs[i].k));
    } else if m.op == Alloc(i) {
      assert Base(ForkRet) == ForkRet;
    }
  }

  lemma BootSl(s: State)
    requires Boot(s)
    ensures SlInv(s)
  {
    forall i: nat, l: nat | i < NPROC
      ensures !Releasing(s.pcs[i], l) && s.pcs[i] != Acq2(l)
    {
      assert Base(ForkRet) == ForkRet && Base(Dead) == Dead;
    }
  }

  lemma {:induction false} RunSl(s: State, run: seq<Event>)
    requires Inv(s) && SlInv(s) && IsRun(s, run)
    ensures Inv(Final(s, run)) && SlInv(Final(s, run))
    decreases run
  {
    hide Inv, Steps, SlInv;
    if run != [] {
      InvPreserved(s, run[0].c, run[0].a, run[0].t);
      InvShape(s);
      StepSlInv(s, run[0].c, run[0].a, run[0].t);
      RunSl(run[0].t, run[1..]);
    }
  }

  /** In every run from boot no sleep-lock is held by two processes, and one is held exactly
      when it is locked. */
  lemma OneHolder(s: State, run: seq<Event>, l: nat, i: nat, j: nat)
    requires Boot(s) && IsRun(s, run) && i < NPROC && j < NPROC
    ensures var t := Final(s, run);
            && Shape(t) && (l in t.has[i] && l in t.has[j] ==> i == j)
            && (l in t.sl <==> exists h: nat :: h < NPROC && l in t.has[h])
  {
    hide Inv, IsRun, Boot, Releasing, Recorded;
    BootInv(s);
    InvShape(s);
    BootSl(s);
    RunSl(s, run);
    var t := Final(s, run);
    InvShape(t);
    LockedOnce(t.sl, t.has, l, i, j);
  }
}
