/** fork, exit, reparent and wait: who is whose parent, and who frees whom. */
module ProcFamily {
  import opened Prelude
  import opened ProcMachine
  import opened ProcSafety
  import opened ProcInvariant

  ghost predicate Alive(st: St)
  {
    st == RUNNABLE || st == RUNNING || st == SLEEPING
  }

  /** How far exit has passed the children of its process to init. */
  function Swept(pc: Pc): nat
  {
    var b := Base(pc);
    if b.Reparent? then b.j else if b.ExitLock? || b.ExitSet? || b.ExitRel? || b.Dead? then NPROC else 0
  }

  ghost predicate Exiting(pc: Pc)
  {
    var b := Base(pc);
    b.Exit? || b.Reparent? || b.ExitLock? || b.ExitSet? || b.ExitRel? || b.Dead?
  }

  /** fork has recorded itself as the parent of the slot it sets up. */
  ghost predicate ParentSet(pc: Pc)
  {
    var b := Base(pc);
    b.ForkUnwait? || b.ForkLock? || b.ForkSet?
  }

  ghost predicate Parented(s: State, i: nat)
    requires Shape(s) && i < NPROC
  {
    (Alive(s.procs[i].st) || s.procs[i].st == ZOMBIE) && i != INIT ==>
      s.procs[i].parent.Some? && s.procs[i].parent.value < NPROC && Alive(s.procs[s.procs[i].parent.value].st)
  }

  ghost predicate FamInv(s: State)
    requires Shape(s)
  {
    && (forall i: nat :: i < NPROC ==> Parented(s, i) && (s.procs[i].st == UNUSED ==> s.procs[i].parent == None))
    && (forall q: nat, i: nat :: q < NPROC && i < NPROC && i < Swept(s.pcs[q]) ==> s.procs[i].parent != Some(q))
    && (forall q: nat :: q < NPROC && Making(s.pcs[q]).Some? && Making(s.pcs[q]).value < NPROC ==>
          s.procs[Making(s.pcs[q]).value].parent == if ParentSet(s.pcs[q]) then Some(q) else None)
    && Alive(s.procs[INIT].st) && !Exiting(s.pcs[INIT])
    && (forall q: nat :: q < NPROC && s.pcs[q].WaitGot? && s.pcs[q].j < NPROC ==> s.procs[s.pcs[q].j].parent == Some(q))
  }

  // ---------------------------------------------------------------- what the moving thread does

  ghost predicate FamEntry(s: State, me: nat, pc: Pc, m: Move)
    requires Shape(s) && me < NPROC
  {
    && (Swept(m.next) <= Swept(pc)
        || (pc.Reparent? && Swept(m.next) == pc.j + 1 && pc.j < NPROC
            && (m.op == SetParent(pc.j, INIT) || s.procs[pc.j].parent != Some(me)))
        || (pc.Reparent? && pc.j >= NPROC))
    && (Exiting(m.next) ==> Exiting(pc) || me != INIT)
    && (Making(m.next).Some? && Making(m.next) == Making(pc) ==>
          (ParentSet(m.next) <==> ParentSet(pc)) || (m.op == SetParent(Making(pc).value, me) && ParentSet(m.next)))
    && (m.op.Alloc? ==> !ParentSet(m.next))
    && (m.next.WaitGot? ==>
          || (pc.WaitGot? && m.next == pc)
          || (pc.WaitScan? && pc.j == m.next.j < NPROC && s.procs[pc.j].parent == Some(me)))
    && (m.op.SetParent? && pc.ForkParent? ==>
          ParentSet(m.next) && Making(m.next) == Making(pc) == Some(m.op.i) && Swept(m.next) == 0)
    && (pc.ForkSet? ==> ParentSet(pc) && Making(pc) == Some(pc.j))
    && (pc == ExitSet ==> Swept(pc) == NPROC)
    && (pc.Reparent? ==> Exiting(pc) && Making(pc) == None)
    && (pc.ForkParent? ==> Making(pc) == Some(pc.j))
    && (pc.ForkNew? ==> Making(pc) == Some(pc.j))
    && (pc.WaitGot? ==> Making(pc) == None) && (m.next.ForkFail? ==> Making(m.next) == None)
  }

  /** Facts about a thread outside yield, sleep and wakeup. */
  lemma BaseFacts(pc: Pc)
    requires Base(pc) == pc
    ensures pc.ForkSet? ==> ParentSet(pc) && Making(pc) == Some(pc.j)
    ensures pc == ExitSet ==> Swept(pc) == NPROC
    ensures pc.Reparent? ==> Exiting(pc) && Making(pc) == None
    ensures pc.ForkParent? || pc.ForkNew? ==> Making(pc) == Some(pc.j)
    ensures pc.WaitGot? || pc.ForkFail? ==> Making(pc) == None
  {
  }

  /** allocproc */
  lemma AllocFam(s: State, me: nat, pc: Pc, m: Move)
    requires Shape(s) && me < NPROC && ForkCode(s, me, pc) == Some(m)
    requires pc.Fork? || pc.ForkGot? || pc.ForkSkip? || pc.ForkFail? || pc.ForkNew?
    ensures FamEntry(s, me, pc, m)
  {
  }

  lemma ForkFam(s: State, me: nat, pc: Pc, m: Move)
    requires Shape(s) && me < NPROC && ForkCode(s, me, pc) == Some(m)
    requires !pc.Fork? && !pc.ForkGot? && !pc.ForkSkip? && !pc.ForkFail? && !pc.ForkNew?
    ensures FamEntry(s, me, pc, m)
  {
  }

  lemma WaitFam(s: State, me: nat, pc: Pc, m: Move)
    requires Shape(s) && me < NPROC && WaitCode(s, me, pc) == Some(m)
    ensures FamEntry(s, me, pc, m)
  {
    assert Base(WaitScan(0, false)) == WaitScan(0, false);
  }

  lemma ReparentFam(s: State, me: nat, j: nat, m: Move)
    requires Shape(s) && me < NPROC && ExitCode(s, me, Reparent(j)) == Some(m)
    ensures FamEntry(s, me, Reparent(j), m)
  {
    assert Base(ExitLock) == ExitLock && Base(Reparent(j + 1)) == Reparent(j + 1);
  }

  lemma ExitFam(s: State, me: nat, pc: Pc, m: Move)
    requires Shape(s) && me < NPROC && ExitCode(s, me, pc) == Some(m) && !pc.Reparent?
    ensures FamEntry(s, me, pc, m)
  {
    assert Base(Dead) == Dead;
  }

  lemma SleepLockFam(s: State, me: nat, pc: Pc, m: Move)
    requires Shape(s) && me < NPROC && SleepLockCode(s, pc) == Some(m)
    ensures FamEntry(s, me, pc, m)
  {
    if pc.Rel1? {
      assert Base(Rel2(pc.l)) == Rel2(pc.l);
    } else if pc.Acq1? {
      assert Base(Acq1(pc.l)) == Acq1(pc.l);
    }
  }

  lemma SyscallFam(s: State, me: nat, a: Choice, m: Move)
    requires Shape(s) && me < NPROC && Syscall(s, me, a) == Some(m)
    ensures FamEntry(s, me, Run, m)
  {
  }

  lemma KillFam(s: State, me: nat, pc: Pc, m: Move)
    requires Shape(s) && me < NPROC && (pc.Kill? || pc.KillGot? || pc.KillSet? || pc.KillRel?) && !m.op.Alloc?
    requires !m.op.SetParent?
    requires m.next == Run || m.next.Kill? || m.next.KillGot? || m.next.KillSet? || m.next.KillRel?
    ensures FamEntry(s, me, pc, m)
  {
  }

  lemma FailFam(s: State, me: nat, pc: Pc, m: Move)
    requires Shape(s) && me < NPROC && !m.op.Alloc? && !m.op.SetParent?
    requires || (pc == ForkRet && m.next == Run)
             || (pc.ForkNew? && m == Move(FreeProc(pc.j, false), ForkFail(pc.j)))
             || (pc.WaitGot? && m == Move(Jump, WaitFreed(pc.j)))
    ensures FamEntry(s, me, pc, m)
  {
  }

  lemma OwnFam(s: State, me: nat, pc: Pc, m: Move)
    requires Shape(s) && OwnMove(s, me, pc, m) && Duty(s, me, pc, m)
    ensures FamEntry(s, me, pc, m)
  {
    hide FamEntry, ForkCode, ExitCode, WaitCode, SleepLockCode, Held, StateAt, Making;
    if SleepLockCode(s, pc) == Some(m) {
      SleepLockFam(s, me, pc, m);
    } else if ForkCode(s, me, pc) == Some(m) {
      if pc.Fork? || pc.ForkGot? || pc.ForkSkip? || pc.ForkFail? || pc.ForkNew? {
        AllocFam(s, me, pc, m);
      } else {
        ForkFam(s, me, pc, m);
      }
    } else if ExitCode(s, me, pc) == Some(m) {
      if pc.Reparent? {
        ReparentFam(s, me, pc.j, m);
      } else {
        ExitFam(s, me, pc, m);
      }
    } else if WaitCode(s, me, pc) == Some(m) {
      WaitFam(s, me, pc, m);
    } else if pc == Run {
      var a :| Syscall(s, me, a) == Some(m);
      SyscallFam(s, me, a, m);
    } else if pc.Kill? || pc.KillGot? || pc.KillSet? || pc.KillRel? {
      KillFam(s, me, pc, m);
    } else {
      FailFam(s, me, pc, m);
    }
  }

  /** wait is never interrupted while it looks at a child. */
  lemma {:induction false} OkBase(pc: Pc, me: nat)
    requires Ok(pc, me) && Base(pc).WaitGot?
    ensures pc.WaitGot?
    decreases pc
  {
    if !pc.WaitGot? {
      OkBase(pc.k, me);
    }
  }

  lemma SameFam(s: State, me: nat, pc: Pc, m: Move)
    requires Shape(s) && me < NPROC && Base(m.next) == Base(pc) && Duty(s, me, pc, m) && Ok(pc, me)
    ensures FamEntry(s, me, pc, m)
  {
    hide Ok, Held, StateAt;
    if m.next.WaitGot? {
      assert Base(m.next) == m.next;
      OkBase(pc, me);
    }
    if m.next.ForkFail? {
      assert Base(m.next) == m.next;
      BaseFacts(m.next);
    }
    if pc.ForkSet? || pc == ExitSet || pc.Reparent? || pc.ForkParent? || pc.ForkNew? || pc.WaitGot? {
      assert Base(pc) == pc;
      BaseFacts(pc);
    }
  }

  lemma CodeFam(s: State, c: nat, a: Choice, m: Move)
    requires Inv(s) && c < NCPU && Code(s, c, a) == Some(m) && s.on[c].Some? && Duty(s, Who(s, c), Top(s, c), m)
    ensures FamEntry(s, Who(s, c), Top(s, c), m)
  {
    hide Inv, Code, FamEntry, Duty, OwnMove, Ok;
    InvShape(s);
    TopOk(s, c);
    CodeOwn(s, c, a, m);
    if OwnMove(s, Who(s, c), Top(s, c), m) {
      OwnFam(s, Who(s, c), Top(s, c), m);
    } else {
      SameFam(s, Who(s, c), Top(s, c), m);
    }
  }

  // ---------------------------------------------------------------- preservation

  /** The setting of a step: FamEntry holds of the process that moves, if it is one. */
  ghost predicate Doing(s: State, c: nat, m: Move, t: State)
  {
    Inv(s) && Moves(s, c, m, t) && FamInv(s) && (s.on[c].Some? ==> FamEntry(s, Who(s, c), Top(s, c), m))
  }

  /** What happens to a slot's parent field. */
  lemma ParentChange(s: State, c: nat, m: Move, t: State, i: nat)
    requires Doing(s, c, m, t) && i < NPROC
    ensures t.procs[i] == ProcAfter(s, m.op, i)
    ensures ProcAfter(s, m.op, i).parent != s.procs[i].parent ==>
              || (s.on[c].Some? && Top(s, c) == ForkParent(i) && m.op == SetParent(i, Who(s, c)))
              || (s.on[c].Some? && Top(s, c) == Reparent(i) && m.op == SetParent(i, INIT)
                  && s.procs[i].parent == Some(Who(s, c)))
              || (s.on[c].Some? && m.op == FreeProc(i, true) && Top(s, c) == WaitGot(i) && m.next == WaitFreed(i)
                  && s.procs[i].st == ZOMBIE)
              || (s.on[c].Some? && m.op == FreeProc(i, false) && Top(s, c) == ForkNew(i))
    ensures m.op.FreeProc? && m.op.i == i ==> t.procs[i] == BLANK
    ensures m.op.SetParent? && m.op.i == i ==> t.procs[i].parent == Some(m.op.p) && t.procs[i].st == s.procs[i].st
  {
    hide Inv, FamInv, FamEntry, Balanced, Next, Frame, Ok, Held, Making, StateAt;
    NextProcs(s, c, m, t);
  }

  lemma StaysAlive(s: State, c: nat, m: Move, t: State, q: nat)
    requires Doing(s, c, m, t) && q < NPROC && Alive(s.procs[q].st)
    ensures Alive(t.procs[q].st) || (q == Who(s, c) && Top(s, c) == ExitSet)
  {
    hide FamInv, FamEntry, Balanced, Next, Frame, Ok, Held, Making, LocksOk, PcsOk, AwayOk, CpuOk, MakersOk, OnceOk;
    NextProcs(s, c, m, t);
    if q != Who(s, c) {
      StateChange(s, c, m, q);
    } else {
      OwnAlive(s, c, m, q);
    }
  }

  lemma OwnAlive(s: State, c: nat, m: Move, q: nat)
    requires Inv(s) && c < NCPU && Duty(s, Who(s, c), Top(s, c), m) && q < NPROC && q == Who(s, c)
    requires Alive(s.procs[q].st)
    ensures Alive(ProcAfter(s, m.op, q).st) || Top(s, c) == ExitSet
  {
    hide Ok, Held, Making, LocksOk, PcsOk, AwayOk, CpuOk, MakersOk, OnceOk;
    if Top(s, c) == ForkNew(q) {
      ForkSets(s, c, q);
    }
  }

  lemma ParentedAfter(s: State, c: nat, m: Move, t: State, i: nat)
    requires Doing(s, c, m, t) && i < NPROC
    ensures Parented(t, i)
  {
    hide Inv, Moves, ProcAfter, Exiting, Making;
    MovesShape(s, c, m, t);
    ParentChange(s, c, m, t, i);
    InitLives(s, c, m, t);
    if i != INIT && (Alive(t.procs[i].st) || t.procs[i].st == ZOMBIE) {
      if Alive(s.procs[i].st) || s.procs[i].st == ZOMBIE {
        assert Parented(s, i);
        var q := s.procs[i].parent.value;
        StaysAlive(s, c, m, t, q);
        if Top(s, c) == ForkParent(i) && s.on[c].Some? {
          ForkParentIsUsed(s, c, m, t, i);
        }
      } else {
        NewlyAlive(s, c, m, t, i);
      }
    }
  }

  lemma MovesShape(s: State, c: nat, m: Move, t: State)
    requires Doing(s, c, m, t)
    ensures Shape(s) && Shape(t) && c < NCPU
  {
  }

  lemma ForkParentIsUsed(s: State, c: nat, m: Move, t: State, i: nat)
    requires Doing(s, c, m, t) && s.on[c].Some? && Top(s, c) == ForkParent(i)
    ensures i < NPROC && s.procs[i].st == USED
  {
    hide FamInv, Balanced, Next, Frame, Ok, Held, Duty, LocksOk, PcsOk, AwayOk, CpuOk, OnceOk;
    assert Making(s.pcs[Who(s, c)]) == Some(i);
  }

  lemma InitLives(s: State, c: nat, m: Move, t: State)
    requires Doing(s, c, m, t)
    ensures Alive(t.procs[INIT].st)
  {
    hide Inv, Moves, Parented;
    MovesShape(s, c, m, t);
    StaysAlive(s, c, m, t, INIT);
    if INIT == Who(s, c) && Top(s, c) == ExitSet {
      assert Base(ExitSet) == ExitSet;
    }
  }

  /** A process comes to life only in fork, with the forking process as its parent. */
  lemma NewlyAlive(s: State, c: nat, m: Move, t: State, i: nat)
    requires Doing(s, c, m, t) && i < NPROC && (Alive(t.procs[i].st) || t.procs[i].st == ZOMBIE)
    requires !Alive(s.procs[i].st) && s.procs[i].st != ZOMBIE
    ensures t.procs[i].parent == Some(Who(s, c)) && Who(s, c) < NPROC && Alive(t.procs[Who(s, c)].st)
  {
    hide Balanced, Next, Frame, Ok, Held, LocksOk, PcsOk, AwayOk, OnceOk, MakersOk, Parented, Exiting;
    NextProcs(s, c, m, t);
    if i == Who(s, c) {
      assert On(s, i);
      OnIsAlive(s, i);
    } else {
      StateChange(s, c, m, i);
      var me := Who(s, c);
      assert Top(s, c) == ForkSet(i);
      assert On(s, me);
      OnIsAlive(s, me);
      assert s.procs[me].st == RUNNING;
    }
  }

  lemma UnusedAfter(s: State, c: nat, m: Move, t: State, i: nat)
    requires Doing(s, c, m, t) && i < NPROC && t.procs[i].st == UNUSED
    ensures t.procs[i].parent == None
  {
    hide Inv, Moves, ProcAfter, Exiting, Making, Swept, FamEntry;
    MovesShape(s, c, m, t);
    ParentChange(s, c, m, t, i);
    if !(m.op.FreeProc? && m.op.i == i) {
      UnusedBefore(s, c, m, t, i);
      if s.on[c].Some? && Top(s, c) == ForkParent(i) {
        ForkParentIsUsed(s, c, m, t, i);
      }
    }
  }

  lemma UnusedBefore(s: State, c: nat, m: Move, t: State, i: nat)
    requires Doing(s, c, m, t) && i < NPROC && t.procs[i].st == UNUSED && !(m.op.FreeProc? && m.op.i == i)
    ensures s.procs[i].st == UNUSED
  {
    hide FamInv, FamEntry, Inv, Balanced, Next, Frame, Ok, Held, Making, StateAt;
    NextProcs(s, c, m, t);
  }

  /** Where exit has been, nobody's parent is the exiting process any more. */
  lemma SweptAfter(s: State, c: nat, m: Move, t: State, q: nat, i: nat)
    requires Doing(s, c, m, t) && q < NPROC && i < NPROC && i < Swept(t.pcs[q])
    ensures t.procs[i].parent != Some(q)
  {
    hide Inv, Moves, ProcAfter, Making, Parented;
    MovesShape(s, c, m, t);
    ParentChange(s, c, m, t, i);
    SweptChange(s, c, m, t, q);
  }

  lemma SweptChange(s: State, c: nat, m: Move, t: State, q: nat)
    requires Doing(s, c, m, t) && q < NPROC
    ensures Swept(t.pcs[q]) <= Swept(s.pcs[q]) || (q == Who(s, c) && t.pcs[q] == m.next)
  {
    hide Inv, Balanced, Next, Ok, Held, FamInv, FamEntry, StateAt, Making;
    if m.op == SwitchIn(q) {
      assert Base(s.pcs[q]) == Base(s.pcs[q].k);
    } else if m.op == Alloc(q) {
      assert Base(ForkRet) == ForkRet;
    }
  }

  /** A slot that fork sets up has the forking process as its parent as soon as it has one. */
  lemma MakerAfter(s: State, c: nat, m: Move, t: State, q: nat, k: nat)
    requires Doing(s, c, m, t) && q < NPROC && k < NPROC && Making(t.pcs[q]) == Some(k)
    ensures t.procs[k].parent == if ParentSet(t.pcs[q]) then Some(q) else None
  {
    hide Inv, Moves, FamInv, FamEntry, Making, ParentSet;
    MovesShape(s, c, m, t);
    MakingAfter(s, c, m, t, q);
    if Making(t.pcs[q]) != Making(s.pcs[q]) {
      NewMaker(s, c, m, t, q, k);
    } else if q != Who(s, c) {
      OtherMaker(s, c, m, t, q, k);
    } else {
      OwnMaker(s, c, m, t, q, k);
    }
  }

  lemma OtherMaker(s: State, c: nat, m: Move, t: State, q: nat, k: nat)
    requires Doing(s, c, m, t) && q < NPROC && k < NPROC && q != Who(s, c)
    requires Making(s.pcs[q]) == Making(t.pcs[q]) == Some(k)
    ensures t.procs[k].parent == if ParentSet(t.pcs[q]) then Some(q) else None
  {
    hide Moves, ProcAfter, Parented, LocksOk, PcsOk, AwayOk, CpuOk, OnceOk, Making, ParentSet, Swept, Exiting;
    MovesShape(s, c, m, t);
    ParentChange(s, c, m, t, k);
    if m.op == Alloc(q) {
      AllocNotMaking(s, c, m, t, q);
    }
    SameTraits(s, c, m, t, q);
  }

  lemma AllocNotMaking(s: State, c: nat, m: Move, t: State, q: nat)
    requires Doing(s, c, m, t) && q < NPROC && m.op == Alloc(q) && q != Who(s, c)
    ensures Making(t.pcs[q]) == None
  {
    hide Inv, Balanced, Next, Ok, Held, FamInv, FamEntry, StateAt;
    assert Base(ForkRet) == ForkRet;
  }

  lemma NewMaker(s: State, c: nat, m: Move, t: State, q: nat, k: nat)
    requires Doing(s, c, m, t) && q < NPROC && k < NPROC && q == Who(s, c) && m.op == Alloc(k)
    requires s.procs[k].st == UNUSED
    ensures !ParentSet(t.pcs[q]) && t.procs[k].parent == None
  {
    hide Inv, Balanced, Next, Ok, Held, StateAt, Making, Parented, ParentSet, Swept, Exiting;
    NextProcs(s, c, m, t);
  }

  lemma SameTraits(s: State, c: nat, m: Move, t: State, q: nat)
    requires Doing(s, c, m, t) && q < NPROC && q != Who(s, c) && m.op != Alloc(q)
    ensures ParentSet(t.pcs[q]) == ParentSet(s.pcs[q]) && Exiting(t.pcs[q]) == Exiting(s.pcs[q])
  {
    hide Inv, Balanced, Next, Ok, Held, FamInv, FamEntry, StateAt, Making;
    if m.op == SwitchIn(q) {
      assert Base(s.pcs[q]) == Base(s.pcs[q].k);
    }
  }

  lemma OwnMaker(s: State, c: nat, m: Move, t: State, q: nat, k: nat)
    requires Doing(s, c, m, t) && q < NPROC && k < NPROC && q == Who(s, c)
    requires Making(s.pcs[q]) == Making(t.pcs[q]) == Some(k)
    ensures t.procs[k].parent == if ParentSet(t.pcs[q]) then Some(q) else None
  {
    hide Inv, Balanced, Next, Ok, Held, StateAt, Making, Parented, ParentSet, Swept, Exiting, ProcAfter;
    ParentChange(s, c, m, t, k);
  }

  lemma InitStays(s: State, c: nat, m: Move, t: State)
    requires Doing(s, c, m, t)
    ensures !Exiting(t.pcs[INIT])
  {
    hide Inv, Moves, Exiting, Parented;
    MovesShape(s, c, m, t);
    if INIT == Who(s, c) {
      OwnNext(s, c, m, t);
    } else if m.op == Alloc(INIT) {
      AllocUnused(s, c, m, t);
    } else {
      SameTraits(s, c, m, t, INIT);
    }
  }

  lemma OwnNext(s: State, c: nat, m: Move, t: State)
    requires Doing(s, c, m, t) && s.on[c].Some?
    ensures t.pcs[Who(s, c)] == m.next && s.pcs[Who(s, c)] == Top(s, c)
  {
    hide Inv, Balanced, Next, Ok, Held, FamInv, FamEntry, StateAt, Duty;
  }

  lemma AllocUnused(s: State, c: nat, m: Move, t: State)
    requires Doing(s, c, m, t) && m.op.Alloc?
    ensures m.op.i < NPROC && s.procs[m.op.i].st == UNUSED
  {
    hide Inv, Balanced, Next, Ok, Held, FamInv, FamEntry, StateAt, Frame;
  }

  /** While wait looks at a child, nobody changes whose child it is. */
  lemma WaitGotAfter(s: State, c: nat, m: Move, t: State, q: nat, j: nat)
    requires Doing(s, c, m, t) && q < NPROC && j < NPROC && t.pcs[q] == WaitGot(j)
    ensures t.procs[j].parent == Some(q)
  {
    hide Inv, Moves, Exiting, Parented, Swept, Making, ParentSet, ProcAfter;
    MovesShape(s, c, m, t);
    ParentChange(s, c, m, t, j);
    if q == Who(s, c) {
      OwnNext(s, c, m, t);
    } else {
      WaitGotBefore(s, c, m, t, q, j);
      var d := WaiterHolds(s, q, j);
      WritersHold(s, c, j);
      if s.on[c].Some? && (Top(s, c) == ForkParent(j) || Top(s, c) == Reparent(j) || Top(s, c) == WaitGot(j)) {
        LockOnce(s, c, d, WaitLock);
      } else if s.on[c].Some? && Top(s, c) == ForkNew(j) {
        LockOnce(s, c, d, PLock(j));
      }
    }
  }

  lemma WaitGotBefore(s: State, c: nat, m: Move, t: State, q: nat, j: nat)
    requires Doing(s, c, m, t) && q < NPROC && t.pcs[q] == WaitGot(j) && q != Who(s, c)
    ensures s.pcs[q] == WaitGot(j)
  {
    hide Inv, Balanced, Next, Held, FamInv, FamEntry, StateAt;
    if m.op == SwitchIn(q) {
      PcIsOk(s, q);
    }
  }

  lemma WaiterHolds(s: State, q: nat, j: nat) returns (d: nat)
    requires Inv(s) && q < NPROC && s.pcs[q] == WaitGot(j)
    ensures d < NCPU && s.on[d] == Some(q) && WaitLock in HeldOn(s, d) && PLock(j) in HeldOn(s, d)
  {
    hide LocksOk, PcsOk, CpuOk, MakersOk, OnceOk;
    assert On(s, q) || AwayOk(s, q);
    d :| 0 <= d < NCPU && s.on[d] == Some(q);
  }

  lemma WritersHold(s: State, c: nat, j: nat)
    requires Shape(s) && c < NCPU
    ensures Top(s, c) == ForkParent(j) || Top(s, c) == Reparent(j) || Top(s, c) == WaitGot(j) ==>
              WaitLock in HeldOn(s, c)
    ensures Top(s, c) == ForkNew(j) ==> PLock(j) in HeldOn(s, c)
  {
  }

  lemma StepFam(s: State, c: nat, a: Choice, t: State)
    requires Inv(s) && FamInv(s) && Steps(s, c, a, t)
    ensures Shape(t) && FamInv(t)
  {
    hide Inv, FamInv, Code, Moves, FamEntry, Duty;
    var m := StepMoves(s, c, a, t);
    MovesDuty(s, c, m, t);
    if s.on[c].Some? {
      CodeFam(s, c, a, m);
    }
    DoingFam(s, c, m, t);
  }

  lemma MovesDuty(s: State, c: nat, m: Move, t: State)
    requires Moves(s, c, m, t)
    ensures Shape(s) && Shape(t) && c < NCPU && Duty(s, Who(s, c), Top(s, c), m)
  {
  }

  lemma DoingFam(s: State, c: nat, m: Move, t: State)
    requires Doing(s, c, m, t)
    ensures Shape(t) && FamInv(t)
  {
    hide Doing, Parented, Swept, Making, ParentSet, Exiting;
    MovesShape(s, c, m, t);
    forall i: nat | i < NPROC
      ensures Parented(t, i) && (t.procs[i].st == UNUSED ==> t.procs[i].parent == None)
    {
      ParentedAfter(s, c, m, t, i);
      if t.procs[i].st == UNUSED {
        UnusedAfter(s, c, m, t, i);
      }
    }
    forall q: nat, i: nat | q < NPROC && i < NPROC && i < Swept(t.pcs[q])
      ensures t.procs[i].parent != Some(q)
    {
      SweptAfter(s, c, m, t, q, i);
    }
    forall q: nat | q < NPROC && Making(t.pcs[q]).Some? && Making(t.pcs[q]).value < NPROC
      ensures t.procs[Making(t.pcs[q]).value].parent == if ParentSet(t.pcs[q]) then Some(q) else None
    {
      MakerAfter(s, c, m, t, q, Making(t.pcs[q]).value);
    }
    InitLives(s, c, m, t);
    InitStays(s, c, m, t);
    forall q: nat | q < NPROC && t.pcs[q].WaitGot? && t.pcs[q].j < NPROC
      ensures t.procs[t.pcs[q].j].parent == Some(q)
    {
      WaitGotAfter(s, c, m, t, q, t.pcs[q].j);
    }
  }

  // ---------------------------------------------------------------- whole runs

  lemma BootFam(s: State)
    requires Boot(s)
    ensures FamInv(s)
  {
    assert Base(ForkRet) == ForkRet && Base(Dead) == Dead;
    forall q: nat | q < NPROC
      ensures Making(s.pcs[q]) == None && (q == INIT ==> !Exiting(s.pcs[q]))
    {
    }
  }

  lemma {:induction false} RunFam(s: State, run: seq<Event>)
    requires Inv(s) && FamInv(s) && IsRun(s, run)
    ensures Inv(Final(s, run)) && FamInv(Final(s, run))
    decreases run
  {
    hide Inv, Steps, FamInv;
    if run != [] {
      InvPreserved(s, run[0].c, run[0].a, run[0].t);
      InvShape(s);
      StepFam(s, run[0].c, run[0].a, run[0].t);
      RunFam(run[0].t, run[1..]);
    }
  }

  /** In every run from boot: a process that has come to life, other than init, has a parent
      that is alive, neither exited nor freed; a process that has exited is nobody's parent. */
  lemma ParentsAreAlive(s: State, run: seq<Event>, i: nat)
    requires Boot(s) && IsRun(s, run) && i < NPROC
    ensures var t := Final(s, run); Shape(t) && Parented(t, i)
    ensures var t := Final(s, run); t.procs[i].st == ZOMBIE ==>
              forall k: nat :: k < NPROC ==> t.procs[k].parent != Some(i)
  {
    hide Inv, IsRun, Boot, Parented, Making, ParentSet, Exiting, Swept;
    BootInv(s);
    InvShape(s);
    BootFam(s);
    RunFam(s, run);
    var t := Final(s, run);
    InvShape(t);
    if t.procs[i].st == ZOMBIE {
      ZombieSwept(t, i);
    }
  }

  /** In every step of every run from boot: the parent of a process that has come to life changes
      only from a process that is exiting, by its own doing, to init; otherwise the slot is freed. */
  lemma OrphansGoToInit(s: State, run: seq<Event>, c: nat, a: Choice, u: State, i: nat)
    requires Boot(s) && IsRun(s, run) && Steps(Final(s, run), c, a, u) && i < NPROC
    ensures var t := Final(s, run);
            && Shape(t) && Shape(u)
            && ((Alive(t.procs[i].st) || t.procs[i].st == ZOMBIE) && u.procs[i].parent != t.procs[i].parent ==>
                  if u.procs[i].st == UNUSED then t.procs[i].st == ZOMBIE
                  else && t.on[c].Some? && t.procs[i].parent == Some(Who(t, c)) && Exiting(t.pcs[Who(t, c)])
                       && u.procs[i].parent == Some(INIT) && u.procs[i].st == t.procs[i].st)
  {
    hide Inv, IsRun, Boot, FamInv, Code, Moves, FamEntry, Duty;
    BootInv(s);
    InvShape(s);
    BootFam(s);
    RunFam(s, run);
    var t := Final(s, run);
    InvShape(t);
    var m := StepMoves(t, c, a, u);
    MovesDuty(t, c, m, u);
    if t.on[c].Some? {
      CodeFam(t, c, a, m);
    }
    ParentPassed(t, c, m, u, i);
  }

  lemma ParentPassed(s: State, c: nat, m: Move, t: State, i: nat)
    requires Doing(s, c, m, t) && i < NPROC && Shape(s) && Shape(t) && c < NCPU
    ensures (Alive(s.procs[i].st) || s.procs[i].st == ZOMBIE) && t.procs[i].parent != s.procs[i].parent ==>
              if t.procs[i].st == UNUSED then s.procs[i].st == ZOMBIE
              else && s.on[c].Some? && s.procs[i].parent == Some(Who(s, c)) && Exiting(s.pcs[Who(s, c)])
                   && t.procs[i].parent == Some(INIT) && t.procs[i].st == s.procs[i].st
  {
    hide Doing, ProcAfter, Making, ParentSet;
    ParentChange(s, c, m, t, i);
    if s.on[c].Some? && Top(s, c) == ForkParent(i) {
      ForkParentIsUsed(s, c, m, t, i);
    }
    if s.on[c].Some? && Top(s, c) == ForkNew(i) {
      ForkNewIsUsed(s, c, m, t, i);
    }
    assert Base(Reparent(i)) == Reparent(i);
  }

  lemma ForkNewIsUsed(s: State, c: nat, m: Move, t: State, i: nat)
    requires Doing(s, c, m, t) && s.on[c].Some? && Top(s, c) == ForkNew(i)
    ensures i < NPROC && s.procs[i].st == USED
  {
    hide FamInv, Balanced, Next, Frame, Ok, Held, Duty, LocksOk, PcsOk, AwayOk, CpuOk, OnceOk;
    assert Making(s.pcs[Who(s, c)]) == Some(i);
  }

  lemma ZombieSwept(t: State, i: nat)
    requires Inv(t) && i < NPROC && t.procs[i].st == ZOMBIE
    ensures Swept(t.pcs[i]) == NPROC
  {
    hide LocksOk, MakersOk, OnceOk, Held;
    if On(t, i) {
      var c: nat :| 0 <= c < NCPU && t.on[c] == Some(i);
      assert CpuOk(t, c);
      PcIsOk(t, i);
      if t.pcs[i].Sched? {
        assert Base(t.pcs[i]) == Base(Dead) == Dead;
      }
    } else {
      assert AwayOk(t, i);
      PcIsOk(t, i);
      assert Base(t.pcs[i]) == Base(Dead) == Dead;
    }
  }

  /** In every run from boot, a slot is freed by wait only when its process has exited and has
      left its stack for good, and only by the process that is its parent at that moment. */
  lemma ReapedByParent(s: State, run: seq<Event>, c: nat, a: Choice, k: nat)
    requires Boot(s) && IsRun(s, run) && c < NCPU
    ensures var t := Final(s, run);
            Shape(t) && (Code(t, c, a).Some? && Code(t, c, a).value.op == FreeProc(k, true) ==>
              && k < NPROC && t.on[c].Some? && k != Who(t, c) && t.procs[k].st == ZOMBIE && !On(t, k)
              && t.procs[k].parent == Some(Who(t, c)))
  {
    hide Inv, IsRun, Boot, FamInv, Code;
    BootInv(s);
    InvShape(s);
    BootFam(s);
    RunFam(s, run);
    var t := Final(s, run);
    InvShape(t);
    if Code(t, c, a).Some? && Code(t, c, a).value.op == FreeProc(k, true) {
      TopOk(t, c);
      CodeDuty(t, c, a, Code(t, c, a).value);
      Reaping(t, c, Code(t, c, a).value, k);
    }
  }

  lemma Reaping(t: State, c: nat, m: Move, k: nat)
    requires Inv(t) && FamInv(t) && c < NCPU && Duty(t, Who(t, c), Top(t, c), m) && m.op == FreeProc(k, true)
    ensures k < NPROC && t.on[c].Some? && k != Who(t, c) && t.procs[k].st == ZOMBIE && !On(t, k)
    ensures t.procs[k].parent == Some(Who(t, c))
  {
    hide LocksOk, PcsOk, AwayOk, CpuOk, MakersOk, OnceOk, Held, HeldOn, Parented, Swept, Making, ParentSet, Exiting;
    var me := Who(t, c);
    assert On(t, me);
    OnIsAlive(t, me);
    var h := WaiterHolds(t, me, k);
    if On(t, k) {
      var d: nat :| 0 <= d < NCPU && t.on[d] == Some(k);
      LeavingHolds(t, d);
      LockOnce(t, h, d, PLock(k));
    }
  }

  // ---------------------------------------------------------------- pids

  /** Pids in use are distinct and below nextpid, and none has been reaped; none is reaped twice. */
  ghost predicate PidInv(s: State)
    requires Shape(s)
  {
    && (forall i: nat :: i < NPROC && s.procs[i].st != UNUSED ==>
          s.procs[i].pid < s.nextpid && s.procs[i].pid !in s.reaped)
    && (forall i: nat, j: nat :: i < j < NPROC && s.procs[i].st != UNUSED && s.procs[j].st != UNUSED ==>
          s.procs[i].pid != s.procs[j].pid)
    && (forall n :: n in s.reaped ==> n < s.nextpid)
    && (forall x, y :: 0 <= x < y < |s.reaped| ==> s.reaped[x] != s.reaped[y])
  }

  lemma EffectPids(s: State, c: nat, m: Move, t: State)
    requires Moves(s, c, m, t)
    ensures m.op.Alloc? && m.op.i < NPROC ==> t.nextpid == s.nextpid + 1 && t.reaped == s.reaped
    ensures m.op.FreeProc? && m.op.i < NPROC ==>
              t.nextpid == s.nextpid && t.reaped == if m.op.reap then s.reaped + [s.procs[m.op.i].pid] else s.reaped
    ensures !m.op.Alloc? && !m.op.FreeProc? ==> t.nextpid == s.nextpid && t.reaped == s.reaped
  {
    hide Frame, Balanced, Duty, Ok;
  }

  /** Whose pid changes. */
  lemma PidChange(s: State, c: nat, m: Move, t: State, i: nat)
    requires Inv(s) && Moves(s, c, m, t) && i < NPROC
    ensures if m.op == Alloc(i) then t.procs[i].pid == s.nextpid && s.procs[i].st == UNUSED
            else if m.op.FreeProc? && m.op.i == i then t.procs[i].st == UNUSED && s.procs[i].st != UNUSED
            else t.procs[i].pid == s.procs[i].pid && (t.procs[i].st == UNUSED <==> s.procs[i].st == UNUSED)
  {
    hide LocksOk, PcsOk, AwayOk, CpuOk, OnceOk, MakersOk, Balanced, Next, Frame, Ok, Held, Making, StateAt;
    NextProcs(s, c, m, t);
    if m.op == FreeProc(i, false) {
      ForkSets(s, c, i);
    }
    if Who(s, c) < NPROC {
      assert On(s, Who(s, c));
      OnIsAlive(s, Who(s, c));
    }
    if m.op.SetState? && m.op.i == i && Top(s, c) == ForkSet(i) {
      if s.on[c].Some? {
        ForkSets(s, c, i);
      }
    }
  }

  lemma StepPid(s: State, c: nat, m: Move, t: State)
    requires Inv(s) && Moves(s, c, m, t) && PidInv(s)
    ensures Shape(t) && PidInv(t)
  {
    hide Inv, Moves;
    MovesDuty(s, c, m, t);
    EffectPids(s, c, m, t);
    IndexOk(s, c, m, t);
    forall i: nat | i < NPROC
      ensures if m.op == Alloc(i) then t.procs[i].pid == s.nextpid && s.procs[i].st == UNUSED
              else if m.op.FreeProc? && m.op.i == i then t.procs[i].st == UNUSED && s.procs[i].st != UNUSED
              else t.procs[i].pid == s.procs[i].pid && (t.procs[i].st == UNUSED <==> s.procs[i].st == UNUSED)
    {
      PidChange(s, c, m, t, i);
    }
  }

  lemma IndexOk(s: State, c: nat, m: Move, t: State)
    requires Inv(s) && Moves(s, c, m, t)
    ensures m.op.Alloc? || m.op.FreeProc? ==> m.op.i < NPROC
  {
    hide LocksOk, PcsOk, AwayOk, CpuOk, OnceOk, MakersOk, Balanced, Next, Frame, Ok, Held, Making, StateAt;
    if m.op.FreeProc? && !m.op.reap {
      ForkSets(s, c, m.op.i);
    }
  }

  lemma {:induction false} RunPid(s: State, run: seq<Event>)
    requires Inv(s) && PidInv(s) && IsRun(s, run)
    ensures Inv(Final(s, run)) && PidInv(Final(s, run))
    decreases run
  {
    hide Inv, Steps, PidInv, Moves;
    if run != [] {
      InvPreserved(s, run[0].c, run[0].a, run[0].t);
      InvShape(s);
      var m := StepMoves(s, run[0].c, run[0].a, run[0].t);
      StepPid(s, run[0].c, m, run[0].t);
      RunPid(run[0].t, run[1..]);
    }
  }

  /** In every run from boot, no process is reaped twice. */
  lemma ReapedOnce(s: State, run: seq<Event>, x: nat, y: nat)
    requires Boot(s) && IsRun(s, run)
    ensures var r := Final(s, run).reaped; x < y < |r| ==> r[x] != r[y]
  {
    hide Inv, IsRun;
    BootInv(s);
    InvShape(s);
    RunPid(s, run);
    InvShape(Final(s, run));
  }
}
