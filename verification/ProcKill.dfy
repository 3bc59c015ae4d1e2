/** Who is killed: as long as nobody calls kill(0), a new process starts out unkilled. An unused slot has pid 0,
    and kill does not look at the state, so kill(0) marks an unused slot, and the next process made there
    is killed before it has done anything. */
module ProcKill {
  import opened Prelude
  import opened ProcMachine
  import opened ProcSafety
  import opened ProcInvariant

  /** The pid that the thread looks for, if it is in kill. */
  function Target(pc: Pc): Option<nat>
  {
    var b := Base(pc);
    if b.Kill? || b.KillGot? || (b.KillRel? && !b.found) then Some(b.pid) else None
  }

  /** Unused slots are blank, used ones have a pid, and nobody looks for pid 0. */
  ghost predicate Clear(s: State)
    requires Shape(s)
  {
    && s.nextpid > 0
    && (forall i: nat :: i < NPROC ==> ClearSlot(s.procs[i]))
    && (forall i: nat :: i < NPROC ==> Target(s.pcs[i]) != Some(0))
  }

  ghost predicate ClearSlot(p: Proc)
  {
    (p.pid == 0 ==> !p.killed) && (p.st == UNUSED ==> !p.killed)
  }

  // ---------------------------------------------------------------- one step

  ghost predicate Aims(s: State, pc: Pc, m: Move)
    requires Shape(s)
  {
    && (Target(m.next) == Target(pc) || Target(m.next) == None || (pc == Run && m.next.Kill?))
    && (m.op.SetKilled? ==>
          pc.KillGot? && Target(pc) == Some(pc.pid) && m.op.i < NPROC && s.procs[m.op.i].pid == pc.pid)
  }

  lemma KillAims(s: State, me: nat, pc: Pc, m: Move)
    requires Shape(s) && me < NPROC && Routine(s, me, pc) == Some(m)
    requires pc.Kill? || pc.KillGot? || pc.KillSet? || pc.KillRel?
    ensures Aims(s, pc, m)
  {
    hide ForkCode, ExitCode, WaitCode, SleepLockCode, WakeStep, WakeTest, Held;
  }

  lemma ForkAims(s: State, me: nat, pc: Pc, m: Move)
    requires Shape(s) && me < NPROC && ForkCode(s, me, pc) == Some(m)
    ensures Target(m.next) == None
  {
  }

  lemma ExitAims(s: State, me: nat, pc: Pc, m: Move)
    requires Shape(s) && me < NPROC && ExitCode(s, me, pc) == Some(m)
    ensures Target(m.next) == None
  {
    if pc.Reparent? {
      assert Base(ExitLock) == ExitLock && Base(Reparent(pc.j + 1)) == Reparent(pc.j + 1);
    }
    assert Base(Dead) == Dead;
  }

  lemma WaitAims(s: State, me: nat, pc: Pc, m: Move)
    requires Shape(s) && me < NPROC && WaitCode(s, me, pc) == Some(m)
    ensures Target(m.next) == None
  {
    assert Base(WaitScan(0, false)) == WaitScan(0, false);
  }

  lemma SleepLockAims(s: State, pc: Pc, m: Move)
    requires Shape(s) && SleepLockCode(s, pc) == Some(m)
    ensures Target(m.next) == None
  {
    if pc.Rel1? {
      assert Base(Rel2(pc.l)) == Rel2(pc.l);
    } else if pc.Acq1? {
      assert Base(Acq1(pc.l)) == Acq1(pc.l);
    }
  }

  lemma SyscallAims(s: State, me: nat, a: Choice, m: Move)
    requires Shape(s) && Syscall(s, me, a) == Some(m)
    ensures Target(m.next) == None || (a.DoKill? && m.next == Kill(0, a.pid))
  {
  }

  lemma OutAims(next: Pc)
    requires next == Run || next.ForkFail? || next.WaitFreed?
    ensures Target(next) == None
  {
  }

  lemma SameAims(pc: Pc, next: Pc)
    requires Base(next) == Base(pc)
    ensures Target(next) == Target(pc)
  {
  }

  lemma CodeAims(s: State, c: nat, a: Choice, m: Move)
    requires Shape(s) && c < NCPU && Who(s, c) < NPROC && Ok(Top(s, c), Who(s, c)) && Code(s, c, a) == Some(m)
    requires Duty(s, Who(s, c), Top(s, c), m)
    ensures Target(m.next) == Target(Top(s, c)) || Target(m.next) == None || (a.DoKill? && m.next == Kill(0, a.pid))
    ensures m.op.SetKilled? ==> Aims(s, Top(s, c), m)
  {
    hide Routine, Scheduler, Ok, Held, ForkCode, ExitCode, WaitCode, SleepLockCode, Base, Syscall, Target;
    var me, pc := Who(s, c), Top(s, c);
    CodeOwn(s, c, a, m);
    if pc.Kill? || pc.KillGot? || pc.KillSet? || pc.KillRel? {
      KillStraight(s, c, a, m);
      if Routine(s, me, pc) == Some(m) {
        KillAims(s, me, pc, m);
      } else {
        SameAims(pc, m.next);
      }
    } else if Base(m.next) == Base(pc) {
      SameAims(pc, m.next);
    } else if ForkCode(s, me, pc) == Some(m) {
      ForkAims(s, me, pc, m);
    } else if SleepLockCode(s, pc) == Some(m) {
      SleepLockAims(s, pc, m);
    } else if ExitCode(s, me, pc) == Some(m) {
      ExitAims(s, me, pc, m);
    } else if WaitCode(s, me, pc) == Some(m) {
      WaitAims(s, me, pc, m);
    } else if pc == Run {
      RunCode(s, c, a, m);
      SyscallAims(s, me, a, m);
    } else {
      OutAims(m.next);
    }
  }

  lemma RunCode(s: State, c: nat, a: Choice, m: Move)
    requires Shape(s) && c < NCPU && Code(s, c, a) == Some(m) && Top(s, c) == Run
    ensures Base(m.next) == Base(Run) || Syscall(s, Who(s, c), a) == Some(m)
  {
    hide Held, Syscall, Routine, Scheduler;
  }

  lemma KillStraight(s: State, c: nat, a: Choice, m: Move)
    requires Shape(s) && c < NCPU && Who(s, c) < NPROC && Code(s, c, a) == Some(m)
    requires Top(s, c).Kill? || Top(s, c).KillGot? || Top(s, c).KillSet? || Top(s, c).KillRel?
    ensures Routine(s, Who(s, c), Top(s, c)) == Some(m) ||
            (Base(m.next) == Base(Top(s, c)) && !m.op.SetKilled?)
  {
    hide Routine, Scheduler, Syscall, Held;
  }

  lemma SlotsClear(s: State, c: nat, m: Move, t: State)
    requires Moves(s, c, m, t) && Clear(s)
    requires m.op.SetKilled? && m.op.i < NPROC ==> s.procs[m.op.i].pid != 0 && s.procs[m.op.i].st != UNUSED
    ensures t.nextpid > 0 && forall i: nat :: i < NPROC ==> ClearSlot(t.procs[i])
  {
    hide Balanced, Frame, Ok, Held, Making, Target;
    NextProcs(s, c, m, t);
  }

  // ---------------------------------------------------------------- runs without kill(0)

  ghost predicate UsedHasPid(s: State)
    requires Shape(s)
  {
    s.nextpid > 0 && forall i: nat :: i < NPROC ==> (s.procs[i].st == UNUSED <==> s.procs[i].pid == 0)
  }

  lemma PidsKept(s: State, c: nat, m: Move, t: State)
    requires Inv(s) && Moves(s, c, m, t) && UsedHasPid(s)
    ensures UsedHasPid(t)
  {
    hide LocksOk, PcsOk, AwayOk, MakersOk, OnceOk, Balanced, Frame, Ok, Held, Making, CpuOk;
    NextProcs(s, c, m, t);
    forall i: nat | i < NPROC
      ensures t.procs[i].st == UNUSED <==> t.procs[i].pid == 0
    {
      OnlyUsed(s, c, m, i);
    }
  }

  /** States other than UNUSED are given only to slots in use. */
  lemma OnlyUsed(s: State, c: nat, m: Move, i: nat)
    requires Inv(s) && c < NCPU && Duty(s, Who(s, c), Top(s, c), m) && i < NPROC
    ensures m.op.SetState? && m.op.i == i ==> s.procs[i].st != UNUSED && m.op.st != UNUSED
    ensures m.op.GoToSleep? && m.op.i == i ==> s.procs[i].st != UNUSED
  {
    hide LocksOk, PcsOk, AwayOk, MakersOk, OnceOk, Ok, Held, Making;
    if s.on[c] == Some(i) {
      assert On(s, i);
      OnIsAlive(s, i);
    }
    if s.on[c].Some? && Top(s, c) == ForkSet(i) {
      ForkSets(s, c, i);
    }
  }

  lemma ClearKept(s: State, c: nat, a: Choice, t: State)
    requires Inv(s) && Steps(s, c, a, t) && Clear(s) && UsedHasPid(s) && a != DoKill(0)
    ensures Shape(t) && Clear(t) && UsedHasPid(t)
  {
    hide Inv, Code, Ok, Aims, Moves, Duty, Target;
    var m := StepMoves(s, c, a, t);
    MoveFacts(s, c, m, t);
    PidsKept(s, c, m, t);
    if s.on[c].Some? {
      TopOk(s, c);
      CodeAims(s, c, a, m);
    }
    if s.on[c] == None {
      SchedulerSpares(s, c, a, m);
    }
    KilledByCode(s, c, m);
    SlotsClear(s, c, m, t);
    forall i: nat | i < NPROC
      ensures Target(t.pcs[i]) != Some(0)
    {
      TargetAfter(s, c, a, m, t, i);
    }
  }

  lemma SchedulerSpares(s: State, c: nat, a: Choice, m: Move)
    requires Shape(s) && c < NCPU && s.on[c] == None && Code(s, c, a) == Some(m)
    ensures !m.op.SetKilled?
  {
    hide Held, Routine;
  }

  lemma MoveFacts(s: State, c: nat, m: Move, t: State)
    requires Moves(s, c, m, t)
    ensures Shape(s) && Shape(t) && c < NCPU && Duty(s, Who(s, c), Top(s, c), m)
  {
  }

  lemma KilledByCode(s: State, c: nat, m: Move)
    requires Shape(s) && c < NCPU && Clear(s) && UsedHasPid(s) && Duty(s, Who(s, c), Top(s, c), m)
    requires s.on[c].Some? && m.op.SetKilled? ==> Aims(s, Top(s, c), m)
    requires s.on[c] == None ==> !m.op.SetKilled?
    ensures m.op.SetKilled? && m.op.i < NPROC ==> s.procs[m.op.i].pid != 0 && s.procs[m.op.i].st != UNUSED
  {
    hide Target, Held, StateAt, Making;
  }

  lemma TargetAfter(s: State, c: nat, a: Choice, m: Move, t: State, i: nat)
    requires Inv(s) && Moves(s, c, m, t) && Clear(s) && i < NPROC && a != DoKill(0)
    requires s.on[c].Some? ==>
               || Target(m.next) == Target(Top(s, c)) || Target(m.next) == None
               || (a.DoKill? && m.next == Kill(0, a.pid))
    ensures Target(t.pcs[i]) != Some(0)
  {
    hide LocksOk, PcsOk, AwayOk, MakersOk, OnceOk, CpuOk, Balanced, Next, Ok, Held, Making;
    SwitchFacts(s, c, m);
    if m.op == SwitchIn(i) {
      assert Base(s.pcs[i]) == Base(s.pcs[i].k);
    } else if m.op == Alloc(i) && i != Who(s, c) {
      assert Base(ForkRet) == ForkRet;
    }
  }

  lemma {:induction false} RunClear(s: State, run: seq<Event>)
    requires Inv(s) && IsRun(s, run) && Shape(s) && Clear(s) && UsedHasPid(s)
    requires forall i :: 0 <= i < |run| ==> run[i].a != DoKill(0)
    ensures Inv(Final(s, run)) && Shape(Final(s, run)) && Clear(Final(s, run))
    decreases run
  {
    hide Inv, Steps, Clear, UsedHasPid;
    if run != [] {
      InvPreserved(s, run[0].c, run[0].a, run[0].t);
      ClearKept(s, run[0].c, run[0].a, run[0].t);
      RunClear(run[0].t, run[1..]);
    }
  }

  lemma BootClear(s: State)
    requires Boot(s)
    ensures Clear(s) && UsedHasPid(s)
  {
    forall i: nat | i < NPROC
      ensures Target(s.pcs[i]) == None
    {
      assert Base(ForkRet) == ForkRet && Base(Dead) == Dead;
    }
  }

  /** In every run from boot in which nobody calls kill(0), a process is not killed when it is made. */
  lemma NewbornAlive(s: State, run: seq<Event>, c: nat, a: Choice, u: State, i: nat)
    requires Boot(s) && IsRun(s, run) && (forall k :: 0 <= k < |run| ==> run[k].a != DoKill(0))
    requires Steps(Final(s, run), c, a, u) && i < NPROC && Shape(Final(s, run)) && Shape(u)
    requires Final(s, run).procs[i].st == UNUSED && u.procs[i].st != UNUSED
    ensures u.procs[i].st == USED && !u.procs[i].killed
  {
    hide Inv, IsRun, Boot, Code, Moves, Target, Final;
    BootInv(s);
    InvShape(s);
    BootClear(s);
    RunClear(s, run);
    var t := Final(s, run);
    var m := StepMoves(t, c, a, u);
    Made(t, c, m, u, i);
  }

  lemma {:induction false} RunPids(s: State, run: seq<Event>)
    requires Inv(s) && IsRun(s, run) && Shape(s) && UsedHasPid(s)
    ensures Inv(Final(s, run)) && Shape(Final(s, run)) && UsedHasPid(Final(s, run))
    decreases run
  {
    hide Inv, Steps, UsedHasPid, Moves;
    if run != [] {
      InvPreserved(s, run[0].c, run[0].a, run[0].t);
      var m := StepMoves(s, run[0].c, run[0].a, run[0].t);
      MoveFacts(s, run[0].c, m, run[0].t);
      PidsKept(s, run[0].c, m, run[0].t);
      RunPids(run[0].t, run[1..]);
    }
  }

  /** In every run from boot: a process is killed when it is made exactly if its slot was marked while unused,
      and a slot is marked while unused only by a kill(0) that has come to it. */
  lemma KilledAtBirth(s: State, run: seq<Event>, c: nat, a: Choice, u: State, i: nat)
    requires Boot(s) && IsRun(s, run) && Steps(Final(s, run), c, a, u) && i < NPROC
    requires Shape(Final(s, run)) && Shape(u) && Final(s, run).procs[i].st == UNUSED
    ensures u.procs[i].st != UNUSED ==> (u.procs[i].killed <==> Final(s, run).procs[i].killed)
    ensures u.procs[i].killed && !Final(s, run).procs[i].killed ==> c < NCPU && Top(Final(s, run), c) == KillGot(i, 0)
  {
    hide Inv, IsRun, Boot, Code, Moves, Target, Final, Ok, Duty;
    BootInv(s);
    InvShape(s);
    BootClear(s);
    RunPids(s, run);
    var t := Final(s, run);
    var m := StepMoves(t, c, a, u);
    MoveFacts(t, c, m, u);
    if u.procs[i].st != UNUSED {
      Made(t, c, m, u, i);
    }
    if u.procs[i].killed && !t.procs[i].killed {
      Marks(t, c, m, u, i);
      if t.on[c] == None {
        SchedulerSpares(t, c, a, m);
      }
      TopOk(t, c);
      CodeAims(t, c, a, m);
    }
  }

  lemma Marks(s: State, c: nat, m: Move, t: State, i: nat)
    requires Moves(s, c, m, t) && i < NPROC && t.procs[i].killed && !s.procs[i].killed
    ensures m.op == SetKilled(i) && Top(s, c).KillGot? && Top(s, c).j == i
  {
    hide Balanced, Next, Frame, Ok, Making;
    NextProcs(s, c, m, t);
  }

  lemma Made(s: State, c: nat, m: Move, t: State, i: nat)
    requires Inv(s) && Moves(s, c, m, t) && i < NPROC && s.procs[i].st == UNUSED && t.procs[i].st != UNUSED
    ensures t.procs[i].st == USED && t.procs[i].killed == s.procs[i].killed
  {
    hide LocksOk, PcsOk, AwayOk, MakersOk, OnceOk, Balanced, Next, Frame, Ok, Held, Making, CpuOk;
    NextProcs(s, c, m, t);
    OnlyUsed(s, c, m, i);
  }

  // ---------------------------------------------------------------- a run with kill(0)

  /** init runs on the first CPU, at pc, with the given locks held, and the process table is procs. */
  ghost predicate Here(s: State, pc: Pc, lock: map<Lock, nat>, procs: seq<Proc>)
  {
    Shape(s) && s.on[0] == Some(INIT) && s.pcs[INIT] == pc && s.lock == lock && s.procs == procs
  }

  lemma Append(s: State, run: seq<Event>, c: nat, a: Choice, t: State)
    requires IsRun(s, run) && Steps(Final(s, run), c, a, t)
    ensures IsRun(s, run + [Event(c, a, t)]) && Final(s, run + [Event(c, a, t)]) == t
    decreases run
  {
    hide Steps;
    var all := run + [Event(c, a, t)];
    if run == [] {
      assert all[1..] == [];
    } else {
      assert all[1..] == run[1..] + [Event(c, a, t)];
      Append(run[0].t, run[1..], c, a, t);
    }
  }

  /** One step of init. */
  lemma InitSteps(s: State, run: seq<Event>, a: Choice, m: Move, pc: Pc, lock: map<Lock, nat>, procs: seq<Proc>)
    returns (all: seq<Event>, lock': map<Lock, nat>, procs': seq<Proc>)
    requires IsRun(s, run) && Here(Final(s, run), pc, lock, procs)
    requires Code(Final(s, run), 0, a) == Some(m) && Enabled(Final(s, run), m.op)
    requires m.op == Jump || m.op.Acquire? || m.op.Release? || m.op.SetKilled? || (m.op.Alloc? && m.op.i != INIT)
    ensures IsRun(s, all) && Here(Final(s, all), m.next, lock', procs')
    ensures lock' == if m.op.Acquire? then lock[m.op.l := 0] else if m.op.Release? then lock - {m.op.l} else lock
    ensures |procs| == NPROC && |procs'| == NPROC
    ensures forall i :: 0 <= i < NPROC ==>
              procs'[i] == if m.op == SetKilled(i) then procs[i].(killed := true)
                           else if m.op == Alloc(i) then procs[i].(st := USED, pid := Final(s, run).nextpid)
                           else procs[i]
  {
    hide Code, IsRun, Final;
    var t := Final(s, run);
    var u := Next(t, 0, m);
    assert Shape(u);
    Append(s, run, 0, a, u);
    return run + [Event(0, a, u)], u.lock, u.procs;
  }

  /** The scheduler of the first CPU switches to init. */
  lemma InitStarts(s: State) returns (run: seq<Event>)
    requires Boot(s)
    ensures IsRun(s, run)
    ensures Here(Final(s, run), ForkRet, map[PLock(INIT) := 0], s.procs[INIT := s.procs[INIT].(st := RUNNING)])
  {
    var a := Next(s, 0, Move(Acquire(PLock(INIT)), Got(INIT)));
    assert Steps(s, 0, Pick(INIT), a);
    var b := Next(a, 0, Move(SetState(INIT, RUNNING), Chosen(INIT)));
    assert Steps(a, 0, Go, b);
    var c := Next(b, 0, Move(SetProc(Some(INIT)), Ready(INIT)));
    assert Steps(b, 0, Go, c);
    var d := Next(c, 0, Move(SwitchIn(INIT), Back(INIT)));
    assert Steps(c, 0, Go, d);
    hide Steps, Boot, Next;
    run := [];
    Append(s, run, 0, Pick(INIT), a);
    run := run + [Event(0, Pick(INIT), a)];
    Append(s, run, 0, Go, b);
    run := run + [Event(0, Go, b)];
    Append(s, run, 0, Go, c);
    run := run + [Event(0, Go, c)];
    Append(s, run, 0, Go, d);
    run := run + [Event(0, Go, d)];
  }

  /** The first slots: init, and a slot that is not in use. */
  ghost predicate Table(procs: seq<Proc>, marked: bool)
  {
    && |procs| == NPROC && procs[0].st == RUNNING && procs[0].pid == 1
    && procs[1].st == UNUSED && procs[1].pid == 0 && procs[1].killed == marked
  }

  /** init is at pc with no lock held. */
  ghost predicate Stands(s: State, run: seq<Event>, pc: Pc, marked: bool)
  {
    IsRun(s, run) && Here(Final(s, run), pc, map[], Final(s, run).procs) && Table(Final(s, run).procs, marked)
  }

  lemma Calls(s: State, run: seq<Event>, a: Choice, pc: Pc, marked: bool) returns (all: seq<Event>)
    requires Stands(s, run, Run, marked) && ((a == DoKill(0) && pc == Kill(0, 0)) || (a == DoFork && pc == Fork(0)))
    ensures Stands(s, all, pc, marked)
  {
    hide IsRun, Final, Held, Next, Routine, Scheduler;
    var lock, procs;
    all, lock, procs := InitSteps(s, run, a, Move(Jump, pc), Run, map[], Final(s, run).procs);
    assert procs == Final(s, run).procs;
  }

  lemma Starts(s: State) returns (all: seq<Event>)
    requires Boot(s)
    ensures Stands(s, all, Run, false)
  {
    hide IsRun, Final, Next, Scheduler, ForkCode, ExitCode, WaitCode, SleepLockCode;
    var run := InitStarts(s);
    var procs := Final(s, run).procs;
    var lock;
    all, lock, procs := InitSteps(s, run, Go, Move(Release(PLock(INIT)), Run), ForkRet, map[PLock(INIT) := 0], procs);
    assert lock == map[];
  }

  /** kill passes over init, which has pid 1. */
  lemma KillPasses(s: State, run: seq<Event>) returns (all: seq<Event>)
    requires Stands(s, run, Kill(0, 0), false)
    ensures Stands(s, all, Kill(1, 0), false)
  {
    hide IsRun, Final, Next, Scheduler, ForkCode, ExitCode, WaitCode, SleepLockCode;
    var lock, procs := map[], Final(s, run).procs;
    all, lock, procs := InitSteps(s, run, Go, Move(Acquire(PLock(0)), KillGot(0, 0)), Kill(0, 0), lock, procs);
    all, lock, procs := InitSteps(s, all, Go, Move(Jump, KillRel(0, 0, false)), KillGot(0, 0), lock, procs);
    all, lock, procs := InitSteps(s, all, Go, Move(Release(PLock(0)), Kill(1, 0)), KillRel(0, 0, false), lock, procs);
    assert lock == map[];
  }

  /** kill finds pid 0 in the unused slot, and marks it. */
  lemma KillMarksUnused(s: State, run: seq<Event>) returns (all: seq<Event>)
    requires Stands(s, run, Kill(1, 0), false)
    ensures IsRun(s, all) && Table(Final(s, all).procs, true)
    ensures Here(Final(s, all), KillSet(1, 0), map[PLock(1) := 0], Final(s, all).procs)
  {
    hide IsRun, Final, Next, Scheduler, ForkCode, ExitCode, WaitCode, SleepLockCode;
    var lock, procs := map[], Final(s, run).procs;
    all, lock, procs := InitSteps(s, run, Go, Move(Acquire(PLock(1)), KillGot(1, 0)), Kill(1, 0), lock, procs);
    all, lock, procs := InitSteps(s, all, Go, Move(SetKilled(1), KillSet(1, 0)), KillGot(1, 0), lock, procs);
  }

  lemma KillReturns(s: State, run: seq<Event>) returns (all: seq<Event>)
    requires IsRun(s, run) && Table(Final(s, run).procs, true)
    requires Here(Final(s, run), KillSet(1, 0), map[PLock(1) := 0], Final(s, run).procs)
    ensures Stands(s, all, Run, true)
  {
    hide IsRun, Final, Next, Scheduler, Held, WakeStep, WakeTest, ForkCode, ExitCode, WaitCode, SleepLockCode;
    var lock, procs := map[PLock(1) := 0], Final(s, run).procs;
    all, lock, procs := InitSteps(s, run, Go, Move(Jump, KillRel(1, 0, true)), KillSet(1, 0), lock, procs);
    all, lock, procs := InitSteps(s, all, Go, Move(Release(PLock(1)), Run), KillRel(1, 0, true), lock, procs);
    assert lock == map[];
  }

  lemma ForkPasses(s: State, run: seq<Event>) returns (all: seq<Event>)
    requires Stands(s, run, Fork(0), true)
    ensures Stands(s, all, Fork(1), true)
  {
    hide IsRun, Final, Next, Scheduler, ExitCode, WaitCode, SleepLockCode;
    var lock, procs := map[], Final(s, run).procs;
    all, lock, procs := InitSteps(s, run, Go, Move(Acquire(PLock(0)), ForkGot(0)), Fork(0), lock, procs);
    all, lock, procs := InitSteps(s, all, Go, Move(Jump, ForkSkip(0)), ForkGot(0), lock, procs);
    all, lock, procs := InitSteps(s, all, Go, Move(Release(PLock(0)), Fork(1)), ForkSkip(0), lock, procs);
    assert lock == map[];
  }

  /** From boot: init calls kill(0), which succeeds, and then forks; the child is killed as soon as it is made. */
  lemma DoomedChild(s: State) returns (all: seq<Event>)
    requires Boot(s)
    ensures IsRun(s, all) && Shape(Final(s, all))
    ensures Final(s, all).pcs[INIT] == ForkNew(1) && Final(s, all).procs[1].st == USED && Final(s, all).procs[1].killed
  {
    hide IsRun, Final, Next, Scheduler, ExitCode, WaitCode, SleepLockCode, Boot;
    all := Starts(s);
    all := Calls(s, all, DoKill(0), Kill(0, 0), false);
    all := KillPasses(s, all);
    all := KillMarksUnused(s, all);
    all := KillReturns(s, all);
    all := Calls(s, all, DoFork, Fork(0), true);
    all := ForkPasses(s, all);
    var lock, procs := map[], Final(s, all).procs;
    all, lock, procs := InitSteps(s, all, Go, Move(Acquire(PLock(1)), ForkGot(1)), Fork(1), lock, procs);
    all, lock, procs := InitSteps(s, all, Go, Move(Alloc(1), ForkNew(1)), ForkGot(1), lock, procs);
  }
}
