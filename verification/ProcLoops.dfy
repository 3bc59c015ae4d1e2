/** fork and kill look at every slot of the process table: fork gives up only after it has found each of
    them in use, kill only after it has found another pid in each. */
module ProcLoops {
  import opened Prelude
  import opened ProcMachine
  import opened ProcSafety
  import opened ProcInvariant

  /** The slots that the fork or kill of process q has passed over, after one more step: none when it has just
      begun; one more when it has found a slot in use, or with another pid. */
  function After(acc: set<nat>, s: State, t: State, q: nat): set<nat>
    requires Shape(s) && Shape(t) && q < NPROC
  {
    var pc, next := s.pcs[q], t.pcs[q];
    if pc == Run && (next == Fork(0) || (next.Kill? && next.j == 0)) then {}
    else if pc.ForkGot? && next.ForkSkip? && pc.j < NPROC && s.procs[pc.j].st != UNUSED then acc + {pc.j}
    else if pc.KillGot? && next.KillRel? && pc.j < NPROC && s.procs[pc.j].pid != pc.pid then acc + {pc.j}
    else acc
  }

  ghost function Passed(acc: set<nat>, s: State, run: seq<Event>, q: nat): set<nat>
    requires q < NPROC
    decreases run
  {
    if run == [] then acc
    else Passed(if Shape(s) && Shape(run[0].t) then After(acc, s, run[0].t, q) else acc, run[0].t, run[1..], q)
  }

  /** How many slots the thread has behind it. */
  function Behind(pc: Pc): nat
  {
    var b := Base(pc);
    if b.Fork? || b.ForkGot? || b.Kill? || b.KillGot? then b.j
    else if b.ForkSkip? || (b.KillRel? && !b.found) then b.j + 1
    else 0
  }

  ghost predicate Covers(acc: set<nat>, n: nat)
  {
    forall i: nat :: i < n && i < NPROC ==> i in acc
  }

  ghost predicate LoopInv(s: State, q: nat, acc: set<nat>)
    requires Shape(s) && q < NPROC
  {
    Covers(acc, Behind(s.pcs[q]))
  }

  /** How a thread moves on in the two loops. */
  ghost predicate Advances(s: State, pc: Pc, m: Move)
    requires Shape(s)
  {
    || Behind(m.next) == 0
    || Base(m.next) == Base(pc)
    || (Behind(m.next) == Behind(pc) && !(pc.ForkGot? && m.next.ForkSkip?) && !(pc.KillGot? && m.next.KillRel?))
    || (pc.ForkGot? && m.next == ForkSkip(pc.j) && (pc.j < NPROC ==> s.procs[pc.j].st != UNUSED))
    || (pc.KillGot? && m.next == KillRel(pc.j, pc.pid, false) && (pc.j < NPROC ==> s.procs[pc.j].pid != pc.pid))
  }

  lemma ForkAdvances(s: State, me: nat, pc: Pc, m: Move)
    requires Shape(s) && me < NPROC && ForkCode(s, me, pc) == Some(m)
    ensures Advances(s, pc, m)
  {
  }

  lemma KillAdvances(s: State, me: nat, pc: Pc, m: Move)
    requires Shape(s) && me < NPROC && Routine(s, me, pc) == Some(m)
    requires pc.Kill? || pc.KillGot? || pc.KillSet? || pc.KillRel?
    ensures Advances(s, pc, m)
  {
    hide ForkCode, ExitCode, WaitCode, SleepLockCode, WakeStep, WakeTest, Held;
  }

  lemma ExitAdvances(s: State, me: nat, pc: Pc, m: Move)
    requires Shape(s) && me < NPROC && ExitCode(s, me, pc) == Some(m)
    ensures Behind(m.next) == 0
  {
    if pc.Reparent? {
      assert Base(ExitLock) == ExitLock && Base(Reparent(pc.j + 1)) == Reparent(pc.j + 1);
    }
    assert Base(Dead) == Dead;
  }

  lemma WaitAdvances(s: State, me: nat, pc: Pc, m: Move)
    requires Shape(s) && me < NPROC && WaitCode(s, me, pc) == Some(m)
    ensures Behind(m.next) == 0
  {
    assert Base(WaitScan(0, false)) == WaitScan(0, false);
  }

  lemma SleepLockAdvances(s: State, pc: Pc, m: Move)
    requires Shape(s) && SleepLockCode(s, pc) == Some(m)
    ensures Behind(m.next) == 0
  {
    if pc.Rel1? {
      assert Base(Rel2(pc.l)) == Rel2(pc.l);
    } else if pc.Acq1? {
      assert Base(Acq1(pc.l)) == Acq1(pc.l);
    }
  }

  lemma OutAdvances(next: Pc)
    requires next == Run || next.ForkFail? || next.WaitFreed?
    ensures Behind(next) == 0
  {
  }

  lemma SyscallAdvances(s: State, me: nat, a: Choice, m: Move)
    requires Shape(s) && Syscall(s, me, a) == Some(m)
    ensures Behind(m.next) == 0
  {
  }

  lemma CodeAdvances(s: State, c: nat, a: Choice, m: Move)
    requires Shape(s) && c < NCPU && Who(s, c) < NPROC && Ok(Top(s, c), Who(s, c)) && Code(s, c, a) == Some(m)
    ensures Advances(s, Top(s, c), m)
  {
    hide Routine, Scheduler, Ok, Held, ForkCode, ExitCode, WaitCode, SleepLockCode, Base, Syscall;
    var me, pc := Who(s, c), Top(s, c);
    CodeOwn(s, c, a, m);
    if Base(m.next) != Base(pc) {
      if ForkCode(s, me, pc) == Some(m) {
        ForkAdvances(s, me, pc, m);
      } else if SleepLockCode(s, pc) == Some(m) {
        SleepLockAdvances(s, pc, m);
      } else if ExitCode(s, me, pc) == Some(m) {
        ExitAdvances(s, me, pc, m);
      } else if WaitCode(s, me, pc) == Some(m) {
        WaitAdvances(s, me, pc, m);
      } else if pc == Run {
        var b :| Syscall(s, me, b) == Some(m);
        SyscallAdvances(s, me, b, m);
      } else if pc.Kill? || pc.KillGot? || pc.KillSet? || pc.KillRel? {
        KillIsStraight(s, c, a, m);
        KillAdvances(s, me, pc, m);
      } else {
        OutAdvances(m.next);
      }
    }
  }

  lemma KillIsStraight(s: State, c: nat, a: Choice, m: Move)
    requires Shape(s) && c < NCPU && Who(s, c) < NPROC && Code(s, c, a) == Some(m)
    requires Top(s, c).Kill? || Top(s, c).KillGot? || Top(s, c).KillSet? || Top(s, c).KillRel?
    ensures Base(m.next) == Base(Top(s, c)) || Routine(s, Who(s, c), Top(s, c)) == Some(m)
  {
    hide Routine, Scheduler, Syscall, Held;
  }

  lemma BehindBase(pc: Pc, next: Pc)
    requires Base(next) == Base(pc)
    ensures Behind(next) == Behind(pc)
  {
  }

  lemma MoverLoop(s: State, c: nat, m: Move, t: State, acc: set<nat>)
    requires Moves(s, c, m, t) && s.on[c].Some? && Advances(s, Top(s, c), m) && LoopInv(s, Who(s, c), acc)
    ensures LoopInv(t, Who(s, c), After(acc, s, t, Who(s, c)))
  {
    hide Balanced, Next, Ok, Held, Duty, Base;
    var pc := Top(s, c);
    assert t.pcs[Who(s, c)] == m.next;
    if Base(m.next) == Base(pc) {
      BehindBase(pc, m.next);
    }
    GotBase(pc);
    GotBase(m.next);
  }

  lemma GotBase(pc: Pc)
    ensures pc.ForkGot? || pc.KillGot? ==> Base(pc) == pc && Behind(pc) == pc.j
    ensures pc.ForkSkip? || (pc.KillRel? && !pc.found) ==> Base(pc) == pc && Behind(pc) == pc.j + 1
    ensures pc.Fork? || pc.Kill? ==> Base(pc) == pc && Behind(pc) == pc.j
    ensures pc == Run || (pc.KillRel? && pc.found) ==> Behind(pc) == 0
  {
  }

  lemma OtherLoop(s: State, c: nat, m: Move, t: State, q: nat, acc: set<nat>)
    requires Inv(s) && Moves(s, c, m, t) && q < NPROC && q != Who(s, c) && LoopInv(s, q, acc)
    ensures LoopInv(t, q, After(acc, s, t, q))
  {
    hide LocksOk, PcsOk, AwayOk, CpuOk, MakersOk, OnceOk, Balanced, Next, Ok, Held, Covers;
    SwitchFacts(s, c, m);
    if m.op == SwitchIn(q) {
      assert Base(s.pcs[q]) == Base(s.pcs[q].k);
      BehindBase(s.pcs[q], s.pcs[q].k);
    } else if m.op == Alloc(q) {
      assert Base(ForkRet) == ForkRet;
      Nothing(After(acc, s, t, q));
    }
  }

  lemma Nothing(acc: set<nat>)
    ensures Covers(acc, 0)
  {
  }

  lemma StepLoop(s: State, c: nat, a: Choice, t: State, q: nat, acc: set<nat>)
    requires Inv(s) && Steps(s, c, a, t) && q < NPROC && LoopInv(s, q, acc)
    ensures Shape(t) && LoopInv(t, q, After(acc, s, t, q))
  {
    hide Inv, Moves, Code, LoopInv, Advances, Ok;
    var m := StepMoves(s, c, a, t);
    MovesShapes(s, c, m, t);
    if q == Who(s, c) {
      TopOk(s, c);
      CodeAdvances(s, c, a, m);
      MoverLoop(s, c, m, t, acc);
    } else {
      OtherLoop(s, c, m, t, q, acc);
    }
  }

  lemma MovesShapes(s: State, c: nat, m: Move, t: State)
    requires Moves(s, c, m, t)
    ensures Shape(s) && Shape(t) && c < NCPU
  {
  }

  lemma {:induction false} RunLoop(s: State, run: seq<Event>, q: nat, acc: set<nat>)
    requires Inv(s) && IsRun(s, run) && q < NPROC && LoopInv(s, q, acc)
    ensures Shape(Final(s, run)) && LoopInv(Final(s, run), q, Passed(acc, s, run, q))
    decreases run
  {
    hide Inv, Steps, LoopInv, After;
    InvShape(s);
    if run != [] {
      InvPreserved(s, run[0].c, run[0].a, run[0].t);
      StepLoop(s, run[0].c, run[0].a, run[0].t, q, acc);
      RunLoop(run[0].t, run[1..], q, After(acc, s, run[0].t, q));
    }
  }

  /** In every run from boot: a fork that comes to the end of the table has found every slot in use since it
      began, and a kill that does has found another pid in every slot. */
  lemma LooksEverywhere(s: State, run: seq<Event>, q: nat, i: nat)
    requires Boot(s) && IsRun(s, run) && q < NPROC && i < NPROC
    ensures var t := Final(s, run);
            && Shape(t)
            && ((t.pcs[q].Fork? || t.pcs[q].Kill?) && t.pcs[q].j >= NPROC ==> i in Passed({}, s, run, q))
  {
    hide Inv, IsRun, Passed, Final;
    BootInv(s);
    BootLoop(s, q);
    RunLoop(s, run, q, {});
    GotBase(Final(s, run).pcs[q]);
  }

  lemma BootLoop(s: State, q: nat)
    requires Boot(s) && q < NPROC
    ensures LoopInv(s, q, {})
  {
    assert Base(ForkRet) == ForkRet && Base(Dead) == Dead;
  }
}
