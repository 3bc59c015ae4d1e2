/** The invariant of the process protocol and its preservation: lock hand-off across swtch,
    one CPU per running process, and the state of every process that is switched away.
 */
module ProcInvariant {
  import opened Prelude
  import opened ProcMachine
  import opened ProcSafety

  ghost predicate On(s: State, i: nat)
    requires Shape(s)
  {
    exists c :: 0 <= c < NCPU && s.on[c] == Some(i)
  }

  function HeldOn(s: State, c: nat): set<Lock>
    requires Shape(s) && c < NCPU
  {
    Held(Top(s, c), Who(s, c))
  }

  /** The locks recorded as held by a CPU are exactly those that the thread on it holds. */
  ghost predicate LocksOk(s: State)
    requires Shape(s)
  {
    && (forall l :: l in s.lock ==> s.lock[l] < NCPU)
    && (forall c: nat, l :: c < NCPU ==> (l in HeldOn(s, c) <==> l in s.lock && s.lock[l] == c))
    && (forall c: nat :: c < NCPU ==> s.noff[c] == |HeldOn(s, c)|)
  }

  /** No process is on two CPUs. */
  ghost predicate OnceOk(s: State)
    requires Shape(s)
  {
    forall c, d :: 0 <= c < NCPU && 0 <= d < NCPU && s.on[c].Some? && s.on[c] == s.on[d] ==> c == d
  }

  ghost predicate PcsOk(s: State)
    requires Shape(s)
  {
    && (forall i: nat :: i < NPROC ==> Ok(s.pcs[i], i))
    && (forall c: nat :: c < NCPU ==> Ok(s.spc[c], NPROC) && !s.spc[c].Off?)
  }

  /** A process that is switched away can be resumed. */
  ghost predicate Resumable(s: State, i: nat)
    requires Shape(s) && i < NPROC
  {
    s.pcs[i].Off? && !s.pcs[i].k.Dead? && Ok(s.pcs[i], i)
  }

  /** The scheduler on some CPU is about to switch to the process. */
  ghost predicate Starting(s: State, i: nat)
    requires Shape(s)
  {
    exists c :: 0 <= c < NCPU && s.on[c] == None && (s.spc[c] == Chosen(i) || s.spc[c] == Ready(i))
  }

  ghost predicate CpuOk(s: State, c: nat)
    requires Shape(s) && c < NCPU
  {
    if s.on[c].Some? then
      var i := s.on[c].value;
      && s.spc[c] == Back(i)
      && s.proc[c] == Some(i)
      && !s.pcs[i].Off?
      && !s.pcs[i].Dead?
      && s.procs[i].st == StateAt(s.pcs[i])
      && (s.pcs[i].Sched? && s.pcs[i].k.Awake1? ==> s.procs[i].chan == Some(s.pcs[i].k.ch))
    else
      && (s.spc[c].Chosen? || s.spc[c].Ready? ==>
            s.spc[c].j < NPROC && s.procs[s.spc[c].j].st == RUNNING && !On(s, s.spc[c].j) && Resumable(s, s.spc[c].j))
      && s.proc[c] == if s.spc[c].Ready? || s.spc[c].Back? then Some(s.spc[c].j) else None
  }

  /** A process that is not on a CPU. */
  ghost predicate AwayOk(s: State, i: nat)
    requires Shape(s) && i < NPROC
  {
    && s.pcs[i].Off?
    && (s.procs[i].st == USED ==> s.pcs[i] == Off(ForkRet))
    && (s.procs[i].st == RUNNABLE ==> !s.pcs[i].k.Dead?)
    && (s.procs[i].st == RUNNING ==> !s.pcs[i].k.Dead? && Starting(s, i))
    && (s.procs[i].st == SLEEPING ==> s.pcs[i].k.Awake1? && s.procs[i].chan == Some(s.pcs[i].k.ch))
    && (s.procs[i].st == ZOMBIE ==> s.pcs[i].k.Dead?)
  }

  /** Whoever is setting up a slot is the only one doing so. */
  ghost predicate MakersOk(s: State)
    requires Shape(s)
  {
    forall i: nat :: i < NPROC && Making(s.pcs[i]).Some? ==>
      var j := Making(s.pcs[i]).value;
      j < NPROC && s.procs[j].st == USED && forall h: nat :: h < NPROC && h != i ==> Making(s.pcs[h]) != Some(j)
  }

  ghost predicate Inv(s: State)
  {
    && Shape(s) && LocksOk(s) && OnceOk(s) && PcsOk(s) && MakersOk(s)
    && (forall c: nat :: c < NCPU ==> CpuOk(s, c))
    && (forall i: nat :: i < NPROC && !On(s, i) ==> AwayOk(s, i))
  }

  lemma BootInv(s: State)
    requires Boot(s)
    ensures Inv(s)
  {
    hide Ok, Making, Held;
    BootPcs(s);
    assert forall c: nat :: c < NCPU ==> Who(s, c) == NPROC && Top(s, c) == Idle;
    assert forall i: nat :: !On(s, i);
  }

  lemma BootPcs(s: State)
    requires Boot(s)
    ensures Held(Idle, NPROC) == {} && PcsOk(s) && forall i: nat :: i < NPROC ==> Making(s.pcs[i]) == None
  {
    forall i: nat | i < NPROC
      ensures Ok(s.pcs[i], i) && Making(s.pcs[i]) == None
    {
      if i == INIT {
        assert Base(ForkRet) == ForkRet;
      } else {
        assert Base(Dead) == Dead;
      }
    }
  }

  // ---------------------------------------------------------------- what a step changes

  /** Everything a step leaves alone, and where control goes. */
  ghost predicate Frame(s: State, c: nat, m: Move, t: State)
    requires Shape(s) && Shape(t) && c < NCPU
  {
    var me := Who(s, c);
    && (forall d :: 0 <= d < NCPU && d != c ==>
          t.on[d] == s.on[d] && t.spc[d] == s.spc[d] && t.proc[d] == s.proc[d] && t.noff[d] == s.noff[d])
    && (forall i :: 0 <= i < NPROC && i != me && m.op != Alloc(i) && m.op != SwitchIn(i) ==> t.pcs[i] == s.pcs[i])
    && (me < NPROC ==> t.pcs[me] == m.next && t.spc[c] == s.spc[c])
    && (me == NPROC ==> t.spc[c] == m.next)
    && (m.op.SwitchIn? ==>
          && me == NPROC && m.op.j < NPROC && s.pcs[m.op.j].Off?
          && t.pcs[m.op.j] == s.pcs[m.op.j].k && t.on[c] == Some(m.op.j))
    && (m.op.SwitchOut? ==> me < NPROC && t.on[c] == None)
    && (!m.op.SwitchIn? && !m.op.SwitchOut? ==> t.on[c] == s.on[c])
    && (m.op.Alloc? && m.op.i < NPROC && m.op.i != me ==> t.pcs[m.op.i] == Off(ForkRet))
  }

  lemma EffectFrame(s: State, c: nat, op: Do, t: State)
    requires Shape(s) && c < NCPU && t == Effect(s, c, op)
    ensures Shape(t) && t.on == s.on && t.spc == s.spc
    ensures t.pcs == if op.Alloc? && op.i < NPROC then s.pcs[op.i := Off(ForkRet)] else s.pcs
    ensures forall d :: 0 <= d < NCPU && d != c ==> t.proc[d] == s.proc[d] && t.noff[d] == s.noff[d]
  {
  }

  lemma NextFrame(s: State, c: nat, m: Move, t: State)
    requires Shape(s) && c < NCPU && t == Next(s, c, m)
    requires m.op.SwitchIn? ==> m.op.j < NPROC && s.on[c] == None && s.pcs[m.op.j].Off?
    requires m.op.SwitchOut? ==> s.on[c].Some?
    ensures Shape(t) && Frame(s, c, m, t)
  {
    hide Effect;
    EffectFrame(s, c, m.op, Effect(s, c, m.op));
  }

  /** A move of the program, and the state it leads to. */
  ghost predicate Moves(s: State, c: nat, m: Move, t: State)
  {
    && Shape(s) && Shape(t) && c < NCPU && Frame(s, c, m, t) && t == Next(s, c, m)
    && Balanced(Top(s, c), Who(s, c), m) && Duty(s, Who(s, c), Top(s, c), m)
    && (!m.op.SwitchIn? ==> Ok(m.next, Who(s, c)))
  }

  lemma TopOk(s: State, c: nat)
    requires Inv(s) && c < NCPU
    ensures Ok(Top(s, c), Who(s, c)) && !Top(s, c).Off?
    ensures Who(s, c) < NPROC && Top(s, c).ForkSet? ==> Top(s, c).j < NPROC
  {
    assert CpuOk(s, c);
    if s.on[c].Some? && Top(s, c).ForkSet? {
      assert Making(s.pcs[s.on[c].value]) == Some(Top(s, c).j);
    }
  }

  lemma StepMoves(s: State, c: nat, a: Choice, t: State) returns (m: Move)
    requires Inv(s) && Steps(s, c, a, t)
    ensures Moves(s, c, m, t) && Enabled(s, m.op) && Code(s, c, a) == Some(m)
  {
    hide Inv, Ok, Balanced, Duty, Code, Frame;
    m := Code(s, c, a).value;
    TopOk(s, c);
    CodeBalanced(s, c, a, m);
    CodeDuty(s, c, a, m);
    SwitchFacts(s, c, m);
    NextFrame(s, c, m, t);
  }

  lemma SwitchFacts(s: State, c: nat, m: Move)
    requires Inv(s) && c < NCPU && Duty(s, Who(s, c), Top(s, c), m)
    ensures m.op.SwitchIn? ==> m.op.j < NPROC && s.on[c] == None && s.pcs[m.op.j].Off? && !On(s, m.op.j)
    ensures m.op.SwitchOut? ==> s.on[c].Some?
  {
    hide Ok, LocksOk, MakersOk, PcsOk;
    assert CpuOk(s, c);
  }

  /** A process that is on a CPU has been started. */
  lemma OnIsAlive(s: State, i: nat)
    requires Inv(s) && i < NPROC && On(s, i)
    ensures s.procs[i].st == StateAt(s.pcs[i]) && s.procs[i].st != UNUSED && s.procs[i].st != USED && !s.pcs[i].Off?
  {
    hide Ok, LocksOk, MakersOk, PcsOk;
    var c: nat :| 0 <= c < NCPU && s.on[c] == Some(i);
    assert CpuOk(s, c);
  }

  lemma OtherTop(s: State, c: nat, m: Move, t: State, d: nat)
    requires Inv(s) && Moves(s, c, m, t) && d < NCPU && d != c
    ensures Who(t, d) == Who(s, d) && Top(t, d) == Top(s, d) && HeldOn(t, d) == HeldOn(s, d)
  {
    hide Ok, LocksOk, MakersOk, PcsOk, Balanced, Held, Next;
    if s.on[d].Some? {
      var i := s.on[d].value;
      assert On(s, i);
      OnIsAlive(s, i);
      SwitchFacts(s, c, m);
    }
  }

  lemma EffectLocks(s: State, c: nat, m: Move, t: State)
    requires Shape(s) && c < NCPU && t == Next(s, c, m)
    ensures t.lock == if m.op.Acquire? then s.lock[m.op.l := c] else if m.op.Release? then s.lock - {m.op.l} else s.lock
    ensures t.noff == if m.op.Acquire? then s.noff[c := s.noff[c] + 1]
                      else if m.op.Release? then s.noff[c := if s.noff[c] > 0 then s.noff[c] - 1 else 0] else s.noff
  {
  }

  /** The locks of the CPU that moved. Across a swtch they go from thread to thread. */
  lemma OwnLocks(s: State, c: nat, m: Move, t: State)
    requires Inv(s) && Moves(s, c, m, t)
    ensures m.op.Acquire? ==> m.op.l !in HeldOn(s, c) && HeldOn(t, c) == HeldOn(s, c) + {m.op.l}
    ensures m.op.Release? ==> m.op.l in HeldOn(s, c) && HeldOn(t, c) == HeldOn(s, c) - {m.op.l}
    ensures !m.op.Acquire? && !m.op.Release? ==> HeldOn(t, c) == HeldOn(s, c)
  {
    if m.op.SwitchIn? || m.op.SwitchOut? {
      HandOff(s, c, m, t);
    } else {
      hide Inv, Duty, Held, Next, Ok;
      assert Top(t, c) == m.next && Who(t, c) == Who(s, c);
    }
  }

  lemma HandOff(s: State, c: nat, m: Move, t: State)
    requires Inv(s) && Moves(s, c, m, t) && (m.op.SwitchIn? || m.op.SwitchOut?)
    ensures HeldOn(t, c) == HeldOn(s, c)
  {
    hide LocksOk, MakersOk, Next, Ok, Balanced, Held;
    assert CpuOk(s, c);
    SwitchFacts(s, c, m);
    if m.op.SwitchIn? {
      assert Ok(s.pcs[m.op.j], m.op.j);
      ResumeHeld(s, m.op.j);
      SchedulerHeld(m.op.j, NPROC);
    } else {
      SchedHeld(Top(s, c), Who(s, c));
      SchedulerHeld(Who(s, c), NPROC);
    }
  }

  lemma SchedulerHeld(j: nat, me: nat)
    ensures Held(Ready(j), me) == {PLock(j)} == Held(Back(j), me)
  {
  }

  lemma SchedHeld(pc: Pc, me: nat)
    requires pc.Sched?
    ensures Held(pc, me) == {PLock(me)}
  {
  }

  lemma ResumeHeld(s: State, j: nat)
    requires Shape(s) && j < NPROC && s.pcs[j].Off? && Ok(s.pcs[j], j)
    ensures Held(s.pcs[j].k, j) == {PLock(j)}
  {
  }

  lemma StepLocks(s: State, c: nat, m: Move, t: State)
    requires Inv(s) && Moves(s, c, m, t) && Enabled(s, m.op)
    ensures LocksOk(t)
  {
    hide Moves, HeldOn, CpuOk, AwayOk, PcsOk, MakersOk, OnceOk;
    OwnLocks(s, c, m, t);
    NextLocks(s, c, m, t);
    forall d: nat | d < NCPU && d != c
      ensures HeldOn(t, d) == HeldOn(s, d)
    {
      OtherTop(s, c, m, t, d);
    }
    forall d: nat | d < NCPU
      ensures t.noff[d] == |HeldOn(t, d)|
    {
    }
    forall d: nat, l | d < NCPU
      ensures l in HeldOn(t, d) <==> l in t.lock && t.lock[l] == d
    {
      LockRecord(s, d, l);
      if m.op.Acquire? || m.op.Release? {
        LockRecord(s, c, m.op.l);
        LockRecord(s, d, m.op.l);
      }
    }
  }

  lemma NextLocks(s: State, c: nat, m: Move, t: State)
    requires Moves(s, c, m, t)
    ensures Shape(s) && Shape(t) && c < NCPU
    ensures t.lock == if m.op.Acquire? then s.lock[m.op.l := c] else if m.op.Release? then s.lock - {m.op.l} else s.lock
    ensures t.noff == if m.op.Acquire? then s.noff[c := s.noff[c] + 1]
                      else if m.op.Release? then s.noff[c := if s.noff[c] > 0 then s.noff[c] - 1 else 0] else s.noff
  {
    EffectLocks(s, c, m, t);
  }

  // ---------------------------------------------------------------- what a step writes

  /** The record of slot i after the operation. */
  function ProcAfter(s: State, op: Do, i: nat): Proc
    requires Shape(s) && i < NPROC
  {
    var p := s.procs[i];
    match op
    case SetState(j, st) => if j == i then p.(st := st) else p
    case GoToSleep(j, ch) => if j == i then p.(chan := Some(ch), st := SLEEPING) else p
    case ClearChan(j) => if j == i then p.(chan := None) else p
    case SetKilled(j) => if j == i then p.(killed := true) else p
    case SetParent(j, q) => if j == i then p.(parent := Some(q)) else p
    case Alloc(j) => if j == i then p.(st := USED, pid := s.nextpid) else p
    case FreeProc(j, _) => if j == i then BLANK else p
    case _ => p
  }

  lemma EffectProcs(s: State, c: nat, op: Do, t: State)
    requires Shape(s) && c < NCPU && t == Effect(s, c, op)
    ensures |t.procs| == NPROC && forall i: nat :: i < NPROC ==> t.procs[i] == ProcAfter(s, op, i)
    ensures op.SetProc? ==> t.proc == s.proc[c := op.v]
    ensures !op.SetProc? ==> t.proc == s.proc
  {
  }

  lemma NextProcs(s: State, c: nat, m: Move, t: State)
    requires Moves(s, c, m, t)
    ensures forall i: nat :: i < NPROC ==> t.procs[i] == ProcAfter(s, m.op, i)
    ensures m.op.SetProc? ==> t.proc == s.proc[c := m.op.v]
    ensures !m.op.SetProc? ==> t.proc == s.proc
  {
    hide Effect, ProcAfter, Frame, Balanced, Duty, Ok;
    EffectProcs(s, c, m.op, Effect(s, c, m.op));
  }

  /** Two CPUs do not hold the same lock. */
  lemma LockOnce(s: State, c: nat, d: nat, l: Lock)
    requires Inv(s) && c < NCPU && d < NCPU && l in HeldOn(s, c) && l in HeldOn(s, d)
    ensures c == d
  {
    hide HeldOn, CpuOk, AwayOk, PcsOk, MakersOk, OnceOk;
    assert l in s.lock && s.lock[l] == c;
    assert l in s.lock && s.lock[l] == d;
  }

  lemma NotRunningHolds(pc: Pc, me: nat)
    requires StateAt(pc) != RUNNING
    ensures PLock(me) in Held(pc, me)
  {
  }

  /** A process on a CPU that is not RUNNING is about to leave it, and holds its own lock. */
  lemma LeavingHolds(s: State, d: nat)
    requires Inv(s) && d < NCPU && s.on[d].Some? && s.procs[s.on[d].value].st != RUNNING
    ensures PLock(s.on[d].value) in HeldOn(s, d)
  {
    hide LocksOk, AwayOk, PcsOk, MakersOk, OnceOk, Held;
    assert CpuOk(s, d);
    NotRunningHolds(Top(s, d), Who(s, d));
  }

  /** fork makes runnable only the slot it has set up. */
  lemma ForkSets(s: State, c: nat, i: nat)
    requires Inv(s) && c < NCPU && s.on[c].Some? && (Top(s, c) == ForkSet(i) || Top(s, c) == ForkNew(i))
    ensures i < NPROC && s.procs[i].st == USED && !On(s, i) && Making(Top(s, c)) == Some(i)
  {
    hide LocksOk, AwayOk, PcsOk, OnceOk, CpuOk, Held;
    assert Making(s.pcs[s.on[c].value]) == Some(i);
    if On(s, i) {
      OnIsAlive(s, i);
    }
  }

  /** What an operation can do to the state of a process that is not the one performing it. */
  lemma StateChange(s: State, c: nat, m: Move, i: nat)
    requires Inv(s) && c < NCPU && Duty(s, Who(s, c), Top(s, c), m) && i < NPROC && i != Who(s, c)
    ensures ProcAfter(s, m.op, i).st != s.procs[i].st ==>
              || (PLock(i) in HeldOn(s, c) && s.procs[i].st == SLEEPING && ProcAfter(s, m.op, i).st == RUNNABLE)
              || (PLock(i) in HeldOn(s, c) && s.procs[i].st == RUNNABLE && ProcAfter(s, m.op, i).st == RUNNING
                  && s.on[c] == None && m.next == Chosen(i))
              || (s.procs[i].st == USED && ProcAfter(s, m.op, i).st in {RUNNABLE, UNUSED}
                  && s.on[c].Some? && Making(Top(s, c)) == Some(i))
              || (s.procs[i].st == UNUSED && m.op == Alloc(i) && ProcAfter(s, m.op, i).st == USED)
              || (PLock(i) in HeldOn(s, c) && s.procs[i].st == ZOMBIE && m.op == FreeProc(i, true)
                  && ProcAfter(s, m.op, i).st == UNUSED)
    ensures ProcAfter(s, m.op, i).chan != s.procs[i].chan ==>
              m.op.FreeProc? && m.op.i == i && s.procs[i].st in {USED, ZOMBIE}
    ensures m.op.FreeProc? && m.op.i == i && s.procs[i].st == ZOMBIE ==> PLock(i) in HeldOn(s, c)
    ensures m.op == Alloc(i) ==> s.procs[i].st == UNUSED && ProcAfter(s, m.op, i).st == USED
  {
    hide LocksOk, AwayOk, PcsOk, OnceOk, CpuOk, MakersOk, Ok, Making;
    if m.op.SetState? && m.op.i == i && Top(s, c) == ForkSet(i) && s.on[c].Some? {
      ForkSets(s, c, i);
    }
    if m.op.FreeProc? && m.op.i == i && Top(s, c) == ForkNew(i) {
      ForkSets(s, c, i);
    }
  }

  // ---------------------------------------------------------------- preservation

  /** A step changes who is on a CPU only by a swtch on that CPU. */
  lemma OnAfter(s: State, c: nat, m: Move, t: State, i: nat)
    requires Inv(s) && Moves(s, c, m, t)
    ensures On(t, i) <==> (On(s, i) && !(m.op.SwitchOut? && i == Who(s, c))) || m.op == SwitchIn(i)
  {
    hide LocksOk, AwayOk, PcsOk, CpuOk, MakersOk, Ok, Balanced, Next;
    SwitchFacts(s, c, m);
    if m.op == SwitchIn(i) {
      assert t.on[c] == Some(i);
    }
    if On(s, i) {
      var d :| 0 <= d < NCPU && s.on[d] == Some(i);
      if d != c {
        assert t.on[d] == Some(i);
      } else if !m.op.SwitchOut? && !m.op.SwitchIn? {
        assert t.on[c] == Some(i);
      }
    }
    if On(t, i) {
      var d :| 0 <= d < NCPU && t.on[d] == Some(i);
      if d != c {
        assert s.on[d] == Some(i);
      }
    }
  }

  lemma StepOnce(s: State, c: nat, m: Move, t: State)
    requires Inv(s) && Moves(s, c, m, t)
    ensures OnceOk(t)
  {
    hide LocksOk, AwayOk, PcsOk, CpuOk, MakersOk, Ok, Balanced, Next;
    SwitchFacts(s, c, m);
    if m.op.SwitchIn? {
      assert forall d :: 0 <= d < NCPU ==> s.on[d] != Some(m.op.j);
    }
  }

  lemma StepPcs(s: State, c: nat, m: Move, t: State)
    requires Inv(s) && Moves(s, c, m, t)
    ensures PcsOk(t)
  {
    hide LocksOk, AwayOk, OnceOk, CpuOk, MakersOk, Balanced, Next, Held, Ok;
    SwitchFacts(s, c, m);
    NewPcs(s, c, m);
    forall i: nat | i < NPROC
      ensures Ok(t.pcs[i], i)
    {
      assert Ok(s.pcs[i], i);
    }
  }

  lemma NewPcs(s: State, c: nat, m: Move)
    requires Inv(s) && c < NCPU && Duty(s, Who(s, c), Top(s, c), m)
    ensures Who(s, c) == NPROC ==> !m.next.Off?
    ensures forall i: nat :: Ok(Off(ForkRet), i)
    ensures forall j: nat :: Ok(Back(j), NPROC)
    ensures forall i: nat :: i < NPROC && s.pcs[i].Off? ==> Ok(s.pcs[i].k, i)
  {
    hide LocksOk, AwayOk, OnceOk, CpuOk, MakersOk, Held, Making;
    assert Ok(ForkRet, 0);
    forall i: nat
      ensures Ok(Off(ForkRet), i)
    {
      assert Ok(ForkRet, i);
    }
  }

  /** A CPU other than the one that moved. */
  lemma OtherCpu(s: State, c: nat, m: Move, t: State, d: nat)
    requires Inv(s) && Moves(s, c, m, t) && d < NCPU && d != c
    ensures CpuOk(t, d)
  {
    hide LocksOk, AwayOk, PcsOk, MakersOk, Balanced, Next, Held, Making, Duty, HeldOn, ProcAfter, Ok;
    assert CpuOk(s, d);
    OtherTop(s, c, m, t, d);
    NextProcs(s, c, m, t);
    if s.on[d].Some? {
      var i := s.on[d].value;
      OtherOn(s, c, m, t, d, i);
    } else if s.spc[d].Chosen? || s.spc[d].Ready? {
      var j := s.spc[d].j;
      OtherStarting(s, c, m, t, d, j);
    }
  }

  lemma OtherOn(s: State, c: nat, m: Move, t: State, d: nat, i: nat)
    requires Inv(s) && Moves(s, c, m, t) && d < NCPU && d != c && s.on[d] == Some(i)
    ensures ProcAfter(s, m.op, i).st == s.procs[i].st && ProcAfter(s, m.op, i).chan == s.procs[i].chan
  {
    hide LocksOk, AwayOk, PcsOk, CpuOk, Balanced, Next, Held, Duty, HeldOn, ProcAfter, Frame, Making, MakersOk, Ok;
    assert On(s, i);
    OnIsAlive(s, i);
    StateChange(s, c, m, i);
    if s.procs[i].st != RUNNING {
      LeavingHolds(s, d);
      if PLock(i) in HeldOn(s, c) {
        LockOnce(s, c, d, PLock(i));
      }
    }
  }

  lemma StartingHolds(s: State, d: nat, j: nat)
    requires Inv(s) && d < NCPU && s.on[d] == None && (s.spc[d] == Chosen(j) || s.spc[d] == Ready(j))
    ensures PLock(j) in HeldOn(s, d) && j < NPROC && s.procs[j].st == RUNNING && !On(s, j) && Resumable(s, j)
  {
    hide LocksOk, AwayOk, PcsOk, MakersOk, OnceOk, Ok;
    assert CpuOk(s, d);
  }

  lemma OtherStarting(s: State, c: nat, m: Move, t: State, d: nat, j: nat)
    requires Inv(s) && Moves(s, c, m, t) && d < NCPU && d != c && s.on[d] == None
    requires (s.spc[d] == Chosen(j) || s.spc[d] == Ready(j))
    ensures j < NPROC && ProcAfter(s, m.op, j).st == s.procs[j].st && !On(t, j) && Resumable(t, j)
  {
    hide LocksOk, AwayOk, PcsOk, CpuOk, Balanced, Next, Held, HeldOn, ProcAfter, Making, MakersOk, Ok;
    StartingHolds(s, d, j);
    assert s.on[c] != Some(j);
    StateChange(s, c, m, j);
    if PLock(j) in HeldOn(s, c) {
      LockOnce(s, c, d, PLock(j));
    }
    OnAfter(s, c, m, t, j);
    if m.op == SwitchIn(j) {
      ReadyHolds(s, c, j);
    }
  }

  lemma ReadyHolds(s: State, c: nat, j: nat)
    requires Shape(s) && c < NCPU && Top(s, c) == Ready(j)
    ensures PLock(j) in HeldOn(s, c)
  {
  }

  /** The CPU that moved, with a process on it: its state is the one its program counter says. */
  lemma OwnState(s: State, c: nat, m: Move, t: State, i: nat)
    requires Inv(s) && Moves(s, c, m, t) && s.on[c] == Some(i) && !m.op.SwitchOut?
    ensures ProcAfter(s, m.op, i).st == StateAt(m.next) && !m.next.Off? && !m.next.Dead?
    ensures m.next.Sched? && m.next.k.Awake1? ==> ProcAfter(s, m.op, i).chan == Some(m.next.k.ch)
  {
    hide LocksOk, AwayOk, PcsOk, Balanced, Next, Held, HeldOn, Making, MakersOk, Ok, Frame;
    assert CpuOk(s, c) && On(s, i);
    OnIsAlive(s, i);
    if Top(s, c) == ForkSet(i) || Top(s, c) == ForkNew(i) {
      ForkSets(s, c, i);
    }
  }

  lemma OwnCpu(s: State, c: nat, m: Move, t: State)
    requires Inv(s) && Moves(s, c, m, t)
    ensures CpuOk(t, c)
  {
    if s.on[c].Some? {
      ProcessCpu(s, c, m, t);
    } else {
      SchedulerCpu(s, c, m, t);
    }
  }

  lemma ProcessCpu(s: State, c: nat, m: Move, t: State)
    requires Inv(s) && Moves(s, c, m, t) && s.on[c].Some?
    ensures CpuOk(t, c)
  {
    hide LocksOk, AwayOk, PcsOk, Balanced, Next, Held, HeldOn, Making, MakersOk, Ok, ProcAfter;
    var i := s.on[c].value;
    assert CpuOk(s, c);
    NextProcs(s, c, m, t);
    SwitchFacts(s, c, m);
    if !m.op.SwitchOut? {
      OwnState(s, c, m, t, i);
    }
  }

  lemma SchedulerCpu(s: State, c: nat, m: Move, t: State)
    requires Inv(s) && Moves(s, c, m, t) && s.on[c] == None
    ensures CpuOk(t, c)
  {
    hide LocksOk, PcsOk, Balanced, Next, Held, HeldOn, Making, MakersOk, Ok;
    assert CpuOk(s, c);
    NextProcs(s, c, m, t);
    SwitchFacts(s, c, m);
    if m.op.SwitchIn? {
      StartingHolds(s, c, m.op.j);
      Resumes(s, m.op.j);
    } else if m.next.Chosen? {
      PickedIsAway(s, c, m.next.j);
      OnAfter(s, c, m, t, m.next.j);
    } else if m.next.Ready? {
      OnAfter(s, c, m, t, m.next.j);
    }
  }

  lemma Resumes(s: State, j: nat)
    requires Shape(s) && j < NPROC && Resumable(s, j)
    ensures !s.pcs[j].k.Off? && !s.pcs[j].k.Sched? && StateAt(s.pcs[j].k) == RUNNING
  {
  }

  /** What the scheduler finds RUNNABLE is not on a CPU. */
  lemma PickedIsAway(s: State, c: nat, j: nat)
    requires Inv(s) && c < NCPU && s.on[c] == None && Top(s, c) == Got(j) && j < NPROC && s.procs[j].st == RUNNABLE
    ensures !On(s, j) && Resumable(s, j)
  {
    hide LocksOk, PcsOk, Held, Making, MakersOk, CpuOk, Ok, HeldOn;
    if On(s, j) {
      var d: nat :| 0 <= d < NCPU && s.on[d] == Some(j);
      LeavingHolds(s, d);
      GotHolds(s, c, j);
      LockOnce(s, c, d, PLock(j));
    }
    PcIsOk(s, j);
  }

  lemma PcIsOk(s: State, j: nat)
    requires Inv(s) && j < NPROC
    ensures Ok(s.pcs[j], j)
  {
  }

  lemma GotHolds(s: State, c: nat, j: nat)
    requires Shape(s) && c < NCPU && Top(s, c) == Got(j)
    ensures PLock(j) in HeldOn(s, c)
  {
  }

  lemma StepAway(s: State, c: nat, m: Move, t: State, i: nat)
    requires Inv(s) && Moves(s, c, m, t) && i < NPROC && !On(t, i)
    ensures AwayOk(t, i)
  {
    hide LocksOk, PcsOk, Balanced, Next, Held, HeldOn, MakersOk, ProcAfter, Duty, CpuOk, AwayOk;
    OnAfter(s, c, m, t, i);
    if i == Who(s, c) {
      LeavesOk(s, c, m, t, i);
    } else {
      StaysAway(s, c, m, t, i);
    }
  }

  lemma LeavesOk(s: State, c: nat, m: Move, t: State, i: nat)
    requires Inv(s) && Moves(s, c, m, t) && i < NPROC && i == Who(s, c) && m.op.SwitchOut?
    ensures AwayOk(t, i)
  {
    hide LocksOk, PcsOk, Balanced, Next, Held, HeldOn, MakersOk;
    assert CpuOk(s, c);
    TopOk(s, c);
    NextProcs(s, c, m, t);
  }

  lemma StaysAway(s: State, c: nat, m: Move, t: State, i: nat)
    requires Inv(s) && Moves(s, c, m, t) && i < NPROC && i != Who(s, c) && !On(s, i) && m.op != SwitchIn(i)
    ensures AwayOk(t, i)
  {
    hide LocksOk, PcsOk, Balanced, Next, Held, HeldOn, MakersOk, ProcAfter, CpuOk, Ok, Making, Duty;
    assert AwayOk(s, i);
    NextProcs(s, c, m, t);
    StateChange(s, c, m, i);
    StillStarting(s, c, m, t, i);
  }

  /** A scheduler that has chosen a process keeps to it until it switches to it. */
  lemma KeepsChoice(s: State, c: nat, m: Move, t: State, i: nat)
    requires Moves(s, c, m, t) && m.op != SwitchIn(i) && s.on[c] == None
    requires s.spc[c] == Chosen(i) || s.spc[c] == Ready(i) || m.next == Chosen(i)
    ensures t.on[c] == None && (t.spc[c] == Chosen(i) || t.spc[c] == Ready(i))
  {
    hide Balanced, Next, Held, HeldOn, Ok, Making;
  }

  lemma StillStarting(s: State, c: nat, m: Move, t: State, i: nat)
    requires Inv(s) && Moves(s, c, m, t) && m.op != SwitchIn(i)
    ensures Starting(s, i) || (s.on[c] == None && m.next == Chosen(i)) ==> Starting(t, i)
  {
    hide LocksOk, PcsOk, Balanced, Next, Held, HeldOn, MakersOk, CpuOk, Ok, Making, AwayOk, Duty;
    if Starting(s, i) {
      var d: nat :| 0 <= d < NCPU && s.on[d] == None && (s.spc[d] == Chosen(i) || s.spc[d] == Ready(i));
      if d == c {
        KeepsChoice(s, c, m, t, i);
      }
      assert t.on[d] == None && (t.spc[d] == Chosen(i) || t.spc[d] == Ready(i));
    } else if s.on[c] == None && m.next == Chosen(i) {
      KeepsChoice(s, c, m, t, i);
    }
  }

  /** Who is setting up what, after a step. */
  lemma MakingAfter(s: State, c: nat, m: Move, t: State, i: nat)
    requires Inv(s) && Moves(s, c, m, t) && i < NPROC
    ensures Making(t.pcs[i]) == Making(s.pcs[i]) || Making(t.pcs[i]) == None
            || (i == Who(s, c) && m.op.Alloc? && Making(t.pcs[i]) == Some(m.op.i) && m.op.i < NPROC
                && s.procs[m.op.i].st == UNUSED)
    ensures i == Who(s, c) && Making(s.pcs[i]).Some? && Making(t.pcs[i]) == Making(s.pcs[i]) ==>
              ProcAfter(s, m.op, Making(s.pcs[i]).value).st == USED || Making(s.pcs[i]).value >= NPROC
              || s.procs[Making(s.pcs[i]).value].st != USED
  {
    hide LocksOk, PcsOk, AwayOk, CpuOk, Balanced, Next, Held, MakersOk, Ok;
    if m.op == SwitchIn(i) {
      assert Making(s.pcs[i]) == Making(s.pcs[i].k);
    } else if i == Who(s, c) {
      MakingNext(s, c, m);
      MakingStays(s, c, m);
    } else if m.op == Alloc(i) {
      assert Base(ForkRet) == ForkRet;
    }
  }

  /** What a thread makes changes only with allocproc or the end of fork. */
  lemma MakingNext(s: State, c: nat, m: Move)
    requires Inv(s) && c < NCPU && Duty(s, Who(s, c), Top(s, c), m) && s.on[c].Some?
    ensures Making(m.next) == Making(Top(s, c)) || Making(m.next) == None
            || (m.op.Alloc? && Making(m.next) == Some(m.op.i) && m.op.i < NPROC && s.procs[m.op.i].st == UNUSED)
  {
    hide LocksOk, PcsOk, AwayOk, Held, MakersOk, Ok, CpuOk, ProcAfter, StateAt;
    var pc := Top(s, c);
    match m.op {
      case SetParent(i, p) =>
        assert Base(Reparent(i + 1)) == Reparent(i + 1);
      case UnlockSleep(l) =>
        assert Base(Rel2(l)) == Rel2(l);
      case SwitchOut =>
        assert Base(pc) == Base(pc.k) == Base(Off(pc.k));
      case SetState(i, st) =>
        if pc.Yield1? {
          assert Base(Yield2(pc.k)) == Base(pc.k);
        }
      case GoToSleep(i, ch) =>
        assert Base(Awake1(ch, pc.k)) == Base(pc.k);
      case _ =>
    }
  }

  /** A process in the making stays so while its maker goes on with it. */
  lemma MakingStays(s: State, c: nat, m: Move)
    requires Inv(s) && c < NCPU && Duty(s, Who(s, c), Top(s, c), m) && s.on[c].Some?
    ensures Making(Top(s, c)).Some? && Making(m.next) == Making(Top(s, c)) && Making(m.next).value < NPROC
            && s.procs[Making(m.next).value].st == USED ==>
              ProcAfter(s, m.op, Making(m.next).value).st == USED
  {
    hide LocksOk, PcsOk, AwayOk, Held, MakersOk, Ok, CpuOk;
    assert On(s, Who(s, c));
    OnIsAlive(s, Who(s, c));
  }

  lemma StepMakers(s: State, c: nat, m: Move, t: State)
    requires Inv(s) && Moves(s, c, m, t)
    ensures MakersOk(t)
  {
    hide LocksOk, PcsOk, AwayOk, CpuOk, Balanced, Next, Held, Ok, Making, Duty, Frame, ProcAfter;
    NextProcs(s, c, m, t);
    forall i: nat | i < NPROC && Making(t.pcs[i]).Some?
      ensures Making(t.pcs[i]).value < NPROC && t.procs[Making(t.pcs[i]).value].st == USED
    {
      MakerKeeps(s, c, m, t, i);
    }
    forall i: nat, h: nat | i < NPROC && h < NPROC && h != i && Making(t.pcs[i]).Some?
      ensures Making(t.pcs[h]) != Making(t.pcs[i])
    {
      MakingAfter(s, c, m, t, i);
      MakingAfter(s, c, m, t, h);
    }
  }

  lemma MakerKeeps(s: State, c: nat, m: Move, t: State, i: nat)
    requires Inv(s) && Moves(s, c, m, t) && i < NPROC && Making(t.pcs[i]).Some?
    ensures Making(t.pcs[i]).value < NPROC && ProcAfter(s, m.op, Making(t.pcs[i]).value).st == USED
  {
    hide LocksOk, PcsOk, AwayOk, CpuOk, Balanced, Next, Held, Ok, Making, Duty, Frame, ProcAfter;
    MakingAfter(s, c, m, t, i);
    var j := Making(t.pcs[i]).value;
    if m.op == Alloc(j) {
      AllocSt(s, j);
    } else {
      if i != Who(s, c) {
        if j == Who(s, c) {
          assert On(s, j);
          OnIsAlive(s, j);
        } else {
          StateChange(s, c, m, j);
          if s.on[c].Some? {
            assert s.pcs[Who(s, c)] == Top(s, c);
          }
        }
      }
    }
  }

  lemma AllocSt(s: State, j: nat)
    requires Shape(s) && j < NPROC
    ensures ProcAfter(s, Alloc(j), j).st == USED
  {
  }

  /** Every step keeps the invariant. */
  lemma InvPreserved(s: State, c: nat, a: Choice, t: State)
    requires Inv(s) && Steps(s, c, a, t)
    ensures Inv(t)
  {
    hide Inv, LocksOk, OnceOk, PcsOk, MakersOk, CpuOk, AwayOk, Moves, Steps;
    var m := StepMoves(s, c, a, t);
    InvMoves(s, c, m, t);
  }

  lemma InvMoves(s: State, c: nat, m: Move, t: State)
    requires Inv(s) && Moves(s, c, m, t) && Enabled(s, m.op)
    ensures Inv(t)
  {
    hide LocksOk, OnceOk, PcsOk, MakersOk, CpuOk, AwayOk, Frame, Balanced, Duty, Next, Ok;
    StepLocks(s, c, m, t);
    StepOnce(s, c, m, t);
    StepPcs(s, c, m, t);
    StepMakers(s, c, m, t);
    forall d: nat | d < NCPU
      ensures CpuOk(t, d)
    {
      if d == c {
        OwnCpu(s, c, m, t);
      } else {
        OtherCpu(s, c, m, t, d);
      }
    }
    forall i: nat | i < NPROC && !On(t, i)
      ensures AwayOk(t, i)
    {
      StepAway(s, c, m, t, i);
    }
  }

  // ---------------------------------------------------------------- whole runs

  datatype Event = Event(c: nat, a: Choice, t: State)

  ghost predicate IsRun(s: State, run: seq<Event>)
    decreases run
  {
    run == [] || (Steps(s, run[0].c, run[0].a, run[0].t) && IsRun(run[0].t, run[1..]))
  }

  function Final(s: State, run: seq<Event>): State
    decreases run
  {
    if run == [] then s else Final(run[0].t, run[1..])
  }

  lemma {:induction false} RunInv(s: State, run: seq<Event>)
    requires Inv(s) && IsRun(s, run)
    ensures Inv(Final(s, run))
    decreases run
  {
    hide Inv, Steps;
    if run != [] {
      InvPreserved(s, run[0].c, run[0].a, run[0].t);
      RunInv(run[0].t, run[1..]);
    }
  }

  /** What the invariant says about one process and two CPUs. */
  lemma OneCpu(t: State, i: nat, c: nat, d: nat)
    requires Inv(t) && i < NPROC && c < NCPU && d < NCPU
    ensures t.on[c] == Some(i) && t.on[d] == Some(i) ==> c == d
    ensures t.on[c] == Some(i) ==> t.proc[c] == Some(i)
    ensures t.procs[i].st == RUNNING ==> On(t, i) || Starting(t, i)
    ensures t.on[c] == Some(i) && t.procs[i].st != RUNNING ==> PLock(i) in t.lock && t.lock[PLock(i)] == c
    ensures PLock(i) in HeldOn(t, c) && PLock(i) in HeldOn(t, d) ==> c == d
  {
    hide Ok, Held, HeldOn, MakersOk, PcsOk;
    if t.on[c] == Some(i) {
      assert CpuOk(t, c);
      if t.procs[i].st != RUNNING {
        LeavingHolds(t, c);
      }
    }
    if PLock(i) in HeldOn(t, c) && PLock(i) in HeldOn(t, d) {
      LockOnce(t, c, d, PLock(i));
    }
    if !On(t, i) {
      assert AwayOk(t, i);
    }
  }

  /** In every run from boot: a process is on at most one CPU; if it is RUNNING its thread is
      on a CPU, or a scheduler is about to switch to it; on its way off a CPU it holds its own
      lock; and that lock never has two holders. */
  lemma OneCpuPerProcess(s: State, run: seq<Event>, i: nat, c: nat, d: nat)
    requires Boot(s) && IsRun(s, run) && i < NPROC && c < NCPU && d < NCPU
    ensures var t := Final(s, run);
            && Shape(t) && (t.on[c] == Some(i) && t.on[d] == Some(i) ==> c == d)
            && (t.on[c] == Some(i) ==> t.proc[c] == Some(i))
            && (t.procs[i].st == RUNNING ==> On(t, i) || Starting(t, i))
            && (t.on[c] == Some(i) && t.procs[i].st != RUNNING ==> PLock(i) in t.lock && t.lock[PLock(i)] == c)
            && (PLock(i) in HeldOn(t, c) && PLock(i) in HeldOn(t, d) ==> c == d)
  {
    hide Inv, IsRun, Boot, HeldOn, On, Starting;
    BootInv(s);
    RunInv(s, run);
    InvShape(Final(s, run));
    OneCpu(Final(s, run), i, c, d);
  }

  /** In every run from boot, no acquire, release or sched ever panics, whatever the next step
      of whichever CPU is; and a process that has exited never runs again. */
  lemma NoPanic(s: State, run: seq<Event>, c: nat, a: Choice)
    requires Boot(s) && IsRun(s, run) && c < NCPU
    ensures var t := Final(s, run);
            Shape(t) && (t.on[c].Some? ==> Top(t, c) != Dead)
              && (Code(t, c, a).Some? ==> !Panics(t, c, Code(t, c, a).value.op))
  {
    hide Inv, Steps, Code, Panics;
    BootInv(s);
    RunInv(s, run);
    var t := Final(s, run);
    InvShape(t);
    NotDead(t, c);
    if Code(t, c, a).Some? {
      var m := Code(t, c, a).value;
      TopOk(t, c);
      CodeBalanced(t, c, a, m);
      CodeDuty(t, c, a, m);
      MoveDoesNotPanic(t, c, m);
    }
  }

  lemma InvShape(s: State)
    requires Inv(s)
    ensures Shape(s)
  {
  }

  lemma NotDead(s: State, c: nat)
    requires Inv(s) && c < NCPU
    ensures s.on[c].Some? ==> Top(s, c) != Dead
  {
    hide LocksOk, MakersOk, PcsOk, Ok, Held;
    assert CpuOk(s, c);
  }

  lemma MoveDoesNotPanic(s: State, c: nat, m: Move)
    requires Inv(s) && c < NCPU && Balanced(Top(s, c), Who(s, c), m) && Duty(s, Who(s, c), Top(s, c), m)
    ensures !Panics(s, c, m.op)
  {
    hide Inv, Held, Duty;
    if m.op.Acquire? || m.op.Release? {
      LockRecord(s, c, m.op.l);
    } else if m.op.SwitchOut? {
      SchedDoesNotPanic(s, c, m);
    }
  }

  lemma LockRecord(s: State, c: nat, l: Lock)
    requires Inv(s) && c < NCPU
    ensures l in HeldOn(s, c) <==> l in s.lock && s.lock[l] == c
  {
    hide MakersOk, PcsOk, Held, AwayOk, CpuOk, OnceOk, HeldOn;
  }

  lemma SchedDoesNotPanic(s: State, c: nat, m: Move)
    requires Inv(s) && c < NCPU && Duty(s, Who(s, c), Top(s, c), m) && m.op.SwitchOut?
    ensures !Panics(s, c, SwitchOut)
  {
    hide MakersOk, PcsOk, Held, AwayOk, OnceOk, Ok;
    assert CpuOk(s, c);
    var me := Who(s, c);
    SchedHeld(Top(s, c), me);
    assert HeldOn(s, c) == {PLock(me)};
    LockRecord(s, c, PLock(me));
    assert s.noff[c] == |HeldOn(s, c)| == 1;
  }
}
