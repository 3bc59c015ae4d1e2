/** The process protocol of kernel/proc.c, kernel/spinlock.c and kernel/sleeplock.c as a step
    system. Every CPU runs either its scheduler thread or a process's kernel thread; a step is
    one lock operation, one write to shared memory, or a swtch. Any CPU may take the next step,
    and interrupts may arrive wherever no spin lock is held.

    A thread's program counter carries what the routine it is in returns to, so that yield,
    sleep and wakeup have one description each whoever calls them.
 */
module ProcMachine {
  import opened Prelude

  const NPROC: nat := 64
  const NCPU: nat := 8
  const INIT: nat := 0                  // the slot of initproc

  /** What a process may sleep on: a process (in wait), a sleep-lock, or anything else that is
      guarded by one particular spin lock. */
  datatype Chan = OfProc(i: nat) | OfSleepLock(l: nat) | Plain(lk: nat, n: nat)

  datatype Lock = PLock(i: nat) | WaitLock | Inner(l: nat) | Spin(lk: nat)

  /** The spin lock that a sleeper on the channel gives to sleep(). */
  function LockOf(ch: Chan): Lock
  {
    match ch
    case OfProc(_) => WaitLock
    case OfSleepLock(l) => Inner(l)
    case Plain(lk, _) => Spin(lk)
  }

  datatype Pc =
    | Run                               // user code, or kernel code outside the routines below
    | Crit(lk: nat, k: Pc)              // a critical section of some spin lock
    | Yield0(k: Pc) | Yield1(k: Pc) | Yield2(k: Pc)
    | Sched(k: Pc)                      // in sched(), about to swtch
    | Off(k: Pc)                        // switched away
    | Sleep0(ch: Chan, k: Pc) | Sleep1(ch: Chan, k: Pc) | Sleep2(ch: Chan, k: Pc)
    | Awake1(ch: Chan, k: Pc) | Awake2(ch: Chan, k: Pc) | Awake3(ch: Chan, k: Pc)
    | Wake(j: nat, ch: Chan, k: Pc) | WakeGot(j: nat, ch: Chan, k: Pc) | WakeRel(j: nat, ch: Chan, k: Pc)
    | Kill(j: nat, pid: nat) | KillGot(j: nat, pid: nat) | KillSet(j: nat, pid: nat)
    | KillRel(j: nat, pid: nat, found: bool)
    | Fork(j: nat) | ForkGot(j: nat) | ForkSkip(j: nat) | ForkNew(j: nat) | ForkFail(j: nat)
    | ForkWait(j: nat) | ForkParent(j: nat) | ForkUnwait(j: nat) | ForkLock(j: nat) | ForkSet(j: nat) | ForkRel(j: nat)
    | ForkRet                           // forkret: where a new process starts
    | Exit | Reparent(j: nat) | ExitLock | ExitSet | ExitRel | Dead
    | Wait | WaitScan(j: nat, kids: bool) | WaitGot(j: nat) | WaitNext(j: nat) | WaitFreed(j: nat) | WaitOut
    | Acq(l: nat) | Acq1(l: nat) | Acq2(l: nat) | Acq3(l: nat)
    | Rel(l: nat) | Rel1(l: nat) | Rel2(l: nat)
    // the scheduler thread
    | Idle | Got(j: nat) | Chosen(j: nat) | Ready(j: nat) | Back(j: nat) | Drop(j: nat)

  /** The spin locks a thread holds at its program counter; me is the process, NPROC for a
      scheduler thread. */
  function Held(pc: Pc, me: nat): set<Lock>
  {
    match pc
    case Crit(lk, _) => {Spin(lk)}
    case Yield1(_) => {PLock(me)}
    case Yield2(_) => {PLock(me)}
    case Sched(_) => {PLock(me)}
    case Sleep0(ch, _) => {LockOf(ch)}
    case Sleep1(ch, _) => {LockOf(ch), PLock(me)}
    case Sleep2(_, _) => {PLock(me)}
    case Awake1(_, _) => {PLock(me)}
    case Awake2(_, _) => {PLock(me)}
    case Wake(_, _, k) => Held(k, me)
    case WakeGot(j, _, k) => Held(k, me) + {PLock(j)}
    case WakeRel(j, _, k) => Held(k, me) + {PLock(j)}
    case KillGot(j, _) => {PLock(j)}
    case KillSet(j, _) => {PLock(j)}
    case KillRel(j, _, _) => {PLock(j)}
    case ForkGot(j) => {PLock(j)}
    case ForkSkip(j) => {PLock(j)}
    case ForkNew(j) => {PLock(j)}
    case ForkFail(j) => {PLock(j)}
    case ForkParent(_) => {WaitLock}
    case ForkUnwait(_) => {WaitLock}
    case ForkSet(j) => {PLock(j)}
    case ForkRel(j) => {PLock(j)}
    case ForkRet => {PLock(me)}
    case Reparent(_) => {WaitLock}
    case ExitLock => {WaitLock}
    case ExitSet => {WaitLock, PLock(me)}
    case ExitRel => {WaitLock, PLock(me)}
    case Dead => {PLock(me)}
    case WaitScan(_, _) => {WaitLock}
    case WaitGot(j) => {WaitLock, PLock(j)}
    case WaitNext(j) => {WaitLock, PLock(j)}
    case WaitFreed(j) => {WaitLock, PLock(j)}
    case WaitOut => {WaitLock}
    case Acq1(l) => {Inner(l)}
    case Acq2(l) => {Inner(l)}
    case Acq3(l) => {Inner(l)}
    case Rel1(l) => {Inner(l)}
    case Rel2(l) => {Inner(l)}
    case Got(j) => {PLock(j)}
    case Chosen(j) => {PLock(j)}
    case Ready(j) => {PLock(j)}
    case Back(j) => {PLock(j)}
    case Drop(j) => {PLock(j)}
    case _ => {}
  }

  datatype Proc = Proc(st: St, chan: Option<Chan>, parent: Option<nat>, killed: bool, pid: nat)

  datatype State = State(
    procs: seq<Proc>,
    pcs: seq<Pc>,                       // of the processes
    spc: seq<Pc>,                       // of the scheduler threads
    on: seq<Option<nat>>,               // the process whose thread each CPU executes, if any
    proc: seq<Option<nat>>,             // c->proc
    noff: seq<nat>,                     // c->noff
    lock: map<Lock, nat>,               // the spin locks that are held, with the CPU recorded in each
    sl: map<nat, nat>,                  // the sleep-locks that are locked, with the process recorded in each
    has: seq<set<nat>>,                 // the sleep-locks each process has acquired and not released
    nextpid: nat,
    reaped: seq<nat>                    // pids returned by wait, so far
  )

  ghost predicate Shape(s: State)
  {
    && |s.procs| == |s.pcs| == |s.has| == NPROC
    && |s.spc| == |s.on| == |s.proc| == |s.noff| == NCPU
    && forall c :: 0 <= c < NCPU && s.on[c].Some? ==> s.on[c].value < NPROC
  }

  /** Who executes on CPU c, and where. */
  function Who(s: State, c: nat): nat
    requires Shape(s) && c < NCPU
  {
    if s.on[c].Some? then s.on[c].value else NPROC
  }

  function Top(s: State, c: nat): Pc
    requires Shape(s) && c < NCPU
  {
    if s.on[c].Some? then s.pcs[s.on[c].value] else s.spc[c]
  }

  /** What a step does to shared memory. */
  datatype Do =
    | Jump                              // nothing: a test, or a call
    | Acquire(l: Lock) | Release(l: Lock)
    | SetState(i: nat, st: St)
    | GoToSleep(i: nat, ch: Chan)
    | ClearChan(i: nat)
    | SetKilled(i: nat)
    | SetParent(i: nat, p: nat)
    | Alloc(i: nat)                     // a slot becomes USED, with a fresh pid and a context that starts in forkret
    | FreeProc(i: nat, reap: bool)
    | LockSleep(sl: nat) | UnlockSleep(sl: nat)
    | SetProc(v: Option<nat>)           // c->proc
    | SwitchOut | SwitchIn(j: nat)

  datatype Move = Move(op: Do, next: Pc)

  /** What the outside world, or code that is not modelled, decides. */
  datatype Choice =
    | Go | Fail
    | Tick                              // a timer interrupt that makes the process yield
    | Enter(lk: nat)                    // a critical section, of a system call or of an interrupt handler
    | DoSleep(n: nat) | DoWake(n: nat)
    | DoFork | DoExit | DoWait | DoKill(pid: nat) | DoAcq(l: nat) | DoRel(l: nat)
    | Pick(j: nat)                      // the scheduler tries process j: covers every policy

  /** What the thread on CPU c does next, given the choices made for it; None if it does not
      come to that choice here. */
  function Code(s: State, c: nat, a: Choice): Option<Move>
    requires Shape(s) && c < NCPU
  {
    var me, pc := Who(s, c), Top(s, c);
    if a == Tick then
      if me < NPROC && Held(pc, me) == {} then Some(Move(Jump, Yield0(pc))) else None
    else if a.Enter? then
      if Held(pc, me) == {} then Some(Move(Acquire(Spin(a.lk)), Crit(a.lk, pc))) else None
    else if me == NPROC && pc == Idle then
      if a.Pick? && a.j < NPROC then Some(Move(Acquire(PLock(a.j)), Got(a.j))) else None
    else if pc == Run then Syscall(s, me, a)
    else if pc.Crit? then
      match a
      case DoSleep(n) => if me < NPROC then Some(Move(Jump, Sleep0(Plain(pc.lk, n), pc))) else None
      case DoWake(n) => Some(Move(Jump, Wake(0, Plain(pc.lk, n), pc)))
      case Go => Some(Move(Release(Spin(pc.lk)), pc.k))
      case _ => None
    else if a == Fail && me < NPROC then
      match pc
      case ForkNew(j) => Some(Move(FreeProc(j, false), ForkFail(j)))
      case WaitGot(j) => if j < NPROC && s.procs[j].st == ZOMBIE then Some(Move(Jump, WaitFreed(j))) else None
      case _ => None
    else if a == Go then Straight(s, me, pc)
    else None
  }

  /** System calls; a sleep-lock is released only by the process that has it. */
  function Syscall(s: State, me: nat, a: Choice): Option<Move>
    requires Shape(s)
  {
    match a
    case DoFork => Some(Move(Jump, Fork(0)))
    case DoExit => if me != INIT then Some(Move(Jump, Exit)) else None
    case DoWait => Some(Move(Jump, Wait))
    case DoKill(pid) => Some(Move(Jump, Kill(0, pid)))
    case DoAcq(l) => Some(Move(Jump, Acq(l)))
    case DoRel(l) => if me < NPROC && l in s.has[me] then Some(Move(Jump, Rel(l))) else None
    case _ => None
  }

  /** The steps that involve no choice. */
  function Straight(s: State, me: nat, pc: Pc): Option<Move>
    requires Shape(s)
  {
    if me < NPROC then Routine(s, me, pc) else Scheduler(s, pc)
  }

  function Scheduler(s: State, pc: Pc): Option<Move>
    requires Shape(s)
  {
    match pc
    case Wake(j, ch, k) => WakeStep(s, NPROC, j, ch, k)
    case WakeGot(j, ch, k) => WakeTest(s, j, ch, k)
    case WakeRel(j, ch, k) => Some(Move(Release(PLock(j)), Wake(j + 1, ch, k)))
    case Got(j) => if j < NPROC && s.procs[j].st == RUNNABLE then Some(Move(SetState(j, RUNNING), Chosen(j)))
                   else Some(Move(Jump, Drop(j)))
    case Chosen(j) => Some(Move(SetProc(Some(j)), Ready(j)))
    case Ready(j) => Some(Move(SwitchIn(j), Back(j)))
    case Back(j) => Some(Move(SetProc(None), Drop(j)))
    case Drop(j) => Some(Move(Release(PLock(j)), Idle))
    case _ => None
  }

  /** wakeup(): skips the caller's own slot. */
  function WakeStep(s: State, me: nat, j: nat, ch: Chan, k: Pc): Option<Move>
  {
    if j >= NPROC then Some(Move(Jump, k))
    else if j == me then Some(Move(Jump, Wake(j + 1, ch, k)))
    else Some(Move(Acquire(PLock(j)), WakeGot(j, ch, k)))
  }

  function WakeTest(s: State, j: nat, ch: Chan, k: Pc): Option<Move>
    requires Shape(s)
  {
    if j < NPROC && s.procs[j].st == SLEEPING && s.procs[j].chan == Some(ch)
    then Some(Move(SetState(j, RUNNABLE), WakeRel(j, ch, k)))
    else Some(Move(Jump, WakeRel(j, ch, k)))
  }

  function Routine(s: State, me: nat, pc: Pc): Option<Move>
    requires Shape(s) && me < NPROC
  {
    match pc
    // yield
    case Yield0(k) => Some(Move(Acquire(PLock(me)), Yield1(k)))
    case Yield1(k) => Some(Move(SetState(me, RUNNABLE), Sched(Yield2(k))))
    case Yield2(k) => Some(Move(Release(PLock(me)), k))
    case Sched(k) => Some(Move(SwitchOut, Off(k)))
    case ForkRet => Some(Move(Release(PLock(me)), Run))
    // sleep
    case Sleep0(ch, k) => Some(Move(Acquire(PLock(me)), Sleep1(ch, k)))
    case Sleep1(ch, k) => Some(Move(Release(LockOf(ch)), Sleep2(ch, k)))
    case Sleep2(ch, k) => Some(Move(GoToSleep(me, ch), Sched(Awake1(ch, k))))
    case Awake1(ch, k) => Some(Move(ClearChan(me), Awake2(ch, k)))
    case Awake2(ch, k) => Some(Move(Release(PLock(me)), Awake3(ch, k)))
    case Awake3(ch, k) => Some(Move(Acquire(LockOf(ch)), k))
    // wakeup
    case Wake(j, ch, k) => WakeStep(s, me, j, ch, k)
    case WakeGot(j, ch, k) => WakeTest(s, j, ch, k)
    case WakeRel(j, ch, k) => Some(Move(Release(PLock(j)), Wake(j + 1, ch, k)))
    // kill
    case Kill(j, pid) => if j < NPROC then Some(Move(Acquire(PLock(j)), KillGot(j, pid))) else Some(Move(Jump, Run))
    case KillGot(j, pid) => if j < NPROC && s.procs[j].pid == pid then Some(Move(SetKilled(j), KillSet(j, pid)))
                            else Some(Move(Jump, KillRel(j, pid, false)))
    case KillSet(j, pid) => if j < NPROC && s.procs[j].st == SLEEPING
                            then Some(Move(SetState(j, RUNNABLE), KillRel(j, pid, true)))
                            else Some(Move(Jump, KillRel(j, pid, true)))
    case KillRel(j, pid, found) => Some(Move(Release(PLock(j)), if found then Run else Kill(j + 1, pid)))
    case _ => if pc.Fork? || pc.ForkGot? || pc.ForkSkip? || pc.ForkNew? || pc.ForkFail? || pc.ForkWait?
              || pc.ForkParent? ||
                 pc.ForkUnwait? || pc.ForkLock? || pc.ForkSet? || pc.ForkRel? then ForkCode(s, me, pc)
              else if pc.Acq? || pc.Acq1? || pc.Acq2? || pc.Acq3? || pc.Rel? || pc.Rel1? || pc.Rel2?
                then SleepLockCode(s, pc)
              else if pc.Exit? || pc.Reparent? || pc.ExitLock? || pc.ExitSet? || pc.ExitRel? then ExitCode(s, me, pc)
              else WaitCode(s, me, pc)
  }

  /** fork, with allocproc */
  function ForkCode(s: State, me: nat, pc: Pc): Option<Move>
    requires Shape(s) && me < NPROC
  {
    match pc
    case Fork(j) => if j < NPROC then Some(Move(Acquire(PLock(j)), ForkGot(j))) else Some(Move(Jump, Run))
    case ForkGot(j) => if j < NPROC && s.procs[j].st == UNUSED then Some(Move(Alloc(j), ForkNew(j)))
                       else Some(Move(Jump, ForkSkip(j)))
    case ForkSkip(j) => Some(Move(Release(PLock(j)), Fork(j + 1)))
    case ForkFail(j) => Some(Move(Release(PLock(j)), Run))
    case ForkNew(j) => Some(Move(Release(PLock(j)), ForkWait(j)))
    case ForkWait(j) => Some(Move(Acquire(WaitLock), ForkParent(j)))
    case ForkParent(j) => Some(Move(SetParent(j, me), ForkUnwait(j)))
    case ForkUnwait(j) => Some(Move(Release(WaitLock), ForkLock(j)))
    case ForkLock(j) => Some(Move(Acquire(PLock(j)), ForkSet(j)))
    case ForkSet(j) => Some(Move(SetState(j, RUNNABLE), ForkRel(j)))
    case ForkRel(j) => Some(Move(Release(PLock(j)), Run))
    case _ => None
  }

  /** exit, with reparent */
  function ExitCode(s: State, me: nat, pc: Pc): Option<Move>
    requires Shape(s) && me < NPROC
  {
    match pc
    case Exit => Some(Move(Acquire(WaitLock), Reparent(0)))
    case Reparent(j) => if j < NPROC && s.procs[j].parent == Some(me)
                        then Some(Move(SetParent(j, INIT), Wake(0, OfProc(INIT), Reparent(j + 1))))
                        else if j < NPROC then Some(Move(Jump, Reparent(j + 1)))
                        else if s.procs[me].parent.Some?
                          then Some(Move(Jump, Wake(0, OfProc(s.procs[me].parent.value), ExitLock)))
                        else None
    case ExitLock => Some(Move(Acquire(PLock(me)), ExitSet))
    case ExitSet => Some(Move(SetState(me, ZOMBIE), ExitRel))
    case ExitRel => Some(Move(Release(WaitLock), Sched(Dead)))
    case _ => None
  }

  function WaitCode(s: State, me: nat, pc: Pc): Option<Move>
    requires Shape(s) && me < NPROC
  {
    match pc
    case Wait => Some(Move(Acquire(WaitLock), WaitScan(0, false)))
    case WaitScan(j, kids) => if j < NPROC && s.procs[j].parent == Some(me)
                              then Some(Move(Acquire(PLock(j)), WaitGot(j)))
                              else if j < NPROC then Some(Move(Jump, WaitScan(j + 1, kids)))
                              else if !kids || s.procs[me].killed then Some(Move(Jump, WaitOut))
                              else Some(Move(Jump, Sleep0(OfProc(me), WaitScan(0, false))))
    case WaitGot(j) => if j < NPROC && s.procs[j].st == ZOMBIE then Some(Move(FreeProc(j, true), WaitFreed(j)))
                       else Some(Move(Jump, WaitNext(j)))
    case WaitNext(j) => Some(Move(Release(PLock(j)), WaitScan(j + 1, true)))
    case WaitFreed(j) => Some(Move(Release(PLock(j)), WaitOut))
    case WaitOut => Some(Move(Release(WaitLock), Run))
    case _ => None
  }

  /** acquiresleep and releasesleep */
  function SleepLockCode(s: State, pc: Pc): Option<Move>
    requires Shape(s)
  {
    match pc
    case Acq(l) => Some(Move(Acquire(Inner(l)), Acq1(l)))
    case Acq1(l) => if l in s.sl then Some(Move(Jump, Sleep0(OfSleepLock(l), Acq1(l)))) else Some(Move(Jump, Acq2(l)))
    case Acq2(l) => Some(Move(LockSleep(l), Acq3(l)))
    case Acq3(l) => Some(Move(Release(Inner(l)), Run))
    case Rel(l) => Some(Move(Acquire(Inner(l)), Rel1(l)))
    case Rel1(l) => Some(Move(UnlockSleep(l), Wake(0, OfSleepLock(l), Rel2(l))))
    case Rel2(l) => Some(Move(Release(Inner(l)), Run))
    case _ => None
  }

  // ---------------------------------------------------------------- executing a move

  /** A lock is acquired once it is free. */
  ghost predicate Enabled(s: State, op: Do)
  {
    op.Acquire? ==> op.l !in s.lock
  }

  const BLANK := Proc(UNUSED, None, None, false, 0)

  /** The effect on everything but program counters. */
  function Effect(s: State, c: nat, op: Do): State
    requires Shape(s) && c < NCPU
  {
    var me := Who(s, c);
    match op
    case Jump => s
    case Acquire(l) => s.(lock := s.lock[l := c], noff := s.noff[c := s.noff[c] + 1])
    case Release(l) => s.(lock := s.lock - {l}, noff := s.noff[c := if s.noff[c] > 0 then s.noff[c] - 1 else 0])
    case SetState(i, st) => if i < NPROC then s.(procs := s.procs[i := s.procs[i].(st := st)]) else s
    case GoToSleep(i, ch) => if i < NPROC then s.(procs := s.procs[i := s.procs[i].(chan := Some(ch), st := SLEEPING)])
                             else s
    case ClearChan(i) => if i < NPROC then s.(procs := s.procs[i := s.procs[i].(chan := None)]) else s
    case SetKilled(i) => if i < NPROC then s.(procs := s.procs[i := s.procs[i].(killed := true)]) else s
    case SetParent(i, p) => if i < NPROC then s.(procs := s.procs[i := s.procs[i].(parent := Some(p))]) else s
    case Alloc(i) => if i < NPROC then s.(procs := s.procs[i := s.procs[i].(st := USED, pid := s.nextpid)],
                                          pcs := s.pcs[i := Off(ForkRet)], nextpid := s.nextpid + 1) else s
    case FreeProc(i, reap) => if i < NPROC then s.(procs := s.procs[i := BLANK],
                                                   reaped := if reap then s.reaped + [s.procs[i].pid] else s.reaped)
                                                     else s
    case LockSleep(l) => if me < NPROC then s.(sl := s.sl[l := me], has := s.has[me := s.has[me] + {l}]) else s
    case UnlockSleep(l) => if me < NPROC then s.(sl := s.sl - {l}, has := s.has[me := s.has[me] - {l}]) else s
    case SetProc(v) => s.(proc := s.proc[c := v])
    case SwitchOut => s
    case SwitchIn(j) => s
  }

  /** The step: the effect, and control goes on at `next`. */
  function Next(s: State, c: nat, m: Move): State
    requires Shape(s) && c < NCPU
  {
    var t := Effect(s, c, m.op);
    match m.op
    case SwitchIn(j) => if j < NPROC && s.pcs[j].Off? && s.on[c] == None
                        then t.(on := t.on[c := Some(j)], pcs := t.pcs[j := s.pcs[j].k], spc := t.spc[c := m.next])
                          else t
    case SwitchOut => if s.on[c].Some? then t.(on := t.on[c := None], pcs := t.pcs[s.on[c].value := m.next]) else t
    case _ => if s.on[c].Some? then t.(pcs := t.pcs[s.on[c].value := m.next]) else t.(spc := t.spc[c := m.next])
  }

  /** The panics on these paths: acquire of a lock this CPU holds, release of one it does not
      hold, and the checks of sched. */
  ghost predicate Panics(s: State, c: nat, op: Do)
    requires Shape(s) && c < NCPU
  {
    match op
    case Acquire(l) => l in s.lock && s.lock[l] == c
    case Release(l) => l !in s.lock || s.lock[l] != c
    case SwitchOut => || Who(s, c) == NPROC || s.proc[c] != Some(Who(s, c)) || s.noff[c] != 1
                      || s.procs[Who(s, c)].st == RUNNING
                      || PLock(Who(s, c)) !in s.lock || s.lock[PLock(Who(s, c))] != c
    case _ => false
  }

  ghost predicate Steps(s: State, c: nat, a: Choice, t: State)
  {
    && Shape(s) && c < NCPU && Code(s, c, a).Some?
    && Enabled(s, Code(s, c, a).value.op) && t == Next(s, c, Code(s, c, a).value)
  }

  /** Boot: initproc is ready to run, every CPU is in its scheduler. */
  ghost predicate Boot(s: State)
  {
    && Shape(s) && s.lock == map[] && s.sl == map[] && s.reaped == [] && s.nextpid == 2
    && (forall c :: 0 <= c < NCPU ==> s.on[c] == None && s.proc[c] == None && s.noff[c] == 0 && s.spc[c] == Idle)
    && (forall i :: 0 <= i < NPROC ==> s.has[i] == {})
    && s.procs[INIT] == Proc(RUNNABLE, None, None, false, 1) && s.pcs[INIT] == Off(ForkRet)
    && (forall i :: 0 < i < NPROC ==> s.procs[i] == BLANK && s.pcs[i] == Off(Dead))
  }
}
