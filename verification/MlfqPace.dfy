/** Timer interrupts (kernel/trap.c) keep the scheduler of kernel/proc.c going: however greedy the
    processes are, a pass is made at least every 2^(NPQ - 1) ticks, which bounds every wait.
 */
module MlfqPace {
  import opened Prelude
  import opened Mlfq

  /** The longest time slice. */
  const SLICE: nat := 16

  predicate Running(s: State, i: nat)
  {
    i < |s.procs| && s.procs[i].st == RUNNING
  }

  /** The processes that run. */
  function OnCpu(s: State): set<nat>
  {
    set i: nat | i < |s.procs| && Running(s, i)
  }

  /** The clock and the CPUs do their part. `due` holds the processes that ran at the last tick and have
      not been interrupted since; d ticks have gone by since the last pass.
      - Before the next tick every one of them is interrupted or leaves the CPU.
      - No tick goes by with all CPUs idle and not one pass made. */
  ghost predicate Clocked(s: State, run: seq<Event>, due: set<nat>, d: nat)
    decreases run
  {
    run == [] ||
    var e, t := run[0].e, run[0].t;
    match e
    case Tick =>
      && due == {} && (d == 0 || exists i: nat :: Running(s, i))
      && Clocked(t, run[1..], OnCpu(t), d + 1)
    case Pass(_) => Clocked(t, run[1..], due, 0)
    case Timer(i) => Clocked(t, run[1..], due - {i}, d)
    case _ => Clocked(t, run[1..], due * OnCpu(t), d)
  }

  /** A process that runs has done so since the last pass at least, and unless its interrupt is due its
      time slice is not over. */
  ghost predicate OnTime(s: State, due: set<nat>, d: nat)
    requires Ok(s)
  {
    forall i: nat :: i < NPROC && Running(s, i) ==>
      d <= s.ticks - s.procs[i].stamp && (i !in due ==> s.ticks - s.procs[i].stamp < SLICE)
  }

  lemma TimerOnTime(s: State, i: nat, t: State, due: set<nat>, d: nat)
    requires Ok(s) && Steps(s, Timer(i), t) && OnTime(s, due, d)
    ensures Ok(t) && OnTime(t, due - {i}, d)
  {
    StepOk(s, Timer(i), t);
    Slices(s.procs[i].queue);
    hide Power;
  }

  lemma PassOnTime(s: State, sel: Option<nat>, t: State, due: set<nat>, d: nat)
    requires Ok(s) && Passes(s, sel, t) && OnTime(s, due, d)
    ensures Ok(t) && OnTime(t, due, 0)
  {
    hide Power;
    StepOk(s, Pass(sel), t);
    var aged := AllAged(s.procs, s.ticks);
    forall i: nat | i < NPROC && Running(t, i)
      ensures i !in due ==> t.ticks - t.procs[i].stamp < SLICE
    {
      assert aged[i] == Aged(s.procs[i], s.ticks);
      assert sel != Some(i) ==> Running(s, i);
    }
  }

  lemma OtherOnTime(s: State, e: Step, t: State, due: set<nat>, due': set<nat>, d: nat)
    requires Ok(s) && Steps(s, e, t) && OnTime(s, due, d) && !e.Tick? && !e.Pass? && !e.Timer?
    requires due' == due * OnCpu(t)
    ensures Ok(t) && OnTime(t, due', d)
  {
    hide Power;
    StepOk(s, e, t);
  }

  lemma TickOnTime(s: State, t: State, due: set<nat>, due': set<nat>, d: nat)
    requires Ok(s) && Steps(s, Tick, t) && OnTime(s, due, d)
    requires due' == OnCpu(t)
    ensures Ok(t) && OnTime(t, due', d + 1)
  {
    StepOk(s, Tick, t);
  }

  /** A tick comes less than SLICE ticks after the last pass. */
  lemma TickInTime(s: State, d: nat)
    requires Ok(s) && OnTime(s, {}, d) && (d == 0 || exists i: nat :: Running(s, i))
    ensures d < SLICE
  {
    if d > 0 {
      var i: nat :| Running(s, i);
      assert i < NPROC;
    }
  }

  /** The clock keeps the pace that bounded waiting asks for. */
  lemma {:induction false} ClockKeepsPace(s: State, run: seq<Event>, due: set<nat>, d: nat)
    requires Ok(s) && IsRun(s, run) && OnTime(s, due, d) && Clocked(s, run, due, d)
    ensures Paced(run, d, SLICE)
    decreases run
  {
    hide Steps, Ok, OnTime, Running, OnCpu;
    if run != [] {
      var e, t := run[0].e, run[0].t;
      match e
      case Tick =>
        var due' := OnCpu(t);
        TickInTime(s, d);
        TickOnTime(s, t, due, due', d);
        ClockKeepsPace(t, run[1..], due', d + 1);
      case Pass(sel) =>
        PassOf(s, e, t);
        PassOnTime(s, sel, t, due, d);
        ClockKeepsPace(t, run[1..], due, 0);
      case Timer(i) =>
        TimerOnTime(s, i, t, due, d);
        ClockKeepsPace(t, run[1..], due - {i}, d);
      case _ =>
        var due' := due * OnCpu(t);
        OtherOnTime(s, e, t, due, due', d);
        ClockKeepsPace(t, run[1..], due', d);
    }
  }

  lemma {:induction false} PacedLater(run: seq<Event>, d: nat, g: nat, k: nat)
    requires Paced(run, d, g) && k <= |run|
    ensures Paced(run[k..], 0, g)
  {
    if k > 0 {
      var d' := match run[0].e { case Tick => d + 1 case Pass(_) => 0 case _ => d };
      PacedLater(run[1..], d', g, k - 1);
      assert run[1..][k - 1..] == run[k..];
    } else {
      assert run[0..] == run;
      PacedSooner(run, d, 0, g);
    }
  }

  lemma {:induction false} PacedSooner(run: seq<Event>, d: nat, d0: nat, g: nat)
    requires Paced(run, d, g) && d0 <= d
    ensures Paced(run, d0, g)
  {
    if run != [] {
      match run[0].e
      case Tick => PacedSooner(run[1..], d + 1, d0 + 1, g);
      case Pass(_) =>
      case _ => PacedSooner(run[1..], d, d0, g);
    }
  }

  lemma {:induction false} RunLater(s: State, run: seq<Event>, k: nat)
    requires Ok(s) && IsRun(s, run) && k <= |run|
    ensures Ok(Final(s, run[..k])) && IsRun(Final(s, run[..k]), run[k..])
    decreases run
  {
    hide Steps;
    if k == 0 {
      assert run[..0] == [] && run[0..] == run;
    } else {
      StepOk(s, run[0].e, run[0].t);
      RunLater(run[0].t, run[1..], k - 1);
      assert run[..k][1..] == run[1..][..k - 1] && run[1..][k - 1..] == run[k..];
    }
  }

  /** No starvation: from boot, with the clock running, a process that is runnable in queue q at any point
      of the run is picked within q * (MAXAGE + SLICE) + SLICE * NPROC ticks, whatever the others do. */
  lemma NoStarvation(s0: State, run: seq<Event>, k: nat, w: nat)
    requires Ok(s0) && OnCpu(s0) == {} && IsRun(s0, run) && Clocked(s0, run, {}, 0) && k <= |run| && w < NPROC
    requires var s := Final(s0, run[..k]); w < |s.procs| && s.procs[w].st == RUNNABLE
    requires Picks(run[k..], w) == 0
    ensures TickCount(run[k..]) <= Final(s0, run[..k]).procs[w].queue * (MAXAGE + SLICE) + SLICE * NPROC
    ensures TickCount(run[k..]) <= (NPQ - 1) * (MAXAGE + SLICE) + SLICE * NPROC
  {
    hide IsRun, Clocked, Paced, Final, TickCount, Picks;
    assert OnTime(s0, {}, 0) by {
      assert forall i: nat :: Running(s0, i) ==> i in OnCpu(s0);
    }
    ClockKeepsPace(s0, run, {}, 0);
    PacedLater(run, 0, SLICE, k);
    RunLater(s0, run, k);
    BoundedWait(Final(s0, run[..k]), run[k..], w, SLICE);
    Grows(MAXAGE + SLICE, Final(s0, run[..k]).procs[w].queue, NPQ - 1);
  }
}
