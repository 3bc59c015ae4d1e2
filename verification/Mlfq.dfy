/** The multi-level feedback queue of kernel/proc.c and kernel/trap.c: ageing, selection and
    time-slice demotion, and what they guarantee to a process that waits. A pass of the scheduler
    over the table is one step; between passes processes may do anything that changes their
    state, queue or time stamp.
 */
module Mlfq {
  import opened Prelude

  const NPROC: nat := 64
  const NPQ: nat := 5
  const MAXAGE: nat := 15

  /** The fields the scheduler reads and writes; stamp is last_qtime. */
  datatype Proc = Proc(st: St, queue: nat, stamp: nat, runs: nat, spent: seq<nat>)

  datatype State = State(procs: seq<Proc>, ticks: nat)

  ghost predicate Ok(s: State)
  {
    && |s.procs| == NPROC
    && forall i :: 0 <= i < NPROC ==> s.procs[i].queue < NPQ && s.procs[i].stamp <= s.ticks && |s.procs[i].spent| == NPQ
  }

  // ---------------------------------------------------------------- one pass

  /** The wait the ageing loop looks for. */
  predicate TooLong(p: Proc, ticks: nat)
  {
    p.st == RUNNABLE && p.queue != 0 && ticks - p.stamp > MAXAGE
  }

  function Aged(p: Proc, ticks: nat): Proc
  {
    if TooLong(p, ticks) then p.(queue := p.queue - 1, stamp := ticks) else p
  }

  function AllAged(procs: seq<Proc>, ticks: nat): (r: seq<Proc>)
    ensures |r| == |procs| && forall i :: 0 <= i < |procs| ==> r[i] == Aged(procs[i], ticks)
  {
    if procs == [] then [] else AllAged(procs[..|procs| - 1], ticks) + [Aged(procs[|procs| - 1], ticks)]
  }

  /** a goes ahead of b. */
  predicate Ahead(a: Proc, b: Proc)
  {
    a.queue < b.queue || (a.queue == b.queue && a.stamp < b.stamp)
  }

  /** The first of the runnable processes that no other goes ahead of. */
  ghost predicate Selected(procs: seq<Proc>, sel: Option<nat>)
  {
    match sel
    case None => forall i :: 0 <= i < |procs| ==> procs[i].st != RUNNABLE
    case Some(k) =>
      && k < |procs| && procs[k].st == RUNNABLE
      && (forall i :: 0 <= i < |procs| && procs[i].st == RUNNABLE ==> !Ahead(procs[i], procs[k]))
      && (forall i :: 0 <= i < k && procs[i].st == RUNNABLE ==> Ahead(procs[k], procs[i]))
  }

  /** A process is switched to. */
  function Started(p: Proc, ticks: nat): Proc
    requires p.queue < |p.spent|
  {
    var spent := p.spent[p.queue := p.spent[p.queue] + Power(p.queue)];
    p.(stamp := ticks, spent := spent, runs := p.runs + 1, st := RUNNING)
  }

  function Power(q: nat): nat
  {
    if q == 0 then 1 else 2 * Power(q - 1)
  }

  /** The time slices of the five queues. */
  lemma {:induction false} Slices(q: nat)
    requires q < NPQ
    ensures Power(q) == [1, 2, 4, 8, 16][q]
  {
    assert Power(0) == 1 && Power(1) == 2 && Power(2) == 4 && Power(3) == 8 && Power(4) == 16;
  }

  class Scheduler {
    var procs: seq<Proc>
    var ticks: nat

    ghost function Now(): State
      reads this
    {
      State(procs, ticks)
    }

    constructor (procs: seq<Proc>, ticks: nat)
      requires Ok(State(procs, ticks))
      ensures Now() == State(procs, ticks)
    {
      this.procs, this.ticks := procs, ticks;
    }

    /** The ageing loop. */
    method Age()
      requires Ok(Now())
      modifies this`procs
      ensures Ok(Now()) && procs == AllAged(old(procs), ticks)
      ensures forall i :: 0 <= i < NPROC ==>
                var p := old(procs)[i];
                procs[i] == if p.st == RUNNABLE && p.queue > 0 && ticks - p.stamp > 15
                            then p.(queue := p.queue - 1, stamp := ticks) else p
    {
      var i := 0;
      while i < NPROC
        invariant 0 <= i <= NPROC && |procs| == NPROC
        invariant forall j :: 0 <= j < i ==> procs[j] == Aged(old(procs)[j], ticks)
        invariant forall j :: i <= j < NPROC ==> procs[j] == old(procs)[j]
      {
        if procs[i].st == RUNNABLE && procs[i].queue != 0 && ticks - procs[i].stamp > MAXAGE {
          procs := procs[i := procs[i].(queue := procs[i].queue - 1)];
          procs := procs[i := procs[i].(stamp := ticks)];
        }
        i := i + 1;
      }
    }

    /** The selection loop. */
    method Select() returns (sel: Option<nat>)
      requires |procs| == NPROC
      ensures Selected(procs, sel)
    {
      sel := None;
      var i := 0;
      while i < NPROC
        invariant 0 <= i <= NPROC && Selected(procs[..i], sel)
      {
        if procs[i].st == RUNNABLE {
          if sel == None || procs[i].queue < procs[sel.value].queue
             || (procs[i].queue == procs[sel.value].queue && procs[i].stamp < procs[sel.value].stamp) {
            sel := Some(i);
          }
        }
        i := i + 1;
      }
      assert procs[..NPROC] == procs;
    }

    /** One round of the scheduler, up to the swtch. */
    method Pass() returns (sel: Option<nat>)
      requires Ok(Now())
      modifies this`procs
      ensures Ok(Now()) && Passes(old(Now()), sel, Now())
    {
      Age();
      sel := Select();
      if sel.Some? {
        var k := sel.value;
        var p := procs[k];
        procs := procs[k := Started(p, ticks)];
      }
    }

    /** A timer interrupt while process i runs, in usertrap or kerneltrap: once its time slice of 1, 2, 4, 8 or
        16 ticks is over, the process goes to the end of the next lower queue, or of the lowest. */
    method TimerInterrupt(i: nat)
      requires Ok(Now()) && i < NPROC && procs[i].st == RUNNING
      modifies this`procs
      ensures Ok(Now()) && Now() == Interrupted(old(Now()), i)
      ensures var p := old(procs)[i];
              if ticks - p.stamp < [1, 2, 4, 8, 16][p.queue] then procs == old(procs)
              else procs == old(procs)[i := p.(queue := [1, 2, 3, 4, 4][p.queue], stamp := ticks, st := RUNNABLE)]
    {
      Slices(procs[i].queue);
      if ticks - procs[i].stamp >= Power(procs[i].queue) {
        if procs[i].queue < 4 {
          procs := procs[i := procs[i].(queue := procs[i].queue + 1)];
        }
        procs := procs[i := procs[i].(stamp := ticks)];
        procs := procs[i := procs[i].(st := RUNNABLE)];
      }
    }
  }

  /** The effect of one pass. */
  ghost predicate Passes(s: State, sel: Option<nat>, t: State)
    requires Ok(s)
  {
    var aged := AllAged(s.procs, s.ticks);
    && Selected(aged, sel) && t.ticks == s.ticks
    && t.procs == match sel { case None => aged case Some(k) => aged[k := Started(aged[k], s.ticks)] }
  }

  function Interrupted(s: State, i: nat): State
    requires i < |s.procs|
  {
    var p := s.procs[i];
    if s.ticks >= p.stamp && s.ticks - p.stamp >= Power(p.queue)
    then
      var queue := if p.queue < 4 then p.queue + 1 else p.queue;
      s.(procs := s.procs[i := p.(queue := queue, stamp := s.ticks, st := RUNNABLE)])
    else s
  }

  // ---------------------------------------------------------------- runs

  datatype Step =
    | Pass(sel: Option<nat>)            // the scheduler goes over the table
    | Tick
    | Timer(i: nat)                     // a timer interrupt while i runs
    | Yield(i: nat)                     // setpriority gives the CPU up
    | Block(i: nat) | Wake(i: nat)      // sleep and wakeup
    | Alloc(i: nat)                     // allocproc
    | First(i: nat)                     // the end of userinit
    | Ready(parent: nat, i: nat)        // the end of fork
    | Exit(i: nat) | Free(i: nat)

  ghost predicate Steps(s: State, e: Step, t: State)
    requires Ok(s)
  {
    match e
    case Pass(sel) => Passes(s, sel, t)
    case Tick => t == s.(ticks := s.ticks + 1)
    case Timer(i) => i < NPROC && s.procs[i].st == RUNNING && t == Interrupted(s, i)
    case Yield(i) => i < NPROC && s.procs[i].st == RUNNING && t == Moved(s, i, s.procs[i].(st := RUNNABLE))
    case Block(i) => i < NPROC && s.procs[i].st == RUNNING && t == Moved(s, i, s.procs[i].(st := SLEEPING))
    case Wake(i) => i < NPROC && s.procs[i].st == SLEEPING && t == Moved(s, i, s.procs[i].(st := RUNNABLE))
    case Alloc(i) => i < NPROC && s.procs[i].st == UNUSED
                     && t == Moved(s, i, Proc(USED, 0, s.ticks, 0, [0, 0, 0, 0, 0]))
    case First(i) => && i < NPROC && s.procs[i].st == USED && t == Moved(s, i, s.procs[i].(st := RUNNABLE))
                     && forall j :: 0 <= j < NPROC && j != i ==> s.procs[j].st == UNUSED
    case Ready(q, i) => && q < NPROC && s.procs[q].st == RUNNING && i < NPROC && s.procs[i].st == USED
                        && t == Moved(s, i, s.procs[i].(queue := s.procs[q].queue, st := RUNNABLE))
    case Exit(i) => i < NPROC && s.procs[i].st == RUNNING && t == Moved(s, i, s.procs[i].(st := ZOMBIE))
    case Free(i) => i < NPROC && s.procs[i].st in {USED, ZOMBIE} && t == Moved(s, i, s.procs[i].(st := UNUSED))
  }

  function Moved(s: State, i: nat, p: Proc): State
    requires i < |s.procs|
  {
    s.(procs := s.procs[i := p])
  }

  /** Queues stay below NPQ, and stamps never run ahead of the clock or go back. */
  lemma StepOk(s: State, e: Step, t: State)
    requires Ok(s) && Steps(s, e, t)
    ensures Ok(t) && s.ticks <= t.ticks && forall i :: 0 <= i < NPROC ==> s.procs[i].stamp <= t.procs[i].stamp
  {
    hide Power;
  }

  datatype Event = Event(e: Step, t: State)

  ghost predicate IsRun(s: State, run: seq<Event>)
    decreases run
  {
    run == [] || (Ok(s) && Steps(s, run[0].e, run[0].t) && IsRun(run[0].t, run[1..]))
  }

  function Final(s: State, run: seq<Event>): State
    decreases run
  {
    if run == [] then s else Final(run[0].t, run[1..])
  }

  /** In every run queues stay in 0..NPQ-1. */
  lemma {:induction false} RunOk(s: State, run: seq<Event>)
    requires Ok(s) && IsRun(s, run)
    ensures Ok(Final(s, run))
    decreases run
  {
    hide Steps;
    if run != [] {
      StepOk(s, run[0].e, run[0].t);
      RunOk(run[0].t, run[1..]);
    }
  }

  /** How often the scheduler picked j, and how often it made a pass at all. */
  function Picks(run: seq<Event>, j: nat): nat
  {
    if run == [] then 0 else (if run[0].e == Pass(Some(j)) then 1 else 0) + Picks(run[1..], j)
  }

  function PassCount(run: seq<Event>): nat
  {
    if run == [] then 0 else (if run[0].e.Pass? then 1 else 0) + PassCount(run[1..])
  }

  // ---------------------------------------------------------------- waiting in queue 0

  /** w waits in queue 0 since a tick that is over. */
  ghost predicate Waiting(s: State, w: nat, since: nat)
    requires Ok(s)
  {
    w < NPROC && s.procs[w].st == RUNNABLE && s.procs[w].queue == 0 && s.procs[w].stamp == since < s.ticks
  }

  /** Nothing but being picked ends the wait. */
  lemma StillWaiting(s: State, e: Step, t: State, w: nat, since: nat)
    requires Ok(s) && Steps(s, e, t) && Waiting(s, w, since) && e != Pass(Some(w))
    ensures Ok(t) && Waiting(t, w, since)
  {
    hide Power;
    StepOk(s, e, t);
  }

  /** Whoever is picked instead had an older stamp, or an equal one, and gets a newer one. */
  lemma PickedAhead(s: State, j: nat, t: State, w: nat, since: nat)
    requires Ok(s) && Passes(s, Some(j), t) && Waiting(s, w, since) && j != w
    ensures j < NPROC && s.procs[j].stamp <= since < t.procs[j].stamp
  {
    hide Power;
    var aged := AllAged(s.procs, s.ticks);
    assert aged[w] == s.procs[w] && !Ahead(aged[w], aged[j]);
  }

  /** A slot stamped after the wait began is not picked ahead of it. */
  lemma {:induction false} NeverAgain(s: State, run: seq<Event>, w: nat, since: nat, j: nat)
    requires Ok(s) && IsRun(s, run) && Waiting(s, w, since) && Picks(run, w) == 0
    requires j < NPROC && j != w && s.procs[j].stamp > since
    ensures Picks(run, j) == 0
    decreases run
  {
    hide Steps, Passes, Waiting;
    if run != [] {
      var e, t := run[0].e, run[0].t;
      StepOk(s, e, t);
      StillWaiting(s, e, t, w, since);
      if e == Pass(Some(j)) {
        PassOf(s, e, t);
        PickedAhead(s, j, t, w, since);
      }
      NeverAgain(t, run[1..], w, since, j);
    }
  }

  lemma PassOf(s: State, e: Step, t: State)
    requires Ok(s) && e.Pass? && Steps(s, e, t)
    ensures Passes(s, e.sel, t)
  {
  }

  /** Each other slot is picked ahead of a process waiting in queue 0 at most once. */
  lemma {:induction false} AheadAtMostOnce(s: State, run: seq<Event>, w: nat, since: nat, j: nat)
    requires Ok(s) && IsRun(s, run) && Waiting(s, w, since) && Picks(run, w) == 0 && j < NPROC && j != w
    ensures Picks(run, j) <= 1
    decreases run
  {
    hide Steps, Passes, Waiting;
    if run != [] {
      var e, t := run[0].e, run[0].t;
      StepOk(s, e, t);
      StillWaiting(s, e, t, w, since);
      if e == Pass(Some(j)) {
        PassOf(s, e, t);
        PickedAhead(s, j, t, w, since);
        NeverAgain(t, run[1..], w, since, j);
      } else {
        AheadAtMostOnce(t, run[1..], w, since, j);
      }
    }
  }

  /** The slots below n, other than w, that may still be picked ahead of w. */
  function Rivals(s: State, w: nat, since: int, n: nat): nat
    requires n <= |s.procs|
  {
    if n == 0 then 0 else Rivals(s, w, since, n - 1) + (if n - 1 != w && s.procs[n - 1].stamp <= since then 1 else 0)
  }

  lemma {:induction false} RivalsBound(s: State, w: nat, since: int, n: nat)
    requires n <= |s.procs|
    ensures Rivals(s, w, since, n) <= n && (w < n ==> Rivals(s, w, since, n) <= n - 1)
  {
    if n > 0 {
      RivalsBound(s, w, since, n - 1);
    }
  }

  /** Stamps only grow, so rivals only get fewer; one that is picked is one no more. */
  lemma {:induction false} RivalsDrop(s: State, t: State, w: nat, since: int, n: nat, j: Option<nat>)
    requires n <= |s.procs| == |t.procs| && forall i :: 0 <= i < n ==> s.procs[i].stamp <= t.procs[i].stamp
    requires j.Some? ==> j.value < |s.procs| && j.value != w && s.procs[j.value].stamp <= since < t.procs[j.value].stamp
    ensures Rivals(t, w, since, n) + (if j.Some? && j.value < n then 1 else 0) <= Rivals(s, w, since, n)
  {
    if n > 0 {
      RivalsDrop(s, t, w, since, n - 1, j);
    }
  }

  /** Bounded bypass: a process waiting in queue 0, from the tick after its stamp on, sees at most
      one pass for every other slot before it is picked, and every pass picks somebody. */
  lemma {:induction false} BoundedBypass(s: State, run: seq<Event>, w: nat, since: nat)
    requires Ok(s) && IsRun(s, run) && Waiting(s, w, since) && Picks(run, w) == 0
    ensures PassCount(run) <= Rivals(s, w, since, NPROC) <= NPROC - 1
    decreases run
  {
    hide Steps, Passes, Waiting;
    WaitsIn(s, w, since);
    RivalsBound(s, w, since, NPROC);
    if run != [] {
      var e, t := run[0].e, run[0].t;
      StepOk(s, e, t);
      StillWaiting(s, e, t, w, since);
      var j: Option<nat> := None;
      if e.Pass? {
        PassOf(s, e, t);
        SomebodyPicked(s, e.sel, t, w, since);
        j := e.sel;
        PickedAhead(s, j.value, t, w, since);
      }
      RivalsDrop(s, t, w, since, NPROC, j);
      BoundedBypass(t, run[1..], w, since);
    }
  }

  lemma WaitsIn(s: State, w: nat, since: nat)
    requires Ok(s) && Waiting(s, w, since)
    ensures w < NPROC
  {
  }

  lemma SomebodyPicked(s: State, sel: Option<nat>, t: State, w: nat, since: nat)
    requires Ok(s) && Passes(s, sel, t) && Waiting(s, w, since)
    ensures sel.Some? && sel.value < NPROC
  {
    var aged := AllAged(s.procs, s.ticks);
    assert aged[w].st == RUNNABLE;
  }

  // ---------------------------------------------------------------- getting there

  /** The passes that found w waiting too long. */
  function LongPasses(s: State, run: seq<Event>, w: nat): nat
    requires w < NPROC
    decreases run
  {
    if run == [] then 0
    else (if run[0].e.Pass? && w < |s.procs| && TooLong(s.procs[w], s.ticks) then 1
          else 0) + LongPasses(run[0].t, run[1..], w)
  }

  lemma WaitStep(s: State, e: Step, t: State, w: nat)
    requires Ok(s) && Steps(s, e, t) && w < NPROC && s.procs[w].st == RUNNABLE && e != Pass(Some(w))
    ensures Ok(t) && t.procs[w].st == RUNNABLE
    ensures t.procs[w].queue == if e.Pass? && TooLong(s.procs[w], s.ticks) then s.procs[w].queue - 1
            else s.procs[w].queue
  {
    hide Power;
    StepOk(s, e, t);
  }

  /** A process that waits unpicked rises one queue with every pass that finds it has waited too
      long: as many of those as its queue number bring it to queue 0. */
  lemma {:induction false} AgeingRises(s: State, run: seq<Event>, w: nat)
    requires Ok(s) && IsRun(s, run) && w < NPROC && s.procs[w].st == RUNNABLE && Picks(run, w) == 0
    ensures var t := Final(s, run);
            Ok(t) && t.procs[w].st == RUNNABLE && t.procs[w].queue + LongPasses(s, run, w) == s.procs[w].queue
    decreases run
  {
    hide Steps;
    if run != [] {
      WaitStep(s, run[0].e, run[0].t, w);
      AgeingRises(run[0].t, run[1..], w);
    }
  }

  // ---------------------------------------------------------------- the life of a process

  /** Slot w is not given to another process in the run. */
  predicate Kept(run: seq<Event>, w: nat)
  {
    forall i :: 0 <= i < |run| ==> run[i].e != Alloc(w) && !(run[i].e.Ready? && run[i].e.i == w)
  }

  /** The timer interrupts that ended a time slice of w above the lowest queue. */
  function Expired(s: State, run: seq<Event>, w: nat): nat
    requires w < NPROC
    decreases run
  {
    if run == [] then 0
    else (if && run[0].e == Timer(w) && w < |s.procs| && s.procs[w].queue < 4
             && s.ticks - s.procs[w].stamp >= [1, 2, 4, 8][s.procs[w].queue] then 1
          else 0) + Expired(run[0].t, run[1..], w)
  }

  lemma QueueStep(s: State, e: Step, t: State, w: nat)
    requires Ok(s) && Steps(s, e, t) && w < NPROC && e != Alloc(w) && !(e.Ready? && e.i == w)
    ensures Ok(t)
    ensures t.procs[w].queue + (if e.Pass? && TooLong(s.procs[w], s.ticks) then 1 else 0) ==
              s.procs[w].queue + (if && e == Timer(w) && s.procs[w].queue < 4
                                     && s.ticks - s.procs[w].stamp >= [1, 2, 4, 8][s.procs[w].queue] then 1 else 0)
  {
    StepOk(s, e, t);
    Slices(s.procs[w].queue);
    hide Power;
  }

  /** The queue of a process falls by one with every time slice it uses up, unless it is in the lowest, rises
      by one with every pass that finds it waiting too long, and never changes otherwise. */
  lemma {:induction false} QueueLaw(s: State, run: seq<Event>, w: nat)
    requires Ok(s) && IsRun(s, run) && w < NPROC && Kept(run, w)
    ensures Ok(Final(s, run))
    ensures Final(s, run).procs[w].queue + LongPasses(s, run, w) == s.procs[w].queue + Expired(s, run, w)
    decreases run
  {
    hide Steps;
    if run != [] {
      QueueStep(s, run[0].e, run[0].t, w);
      QueueLaw(run[0].t, run[1..], w);
    }
  }

  /** The times w was picked in queue q. */
  function PicksIn(s: State, run: seq<Event>, w: nat, q: nat): nat
    decreases run
  {
    if run == [] then 0
    else (if run[0].e == Pass(Some(w)) && w < |s.procs| && Aged(s.procs[w], s.ticks).queue == q then 1 else 0)
         + PicksIn(run[0].t, run[1..], w, q)
  }

  lemma CountStep(s: State, e: Step, t: State, w: nat, q: nat)
    requires Ok(s) && Steps(s, e, t) && w < NPROC && q < NPQ && e != Alloc(w)
    ensures Ok(t) && t.procs[w].runs == s.procs[w].runs + if e == Pass(Some(w)) then 1 else 0
    ensures t.procs[w].spent[q] == s.procs[w].spent[q] +
              if e == Pass(Some(w)) && Aged(s.procs[w], s.ticks).queue == q then [1, 2, 4, 8, 16][q] else 0
  {
    StepOk(s, e, t);
    Slices(q);
    hide Power;
  }

  /** ntime counts the times the process was picked, and qticks[q] a whole time slice for each time it was picked
      in queue q. */
  lemma {:induction false} CountsKept(s: State, run: seq<Event>, w: nat, q: nat)
    requires Ok(s) && IsRun(s, run) && w < NPROC && q < NPQ && Kept(run, w)
    ensures Ok(Final(s, run)) && Final(s, run).procs[w].runs == s.procs[w].runs + Picks(run, w)
    ensures Final(s, run).procs[w].spent[q] == s.procs[w].spent[q] + [1, 2, 4, 8, 16][q] * PicksIn(s, run, w, q)
    decreases run
  {
    hide Steps, Aged;
    if run != [] {
      CountStep(s, run[0].e, run[0].t, w, q);
      CountsKept(run[0].t, run[1..], w, q);
      Distribute([1, 2, 4, 8, 16][q], PicksIn(run[0].t, run[1..], w, q));
    }
  }

  // ---------------------------------------------------------------- from any queue to the CPU

  /** The scheduler makes a pass at least every g ticks; d ticks have gone by since the last. */
  predicate Paced(run: seq<Event>, d: nat, g: nat)
  {
    run == [] || match run[0].e
                 case Tick => d < g && Paced(run[1..], d + 1, g)
                 case Pass(_) => Paced(run[1..], 0, g)
                 case _ => Paced(run[1..], d, g)
  }

  function TickCount(run: seq<Event>): nat
  {
    if run == [] then 0 else (if run[0].e.Tick? then 1 else 0) + TickCount(run[1..])
  }

  lemma {:induction false} TicksPerPass(run: seq<Event>, d: nat, g: nat)
    requires d <= g && Paced(run, d, g)
    ensures TickCount(run) <= g - d + g * PassCount(run)
  {
    if run != [] {
      match run[0].e
      case Tick => TicksPerPass(run[1..], d + 1, g);
      case Pass(_) => TicksPerPass(run[1..], 0, g); Distribute(g, PassCount(run[1..]));
      case _ => TicksPerPass(run[1..], d, g);
    }
  }

  lemma Distribute(g: nat, n: nat)
    ensures g * (n + 1) == g * n + g
  {
  }

  lemma Grows(g: nat, n: nat, m: nat)
    requires n <= m
    ensures g * n <= g * m
  {
  }

  /** The ticks a process just put in queue q waits at most. */
  function Longest(q: nat, g: nat): nat
  {
    if q == 0 then g * NPROC else MAXAGE + g + Longest(q - 1, g)
  }

  /** The ticks that one waiting in queue q for a ticks waits at most from now on. */
  function Remaining(q: nat, a: nat, d: nat, g: nat): int
  {
    if q == 0 then Longest(0, g)
    else Longest(q - 1, g) + if a <= MAXAGE then MAXAGE + g - a else g - d
  }

  lemma {:induction false} LongestIs(q: nat, g: nat)
    ensures Longest(q, g) == q * (MAXAGE + g) + g * NPROC
  {
    if q > 0 {
      LongestIs(q - 1, g);
      assert q * (MAXAGE + g) == (q - 1) * (MAXAGE + g) + (MAXAGE + g);
    }
  }

  lemma StampStep(s: State, e: Step, t: State, w: nat)
    requires Ok(s) && Steps(s, e, t) && w < NPROC && s.procs[w].st == RUNNABLE && e != Pass(Some(w))
    ensures Ok(t) && t.ticks == s.ticks + if e.Tick? then 1 else 0
    ensures t.procs[w].stamp == if e.Pass? && TooLong(s.procs[w], s.ticks) then s.ticks else s.procs[w].stamp
  {
    hide Power;
    StepOk(s, e, t);
  }

  /** In queue 0, once the tick is over, passes bound the wait. */
  lemma TopWait(s: State, run: seq<Event>, w: nat, d: nat, g: nat)
    requires Ok(s) && w < NPROC && IsRun(s, run) && Waiting(s, w, s.procs[w].stamp) && Picks(run, w) == 0 && d <= g
    requires Paced(run, d, g)
    ensures TickCount(run) <= g * NPROC - d
  {
    hide Paced, IsRun, Waiting, Rivals;
    BoundedBypass(s, run, w, s.procs[w].stamp);
    TicksPerPass(run, d, g);
    Grows(g, PassCount(run), NPROC - 1);
  }

  lemma {:induction false} WaitRemaining(s: State, run: seq<Event>, w: nat, d: nat, g: nat)
    requires Ok(s) && IsRun(s, run) && w < NPROC && s.procs[w].st == RUNNABLE && Picks(run, w) == 0
    requires d <= g && Paced(run, d, g)
    ensures TickCount(run) <= Remaining(s.procs[w].queue, s.ticks - s.procs[w].stamp, d, g)
    decreases run
  {
    hide Steps;
    var p := s.procs[w];
    if p.queue == 0 && p.stamp < s.ticks {
      TopWait(s, run, w, d, g);
    } else if run != [] {
      var e, t := run[0].e, run[0].t;
      WaitStep(s, e, t, w);
      StampStep(s, e, t, w);
      var d' := match e { case Tick => d + 1 case Pass(_) => 0 case _ => d };
      if p.queue == 0 && e.Tick? {
        TopWait(t, run[1..], w, d', g);
      } else {
        WaitRemaining(t, run[1..], w, d', g);
      }
    }
  }

  /** Bounded waiting: if the scheduler makes a pass at least every g ticks, a runnable process in
      queue q is picked within q * (MAXAGE + g) + g * NPROC ticks, whatever the others do. */
  lemma BoundedWait(s: State, run: seq<Event>, w: nat, g: nat)
    requires Ok(s) && IsRun(s, run) && w < NPROC && s.procs[w].st == RUNNABLE && Picks(run, w) == 0 && Paced(run, 0, g)
    ensures TickCount(run) <= s.procs[w].queue * (MAXAGE + g) + g * NPROC
  {
    hide Paced, IsRun;
    WaitRemaining(s, run, w, 0, g);
    LongestIs(s.procs[w].queue, g);
  }
}
