/** When a process in queue 0 can be passed over without bound (kernel/proc.c). From the tick after
    its time stamp on it cannot (Mlfq.BoundedBypass). Within that tick a lower slot of the table
    wins every tie, so everything depends on whether some lower slot can get into queue 0.
 */
module MlfqBypass {
  import opened Prelude
  import opened Mlfq

  /** w became runnable in queue 0 in the current tick. */
  ghost predicate Fresh(s: State, w: nat)
  {
    && Ok(s) && w < NPROC && s.procs[w].st == RUNNABLE && s.procs[w].queue == 0 && s.procs[w].stamp == s.ticks
  }

  predicate Live(p: Proc)
  {
    p.st == RUNNABLE || p.st == RUNNING || p.st == SLEEPING
  }

  /** In queue 0, or about to be aged into it. */
  predicate Near(p: Proc, ticks: nat)
  {
    Live(p) && (p.queue == 0 || (p.queue == 1 && ticks - p.stamp > MAXAGE))
  }

  /** The slot is empty or can be emptied without the process being picked again. */
  predicate Reusable(p: Proc)
  {
    p.st != RUNNABLE && p.st != SLEEPING
  }

  /** In queue 0, and running or ahead of everybody stamped now. */
  predicate Parent(p: Proc, ticks: nat)
  {
    Live(p) && p.queue == 0 && (p.st == RUNNING || p.stamp < ticks)
  }

  ghost predicate NearBelow(s: State, w: nat)
    requires Ok(s) && w < NPROC
  {
    exists j :: 0 <= j < w && Near(s.procs[j], s.ticks)
  }

  ghost predicate SlotBelow(s: State, w: nat)
    requires Ok(s) && w < NPROC
  {
    exists j :: 0 <= j < w && Reusable(s.procs[j])
  }

  ghost predicate ParentAbove(s: State, w: nat)
    requires Ok(s) && w < NPROC
  {
    exists p :: w < p < NPROC && Parent(s.procs[p], s.ticks)
  }

  /** A fork that has taken so long that the child is aged as soon as it is ready. */
  ghost predicate OldChild(s: State, j: nat, p: nat)
    requires Ok(s)
  {
    && j < NPROC && p < NPROC && s.procs[j].st == USED && s.ticks - s.procs[j].stamp > MAXAGE
    && s.procs[p].st == RUNNING && s.procs[p].queue == 1
  }

  ghost predicate OldChildBelow(s: State, w: nat)
    requires Ok(s) && w < NPROC
  {
    exists j: nat, p: nat :: j < w && OldChild(s, j, p)
  }

  /** Some slot below w can become runnable in queue 0 within the tick: it is there or about to be aged
      into it, or a process in queue 0 above w can fork into it, or its fork has taken very long. */
  ghost predicate Overtakable(s: State, w: nat)
    requires Ok(s) && w < NPROC
  {
    NearBelow(s, w) || (SlotBelow(s, w) && ParentAbove(s, w)) || OldChildBelow(s, w)
  }

  // ---------------------------------------------------------------- runs without a pick of w

  ghost predicate Leads(s: State, run: seq<Event>, t: State, w: nat)
  {
    IsRun(s, run) && Final(s, run) == t && Picks(run, w) == 0
  }

  lemma {:induction false} Chain(s: State, a: seq<Event>, t: State, b: seq<Event>, u: State, w: nat)
    requires Leads(s, a, t, w) && Leads(t, b, u, w)
    ensures Leads(s, a + b, u, w) && PassCount(a + b) == PassCount(a) + PassCount(b)
    decreases a
  {
    hide Steps;
    if a == [] {
      assert a + b == b;
    } else {
      assert (a + b)[1..] == a[1..] + b;
      Chain(a[0].t, a[1..], t, b, u, w);
    }
  }

  lemma OneStep(s: State, e: Step, t: State, w: nat)
    requires Ok(s) && Steps(s, e, t) && e != Pass(Some(w))
    ensures Leads(s, [Event(e, t)], t, w) && PassCount([Event(e, t)]) == if e.Pass? then 1 else 0
    ensures Ok(t)
  {
    hide Steps;
    StepOk(s, e, t);
    var run := [Event(e, t)];
    assert run[1..] == [];
    assert IsRun(t, run[1..]) && Final(t, run[1..]) == t && Picks(run[1..], w) == 0 && PassCount(run[1..]) == 0;
  }

  lemma NoStep(s: State, w: nat)
    ensures Leads(s, [], s, w) && PassCount([]) == 0
  {
  }

  /** A pass is always possible. */
  lemma {:induction false} SomeSelection(procs: seq<Proc>) returns (sel: Option<nat>)
    ensures Selected(procs, sel)
  {
    if procs == [] {
      sel := None;
    } else {
      var n := |procs| - 1;
      var r := SomeSelection(procs[..n]);
      if procs[n].st == RUNNABLE && (r == None || Ahead(procs[n], procs[r.value])) {
        sel := Some(n);
      } else {
        sel := r;
      }
    }
  }

  /** A pass that cannot pick w, because j is runnable and goes before it. */
  lemma PassOver(s: State, w: nat, j: nat) returns (t: State, y: nat)
    requires Fresh(s, w) && j < NPROC && j != w && s.procs[j].st == RUNNABLE
    requires (j < w && Near(s.procs[j], s.ticks)) || (s.procs[j].queue == 0 && s.procs[j].stamp < s.ticks)
    ensures Steps(s, Pass(Some(y)), t) && y < NPROC && y != w && Fresh(t, w)
    ensures t.procs[y].st == RUNNING && t.procs[y].queue == 0
    ensures forall i :: 0 <= i < NPROC && i != y ==> t.procs[i] == Aged(s.procs[i], s.ticks)
  {
    hide Power;
    var aged := AllAged(s.procs, s.ticks);
    var sel := SomeSelection(aged);
    assert aged[w] == s.procs[w] && aged[j].st == RUNNABLE && aged[j].queue == 0;
    y := sel.value;
    t := s.(procs := aged[y := Started(aged[y], s.ticks)]);
    StepOk(s, Pass(sel), t);
  }

  // ---------------------------------------------------------------- passed over without bound

  ghost predicate InFront(s: State, w: nat, j: nat)
  {
    Fresh(s, w) && j < w && Live(s.procs[j]) && s.procs[j].queue == 0
  }

  /** j, if it is not runnable, gives the CPU up or is woken. */
  lemma Rouse(s: State, w: nat, j: nat) returns (run: seq<Event>, t: State)
    requires Fresh(s, w) && j < NPROC && j != w && Live(s.procs[j])
    ensures Leads(s, run, t, w) && PassCount(run) == 0 && Fresh(t, w)
    ensures t == Moved(s, j, s.procs[j].(st := RUNNABLE))
  {
    hide Power;
    t := Moved(s, j, s.procs[j].(st := RUNNABLE));
    if s.procs[j].st == RUNNABLE {
      NoStep(s, w);
      run := [];
      assert t.procs == s.procs;
    } else {
      var e := if s.procs[j].st == RUNNING then Yield(j) else Wake(j);
      OneStep(s, e, t, w);
      run := [Event(e, t)];
    }
  }

  lemma {:induction false} PassedForever(s: State, w: nat, j: nat, n: nat) returns (run: seq<Event>)
    requires InFront(s, w, j)
    ensures IsRun(s, run) && Picks(run, w) == 0 && PassCount(run) == n
    decreases n
  {
    hide Steps, Fresh, Moved, IsRun, Picks, Final, PassCount;
    if n == 0 {
      NoStep(s, w);
      run := [];
      assert Leads(s, run, s, w);
    } else {
      var a, t, u := AroundOnce(s, w, j);
      var b := PassedForever(u, w, j, n - 1);
      assert Leads(u, b, Final(u, b), w);
      Chain(s, a, u, b, Final(u, b), w);
      run := a + b;
    }
  }

  /** One more pass picks somebody else, and j is still in front of w. */
  lemma AroundOnce(s: State, w: nat, j: nat) returns (run: seq<Event>, t: State, u: State)
    requires InFront(s, w, j)
    ensures Leads(s, run, u, w) && PassCount(run) == 1 && InFront(u, w, j)
  {
    hide Steps, IsRun, Picks, Final, PassCount;
    var a;
    a, t := Rouse(s, w, j);
    var y;
    u, y := PassOver(t, w, j);
    OneStep(t, Pass(Some(y)), u, w);
    Chain(s, a, t, [Event(Pass(Some(y)), u)], u, w);
    run := a + [Event(Pass(Some(y)), u)];
  }

  /** A slot below w that is near queue 0 gets there. */
  lemma NearGetsThere(s: State, w: nat, j: nat) returns (run: seq<Event>, u: State)
    requires Fresh(s, w) && j < w && Near(s.procs[j], s.ticks)
    ensures Leads(s, run, u, w) && InFront(u, w, j)
  {
    hide Steps, IsRun, Picks, Final, PassCount;
    var a, t := Rouse(s, w, j);
    var y;
    u, y := PassOver(t, w, j);
    OneStep(t, Pass(Some(y)), u, w);
    Chain(s, a, t, [Event(Pass(Some(y)), u)], u, w);
    run := a + [Event(Pass(Some(y)), u)];
  }

  /** A slot below w that is empty, or is emptied, is forked into from queue 0. */
  lemma ForkBelow(s: State, w: nat, j: nat, p: nat) returns (run: seq<Event>, u: State)
    requires Fresh(s, w) && j < w && Reusable(s.procs[j]) && p < NPROC && p != j
    requires s.procs[p].st == RUNNING && s.procs[p].queue == 0
    ensures Leads(s, run, u, w) && InFront(u, w, j)
  {
    hide IsRun, Picks, Final, PassCount, Power;
    var a, t := Emptied(s, w, j, p);
    u := Moved(t, j, t.procs[j].(queue := 0, st := RUNNABLE));
    OneStep(t, Ready(p, j), u, w);
    Chain(s, a, t, [Event(Ready(p, j), u)], u, w);
    run := a + [Event(Ready(p, j), u)];
  }

  lemma Emptied(s: State, w: nat, j: nat, p: nat) returns (run: seq<Event>, t: State)
    requires Fresh(s, w) && j < w && Reusable(s.procs[j]) && p < NPROC && p != j
    ensures Leads(s, run, t, w) && Fresh(t, w) && t.procs[p] == s.procs[p] && t.procs[j].st == USED
    decreases match s.procs[j].st { case RUNNING => 3 case ZOMBIE => 2 case UNUSED => 1 case _ => 0 }
  {
    hide IsRun, Picks, Final, PassCount, Power;
    if s.procs[j].st == USED {
      NoStep(s, w);
      return [], s;
    }
    var q := s.procs[j];
    var e := if q.st == RUNNING then Exit(j) else if q.st == ZOMBIE then Free(j) else Alloc(j);
    var s1 := Moved(s, j, if q.st == RUNNING then q.(st := ZOMBIE) else if q.st == ZOMBIE then q.(st := UNUSED)
                    else Proc(USED, 0, s.ticks, 0, [0, 0, 0, 0, 0]));
    OneStep(s, e, s1, w);
    var rest;
    rest, t := Emptied(s1, w, j, p);
    Chain(s, [Event(e, s1)], s1, rest, t, w);
    run := [Event(e, s1)] + rest;
  }

  /** A process in queue 0 above w runs, and forks into the slot below. */
  lemma ParentForks(s: State, w: nat, j: nat, p: nat) returns (run: seq<Event>, u: State, i: nat)
    requires Fresh(s, w) && j < w < p < NPROC && Reusable(s.procs[j]) && Parent(s.procs[p], s.ticks)
    ensures Leads(s, run, u, w) && InFront(u, w, i)
  {
    hide Steps, IsRun, Picks, Final, PassCount, Power;
    if s.procs[p].st == RUNNING {
      i := j;
      run, u := ForkBelow(s, w, j, p);
    } else {
      var a, t := Rouse(s, w, p);
      var v, y := PassOver(t, w, p);
      OneStep(t, Pass(Some(y)), v, w);
      Chain(s, a, t, [Event(Pass(Some(y)), v)], v, w);
      run := a + [Event(Pass(Some(y)), v)];
      if y < w {
        i, u := y, v;
      } else {
        i := j;
        var b;
        b, u := ForkBelow(v, w, j, y);
        Chain(s, run, v, b, u, w);
        run := run + b;
      }
    }
  }

  lemma ChildAges(s: State, w: nat, j: nat, p: nat) returns (run: seq<Event>, u: State)
    requires Fresh(s, w) && j < w && OldChild(s, j, p)
    ensures Leads(s, run, u, w) && InFront(u, w, j)
  {
    hide IsRun, Picks, Final, PassCount, Power;
    var t := Moved(s, j, s.procs[j].(queue := 1, st := RUNNABLE));
    OneStep(s, Ready(p, j), t, w);
    var b;
    b, u := NearGetsThere(t, w, j);
    Chain(s, [Event(Ready(p, j), t)], t, b, u, w);
    run := [Event(Ready(p, j), t)] + b;
  }

  lemma SomebodyInFront(s: State, w: nat) returns (run: seq<Event>, u: State, j: nat)
    requires Fresh(s, w) && Overtakable(s, w)
    ensures Leads(s, run, u, w) && InFront(u, w, j)
  {
    hide IsRun, Picks, Final, Fresh, Near, Reusable, Parent, OldChild, Live;
    FreshOk(s, w);
    if NearBelow(s, w) {
      j :| 0 <= j < w && Near(s.procs[j], s.ticks);
      run, u := NearGetsThere(s, w, j);
    } else if SlotBelow(s, w) && ParentAbove(s, w) {
      var i :| 0 <= i < w && Reusable(s.procs[i]);
      var p :| w < p < NPROC && Parent(s.procs[p], s.ticks);
      run, u, j := ParentForks(s, w, i, p);
    } else {
      var i: nat, p: nat :| i < w && OldChild(s, i, p);
      j := i;
      run, u := ChildAges(s, w, i, p);
    }
  }

  lemma FreshOk(s: State, w: nat)
    requires Fresh(s, w)
    ensures Ok(s) && w < NPROC
  {
  }

  /** If some lower slot can get into queue 0 within the tick, w can be passed over any number of times. */
  lemma Overtaken(s: State, w: nat, n: nat) returns (run: seq<Event>)
    requires Fresh(s, w) && Overtakable(s, w)
    ensures IsRun(s, run) && Picks(run, w) == 0 && PassCount(run) >= n
  {
    hide IsRun, Picks, Final, Fresh, InFront, Overtakable, PassCount;
    var a, u, j := SomebodyInFront(s, w);
    var b := PassedForever(u, w, j, n);
    Chain(s, a, u, b, Final(u, b), w);
    run := a + b;
  }

  // ---------------------------------------------------------------- passed over within bounds

  /** Every lower slot is taken by a process that stays out of queue 0 in this tick. */
  ghost predicate ShutBelow(s: State, w: nat)
  {
    Fresh(s, w) && forall j :: 0 <= j < w ==> !Reusable(s.procs[j]) && !Near(s.procs[j], s.ticks)
  }

  /** A pass picks only a process above w with an older stamp. */
  lemma ShutStep(s: State, e: Step, t: State, w: nat)
    requires ShutBelow(s, w) && Steps(s, e, t) && e != Pass(Some(w)) && !e.Tick?
    ensures ShutBelow(t, w) && t.ticks == s.ticks
    ensures e.Pass? ==> && e.sel.Some? && e.sel.value < NPROC
                        && s.procs[e.sel.value].stamp < s.ticks == t.procs[e.sel.value].stamp
  {
    hide Power;
    StepOk(s, e, t);
    if e.Pass? {
      var aged := AllAged(s.procs, s.ticks);
      assert aged[w] == s.procs[w];
      assert forall j :: 0 <= j < w ==> aged[j].queue > 0;
    }
  }

  lemma {:induction false} ShutBound(s: State, run: seq<Event>, w: nat)
    requires ShutBelow(s, w) && IsRun(s, run) && Picks(run, w) == 0
    ensures Ok(s) && PassCount(run) <= Rivals(s, w, s.ticks - 1, NPROC) + NPROC - 1
    decreases run
  {
    hide Steps, ShutBelow;
    ShutOk(s, w);
    if run != [] {
      var e, t := run[0].e, run[0].t;
      StepOk(s, e, t);
      if e.Tick? {
        TickWaits(s, e, t, w);
        BoundedBypass(t, run[1..], w, s.ticks);
      } else {
        ShutStep(s, e, t, w);
        ShutBound(t, run[1..], w);
        RivalsDrop(s, t, w, s.ticks - 1, NPROC, if e.Pass? then e.sel else None);
      }
    }
  }

  lemma ShutOk(s: State, w: nat)
    requires ShutBelow(s, w)
    ensures Fresh(s, w)
  {
  }

  lemma TickWaits(s: State, e: Step, t: State, w: nat)
    requires Fresh(s, w) && e.Tick? && Steps(s, e, t)
    ensures Ok(t) && Waiting(t, w, s.ticks)
  {
  }

  /** Nobody below w is near queue 0, and nobody can be made so. */
  ghost predicate Barren(s: State, w: nat)
  {
    Fresh(s, w) && !NearBelow(s, w) && !ParentAbove(s, w) && !OldChildBelow(s, w)
  }

  /** Every other process is kept from going ahead of w. */
  lemma BarrenMeans(s: State, w: nat)
    requires Barren(s, w)
    ensures forall j :: 0 <= j < w ==> !Near(s.procs[j], s.ticks)
    ensures forall p :: w < p < NPROC ==> !Parent(s.procs[p], s.ticks)
    ensures forall j: nat, p: nat ::
              j < w && p < NPROC && s.procs[j].st == USED && s.ticks - s.procs[j].stamp > MAXAGE ==>
                s.procs[p].st != RUNNING || s.procs[p].queue != 1
    ensures forall p: nat :: p < NPROC && s.procs[p].st == RUNNING ==> s.procs[p].queue != 0
  {
    forall j: nat, p: nat | j < w && p < NPROC && s.procs[j].st == USED && s.ticks - s.procs[j].stamp > MAXAGE
      ensures s.procs[p].st != RUNNING || s.procs[p].queue != 1
    {
      assert !OldChild(s, j, p);
    }
    forall p: nat | p < NPROC && s.procs[p].st == RUNNING
      ensures s.procs[p].queue != 0
    {
      assert p < w ==> !Near(s.procs[p], s.ticks);
      assert p > w ==> !Parent(s.procs[p], s.ticks);
    }
  }

  /** A pass would pick w. */
  lemma BarrenPass(s: State, sel: Option<nat>, t: State, w: nat)
    requires Barren(s, w) && Passes(s, sel, t)
    ensures sel == Some(w)
  {
    hide Power;
    BarrenMeans(s, w);
    hide Barren;
    var aged := AllAged(s.procs, s.ticks);
    assert aged[w] == s.procs[w];
  }

  /** One slot changes, and not to the worse. */
  lemma BarrenMoved(s: State, t: State, w: nat, i: nat, p: Proc)
    requires Barren(s, w) && i < NPROC && i != w && t == Moved(s, i, p) && Ok(t)
    requires (i < w ==> !Near(p, s.ticks)) && (w < i ==> !Parent(p, s.ticks))
    requires p.st != RUNNING && (p.st == USED ==> p.stamp == s.ticks)
    ensures Barren(t, w)
  {
    hide Near, Parent;
    BarrenMeans(s, w);
    hide Barren;
    assert Fresh(t, w) && !NearBelow(t, w) && !ParentAbove(t, w);
  }

  lemma BarrenStep(s: State, e: Step, t: State, w: nat)
    requires Barren(s, w) && Steps(s, e, t) && e != Pass(Some(w)) && !e.Tick?
    ensures Barren(t, w) && !e.Pass?
  {
    hide Power;
    if e.Pass? {
      BarrenPass(s, e.sel, t, w);
    } else {
      StepOk(s, e, t);
      BarrenMeans(s, w);
      if t != s {
        BarrenMoved(s, t, w, e.i, t.procs[e.i]);
      }
    }
  }

  lemma {:induction false} BarrenBound(s: State, run: seq<Event>, w: nat)
    requires Barren(s, w) && IsRun(s, run) && Picks(run, w) == 0
    ensures PassCount(run) <= NPROC - 1
    decreases run
  {
    hide Steps, Barren;
    if run != [] {
      var e, t := run[0].e, run[0].t;
      StepOk(s, e, t);
      if e.Tick? {
        BarrenOk(s, w);
        TickWaits(s, e, t, w);
        BoundedBypass(t, run[1..], w, s.ticks);
      } else {
        BarrenStep(s, e, t, w);
        BarrenBound(t, run[1..], w);
      }
    }
  }

  lemma BarrenOk(s: State, w: nat)
    requires Barren(s, w)
    ensures Fresh(s, w)
  {
  }

  /** If no lower slot can get into queue 0 within the tick, the passes before w is picked are bounded. */
  lemma NotOvertaken(s: State, run: seq<Event>, w: nat)
    requires Fresh(s, w) && !Overtakable(s, w) && IsRun(s, run) && Picks(run, w) == 0
    ensures PassCount(run) <= 2 * (NPROC - 1)
  {
    hide IsRun, Picks, PassCount, Near, Reusable, Parent;
    if SlotBelow(s, w) {
      BarrenBound(s, run, w);
    } else {
      RivalsBound(s, w, s.ticks - 1, NPROC);
      ShutBound(s, run, w);
    }
  }

  // ---------------------------------------------------------------- the exact condition

  ghost predicate BypassAtMost(s: State, w: nat, n: nat)
  {
    forall run :: IsRun(s, run) && Picks(run, w) == 0 ==> PassCount(run) <= n
  }

  /** The exact condition: the number of passes before a process in queue 0 is picked is bounded if
      and only if the tick of its stamp is over or no lower slot can get into queue 0 within it. */
  lemma BypassExact(s: State, w: nat)
    requires Ok(s) && w < NPROC && s.procs[w].st == RUNNABLE && s.procs[w].queue == 0
    ensures (exists n: nat :: BypassAtMost(s, w, n)) <==> s.procs[w].stamp < s.ticks || !Overtakable(s, w)
    ensures (exists n: nat :: BypassAtMost(s, w, n)) ==> BypassAtMost(s, w, 2 * (NPROC - 1))
  {
    hide Overtakable, IsRun, Picks, PassCount;
    if s.procs[w].stamp < s.ticks || !Overtakable(s, w) {
      forall run | IsRun(s, run) && Picks(run, w) == 0
        ensures PassCount(run) <= 2 * (NPROC - 1)
      {
        if s.procs[w].stamp < s.ticks {
          BoundedBypass(s, run, w, s.procs[w].stamp);
        } else {
          NotOvertaken(s, run, w);
        }
      }
      assert BypassAtMost(s, w, 2 * (NPROC - 1));
    } else {
      forall n: nat
        ensures !BypassAtMost(s, w, n)
      {
        var run := Overtaken(s, w, n + 1);
      }
    }
  }

  /** Slot 0 wins every tie, so it keeps the bound. */
  lemma SlotZero(s: State)
    requires Ok(s) && s.procs[0].st == RUNNABLE && s.procs[0].queue == 0
    ensures BypassAtMost(s, 0, 2 * (NPROC - 1))
  {
    hide BypassAtMost;
    BypassExact(s, 0);
  }

  // ---------------------------------------------------------------- from boot

  /** The table before userinit. */
  function Boot(): State
  {
    State(seq(NPROC, _ => Proc(UNUSED, 0, 0, 0, [0, 0, 0, 0, 0])), 0)
  }

  /** init is made, runs, and forks, all within the first tick. */
  lemma ChildOfInit() returns (run: seq<Event>, s: State)
    ensures IsRun(Boot(), run) && Final(Boot(), run) == s && InFront(s, 1, 0)
  {
    hide Power, IsRun, Picks, Final, PassCount;
    var made := Proc(USED, 0, 0, 0, [0, 0, 0, 0, 0]);
    var a := Moved(Boot(), 0, made);
    var b := Moved(a, 0, made.(st := RUNNABLE));
    var aged := AllAged(b.procs, 0);
    assert aged == b.procs && Selected(aged, Some(0));
    var c := Moved(b, 0, Started(b.procs[0], 0));
    var d := Moved(c, 1, made);
    s := Moved(d, 1, made.(st := RUNNABLE));
    OneStep(Boot(), Alloc(0), a, 1);
    OneStep(a, First(0), b, 1);
    OneStep(b, Pass(Some(0)), c, 1);
    OneStep(c, Alloc(1), d, 1);
    OneStep(d, Ready(0, 1), s, 1);
    var r := [Event(Alloc(0), a)];
    Chain(Boot(), r, a, [Event(First(0), b)], b, 1);
    r := r + [Event(First(0), b)];
    Chain(Boot(), r, b, [Event(Pass(Some(0)), c)], c, 1);
    r := r + [Event(Pass(Some(0)), c)];
    Chain(Boot(), r, c, [Event(Alloc(1), d)], d, 1);
    r := r + [Event(Alloc(1), d)];
    Chain(Boot(), r, d, [Event(Ready(0, 1), s)], s, 1);
    run := r + [Event(Ready(0, 1), s)];
  }

  /** From boot: init's first child, runnable in queue 0, sees any number of passes without being picked. */
  lemma PassedOver(n: nat) returns (before: seq<Event>, s: State, run: seq<Event>)
    ensures IsRun(Boot(), before) && Final(Boot(), before) == s
    ensures |s.procs| == NPROC && s.procs[1].st == RUNNABLE && s.procs[1].queue == 0
    ensures IsRun(s, run) && PassCount(run) == n && Picks(run, 1) == 0
  {
    hide IsRun, Picks, Final, PassCount;
    before, s := ChildOfInit();
    run := PassedForever(s, 1, 0, n);
  }
}
