/** The space reservation of begin_op (kernel/log.c), and when it is enough. */
module LogSpace {
  import opened Prelude
  import opened Blocks
  import opened LogMachine
  import opened LogCrash

  /** Every operation keeps its promise of at most MAXOPBLOCKS new log entries. */
  ghost predicate InBudget(s: State)
  {
    forall op :: op in s.appended ==> s.appended[op] <= MAXOPBLOCKS
  }

  /** Entries the active operations may still add. */
  ghost function Reserve(active: seq<OpId>, appended: map<OpId, nat>): int
    requires forall op :: op in active ==> op in appended
  {
    if active == [] then 0
    else MAXOPBLOCKS - appended[active[0]] + Reserve(active[1..], appended)
  }

  ghost predicate Reserved(s: State)
    requires forall op :: op in s.active ==> op in s.appended
  {
    s.phase.Running? ==> |s.lh| + Reserve(s.active, s.appended) <= LOGSIZE
  }

  lemma {:induction false} ReserveBounds(active: seq<OpId>, appended: map<OpId, nat>)
    requires forall op :: op in active ==> op in appended && appended[op] <= MAXOPBLOCKS
    ensures 0 <= Reserve(active, appended) <= |active| * MAXOPBLOCKS
    ensures forall op :: op in active ==> MAXOPBLOCKS - appended[op] <= Reserve(active, appended)
  {
    if active != [] {
      ReserveBounds(active[1..], appended);
    }
  }

  lemma {:induction false} ReserveOfBegin(active: seq<OpId>, appended: map<OpId, nat>, op: OpId)
    requires forall o :: o in active ==> o in appended
    requires op !in active
    ensures Reserve(active + [op], appended[op := 0]) == Reserve(active, appended) + MAXOPBLOCKS
  {
    if active == [] {
      assert active + [op] == [op];
    } else {
      assert (active + [op])[1..] == active[1..] + [op];
      ReserveOfBegin(active[1..], appended, op);
    }
  }

  lemma {:induction false} ReserveFrame(active: seq<OpId>, appended: map<OpId, nat>, op: OpId, k: nat)
    requires forall o :: o in active ==> o in appended
    requires op !in active
    ensures Reserve(active, appended[op := k]) == Reserve(active, appended)
  {
    if active != [] {
      ReserveFrame(active[1..], appended, op, k);
    }
  }

  lemma {:induction false} ReserveOfAppend(active: seq<OpId>, appended: map<OpId, nat>, op: OpId)
    requires forall o :: o in active ==> o in appended
    requires op in active && Nodup(active)
    ensures Reserve(active, appended[op := appended[op] + 1]) == Reserve(active, appended) - 1
  {
    if active[0] == op {
      assert op !in active[1..];
      ReserveFrame(active[1..], appended, op, appended[op] + 1);
    } else {
      ReserveOfAppend(active[1..], appended, op);
    }
  }

  lemma {:induction false} ReserveOfEnd(active: seq<OpId>, appended: map<OpId, nat>, op: OpId)
    requires forall o :: o in active ==> o in appended
    requires op in active
    ensures forall o :: o in Without(active, op) ==> o in appended
    ensures Reserve(Without(active, op), appended) == Reserve(active, appended) - (MAXOPBLOCKS - appended[op])
  {
    WithoutShrinks(active, op);
    if active[0] != op {
      ReserveOfEnd(active[1..], appended, op);
      assert Without(active, op)[1..] == Without(active[1..], op);
    }
  }

  lemma ReservedPreserved(c: Config, s: State, e: Step)
    requires Inv(c, s) && Reserved(s) && Enabled(c, s, e)
    requires InBudget(s) && InBudget(Next(c, s, e))
    ensures Shape(c, Next(c, s, e)) && Reserved(Next(c, s, e))
  {
    hide LogCrash.Contents, LogCrash.Durable, LogCrash.GroupsWhole, LogMachine.EncodeHead, LogMachine.HeadN,
      LogMachine.HeadBlock, LogMachine.UpdatesOf, LogMachine.DiskOk, LogMachine.ReadEntries;
    ShapePreserved(c, s, e);
    match e
    case Begin(op) =>
      ReserveBounds(s.active, s.appended);
      ReserveOfBegin(s.active, s.appended, op);
    case Write(op, b, data) =>
      if b !in s.lh {
        ReserveOfAppend(s.active, s.appended, op);
      }
    case End(op) =>
      ReserveOfEnd(s.active, s.appended, op);
    case _ =>
  }

  lemma InBudgetBefore(c: Config, s: State, e: Step)
    requires Shape(c, s) && Enabled(c, s, e) && InBudget(Next(c, s, e))
    ensures InBudget(s)
  {
    var t := Next(c, s, e);
    assert forall op :: op in s.appended ==> op in t.appended;
    forall op | op in s.appended
      ensures s.appended[op] <= MAXOPBLOCKS
    {
      assert t.appended[op] <= MAXOPBLOCKS;
    }
  }

  lemma {:induction false} ReservedInRuns(c: Config, s: State, steps: seq<Step>)
    requires Inv(c, s) && Reserved(s) && IsRun(c, s, steps) && InBudget(Final(c, s, steps))
    ensures Inv(c, Final(c, s, steps)) && Reserved(Final(c, s, steps)) && InBudget(s)
    decreases steps
  {
    if steps != [] {
      InvPreserved(c, s, steps[0]);
      var t := Next(c, s, steps[0]);
      BudgetedRun(c, t, steps[1..]);
      InBudgetBefore(c, s, steps[0]);
      ReservedPreserved(c, s, steps[0]);
      ReservedInRuns(c, t, steps[1..]);
    }
  }

  lemma {:induction false} BudgetedRun(c: Config, s: State, steps: seq<Step>)
    requires Inv(c, s) && IsRun(c, s, steps) && InBudget(Final(c, s, steps))
    ensures InBudget(s)
    decreases steps
  {
    if steps != [] {
      InvPreserved(c, s, steps[0]);
      BudgetedRun(c, Next(c, s, steps[0]), steps[1..]);
      InBudgetBefore(c, s, steps[0]);
    }
  }

  // ---------------------------------------------------------------- what keeps an operation within its budget

  function BlocksOf(us: seq<Update>): set<nat>
  {
    set u | u in us :: u.blockno
  }

  /** An operation in progress finds every block it has logged in the log; it has caused no more
      entries than it has logged blocks. */
  ghost predicate Counted(s: State)
    requires s.issued.Keys == s.appended.Keys && forall op :: op in s.active ==> op in s.issued
  {
    && (forall op, b :: op in s.active && b in BlocksOf(s.issued[op]) ==> b in s.lh)
    && (forall op :: op in s.issued ==> s.appended[op] <= |BlocksOf(s.issued[op])|)
  }

  lemma BlocksOfSnoc(us: seq<Update>, u: Update)
    ensures BlocksOf(us + [u]) == BlocksOf(us) + {u.blockno}
  {
    forall b | b in BlocksOf(us) + {u.blockno}
      ensures b in BlocksOf(us + [u])
    {
      if b == u.blockno {
        assert u in us + [u];
      } else {
        var v :| v in us && v.blockno == b;
        assert v in us + [u];
      }
    }
  }

  lemma CountedPreserved(c: Config, s: State, e: Step)
    requires Inv(c, s) && Counted(s) && Enabled(c, s, e)
    ensures Shape(c, Next(c, s, e)) && Counted(Next(c, s, e))
  {
    hide LogCrash.Contents, LogCrash.Durable, LogCrash.GroupsWhole, LogMachine.EncodeHead, BlocksOf, LogMachine.HeadN,
      LogMachine.HeadBlock, LogMachine.UpdatesOf, LogMachine.DiskOk, LogMachine.ReadEntries;
    ShapePreserved(c, s, e);
    match e
    case Begin(op) => NoBlocks();
    case Write(op, b, data) => CountedWrite(c, s, op, b, data);
    case End(op) => WithoutShrinks(s.active, op);
    case _ =>
  }

  lemma CountedWrite(c: Config, s: State, op: OpId, b: nat, data: Block)
    requires Shape(c, s) && Counted(s) && Enabled(c, s, Write(op, b, data))
    ensures Shape(c, Next(c, s, Write(op, b, data))) && Counted(Next(c, s, Write(op, b, data)))
  {
    hide BlocksOf, LogMachine.HeadN, LogMachine.HeadBlock, LogMachine.DiskOk;
    ShapePreserved(c, s, Write(op, b, data));
    BlocksOfSnoc(s.issued[op], Update(op, b, data));
    OneMoreBlock(BlocksOf(s.issued[op]), b);
    var t := Next(c, s, Write(op, b, data));
    assert forall x :: x in s.lh ==> x in t.lh;
    assert b in t.lh;
  }

  lemma OneMoreBlock(bs: set<nat>, b: nat)
    ensures |bs + {b}| == |bs| + if b in bs then 0 else 1
  {
    if b in bs {
      assert bs + {b} == bs;
    }
  }

  lemma NoBlocks()
    ensures BlocksOf([]) == {}
  {
  }

  lemma {:induction false} CountedInRuns(c: Config, s: State, steps: seq<Step>)
    requires Inv(c, s) && Counted(s) && IsRun(c, s, steps)
    ensures Inv(c, Final(c, s, steps)) && Counted(Final(c, s, steps))
    decreases steps
  {
    hide LogMachine.Next, LogMachine.Enabled;
    if steps != [] {
      InvPreserved(c, s, steps[0]);
      CountedPreserved(c, s, steps[0]);
      CountedInRuns(c, Next(c, s, steps[0]), steps[1..]);
    }
  }

  /** An operation that logs at most MAXOPBLOCKS different blocks keeps its promise, however often
      it logs each of them and whatever else is in the log. */
  lemma DistinctBlocksSuffice(c: Config, s0: State, steps: seq<Step>)
    requires Init(c, s0) && IsRun(c, s0, steps)
    requires forall op :: op in Final(c, s0, steps).issued ==> |BlocksOf(Final(c, s0, steps).issued[op])| <= MAXOPBLOCKS
    ensures InBudget(Final(c, s0, steps))
  {
    hide BlocksOf;
    InitInv(c, s0);
    CountedInRuns(c, s0, steps);
  }

  /** The state s has been reached from boot by operations that keep their promise, and op
      is about to log a block, whether it is in the log yet or not, with some of its promise left. */
  ghost predicate Spending(c: Config, s0: State, steps: seq<Step>, op: OpId)
  {
    && Init(c, s0) && IsRun(c, s0, steps)
    && var s := Final(c, s0, steps);
    && InBudget(s) && op in s.active && op in s.appended && s.appended[op] < MAXOPBLOCKS
  }

  /** With log.size > LOGSIZE the reservation is enough: the log never holds more than
      LOGSIZE entries, they are distinct, and no log_write with promise left panics. */
  lemma SpaceSuffices(c: Config, s0: State, steps: seq<Step>, op: OpId)
    requires c.size > LOGSIZE && Spending(c, s0, steps, op)
    ensures var s := Final(c, s0, steps);
            !WritePanics(c, s) && |s.lh| < LOGSIZE && Nodup(s.lh)
  {
    InitInv(c, s0);
    ReservedInRuns(c, s0, steps);
    var s := Final(c, s0, steps);
    ReserveBounds(s.active, s.appended);
  }

  /** What is left: with log.size > LOGSIZE, log_write in an operation panics exactly when the log
      holds LOGSIZE entries, and then every operation in progress has used its promise up. */
  lemma PanicsWhenSpent(c: Config, s0: State, steps: seq<Step>)
    requires c.size > LOGSIZE && Init(c, s0) && IsRun(c, s0, steps) && InBudget(Final(c, s0, steps))
    requires Final(c, s0, steps).active != []
    ensures var s := Final(c, s0, steps);
            && (WritePanics(c, s) <==> |s.lh| == LOGSIZE)
            && (WritePanics(c, s) ==> forall op :: op in s.active ==> op in s.appended && s.appended[op] == MAXOPBLOCKS)
  {
    InitInv(c, s0);
    ReservedInRuns(c, s0, steps);
    var s := Final(c, s0, steps);
    ReserveBounds(s.active, s.appended);
  }

  ghost predicate NeverPanics(c: Config)
  {
    forall s0, steps, op | Spending(c, s0, steps, op) ::
      !WritePanics(c, Final(c, s0, steps))
  }

  // ---------------------------------------------------------------- filling the log

  function ZeroDisk(c: Config): (d: Disk)
    ensures |d| == c.blocks
  {
    seq(c.blocks, _ => Zeroes())
  }

  function BootState(c: Config): State
  {
    State(ZeroDisk(c), Booting, [], 0, ZeroDisk(c), ZeroDisk(c), [], {}, [], map[], map[], [])
  }

  lemma BootStateInit(c: Config)
    requires ConfigOk(c)
    ensures Init(c, BootState(c)) && HeadN(c, BootState(c).disk) == 0
  {
    WordOfZeroes(0);
  }

  /** Three operations have begun and k blocks of `homes` have been logged, ten by each. */
  ghost predicate Filled(c: Config, s: State, homes: seq<nat>, k: nat)
  {
    && Shape(c, s) && s.phase.Running? && s.active == [0, 1, 2]
    && k <= |homes| && s.lh == homes[..k] && InBudget(s)
    && 0 in s.appended && 1 in s.appended && 2 in s.appended
    && s.appended[0] == (if k < 10 then k else 10)
    && s.appended[1] == (if k < 10 then 0 else if k < 20 then k - 10 else 10)
    && s.appended[2] == (if k < 20 then 0 else k - 20)
  }

  lemma Extend(c: Config, s0: State, steps: seq<Step>, e: Step)
    requires IsRun(c, s0, steps) && Shape(c, Final(c, s0, steps)) && Enabled(c, Final(c, s0, steps), e)
    ensures IsRun(c, s0, steps + [e]) && Final(c, s0, steps + [e]) == Next(c, Final(c, s0, steps), e)
    ensures Shape(c, Final(c, s0, steps + [e]))
  {
    var s := Final(c, s0, steps);
    ShapePreserved(c, s, e);
    RunOne(c, s, e);
    RunAppend(c, s0, steps, [e]);
  }

  lemma BootRuns(c: Config) returns (steps: seq<Step>)
    requires ConfigOk(c)
    ensures IsRun(c, BootState(c), steps)
    ensures var s := Final(c, BootState(c), steps);
            && Shape(c, s) && s.phase.Running? && s.lh == [] && s.active == []
            && s.outstanding == 0 && s.issued == map[] && s.appended == map[]
  {
    BootStateInit(c);
    Extend(c, BootState(c), [], ReadHead);
    Extend(c, BootState(c), [] + [ReadHead], RecoverClear);
    steps := [] + [ReadHead] + [RecoverClear];
  }

  ghost predicate Begun(c: Config, s: State, k: nat)
  {
    && Shape(c, s) && s.phase.Running? && s.lh == [] && s.outstanding == k
    && |s.active| == k && (forall i :: 0 <= i < k ==> s.active[i] == i)
    && (forall op: OpId :: op in s.appended <==> op < k)
    && (forall op :: op in s.appended ==> s.appended[op] == 0)
  }

  lemma BeginOne(c: Config, s: State, k: nat)
    requires Begun(c, s, k) && k < 3
    ensures Enabled(c, s, Begin(k)) && Begun(c, Next(c, s, Begin(k)), k + 1)
  {
    assert k !in s.issued.Keys;
    ShapePreserved(c, s, Begin(k));
  }

  lemma {:induction false} BeginOps(c: Config, k: nat) returns (steps: seq<Step>)
    requires ConfigOk(c) && k <= 3
    ensures IsRun(c, BootState(c), steps) && Begun(c, Final(c, BootState(c), steps), k)
  {
    hide LogMachine.Next, LogMachine.Enabled, LogCrash.IsRun, LogCrash.Final, BootState;
    if k == 0 {
      steps := BootRuns(c);
    } else {
      steps := BeginOps(c, k - 1);
      BeginOne(c, Final(c, BootState(c), steps), k - 1);
      Extend(c, BootState(c), steps, Begin(k - 1));
      steps := steps + [Begin(k - 1)];
    }
  }

  lemma FillOne(c: Config, s: State, homes: seq<nat>, k: nat, data: Block)
    requires Filled(c, s, homes, k) && Nodup(homes) && k < |homes| <= LOGSIZE
    requires forall i :: 0 <= i < |homes| ==> Home(c, homes[i])
    requires k < c.size - 1
    ensures var e := Write(k / 10, homes[k], data);
            Shape(c, s) && Enabled(c, s, e) && Filled(c, Next(c, s, e), homes, k + 1)
  {
    var e := Write(k / 10, homes[k], data);
    assert homes[k] !in s.lh;
    ShapePreserved(c, s, e);
    assert homes[..k + 1] == homes[..k] + [homes[k]];
  }

  lemma FillNone(c: Config, s: State, homes: seq<nat>)
    requires Begun(c, s, 3)
    ensures Filled(c, s, homes, 0)
  {
    assert s.active == [0, 1, 2];
  }

  lemma {:induction false} FillLog(c: Config, homes: seq<nat>, k: nat) returns (steps: seq<Step>)
    requires ConfigOk(c) && Nodup(homes) && k <= |homes| <= LOGSIZE && k <= c.size - 1
    requires forall i :: 0 <= i < |homes| ==> Home(c, homes[i])
    ensures IsRun(c, BootState(c), steps) && Filled(c, Final(c, BootState(c), steps), homes, k)
  {
    hide Filled, Begun, LogMachine.Next, LogMachine.Enabled, LogMachine.Shape, LogCrash.IsRun, LogCrash.Final,
      BootState, LogMachine.Home, Nodup;
    if k == 0 {
      steps := BeginOps(c, 3);
      FillNone(c, Final(c, BootState(c), steps), homes);
    } else {
      steps := FillLog(c, homes, k - 1);
      var s := Final(c, BootState(c), steps);
      var e := Write((k - 1) / 10, homes[k - 1], Zeroes());
      FillOne(c, s, homes, k - 1, Zeroes());
      Extend(c, BootState(c), steps, e);
      steps := steps + [e];
    }
  }

  /** The exact condition: on a device with LOGSIZE blocks outside the log, operations never panic
      in a log_write while they have promise left if and only if log.size > LOGSIZE. */
  lemma SpaceBoundExact(c: Config, homes: seq<nat>)
    requires ConfigOk(c) && Nodup(homes) && |homes| == LOGSIZE
    requires forall i :: 0 <= i < |homes| ==> Home(c, homes[i])
    ensures NeverPanics(c) <==> c.size > LOGSIZE
  {
    hide NeverPanics;
    if c.size > LOGSIZE {
      EnoughSpace(c);
    } else {
      TooLittleSpace(c, homes);
    }
  }

  lemma EnoughSpace(c: Config)
    requires c.size > LOGSIZE
    ensures NeverPanics(c)
  {
    forall s0, steps, op | Spending(c, s0, steps, op)
      ensures !WritePanics(c, Final(c, s0, steps))
    {
      SpaceSuffices(c, s0, steps, op);
    }
  }

  lemma TooLittleSpace(c: Config, homes: seq<nat>)
    requires ConfigOk(c) && Nodup(homes) && |homes| == LOGSIZE && c.size <= LOGSIZE
    requires forall i :: 0 <= i < |homes| ==> Home(c, homes[i])
    ensures !NeverPanics(c)
  {
    hide LogCrash.IsRun, LogCrash.Final, LogCrash.Init, LogMachine.Shape, BootState;
    var k := c.size - 1;
    var steps := FillLog(c, homes, k);
    BootStateInit(c);
    assert Spending(c, BootState(c), steps, k / 10);
  }

  /** mkfs gives the log LOGSIZE blocks, header included: one too few. */
  lemma MkfsLogCanPanic()
    ensures !NeverPanics(Config(2, 30, 1000))
  {
    var homes := seq(LOGSIZE, i requires 0 <= i => 100 + i);
    SpaceBoundExact(Config(2, 30, 1000), homes);
  }

  /** The limit is checked before absorption is looked for, so with a full log even the
      rewrite of a block already logged panics, whatever the size of the log. */
  lemma AbsorbingWriteCanPanic(c: Config, homes: seq<nat>) returns (s0: State, steps: seq<Step>)
    requires ConfigOk(c) && Nodup(homes) && |homes| == LOGSIZE && c.size > LOGSIZE
    requires forall i :: 0 <= i < |homes| ==> Home(c, homes[i])
    ensures Init(c, s0) && IsRun(c, s0, steps) && InBudget(Final(c, s0, steps))
    ensures var s := Final(c, s0, steps);
            0 in s.active && homes[0] in s.lh && WritePanics(c, s)
  {
    s0 := BootState(c);
    BootStateInit(c);
    steps := FillLog(c, homes, LOGSIZE);
  }
}
