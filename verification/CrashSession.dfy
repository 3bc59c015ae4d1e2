/** The file system of kernel/fs.c on the log of kernel/log.c: requests served one after the other, each
    inside begin_op and end_op, with the power failing at any block write. */
module CrashSession {
  import opened Prelude
  import opened Blocks
  import opened LogMachine
  import opened LogCrash
  import opened LogSpace
  import opened CrashFs
  import opened CrashRuns
  import FsState
  import FS = FileSystem

  /** The steps lead from a first boot s0 to s, the operations taking turns. */
  ghost predicate Led(c: Config, sb: FsState.Sb, s0: State, steps: seq<Step>, s: State)
  {
    Init(c, s0) && IsRun(c, s0, steps) && InTurns(c, sb, s0, steps) && Final(c, s0, steps) == s
  }

  lemma {:induction false} TurnsSnoc(c: Config, sb: FsState.Sb, s: State, steps: seq<Step>, e: Step)
    requires IsRun(c, s, steps) && InTurns(c, sb, s, steps)
    requires var t := Final(c, s, steps); Shape(c, t) && Enabled(c, t, e) && InTurn(sb, t, e)
    ensures IsRun(c, s, steps + [e]) && InTurns(c, sb, s, steps + [e])
    ensures Final(c, s, steps + [e]) == Next(c, Final(c, s, steps), e)
    decreases steps
  {
    hide InTurn, LogMachine.Next, LogMachine.Enabled, LogMachine.Shape;
    var steps' := steps + [e];
    if steps == [] {
      assert steps' == [e] && steps'[1..] == [];
    } else {
      assert steps'[1..] == steps[1..] + [e];
      TurnsSnoc(c, sb, Next(c, s, steps[0]), steps[1..], e);
    }
  }

  lemma LedInv(c: Config, sb: FsState.Sb, s0: State, steps: seq<Step>, s: State)
    requires Led(c, sb, s0, steps, s)
    ensures Inv(c, s) && Shape(c, s)
  {
    hide Inv;
    InitInv(c, s0);
    RunInv(c, s0, steps);
    InvHasShape(c, s);
  }

  lemma InvHasShape(c: Config, s: State)
    requires Inv(c, s)
    ensures Shape(c, s)
  {
  }

  lemma LedStep(c: Config, sb: FsState.Sb, s0: State, steps: seq<Step>, s: State, e: Step)
    requires Led(c, sb, s0, steps, s) && Enabled(c, s, e) && InTurn(sb, s, e)
    ensures Shape(c, s) && Led(c, sb, s0, steps + [e], Next(c, s, e))
  {
    hide InTurn, LogMachine.Next, LogMachine.Enabled, LogMachine.Shape, Init, Inv;
    LedInv(c, sb, s0, steps, s);
    TurnsSnoc(c, sb, s0, steps, e);
  }

  // ---------------------------------------------------------------- a whole commit

  /** Nothing is logged that has not been committed, and no operation has begun. */
  ghost predicate Idle(s: State)
  {
    s.phase.Running? && s.active == [] && s.current == [] && s.lh == []
  }

  function CommitLeft(s: State): int
  {
    match s.phase
    case Copying(k) => 2 * |s.lh| + 4 - k
    case Installing(k) => |s.lh| + 2 - k
    case Finishing => 1
    case _ => 0
  }

  function CommitNext(s: State): Step
  {
    match s.phase
    case Copying(k) => if k < |s.lh| then CopyBlock else CommitHead
    case Installing(k) => if k < |s.lh| then InstallBlock else ClearHead
    case _ => FinishCommit
  }

  lemma CommitMoves(c: Config, sb: FsState.Sb, s: State)
    requires Inv(c, s) && (s.phase.Copying? || s.phase.Installing? || s.phase.Finishing?)
    ensures Shape(c, s) && Enabled(c, s, CommitNext(s)) && InTurn(sb, s, CommitNext(s))
    ensures var t := Next(c, s, CommitNext(s));
            && 0 <= CommitLeft(t) < CommitLeft(s) && t.mem == s.mem && t.issued == s.issued && t.active == s.active
            && (t.phase.Copying? || t.phase.Installing? || t.phase.Finishing? || t.phase.Running?)
            && (t.phase.Running? ==> t.active == [] && t.current == [] && t.lh == [])
  {
    hide LogCrash.Durable, LogCrash.GroupsWhole, LogMachine.EncodeHead;
  }

  /** commit runs to its end. */
  lemma {:induction false} CommitRuns(c: Config, sb: FsState.Sb, s0: State, steps: seq<Step>, s: State)
    returns (steps': seq<Step>, t: State)
    requires Led(c, sb, s0, steps, s) && (s.phase.Copying? || s.phase.Installing? || s.phase.Finishing?)
    ensures Led(c, sb, s0, steps', t) && steps <= steps' && Idle(t) && t.mem == s.mem && t.issued == s.issued
    decreases CommitLeft(s)
  {
    hide InTurn, LogMachine.Next, LogMachine.Enabled, LogMachine.Shape, Inv, Led;
    LedInv(c, sb, s0, steps, s);
    CommitMoves(c, sb, s);
    var e := CommitNext(s);
    LedStep(c, sb, s0, steps, s, e);
    var u := Next(c, s, e);
    if u.phase.Running? {
      steps', t := steps + [e], u;
    } else {
      steps', t := CommitRuns(c, sb, s0, steps + [e], u);
    }
  }

  // ---------------------------------------------------------------- the writes of one operation

  lemma {:induction false} NodupBound(a: seq<nat>, all: set<nat>)
    requires Nodup(a) && forall i :: 0 <= i < |a| ==> a[i] in all
    ensures |a| <= |all|
  {
    if a != [] {
      var n := |a| - 1;
      NodupBound(a[..n], all - {a[n]});
    }
  }

  /** The first k updates have been logged, on top of m. */
  ghost predicate Wrote(s: State, op: OpId, us: seq<Update>, k: nat, m: Disk)
  {
    && k <= |us| && s.phase.Running? && s.active == [op] && op in s.issued && s.issued[op] == us[..k]
    && s.current == us[..k] && s.mem == Replay(m, us[..k]) && forall i :: 0 <= i < |s.lh| ==> s.lh[i] in BlocksOf(us)
  }

  /** What Transact says about the updates of an operation. */
  ghost predicate Modest(c: Config, op: OpId, us: seq<Update>)
  {
    && c.size > MAXOPBLOCKS + 1 && |BlocksOf(us)| <= MAXOPBLOCKS
    && forall i :: 0 <= i < |us| ==> us[i].op == op && Home(c, us[i].blockno)
  }

  lemma WriteOne(c: Config, sb: FsState.Sb, s: State, op: OpId, us: seq<Update>, k: nat, m: Disk)
    requires Inv(c, s) && Wrote(s, op, us, k, m) && k < |us| && Modest(c, op, us)
    ensures var e := Write(op, us[k].blockno, us[k].data);
            && Shape(c, s) && Enabled(c, s, e) && InTurn(sb, s, e)
            && Wrote(Next(c, s, e), op, us, k + 1, m)
            && forall x :: x in s.issued && x != op ==> x in Next(c, s, e).issued
  {
    hide LogCrash.Durable, LogCrash.GroupsWhole, LogCrash.Clean, LogCrash.MemIs, LogMachine.HeadN, BlocksOf, Replay;
    NodupBound(s.lh, BlocksOf(us));
    assert us[..k + 1] == us[..k] + [us[k]];
    ReplaySize(m, us[..k]);
    ReplaySnoc(m, us[..k], us[k]);
    InBlocksOf(us, k);
  }

  lemma ReplaySize(m: Disk, us: seq<Update>)
    ensures |Replay(m, us)| == |m|
  {
  }

  lemma InBlocksOf(us: seq<Update>, k: nat)
    requires k < |us|
    ensures us[k].blockno in BlocksOf(us)
  {
    assert us[k] in us;
  }

  lemma {:induction false} WriteAll(c: Config, sb: FsState.Sb, s0: State, steps: seq<Step>, s: State, op: OpId,
                                    us: seq<Update>, k: nat, m: Disk)
    returns (steps': seq<Step>, t: State)
    requires Led(c, sb, s0, steps, s) && Wrote(s, op, us, k, m) && Modest(c, op, us)
    ensures Led(c, sb, s0, steps', t) && steps <= steps' && Wrote(t, op, us, |us|, m) && t.groups == s.groups
    ensures t.base == s.base && t.issued.Keys == s.issued.Keys
    decreases |us| - k
  {
    hide InTurn, LogMachine.Enabled, LogMachine.Shape, Inv, Led, Modest, Replay, BlocksOf;
    if k == |us| {
      steps', t := steps, s;
    } else {
      LedInv(c, sb, s0, steps, s);
      WriteOne(c, sb, s, op, us, k, m);
      var e := Write(op, us[k].blockno, us[k].data);
      LedStep(c, sb, s0, steps, s, e);
      steps', t := WriteAll(c, sb, s0, steps + [e], Next(c, s, e), op, us, k + 1, m);
    }
  }

  // ---------------------------------------------------------------- one request

  /** The cache shows d in the home blocks. */
  ghost predicate Shows(c: Config, s: State, d: Disk)
  {
    |s.mem| == |d| == c.blocks && forall b: nat :: Home(c, b) ==> s.mem[b] == d[b]
  }

  lemma {:induction false} ReplayAgrees(d: Disk, d': Disk, us: seq<Update>, b: nat)
    requires |d| == |d'| && b < |d| && d[b] == d'[b]
    ensures Replay(d, us)[b] == Replay(d', us)[b]
  {
    if us != [] {
      ReplayAgrees(d, d', us[..|us| - 1], b);
    }
  }

  /** What the operation logged keeps the committed file system intact. */
  lemma RightForCommitted(c: Config, sb: FsState.Sb, s: State, m: Disk, us: seq<Update>, d: Disk, d': Disk)
    requires |m| == |d| == c.blocks && Above(c, sb) && d' == Replay(d, us) && Intact(sb, d')
    requires forall b: nat :: Home(c, b) ==> m[b] == d[b]
    ensures Keeps(sb, m, us)
  {
    hide Intact, Replay;
    ReplaySize(m, us);
    ReplaySize(d, us);
    forall b: nat | sb.inodestart <= b < sb.size
      ensures Replay(m, us)[b] == d'[b]
    {
      ReplayAgrees(m, d, us, b);
    }
    IntactSize(sb, d');
    IntactFrame(sb, d', Replay(m, us));
  }

  lemma BeforeOwn(us: seq<Update>, op: OpId)
    requires forall i :: 0 <= i < |us| ==> us[i].op == op
    ensures Before(us, op) == []
  {
  }

  /** end_op after the writes: the operation was right, and commit begins. */
  lemma EndAfter(c: Config, sb: FsState.Sb, s: State, op: OpId, us: seq<Update>, m: Disk)
    requires Inv(c, s) && Wrote(s, op, us, |us|, m) && Modest(c, op, us) && Keeps(sb, Committed(s), us)
    ensures Shape(c, s) && Enabled(c, s, End(op)) && InTurn(sb, s, End(op))
    ensures var t := Next(c, s, End(op));
            && t.mem == s.mem && t.issued == s.issued && t.active == []
            && (t.phase.Copying? || t.phase.Finishing?)
  {
    hide LogCrash.Contents, LogCrash.Durable, LogCrash.GroupsWhole, Keeps, Replay, BlocksOf, LogMachine.DiskOk;
    assert us[..|us|] == us;
    BeforeOwn(us, op);
    NothingReplayed(Committed(s));
    assert Without([op], op) == [];
  }

  lemma NothingReplayed(d: Disk)
    ensures Replay(d, []) == d
  {
  }

  lemma IdleCommitted(c: Config, s: State)
    requires Inv(c, s) && Idle(s)
    ensures |s.mem| == |Committed(s)| == c.blocks && forall b: nat :: Home(c, b) ==> s.mem[b] == Committed(s)[b]
  {
    hide LogCrash.Durable, LogCrash.GroupsWhole, LogCrash.Whole;
  }

  lemma BeginIdle(c: Config, sb: FsState.Sb, s: State, op: OpId, us: seq<Update>)
    requires Inv(c, s) && Idle(s) && op !in s.issued
    ensures Shape(c, s) && Enabled(c, s, Begin(op)) && InTurn(sb, s, Begin(op))
    ensures Wrote(Next(c, s, Begin(op)), op, us, 0, s.mem)
  {
    hide LogCrash.Contents, LogCrash.Durable, LogCrash.GroupsWhole;
    assert us[..0] == [];
  }

  /** One operation from begin_op to the end of its commit. */
  lemma OneRequest(c: Config, sb: FsState.Sb, s0: State, steps: seq<Step>, s: State, op: OpId, us: seq<Update>,
                   d: Disk, d': Disk)
    returns (steps': seq<Step>, t: State)
    requires Led(c, sb, s0, steps, s) && Idle(s) && op !in s.issued && Shows(c, s, d) && Above(c, sb)
    requires Modest(c, op, us) && d' == Replay(d, us) && Intact(sb, d')
    ensures Led(c, sb, s0, steps', t) && steps <= steps' && Idle(t) && Shows(c, t, d')
    ensures t.issued.Keys == s.issued.Keys + {op}
  {
    hide InTurn, LogMachine.Enabled, LogMachine.Shape, Inv, Led, Modest, Replay, BlocksOf, Intact, Home;
    LedInv(c, sb, s0, steps, s);
    BeginIdle(c, sb, s, op, us);
    LedStep(c, sb, s0, steps, s, Begin(op));
    var s1 := Next(c, s, Begin(op));
    var steps2, s2 := WriteAll(c, sb, s0, steps + [Begin(op)], s1, op, us, 0, s.mem);
    LedInv(c, sb, s0, steps2, s2);
    IdleCommitted(c, s);
    RightForCommitted(c, sb, s, Committed(s), us, d, d');
    assert Committed(s2) == Committed(s);
    EndAfter(c, sb, s2, op, us, s.mem);
    LedStep(c, sb, s0, steps2, s2, End(op));
    steps', t := CommitRuns(c, sb, s0, steps2 + [End(op)], Next(c, s2, End(op)));
    assert us[..|us|] == us;
    ShowsReplayed(c, s, us, d, d', t);
  }

  lemma ShowsReplayed(c: Config, s: State, us: seq<Update>, d: Disk, d': Disk, t: State)
    requires Shows(c, s, d) && t.mem == Replay(s.mem, us) && d' == Replay(d, us)
    ensures Shows(c, t, d')
  {
    hide Replay;
    ReplaySize(s.mem, us);
    ReplaySize(d, us);
    forall b: nat | Home(c, b)
      ensures t.mem[b] == d'[b]
    {
      ReplayAgrees(s.mem, d, us, b);
    }
  }

  // ---------------------------------------------------------------- crashes at any step

  lemma {:induction false} TurnsPrefix(c: Config, sb: FsState.Sb, s: State, steps: seq<Step>, k: nat)
    requires IsRun(c, s, steps) && InTurns(c, sb, s, steps) && k <= |steps|
    ensures IsRun(c, s, steps[..k]) && InTurns(c, sb, s, steps[..k])
    decreases steps
  {
    hide InTurn, LogMachine.Next, LogMachine.Enabled, LogMachine.Shape;
    if k == 0 {
      assert steps[..0] == [];
    } else {
      TurnsPrefix(c, sb, Next(c, s, steps[0]), steps[1..], k - 1);
      assert steps[..k][1..] == steps[1..][..k - 1];
    }
  }

  /** Power fails after k steps of the run: recovery gives an intact file system. */
  ghost predicate SafeAt(c: Config, sb: FsState.Sb, s0: State, steps: seq<Step>, k: nat)
  {
    && k <= |steps| && IsRun(c, s0, steps[..k]) && Shape(c, Final(c, s0, steps[..k]))
    && Intact(sb, AfterCrash(c, Final(c, s0, steps[..k]).disk))
  }

  lemma CrashAtStep(c: Config, sb: FsState.Sb, s0: State, steps: seq<Step>, s: State, k: nat)
    requires Led(c, sb, s0, steps, s) && k <= |steps| && Above(c, sb) && Intact(sb, s0.base)
    ensures SafeAt(c, sb, s0, steps, k)
  {
    hide Intact, Init, InTurn, LogMachine.Next, LogMachine.Enabled, LogMachine.Shape;
    TurnsPrefix(c, sb, s0, steps, k);
    var parts := CrashAnywhere(c, sb, s0, steps[..k]);
  }

  /** Operation identifiers from n on are unused. */
  ghost predicate Unused(s: State, n: nat)
  {
    forall op :: op in s.issued ==> op < n
  }

  /** Requests served from any idle point of any such run on, by the code of FileSystem, each in an operation
      of its own: the log runs to its end, the cache then shows what the file system wrote, and whichever
      block write the power fails after, recovery leaves an intact file system. */
  method Session(c: Config, fs: FS.FileSystem, rs: seq<Request>, ghost s0: State, ghost before: seq<Step>,
                 ghost s: State, ghost first: nat)
    returns (panicked: bool, ghost steps: seq<Step>, ghost t: State)
    requires fs.Valid() && (forall i :: 0 <= i < |rs| ==> Sensible(fs.sb, rs[i])) && fs.sb.size < FsState.BPB
    requires Above(c, fs.sb) && c.size > MAXOPBLOCKS + 1 && Intact(fs.sb, s0.base)
    requires Led(c, fs.sb, s0, before, s) && Idle(s) && Shows(c, s, fs.disk) && Unused(s, first)
    modifies fs
    ensures !panicked ==> fs.Valid() && Led(c, fs.sb, s0, steps, t) && before <= steps
    ensures !panicked ==> Idle(t) && Shows(c, t, fs.disk)
    ensures !panicked ==> forall k: nat :: k <= |steps| ==> SafeAt(c, fs.sb, s0, steps, k)
  {
    hide FS.Consistent, Intact, Sensible, BlocksOf, Led, Shows, Replay, SafeAt, Idle;
    var i := 0;
    steps, t, panicked := before, s, false;
    while i < |rs|
      invariant i <= |rs| && !panicked && fs.Valid() && Led(c, fs.sb, s0, steps, t) && before <= steps
      invariant Idle(t) && Shows(c, t, fs.disk) && Unused(t, first + i)
    {
      ghost var d, us, op := fs.disk, [], first + i;
      panicked, us := Transact(fs, op, rs[i]);
      if panicked {
        return;
      }
      ConsistentIsIntact(fs.sb, fs.disk, fs.inodes, fs.owner);
      ModestOf(c, fs.sb, op, us);
      steps, t := OneRequest(c, fs.sb, s0, steps, t, op, us, d, fs.disk);
      i := i + 1;
    }
    forall k: nat | k <= |steps|
      ensures SafeAt(c, fs.sb, s0, steps, k)
    {
      CrashAtStep(c, fs.sb, s0, steps, t, k);
    }
  }

  lemma ModestOf(c: Config, sb: FsState.Sb, op: OpId, us: seq<Update>)
    requires c.size > MAXOPBLOCKS + 1 && |BlocksOf(us)| <= MAXOPBLOCKS && Above(c, sb)
    requires forall u :: u in us ==> u.op == op && sb.inodestart <= u.blockno < sb.size
    ensures Modest(c, op, us)
  {
    forall i | 0 <= i < |us|
      ensures us[i].op == op && Home(c, us[i].blockno)
    {
      assert us[i] in us;
    }
  }
}
