/** Crash atomicity and group commit for the log of kernel/log.c, over whole runs. */
module LogCrash {
  import opened Prelude
  import opened LogMachine

  /** The blocks after every committed group, in order. */
  function Committed(s: State): Disk
  {
    ReplayGroups(s.base, s.groups)
  }

  /** A crash now, followed by recovery, yields exactly the committed groups. */
  ghost predicate Durable(c: Config, s: State)
    requires Shape(c, s)
  {
    forall b: nat :: Home(c, b) ==> Recovered(c, s.disk, b) == Committed(s)[b]
  }

  /** The in-memory header is what stands in the on-disk header. */
  ghost predicate HeadMatches(c: Config, s: State)
    requires Shape(c, s)
  {
    && HeadN(c, s.disk) == |s.lh|
    && forall i :: 0 <= i < |s.lh| ==> HeadBlock(c, s.disk, i) == s.lh[i]
  }

  /** The first k log blocks hold the cached content of the blocks they stand for. */
  ghost predicate LogHolds(c: Config, s: State, k: nat)
    requires Shape(c, s) && k <= |s.lh|
  {
    forall i :: 0 <= i < k ==> s.disk[c.start + 1 + i] == s.mem[s.lh[i]]
  }

  ghost predicate Clean(c: Config, s: State)
    requires Shape(c, s)
  {
    forall b: nat :: Home(c, b) && b !in s.lh ==> s.mem[b] == s.disk[b]
  }

  ghost predicate MemIs(c: Config, s: State, m: Disk)
    requires Shape(c, s) && |m| == c.blocks
  {
    forall b: nat :: Home(c, b) ==> s.mem[b] == m[b]
  }

  ghost predicate LoggedBlocks(s: State)
  {
    && (forall u :: u in s.current ==> u.blockno in s.lh)
    && (s.current == [] <==> s.lh == [])
    && Nodup(s.lh)
  }

  /** What the cache, the log area and the home blocks hold in each phase. */
  ghost predicate Contents(c: Config, s: State)
    requires Shape(c, s)
  {
    match s.phase
    case Running =>
      HeadN(c, s.disk) == 0 && LoggedBlocks(s) && Clean(c, s) && MemIs(c, s, Replay(Committed(s), s.current))
    case Copying(tail) =>
      && HeadN(c, s.disk) == 0 && LoggedBlocks(s) && Clean(c, s)
      && MemIs(c, s, Replay(Committed(s), s.current)) && LogHolds(c, s, tail)
    case Installing(tail) =>
      && s.current == [] && HeadMatches(c, s) && Clean(c, s) && MemIs(c, s, Committed(s)) && LogHolds(c, s, |s.lh|)
      && Nodup(s.lh)
      && (forall i :: 0 <= i < tail ==> s.disk[s.lh[i]] == s.mem[s.lh[i]])
    case Finishing =>
      HeadN(c, s.disk) == 0 && s.lh == [] && s.current == [] && Clean(c, s) && MemIs(c, s, Committed(s))
    case Booting => s.lh == [] && s.current == []
    case Recovering(tail) =>
      && s.current == [] && HeadMatches(c, s)
      && forall b: nat :: Home(c, b) ==> Look(c, s.disk, tail, b) == s.disk[b]
  }

  lemma ShapeOfOperations(c: Config, s: State, e: Step)
    requires Shape(c, s) && Enabled(c, s, e)
    requires e.Begin? || e.Write? || e.End?
    ensures Shape(c, Next(c, s, e))
  {
    if e.End? {
      WithoutShrinks(s.active, e.op);
    }
  }

  lemma ShapeOfBlockWrites(c: Config, s: State, e: Step)
    requires Shape(c, s) && Enabled(c, s, e)
    requires e.CopyBlock? || e.InstallBlock? || e.RecoverBlock?
    ensures Shape(c, Next(c, s, e))
  {
    var tail := s.phase.tail;
    if e.CopyBlock? {
      HeadFrame(c, s.disk, c.start + tail + 1, s.mem[s.lh[tail]]);
    } else {
      HeadFrame(c, s.disk, s.lh[tail], s.disk[c.start + tail + 1]);
    }
  }

  lemma ShapeOfHeadWrites(c: Config, s: State, e: Step)
    requires Shape(c, s) && Enabled(c, s, e)
    requires e.CommitHead? || e.ClearHead? || e.RecoverClear?
    ensures Shape(c, Next(c, s, e))
  {
    HeadWritten(c, s.disk, if e.CommitHead? then s.lh else []);
  }

  lemma ShapePreserved(c: Config, s: State, e: Step)
    requires Shape(c, s) && Enabled(c, s, e)
    ensures Shape(c, Next(c, s, e))
  {
    if e.Begin? || e.Write? || e.End? {
      ShapeOfOperations(c, s, e);
    } else if e.CopyBlock? || e.InstallBlock? || e.RecoverBlock? {
      ShapeOfBlockWrites(c, s, e);
    } else if e.CommitHead? || e.ClearHead? || e.RecoverClear? {
      ShapeOfHeadWrites(c, s, e);
    } else {
      assert e.FinishCommit? || e.Crash? || e.ReadHead?;
    }
  }

  lemma {:induction false} WithoutShrinks(a: seq<OpId>, op: OpId)
    ensures forall x :: x in Without(a, op) ==> x in a
    ensures op in a ==> |Without(a, op)| == |a| - 1
    ensures forall x :: x in a && x != op ==> x in Without(a, op)
    ensures Nodup(a) ==> Nodup(Without(a, op)) && op !in Without(a, op)
  {
    if a != [] {
      assert a == [a[0]] + a[1..];
      assert Nodup(a) ==> Nodup(a[1..]) && a[0] !in a[1..];
      if a[0] != op {
        WithoutShrinks(a[1..], op);
      }
    }
  }

  // ---------------------------------------------------------------- durability

  lemma DurableOfCopy(c: Config, s: State)
    requires Shape(c, s) && Contents(c, s) && Durable(c, s) && Enabled(c, s, CopyBlock)
    ensures Shape(c, Next(c, s, CopyBlock)) && Durable(c, Next(c, s, CopyBlock))
  {
    ShapePreserved(c, s, CopyBlock);
    HeadFrame(c, s.disk, c.start + s.phase.tail + 1, s.mem[s.lh[s.phase.tail]]);
  }

  /** Installing one listed block changes nothing that recovery would produce. */
  lemma InstallKeepsRecovered(c: Config, s: State, tail: nat, b: nat)
    requires Shape(c, s) && HeadMatches(c, s) && tail < |s.lh| && b < c.blocks
    ensures var d := s.disk[s.lh[tail] := s.disk[c.start + tail + 1]];
            DiskOk(c, d) && Recovered(c, d, b) == Recovered(c, s.disk, b)
  {
    var d := s.disk[s.lh[tail] := s.disk[c.start + tail + 1]];
    HeadFrame(c, s.disk, s.lh[tail], s.disk[c.start + tail + 1]);
    if b == s.lh[tail] {
      assert HeadBlock(c, s.disk, tail) == b;
      assert Listed(c, s.disk, HeadN(c, s.disk), b);
    }
    LookFrame(c, s.disk, d, HeadN(c, s.disk), b);
  }

  /** The header write is the commit point: it turns what recovery would produce from the
      committed blocks into the cached blocks, all of them at once. */
  lemma HeadWriteCommits(c: Config, s: State, b: nat)
    requires Shape(c, s) && Contents(c, s) && Enabled(c, s, CommitHead) && Home(c, b)
    ensures var d := s.disk[c.start := EncodeHead(s.disk[c.start], s.lh)];
            DiskOk(c, d) && Recovered(c, d, b) == s.mem[b]
  {
    hide LogMachine.EncodeHead, LogMachine.HeadN, LogMachine.HeadBlock, LogMachine.Next;
    var d := s.disk[c.start := EncodeHead(s.disk[c.start], s.lh)];
    HeadWritten(c, s.disk, s.lh);
    if b in s.lh {
      var i :| 0 <= i < |s.lh| && s.lh[i] == b;
      assert HeadBlock(c, d, i) == b;
    }
    LookGives(c, d, |s.lh|, b, s.mem);
  }

  lemma DurableOfCommitHead(c: Config, s: State)
    requires Shape(c, s) && Contents(c, s) && Durable(c, s) && Enabled(c, s, CommitHead)
    ensures Shape(c, Next(c, s, CommitHead)) && Durable(c, Next(c, s, CommitHead))
  {
    ShapePreserved(c, s, CommitHead);
    ReplayGroupsSnoc(s.base, s.groups, Group(s.ended, s.current));
    forall b: nat | Home(c, b)
      ensures Recovered(c, Next(c, s, CommitHead).disk, b) == Committed(Next(c, s, CommitHead))[b]
    {
      HeadWriteCommits(c, s, b);
    }
  }

  lemma DurableOfInstall(c: Config, s: State, e: Step)
    requires Shape(c, s) && Contents(c, s) && Durable(c, s) && Enabled(c, s, e)
    requires e.InstallBlock? || e.RecoverBlock?
    ensures Shape(c, Next(c, s, e)) && Durable(c, Next(c, s, e))
  {
    ShapePreserved(c, s, e);
    forall b: nat | Home(c, b)
      ensures Recovered(c, Next(c, s, e).disk, b) == Committed(Next(c, s, e))[b]
    {
      InstallKeepsRecovered(c, s, s.phase.tail, b);
    }
  }

  /** Once all entries are installed the home blocks are what recovery would produce. */
  lemma InstalledHome(c: Config, s: State, b: nat)
    requires Shape(c, s) && Contents(c, s) && Home(c, b)
    requires Enabled(c, s, ClearHead) || Enabled(c, s, RecoverClear)
    ensures s.disk[b] == Recovered(c, s.disk, b)
  {
    hide LogMachine.Replay, Committed, LoggedBlocks, LogMachine.Next, LogMachine.EncodeHead;
    if Enabled(c, s, ClearHead) {
      if b in s.lh {
        var i :| 0 <= i < |s.lh| && s.lh[i] == b;
        assert HeadBlock(c, s.disk, i) == b;
      }
      LookGives(c, s.disk, |s.lh|, b, s.mem);
    }
  }

  lemma DurableOfClear(c: Config, s: State, e: Step)
    requires Shape(c, s) && Contents(c, s) && Durable(c, s) && Enabled(c, s, e)
    requires e.ClearHead? || e.RecoverClear?
    ensures Shape(c, Next(c, s, e)) && Durable(c, Next(c, s, e))
  {
    ShapePreserved(c, s, e);
    HeadWritten(c, s.disk, []);
    forall b: nat | Home(c, b)
      ensures Recovered(c, Next(c, s, e).disk, b) == Committed(Next(c, s, e))[b]
    {
      InstalledHome(c, s, b);
    }
  }

  lemma DurableOfOperations(c: Config, s: State, e: Step)
    requires Shape(c, s) && Contents(c, s) && Durable(c, s) && Enabled(c, s, e)
    requires e.Begin? || e.Write? || e.End?
    ensures Shape(c, Next(c, s, e)) && Durable(c, Next(c, s, e))
  {
    ShapePreserved(c, s, e);
    if e.End? {
      ReplayGroupsSnoc(s.base, s.groups, Group(s.ended + {e.op}, []));
    }
  }

  lemma DurablePreserved(c: Config, s: State, e: Step)
    requires Shape(c, s) && Contents(c, s) && Durable(c, s) && Enabled(c, s, e)
    ensures Shape(c, Next(c, s, e)) && Durable(c, Next(c, s, e))
  {
    match e
    case CopyBlock => DurableOfCopy(c, s);
    case CommitHead => DurableOfCommitHead(c, s);
    case InstallBlock => DurableOfInstall(c, s, e);
    case RecoverBlock => DurableOfInstall(c, s, e);
    case ClearHead => DurableOfClear(c, s, e);
    case RecoverClear => DurableOfClear(c, s, e);
    case Begin(_) => DurableOfOperations(c, s, e);
    case Write(_, _, _) => DurableOfOperations(c, s, e);
    case End(_) => DurableOfOperations(c, s, e);
    case FinishCommit => ShapePreserved(c, s, e);
    case Crash => ShapePreserved(c, s, e);
    case ReadHead => ShapePreserved(c, s, e);
  }

  // ---------------------------------------------------------------- contents

  lemma ContentsOfWrite(c: Config, s: State, e: Step)
    requires Shape(c, s) && Contents(c, s) && Enabled(c, s, e) && e.Write? && s.phase.Running?
    ensures Shape(c, Next(c, s, e)) && Contents(c, Next(c, s, e))
  {
    hide LogMachine.HeadN, LogMachine.HeadBlock, LogMachine.Replay, LogMachine.ReplayGroups;
    ShapePreserved(c, s, e);
    ReplaySnoc(Committed(s), s.current, Update(e.op, e.blockno, e.data));
    if e.blockno !in s.lh {
      LoggedOneMore(s.lh, e.blockno);
    }
  }

  lemma LoggedOneMore(lh: seq<nat>, b: nat)
    requires Nodup(lh) && b !in lh
    ensures Nodup(lh + [b]) && forall x :: x in lh + [b] <==> x in lh || x == b
  {
  }

  lemma ContentsOfEnd(c: Config, s: State, e: Step)
    requires Shape(c, s) && Contents(c, s) && Enabled(c, s, e) && e.End?
    ensures Shape(c, Next(c, s, e)) && Contents(c, Next(c, s, e))
  {
    ShapePreserved(c, s, e);
    ReplayGroupsSnoc(s.base, s.groups, Group(s.ended + {e.op}, []));
  }

  lemma ContentsOfCopy(c: Config, s: State)
    requires Shape(c, s) && Contents(c, s) && Enabled(c, s, CopyBlock)
    ensures Shape(c, Next(c, s, CopyBlock)) && Contents(c, Next(c, s, CopyBlock))
  {
    ShapePreserved(c, s, CopyBlock);
    HeadFrame(c, s.disk, c.start + s.phase.tail + 1, s.mem[s.lh[s.phase.tail]]);
  }

  lemma ContentsOfCommitHead(c: Config, s: State)
    requires Shape(c, s) && Contents(c, s) && Enabled(c, s, CommitHead)
    ensures Shape(c, Next(c, s, CommitHead)) && Contents(c, Next(c, s, CommitHead))
  {
    ShapePreserved(c, s, CommitHead);
    HeadWritten(c, s.disk, s.lh);
    ReplayGroupsSnoc(s.base, s.groups, Group(s.ended, s.current));
  }

  lemma ContentsOfInstall(c: Config, s: State)
    requires Shape(c, s) && Contents(c, s) && Enabled(c, s, InstallBlock)
    ensures Shape(c, Next(c, s, InstallBlock)) && Contents(c, Next(c, s, InstallBlock))
  {
    hide LogMachine.HeadN, LogMachine.HeadBlock, LogMachine.Look;
    ShapePreserved(c, s, InstallBlock);
    var tail := s.phase.tail;
    HeadFrame(c, s.disk, s.lh[tail], s.disk[c.start + tail + 1]);
    forall i | 0 <= i < tail + 1
      ensures s.disk[s.lh[tail] := s.disk[c.start + tail + 1]][s.lh[i]] == s.mem[s.lh[i]]
    {
      assert s.disk[c.start + 1 + tail] == s.mem[s.lh[tail]];
    }
  }

  lemma ContentsOfRecover(c: Config, s: State)
    requires Shape(c, s) && Contents(c, s) && Enabled(c, s, RecoverBlock)
    ensures Shape(c, Next(c, s, RecoverBlock)) && Contents(c, Next(c, s, RecoverBlock))
  {
    ShapePreserved(c, s, RecoverBlock);
    var tail := s.phase.tail;
    var d := Next(c, s, RecoverBlock).disk;
    HeadFrame(c, s.disk, s.lh[tail], s.disk[c.start + tail + 1]);
    forall b: nat | Home(c, b)
      ensures Look(c, d, tail + 1, b) == d[b]
    {
      assert HeadBlock(c, d, tail) == s.lh[tail];
      if b != s.lh[tail] {
        LookFrame(c, s.disk, d, tail, b);
      }
    }
  }

  lemma ContentsOfClear(c: Config, s: State, e: Step)
    requires Shape(c, s) && Contents(c, s) && Durable(c, s) && Enabled(c, s, e)
    requires e.ClearHead? || e.RecoverClear?
    ensures Shape(c, Next(c, s, e)) && Contents(c, Next(c, s, e))
  {
    ShapePreserved(c, s, e);
    HeadWritten(c, s.disk, []);
    forall b: nat | Home(c, b)
      ensures s.disk[b] == Committed(s)[b]
    {
      InstalledHome(c, s, b);
    }
  }

  lemma ContentsPreserved(c: Config, s: State, e: Step)
    requires Shape(c, s) && Contents(c, s) && Durable(c, s) && Whole(s) && Enabled(c, s, e)
    ensures Shape(c, Next(c, s, e)) && Contents(c, Next(c, s, e))
  {
    match e
    case Begin(_) => ShapePreserved(c, s, e);
    case Write(_, _, _) => ContentsOfWrite(c, s, e);
    case End(_) => ContentsOfEnd(c, s, e);
    case CopyBlock => ContentsOfCopy(c, s);
    case CommitHead => ContentsOfCommitHead(c, s);
    case InstallBlock => ContentsOfInstall(c, s);
    case ClearHead => ContentsOfClear(c, s, e);
    case FinishCommit => ShapePreserved(c, s, e);
    case Crash => ShapePreserved(c, s, e);
    case ReadHead => ShapePreserved(c, s, e);
    case RecoverBlock => ContentsOfRecover(c, s);
    case RecoverClear => ContentsOfClear(c, s, e);
  }

  // ---------------------------------------------------------------- whole operations

  /** The operations of the group being built are exactly those that are active or have
      ended since the last commit, and nothing is active while a commit runs. */
  ghost predicate Whole(s: State)
  {
    && Nodup(s.active)
    && (Committing(s) ==> s.active == [])
    && (s.ended != {} ==> s.phase.Running? || s.phase.Copying?)
    && (forall op :: op in s.ended ==> op in s.issued && op !in s.active)
    && (forall op :: op in s.active ==> op in s.issued)
    && (forall u :: u in s.current ==> u.op in s.active || u.op in s.ended)
    && (forall op :: op in s.active || op in s.ended ==> s.issued[op] == UpdatesOf(s.current, op))
  }

  /** A group consists of complete operations: none of them can log anything more, and
      everything each of them ever logged is in the group. */
  ghost predicate GroupWhole(s: State, g: Group)
  {
    && (forall op :: op in g.ops ==>
          && op in s.issued && op !in s.active && op !in s.ended
          && s.issued[op] == UpdatesOf(g.updates, op))
    && (forall u :: u in g.updates ==> u.op in g.ops)
  }

  ghost predicate GroupsWhole(s: State)
  {
    && (forall k :: 0 <= k < |s.groups| ==> GroupWhole(s, s.groups[k]))
    && (forall j, k :: 0 <= j < k < |s.groups| ==> s.groups[j].ops !! s.groups[k].ops)
  }

  lemma {:induction false} UpdatesOfNone(us: seq<Update>, op: OpId)
    requires forall u :: u in us ==> u.op != op
    ensures UpdatesOf(us, op) == []
  {
    if us != [] {
      assert us[|us| - 1] in us;
      UpdatesOfNone(us[..|us| - 1], op);
    }
  }

  lemma WholeOfBegin(c: Config, s: State, e: Step)
    requires Shape(c, s) && Whole(s) && GroupsWhole(s) && Enabled(c, s, e) && e.Begin?
    ensures Whole(Next(c, s, e)) && GroupsWhole(Next(c, s, e))
  {
    UpdatesOfNone(s.current, e.op);
  }

  lemma WholeOfWrite(c: Config, s: State, e: Step)
    requires Shape(c, s) && Whole(s) && GroupsWhole(s) && Enabled(c, s, e) && e.Write?
    ensures Whole(Next(c, s, e)) && GroupsWhole(Next(c, s, e))
  {
    var t := Next(c, s, e);
    var u := Update(e.op, e.blockno, e.data);
    forall op | op in t.active || op in t.ended
      ensures t.issued[op] == UpdatesOf(t.current, op)
    {
      UpdatesOfSnoc(s.current, u, op);
    }
    forall k | 0 <= k < |t.groups|
      ensures GroupWhole(t, t.groups[k])
    {
      assert GroupWhole(s, s.groups[k]);
    }
  }

  lemma GroupAdded(s: State, t: State, g: Group)
    requires GroupsWhole(s) && GroupWhole(t, g) && t.groups == s.groups + [g]
    requires t.issued == s.issued
    requires forall op :: op in t.active ==> op in s.active
    requires forall op :: op in t.ended ==> op in s.ended
    requires forall op :: op in g.ops ==> op in s.active || op in s.ended
    ensures GroupsWhole(t)
  {
    forall k | 0 <= k < |s.groups|
      ensures GroupWhole(t, t.groups[k]) && t.groups[k].ops !! g.ops
    {
      assert GroupWhole(s, s.groups[k]);
    }
  }

  lemma WholeOfEnd(c: Config, s: State, e: Step)
    requires Shape(c, s) && Contents(c, s) && Whole(s) && GroupsWhole(s)
    requires Enabled(c, s, e) && e.End?
    ensures Whole(Next(c, s, e)) && GroupsWhole(Next(c, s, e))
  {
    var t := Next(c, s, e);
    WithoutShrinks(s.active, e.op);
    if t.outstanding == 0 && s.lh == [] {
      GroupAdded(s, t, Group(s.ended + {e.op}, []));
    } else {
      forall k | 0 <= k < |t.groups|
        ensures GroupWhole(t, t.groups[k])
      {
        assert GroupWhole(s, s.groups[k]);
      }
    }
  }

  lemma WholeOfOthers(c: Config, s: State, e: Step)
    requires Shape(c, s) && Whole(s) && GroupsWhole(s) && Enabled(c, s, e)
    requires !e.Begin? && !e.Write? && !e.End?
    ensures Whole(Next(c, s, e)) && GroupsWhole(Next(c, s, e))
  {
    var t := Next(c, s, e);
    if e.CommitHead? {
      GroupAdded(s, t, Group(s.ended, s.current));
    } else {
      forall k | 0 <= k < |t.groups|
        ensures GroupWhole(t, t.groups[k])
      {
        assert GroupWhole(s, s.groups[k]);
      }
    }
  }

  // ---------------------------------------------------------------- runs

  ghost predicate Inv(c: Config, s: State)
  {
    Shape(c, s) && Contents(c, s) && Durable(c, s) && Whole(s) && GroupsWhole(s)
  }

  /** First boot: any disk whose header recovery can act on, nothing in memory yet. */
  ghost predicate Init(c: Config, s: State)
  {
    && DiskOk(c, s.disk)
    && s.phase == Booting && s.lh == [] && s.outstanding == 0
    && |s.mem| == |s.base| == c.blocks
    && (forall b: nat :: Home(c, b) ==> s.base[b] == Recovered(c, s.disk, b))
    && s.active == [] && s.ended == {} && s.current == []
    && s.issued == map[] && s.appended == map[] && s.groups == []
  }

  lemma InitInv(c: Config, s: State)
    requires Init(c, s)
    ensures Inv(c, s)
  {
  }

  lemma InvPreserved(c: Config, s: State, e: Step)
    requires Inv(c, s) && Enabled(c, s, e)
    ensures Inv(c, Next(c, s, e))
  {
    ContentsPreserved(c, s, e);
    DurablePreserved(c, s, e);
    match e
    case Begin(_) => WholeOfBegin(c, s, e);
    case Write(_, _, _) => WholeOfWrite(c, s, e);
    case End(_) => WholeOfEnd(c, s, e);
    case _ => WholeOfOthers(c, s, e);
  }

  ghost predicate IsRun(c: Config, s: State, steps: seq<Step>)
    decreases steps
  {
    steps == [] ||
    (Shape(c, s) && Enabled(c, s, steps[0]) && IsRun(c, Next(c, s, steps[0]), steps[1..]))
  }

  ghost function Final(c: Config, s: State, steps: seq<Step>): State
    requires IsRun(c, s, steps)
    decreases steps
  {
    if steps == [] then s else Final(c, Next(c, s, steps[0]), steps[1..])
  }

  lemma {:induction false} RunInv(c: Config, s: State, steps: seq<Step>)
    requires Inv(c, s) && IsRun(c, s, steps)
    ensures Inv(c, Final(c, s, steps))
    decreases steps
  {
    hide Inv, LogMachine.Next, LogMachine.Enabled, LogMachine.Shape;
    if steps != [] {
      InvPreserved(c, s, steps[0]);
      RunInv(c, Next(c, s, steps[0]), steps[1..]);
    }
  }

  lemma {:induction false} RunAppend(c: Config, s: State, a: seq<Step>, b: seq<Step>)
    requires IsRun(c, s, a) && IsRun(c, Final(c, s, a), b)
    ensures IsRun(c, s, a + b) && Final(c, s, a + b) == Final(c, Final(c, s, a), b)
    decreases a
  {
    hide LogMachine.Next, LogMachine.Enabled, LogMachine.Shape;
    if a == [] {
      assert a + b == b;
    } else {
      RunAppend(c, Next(c, s, a[0]), a[1..], b);
      assert (a + b)[1..] == a[1..] + b;
    }
  }

  /** Group commit over whole runs. After any run from boot, with any number of crashes:
      a crash now plus recovery yields exactly the committed groups in order; each group
      holds every update of each of its operations and of no other; no operation is in two
      groups; and the panic in end_op cannot be reached by an operation in progress. */
  lemma GroupCommit(c: Config, s0: State, steps: seq<Step>)
    requires Init(c, s0) && IsRun(c, s0, steps)
    ensures var s := Final(c, s0, steps);
            && Shape(c, s)
            && (forall b: nat :: Home(c, b) ==>
                  Recovered(c, s.disk, b) == ReplayGroups(s.base, s.groups)[b])
            && GroupsWhole(s)
            && (forall op :: op in s.active ==> !EndPanics(s))
  {
    InitInv(c, s0);
    RunInv(c, s0, steps);
  }

  /** Committed groups are never lost or reordered, whatever follows, crashes included. */
  lemma {:induction false} GroupsArePrefix(c: Config, s: State, steps: seq<Step>)
    requires IsRun(c, s, steps)
    ensures s.groups <= Final(c, s, steps).groups && s.base == Final(c, s, steps).base
    decreases steps
  {
    if steps != [] {
      GroupsArePrefix(c, Next(c, s, steps[0]), steps[1..]);
    }
  }

  // ---------------------------------------------------------------- crash atomicity

  predicate CommitStep(e: Step)
  {
    e.CopyBlock? || e.CommitHead? || e.InstallBlock? || e.ClearHead?
  }

  predicate RecoveryStep(e: Step)
  {
    e.Crash? || e.ReadHead? || e.RecoverBlock? || e.RecoverClear?
  }

  /** Rebooting, or up again with nothing written since. */
  ghost predicate Restarting(s: State)
  {
    s.phase.Booting? || s.phase.Recovering? || (s.phase.Running? && s.current == [])
  }

  lemma RestartingKeeps(c: Config, s: State, e: Step)
    requires Inv(c, s) && Enabled(c, s, e) && Restarting(s) && RecoveryStep(e)
    ensures var t := Next(c, s, e); Restarting(t) && t.groups == s.groups && t.base == s.base
  {
    hide Durable, GroupsWhole;
  }

  lemma RestartDone(c: Config, s: State)
    requires Inv(c, s) && s.phase.Running? && s.current == []
    ensures HeadN(c, s.disk) == 0 && forall b: nat :: Home(c, b) ==> s.disk[b] == s.mem[b] == Committed(s)[b]
  {
  }

  /** Recovery, restarted any number of times, ends with the committed blocks at home, in
      the cache's view and on the disk, with the log empty. */
  lemma {:induction false} RecoveryYieldsCommitted(c: Config, s: State, steps: seq<Step>)
    requires Inv(c, s) && IsRun(c, s, steps) && Restarting(s)
    requires forall e :: e in steps ==> RecoveryStep(e)
    requires Final(c, s, steps).phase.Running?
    ensures var t := Final(c, s, steps);
            && Inv(c, t) && t.groups == s.groups && t.base == s.base && HeadN(c, t.disk) == 0
            && forall b: nat :: Home(c, b) ==> t.disk[b] == t.mem[b] == Committed(s)[b]
    decreases steps
  {
    hide Inv, LogMachine.Next, LogMachine.Enabled, LogMachine.Shape, LogMachine.HeadN, LogMachine.Home;
    if steps == [] {
      RestartDone(c, s);
    } else {
      assert steps[0] in steps;
      InvPreserved(c, s, steps[0]);
      RestartingKeeps(c, s, steps[0]);
      RecoveryYieldsCommitted(c, Next(c, s, steps[0]), steps[1..]);
    }
  }

  /** The committing run changes what is committed exactly by its header write. */
  lemma {:induction false} CommitRunGroups(c: Config, s: State, steps: seq<Step>)
    requires Inv(c, s) && (s.phase.Copying? || s.phase.Installing? || s.phase.Finishing?)
    requires IsRun(c, s, steps) && forall e :: e in steps ==> CommitStep(e)
    ensures var t := Final(c, s, steps);
            && Inv(c, t) && t.base == s.base
            && t.groups == (if CommitHead in steps then s.groups + [Group(s.ended, s.current)] else s.groups)
            && (CommitHead in steps ==> s.phase.Copying?)
    decreases steps
  {
    hide Contents, Durable, Whole, GroupsWhole, LogMachine.HeadN, LogMachine.HeadBlock, LogMachine.EncodeHead;
    if steps != [] {
      var e := steps[0];
      assert e in steps;
      InvPreserved(c, s, e);
      assert steps == [e] + steps[1..];
      CommitRunGroups(c, Next(c, s, e), steps[1..]);
    }
  }

  /** Crash atomicity: cut commit short after any number of its block writes, crash, and run
      recovery to its end through any number of further crashes. The home blocks are then all
      new if the header write had been made and all old otherwise. */
  lemma CrashAtomicity(c: Config, s: State, writes: seq<Step>, recovery: seq<Step>)
    requires Inv(c, s) && s.phase == Copying(0)
    requires IsRun(c, s, writes) && forall e :: e in writes ==> CommitStep(e)
    requires IsRun(c, Final(c, s, writes), [Crash] + recovery)
    requires forall e :: e in recovery ==> RecoveryStep(e)
    requires Final(c, Final(c, s, writes), [Crash] + recovery).phase.Running?
    ensures var t := Final(c, Final(c, s, writes), [Crash] + recovery);
            Shape(c, t) && forall b: nat :: Home(c, b) ==>
              t.disk[b] == if CommitHead in writes then s.mem[b] else Committed(s)[b]
  {
    CommitRunGroups(c, s, writes);
    var m := Final(c, s, writes);
    ReplayGroupsSnoc(s.base, s.groups, Group(s.ended, s.current));
    assert ([Crash] + recovery)[1..] == recovery;
    InvPreserved(c, m, Crash);
    RecoveryYieldsCommitted(c, Next(c, m, Crash), recovery);
  }

  // ---------------------------------------------------------------- recovery terminates

  function Repeat(e: Step, n: nat): seq<Step>
  {
    if n == 0 then [] else Repeat(e, n - 1) + [e]
  }

  lemma {:induction false} RepeatFirst(e: Step, n: nat)
    requires n > 0
    ensures Repeat(e, n) == [e] + Repeat(e, n - 1)
  {
    if n > 1 {
      RepeatFirst(e, n - 1);
    }
  }

  lemma {:induction false} RecoverBlocksRun(c: Config, s: State, k: nat)
    requires Shape(c, s) && s.phase.Recovering? && s.phase.tail + k == |s.lh|
    ensures IsRun(c, s, Repeat(RecoverBlock, k))
    ensures var t := Final(c, s, Repeat(RecoverBlock, k));
            Shape(c, t) && Enabled(c, t, RecoverClear)
    decreases k
  {
    if k > 0 {
      ShapePreserved(c, s, RecoverBlock);
      RecoverBlocksRun(c, Next(c, s, RecoverBlock), k - 1);
      RepeatFirst(RecoverBlock, k);
    }
  }

  lemma RunOne(c: Config, s: State, e: Step)
    requires Shape(c, s) && Enabled(c, s, e)
    ensures IsRun(c, s, [e]) && Final(c, s, [e]) == Next(c, s, e)
  {
  }

  lemma RecoveryStarts(c: Config, s: State)
    requires Shape(c, s)
    ensures IsRun(c, s, [Crash] + [ReadHead])
    ensures var t := Final(c, s, [Crash] + [ReadHead]);
            Shape(c, t) && t.phase == Recovering(0) && |t.lh| == HeadN(c, s.disk)
  {
    ShapePreserved(c, s, Crash);
    var s1 := Next(c, s, Crash);
    ShapePreserved(c, s1, ReadHead);
    RunOne(c, s, Crash);
    RunOne(c, s1, ReadHead);
    RunAppend(c, s, [Crash], [ReadHead]);
  }

  /** From a crash at any reachable point, recovery runs to its end without blocking, in
      one header read, one write per logged block and one header write. */
  lemma RecoveryCompletes(c: Config, s: State)
    requires Inv(c, s)
    ensures var steps := [Crash] + [ReadHead] + Repeat(RecoverBlock, HeadN(c, s.disk)) + [RecoverClear];
            IsRun(c, s, steps) && Final(c, s, steps).phase.Running?
  {
    var n := HeadN(c, s.disk);
    var start := [Crash] + [ReadHead];
    RecoveryStarts(c, s);
    var s2 := Final(c, s, start);
    RecoverBlocksRun(c, s2, n);
    var s3 := Final(c, s2, Repeat(RecoverBlock, n));
    RunAppend(c, s, start, Repeat(RecoverBlock, n));
    RunOne(c, s3, RecoverClear);
    RunAppend(c, s, start + Repeat(RecoverBlock, n), [RecoverClear]);
  }

  // ---------------------------------------------------------------- traces

  ghost predicate IsTrace(c: Config, tr: seq<State>, steps: seq<Step>)
  {
    && |tr| == |steps| + 1
    && forall i {:trigger steps[i]} :: 0 <= i < |steps| ==>
         Shape(c, tr[i]) && Enabled(c, tr[i], steps[i]) && tr[i + 1] == Next(c, tr[i], steps[i])
  }

  /** The steps lead from s to t. */
  ghost predicate Performs(c: Config, s: State, steps: seq<Step>, t: State)
  {
    exists tr :: IsTrace(c, tr, steps) && tr[0] == s && tr[|steps|] == t
  }

  lemma PerformsNothing(c: Config, s: State)
    ensures Performs(c, s, [], s)
  {
    assert IsTrace(c, [s], []);
  }

  lemma PerformsStep(c: Config, s: State, steps: seq<Step>, t: State, e: Step)
    requires Performs(c, s, steps, t) && Shape(c, t) && Enabled(c, t, e)
    ensures Performs(c, s, steps + [e], Next(c, t, e))
  {
    hide LogMachine.Next, LogMachine.Enabled, LogMachine.Shape;
    var tr :| IsTrace(c, tr, steps) && tr[0] == s && tr[|steps|] == t;
    var tr' := tr + [Next(c, t, e)];
    forall i | 0 <= i < |steps| + 1
      ensures Shape(c, tr'[i]) && Enabled(c, tr'[i], (steps + [e])[i])
      ensures tr'[i + 1] == Next(c, tr'[i], (steps + [e])[i])
    {
      if i < |steps| {
        assert (steps + [e])[i] == steps[i];
      }
    }
    assert IsTrace(c, tr', steps + [e]);
  }

  lemma TraceConcat(c: Config, p: seq<State>, a: seq<Step>, q: seq<State>, b: seq<Step>)
    requires IsTrace(c, p, a) && IsTrace(c, q, b) && p[|a|] == q[0]
    ensures IsTrace(c, p + q[1..], a + b)
  {
    var r := p + q[1..];
    forall i | 0 <= i < |a + b|
      ensures Shape(c, r[i]) && Enabled(c, r[i], (a + b)[i]) && r[i + 1] == Next(c, r[i], (a + b)[i])
    {
      if i < |a| {
        assert (a + b)[i] == a[i] && r[i] == p[i] && r[i + 1] == p[i + 1];
      } else {
        assert (a + b)[i] == b[i - |a|] && r[i] == q[i - |a|] && r[i + 1] == q[i - |a| + 1];
      }
    }
  }

  lemma PerformsAppend(c: Config, s: State, a: seq<Step>, t: State, b: seq<Step>, u: State)
    requires Performs(c, s, a, t) && Performs(c, t, b, u)
    ensures Performs(c, s, a + b, u)
  {
    hide LogMachine.Next, LogMachine.Enabled, LogMachine.Shape;
    var p :| IsTrace(c, p, a) && p[0] == s && p[|a|] == t;
    var q :| IsTrace(c, q, b) && q[0] == t && q[|b|] == u;
    TraceConcat(c, p, a, q, b);
  }

  lemma {:induction false} TraceIsRun(c: Config, tr: seq<State>, steps: seq<Step>)
    requires IsTrace(c, tr, steps)
    ensures IsRun(c, tr[0], steps) && Final(c, tr[0], steps) == tr[|steps|]
    decreases steps
  {
    if steps != [] {
      assert steps[0] in steps;
      forall i | 0 <= i < |steps[1..]|
        ensures Shape(c, tr[1..][i]) && Enabled(c, tr[1..][i], steps[1..][i])
        ensures tr[1..][i + 1] == Next(c, tr[1..][i], steps[1..][i])
      {
        assert steps[1..][i] == steps[i + 1];
      }
      TraceIsRun(c, tr[1..], steps[1..]);
    }
  }

  lemma PerformsIsRun(c: Config, s: State, steps: seq<Step>, t: State)
    requires Performs(c, s, steps, t)
    ensures IsRun(c, s, steps) && Final(c, s, steps) == t
  {
    var tr :| IsTrace(c, tr, steps) && tr[0] == s && tr[|steps|] == t;
    TraceIsRun(c, tr, steps);
  }

  /** s is reachable from a first boot. */
  ghost predicate Reached(c: Config, s: State)
  {
    exists s0, steps :: Init(c, s0) && Performs(c, s0, steps, s)
  }

  lemma ReachedInit(c: Config, s: State)
    requires Init(c, s)
    ensures Reached(c, s)
  {
    PerformsNothing(c, s);
  }

  lemma ReachedInv(c: Config, s: State)
    requires Reached(c, s)
    ensures Inv(c, s)
  {
    var s0, steps :| Init(c, s0) && Performs(c, s0, steps, s);
    PerformsIsRun(c, s0, steps, s);
    InitInv(c, s0);
    RunInv(c, s0, steps);
  }

  lemma ReachedShape(c: Config, s: State)
    requires Reached(c, s)
    ensures Shape(c, s)
  {
    ReachedInv(c, s);
  }

  lemma ReachedStep(c: Config, s: State, e: Step)
    requires Reached(c, s) && Enabled(c, s, e)
    ensures Shape(c, s) && Reached(c, Next(c, s, e))
  {
    ReachedShape(c, s);
    var s0, steps :| Init(c, s0) && Performs(c, s0, steps, s);
    PerformsStep(c, s0, steps, s, e);
  }

  lemma ReachedAndPerforms(c: Config, from: State, steps: seq<Step>, s: State, e: Step, t: State)
    requires Reached(c, s) && Performs(c, from, steps, s) && Enabled(c, s, e)
    requires Shape(c, s) ==> t == Next(c, s, e)
    ensures Reached(c, t) && Performs(c, from, steps + [e], t)
  {
    ReachedStep(c, s, e);
    PerformsStep(c, from, steps, s, e);
  }

  lemma ReachedBounds(c: Config, s: State)
    requires Reached(c, s)
    ensures |s.disk| == |s.mem| == c.blocks && InLog(c, s.lh)
  {
    ReachedShape(c, s);
  }

  lemma ActiveMeansRunning(c: Config, s: State)
    requires Reached(c, s) && s.active != []
    ensures s.phase.Running?
  {
    ReachedInv(c, s);
  }

  // ---------------------------------------------------------------- whole commits

  /** A header list that fits the log area and names blocks of the device. */
  predicate InLog(c: Config, lh: seq<nat>)
  {
    && |lh| <= LOGSIZE && c.start + |lh| < c.blocks
    && forall i :: 0 <= i < |lh| ==> lh[i] < c.blocks
  }

  /** The disk after the first k block writes of write_log. */
  function CopyAll(c: Config, d: Disk, mem: Disk, lh: seq<nat>, k: nat): (r: Disk)
    requires InLog(c, lh) && k <= |lh| && |d| == |mem| == c.blocks
    ensures |r| == |d|
  {
    if k == 0 then d else CopyAll(c, d, mem, lh, k - 1)[c.start + k := mem[lh[k - 1]]]
  }

  /** The disk after the first k block writes of install_trans. */
  function InstallAll(c: Config, d: Disk, lh: seq<nat>, k: nat): (r: Disk)
    requires InLog(c, lh) && k <= |lh| && |d| == c.blocks
    ensures |r| == |d|
  {
    if k == 0 then d
    else
      var r := InstallAll(c, d, lh, k - 1);
      r[lh[k - 1] := r[c.start + k]]
  }

  function InstallPhase(recovering: bool, tail: nat): Phase
  {
    if recovering then Recovering(tail) else Installing(tail)
  }

  function InstallStep(recovering: bool): Step
  {
    if recovering then RecoverBlock else InstallBlock
  }

  /** The block writes of one commit, in order. */
  function CommitSteps(n: nat): seq<Step>
  {
    Repeat(CopyBlock, n) + [CommitHead] + Repeat(InstallBlock, n) + [ClearHead]
  }

  function WithHead(c: Config, d: Disk, lh: seq<nat>): (r: Disk)
    requires c.start < |d| && |lh| <= LOGSIZE
    ensures |r| == |d|
  {
    d[c.start := EncodeHead(d[c.start], lh)]
  }

  /** When a commit has finished, every home block holds what the cache holds. */
  lemma FinishingHome(c: Config, s: State)
    requires Reached(c, s) && s.phase == Finishing
    ensures |s.disk| == |s.mem| == c.blocks
    ensures forall b: nat :: Home(c, b) ==> s.disk[b] == s.mem[b]
  {
    ReachedInv(c, s);
  }
}
