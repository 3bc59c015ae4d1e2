/** kernel/log.c in its own form: one object whose methods update the in-memory header,
    the counters and the disk in place. The ghost field `s` is the state of the step system
    in LogMachine, and moves on with every single block write, so that everything proved there
    about runs and crashes is about this code; `trace` records the disk after every write.
 */
module Log {
  import opened Blocks
  import opened LogMachine
  import opened LogCrash

  // ---------------------------------------------------------------- what a crash would leave

  /** Recovery from disk d gives m in the home blocks. */
  ghost predicate Gives(c: Config, d: Disk, m: Disk)
  {
    DiskOk(c, d) && |m| == c.blocks && forall b: nat :: Home(c, b) ==> Recovered(c, d, b) == m[b]
  }

  /** Recovery from d and from d' gives the same home blocks. */
  ghost predicate Keeps(c: Config, d: Disk, d': Disk)
  {
    DiskOk(c, d) && DiskOk(c, d') && forall b: nat :: Home(c, b) ==> Recovered(c, d', b) == Recovered(c, d, b)
  }

  ghost predicate Keeping(c: Config, d: Disk, ds: seq<Disk>)
  {
    forall i :: 0 <= i < |ds| ==> Keeps(c, d, ds[i])
  }

  /** After the first k writes, and not before, recovery gives m; until then it gives what it would have
      given from d. */
  ghost predicate AtomicAt(c: Config, d: Disk, m: Disk, ds: seq<Disk>, k: nat)
  {
    && k <= |ds| && (forall i :: 0 <= i < k ==> Keeps(c, d, ds[i]))
    && forall i :: k <= i < |ds| ==> Gives(c, ds[i], m)
  }

  ghost predicate Atomic(c: Config, d: Disk, m: Disk, ds: seq<Disk>)
  {
    exists k :: AtomicAt(c, d, m, ds, k)
  }

  lemma ReachedGives(c: Config, s: State)
    requires Reached(c, s)
    ensures Gives(c, s.disk, Committed(s))
  {
    ReachedInv(c, s);
  }

  lemma SameCommitted(c: Config, s: State, t: State)
    requires Reached(c, s) && Reached(c, t) && t.base == s.base && t.groups == s.groups
    ensures Keeps(c, s.disk, t.disk)
  {
    hide Reached;
    ReachedGives(c, s);
    ReachedGives(c, t);
  }

  /** Once the header is written, recovery gives what the cache holds. */
  lemma CommitPoint(c: Config, s: State)
    requires Reached(c, s) && (s.phase.Installing? || s.phase.Finishing?)
    ensures Gives(c, s.disk, s.mem)
  {
    hide LogCrash.Whole, LogCrash.GroupsWhole;
    ReachedInv(c, s);
  }

  lemma OneMoreKept(c: Config, d: Disk, t0: seq<Disk>, t: seq<Disk>, d': Disk, t': seq<Disk>)
    requires t0 <= t && Keeping(c, d, t[|t0|..]) && t' == t + [d'] && Keeps(c, d, d')
    ensures t0 <= t' && Keeping(c, d, t'[|t0|..])
  {
    hide Keeps;
    assert t'[|t0|..] == t[|t0|..] + [d'];
  }

  lemma KeptGives(c: Config, d: Disk, d': Disk, m: Disk)
    requires Gives(c, d, m) && Keeps(c, d, d')
    ensures Gives(c, d', m)
  {
  }

  /** The writes of commit: the log blocks, the header, the home blocks, the header. */
  lemma AtomicTrace(c: Config, d: Disk, m: Disk, t0: seq<Disk>, t1: seq<Disk>, t2: seq<Disk>, t3: seq<Disk>,
                    t4: seq<Disk>)
    requires t0 <= t1 <= t2 <= t3 <= t4 && |t2| == |t1| + 1 && |t4| == |t3| + 1
    requires Keeping(c, d, t1[|t0|..]) && Gives(c, t2[|t1|], m)
    requires Keeping(c, t2[|t1|], t3[|t2|..]) && Gives(c, t4[|t3|], m)
    ensures t0 <= t4 && Atomic(c, d, m, t4[|t0|..])
  {
    hide Keeps, Gives;
    var ds, k := t4[|t0|..], |t1| - |t0|;
    forall i | 0 <= i < k
      ensures Keeps(c, d, ds[i])
    {
      assert ds[i] == t1[|t0|..][i];
    }
    forall i | k <= i < |ds|
      ensures Gives(c, ds[i], m)
    {
      if i == k {
        assert ds[i] == t2[|t1|];
      } else if i < |t3| - |t0| {
        assert ds[i] == t3[|t2|..][i - k - 1];
        KeptGives(c, t2[|t1|], ds[i], m);
      }
    }
    assert AtomicAt(c, d, m, ds, k);
  }

  lemma NoWrites(c: Config, d: Disk, m: Disk)
    ensures Atomic(c, d, m, [])
  {
    assert AtomicAt(c, d, m, [], 0);
  }

  lemma FinishingIsEmpty(c: Config, s: State)
    requires Reached(c, s) && s.phase.Finishing?
    ensures s.lh == []
  {
    ReachedInv(c, s);
  }

  lemma ReachedHead(c: Config, s: State)
    requires Reached(c, s)
    ensures DiskOk(c, s.disk) && Shape(c, s) && c.start < |s.disk| && HeadN(c, s.disk) <= LOGSIZE
  {
    ReachedInv(c, s);
  }

  /** What recovery leaves is what it promised from the disk it found. */
  lemma RecoveredHome(c: Config, s: State, t: State)
    requires Reached(c, s) && Reached(c, t) && t.base == s.base && t.groups == s.groups
    requires s.phase == Booting && t.phase == Running && t.current == s.current
    ensures DiskOk(c, s.disk) && |t.disk| == c.blocks
    ensures forall b: nat :: Home(c, b) ==> t.disk[b] == Recovered(c, s.disk, b)
  {
    hide Reached;
    ReachedGives(c, s);
    ReachedInv(c, s);
    ReachedInv(c, t);
    RestartDone(c, t);
  }

  class Log {
    const c: Config
    var disk: Disk
    var mem: Disk               // block contents as the buffer cache presents them
    var lh: seq<nat>            // log.lh.block[..log.lh.n]
    var outstanding: nat
    var committing: bool
    var waiting: bool           // some process sleeps in begin_op
    ghost var s: State
    ghost var trace: seq<Disk>  // the disk after each block write so far

    /** Disk, log state and history agree; the in-memory header may be about to be written. */
    ghost predicate Tracks()
      reads this
    {
      s.disk == disk && s.outstanding == outstanding && Reached(c, s)
    }

    ghost predicate Valid()
      reads this
    {
      && s.disk == disk && s.mem == mem && s.lh == lh && s.outstanding == outstanding
      && (committing <==> Committing(s))
      && Reached(c, s)
    }

    /** No process sleeps in begin_op while it could be admitted. */
    ghost predicate WaitersServed()
      reads this
    {
      waiting ==> committing || |lh| + (outstanding + 1) * MAXOPBLOCKS > LOGSIZE
    }

    /** initlog at boot: whatever disk the last crash left, the object starts with an empty
        log and with every home block as recovery must produce it. */
    constructor (c: Config, d: Disk)
      requires DiskOk(c, d)
      ensures Valid() && this.c == c && WaitersServed()
      ensures s.phase == Booting && disk == d
      ensures |s.base| == c.blocks && forall b: nat :: Home(c, b) ==> s.base[b] == Recovered(c, d, b)
    {
      this.c := c;
      disk := d;
      mem := d;
      lh := [];
      outstanding := 0;
      committing := true;
      waiting := false;
      s := State(d, Booting, [], 0, d,
                 seq(c.blocks, b requires 0 <= b < c.blocks => Recovered(c, d, b)),
                 [], {}, [], map[], map[], []);
      trace := [];
      new;
      ReachedInit(c, s);
    }

    /** One pass of the loop in begin_op: admitted, or the caller sleeps and tries again. */
    method BeginOp(ghost op: OpId) returns (admitted: bool)
      requires Valid() && op !in s.issued
      modifies this
      ensures trace == old(trace)
      ensures Valid()
      ensures admitted <==> !old(committing) && |old(lh)| + (old(outstanding) + 1) * MAXOPBLOCKS <= LOGSIZE
      ensures admitted ==> Shape(c, old(s)) && Enabled(c, old(s), Begin(op)) && s == Next(c, old(s), Begin(op))
      ensures !admitted ==> s == old(s) && waiting
      ensures old(WaitersServed()) ==> WaitersServed()
    {
      if committing {
        waiting := true;
        return false;
      } else if |lh| + (outstanding + 1) * MAXOPBLOCKS > LOGSIZE {
        waiting := true;
        return false;
      }
      ReachedStep(c, s, Begin(op));
      outstanding := outstanding + 1;
      s := Next(c, s, Begin(op));
      return true;
    }

    /** The absorption scan of log_write. */
    method FindLogged(b: nat) returns (i: nat)
      ensures if b in lh then i < |lh| && lh[i] == b && lh[i := b] == lh else i == |lh|
    {
      i := 0;
      while i < |lh| && lh[i] != b
        invariant i <= |lh| && forall j :: 0 <= j < i ==> lh[j] != b
      {
        i := i + 1;
      }
    }

    /** The caller has put `data` into the buffer of block b and logs it. A panic stops the
        kernel before anything changes. */
    method LogWrite(ghost op: OpId, b: nat, data: Block) returns (panicked: bool)
      requires Valid() && op in s.active && Home(c, b)
      modifies this
      ensures trace == old(trace)
      ensures Valid()
      ensures panicked <==> WritePanics(c, old(s))
      ensures panicked ==> s == old(s)
      ensures !panicked ==> && Shape(c, old(s)) && Enabled(c, old(s), Write(op, b, data))
                            && s == Next(c, old(s), Write(op, b, data))
      ensures old(WaitersServed()) ==> WaitersServed()
    {
      hide Reached;
      if |lh| >= LOGSIZE || |lh| >= c.size - 1 {
        return true;
      }
      if outstanding < 1 {
        return true;
      }
      ReachedStep(c, s, Write(op, b, data));
      ActiveMeansRunning(c, s);
      var i := FindLogged(b);
      lh := if i == |lh| then lh + [b] else lh[i := b];
      mem := mem[b := data];
      s := Next(c, s, Write(op, b, data));
      return false;
    }

    /** Up to the release of the lock; doCommit tells the caller to run Commit next. */
    method EndOp(ghost op: OpId) returns (panicked: bool, doCommit: bool)
      requires Valid() && op in s.active
      modifies this
      ensures trace == old(trace)
      ensures Valid() && !panicked
      ensures doCommit <==> old(outstanding) == 1
      ensures && Shape(c, old(s)) && Enabled(c, old(s), End(op))
              && s == Next(c, old(s), End(op))
      ensures doCommit ==> committing && (if |lh| > 0 then s.phase == Copying(0) else s.phase == Finishing)
      ensures WaitersServed()
    {
      ActiveMeansRunning(c, s);
      ReachedStep(c, s, End(op));
      doCommit := false;
      outstanding := outstanding - 1;
      if committing {
        return true, false;
      }
      if outstanding == 0 {
        doCommit := true;
        committing := true;
      } else {
        waiting := false;
      }
      s := Next(c, s, End(op));
      return false, doCommit;
    }

    /** bwrite: the one place where the disk changes. */
    method Bwrite(b: nat, data: Block)
      requires b < |disk|
      modifies this`disk, this`trace
      ensures disk == old(disk)[b := data] && trace == old(trace) + [disk]
    {
      disk := disk[b := data];
      trace := trace + [disk];
    }

    /** write_head: the header block with n and the first n entries overwritten, as step e. */
    method WriteHead(ghost e: Step)
      requires Tracks() && |lh| <= LOGSIZE && c.start < |disk| && Enabled(c, s, e)
      requires (e.CommitHead? && lh == s.lh) || ((e.ClearHead? || e.RecoverClear?) && lh == [])
      modifies this`disk, this`s, this`trace
      ensures Tracks() && disk == WithHead(c, old(disk), lh) && trace == old(trace) + [disk]
      ensures Shape(c, old(s)) && s == Next(c, old(s), e)
    {
      hide Reached;
      ReachedStep(c, s, e);
      var hb := PutWord(disk[c.start], 0, |lh|);
      for i := 0 to |lh|
        invariant hb == PutEntries(PutWord(disk[c.start], 0, |lh|), lh, i)
      {
        hb := PutWord(hb, 1 + i, lh[i]);
      }
      Bwrite(c.start, hb);
      s := Next(c, s, e);
    }

    /** write_log: copies every logged block from the cache to its place in the log. None of its writes
        changes what a crash would leave. */
    method WriteLog()
      requires Valid() && s.phase == Copying(0)
      modifies this`disk, this`s, this`trace
      ensures Valid() && s == old(s).(disk := disk, phase := Copying(|lh|))
      ensures InLog(c, lh) && |old(disk)| == |mem| == c.blocks && disk == CopyAll(c, old(disk), mem, lh, |lh|)
      ensures Performs(c, old(s), Repeat(CopyBlock, |lh|), s)
      ensures old(trace) <= trace && Keeping(c, old(disk), trace[|old(trace)|..])
    {
      hide Reached, Performs, Keeps;
      ReachedBounds(c, s);
      PerformsNothing(c, s);
      assert trace[|trace|..] == [];
      for tail := 0 to |lh|
        invariant Tracks() && s == old(s).(disk := disk, phase := Copying(tail))
        invariant disk == CopyAll(c, old(disk), mem, lh, tail) && Performs(c, old(s), Repeat(CopyBlock, tail), s)
        invariant old(trace) <= trace && Keeping(c, old(disk), trace[|old(trace)|..])
      {
        ghost var was := trace;
        ReachedShape(c, s);
        ReachedAndPerforms(c, old(s), Repeat(CopyBlock, tail), s, CopyBlock, Next(c, s, CopyBlock));
        Bwrite(c.start + tail + 1, mem[lh[tail]]);
        s := Next(c, s, CopyBlock);
        SameCommitted(c, old(s), s);
        OneMoreKept(c, old(disk), old(trace), was, disk, trace);
      }
    }

    /** install_trans: copies every logged block from the log to its home. None of its writes changes what
        a crash would leave. */
    method InstallTrans(recovering: bool)
      requires Tracks() && s.lh == lh && s.phase == InstallPhase(recovering, 0)
      modifies this`disk, this`s, this`trace
      ensures Tracks() && s == old(s).(disk := disk, phase := InstallPhase(recovering, |lh|))
      ensures InLog(c, lh) && |old(disk)| == c.blocks && disk == InstallAll(c, old(disk), lh, |lh|)
      ensures Performs(c, old(s), Repeat(InstallStep(recovering), |lh|), s)
      ensures old(trace) <= trace && Keeping(c, old(disk), trace[|old(trace)|..])
    {
      hide Reached, Performs, Keeps;
      ReachedBounds(c, s);
      PerformsNothing(c, s);
      assert trace[|trace|..] == [];
      ghost var e := InstallStep(recovering);
      for tail := 0 to |lh|
        invariant Tracks() && s == old(s).(disk := disk, phase := InstallPhase(recovering, tail))
        invariant disk == InstallAll(c, old(disk), lh, tail) && Performs(c, old(s), Repeat(e, tail), s)
        invariant old(trace) <= trace && Keeping(c, old(disk), trace[|old(trace)|..])
      {
        ghost var was := trace;
        ReachedShape(c, s);
        ReachedAndPerforms(c, old(s), Repeat(e, tail), s, e, Next(c, s, e));
        Bwrite(lh[tail], disk[c.start + tail + 1]);
        s := Next(c, s, e);
        SameCommitted(c, old(s), s);
        OneMoreKept(c, old(disk), old(trace), was, disk, trace);
      }
    }

    /** read_head: loads the in-memory header from the header block. */
    method ReadHeader()
      requires c.start < |disk| && HeadN(c, disk) <= LOGSIZE
      modifies this`lh
      ensures lh == ReadEntries(c, disk)
    {
      var buf := disk[c.start];
      var n := Word(buf, 0);
      lh := [];
      for i := 0 to n
        invariant |lh| == i && forall j :: 0 <= j < i ==> lh[j] == HeadBlock(c, disk, j)
      {
        lh := lh + [Word(buf, 1 + i)];
      }
    }

    /** commit, entered by the last operation to end. Every logged block reaches its home and
        the log is empty again. Power may fail after any block write: up to some write, what recovery
        then gives is for every home block what it would have given before, and from that write on it
        is for every home block what the cache holds. */
    method Commit()
      requires Valid() && committing && (if |lh| > 0 then s.phase == Copying(0) else s.phase == Finishing)
      modifies this`disk, this`lh, this`s, this`trace
      ensures Valid() && committing && s.phase == Finishing && lh == []
      ensures |disk| == |mem| == c.blocks && forall b: nat :: Home(c, b) ==> disk[b] == mem[b]
      ensures if old(lh) == [] then s == old(s) else Performs(c, old(s), CommitSteps(|old(lh)|), s)
      ensures old(trace) <= trace && Atomic(c, old(disk), mem, trace[|old(trace)|..])
    {
      hide Reached, Performs, Keeping, Gives, Atomic, CopyAll, InstallAll;
      ReachedBounds(c, s);
      if |lh| > 0 {
        WriteLog();
        ghost var t1 := trace;
        ReachedShape(c, s);
        ReachedAndPerforms(c, old(s), Repeat(CopyBlock, |lh|), s, CommitHead, Next(c, s, CommitHead));
        WriteHead(CommitHead);
        ghost var d2, t2, s2, first := disk, trace, s, Repeat(CopyBlock, |lh|) + [CommitHead];
        CommitPoint(c, s);
        InstallTrans(false);
        ghost var t3 := trace;
        PerformsAppend(c, old(s), first, s2, Repeat(InstallBlock, |lh|), s);
        ReachedShape(c, s);
        ReachedAndPerforms(c, old(s), first + Repeat(InstallBlock, |lh|), s, ClearHead, Next(c, s, ClearHead));
        lh := [];
        WriteHead(ClearHead);
        CommitPoint(c, s);
        AtomicTrace(c, old(disk), mem, old(trace), t1, t2, t3, trace);
      } else {
        FinishingIsEmpty(c, s);
        NoWrites(c, old(disk), mem);
        assert trace[|trace|..] == [];
      }
      FinishingHome(c, s);
    }

    /** Recovery at boot, from whatever the last crash left on the disk. Power may fail again after any
        block write: recovery from there gives the same home blocks. */
    method RecoverFromLog()
      requires Valid() && s.phase == Booting
      modifies this`disk, this`mem, this`lh, this`committing, this`s, this`trace
      ensures Valid() && !committing && s.phase == Running && lh == []
      ensures c.start < |old(disk)|
      ensures Performs(c, old(s), [ReadHead] + Repeat(RecoverBlock, HeadN(c, old(disk))) + [RecoverClear], s)
      ensures old(trace) <= trace && Keeping(c, old(disk), trace[|old(trace)|..])
      ensures DiskOk(c, old(disk)) && |disk| == |mem| == c.blocks
      ensures forall b: nat :: Home(c, b) ==> disk[b] == mem[b] == Recovered(c, old(disk), b)
    {
      hide Reached, Performs, InstallAll, LogMachine.EncodeHead, Repeat, Keeps, WithHead, LogMachine.DiskOk;
      PerformsNothing(c, s);
      ReachedHead(c, s);
      ReachedShape(c, s);
      ReachedAndPerforms(c, s, [], s, ReadHead, Next(c, s, ReadHead));
      assert [] + [ReadHead] == [ReadHead];
      ReadHeader();
      s := Next(c, s, ReadHead);
      ReachedBounds(c, s);
      ghost var s1, n := s, |lh|;
      InstallTrans(true);
      ghost var steps := [ReadHead] + Repeat(RecoverBlock, n);
      PerformsAppend(c, old(s), [ReadHead], s1, Repeat(RecoverBlock, n), s);
      ReachedShape(c, s);
      ReachedAndPerforms(c, old(s), steps, s, RecoverClear, Next(c, s, RecoverClear));
      lh := [];
      ghost var was := trace;
      WriteHead(RecoverClear);
      SameCommitted(c, old(s), s);
      OneMoreKept(c, old(disk), old(trace), was, disk, trace);
      committing := false;
      mem := disk;
      RecoveredHome(c, old(s), s);
    }

    /** The tail of end_op. */
    method FinishCommitting()
      requires Valid() && s.phase == Finishing
      modifies this
      ensures trace == old(trace)
      ensures Valid() && !committing
      ensures Shape(c, old(s)) && s == Next(c, old(s), FinishCommit)
      ensures WaitersServed()
    {
      ReachedStep(c, s, FinishCommit);
      committing := false;
      waiting := false;
      s := Next(c, s, FinishCommit);
    }
  }
}
