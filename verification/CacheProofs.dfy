/** The buffer cache agrees with the logical disk of LogMachine, and every run of the cache
    is a run of LogMachine, so crash atomicity holds of real buffers. */
module CacheProofs {
  import opened Prelude
  import opened Blocks
  import opened LogMachine
  import opened LogCrash
  import opened CacheMachine
  import BufferRing

  /** Logged blocks that are not installed yet. */
  function Pinned(s: State): seq<nat>
  {
    match s.phase
    case Running => s.lh
    case Copying(_) => s.lh
    case Installing(tail) => if tail <= |s.lh| then s.lh[tail..] else []
    case _ => []
  }

  /** What bread must return for block b: the latest logged content of a home block, or, for
      the log area and until recovery is over, what is on the disk. */
  function View(c: Config, s: State, b: nat): Block
    requires |s.mem| == |s.disk| == c.blocks && b < c.blocks
  {
    if Home(c, b) && !s.phase.Booting? && !s.phase.Recovering? then s.mem[b] else s.disk[b]
  }

  ghost predicate Sized(c: Config, s: State)
  {
    |s.mem| == |s.disk| == c.blocks
  }

  ghost predicate Unused(u: Buf)
  {
    u.dev == 0 && !u.valid && u.refcnt == 0 && u.holder == None && u.users == multiset{} && u.dirty == None
  }

  ghost predicate BufOk(c: Config, s: State, u: Buf)
    requires Sized(c, s)
  {
    || Unused(u)
    || (&& u.dev == 1 && u.blockno < c.blocks
        && u.refcnt == |u.users| + (if u.blockno in Pinned(s) then 1 else 0)
        && (u.holder.Some? ==> u.holder.value in u.users)
        && (u.dirty.Some? ==> u.holder.Some? && u.valid && Home(c, u.blockno) && u.dirty.value in s.active)
        && (u.valid && u.dirty == None ==> u.data == View(c, s, u.blockno)))
  }

  ghost predicate Unique(bufs: seq<Buf>)
  {
    forall i, j :: 0 <= i < j < |bufs| && bufs[i].dev == 1 && bufs[j].dev == 1 ==>
      bufs[i].blockno != bufs[j].blockno
  }

  ghost predicate HasBuf(bufs: seq<Buf>, b: nat)
  {
    exists i :: 0 <= i < |bufs| && bufs[i].dev == 1 && bufs[i].blockno == b && bufs[i].valid
  }

  /** Every pinned block has its content in a buffer. */
  ghost predicate PinsHeld(s: Cache)
  {
    forall b :: b in Pinned(s.log) ==> HasBuf(s.bufs, b)
  }

  ghost predicate BufsOk(c: Config, s: Cache)
  {
    && Sized(c, s.log)
    && (forall i :: 0 <= i < |s.bufs| ==> BufOk(c, s.log, s.bufs[i]))
    && Unique(s.bufs) && PinsHeld(s)
  }

  ghost predicate CInv(c: Config, s: Cache)
  {
    Reached(c, s.log) && BufsOk(c, s)
  }

  // ---------------------------------------------------------------- facts about the log

  /** A home block that is not pinned is on the disk as the cache presents it. */
  lemma UnpinnedOnDisk(c: Config, s: State, b: nat)
    requires Reached(c, s) && b < c.blocks && b !in Pinned(s)
    ensures Sized(c, s) && View(c, s, b) == s.disk[b]
  {
    hide LogCrash.Durable, LogCrash.Whole, LogCrash.GroupsWhole, LogMachine.HeadN, LogMachine.HeadBlock,
      LogMachine.Look, LogCrash.Committed, Replay;
    ReachedInv(c, s);
    if s.phase.Installing? {
      var tail := s.phase.tail;
      forall i | tail <= i < |s.lh|
        ensures s.lh[i] in s.lh[tail..]
      {
        assert s.lh[tail..][i - tail] == s.lh[i];
      }
    }
  }

  lemma LogBounds(c: Config, s: State)
    requires Reached(c, s)
    ensures Sized(c, s) && ConfigOk(c) && |s.lh| <= LOGSIZE && c.start + |s.lh| < c.start + c.size
    ensures forall i :: 0 <= i < |s.lh| ==> Home(c, s.lh[i])
    ensures s.phase.Copying? || s.phase.Installing? ==> Nodup(s.lh) && s.active == []
    ensures s.phase.Copying? || s.phase.Installing? || s.phase.Recovering? ==> s.phase.tail <= |s.lh|
    ensures HeadN(c, s.disk) <= LOGSIZE
  {
    ReachedInv(c, s);
  }

  // ---------------------------------------------------------------- buffer steps

  lemma BufReplaced(c: Config, s: Cache, i: nat, u: Buf, s': Cache)
    requires BufsOk(c, s) && i < |s.bufs| && BufOk(c, s.log, u)
    requires u.dev == s.bufs[i].dev && u.blockno == s.bufs[i].blockno && (s.bufs[i].valid ==> u.valid)
    requires s'.bufs == s.bufs[i := u] && s'.log == s.log
    ensures BufsOk(c, s')
  {
    forall b | b in Pinned(s.log)
      ensures HasBuf(s'.bufs, b)
    {
      assert HasBuf(s.bufs, b);
      var k :| 0 <= k < |s.bufs| && s.bufs[k].dev == 1 && s.bufs[k].blockno == b && s.bufs[k].valid;
      assert s'.bufs[k].dev == 1;
    }
  }

  predicate LocalStep(e: CStep)
  {
    e.Hit? || e.Lock? || e.Fill? || e.Modify? || e.Unlock? || e.Drop?
  }

  lemma LocalPreserves(c: Config, s: Cache, e: CStep)
    requires CInv(c, s) && LocalStep(e) && CEnabled(c, s, e)
    ensures Shape(c, s.log) && CInv(c, CNext(c, s, e))
  {
    hide LogMachine.EncodeHead, LogMachine.HeadN, LogMachine.HeadBlock, CacheMachine.HeaderEntries, LogMachine.Look,
      BufferRing.Fronted, BufferRing.Choice, CacheMachine.Cached, LogMachine.Next;
    ReachedShape(c, s.log);
    var u := s.bufs[e.i];
    var u' := CNext(c, s, e).bufs[e.i];
    assert BufOk(c, s.log, u);
    if e.Fill? {
      assert u.blockno in Pinned(s.log) ==> HasBuf(s.bufs, u.blockno);
      UnpinnedOnDisk(c, s.log, u.blockno);
    }
    BufReplaced(c, s, e.i, u', CNext(c, s, e));
  }

  /** bget never recycles the buffer of a pinned block, nor one that is referenced. */
  lemma RecycledIsFree(c: Config, s: Cache, i: nat)
    requires BufsOk(c, s) && i < |s.bufs| && s.bufs[i].refcnt == 0
    ensures s.bufs[i].users == multiset{} && s.bufs[i].holder == None && s.bufs[i].dirty == None
    ensures s.bufs[i].dev == 1 ==> s.bufs[i].blockno !in Pinned(s.log)
  {
    assert BufOk(c, s.log, s.bufs[i]);
  }

  lemma RecyclePreserves(c: Config, s: Cache, e: CStep)
    requires CInv(c, s) && e.Recycle? && CEnabled(c, s, e)
    ensures Shape(c, s.log) && CInv(c, CNext(c, s, e))
  {
    ReachedShape(c, s.log);
    var s' := CNext(c, s, e);
    RecycledIsFree(c, s, e.i);
    assert !Cached(s, e.b);
    forall b | b in Pinned(s.log)
      ensures b != e.b && HasBuf(s'.bufs, b)
    {
      assert HasBuf(s.bufs, b);
      var k :| 0 <= k < |s.bufs| && s.bufs[k].dev == 1 && s.bufs[k].blockno == b && s.bufs[k].valid;
      assert k != e.i;
      assert s'.bufs[k] == s.bufs[k];
    }
    assert BufOk(c, s.log, s'.bufs[e.i]);
  }

  // ---------------------------------------------------------------- steps of the log

  /** The step of LogMachine that a step of the cache performs, if any. */
  ghost function LogStep(s: Cache, e: CStep): Option<Step>
  {
    match e
    case LogWrite(t, i, op) =>
      if i < |s.bufs| then Some(Write(op, s.bufs[i].blockno, s.bufs[i].data)) else None
    case BeginOp(op) => Some(Begin(op))
    case EndOp(op) => Some(End(op))
    case CopyToLog(_, _, _) => Some(CopyBlock)
    case WriteHead(_, _) => Some(CommitHead)
    case Install(_, _, _) => Some(InstallBlock)
    case EraseHead(_, _) => Some(ClearHead)
    case Finish => Some(FinishCommit)
    case PowerFail => Some(Crash)
    case LoadHead(_, _) => Some(ReadHead)
    case Reinstall(_, _, _) => Some(RecoverBlock)
    case RecoverEnd(_, _) => Some(RecoverClear)
    case _ => None
  }

  /** Outside operations nothing is dirty, so a held buffer shows the logical disk. */
  lemma HeldShowsView(c: Config, s: Cache, t: Tid, i: nat, b: nat)
    requires BufsOk(c, s) && Holds(s, t, i, b) && s.log.active == []
    ensures b < c.blocks && s.bufs[i].data == View(c, s.log, b)
  {
    assert BufOk(c, s.log, s.bufs[i]);
  }

  lemma IdleOutsideRunning(c: Config, s: State)
    requires Reached(c, s) && !s.phase.Running?
    ensures s.active == []
  {
    ReachedInv(c, s);
  }

  /** What step e does to the log is what LogMachine does. */
  ghost predicate RefinesAt(c: Config, s: Cache, e: CStep)
  {
    && Shape(c, s.log) && CEnabled(c, s, e)
    && match LogStep(s, e)
       case None => CNext(c, s, e).log == s.log
       case Some(f) => Enabled(c, s.log, f) && CNext(c, s, e).log == Next(c, s.log, f)
  }

  lemma RefinesCopy(c: Config, s: Cache, e: CStep)
    requires CInv(c, s) && CEnabled(c, s, e) && (e.CopyToLog?)
    ensures RefinesAt(c, s, e)
  {
    hide LogMachine.EncodeHead, LogMachine.HeadN, LogMachine.HeadBlock, CacheMachine.HeaderEntries, LogMachine.Look,
      BufferRing.Fronted, BufferRing.Choice, CacheMachine.Cached;
    ReachedShape(c, s.log);
    IdleOutsideRunning(c, s.log);
    HeldShowsView(c, s, e.t, e.j, s.log.lh[s.log.phase.tail]);
  }

  lemma RefinesHead(c: Config, s: Cache, e: CStep)
    requires CInv(c, s) && CEnabled(c, s, e) && (e.WriteHead? || e.EraseHead? || e.RecoverEnd?)
    ensures RefinesAt(c, s, e)
  {
    ReachedShape(c, s.log);
    IdleOutsideRunning(c, s.log);
    HeldShowsView(c, s, e.t, e.i, c.start);
  }

  lemma RefinesInstall(c: Config, s: Cache, e: CStep)
    requires CInv(c, s) && CEnabled(c, s, e) && (e.Install? || e.Reinstall?)
    ensures RefinesAt(c, s, e)
  {
    hide LogMachine.EncodeHead, LogMachine.HeadN, LogMachine.HeadBlock, CacheMachine.HeaderEntries, LogMachine.Look,
      BufferRing.Fronted, BufferRing.Choice, CacheMachine.Cached;
    ReachedShape(c, s.log);
    IdleOutsideRunning(c, s.log);
    HeldShowsView(c, s, e.t, e.i, c.start + s.log.phase.tail + 1);
  }

  lemma RefinesLoad(c: Config, s: Cache, e: CStep)
    requires CInv(c, s) && CEnabled(c, s, e) && (e.LoadHead?)
    ensures RefinesAt(c, s, e)
  {
    ReachedShape(c, s.log);
    IdleOutsideRunning(c, s.log);
    HeldShowsView(c, s, e.t, e.i, c.start);
    assert HeaderEntries(s.bufs[e.i].data) == ReadEntries(c, s.log.disk);
  }

  /** Every step of the cache is a step of LogMachine or leaves the log alone: the blocks
      that commit and recovery move through buffers are the right ones. */
  lemma Refines(c: Config, s: Cache, e: CStep)
    requires CInv(c, s) && CEnabled(c, s, e)
    ensures RefinesAt(c, s, e)
  {
    if e.CopyToLog? {
      RefinesCopy(c, s, e);
    } else if e.WriteHead? || e.EraseHead? || e.RecoverEnd? {
      RefinesHead(c, s, e);
    } else if e.Install? || e.Reinstall? {
      RefinesInstall(c, s, e);
    } else if e.LoadHead? {
      RefinesLoad(c, s, e);
    } else {
      ReachedShape(c, s.log);
    }
  }

  // ---------------------------------------------------------------- buffers across log steps

  /** Buffers keep their blocks and contents, perhaps with new data in buffer k. */
  ghost predicate SameBlocks(bufs: seq<Buf>, bufs': seq<Buf>)
  {
    && |bufs| == |bufs'|
    && forall i :: 0 <= i < |bufs| ==>
         bufs'[i].dev == bufs[i].dev && bufs'[i].blockno == bufs[i].blockno && bufs'[i].valid == bufs[i].valid
  }

  lemma BufsCarried(c: Config, s: Cache, s': Cache)
    requires BufsOk(c, s) && Sized(c, s'.log) && SameBlocks(s.bufs, s'.bufs)
    requires forall i :: 0 <= i < |s'.bufs| ==> BufOk(c, s'.log, s'.bufs[i])
    requires forall b :: b in Pinned(s'.log) ==> b in Pinned(s.log) || HasBuf(s.bufs, b)
    ensures BufsOk(c, s')
  {
    forall b | b in Pinned(s'.log)
      ensures HasBuf(s'.bufs, b)
    {
      assert HasBuf(s.bufs, b);
      var k :| 0 <= k < |s.bufs| && s.bufs[k].dev == 1 && s.bufs[k].blockno == b && s.bufs[k].valid;
      assert s'.bufs[k].valid;
    }
  }

  lemma BeginOrEndKeepsBufs(c: Config, s: Cache, e: CStep)
    requires CInv(c, s) && CEnabled(c, s, e) && (e.BeginOp? || e.EndOp?)
    ensures Shape(c, s.log) && BufsOk(c, CNext(c, s, e))
  {
    ReachedShape(c, s.log);
    var s' := CNext(c, s, e);
    if e.EndOp? {
      WithoutShrinks(s.log.active, e.op);
    }
    forall i | 0 <= i < |s.bufs|
      ensures BufOk(c, s'.log, s'.bufs[i])
    {
      assert BufOk(c, s.log, s.bufs[i]);
    }
    BufsCarried(c, s, s');
  }

  lemma LogWriteKeepsBufs(c: Config, s: Cache, e: CStep)
    requires CInv(c, s) && CEnabled(c, s, e) && e.LogWrite?
    ensures Shape(c, s.log) && BufsOk(c, CNext(c, s, e))
  {
    hide LogMachine.EncodeHead, LogMachine.HeadN, LogMachine.HeadBlock, CacheMachine.HeaderEntries, LogMachine.Look,
      BufferRing.Fronted, BufferRing.Choice, CacheMachine.Cached;
    ReachedShape(c, s.log);
    ActiveMeansRunning(c, s.log);
    var s' := CNext(c, s, e);
    var b := s.bufs[e.i].blockno;
    forall k | 0 <= k < |s.bufs|
      ensures BufOk(c, s'.log, s'.bufs[k])
    {
      assert BufOk(c, s.log, s.bufs[k]);
      assert k < e.i || k == e.i || e.i < k;
    }
    forall x | x in Pinned(s'.log)
      ensures x in Pinned(s.log) || HasBuf(s.bufs, x)
    {
      assert x == b ==> s.bufs[e.i].valid;
    }
    BufsCarried(c, s, s');
  }

  lemma CopyKeepsBufs(c: Config, s: Cache, e: CStep)
    requires CInv(c, s) && CEnabled(c, s, e) && e.CopyToLog?
    ensures Shape(c, s.log) && BufsOk(c, CNext(c, s, e))
  {
    hide LogMachine.EncodeHead, LogMachine.HeadN, LogMachine.HeadBlock, CacheMachine.HeaderEntries, LogMachine.Look,
      BufferRing.Fronted, BufferRing.Choice, CacheMachine.Cached;
    ReachedShape(c, s.log);
    IdleOutsideRunning(c, s.log);
    var s' := CNext(c, s, e);
    forall k | 0 <= k < |s.bufs|
      ensures BufOk(c, s'.log, s'.bufs[k])
    {
      assert BufOk(c, s.log, s.bufs[k]);
      assert k < e.i || k == e.i || e.i < k;
    }
    BufsCarried(c, s, s');
  }

  lemma WriteHeadKeepsBufs(c: Config, s: Cache, e: CStep)
    requires CInv(c, s) && CEnabled(c, s, e) && e.WriteHead?
    ensures Shape(c, s.log) && BufsOk(c, CNext(c, s, e))
  {
    hide LogMachine.EncodeHead, LogMachine.HeadN, LogMachine.HeadBlock, CacheMachine.HeaderEntries, LogMachine.Look,
      BufferRing.Fronted, BufferRing.Choice, CacheMachine.Cached;
    ReachedShape(c, s.log);
    IdleOutsideRunning(c, s.log);
    var s' := CNext(c, s, e);
    assert Pinned(s'.log) == Pinned(s.log);
    forall k | 0 <= k < |s.bufs|
      ensures BufOk(c, s'.log, s'.bufs[k])
    {
      assert BufOk(c, s.log, s.bufs[k]);
      assert k < e.i || k == e.i || e.i < k;
    }
    BufsCarried(c, s, s');
  }

  lemma EraseHeadKeepsBufs(c: Config, s: Cache, e: CStep)
    requires CInv(c, s) && CEnabled(c, s, e) && e.EraseHead?
    ensures Shape(c, s.log) && BufsOk(c, CNext(c, s, e))
  {
    hide LogMachine.EncodeHead, LogMachine.HeadN, LogMachine.HeadBlock, CacheMachine.HeaderEntries, LogMachine.Look,
      BufferRing.Fronted, BufferRing.Choice, CacheMachine.Cached;
    ReachedShape(c, s.log);
    IdleOutsideRunning(c, s.log);
    var s' := CNext(c, s, e);
    assert Pinned(s'.log) == Pinned(s.log);
    forall k | 0 <= k < |s.bufs|
      ensures BufOk(c, s'.log, s'.bufs[k])
    {
      assert BufOk(c, s.log, s.bufs[k]);
      assert k < e.i || k == e.i || e.i < k;
    }
    BufsCarried(c, s, s');
  }

  lemma RecoverEndKeepsBufs(c: Config, s: Cache, e: CStep)
    requires CInv(c, s) && CEnabled(c, s, e) && e.RecoverEnd?
    ensures Shape(c, s.log) && BufsOk(c, CNext(c, s, e))
  {
    hide LogMachine.EncodeHead, LogMachine.HeadN, LogMachine.HeadBlock, CacheMachine.HeaderEntries, LogMachine.Look,
      BufferRing.Fronted, BufferRing.Choice, CacheMachine.Cached;
    ReachedShape(c, s.log);
    IdleOutsideRunning(c, s.log);
    var s' := CNext(c, s, e);
    assert Pinned(s'.log) == Pinned(s.log);
    forall k | 0 <= k < |s.bufs|
      ensures BufOk(c, s'.log, s'.bufs[k])
    {
      assert BufOk(c, s.log, s.bufs[k]);
      assert k < e.i || k == e.i || e.i < k;
    }
    BufsCarried(c, s, s');
  }

  /** The log block being installed holds the logical content of its home block. */
  lemma LogBlockIsLogical(c: Config, s: State)
    requires Reached(c, s) && Enabled(c, s, InstallBlock)
    ensures Sized(c, s) && c.start + s.phase.tail + 1 < c.blocks && s.lh[s.phase.tail] < c.blocks
    ensures s.disk[c.start + s.phase.tail + 1] == s.mem[s.lh[s.phase.tail]]
  {
    hide LogCrash.Durable, LogCrash.Whole, LogCrash.GroupsWhole, LogMachine.HeadN, LogMachine.HeadBlock,
      LogMachine.Replay, LogMachine.ReplayGroups, LogMachine.Look;
    ReachedInv(c, s);
    assert s.disk[c.start + 1 + s.phase.tail] == s.mem[s.lh[s.phase.tail]];
  }

  lemma PinnedAfterInstall(s: State, t: State, b: nat)
    requires s.phase.Installing? && s.phase.tail < |s.lh| && Nodup(s.lh)
    requires t.lh == s.lh && t.phase == Installing(s.phase.tail + 1)
    ensures b in Pinned(t) <==> b in Pinned(s) && b != s.lh[s.phase.tail]
    ensures s.lh[s.phase.tail] in Pinned(s)
  {
    var tail := s.phase.tail;
    assert s.lh[tail..] == [s.lh[tail]] + s.lh[tail + 1..];
  }

  lemma InstallKeepsBufs(c: Config, s: Cache, e: CStep)
    requires CInv(c, s) && CEnabled(c, s, e) && e.Install?
    ensures Shape(c, s.log) && BufsOk(c, CNext(c, s, e))
  {
    hide LogMachine.EncodeHead, LogMachine.HeadN, LogMachine.HeadBlock, CacheMachine.HeaderEntries, LogMachine.Look,
      BufferRing.Fronted, BufferRing.Choice, CacheMachine.Cached;
    ReachedShape(c, s.log);
    LogBounds(c, s.log);
    LogBlockIsLogical(c, s.log);
    HeldShowsView(c, s, e.t, e.i, c.start + s.log.phase.tail + 1);
    var s' := CNext(c, s, e);
    forall k | 0 <= k < |s.bufs|
      ensures BufOk(c, s'.log, s'.bufs[k])
    {
      assert BufOk(c, s.log, s.bufs[k]);
      PinnedAfterInstall(s.log, s'.log, s.bufs[k].blockno);
      assert k < e.j || k == e.j || e.j < k;
    }
    forall b | b in Pinned(s'.log)
      ensures b in Pinned(s.log)
    {
      PinnedAfterInstall(s.log, s'.log, b);
    }
    BufsCarried(c, s, s');
  }

  /** The one call of bunpin: install_trans holds the buffer, so a reference is left. */
  lemma UnpinLeavesReference(c: Config, s: Cache, e: CStep)
    requires CInv(c, s) && CEnabled(c, s, e) && e.Install?
    ensures Shape(c, s.log) && CNext(c, s, e).bufs[e.j].refcnt > 0
  {
    ReachedShape(c, s.log);
    LogBounds(c, s.log);
    var u := s.bufs[e.j];
    assert BufOk(c, s.log, u);
    assert u.users == (u.users - multiset{e.t}) + multiset{e.t};
    PinnedAfterInstall(s.log, CNext(c, s, e).log, u.blockno);
  }

  lemma FinishingIsEmpty(c: Config, s: State)
    requires Reached(c, s) && s.phase.Finishing?
    ensures s.lh == []
  {
    ReachedInv(c, s);
  }

  lemma FinishKeepsBufs(c: Config, s: Cache)
    requires CInv(c, s) && CEnabled(c, s, Finish)
    ensures Shape(c, s.log) && BufsOk(c, CNext(c, s, Finish))
  {
    ReachedShape(c, s.log);
    FinishingIsEmpty(c, s.log);
    var s' := CNext(c, s, Finish);
    forall k | 0 <= k < |s.bufs|
      ensures BufOk(c, s'.log, s'.bufs[k])
    {
      assert BufOk(c, s.log, s.bufs[k]);
    }
    BufsCarried(c, s, s');
  }

  lemma PowerFailKeepsBufs(c: Config, s: Cache)
    requires CInv(c, s)
    ensures Shape(c, s.log) && BufsOk(c, CNext(c, s, PowerFail))
  {
    ReachedShape(c, s.log);
    var s' := CNext(c, s, PowerFail);
    assert forall i :: 0 <= i < |s'.bufs| ==> Unused(s'.bufs[i]);
  }

  lemma LoadHeadKeepsBufs(c: Config, s: Cache, e: CStep)
    requires CInv(c, s) && CEnabled(c, s, e) && e.LoadHead?
    ensures Shape(c, s.log) && BufsOk(c, CNext(c, s, e))
  {
    hide LogMachine.EncodeHead, LogMachine.HeadN, LogMachine.HeadBlock, CacheMachine.HeaderEntries, LogMachine.Look,
      BufferRing.Fronted, BufferRing.Choice, CacheMachine.Cached;
    ReachedShape(c, s.log);
    IdleOutsideRunning(c, s.log);
    var s' := CNext(c, s, e);
    forall k | 0 <= k < |s.bufs|
      ensures BufOk(c, s'.log, s'.bufs[k])
    {
      assert BufOk(c, s.log, s.bufs[k]);
    }
    BufsCarried(c, s, s');
  }

  lemma ReinstallKeepsBufs(c: Config, s: Cache, e: CStep)
    requires CInv(c, s) && CEnabled(c, s, e) && e.Reinstall?
    ensures Shape(c, s.log) && BufsOk(c, CNext(c, s, e))
  {
    hide LogMachine.EncodeHead, LogMachine.HeadN, LogMachine.HeadBlock, CacheMachine.HeaderEntries, LogMachine.Look,
      BufferRing.Fronted, BufferRing.Choice, CacheMachine.Cached;
    ReachedShape(c, s.log);
    IdleOutsideRunning(c, s.log);
    var s' := CNext(c, s, e);
    forall k | 0 <= k < |s.bufs|
      ensures BufOk(c, s'.log, s'.bufs[k])
    {
      assert BufOk(c, s.log, s.bufs[k]);
      assert k < e.j || k == e.j || e.j < k;
    }
    BufsCarried(c, s, s');
  }

  // ---------------------------------------------------------------- runs of the cache

  lemma BufsPreserved(c: Config, s: Cache, e: CStep)
    requires CInv(c, s) && CEnabled(c, s, e)
    ensures Shape(c, s.log) && BufsOk(c, CNext(c, s, e))
  {
    match e
    case Recycle(_, _, _) => RecyclePreserves(c, s, e);
    case LogWrite(_, _, _) => LogWriteKeepsBufs(c, s, e);
    case BeginOp(_) => BeginOrEndKeepsBufs(c, s, e);
    case EndOp(_) => BeginOrEndKeepsBufs(c, s, e);
    case CopyToLog(_, _, _) => CopyKeepsBufs(c, s, e);
    case WriteHead(_, _) => WriteHeadKeepsBufs(c, s, e);
    case EraseHead(_, _) => EraseHeadKeepsBufs(c, s, e);
    case RecoverEnd(_, _) => RecoverEndKeepsBufs(c, s, e);
    case Install(_, _, _) => InstallKeepsBufs(c, s, e);
    case Finish => FinishKeepsBufs(c, s);
    case PowerFail => PowerFailKeepsBufs(c, s);
    case LoadHead(_, _) => LoadHeadKeepsBufs(c, s, e);
    case Reinstall(_, _, _) => ReinstallKeepsBufs(c, s, e);
    case _ => LocalPreserves(c, s, e);
  }

  lemma CInvPreserved(c: Config, s: Cache, e: CStep, s': Cache)
    requires CInv(c, s) && CEnabled(c, s, e)
    requires Shape(c, s.log) ==> s' == CNext(c, s, e)
    ensures CInv(c, s')
  {
    BufsPreserved(c, s, e);
    Refines(c, s, e);
    if LogStep(s, e).Some? {
      ReachedStep(c, s.log, LogStep(s, e).value);
    }
  }

  /** At power-on: a disk recovery can act on, and every buffer unused. */
  ghost predicate CInit(c: Config, s: Cache)
  {
    && Init(c, s.log) && s.order == BufferRing.Startup(|s.bufs|)
    && forall i :: 0 <= i < |s.bufs| ==> Unused(s.bufs[i])
  }

  ghost predicate CRun(c: Config, tr: seq<Cache>, steps: seq<CStep>)
  {
    && |tr| == |steps| + 1 && CInit(c, tr[0])
    && forall i :: 0 <= i < |steps| ==> CMoves(c, tr, i, steps[i])
  }

  /** The i-th step of a trace. */
  ghost predicate CMoves(c: Config, tr: seq<Cache>, i: nat, e: CStep)
    requires i + 1 < |tr|
  {
    Shape(c, tr[i].log) && CEnabled(c, tr[i], e) && tr[i + 1] == CNext(c, tr[i], e)
  }

  lemma {:induction false} RunKeepsCInv(c: Config, tr: seq<Cache>, steps: seq<CStep>, k: nat)
    requires CRun(c, tr, steps) && k <= |steps|
    ensures CInv(c, tr[k])
  {
    if k == 0 {
      ReachedInit(c, tr[0].log);
      ReachedBounds(c, tr[0].log);
      assert Pinned(tr[0].log) == [];
    } else {
      RunKeepsCInv(c, tr, steps, k - 1);
      var e := steps[k - 1];
      assert CMoves(c, tr, k - 1, e);
      CInvPreserved(c, tr[k - 1], e, tr[k]);
    }
  }

  // ---------------------------------------------------------------- what the cache promises

  /** In every state of every run, crashes included:
      - a thread that holds the buffer of a home block with nothing unlogged in it sees the
        effect of every committed group and of every update logged since;
      - no block has two buffers;
      - every logged block that is not yet installed has a referenced buffer with its content;
      - a valid buffer that is neither locked nor pinned equals its block on the disk. */
  lemma CacheAgrees(c: Config, tr: seq<Cache>, steps: seq<CStep>, k: nat)
    requires CRun(c, tr, steps) && k <= |steps|
    ensures Shape(c, tr[k].log) && Unique(tr[k].bufs)
    ensures forall t: Tid, i: nat, b: nat ::
              Holds(tr[k], t, i, b) && tr[k].bufs[i].dirty == None && Home(c, b)
              && !tr[k].log.phase.Booting? && !tr[k].log.phase.Recovering? ==>
                tr[k].bufs[i].data == Replay(Committed(tr[k].log), tr[k].log.current)[b]
    ensures forall b :: b in Pinned(tr[k].log) ==>
              exists i :: && 0 <= i < |tr[k].bufs| && tr[k].bufs[i].dev == 1 && tr[k].bufs[i].blockno == b
                          && tr[k].bufs[i].valid && tr[k].bufs[i].refcnt > 0
    ensures forall i :: && 0 <= i < |tr[k].bufs| && tr[k].bufs[i].valid && tr[k].bufs[i].holder == None
                        && tr[k].bufs[i].blockno !in Pinned(tr[k].log) ==>
              tr[k].bufs[i].blockno < |tr[k].log.disk| && tr[k].bufs[i].data == tr[k].log.disk[tr[k].bufs[i].blockno]
  {
    RunKeepsCInv(c, tr, steps, k);
    var s := tr[k];
    ReachedShape(c, s.log);
    forall t: Tid, i: nat, b: nat |
      Holds(s, t, i, b) && s.bufs[i].dirty == None && Home(c, b) && !s.log.phase.Booting? && !s.log.phase.Recovering?
      ensures s.bufs[i].data == Replay(Committed(s.log), s.log.current)[b]
    {
      assert BufOk(c, s.log, s.bufs[i]);
      LogicalIsReplay(c, s.log, b);
    }
    forall b | b in Pinned(s.log)
      ensures exists i :: && 0 <= i < |s.bufs| && s.bufs[i].dev == 1 && s.bufs[i].blockno == b
                          && s.bufs[i].valid && s.bufs[i].refcnt > 0
    {
      PinnedIsReferenced(c, s, b);
    }
    forall i | && 0 <= i < |s.bufs| && s.bufs[i].valid && s.bufs[i].holder == None
               && s.bufs[i].blockno !in Pinned(s.log)
      ensures s.bufs[i].blockno < |s.log.disk| && s.bufs[i].data == s.log.disk[s.bufs[i].blockno]
    {
      assert BufOk(c, s.log, s.bufs[i]);
      UnpinnedOnDisk(c, s.log, s.bufs[i].blockno);
    }
  }

  lemma LogicalIsReplay(c: Config, s: State, b: nat)
    requires Reached(c, s) && Home(c, b) && !s.phase.Booting? && !s.phase.Recovering?
    ensures Shape(c, s) && s.mem[b] == Replay(Committed(s), s.current)[b]
  {
    ReachedInv(c, s);
  }

  lemma PinnedIsReferenced(c: Config, s: Cache, b: nat)
    requires BufsOk(c, s) && b in Pinned(s.log)
    ensures exists i :: && 0 <= i < |s.bufs| && s.bufs[i].dev == 1 && s.bufs[i].blockno == b
                        && s.bufs[i].valid && s.bufs[i].refcnt > 0
  {
    assert HasBuf(s.bufs, b);
    var k :| 0 <= k < |s.bufs| && s.bufs[k].dev == 1 && s.bufs[k].blockno == b && s.bufs[k].valid;
    assert BufOk(c, s.log, s.bufs[k]);
  }

  /** Crash safety of the real cache: in every state of every run, what a crash now plus
      recovery would leave in the home blocks is exactly the committed groups, each a set
      of complete operations. */
  lemma CacheIsCrashSafe(c: Config, tr: seq<Cache>, steps: seq<CStep>, k: nat)
    requires CRun(c, tr, steps) && k <= |steps|
    ensures Shape(c, tr[k].log) && GroupsWhole(tr[k].log)
    ensures forall b: nat :: Home(c, b) ==>
              Recovered(c, tr[k].log.disk, b) == ReplayGroups(tr[k].log.base, tr[k].log.groups)[b]
  {
    RunKeepsCInv(c, tr, steps, k);
    ReachedInv(c, tr[k].log);
  }
}
