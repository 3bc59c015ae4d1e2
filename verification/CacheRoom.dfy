/** When bget (kernel/bio.c) runs out of buffers, and what that does to commit (kernel/log.c). */
module CacheRoom {
  import opened Prelude
  import opened Blocks
  import opened LogMachine
  import opened LogCrash
  import opened LogSpace
  import opened CacheMachine
  import opened CacheProofs
  import BufferRing

  const NBUF: nat := BufferRing.NBUF

  /** The panic at the end of bget. */
  ghost predicate NoBuffers(s: Cache, b: nat)
  {
    !Cached(s, b) && forall i :: 0 <= i < |s.bufs| ==> s.bufs[i].refcnt != 0
  }

  // ---------------------------------------------------------------- counting

  function Indices(n: nat): (r: set<nat>)
    ensures |r| == n && forall i: nat :: i in r <==> i < n
  {
    if n == 0 then {} else Indices(n - 1) + {n - 1}
  }

  /** The buffers of the first n pinned blocks. */
  ghost predicate BufOf(bufs: seq<Buf>, ps: seq<nat>, i: nat)
  {
    i < |bufs| && bufs[i].dev == 1 && bufs[i].blockno in ps
  }

  function PinnedBufs(bufs: seq<Buf>, ps: seq<nat>): (r: set<nat>)
    ensures forall i: nat :: i in r <==> BufOf(bufs, ps, i)
  {
    set i: nat | i in Indices(|bufs|) && bufs[i].dev == 1 && bufs[i].blockno in ps
  }

  lemma BufAt(bufs: seq<Buf>, b: nat) returns (k: nat)
    requires HasBuf(bufs, b)
    ensures k < |bufs| && bufs[k].dev == 1 && bufs[k].blockno == b
  {
    k :| 0 <= k < |bufs| && bufs[k].dev == 1 && bufs[k].blockno == b && bufs[k].valid;
  }

  lemma OneMorePinned(bufs: seq<Buf>, rest: seq<nat>, b: nat, k: nat)
    requires Unique(bufs) && b !in rest && k < |bufs| && bufs[k].dev == 1 && bufs[k].blockno == b
    ensures PinnedBufs(bufs, rest + [b]) == PinnedBufs(bufs, rest) + {k} && k !in PinnedBufs(bufs, rest)
  {
    hide PinnedBufs;
    forall i: nat
      ensures i in PinnedBufs(bufs, rest + [b]) <==> i in PinnedBufs(bufs, rest) || i == k
    {
      assert BufOf(bufs, rest + [b], i) <==> BufOf(bufs, rest, i) || i == k;
    }
  }

  /** Each pinned block has one buffer. */
  lemma {:induction false} PinnedCount(bufs: seq<Buf>, ps: seq<nat>)
    requires Unique(bufs) && Nodup(ps) && forall b :: b in ps ==> HasBuf(bufs, b)
    ensures |PinnedBufs(bufs, ps)| == |ps|
  {
    if ps == [] {
      assert PinnedBufs(bufs, ps) == {};
    } else {
      var n := |ps| - 1;
      var rest := ps[..n];
      var k := BufAt(bufs, ps[n]);
      assert ps == rest + [ps[n]];
      OneMorePinned(bufs, rest, ps[n], k);
      PinnedCount(bufs, rest);
    }
  }

  /** The buffers some thread is using whose block is not pinned. */
  function Busy(s: Cache): (r: set<nat>)
  {
    set i: nat | i in Indices(|s.bufs|) && s.bufs[i].users != multiset{} && s.bufs[i].blockno !in Pinned(s.log)
  }

  lemma FullSubset(a: set<nat>, n: nat)
    requires a <= Indices(n)
    ensures |a| <= n && (|a| == n <==> a == Indices(n))
  {
    SmallerSet(a, Indices(n));
  }

  lemma {:induction false} SmallerSet(a: set<nat>, b: set<nat>)
    requires a <= b
    ensures |a| <= |b| && (|a| == |b| ==> a == b)
  {
    if a != {} {
      var x :| x in a;
      SmallerSet(a - {x}, b - {x});
    }
  }

  lemma PinnedNodup(c: Config, s: State)
    requires Reached(c, s)
    ensures Nodup(Pinned(s))
  {
    hide LogCrash.Durable, LogCrash.Whole, LogCrash.GroupsWhole;
    ReachedInv(c, s);
  }

  lemma Referenced(c: Config, s: Cache, i: nat)
    requires CInv(c, s) && i < |s.bufs|
    ensures s.bufs[i].refcnt != 0 <==> BufOf(s.bufs, Pinned(s.log), i) || i in Busy(s)
  {
    assert BufOk(c, s.log, s.bufs[i]);
    assert |s.bufs[i].users| == 0 <==> s.bufs[i].users == multiset{};
    if BufOf(s.bufs, Pinned(s.log), i) {
      PinnedIsReferenced(c, s, s.bufs[i].blockno);
    }
  }

  /** Exactly when bget has no buffer to give: the block is not cached, and the pinned blocks and
      the buffers in use add up to all there are. */
  lemma BuffersRunOut(c: Config, s: Cache, b: nat)
    requires CInv(c, s)
    ensures NoBuffers(s, b) <==> !Cached(s, b) && |Pinned(s.log)| + |Busy(s)| == |s.bufs|
  {
    hide CacheMachine.Cached, CacheProofs.BufOk, PinnedBufs, CacheProofs.HasBuf, CacheProofs.Pinned, CacheProofs.Unique,
      Busy;
    var p, o := PinnedBufs(s.bufs, Pinned(s.log)), Busy(s);
    PinnedNodup(c, s.log);
    PinnedCount(s.bufs, Pinned(s.log));
    forall i: nat | i < |s.bufs|
      ensures s.bufs[i].refcnt != 0 <==> i in p + o
    {
      Referenced(c, s, i);
    }
    BusyApart(s);
    assert |p + o| == |p| + |o|;
    FullSubset(p + o, |s.bufs|);
  }

  lemma BusyApart(s: Cache)
    ensures PinnedBufs(s.bufs, Pinned(s.log)) !! Busy(s)
    ensures PinnedBufs(s.bufs, Pinned(s.log)) + Busy(s) <= Indices(|s.bufs|)
  {
    hide PinnedBufs, CacheProofs.Pinned;
  }

  // ---------------------------------------------------------------- commit

  /** Nobody uses a buffer. */
  ghost predicate Quiet(s: Cache)
  {
    forall i :: 0 <= i < |s.bufs| ==> s.bufs[i].users == multiset{}
  }

  /** write_log cannot get a buffer for the log block, though no other thread uses one. */
  ghost predicate Stuck(c: Config, s: Cache)
  {
    s.log.phase.Copying? && Quiet(s) && NoBuffers(s, c.start + s.log.phase.tail + 1)
  }

  /** s is a state of a run with NBUF buffers. */
  ghost predicate CReach(c: Config, s: Cache)
  {
    exists tr, steps :: Leads(c, tr, steps, s)
  }

  ghost predicate Leads(c: Config, tr: seq<Cache>, steps: seq<CStep>, s: Cache)
  {
    CRun(c, tr, steps) && |tr[0].bufs| == NBUF && tr[|steps|] == s
  }

  ghost predicate CommitAlwaysRuns(c: Config)
  {
    forall s :: CReach(c, s) ==> !Stuck(c, s)
  }

  lemma SameCount(c: Config, s: Cache, e: CStep)
    requires Shape(c, s.log) && CEnabled(c, s, e)
    ensures |CNext(c, s, e).bufs| == |s.bufs|
  {
    hide LogMachine.Next, LogMachine.EncodeHead;
  }

  lemma {:induction false} CountInRuns(c: Config, tr: seq<Cache>, steps: seq<CStep>, k: nat)
    requires CRun(c, tr, steps) && k <= |steps|
    ensures |tr[k].bufs| == |tr[0].bufs|
  {
    hide CacheMachine.CNext, CacheMachine.CEnabled;
    if k > 0 {
      CountInRuns(c, tr, steps, k - 1);
      assert CMoves(c, tr, k - 1, steps[k - 1]);
      SameCount(c, tr[k - 1], steps[k - 1]);
    }
  }

  lemma CReachInv(c: Config, s: Cache)
    requires CReach(c, s)
    ensures CInv(c, s) && |s.bufs| == NBUF
  {
    hide CInv;
    var tr, steps :| Leads(c, tr, steps, s);
    RunKeepsCInv(c, tr, steps, |steps|);
    CountInRuns(c, tr, steps, |steps|);
  }

  lemma OneMore(c: Config, tr: seq<Cache>, steps: seq<CStep>, s: Cache, e: CStep)
    requires Leads(c, tr, steps, s) && Shape(c, s.log) && CEnabled(c, s, e)
    ensures Leads(c, tr + [CNext(c, s, e)], steps + [e], CNext(c, s, e))
  {
    hide CacheMachine.CNext, CacheMachine.CEnabled, LogMachine.Shape;
    var tr', steps' := tr + [CNext(c, s, e)], steps + [e];
    forall i | 0 <= i < |steps'|
      ensures CMoves(c, tr', i, steps'[i])
    {
      if i < |steps| {
        assert CMoves(c, tr, i, steps[i]);
      }
    }
    assert tr'[0] == tr[0];
  }

  lemma CReachStep(c: Config, s: Cache, e: CStep)
    requires CReach(c, s) && CEnabled(c, s, e)
    ensures Shape(c, s.log) && CReach(c, CNext(c, s, e))
  {
    hide CacheMachine.CNext, CacheMachine.CEnabled, LogMachine.Shape;
    CReachInv(c, s);
    ReachedShape(c, s.log);
    var tr, steps :| Leads(c, tr, steps, s);
    OneMore(c, tr, steps, s, e);
  }

  /** A log of at most LOGSIZE blocks, header included, leaves commit a buffer. */
  lemma RoomToCommit(c: Config, s: Cache)
    requires CReach(c, s) && c.size <= LOGSIZE
    ensures !Stuck(c, s)
  {
    hide CReach, CInv, CacheMachine.Cached, CacheProofs.Pinned;
    CReachInv(c, s);
    PinnedFew(c, s);
    BuffersRunOut(c, s, c.start + (if s.log.phase.Copying? then s.log.phase.tail else 0) + 1);
    if Quiet(s) {
      assert Busy(s) == {};
    }
  }

  lemma PinnedFew(c: Config, s: Cache)
    requires CInv(c, s)
    ensures |Pinned(s.log)| <= c.size - 1
  {
    LogBounds(c, s.log);
  }

  // ---------------------------------------------------------------- filling log and cache

  /** A buffer at rest. */
  ghost predicate AtRest(u: Buf)
  {
    u.users == multiset{} && u.holder == None && u.dirty == None
  }

  /** bread of an uncached block by thread 0 into buffer k. */
  lemma ReadInto(c: Config, s: Cache, k: nat, b: nat) returns (t: Cache)
    requires CReach(c, s) && k < |s.bufs| && s.bufs[k].refcnt == 0 && AtRest(s.bufs[k]) && !Cached(s, b) && b < c.blocks
    requires BufferRing.Choice(Refs(s.bufs), s.order, k)
    ensures |s.log.disk| == c.blocks && CReach(c, t)
    ensures t == s.(bufs := s.bufs[k := Buf(1, b, true, 1, Some(0), s.log.disk[b], multiset{0}, None)])
  {
    hide CReach, CacheMachine.Cached, LogMachine.Next, BufferRing.Choice;
    CReachStep(c, s, Recycle(0, k, b));
    var s1 := CNext(c, s, Recycle(0, k, b));
    CReachStep(c, s1, Lock(0, k));
    var s2 := CNext(c, s1, Lock(0, k));
    CReachStep(c, s2, Fill(0, k));
    t := CNext(c, s2, Fill(0, k));
    assert t.bufs == s.bufs[k := Buf(1, b, true, 1, Some(0), s.log.disk[b], multiset{0}, None)];
  }

  /** brelse by thread 0. */
  lemma Release(c: Config, s: Cache, k: nat) returns (t: Cache)
    requires CReach(c, s) && k < |s.bufs| && s.bufs[k].holder == Some(0) && s.bufs[k].users == multiset{0}
    requires s.bufs[k].dirty == None && s.bufs[k].refcnt > 0
    ensures CReach(c, t)
    ensures t == s.(bufs := s.bufs[k := s.bufs[k].(holder := None, users := multiset{},
                                                   refcnt := s.bufs[k].refcnt - 1)],
                    order := if s.bufs[k].refcnt == 1 then BufferRing.Fronted(s.order, k) else s.order)
  {
    hide CReach, LogMachine.Next, BufferRing.Fronted;
    CReachStep(c, s, Unlock(0, k));
    var s1 := CNext(c, s, Unlock(0, k));
    CReachStep(c, s1, Drop(0, k));
    t := CNext(c, s1, Drop(0, k));
    assert t.bufs == s.bufs[k := s.bufs[k].(holder := None, users := multiset{}, refcnt := s.bufs[k].refcnt - 1)];
  }

  /** After boot the buffer used for recovery is at the head, and the others follow as binit left
      them. */
  function BootOrder(): (order: seq<nat>)
    ensures |order| == NBUF && forall p :: 0 <= p < NBUF ==> order[p] == if p == 0 then 0 else NBUF - p
  {
    [0] + seq(NBUF - 1, p requires 0 <= p < NBUF - 1 => NBUF - 1 - p)
  }

  /** From then on bget takes the buffers in the order 1, 2, ..., NBUF - 1, 0. */
  function Turn(i: nat): nat
  {
    if i == 0 then NBUF - 1 else i - 1
  }

  function AtTurn(k: nat): (i: nat)
    requires k < NBUF
    ensures i < NBUF && Turn(i) == k
  {
    if k == NBUF - 1 then 0 else k + 1
  }

  /** Buffer i, when the first k blocks of homes have been logged. */
  ghost predicate Slot(c: Config, u: Buf, homes: seq<nat>, k: nat, i: nat)
  {
    AtRest(u) && if Turn(i) < k && Turn(i) < |homes| then u.dev == 1 && u.blockno == homes[Turn(i)] && u.refcnt == 1
                 else u.refcnt == 0 && (u.dev == 0 || (u.dev == 1 && u.blockno == c.start))
  }

  ghost predicate Slots(c: Config, bufs: seq<Buf>, homes: seq<nat>, k: nat)
  {
    |bufs| == NBUF && forall i :: 0 <= i < NBUF ==> Slot(c, bufs[i], homes, k, i)
  }

  /** With k blocks logged, the buffer whose turn is k is the one bget takes. */
  lemma NextTurn(c: Config, bufs: seq<Buf>, homes: seq<nat>, k: nat)
    requires Slots(c, bufs, homes, k) && k < |homes| && k < NBUF
    ensures BufferRing.Choice(Refs(bufs), BootOrder(), AtTurn(k))
  {
    hide AtRest;
    var order, refs := BootOrder(), Refs(bufs);
    var p := NBUF - 1 - k;
    assert Slot(c, bufs[AtTurn(k)], homes, k, AtTurn(k));
    forall j | p < j < NBUF
      ensures refs[order[j]] != 0
    {
      assert Slot(c, bufs[NBUF - j], homes, k, NBUF - j);
    }
    assert BufferRing.ChoiceAt(refs, order, p);
  }

  lemma NotCached(c: Config, s: Cache, homes: seq<nat>, k: nat, b: nat)
    requires Slots(c, s.bufs, homes, k) && b != c.start && forall i :: 0 <= i < k && i < |homes| ==> homes[i] != b
    ensures !Cached(s, b)
  {
    forall i | 0 <= i < |s.bufs|
      ensures s.bufs[i].dev != 1 || s.bufs[i].blockno != b
    {
      assert Slot(c, s.bufs[i], homes, k, i);
    }
  }

  /** recover_from_log on a log that is empty. */
  lemma Booted(c: Config) returns (s: Cache)
    requires ConfigOk(c)
    ensures CReach(c, s) && Begun(c, s.log, 0) && Slots(c, s.bufs, [], 0) && s.order == BootOrder()
  {
    hide CReach, CacheMachine.Cached, LogMachine.Shape, BootState, BufferRing.Choice, BufferRing.Fronted;
    var s0 := Cache(seq(NBUF, _ => EmptyBuf), BufferRing.Startup(NBUF), BootState(c));
    PowerOn(c, s0);
    FirstTurn(s0.bufs);
    var s1 := ReadInto(c, s0, 0, c.start);
    var s3 := Recover(c, s1);
    s := Release(c, s3, 0);
    BegunAtBoot(c, s);
  }

  /** The first buffer taken is buffer 0, at the tail; released, it goes to the head. */
  lemma FirstTurn(bufs: seq<Buf>)
    requires |bufs| == NBUF && forall i :: 0 <= i < NBUF ==> bufs[i].refcnt == 0
    ensures BufferRing.Choice(Refs(bufs), BufferRing.Startup(NBUF), 0)
    ensures BufferRing.Fronted(BufferRing.Startup(NBUF), 0) == BootOrder()
  {
    var order := BufferRing.Startup(NBUF);
    assert BufferRing.ChoiceAt(Refs(bufs), order, NBUF - 1);
    BufferRing.TakenIsRemoved(order, NBUF - 1);
    assert BufferRing.Fronted(order, 0) == BootOrder();
  }

  lemma PowerOn(c: Config, s: Cache)
    requires ConfigOk(c) && s == Cache(seq(NBUF, _ => EmptyBuf), BufferRing.Startup(NBUF), BootState(c))
    ensures CReach(c, s) && !Cached(s, c.start) && s.log.phase == Booting && Fresh(s.log)
    ensures |s.log.disk| == c.blocks && Word(s.log.disk[c.start], 0) == 0
  {
    hide CReach;
    BootStateInit(c);
    CReachFirst(c, s);
  }

  /** No operation has begun. */
  ghost predicate Fresh(s: State)
  {
    s.lh == [] && s.outstanding == 0 && s.active == [] && s.appended == map[]
  }

  lemma Recover(c: Config, s: Cache) returns (t: Cache)
    requires CReach(c, s) && s.bufs != [] && Holds(s, 0, 0, c.start) && s.log.phase == Booting && Fresh(s.log)
    requires Word(s.bufs[0].data, 0) == 0
    ensures CReach(c, t) && t.log.phase == Running && Fresh(t.log) && |t.bufs| == |s.bufs| && t.order == s.order
    ensures exists data :: t.bufs == s.bufs[0 := s.bufs[0].(data := data)]
  {
    hide CReach, LogMachine.Next, LogMachine.EncodeHead;
    CReachStep(c, s, LoadHead(0, 0));
    var s2 := CNext(c, s, LoadHead(0, 0));
    CReachStep(c, s2, RecoverEnd(0, 0));
    t := CNext(c, s2, RecoverEnd(0, 0));
    assert t.bufs == s.bufs[0 := s.bufs[0].(data := t.bufs[0].data)];
  }

  lemma BegunAtBoot(c: Config, s: Cache)
    requires CReach(c, s) && s.log.phase == Running && Fresh(s.log)
    ensures Begun(c, s.log, 0)
  {
    hide CReach, CInv;
    CReachInv(c, s);
    CInvShape(c, s);
  }

  lemma CInvShape(c: Config, s: Cache)
    requires CInv(c, s)
    ensures Shape(c, s.log)
  {
    ReachedShape(c, s.log);
  }

  lemma CReachFirst(c: Config, s: Cache)
    requires CInit(c, s) && |s.bufs| == NBUF
    ensures CReach(c, s)
  {
    assert CRun(c, [s], []);
    assert Leads(c, [s], [], s);
  }

  lemma {:induction false} BegunInCache(c: Config, k: nat) returns (s: Cache)
    requires ConfigOk(c) && k <= 3
    ensures CReach(c, s) && Begun(c, s.log, k) && Slots(c, s.bufs, [], 0) && s.order == BootOrder()
  {
    hide CReach, LogMachine.Next, Begun, Slots;
    if k == 0 {
      s := Booted(c);
    } else {
      var s0 := BegunInCache(c, k - 1);
      BeginOne(c, s0.log, k - 1);
      CReachStep(c, s0, BeginOp(k - 1));
      s := CNext(c, s0, BeginOp(k - 1));
    }
  }

  ghost predicate Full(c: Config, s: Cache, homes: seq<nat>, k: nat)
  {
    CReach(c, s) && Filled(c, s.log, homes, k) && Slots(c, s.bufs, homes, k) && s.order == BootOrder()
  }

  /** One more block read, logged and released: its buffer stays pinned. */
  lemma LogOne(c: Config, s: Cache, homes: seq<nat>, k: nat) returns (t: Cache)
    requires Full(c, s, homes, k) && Nodup(homes) && k < |homes| <= LOGSIZE && k < c.size - 1
    requires forall i :: 0 <= i < |homes| ==> Home(c, homes[i])
    ensures Full(c, t, homes, k + 1)
  {
    hide CReach, Filled, LogMachine.Next, CacheMachine.Cached, BufferRing.Choice, BufferRing.Fronted;
    var i := AtTurn(k);
    assert Slot(c, s.bufs[i], homes, k, i);
    NotCached(c, s, homes, k, homes[k]);
    NextTurn(c, s.bufs, homes, k);
    var s1 := ReadInto(c, s, i, homes[k]);
    var data := s.log.disk[homes[k]];
    FillOne(c, s.log, homes, k, data);
    NotLoggedYet(c, s.log, homes, k);
    CReachStep(c, s1, LogWrite(0, i, k / 10));
    var s2 := CNext(c, s1, LogWrite(0, i, k / 10));
    t := Release(c, s2, i);
    forall j | 0 <= j < NBUF
      ensures Slot(c, t.bufs[j], homes, k + 1, j)
    {
      assert Slot(c, s.bufs[j], homes, k, j);
    }
  }

  lemma NotLoggedYet(c: Config, s: State, homes: seq<nat>, k: nat)
    requires Filled(c, s, homes, k) && Nodup(homes) && k < |homes|
    ensures homes[k] !in s.lh
  {
  }

  lemma {:induction false} LogMany(c: Config, homes: seq<nat>, k: nat) returns (s: Cache)
    requires ConfigOk(c) && Nodup(homes) && k <= |homes| <= LOGSIZE && k <= c.size - 1
    requires forall i :: 0 <= i < |homes| ==> Home(c, homes[i])
    ensures Full(c, s, homes, k)
  {
    hide CReach, Filled, Begun, Slot;
    if k == 0 {
      s := BegunInCache(c, 3);
      FillNone(c, s.log, homes);
      forall i | 0 <= i < NBUF
        ensures Slot(c, s.bufs[i], homes, 0, i)
      {
        NoneYet(c, s.bufs[i], homes, i);
      }
    } else {
      var s0 := LogMany(c, homes, k - 1);
      s := LogOne(c, s0, homes, k - 1);
    }
  }

  lemma NoneYet(c: Config, u: Buf, homes: seq<nat>, i: nat)
    requires Slot(c, u, [], 0, i)
    ensures Slot(c, u, homes, 0, i)
  {
  }

  /** The three operations end, and the last one commits. */
  lemma EndAll(c: Config, s: Cache, homes: seq<nat>) returns (t: Cache)
    requires Full(c, s, homes, LOGSIZE) && |homes| == LOGSIZE
    ensures CReach(c, t) && t.bufs == s.bufs && t.log.phase == Copying(0) && t.log.lh == homes
  {
    hide CReach, Slot;
    NothingDirty(c, s, homes, LOGSIZE);
    CReachStep(c, s, EndOp(0));
    var s1 := CNext(c, s, EndOp(0));
    CReachStep(c, s1, EndOp(1));
    var s2 := CNext(c, s1, EndOp(1));
    CReachStep(c, s2, EndOp(2));
    t := CNext(c, s2, EndOp(2));
    assert homes[..LOGSIZE] == homes;
  }

  lemma NothingDirty(c: Config, s: Cache, homes: seq<nat>, k: nat)
    requires Slots(c, s.bufs, homes, k)
    ensures forall i :: 0 <= i < |s.bufs| ==> s.bufs[i].dirty == None
  {
    forall i | 0 <= i < |s.bufs|
      ensures s.bufs[i].dirty == None
    {
      assert Slot(c, s.bufs[i], homes, k, i);
    }
  }

  /** With a log of more than LOGSIZE blocks, commit of a full log finds all buffers pinned. */
  lemma CommitCanStick(c: Config, homes: seq<nat>) returns (s: Cache)
    requires ConfigOk(c) && Nodup(homes) && |homes| == LOGSIZE && c.size > LOGSIZE
    requires forall i :: 0 <= i < |homes| ==> Home(c, homes[i])
    ensures CReach(c, s) && Stuck(c, s)
  {
    hide CReach, Filled, CacheMachine.Cached;
    var s0 := LogMany(c, homes, LOGSIZE);
    s := EndAll(c, s0, homes);
    NotCached(c, s, homes, LOGSIZE, c.start + 1);
    forall i | 0 <= i < |s.bufs|
      ensures s.bufs[i].refcnt != 0 && s.bufs[i].users == multiset{}
    {
      assert Slot(c, s.bufs[i], homes, LOGSIZE, i);
    }
  }

  /** The exact condition: commit can always get a buffer, as long as no other thread keeps one, if
      and only if the log has at most LOGSIZE blocks. */
  lemma BufferBoundExact(c: Config, homes: seq<nat>)
    requires ConfigOk(c) && Nodup(homes) && |homes| == LOGSIZE
    requires forall i :: 0 <= i < |homes| ==> Home(c, homes[i])
    ensures CommitAlwaysRuns(c) <==> c.size <= LOGSIZE
  {
    hide CReach, Stuck;
    if c.size <= LOGSIZE {
      forall s | CReach(c, s)
        ensures !Stuck(c, s)
      {
        RoomToCommit(c, s);
      }
    } else {
      var s := CommitCanStick(c, homes);
    }
  }

  /** With NBUF equal to LOGSIZE no size of the log is free of both panics. */
  lemma NoSizeIsSafe(c: Config, homes: seq<nat>)
    requires ConfigOk(c) && Nodup(homes) && |homes| == LOGSIZE
    requires forall i :: 0 <= i < |homes| ==> Home(c, homes[i])
    ensures NeverPanics(c) <==> !CommitAlwaysRuns(c)
  {
    hide NeverPanics, CommitAlwaysRuns;
    SpaceBoundExact(c, homes);
    BufferBoundExact(c, homes);
  }
}
