/** bget (kernel/bio.c) recycles the least recently used buffer: in every run of the cache under the
    log, crashes included, the buffer taken is the unreferenced one released longest ago. */
module CacheOrder {
  import opened Prelude
  import opened Blocks
  import opened LogMachine
  import opened LogCrash
  import opened CacheMachine
  import opened CacheProofs
  import BufferRing

  // ---------------------------------------------------------------- when a buffer was released

  /** Buffer i lost its last reference in the step from s to t. */
  predicate Lost(s: Cache, t: Cache, i: nat)
  {
    i < |s.bufs| && i < |t.bufs| && s.bufs[i].refcnt > 0 && t.bufs[i].refcnt == 0
  }

  /** When buffer i, at point k of a run, had last lost its last reference, whatever the step was. Time
      counts steps, and the buffers one by one within a step: at power-on binit makes them in order. */
  ghost function ReleasedAt(tr: seq<Cache>, steps: seq<CStep>, k: nat, i: nat): nat
    requires k <= |steps| < |tr|
  {
    if k == 0 then i
    else if steps[k - 1].PowerFail? || Lost(tr[k - 1], tr[k], i) then k * |tr[0].bufs| + i
    else ReleasedAt(tr, steps, k - 1, i)
  }

  lemma {:induction false} ReleasedBefore(tr: seq<Cache>, steps: seq<CStep>, k: nat, i: nat)
    requires k <= |steps| < |tr| && i < |tr[0].bufs|
    ensures ReleasedAt(tr, steps, k, i) < k * |tr[0].bufs| + |tr[0].bufs|
  {
    if k > 0 {
      ReleasedBefore(tr, steps, k - 1, i);
      Later(k, |tr[0].bufs|);
    }
  }

  lemma Later(k: nat, n: nat)
    requires k > 0
    ensures (k - 1) * n + n == k * n
  {
  }

  // ---------------------------------------------------------------- which steps release

  /** Only brelse and a power failure take a last reference; in particular bunpin does not. */
  lemma OnlyDropReleases(c: Config, s: Cache, e: CStep, i: nat)
    requires CInv(c, s) && CEnabled(c, s, e) && !e.PowerFail? && !(e.Drop? && e.i == i)
    ensures Shape(c, s.log) && !Lost(s, CNext(c, s, e), i)
  {
    hide LogMachine.Next, LogMachine.EncodeHead, CInv, BufferRing.Fronted, BufferRing.Choice;
    if e.Install? {
      UnpinLeavesReference(c, s, e);
    } else {
      InvShape(c, s);
    }
  }

  lemma InvShape(c: Config, s: Cache)
    requires CInv(c, s)
    ensures Shape(c, s.log)
  {
    ReachedShape(c, s.log);
  }

  // ---------------------------------------------------------------- the list

  /** The list holds every buffer once. */
  ghost predicate Listed(order: seq<nat>, n: nat)
  {
    Nodup(order) && forall i: nat :: i in order <==> i < n
  }

  lemma StartupListed(n: nat)
    ensures Listed(BufferRing.Startup(n), n)
  {
    var order := BufferRing.Startup(n);
    forall i: nat | i < n
      ensures i in order
    {
      assert order[n - 1 - i] == i;
    }
  }

  lemma FrontedListed(order: seq<nat>, n: nat, p: nat, order': seq<nat>)
    requires Listed(order, n) && p < |order| && order' == BufferRing.Fronted(order, order[p])
    ensures |order'| == |order| && (forall k :: 0 <= k < |order| ==> order'[k] == order[BufferRing.Before(p, k)])
    ensures Listed(order', n)
  {
    BufferRing.TakenIsRemoved(order, p);
    BufferRing.FrontAt(order, p, order');
    ListedAgain(order, n, p, order');
  }

  lemma ListedAgain(order: seq<nat>, n: nat, p: nat, order': seq<nat>)
    requires Listed(order, n) && p < |order| == |order'| && Nodup(order')
    requires forall k :: 0 <= k < |order| ==> order'[k] == order[BufferRing.Before(p, k)]
    ensures Listed(order', n)
  {
    forall i: nat | i in order'
      ensures i < n
    {
      var k :| 0 <= k < |order'| && order'[k] == i;
      assert order[BufferRing.Before(p, k)] in order;
    }
    forall i: nat | i < n
      ensures i in order'
    {
      assert i in order;
      var k :| 0 <= k < |order| && order[k] == i;
      assert order'[if k < p then k + 1 else if k == p then 0 else k] == i;
    }
  }

  /** The unreferenced buffers stand in the list in the order of their release, last released first. */
  ghost predicate InOrder(bufs: seq<Buf>, order: seq<nat>, at: seq<nat>)
    requires |at| == |bufs|
  {
    forall a, b :: 0 <= a < b < |order| && Free(bufs, order[a]) && Free(bufs, order[b]) ==> at[order[a]] > at[order[b]]
  }

  predicate Free(bufs: seq<Buf>, i: nat)
  {
    i < |bufs| && bufs[i].refcnt == 0
  }

  /** The times of release of all buffers. */
  ghost function Times(tr: seq<Cache>, steps: seq<CStep>, k: nat): (at: seq<nat>)
    requires k <= |steps| < |tr|
    ensures |at| == |tr[0].bufs| && forall i :: 0 <= i < |at| ==> at[i] == ReleasedAt(tr, steps, k, i)
  {
    seq(|tr[0].bufs|, i requires 0 <= i < |tr[0].bufs| => ReleasedAt(tr, steps, k, i))
  }

  /** What every run keeps about the list. */
  ghost predicate Kept(s: Cache, at: seq<nat>)
  {
    |at| == |s.bufs| && Listed(s.order, |s.bufs|) && InOrder(s.bufs, s.order, at)
  }

  /** A step that releases nothing and leaves the list alone. */
  lemma KeptByOthers(s: Cache, t: Cache, at: seq<nat>, at': seq<nat>)
    requires Kept(s, at) && |t.bufs| == |s.bufs| == |at'| && t.order == s.order
    requires forall i: nat :: i < |s.bufs| ==> !Lost(s, t, i) && at'[i] == at[i]
    ensures Kept(t, at')
  {
    forall a, b | 0 <= a < b < |t.order| && Free(t.bufs, t.order[a]) && Free(t.bufs, t.order[b])
      ensures at'[t.order[a]] > at'[t.order[b]]
    {
      assert !Lost(s, t, t.order[a]) && !Lost(s, t, t.order[b]);
      assert Free(s.bufs, s.order[a]) && Free(s.bufs, s.order[b]);
    }
  }

  /** Buffer i is released and moved to the head. */
  lemma KeptByFront(s: Cache, t: Cache, at: seq<nat>, at': seq<nat>, i: nat)
    requires Kept(s, at) && |t.bufs| == |s.bufs| == |at'| && i < |s.bufs| && t.order == BufferRing.Fronted(s.order, i)
    requires forall j: nat :: j < |s.bufs| && j != i ==> !Lost(s, t, j) && at'[j] == at[j] < at'[i]
    ensures Kept(t, at')
  {
    hide BufferRing.Fronted, Lost, Free, InOrder;
    assert i in s.order;
    var p :| 0 <= p < |s.order| && s.order[p] == i;
    FrontedListed(s.order, |s.bufs|, p, t.order);
    FrontInOrder(s, t, at, at', p);
  }

  lemma FrontInOrder(s: Cache, t: Cache, at: seq<nat>, at': seq<nat>, p: nat)
    requires |at| == |s.bufs| == |t.bufs| == |at'| && InOrder(s.bufs, s.order, at)
    requires p < |s.order| == |t.order| && Nodup(s.order) && s.order[p] < |at|
    requires forall k :: 0 <= k < |s.order| ==> t.order[k] == s.order[BufferRing.Before(p, k)]
    requires forall j: nat :: j < |at| && j != s.order[p] ==> !Lost(s, t, j) && at'[j] == at[j] < at'[s.order[p]]
    ensures InOrder(t.bufs, t.order, at')
  {
    forall a, b | 0 <= a < b < |t.order| && Free(t.bufs, t.order[a]) && Free(t.bufs, t.order[b])
      ensures at'[t.order[a]] > at'[t.order[b]]
    {
      var a0, b0 := BufferRing.Before(p, a), BufferRing.Before(p, b);
      assert t.order[a] == s.order[a0] && t.order[b] == s.order[b0] && b0 != p;
      if a > 0 {
        assert a0 < b0 && a0 != p && !Lost(s, t, s.order[a0]) && !Lost(s, t, s.order[b0]);
        assert Free(s.bufs, s.order[a0]) && Free(s.bufs, s.order[b0]);
      }
    }
  }

  lemma KeptAtStart(s: Cache, at: seq<nat>, m: nat)
    requires |at| == |s.bufs| && s.order == BufferRing.Startup(|s.bufs|)
    requires forall i :: 0 <= i < |at| ==> at[i] == m + i
    ensures Kept(s, at)
  {
    StartupListed(|s.bufs|);
  }

  lemma StepKeeps(c: Config, tr: seq<Cache>, steps: seq<CStep>, k: nat)
    requires CRun(c, tr, steps) && k < |steps| && CInv(c, tr[k]) && Kept(tr[k], Times(tr, steps, k))
    ensures Kept(tr[k + 1], Times(tr, steps, k + 1))
  {
    hide CInv, CRun, Kept, BufferRing.Fronted;
    RunStep(c, tr, steps, k);
    var s, e, t := tr[k], steps[k], tr[k + 1];
    var at, at' := Times(tr, steps, k), Times(tr, steps, k + 1);
    KeptSizes(s, at);
    OrderStep(c, s, e);
    if e.PowerFail? {
      KeptAtStart(t, at', (k + 1) * |at|);
    } else {
      forall j: nat | j < |at| && !(e.Drop? && e.i == j)
        ensures !Lost(s, t, j) && at'[j] == at[j]
      {
        OnlyDropReleases(c, s, e, j);
      }
      if e.Drop? && s.bufs[e.i].refcnt == 1 {
        forall j: nat | j < |at| && j != e.i
          ensures at[j] < at'[e.i]
        {
          ReleasedBefore(tr, steps, k, j);
          Later(k + 1, |at|);
          assert Lost(s, t, e.i);
        }
        KeptByFront(s, t, at, at', e.i);
      } else {
        assert e.Drop? ==> !Lost(s, t, e.i);
        KeptByOthers(s, t, at, at');
      }
    }
  }

  lemma RunStep(c: Config, tr: seq<Cache>, steps: seq<CStep>, k: nat)
    requires CRun(c, tr, steps) && k < |steps|
    ensures |tr| == |steps| + 1 && CMoves(c, tr, k, steps[k])
  {
  }

  lemma KeptSizes(s: Cache, at: seq<nat>)
    requires Kept(s, at)
    ensures |at| == |s.bufs|
  {
  }

  lemma OrderStep(c: Config, s: Cache, e: CStep)
    requires Shape(c, s.log) && CEnabled(c, s, e)
    ensures var t := CNext(c, s, e);
            && |t.bufs| == |s.bufs|
            && t.order == (if e.PowerFail? then BufferRing.Startup(|s.bufs|)
                           else if e.Drop? && s.bufs[e.i].refcnt == 1 then BufferRing.Fronted(s.order, e.i)
                           else s.order)
            && (e.Drop? ==> e.i < |s.bufs| && t.bufs[e.i].refcnt == s.bufs[e.i].refcnt - 1)
  {
    hide LogMachine.Next, LogMachine.EncodeHead, BufferRing.Choice, BufferRing.Fronted;
  }

  lemma {:induction false} OrderInRuns(c: Config, tr: seq<Cache>, steps: seq<CStep>, k: nat)
    requires CRun(c, tr, steps) && k <= |steps|
    ensures CInv(c, tr[k]) && Kept(tr[k], Times(tr, steps, k))
  {
    hide CInv, Kept;
    RunKeepsCInv(c, tr, steps, k);
    if k == 0 {
      KeptAtStart(tr[0], Times(tr, steps, 0), 0);
    } else {
      OrderInRuns(c, tr, steps, k - 1);
      StepKeeps(c, tr, steps, k - 1);
    }
  }

  // ---------------------------------------------------------------- what bget takes

  /** In every run, crashes included: the buffer that bget recycles is unreferenced, and every other
      unreferenced buffer lost its last reference later. */
  lemma RecyclesOldest(c: Config, tr: seq<Cache>, steps: seq<CStep>, k: nat)
    requires CRun(c, tr, steps) && k < |steps| && steps[k].Recycle?
    ensures steps[k].i < |tr[k].bufs| && tr[k].bufs[steps[k].i].refcnt == 0
    ensures forall j: nat :: j < |tr[k].bufs| && j != steps[k].i && tr[k].bufs[j].refcnt == 0 ==>
              ReleasedAt(tr, steps, k, steps[k].i) < ReleasedAt(tr, steps, k, j)
  {
    hide CInv;
    OrderInRuns(c, tr, steps, k);
    assert CMoves(c, tr, k, steps[k]);
    var s, i := tr[k], steps[k].i;
    var p :| 0 <= p < |s.order| && s.order[p] == i && BufferRing.ChoiceAt(Refs(s.bufs), s.order, p);
    forall j: nat | j < |s.bufs| && j != i && s.bufs[j].refcnt == 0
      ensures ReleasedAt(tr, steps, k, i) < ReleasedAt(tr, steps, k, j)
    {
      assert j in s.order;
      var a :| 0 <= a < |s.order| && s.order[a] == j;
      assert Free(s.bufs, s.order[a]) && Free(s.bufs, s.order[p]);
      assert a < p;
    }
  }

  /** And bget takes one whenever the block is not cached and some buffer is unreferenced. */
  lemma SomeChoice(c: Config, tr: seq<Cache>, steps: seq<CStep>, k: nat, t: Tid, b: nat)
    requires CRun(c, tr, steps) && k <= |steps| && b < c.blocks && !Cached(tr[k], b)
    ensures (exists i :: CEnabled(c, tr[k], Recycle(t, i, b))) <==>
              exists i :: 0 <= i < |tr[k].bufs| && tr[k].bufs[i].refcnt == 0
  {
    hide CInv, CacheMachine.Cached;
    OrderInRuns(c, tr, steps, k);
    var s := tr[k];
    if i :| 0 <= i < |s.bufs| && s.bufs[i].refcnt == 0 {
      assert i in s.order;
      var a :| 0 <= a < |s.order| && s.order[a] == i;
      assert forall k :: 0 <= k < |s.order| ==> s.order[k] in s.order;
      var p := LastFree(Refs(s.bufs), s.order, |s.order|, a);
      assert BufferRing.Choice(Refs(s.bufs), s.order, s.order[p]);
      assert CEnabled(c, s, Recycle(t, s.order[p], b));
    }
  }

  /** The backward walk from position m finds a free buffer. */
  lemma {:induction false} LastFree(refs: seq<nat>, order: seq<nat>, m: nat, a: nat) returns (p: nat)
    requires a < m <= |order| && (forall k :: 0 <= k < |order| ==> order[k] < |refs|) && refs[order[a]] == 0
    requires forall k :: m <= k < |order| ==> refs[order[k]] != 0
    ensures p < |order| && BufferRing.ChoiceAt(refs, order, p)
    decreases m
  {
    if refs[order[m - 1]] == 0 {
      p := m - 1;
    } else {
      p := LastFree(refs, order, m - 1, a);
    }
  }
}
