/** The recency list of kernel/bio.c: buffers on a doubly linked ring through a head,
    updated by pointer writes, with least-recently-released recycling.
 */
module BufferRing {
  import opened Prelude

  const NBUF: nat := 30
  const HEAD: nat := NBUF      // bcache.head, as one more ring node

  datatype Node = Node(dev: nat, blockno: nat, valid: bool, refcnt: nat, prev: nat, next: nat)

  type Nodes = seq<Node>

  function SetNext(s: Nodes, i: nat, x: nat): Nodes
    requires i < |s|
  {
    s[i := s[i].(next := x)]
  }

  function SetPrev(s: Nodes, i: nat, x: nat): Nodes
    requires i < |s|
  {
    s[i := s[i].(prev := x)]
  }

  // ---------------------------------------------------------------- the ring

  /** The ring visited from the head and back to it. */
  function Path(order: seq<nat>): (p: seq<nat>)
  {
    [HEAD] + order + [HEAD]
  }

  /** The next and prev pointers make one cycle through the head and exactly the buffers of
      `order`, most recently released first. */
  ghost predicate Linked(s: Nodes, order: seq<nat>)
  {
    && |s| == NBUF + 1 && Nodup(order)
    && (forall k :: 0 <= k < |order| ==> order[k] < NBUF)
    && forall k :: 0 <= k <= |order| ==>
         s[Path(order)[k]].next == Path(order)[k + 1] && s[Path(order)[k + 1]].prev == Path(order)[k]
  }

  lemma LinkedSize(s: Nodes, order: seq<nat>)
    requires Linked(s, order)
    ensures |s| == NBUF + 1 && Nodup(order) && forall k :: 0 <= k < |order| ==> order[k] < NBUF
  {
  }

  function Removed(order: seq<nat>, p: nat): seq<nat>
    requires p < |order|
  {
    order[..p] + order[p + 1..]
  }

  // ---------------------------------------------------------------- the order of the list

  /** The order binit leaves: each buffer was put at the head. */
  function Startup(n: nat): (order: seq<nat>)
    ensures |order| == n && forall k :: 0 <= k < n ==> order[k] == n - 1 - k
  {
    seq(n, k requires 0 <= k < n => n - 1 - k)
  }

  function Taken(order: seq<nat>, i: nat): seq<nat>
  {
    if order == [] then [] else if order[0] == i then order[1..] else [order[0]] + Taken(order[1..], i)
  }

  /** The order after buffer i was moved to the head. */
  function Fronted(order: seq<nat>, i: nat): seq<nat>
  {
    [i] + Taken(order, i)
  }

  lemma {:induction false} TakenIsRemoved(order: seq<nat>, p: nat)
    requires Nodup(order) && p < |order|
    ensures Taken(order, order[p]) == Removed(order, p)
  {
    if p > 0 {
      assert order[1..][p - 1] == order[p];
      TakenIsRemoved(order[1..], p - 1);
      assert Removed(order, p) == [order[0]] + Removed(order[1..], p - 1);
    }
  }

  /** Where position k of the list was before the buffer at p went to the head. */
  function Before(p: nat, k: nat): nat
  {
    if k == 0 then p else if k <= p then k - 1 else k
  }

  lemma FrontAt(order: seq<nat>, p: nat, order': seq<nat>)
    requires Nodup(order) && p < |order| && order' == [order[p]] + Removed(order, p)
    ensures |order'| == |order| && Nodup(order') && forall k :: 0 <= k < |order| ==> order'[k] == order[Before(p, k)]
  {
  }

  /** The buffer at position p has no references, and every one nearer the tail has. */
  predicate ChoiceAt(refs: seq<nat>, order: seq<nat>, p: nat)
    requires p < |order|
  {
    && order[p] < |refs| && refs[order[p]] == 0
    && forall j :: p < j < |order| ==> order[j] < |refs| && refs[order[j]] != 0
  }

  /** bget's choice: i is the unreferenced buffer nearest the tail. */
  predicate Choice(refs: seq<nat>, order: seq<nat>, i: nat)
  {
    exists p :: 0 <= p < |order| && order[p] == i && ChoiceAt(refs, order, p)
  }

  function Refs(s: Nodes): (r: seq<nat>)
    requires |s| == NBUF + 1
    ensures |r| == NBUF && forall i :: 0 <= i < NBUF ==> r[i] == s[i].refcnt
  {
    seq(NBUF, i requires 0 <= i < NBUF => s[i].refcnt)
  }

  // ---------------------------------------------------------------- moving a node

  /** The two pointer writes that take a node out of the ring. */
  function Unlinked(s: Nodes, i: nat): Nodes
    requires i < |s| && s[i].next < |s| && s[i].prev < |s|
  {
    var s1 := SetPrev(s, s[i].next, s[i].prev);
    SetNext(s1, s1[i].prev, s1[i].next)
  }

  lemma UnlinkOne(s: Nodes, order: seq<nat>, p: nat)
    requires Linked(s, order) && p < |order|
    ensures var i := order[p];
            && s[i].next < |s| && s[i].prev < |s|
            && Linked(Unlinked(s, i), Removed(order, p))
  {
    var i := order[p];
    var path := Path(order);
    assert path[p + 1] == i;
    assert s[path[p]].next == path[p + 1] && s[path[p + 1]].prev == path[p];
    assert s[path[p + 1]].next == path[p + 2] && s[path[p + 2]].prev == path[p + 1];
    var s' := Unlinked(s, i);
    var order' := Removed(order, p);
    var path' := Path(order');
    forall k | 0 <= k <= |order'|
      ensures s'[path'[k]].next == path'[k + 1] && s'[path'[k + 1]].prev == path'[k]
    {
      if k < p {
        assert path'[k] == path[k] && path'[k + 1] == path[k + 1];
      } else if k == p {
        assert path'[k] == path[p] && path'[k + 1] == path[p + 2];
      } else {
        assert path'[k] == path[k + 1] && path'[k + 1] == path[k + 2];
        assert s[path[k + 1]].next == path[k + 1 + 1];
      }
    }
  }

  /** The four pointer writes that put a node right after the head. */
  function Pushed(s: Nodes, i: nat): Nodes
    requires i < |s| == NBUF + 1 && s[HEAD].next < |s|
  {
    var s1 := SetNext(s, i, s[HEAD].next);
    var s2 := SetPrev(s1, i, HEAD);
    var s3 := SetPrev(s2, s2[HEAD].next, i);
    SetNext(s3, HEAD, i)
  }

  lemma PushOne(s: Nodes, order: seq<nat>, i: nat)
    requires Linked(s, order) && i < NBUF && i !in order
    ensures s[HEAD].next < |s| && Linked(Pushed(s, i), [i] + order)
  {
    var path := Path(order);
    assert s[path[0]].next == path[1] && s[path[1]].prev == path[0];
    var s' := Pushed(s, i);
    var order' := [i] + order;
    var path' := Path(order');
    forall k | 0 <= k <= |order'|
      ensures s'[path'[k]].next == path'[k + 1] && s'[path'[k + 1]].prev == path'[k]
    {
      if k >= 1 {
        assert path'[k] == if k == 1 then i else path[k - 1];
        assert path'[k + 1] == path[k];
        assert s[path[k - 1]].next == path[k - 1 + 1];
      }
    }
  }

  lemma UnlinkedPointersOnly(s: Nodes, i: nat)
    requires |s| == NBUF + 1 && i < NBUF && s[i].next < |s| && s[i].prev < |s|
    ensures |Unlinked(s, i)| == |s| && forall k :: 0 <= k < |s| ==> SameBuf(s[k], Unlinked(s, i)[k])
  {
  }

  lemma PushedPointersOnly(s: Nodes, i: nat)
    requires |s| == NBUF + 1 && i < NBUF && s[HEAD].next < |s|
    ensures |Pushed(s, i)| == |s| && forall k :: 0 <= k < |s| ==> SameBuf(s[k], Pushed(s, i)[k])
  {
  }

  /** Moving a node to the front of the ring, as brelse does with the last reference. */
  lemma MovedToFront(s: Nodes, order: seq<nat>, p: nat)
    requires Linked(s, order) && p < |order|
    ensures var b := order[p];
            && s[b].next < |s| && s[b].prev < |s| && Unlinked(s, b)[HEAD].next < |s|
            && var s' := Pushed(Unlinked(s, b), b);
            && Linked(s', [b] + Removed(order, p)) && s'[HEAD].next == b
            && (forall i :: 0 <= i < NBUF ==> SameBuf(s'[i], s[i]))
  {
    var b := order[p];
    UnlinkOne(s, order, p);
    PushOne(Unlinked(s, b), Removed(order, p), b);
    UnlinkedPointersOnly(s, b);
    PushedPointersOnly(Unlinked(s, b), b);
    var s' := Pushed(Unlinked(s, b), b);
    forall i | 0 <= i < NBUF
      ensures SameBuf(s'[i], s[i])
    {
      assert SameBuf(s[i], Unlinked(s, b)[i]) && SameBuf(Unlinked(s, b)[i], s'[i]);
    }
  }

  ghost predicate SameBuf(a: Node, b: Node)
  {
    a.dev == b.dev && a.blockno == b.blockno && a.valid == b.valid && a.refcnt == b.refcnt
  }

  lemma LinkedFrame(s: Nodes, s': Nodes, order: seq<nat>)
    requires Linked(s, order) && |s'| == |s|
    requires forall k :: 0 <= k < |s| ==> s'[k].next == s[k].next && s'[k].prev == s[k].prev
    ensures Linked(s', order)
  {
    var path := Path(order);
    forall k | 0 <= k <= |order|
      ensures s'[path[k]].next == path[k + 1] && s'[path[k + 1]].prev == path[k]
    {
      assert s[path[k]].next == path[k + 1] && s[path[k + 1]].prev == path[k];
    }
  }

  // ---------------------------------------------------------------- recency

  /** Among unreferenced buffers, those nearer the head were released later. */
  ghost predicate Recency(s: Nodes, order: seq<nat>, released: seq<int>)
    requires |s| == NBUF + 1 && |released| == NBUF
    requires forall k :: 0 <= k < |order| ==> order[k] < NBUF
  {
    forall a, b :: 0 <= a < b < |order| && s[order[a]].refcnt == 0 && s[order[b]].refcnt == 0 ==>
      released[order[a]] > released[order[b]]
  }

  ghost predicate All(order: seq<nat>)
  {
    forall i :: 0 <= i < NBUF ==> i in order
  }

  ghost predicate UniqueBlocks(s: Nodes)
    requires |s| == NBUF + 1
  {
    forall i, j :: 0 <= i < j < NBUF && s[i].dev != 0 && s[i].dev == s[j].dev ==> s[i].blockno != s[j].blockno
  }

  class Bcache {
    var bufs: Nodes
    ghost var order: seq<nat>
    ghost var released: seq<int>   // when each buffer last lost its last reference
    ghost var clock: int

    ghost predicate Valid()
      reads this
    {
      && Linked(bufs, order) && All(order) && UniqueBlocks(bufs)
      && |released| == NBUF && forall i :: 0 <= i < NBUF ==> released[i] < clock
    }

    ghost predicate Lru()
      requires Valid()
      reads this
    {
      Recency(bufs, order, released)
    }

    /** binit */
    constructor ()
      ensures Valid() && Lru() && order == Startup(NBUF)
      ensures forall i :: 0 <= i < NBUF ==> bufs[i].refcnt == 0 && bufs[i].dev == 0 && !bufs[i].valid
    {
      bufs := seq(NBUF + 1, _ => Node(0, 0, false, 0, HEAD, HEAD));
      order := [];
      released := seq(NBUF, i => i);
      clock := NBUF;
      new;
      for i := 0 to NBUF
        invariant Linked(bufs, order) && |order| == i && |released| == NBUF && clock == NBUF
        invariant forall k :: 0 <= k < i ==> order[k] == i - 1 - k
        invariant forall k :: 0 <= k < NBUF ==> released[k] == k
        invariant forall k :: 0 <= k <= NBUF ==> SameBuf(bufs[k], Node(0, 0, false, 0, 0, 0))
      {
        PushOne(bufs, order, i);
        bufs := Pushed(bufs, i);
        order := [i] + order;
      }
      forall i | 0 <= i < NBUF
        ensures i in order
      {
        assert order[NBUF - 1 - i] == i;
      }
      assert order == Startup(NBUF);
    }

    /** The first loop of bget: walk forward from the head. */
    method FindBlock(dev: nat, blockno: nat) returns (b: nat)
      requires Valid()
      ensures b <= NBUF
      ensures b < NBUF ==> bufs[b].dev == dev && bufs[b].blockno == blockno
      ensures b == HEAD ==> forall i :: 0 <= i < NBUF ==> bufs[i].dev != dev || bufs[i].blockno != blockno
    {
      ghost var k := 0;
      b := bufs[HEAD].next;
      assert Path(order)[0] == HEAD;
      while b != HEAD
        invariant 0 <= k <= |order| && b == Path(order)[k + 1]
        invariant forall j :: 0 <= j < k ==> bufs[order[j]].dev != dev || bufs[order[j]].blockno != blockno
        decreases |order| - k
      {
        assert b == order[k];
        if bufs[b].dev == dev && bufs[b].blockno == blockno {
          return;
        }
        k := k + 1;
        assert Path(order)[k] == b;
        b := bufs[b].next;
      }
      assert k == |order|;
      forall i | 0 <= i < NBUF
        ensures bufs[i].dev != dev || bufs[i].blockno != blockno
      {
        assert i in order;
        var j :| 0 <= j < |order| && order[j] == i;
      }
    }

    /** The second loop of bget: walk backward from the head. */
    method FindUnused() returns (b: nat, ghost p: nat)
      requires Valid()
      ensures b <= NBUF
      ensures b < NBUF ==> p < |order| && order[p] == b && bufs[b].refcnt == 0
      ensures b < NBUF ==> forall j :: p < j < |order| ==> bufs[order[j]].refcnt != 0
      ensures b == HEAD ==> forall i :: 0 <= i < NBUF ==> bufs[i].refcnt != 0
    {
      p := |order|;
      b := bufs[HEAD].prev;
      assert Path(order)[|order| + 1] == HEAD;
      while b != HEAD
        invariant 0 <= p <= |order| && b == Path(order)[p]
        invariant forall j :: p <= j < |order| ==> bufs[order[j]].refcnt != 0
        decreases p
      {
        p := p - 1;
        assert b == order[p];
        if bufs[b].refcnt == 0 {
          return;
        }
        assert Path(order)[p + 1] == b;
        b := bufs[b].prev;
      }
      assert p == 0;
      forall i | 0 <= i < NBUF
        ensures bufs[i].refcnt != 0
      {
        assert i in order;
        var j :| 0 <= j < |order| && order[j] == i;
      }
    }

    /** bget, up to the point where the buffer's lock is waited for. A cached block gets one
        more reference; otherwise the buffer nearest the tail without references is taken,
        which, while the list is kept in order of release, is the one released longest ago. */
    method Bget(dev: nat, blockno: nat) returns (b: nat, panicked: bool)
      requires Valid() && dev != 0
      modifies this`bufs
      ensures Valid() && (old(Lru()) ==> Lru())
      ensures !panicked ==> b < NBUF && bufs[b].dev == dev && bufs[b].blockno == blockno
      ensures forall i :: 0 <= i < NBUF && old(bufs)[i].dev == dev && old(bufs)[i].blockno == blockno ==>
                !panicked && b == i && bufs == old(bufs)[i := old(bufs)[i].(refcnt := old(bufs)[i].refcnt + 1)]
      ensures !panicked && (old(bufs)[b].dev != dev || old(bufs)[b].blockno != blockno) ==>
                && Choice(Refs(old(bufs)), order, b)
                && bufs == old(bufs)[b := old(bufs)[b].(dev := dev, blockno := blockno, valid := false, refcnt := 1)]
                && (old(Lru()) ==> forall i :: 0 <= i < NBUF && i != b && old(bufs)[i].refcnt == 0 ==>
                                     released[b] < released[i])
      ensures panicked ==> bufs == old(bufs) && forall i :: 0 <= i < NBUF ==> bufs[i].refcnt != 0
    {
      hide Linked, All;
      LinkedSize(bufs, order);
      b := FindBlock(dev, blockno);
      if b != HEAD {
        ghost var was := bufs;
        bufs := bufs[b := bufs[b].(refcnt := bufs[b].refcnt + 1)];
        LinkedFrame(was, bufs, order);
        return b, false;
      }
      ghost var p;
      b, p := FindUnused();
      if b != HEAD {
        ghost var was := bufs;
        OldestIsLast(bufs, order, released, p);
        assert ChoiceAt(Refs(bufs), order, p);
        bufs := bufs[b := bufs[b].(dev := dev, blockno := blockno, valid := false, refcnt := 1)];
        LinkedFrame(was, bufs, order);
        return b, false;
      }
      return b, true;
    }

    /** The six pointer writes of brelse. */
    method MoveNode(b: nat, ghost p: nat)
      requires Linked(bufs, order) && p < |order| && order[p] == b
      modifies this`bufs
      ensures Linked(bufs, [b] + Removed(order, p)) && bufs[HEAD].next == b
      ensures forall i :: 0 <= i < NBUF ==> SameBuf(bufs[i], old(bufs)[i])
    {
      MovedToFront(bufs, order, p);
      bufs := SetPrev(bufs, bufs[b].next, bufs[b].prev);
      bufs := SetNext(bufs, bufs[b].prev, bufs[b].next);
      bufs := SetNext(bufs, b, bufs[HEAD].next);
      bufs := SetPrev(bufs, b, HEAD);
      bufs := SetPrev(bufs, bufs[HEAD].next, b);
      bufs := SetNext(bufs, HEAD, b);
    }

    /** brelse, after the buffer's lock is released: the last reference moves the buffer to
        the head of the list. */
    method Brelse(b: nat)
      requires Valid() && b < NBUF && bufs[b].refcnt > 0
      modifies this
      ensures Valid() && (old(Lru()) ==> Lru())
      ensures bufs[b].refcnt == old(bufs)[b].refcnt - 1 && SameBlock(bufs[b], old(bufs)[b])
      ensures forall i :: 0 <= i < NBUF && i != b ==> SameBuf(bufs[i], old(bufs)[i])
      ensures if old(bufs)[b].refcnt > 1 then order == old(order) && released == old(released)
              else order == Fronted(old(order), b) && released == old(released)[b := old(clock)]
    {
      ghost var was := bufs;
      bufs := bufs[b := bufs[b].(refcnt := bufs[b].refcnt - 1)];
      LinkedFrame(was, bufs, order);
      if bufs[b].refcnt == 0 {
        ToFront(b, was);
      }
    }

    /** The branch of brelse for the last reference; `was` is the list before the decrement. */
    method ToFront(b: nat, ghost was: Nodes)
      requires Valid() && b < NBUF && Linked(was, order)
      requires bufs == was[b := was[b].(refcnt := 0)]
      modifies this
      ensures Valid() && order == Fronted(old(order), b)
      ensures Recency(was, old(order), old(released)) ==> Lru()
      ensures forall i :: 0 <= i < NBUF ==> SameBuf(bufs[i], old(bufs)[i])
      ensures released == old(released)[b := old(clock)]
    {
      hide Linked, Recency, Removed, Taken;
      assert b in order;
      ghost var p :| 0 <= p < |order| && order[p] == b;
      LinkedSize(was, order);
      LinkedSize(bufs, order);
      MoveNode(b, p);
      LinkedSize(bufs, [b] + Removed(order, p));
      FrontIsNewest(was, bufs, order, released, p, clock);
      TakenIsRemoved(order, p);
      order := [b] + Removed(order, p);
      released := released[b := clock];
      clock := clock + 1;
    }

    method Bpin(b: nat)
      requires Valid() && b < NBUF && bufs[b].refcnt > 0
      modifies this`bufs
      ensures Valid() && (Lru() <==> old(Lru()))
      ensures bufs == old(bufs)[b := old(bufs)[b].(refcnt := old(bufs)[b].refcnt + 1)]
    {
      ghost var was := bufs;
      bufs := bufs[b := bufs[b].(refcnt := bufs[b].refcnt + 1)];
      LinkedFrame(was, bufs, order);
    }

    /** bunpin moves nothing. Dropping the last reference this way leaves the list in order of
        release exactly when every other unreferenced buffer is already nearer the tail. */
    method Bunpin(b: nat)
      requires Valid() && b < NBUF && bufs[b].refcnt > 0
      modifies this
      ensures Valid() && order == old(order)
      ensures bufs == old(bufs)[b := old(bufs)[b].(refcnt := old(bufs)[b].refcnt - 1)]
      ensures released == if bufs[b].refcnt > 0 then old(released) else old(released)[b := old(clock)]
      ensures bufs[b].refcnt > 0 ==> (Lru() <==> old(Lru()))
      ensures bufs[b].refcnt == 0 && old(Lru()) ==> (Lru() <==> NearestHead(bufs, order, b))
    {
      ghost var was := bufs;
      bufs := bufs[b := bufs[b].(refcnt := bufs[b].refcnt - 1)];
      LinkedFrame(was, bufs, order);
      if bufs[b].refcnt == 0 {
        DroppedInPlace(was, bufs, order, released, b, clock);
        released := released[b := clock];
        clock := clock + 1;
      }
    }
  }

  ghost predicate SameBlock(a: Node, b: Node)
  {
    a.dev == b.dev && a.blockno == b.blockno && a.valid == b.valid
  }

  /** Every other unreferenced buffer is nearer the tail than b. */
  ghost predicate NearestHead(s: Nodes, order: seq<nat>, b: nat)
    requires |s| == NBUF + 1 && forall k :: 0 <= k < |order| ==> order[k] < NBUF
  {
    forall x, y :: 0 <= x < |order| && 0 <= y < |order| && order[y] == b && order[x] != b && s[order[x]].refcnt == 0 ==>
      y < x
  }

  lemma DroppedInPlace(s: Nodes, s': Nodes, order: seq<nat>, released: seq<int>, b: nat, clock: int)
    requires Linked(s, order) && b < NBUF && b in order && |released| == NBUF && |s'| == |s|
    requires s[b].refcnt > 0 && s' == s[b := s'[b]] && s'[b].refcnt == 0
    requires forall i :: 0 <= i < NBUF ==> released[i] < clock
    ensures Recency(s, order, released) ==>
              (Recency(s', order, released[b := clock]) <==> NearestHead(s', order, b))
  {
    var r := released[b := clock];
    if Recency(s, order, released) && Recency(s', order, r) {
      forall x, y | && 0 <= x < |order| && 0 <= y < |order| && order[y] == b && order[x] != b
                    && s'[order[x]].refcnt == 0
        ensures y < x
      {
        assert r[order[x]] < r[order[y]];
      }
    }
  }

  /** Moving the buffer released now to the front keeps the list in order of release. */
  lemma FrontIsNewest(s: Nodes, s': Nodes, order: seq<nat>, released: seq<int>, p: nat, clock: int)
    requires Linked(s, order) && All(order) && |released| == NBUF && |s'| == |s| && p < |order|
    requires forall i :: 0 <= i < NBUF ==> released[i] < clock
    requires forall i :: 0 <= i < NBUF && i != order[p] ==> s'[i].refcnt == s[i].refcnt
    ensures var order' := [order[p]] + Removed(order, p);
            && All(order') && (forall k :: 0 <= k < |order'| ==> order'[k] < NBUF)
            && (Recency(s, order, released) ==> Recency(s', order', released[order[p] := clock]))
  {
    hide Recency;
    LinkedSize(s, order);
    var order' := [order[p]] + Removed(order, p);
    FrontAt(order, p, order');
    hide Removed, Linked;
    forall i | 0 <= i < NBUF
      ensures i in order'
    {
      assert i in order;
      var k :| 0 <= k < |order| && order[k] == i;
      assert order'[if k < p then k + 1 else if k == p then 0 else k] == i;
    }
    if Recency(s, order, released) {
      NewestFirst(s, s', order, released, p, clock, order');
    }
  }

  lemma NewestFirst(s: Nodes, s': Nodes, order: seq<nat>, released: seq<int>, p: nat, clock: int, order': seq<nat>)
    requires |s| == |s'| == NBUF + 1 && |released| == NBUF && p < |order| == |order'| && Nodup(order)
    requires forall k :: 0 <= k < |order| ==> order[k] < NBUF && order'[k] == order[Before(p, k)]
    requires forall i :: 0 <= i < NBUF ==> released[i] < clock
    requires forall i :: 0 <= i < NBUF && i != order[p] ==> s'[i].refcnt == s[i].refcnt
    requires Recency(s, order, released)
    ensures forall k :: 0 <= k < |order'| ==> order'[k] < NBUF
    ensures Recency(s', order', released[order[p] := clock])
  {
    var r := released[order[p] := clock];
    forall x, y | 0 <= x < y < |order'| && s'[order'[x]].refcnt == 0 && s'[order'[y]].refcnt == 0
      ensures r[order'[x]] > r[order'[y]]
    {
      var x0, y0 := Before(p, x), Before(p, y);
      assert order'[x] == order[x0] && order'[y] == order[y0] && y0 != p && order[y0] != order[p];
      if x > 0 {
        assert x0 < y0 && x0 != p && order[x0] != order[p];
      }
    }
  }

  lemma OldestIsLast(s: Nodes, order: seq<nat>, released: seq<int>, p: nat)
    requires Linked(s, order) && All(order) && |released| == NBUF && p < |order|
    requires s[order[p]].refcnt == 0 && forall j :: p < j < |order| ==> s[order[j]].refcnt != 0
    ensures Recency(s, order, released) ==>
              forall i :: 0 <= i < NBUF && i != order[p] && s[i].refcnt == 0 ==> released[order[p]] < released[i]
  {
    if Recency(s, order, released) {
      forall i | 0 <= i < NBUF && i != order[p] && s[i].refcnt == 0
        ensures released[order[p]] < released[i]
      {
        assert i in order;
        var a :| 0 <= a < |order| && order[a] == i;
        assert a < p;
      }
    }
  }
}
