/** user/umalloc.c: the storage allocator of section 8.7 of Kernighan and Ritchie, "The C
    Programming Language". Addresses and sizes are counted in units of one header (16 bytes).
 */
module Heap {
  import opened Prelude

  const UNIT: nat := 16                       // sizeof(Header)
  const WORDS: nat := 0x1_0000_0000 / UNIT    // the units in 2^32 bytes
  const LIMIT: nat := WORDS / 2               // physical memory, 128 MB, keeps a process below 2^31 bytes
  const GRAIN: nat := 4096                    // the least morecore asks for

  // ---------------------------------------------------------------- the free list

  function Next(n: nat, i: nat): (j: nat)
    requires i < n
    ensures j < n
  {
    if i + 1 < n then i + 1 else 0
  }

  ghost predicate Linked(ptr: map<nat, nat>, fl: seq<nat>, i: nat)
    requires i < |fl|
  {
    fl[i] in ptr && ptr[fl[i]] == fl[Next(|fl|, i)]
  }

  /** The ptr fields link the blocks of the list, in order, into one cycle. */
  ghost predicate Ring(ptr: map<nat, nat>, fl: seq<nat>)
  {
    forall i :: 0 <= i < |fl| ==> Linked(ptr, fl, i)
  }

  /** A free block that is not `base` has units, and ends before the next free block begins. */
  ghost predicate Apart(size: map<nat, nat>, fl: seq<nat>, i: nat)
    requires i < |fl|
  {
    && fl[i] in size && (i > 0 ==> size[fl[i]] > 0)
    && (i + 1 < |fl| ==> fl[i] + size[fl[i]] < fl[i + 1])
  }

  /** The list starts with the empty block `base` and is ordered by address, and between two
      blocks on it there is always something that is not free. */
  ghost predicate Gaps(size: map<nat, nat>, base: nat, fl: seq<nat>)
  {
    && |fl| > 0 && fl[0] == base && base in size && size[base] == 0
    && forall i :: 0 <= i < |fl| ==> Apart(size, fl, i)
  }

  lemma {:induction false} Ordered(size: map<nat, nat>, base: nat, fl: seq<nat>, i: nat, j: nat)
    requires Gaps(size, base, fl) && i < j < |fl|
    ensures fl[i] in size && fl[i] + size[fl[i]] < fl[j]
    decreases j
  {
    assert Apart(size, fl, i) && Apart(size, fl, j - 1);
    if i + 1 < j {
      Ordered(size, base, fl, i, j - 1);
    }
  }

  /** The units of block h are exactly the n from h on. */
  ghost predicate Holds(owner: map<nat, nat>, h: nat, n: nat)
  {
    forall u :: u in owner && owner[u] == h <==> h <= u < h + n
  }

  /** h is on the list, `base` aside. */
  ghost predicate Listed(fl: seq<nat>, h: nat)
  {
    exists i :: 1 <= i < |fl| && fl[i] == h
  }

  ghost predicate FreeOk(size: map<nat, nat>, owner: map<nat, nat>, h: nat)
  {
    h in size && Holds(owner, h, size[h])
  }

  ghost predicate LiveOk(size: map<nat, nat>, base: nat, fl: seq<nat>, live: map<nat, nat>, owner: map<nat, nat>,
                         h: nat)
    requires h in live
  {
    h in size && size[h] == live[h] > 0 && h != base && !Listed(fl, h) && Holds(owner, h, live[h])
  }

  /** owner tells for each unit that sbrk supplied the one block it is in; each block is either
      on the free list or live, and its size field counts its units. */
  ghost predicate Owned(size: map<nat, nat>, base: nat, fl: seq<nat>, live: map<nat, nat>, owner: map<nat, nat>)
  {
    && (forall i :: 1 <= i < |fl| ==> FreeOk(size, owner, fl[i]))
    && (forall h :: h in live ==> LiveOk(size, base, fl, live, owner, h))
    && (forall u :: u in owner ==> base < u < LIMIT && (owner[u] in live || Listed(fl, owner[u])))
  }

  ghost predicate Inv(ptr: map<nat, nat>, size: map<nat, nat>, base: nat, fl: seq<nat>, live: map<nat, nat>,
                      owner: map<nat, nat>)
  {
    Ring(ptr, fl) && Gaps(size, base, fl) && Owned(size, base, fl, live, owner)
  }

  // ---------------------------------------------------------------- list surgery

  /** The list without the block after position k. */
  function Without(fl: seq<nat>, k: nat): (r: seq<nat>)
    requires k + 1 < |fl|
    ensures |r| == |fl| - 1 && forall i :: 0 <= i < |r| ==> r[i] == fl[if i <= k then i else i + 1]
  {
    fl[..k + 1] + fl[k + 2..]
  }

  /** The list with block b put in after position k. */
  function With(fl: seq<nat>, k: nat, b: nat): (r: seq<nat>)
    requires k < |fl|
    ensures |r| == |fl| + 1 && r[k + 1] == b
    ensures forall i :: 0 <= i < |r| && i != k + 1 ==> r[i] == fl[if i <= k then i else i - 1]
  {
    fl[..k + 1] + [b] + fl[k + 1..]
  }

  lemma LinkedWithout(ptr: map<nat, nat>, fl: seq<nat>, k: nat, i: nat)
    requires Ring(ptr, fl) && k + 1 < |fl| && i < |fl| - 1 && forall j :: 0 <= j < |fl| && j != k ==> fl[j] != fl[k]
    ensures fl[k] in ptr && fl[k + 1] in ptr && Linked(ptr[fl[k] := ptr[fl[k + 1]]], Without(fl, k), i)
  {
    hide Without;
    var j := if i <= k then i else i + 1;
    assert Linked(ptr, fl, j) && Linked(ptr, fl, k) && Linked(ptr, fl, k + 1);
  }

  lemma RingRemove(ptr: map<nat, nat>, fl: seq<nat>, k: nat)
    requires Ring(ptr, fl) && k + 1 < |fl| && forall i, j :: 0 <= i < j < |fl| ==> fl[i] < fl[j]
    ensures fl[k] in ptr && fl[k + 1] in ptr && Ring(ptr[fl[k] := ptr[fl[k + 1]]], Without(fl, k))
  {
    assert Linked(ptr, fl, k) && Linked(ptr, fl, k + 1);
    hide Without, Linked;
    var fl', ptr' := Without(fl, k), ptr[fl[k] := ptr[fl[k + 1]]];
    forall i | 0 <= i < |fl'|
      ensures Linked(ptr', fl', i)
    {
      LinkedWithout(ptr, fl, k, i);
    }
  }

  lemma LinkedWith(ptr: map<nat, nat>, fl: seq<nat>, k: nat, b: nat, i: nat)
    requires Ring(ptr, fl) && k < |fl| && i < |fl| + 1 && (forall j :: 0 <= j < |fl| ==> fl[j] != b)
             && forall j :: 0 <= j < |fl| && j != k ==> fl[j] != fl[k]
    ensures fl[k] in ptr && Linked(ptr[b := ptr[fl[k]]][fl[k] := b], With(fl, k, b), i)
  {
    hide With;
    var j := if i <= k then i else i - 1;
    assert Linked(ptr, fl, j) && Linked(ptr, fl, k);
    var p := fl[k];
    var ptr' := ptr[b := ptr[p]][p := b];
    assert i == k + 1 ==> ptr'[b] == ptr[p];
    assert i == k ==> ptr'[p] == b;
    assert i != k && i != k + 1 ==> fl[j] != p && fl[j] != b && ptr'[fl[j]] == ptr[fl[j]];
  }

  lemma RingInsert(ptr: map<nat, nat>, fl: seq<nat>, k: nat, b: nat)
    requires Ring(ptr, fl) && k < |fl| && (forall j :: 0 <= j < |fl| ==> fl[j] != b)
             && forall i, j :: 0 <= i < j < |fl| ==> fl[i] < fl[j]
    ensures fl[k] in ptr && Ring(ptr[b := ptr[fl[k]]][fl[k] := b], With(fl, k, b))
  {
    assert Linked(ptr, fl, k);
    hide With, Linked;
    var fl', ptr' := With(fl, k, b), ptr[b := ptr[fl[k]]][fl[k] := b];
    forall i | 0 <= i < |fl'|
      ensures Linked(ptr', fl', i)
    {
      LinkedWith(ptr, fl, k, b, i);
    }
  }

  lemma Distinct(size: map<nat, nat>, base: nat, fl: seq<nat>)
    requires Gaps(size, base, fl)
    ensures forall i, j :: 0 <= i < j < |fl| ==> fl[i] < fl[j]
  {
    forall i, j | 0 <= i < j < |fl|
      ensures fl[i] < fl[j]
    {
      Ordered(size, base, fl, i, j);
    }
  }

  /** Two blocks do not overlap. */
  lemma Disjoint(owner: map<nat, nat>, a: nat, n: nat, b: nat, m: nat)
    requires Holds(owner, a, n) && Holds(owner, b, m) && a < b && n > 0 && m > 0
    ensures a + n <= b
  {
    assert owner[b] == b;
  }

  /** The owner map after block b was made part of block a. */
  function Joined(owner: map<nat, nat>, a: nat, b: nat): map<nat, nat>
  {
    map u | u in owner :: if owner[u] == b then a else owner[u]
  }

  lemma JoinedHolds(owner: map<nat, nat>, a: nat, n: nat, b: nat, m: nat)
    requires Holds(owner, a, n) && Holds(owner, b, m) && a + n == b
    ensures Holds(Joined(owner, a, b), a, n + m)
    ensures forall h: nat, k: nat :: h != a && h != b && Holds(owner, h, k) ==> Holds(Joined(owner, a, b), h, k)
  {
  }

  lemma ListedWithout(fl: seq<nat>, k: nat, h: nat)
    requires k + 1 < |fl| && forall i, j :: 0 <= i < j < |fl| ==> fl[i] < fl[j]
    ensures Listed(Without(fl, k), h) <==> Listed(fl, h) && h != fl[k + 1]
  {
    hide Without;
    var r := Without(fl, k);
    if Listed(fl, h) && h != fl[k + 1] {
      var i :| 1 <= i < |fl| && fl[i] == h;
      assert r[if i <= k then i else i - 1] == h;
    }
    if Listed(r, h) {
      var i :| 1 <= i < |r| && r[i] == h;
      assert fl[if i <= k then i else i + 1] == h;
    }
  }

  lemma ListedWith(fl: seq<nat>, k: nat, b: nat, h: nat)
    requires k < |fl|
    ensures Listed(With(fl, k, b), h) <==> Listed(fl, h) || h == b
  {
    hide With;
    var r := With(fl, k, b);
    if Listed(fl, h) {
      var i :| 1 <= i < |fl| && fl[i] == h;
      assert r[if i <= k then i else i + 1] == h;
    }
    if h == b {
      assert r[k + 1] == h;
    }
    if Listed(r, h) && h != b {
      var i :| 1 <= i < |r| && r[i] == h;
      assert fl[if i <= k then i else i - 1] == h;
    }
  }

  /** Taking a block off the list for a request of exactly its size. */
  lemma TakeKeeps(size: map<nat, nat>, base: nat, fl: seq<nat>, live: map<nat, nat>, owner: map<nat, nat>, k: nat)
    requires Gaps(size, base, fl) && Owned(size, base, fl, live, owner) && k + 1 < |fl|
    ensures fl[k + 1] in size && fl[k + 1] !in live && Gaps(size, base, Without(fl, k))
    ensures Owned(size, base, Without(fl, k), live[fl[k + 1] := size[fl[k + 1]]], owner)
  {
    hide Without, Listed, Holds;
    Distinct(size, base, fl);
    var r, p := Without(fl, k), fl[k + 1];
    assert Apart(size, fl, k + 1) && FreeOk(size, owner, p);
    OnList(fl, k + 1);
    forall i | 0 <= i < |r|
      ensures Apart(size, r, i)
    {
      assert Apart(size, fl, i) && Apart(size, fl, i + 1);
    }
    forall h: nat
      ensures Listed(r, h) <==> Listed(fl, h) && h != p
    {
      ListedWithout(fl, k, h);
    }
  }

  lemma OnList(fl: seq<nat>, i: nat)
    requires 1 <= i < |fl|
    ensures Listed(fl, fl[i])
  {
  }

  /** A freed block that ends where the next free block begins swallows it. */
  lemma AbsorbUpKeeps(size: map<nat, nat>, base: nat, fl: seq<nat>, live: map<nat, nat>, owner: map<nat, nat>, k: nat,
                      bp: nat, size': map<nat, nat>)
    requires Gaps(size, base, fl) && Owned(size, base, fl, live, owner) && k + 1 < |fl| && bp in live && bp in size
    requires fl[k + 1] in size && bp + size[bp] == fl[k + 1] && size' == size[bp := size[bp] + size[fl[k + 1]]]
    ensures Gaps(size', base, Without(fl, k))
    ensures Owned(size', base, Without(fl, k), live[bp := size'[bp]], Joined(owner, bp, fl[k + 1]))
  {
    hide Without, Listed, Holds, Joined, Gaps, Owned;
    LiveNotListed(size, base, fl, live, owner, bp);
    AbsorbUpGaps(size, base, fl, k, bp, size');
    AbsorbUpOwned(size, base, fl, live, owner, k, bp, size');
  }

  lemma LiveNotListed(size: map<nat, nat>, base: nat, fl: seq<nat>, live: map<nat, nat>, owner: map<nat, nat>, bp: nat)
    requires Gaps(size, base, fl) && Owned(size, base, fl, live, owner) && bp in live
    ensures forall i :: 0 <= i < |fl| ==> fl[i] != bp
  {
    assert LiveOk(size, base, fl, live, owner, bp);
    NotOnList(fl, base, bp);
  }

  lemma AbsorbUpGaps(size: map<nat, nat>, base: nat, fl: seq<nat>, k: nat, bp: nat, size': map<nat, nat>)
    requires Gaps(size, base, fl) && k + 1 < |fl| && (forall i :: 0 <= i < |fl| ==> fl[i] != bp)
    requires forall x :: x in size && x != bp ==> x in size' && size'[x] == size[x]
    ensures Gaps(size', base, Without(fl, k))
  {
    hide Without;
    var r := Without(fl, k);
    forall i | 0 <= i < |r|
      ensures Apart(size', r, i)
    {
      assert Apart(size, fl, i) && Apart(size, fl, i + 1);
    }
  }

  lemma AbsorbUpOwned(size: map<nat, nat>, base: nat, fl: seq<nat>, live: map<nat, nat>, owner: map<nat, nat>, k: nat,
                      bp: nat, size': map<nat, nat>)
    requires Gaps(size, base, fl) && Owned(size, base, fl, live, owner) && k + 1 < |fl| && bp in live && bp in size
    requires bp in size'
    requires fl[k + 1] in size && bp + size[bp] == fl[k + 1] && size'[bp] == size[bp] + size[fl[k + 1]]
    requires forall x :: x in size && x != bp ==> x in size' && size'[x] == size[x]
    requires forall i :: 0 <= i < |fl| ==> fl[i] != bp
    ensures Owned(size', base, Without(fl, k), live[bp := size'[bp]], Joined(owner, bp, fl[k + 1]))
  {
    hide Without, Listed, Holds, Joined;
    Distinct(size, base, fl);
    var r, nxt, owner' := Without(fl, k), fl[k + 1], Joined(owner, bp, fl[k + 1]);
    assert Apart(size, fl, k + 1) && FreeOk(size, owner, nxt) && LiveOk(size, base, fl, live, owner, bp);
    OnList(fl, k + 1);
    JoinedHolds(owner, bp, size[bp], nxt, size[nxt]);
    JoinedUnits(owner, bp, nxt);
    forall h: nat
      ensures Listed(r, h) <==> Listed(fl, h) && h != nxt
    {
      ListedWithout(fl, k, h);
    }
    forall i | 1 <= i < |r|
      ensures FreeOk(size', owner', r[i])
    {
      assert FreeOk(size, owner, fl[if i <= k then i else i + 1]);
    }
    forall h | h in live && h != bp
      ensures LiveOk(size', base, r, live[bp := size'[bp]], owner', h)
    {
      assert LiveOk(size, base, fl, live, owner, h);
    }
  }

  lemma JoinedUnits(owner: map<nat, nat>, a: nat, b: nat)
    ensures forall u :: u in Joined(owner, a, b) <==> u in owner
    ensures forall u :: u in owner ==> Joined(owner, a, b)[u] == if owner[u] == b then a else owner[u]
  {
  }

  lemma NotOnList(fl: seq<nat>, base: nat, h: nat)
    requires |fl| > 0 && fl[0] == base && h != base && !Listed(fl, h)
    ensures forall i :: 0 <= i < |fl| ==> fl[i] != h
  {
  }

  /** A freed block put on the list by itself. */
  lemma InsertKeeps(size: map<nat, nat>, base: nat, fl: seq<nat>, live: map<nat, nat>, owner: map<nat, nat>, k: nat,
                    bp: nat)
    requires Gaps(size, base, fl) && Owned(size, base, fl, live, owner) && k < |fl| && bp in live && bp in size
    requires fl[k] in size && fl[k] + size[fl[k]] < bp && (k + 1 < |fl| ==> bp + size[bp] < fl[k + 1])
    ensures Gaps(size, base, With(fl, k, bp)) && Owned(size, base, With(fl, k, bp), live - {bp}, owner)
  {
    hide With, Listed, Holds;
    var r := With(fl, k, bp);
    assert LiveOk(size, base, fl, live, owner, bp);
    forall h: nat
      ensures Listed(r, h) <==> Listed(fl, h) || h == bp
    {
      ListedWith(fl, k, bp, h);
    }
    forall i | 0 <= i < |r|
      ensures Apart(size, r, i) && (i > 0 ==> FreeOk(size, owner, r[i]))
    {
      if i != k + 1 {
        assert Apart(size, fl, if i <= k then i else i - 1);
      }
    }
    forall h | h in live && h != bp
      ensures LiveOk(size, base, r, live - {bp}, owner, h)
    {
      assert LiveOk(size, base, fl, live, owner, h);
    }
  }

  /** A freed block that begins where the free block before it ends is swallowed by it. */
  lemma AbsorbDownKeeps(size: map<nat, nat>, base: nat, fl: seq<nat>, live: map<nat, nat>, owner: map<nat, nat>, k: nat,
                        bp: nat, size': map<nat, nat>)
    requires Gaps(size, base, fl) && Owned(size, base, fl, live, owner) && 1 <= k < |fl| && bp in live && bp in size
    requires fl[k] in size && fl[k] + size[fl[k]] == bp && size' == size[fl[k] := size[fl[k]] + size[bp]]
    requires k + 1 < |fl| ==> bp + size[bp] < fl[k + 1]
    ensures Gaps(size', base, fl) && Owned(size', base, fl, live - {bp}, Joined(owner, fl[k], bp))
  {
    hide Listed, Holds, Joined;
    Distinct(size, base, fl);
    var p, owner' := fl[k], Joined(owner, fl[k], bp);
    assert Apart(size, fl, k) && FreeOk(size, owner, p) && LiveOk(size, base, fl, live, owner, bp);
    OnList(fl, k);
    JoinedHolds(owner, p, size[p], bp, size[bp]);
    JoinedUnits(owner, p, bp);
    NotOnList(fl, base, bp);
    forall i | 0 <= i < |fl|
      ensures Apart(size', fl, i) && (i > 0 ==> FreeOk(size', owner', fl[i]))
    {
      assert Apart(size, fl, i);
    }
    forall h | h in live && h != bp
      ensures LiveOk(size', base, fl, live - {bp}, owner', h)
    {
      assert LiveOk(size, base, fl, live, owner, h);
    }
  }

  /** The owner map after the last n units of a block became block q. */
  function Carved(owner: map<nat, nat>, q: nat, n: nat): map<nat, nat>
  {
    map u | u in owner :: if q <= u < q + n then q else owner[u]
  }

  lemma CarvedHolds(owner: map<nat, nat>, p: nat, m: nat, q: nat, n: nat)
    requires Holds(owner, p, m + n) && q == p + m && n > 0 && m > 0 && forall u :: u in owner ==> owner[u] != q
    ensures Holds(Carved(owner, q, n), p, m) && Holds(Carved(owner, q, n), q, n)
    ensures forall h: nat, k: nat :: h != p && k > 0 && Holds(owner, h, k) ==>
              h != q && Holds(Carved(owner, q, n), h, k)
    ensures forall u :: u in Carved(owner, q, n) <==> u in owner
    ensures forall u :: u in owner ==> Carved(owner, q, n)[u] == owner[u] || Carved(owner, q, n)[u] == q
  {
    assert owner[q] == p;
    forall h: nat, k: nat | h != p && k > 0 && Holds(owner, h, k)
      ensures h != q && Holds(Carved(owner, q, n), h, k)
    {
      assert owner[h] == h;
    }
  }

  /** The tail of a larger block cut off for a request. */
  lemma SplitKeeps(size: map<nat, nat>, base: nat, fl: seq<nat>, live: map<nat, nat>, owner: map<nat, nat>, k: nat,
                   n: nat, q: nat, size': map<nat, nat>)
    requires Gaps(size, base, fl) && Owned(size, base, fl, live, owner) && 1 <= k < |fl|
    requires fl[k] in size && 0 < n < size[fl[k]] && q == fl[k] + (size[fl[k]] - n)
    requires size' == size[fl[k] := size[fl[k]] - n][q := n]
    ensures q !in live && Gaps(size', base, fl) && Owned(size', base, fl, live[q := n], Carved(owner, q, n))
  {
    hide Gaps, Owned, Listed, Carved;
    NewHeader(size, base, fl, live, owner, k, q, n);
    SplitGaps(size, base, fl, k, n, q, size');
    SplitOwned(size, base, fl, live, owner, k, n, q, size');
  }

  lemma SplitGaps(size: map<nat, nat>, base: nat, fl: seq<nat>, k: nat, n: nat, q: nat, size': map<nat, nat>)
    requires Gaps(size, base, fl) && 1 <= k < |fl| && fl[k] in size && fl[k] in size'
    requires size'[fl[k]] + n == size[fl[k]] > n
    requires forall x :: x in size && x != fl[k] && x != q ==> x in size' && size'[x] == size[x]
    requires forall i :: 0 <= i < |fl| ==> fl[i] != q
    ensures Gaps(size', base, fl)
  {
    Distinct(size, base, fl);
    forall i | 0 <= i < |fl|
      ensures Apart(size', fl, i)
    {
      assert Apart(size, fl, i);
    }
  }

  lemma SplitOwned(size: map<nat, nat>, base: nat, fl: seq<nat>, live: map<nat, nat>, owner: map<nat, nat>, k: nat,
                   n: nat, q: nat, size': map<nat, nat>)
    requires Gaps(size, base, fl) && Owned(size, base, fl, live, owner) && 1 <= k < |fl|
    requires fl[k] in size && fl[k] in size' && size'[fl[k]] + n == size[fl[k]] > n > 0 && q == fl[k] + size'[fl[k]]
    requires forall x :: x in size && x != fl[k] && x != q ==> x in size' && size'[x] == size[x]
    requires q != base && q !in live && !Listed(fl, q) && (forall u :: u in owner ==> owner[u] != q) && q in size'
    requires size'[q] == n
    ensures Owned(size', base, fl, live[q := n], Carved(owner, q, n))
  {
    hide Listed, Holds, Carved;
    Distinct(size, base, fl);
    var p, owner' := fl[k], Carved(owner, q, n);
    assert FreeOk(size, owner, p);
    CarvedHolds(owner, p, size[p] - n, q, n);
    OnList(fl, k);
    forall i | 1 <= i < |fl|
      ensures FreeOk(size', owner', fl[i])
    {
      assert Apart(size, fl, i) && FreeOk(size, owner, fl[i]);
      OnList(fl, i);
    }
    forall h | h in live
      ensures LiveOk(size', base, fl, live[q := n], owner', h)
    {
      assert LiveOk(size, base, fl, live, owner, h);
    }
  }

  lemma NewHeader(size: map<nat, nat>, base: nat, fl: seq<nat>, live: map<nat, nat>, owner: map<nat, nat>, k: nat,
                  q: nat, n: nat)
    requires Gaps(size, base, fl) && Owned(size, base, fl, live, owner) && 1 <= k < |fl|
    requires fl[k] in size && 0 < n < size[fl[k]] && q == fl[k] + (size[fl[k]] - n)
    ensures q != base && q !in live && !Listed(fl, q) && forall i :: 0 <= i < |fl| ==> fl[i] != q
    ensures forall u :: u in owner ==> owner[u] != q
  {
    hide Listed;
    Distinct(size, base, fl);
    assert FreeOk(size, owner, fl[k]);
    assert owner[q] == fl[k];
    if q in live {
      assert LiveOk(size, base, fl, live, owner, q);
    }
    forall i | 0 <= i < |fl|
      ensures fl[i] != q
    {
      if i > k {
        Ordered(size, base, fl, k, i);
      }
    }
    NotListed(fl, q);
  }

  lemma NotListed(fl: seq<nat>, h: nat)
    requires forall i :: 0 <= i < |fl| ==> fl[i] != h
    ensures !Listed(fl, h)
  {
  }

  /** n units from h on, all of block h. */
  function Region(h: nat, n: nat): (r: map<nat, nat>)
    ensures forall u :: u in r <==> h <= u < h + n
    ensures forall u :: u in r ==> r[u] == h
  {
    if n == 0 then map[] else Region(h, n - 1)[h + n - 1 := h]
  }

  /** Units supplied by sbrk, above all that were supplied before. */
  lemma GrantKeeps(size: map<nat, nat>, base: nat, fl: seq<nat>, live: map<nat, nat>, owner: map<nat, nat>, h: nat,
                   n: nat, size': map<nat, nat>)
    requires Gaps(size, base, fl) && Owned(size, base, fl, live, owner) && size' == size[h := n] && n > 0
    requires base < h && h + n <= LIMIT && forall u :: u in owner ==> u < h
    ensures h !in live && Gaps(size', base, fl) && Owned(size', base, fl, live[h := n], owner + Region(h, n))
  {
    hide Region, Holds, Listed;
    var owner' := owner + Region(h, n);
    HeadersBelow(size, base, fl, live, owner, h);
    RegionHolds(owner, h, n);
    NotListed(fl, h);
    forall i | 0 <= i < |fl|
      ensures Apart(size', fl, i) && (i > 0 ==> FreeOk(size', owner', fl[i]))
    {
      assert Apart(size, fl, i) && (i > 0 ==> FreeOk(size, owner, fl[i]));
    }
    forall x | x in live
      ensures LiveOk(size', base, fl, live[h := n], owner', x)
    {
      assert LiveOk(size, base, fl, live, owner, x);
    }
  }

  lemma HeadersBelow(size: map<nat, nat>, base: nat, fl: seq<nat>, live: map<nat, nat>, owner: map<nat, nat>, h: nat)
    requires Gaps(size, base, fl) && Owned(size, base, fl, live, owner) && base < h && forall u :: u in owner ==> u < h
    ensures (forall i :: 0 <= i < |fl| ==> fl[i] < h) && (forall x :: x in live ==> x < h) && forall u :: u in owner ==>
              owner[u] < h
  {
    forall i | 1 <= i < |fl|
      ensures fl[i] < h
    {
      assert Apart(size, fl, i) && FreeOk(size, owner, fl[i]);
      assert owner[fl[i]] == fl[i];
    }
    forall x | x in live
      ensures x < h
    {
      assert LiveOk(size, base, fl, live, owner, x);
      assert owner[x] == x;
    }
  }

  lemma RegionHolds(owner: map<nat, nat>, h: nat, n: nat)
    requires forall u :: u in owner ==> u < h && owner[u] < h
    ensures Holds(owner + Region(h, n), h, n)
    ensures forall x: nat, k: nat :: x < h && Holds(owner, x, k) ==> Holds(owner + Region(h, n), x, k)
    ensures forall u :: u in owner ==> (owner + Region(h, n))[u] == owner[u]
    ensures forall u :: u in owner + Region(h, n) && u !in owner ==> h <= u < h + n && (owner + Region(h, n))[u] == h
  {
    hide Region;
  }

  // ---------------------------------------------------------------- going round the ring

  /** Steps from position i round to position f; a full round if they are the same. */
  function Left(n: nat, f: nat, i: nat): (r: nat)
    requires f < n && i < n
    ensures 1 <= r <= n
  {
    if i < f then f - i else n - i + f
  }

  /** Position j was passed on the way from f to i. */
  predicate Passed(f: nat, i: nat, j: nat)
  {
    if i >= f then f < j <= i else j > f || j <= i
  }

  ghost predicate AllSmall(size: map<nat, nat>, fl: seq<nat>, f: nat, i: nat, n: nat)
  {
    forall j: nat :: j < |fl| && Passed(f, i, j) ==> fl[j] in size && size[fl[j]] < n
  }

  /** Some free block has at least n units. */
  ghost predicate Roomy(size: map<nat, nat>, fl: seq<nat>, n: nat)
  {
    exists i :: 1 <= i < |fl| && fl[i] in size && size[fl[i]] >= n
  }

  lemma StepRound(size: map<nat, nat>, fl: seq<nat>, f: nat, i: nat, n: nat)
    requires f < |fl| && i < |fl| && AllSmall(size, fl, f, i, n) && Next(|fl|, i) != f
    requires fl[Next(|fl|, i)] in size && size[fl[Next(|fl|, i)]] < n
    ensures AllSmall(size, fl, f, Next(|fl|, i), n) && Left(|fl|, f, Next(|fl|, i)) == Left(|fl|, f, i) - 1
  {
  }

  lemma FullRound(size: map<nat, nat>, fl: seq<nat>, f: nat, i: nat, n: nat)
    requires f < |fl| && i < |fl| && AllSmall(size, fl, f, i, n) && Next(|fl|, i) == f && fl[f] in size
    requires size[fl[f]] < n
    ensures !Roomy(size, fl, n)
  {
    forall j: nat | j < |fl|
      ensures fl[j] in size && size[fl[j]] < n
    {
      assert Passed(f, i, j) || j == f;
    }
  }

  /** Where an address belongs in the list. */
  lemma {:induction false} Place(fl: seq<nat>, b: nat, n: nat) returns (t: nat)
    requires 0 < n <= |fl| && fl[0] < b && (forall i :: 0 <= i < |fl| ==> fl[i] != b)
    requires forall i, j :: 0 <= i < j < |fl| ==> fl[i] < fl[j]
    ensures t < n && fl[t] < b && (t + 1 < n ==> b < fl[t + 1])
  {
    if n == 1 {
      t := 0;
    } else if fl[n - 1] < b {
      t := n - 1;
    } else {
      t := Place(fl, b, n - 1);
    }
  }

  lemma RingFrame(ptr: map<nat, nat>, ptr': map<nat, nat>, fl: seq<nat>)
    requires Ring(ptr, fl) && forall i :: 0 <= i < |fl| && fl[i] in ptr ==> fl[i] in ptr' && ptr'[fl[i]] == ptr[fl[i]]
    ensures Ring(ptr', fl)
  {
    forall i | 0 <= i < |fl|
      ensures Linked(ptr', fl, i)
    {
      assert Linked(ptr, fl, i);
    }
  }

  /** The units a request takes, header included. */
  function Units(nbytes: nat): (n: nat)
    ensures n > 0 && (n - 1) * UNIT >= nbytes && (n - 1) * UNIT < nbytes + UNIT
  {
    (nbytes + UNIT - 1) / UNIT + 1
  }

  /** The units that sbrk is asked for when morecore wants nu: its argument is a signed 32-bit number
      of bytes, so that from 2^31 bytes on 2^32 are lost. */
  function Asked(nu: nat): int
    requires nu <= WORDS + 1
  {
    if nu < LIMIT then nu else nu - WORDS
  }

  /** Block h claims nu units that go beyond the end of the process's memory. */
  ghost predicate Phantom(size: map<nat, nat>, brk: nat, h: nat, nu: nat)
  {
    h in size && size[h] == nu && brk < h + nu
  }

  class Allocator {
    const base: nat                 // the static header
    var ptr: map<nat, nat>
    var size: map<nat, nat>
    var freep: nat                  // 0 for null
    var brk: nat                    // the end of the process's memory
    ghost var fl: seq<nat>
    ghost var live: map<nat, nat>
    ghost var owner: map<nat, nat>
    ghost var calls: nat            // how often sbrk was called

    ghost predicate Valid()
      reads this
    {
      && 0 < base < brk <= LIMIT && (forall u :: u in owner ==> u < brk)
      && (if freep == 0 then fl == [] && live == map[] && owner == map[]
          else Inv(ptr, size, base, fl, live, owner) && exists i :: 0 <= i < |fl| && fl[i] == freep)
    }

    constructor (base: nat, brk: nat)
      requires 0 < base < brk <= LIMIT
      ensures Valid() && live == map[] && owner == map[] && calls == 0
    {
      this.base, this.brk := base, brk;
      ptr, size, freep := map[], map[], 0;
      fl, live, owner, calls := [], map[], map[], 0;
    }

    /** sbrk as the allocator sees it: it may refuse to add units, and other calls may have moved the break.
        It takes units away without fail, and all of them never: growproc computes in 32 bits. */
    method Sbrk(n: int) returns (r: Option<nat>)
      requires Valid() && 0 <= n + LIMIT && n < LIMIT
      modifies this`brk, this`calls
      ensures calls == old(calls) + 1
      ensures r == None ==> n > 0 && brk == old(brk) && Valid()
      ensures r.Some? ==> old(brk) <= r.value && brk == if r.value + n >= 0 then r.value + n else r.value
      ensures r.Some? && n > 0 ==> Valid()
    {
      var granted: bool := *;
      var gap: nat :| brk + gap <= LIMIT;
      calls := calls + 1;
      if n > 0 && (!granted || brk + gap + n > LIMIT) {
        return None;
      }
      r := Some(brk + gap);
      var size := ((brk + gap + n) * UNIT) % 0x1_0000_0000 / UNIT;
      if n > 0 || size < brk + gap {
        brk := size;
      } else {
        brk := brk + gap;
      }
    }

    /** The search loop of free. */
    method FindPlace(bp: nat) returns (p: nat, ghost k: nat)
      requires Valid() && freep != 0 && bp in live
      ensures k < |fl| && p == fl[k] < bp && (k + 1 < |fl| ==> bp < fl[k + 1])
    {
      hide Owned, Gaps;
      Distinct(size, base, fl);
      FirstIsBase(size, base, fl, live, owner, bp);
      ghost var t := Place(fl, bp, |fl|);
      p := freep;
      k :| 0 <= k < |fl| && fl[k] == freep;
      assert Linked(ptr, fl, k);
      while !(bp > p && bp < ptr[p])
        invariant 0 <= k < |fl| && p == fl[k] && Linked(ptr, fl, k)
        decreases if k == t then 0 else Left(|fl|, t, k)
      {
        if p >= ptr[p] && (bp > p || bp < ptr[p]) {
          break;
        }
        assert k != t;
        p := ptr[p];
        k := Next(|fl|, k);
        assert Linked(ptr, fl, k);
      }
    }

    /** free: the block leaves the live ones, whole and as the only one, and its units stay. */
    method Free(ap: nat)
      requires Valid() && ap > 0 && ap - 1 in live
      modifies this
      ensures Valid() && freep != 0 && brk == old(brk) && calls == old(calls)
      ensures live == old(live) - {ap - 1} && owner.Keys == old(owner.Keys) && Roomy(size, fl, old(live[ap - 1]))
    {
      hide Gaps, Owned, Without, With;
      var bp := ap - 1;
      var p;
      ghost var k;
      p, k := FindPlace(bp);
      Distinct(size, base, fl);
      FirstIsBase(size, base, fl, live, owner, bp);
      Neighbours(size, base, fl, live, owner, k, bp);
      assert Linked(ptr, fl, k);
      var nxt := ptr[p];
      ghost var up := bp + size[bp] == nxt;
      ghost var chain := ptr;           // the links once nxt is unlinked
      if bp + size[bp] == nxt {
        assert k + 1 < |fl| && Linked(ptr, fl, k + 1);
        ghost var was := size;
        size := size[bp := size[bp] + size[nxt]];
        ptr := ptr[bp := ptr[nxt]];
        AbsorbUpKeeps(was, base, fl, live, owner, k, bp, size);
        RingRemove(chain, fl, k);
        chain := chain[p := chain[nxt]];
        live, owner, fl := live[bp := size[bp]], Joined(owner, bp, nxt), Without(fl, k);
      } else {
        ptr := ptr[bp := nxt];
      }
      Link(p, bp, k, chain);
    }

    /** The second half of free: bp joins the list behind p, or joins p. */
    method Link(p: nat, bp: nat, ghost k: nat, ghost chain: map<nat, nat>)
      requires 0 < base < brk <= LIMIT && (forall u :: u in owner ==> u < brk)
      requires Ring(chain, fl) && Gaps(size, base, fl) && Owned(size, base, fl, live, owner) && bp in live
      requires k < |fl| && p == fl[k] && p in size && bp in size && size[bp] == live[bp]
      requires p + size[p] <= bp && (k + 1 < |fl| ==> bp + size[bp] < fl[k + 1])
      requires p in chain && p in ptr && bp in ptr && ptr[bp] == chain[p]
      requires forall x :: x in chain && x != p && x != bp ==> x in ptr && ptr[x] == chain[x]
      modifies this
      ensures Valid() && freep != 0 && brk == old(brk) && calls == old(calls)
      ensures live == old(live) - {bp} && owner.Keys == old(owner.Keys) && Roomy(size, fl, old(live[bp]))
    {
      hide Gaps, Owned, With, Joined;
      Distinct(size, base, fl);
      FirstIsBase(size, base, fl, live, owner, bp);
      assert p >= base;
      if p + size[p] == bp {
        assert k > 0 by { BaseIsEmpty(size, base, fl); }
        ghost var was := size;
        size := size[p := size[p] + size[bp]];
        ptr := ptr[p := ptr[bp]];
        AbsorbDownKeeps(was, base, fl, live, owner, k, bp, size);
        RingFrame(chain, ptr, fl);
        JoinedUnits(owner, p, bp);
        owner := Joined(owner, p, bp);
      } else {
        ptr := ptr[p := bp];
        InsertKeeps(size, base, fl, live, owner, k, bp);
        RingInsert(chain, fl, k, bp);
        RingFrame(chain[bp := chain[p]][p := bp], ptr, With(fl, k, bp));
        fl := With(fl, k, bp);
      }
      live := live - {bp};
      freep := p;
      assert fl[k] == freep;
    }

    /** morecore. From LIMIT units on the number of bytes does not fit the argument of sbrk; the header then
        claims units that are not there, and what the program does from there on is not modelled. */
    method Morecore(n: nat) returns (r: nat, phantom: Option<nat>)
      requires Valid() && freep != 0 && 0 < n <= WORDS + 1
      modifies this
      ensures calls == old(calls) + 1
      ensures phantom.Some? ==> n >= LIMIT && old(brk) <= phantom.value && Phantom(size, brk, phantom.value, n)
      ensures LIMIT <= n <= WORDS ==> phantom.Some?
      ensures n > WORDS && phantom == None ==> r == 0
      ensures phantom == None ==> Valid() && freep != 0 && live == old(live)
      ensures phantom == None && r == 0 ==>
                ptr == old(ptr) && size == old(size) && freep == old(freep) && fl == old(fl) && owner == old(owner)
      ensures phantom == None && r != 0 ==>
                && r == freep
                && Roomy(size, fl, n)
                && Supplied(old(owner), owner, old(brk), if n < GRAIN then GRAIN else n)
    {
      hide Gaps, Owned, Ring, Region;
      var nu := if n < GRAIN then GRAIN else n;
      phantom := None;
      var p := Sbrk(Asked(nu));
      if p == None {
        return 0, None;
      }
      var hp := p.value;
      ghost var was := size;
      size := size[hp := nu];
      if Asked(nu) != nu {
        return 0, Some(hp);
      }
      GrantKeeps(was, base, fl, live, owner, hp, nu, size);
      live, owner := live[hp := nu], owner + Region(hp, nu);
      Free(hp + 1);
      r := freep;
    }

    /** The part of malloc that takes n units from block p, the one after prevp. */
    method Take(prevp: nat, p: nat, n: nat, ghost i: nat) returns (r: nat)
      requires Valid() && freep != 0 && i < |fl| && fl[i] == prevp && fl[Next(|fl|, i)] == p
      requires n > 0 && p in size && size[p] >= n
      modifies this
      ensures Valid() && freep == prevp != 0 && brk == old(brk) && calls == old(calls)
      ensures r > 0 && r - 1 !in old(live) && live == old(live)[r - 1 := n] && owner.Keys == old(owner.Keys)
    {
      hide Gaps, Owned, Without, Carved;
      Distinct(size, base, fl);
      BaseIsEmpty(size, base, fl);
      assert prevp >= base;
      assert Linked(ptr, fl, i);
      assert Linked(ptr, fl, i + 1);
      if size[p] == n {
        TakeKeeps(size, base, fl, live, owner, i);
        RingRemove(ptr, fl, i);
        ptr := ptr[prevp := ptr[p]];
        live := live[p := n];
        fl := Without(fl, i);
        r := p + 1;
      } else {
        ghost var was := size;
        size := size[p := size[p] - n];
        var q := p + size[p];
        size := size[q := n];
        SplitKeeps(was, base, fl, live, owner, i + 1, n, q, size);
        CarvedUnits(owner, q, n);
        live, owner := live[q := n], Carved(owner, q, n);
        r := q + 1;
      }
      freep := prevp;
      assert fl[i] == freep;
    }

    /** malloc: a block of the requested units, from the free list if any block there is large
        enough, otherwise after one call of sbrk; 0 if that call fails. A request of LIMIT units or
        more is never met, and a header claims units that sbrk did not supply: always up to WORDS
        units, and beyond, for the last few bytes below 2^32, unless sbrk refuses one unit. */
    method Malloc(nbytes: nat) returns (r: nat, phantom: Option<nat>)
      requires Valid() && nbytes < 0x1_0000_0000
      modifies this
      ensures calls <= old(calls) + 1
      ensures phantom.Some? ==> Units(nbytes) >= LIMIT && Phantom(size, brk, phantom.value, Units(nbytes))
      ensures LIMIT <= Units(nbytes) <= WORDS ==> phantom.Some?
      ensures Units(nbytes) > WORDS && phantom == None ==> r == 0
      ensures phantom == None ==> Valid() && freep != 0
      ensures phantom == None && r == 0 ==> live == old(live) && owner == old(owner) && calls == old(calls) + 1
      ensures phantom == None && r != 0 ==> r - 1 !in old(live) && live == old(live)[r - 1 := Units(nbytes)]
      ensures phantom == None && r != 0 && calls == old(calls) ==> owner.Keys == old(owner.Keys)
      ensures phantom == None && r != 0 && calls != old(calls) ==>
                Supplied(old(owner), owner, old(brk), if Units(nbytes) < GRAIN then GRAIN else Units(nbytes))
      ensures old(Roomy(size, fl, Units(nbytes))) ==>
                phantom == None && r != 0 && calls == old(calls)
    {
      hide Gaps, Owned, Ring, Linked, Roomy, AllSmall, Supplied, Units;
      var n := Units(nbytes);
      phantom := None;
      UnitsFit(nbytes);
      ghost var roomy, grown := Roomy(size, fl, n), false;
      if freep == 0 {
        ShortList(size, fl, n);
        Start();
        ShortList(size, fl, n);
      }
      var prevp := freep;
      ghost var f := Position();
      ghost var i := f;
      NothingPassed(size, fl, f, n);
      Follow(ptr, size, base, fl, i);
      var p := ptr[prevp];
      while true
        invariant phantom == None && 0 < n <= WORDS + 1
        invariant Valid() && freep != 0 && 0 <= f < |fl| && fl[f] == freep && 0 <= i < |fl| && fl[i] == prevp
        invariant p == fl[Next(|fl|, i)]
        invariant live == old(live) && AllSmall(size, fl, f, i, n) && p in size
        invariant !grown ==>
                    && calls == old(calls) && owner == old(owner) && brk == old(brk) && (roomy <==> Roomy(size, fl, n))
        invariant grown ==> && n < LIMIT && calls == old(calls) + 1 && !roomy && Roomy(size, fl, n)
                            && Supplied(old(owner), owner, old(brk), if n < GRAIN then GRAIN else n)
        decreases !grown, Left(|fl|, f, i)
      {
        if size[p] >= n {
          ghost var was := owner;
          ListedFits(size, base, fl, live, owner, Next(|fl|, i));
          r := Take(prevp, p, n, i);
          SuppliedKeys(old(owner), was, owner);
          return;
        }
        SameEntry(size, base, fl, f, Next(|fl|, i));
        if p == freep {
          FullRound(size, fl, f, i, n);
          p, phantom := Morecore(n);
          if phantom.Some? || p == 0 {
            return 0, phantom;
          }
          grown := true;
          f := Position();
          i := f;
          NothingPassed(size, fl, f, n);
        } else {
          StepRound(size, fl, f, i, n);
          i := Next(|fl|, i);
        }
        prevp := p;
        Follow(ptr, size, base, fl, i);
        p := ptr[p];
      }
    }

    /** The first call: the list of `base` alone. */
    method Start()
      requires Valid() && freep == 0
      modifies this`ptr, this`size, this`freep, this`fl
      ensures Valid() && freep == base && fl == [base]
    {
      ptr := ptr[base := base];
      freep := base;
      size := size[base := 0];
      fl := [base];
      assert Linked(ptr, fl, 0) && Apart(size, fl, 0);
    }

    /** Where freep is on the list. */
    ghost method Position() returns (f: nat)
      requires Valid() && freep != 0
      ensures f < |fl| && fl[f] == freep
    {
      f :| 0 <= f < |fl| && fl[f] == freep;
    }
  }

  /** A process that asks for 2^31 bytes gets a header that claims them, in memory it does not have. */
  method HugeRequest(base: nat, brk: nat) returns (a: Allocator, phantom: Option<nat>)
    requires 0 < base < brk <= LIMIT
    ensures phantom.Some? && Phantom(a.size, a.brk, phantom.value, LIMIT + 1)
  {
    a := new Allocator(base, brk);
    var r;
    assert Units(0x8000_0000) == LIMIT + 1;
    r, phantom := a.Malloc(0x8000_0000);
  }

  lemma BaseIsEmpty(size: map<nat, nat>, base: nat, fl: seq<nat>)
    requires Gaps(size, base, fl)
    ensures fl[0] == base && base in size && size[base] == 0
  {
  }

  lemma CarvedUnits(owner: map<nat, nat>, q: nat, n: nat)
    ensures Carved(owner, q, n).Keys == owner.Keys
  {
  }

  /** The units of owner' are those of owner and n fresh ones in a row, at or above brk. */
  ghost predicate Supplied(owner: map<nat, nat>, owner': map<nat, nat>, brk: nat, n: nat)
  {
    exists h :: brk <= h && owner'.Keys == owner.Keys + Region(h, n).Keys
  }

  lemma SuppliedKeys(owner: map<nat, nat>, was: map<nat, nat>, now: map<nat, nat>)
    requires was.Keys == now.Keys
    ensures forall b: nat, n: nat :: Supplied(owner, was, b, n) ==> Supplied(owner, now, b, n)
  {
  }

  /** No block on the list has LIMIT units. */
  lemma ListedFits(size: map<nat, nat>, base: nat, fl: seq<nat>, live: map<nat, nat>, owner: map<nat, nat>, i: nat)
    requires Gaps(size, base, fl) && Owned(size, base, fl, live, owner) && i < |fl|
    ensures fl[i] in size && size[fl[i]] < LIMIT
  {
    hide Listed;
    assert Apart(size, fl, i);
    if i > 0 {
      assert FreeOk(size, owner, fl[i]);
      assert owner[fl[i]] == fl[i] && owner[fl[i] + size[fl[i]] - 1] == fl[i];
    } else {
      assert fl[i] == base;
    }
  }

  lemma UnitsFit(nbytes: nat)
    requires nbytes < 0x1_0000_0000
    ensures Units(nbytes) <= WORDS + 1
  {
  }

  lemma ShortList(size: map<nat, nat>, fl: seq<nat>, n: nat)
    requires |fl| <= 1
    ensures !Roomy(size, fl, n)
  {
  }

  lemma NothingPassed(size: map<nat, nat>, fl: seq<nat>, f: nat, n: nat)
    ensures AllSmall(size, fl, f, f, n)
  {
  }

  lemma Follow(ptr: map<nat, nat>, size: map<nat, nat>, base: nat, fl: seq<nat>, i: nat)
    requires Ring(ptr, fl) && Gaps(size, base, fl) && i < |fl|
    ensures fl[i] in ptr && ptr[fl[i]] == fl[Next(|fl|, i)] && ptr[fl[i]] in size
  {
    assert Linked(ptr, fl, i) && Apart(size, fl, Next(|fl|, i));
  }

  lemma SameEntry(size: map<nat, nat>, base: nat, fl: seq<nat>, i: nat, j: nat)
    requires Gaps(size, base, fl) && i < |fl| && j < |fl|
    ensures fl[i] == fl[j] <==> i == j
  {
    Distinct(size, base, fl);
  }

  /** The free neighbours of a live block. */
  lemma Neighbours(size: map<nat, nat>, base: nat, fl: seq<nat>, live: map<nat, nat>, owner: map<nat, nat>, k: nat,
                   bp: nat)
    requires Gaps(size, base, fl) && Owned(size, base, fl, live, owner) && bp in live && bp in size
    requires k < |fl| && fl[k] < bp && (k + 1 < |fl| ==> bp < fl[k + 1])
    ensures fl[k] in size && fl[k] + size[fl[k]] <= bp
    ensures k + 1 < |fl| ==> && fl[k + 1] in size && bp + size[bp] <= fl[k + 1]
                             && (k + 2 < |fl| ==> fl[k + 1] + size[fl[k + 1]] < fl[k + 2])
    ensures fl[0] < bp
  {
    assert LiveOk(size, base, fl, live, owner, bp) && Apart(size, fl, k);
    if k > 0 {
      assert FreeOk(size, owner, fl[k]);
      Disjoint(owner, fl[k], size[fl[k]], bp, size[bp]);
    }
    if k + 1 < |fl| {
      assert Apart(size, fl, k + 1) && FreeOk(size, owner, fl[k + 1]);
      Disjoint(owner, bp, size[bp], fl[k + 1], size[fl[k + 1]]);
    }
    FirstIsBase(size, base, fl, live, owner, bp);
  }

  lemma FirstIsBase(size: map<nat, nat>, base: nat, fl: seq<nat>, live: map<nat, nat>, owner: map<nat, nat>, bp: nat)
    requires Gaps(size, base, fl) && Owned(size, base, fl, live, owner) && bp in live
    ensures fl[0] == base < bp && (forall i :: 0 <= i < |fl| ==> fl[i] != bp)
    ensures bp in size && size[bp] == live[bp] > 0
  {
    assert LiveOk(size, base, fl, live, owner, bp);
    assert owner[bp] == bp;
    NotOnList(fl, base, bp);
  }

  // ---------------------------------------------------------------- what the invariant gives

  /** h is a block, free or live, of n units. */
  ghost predicate Block(size: map<nat, nat>, fl: seq<nat>, live: map<nat, nat>, h: nat, n: nat)
  {
    h in size && size[h] == n && (h in live || Listed(fl, h))
  }

  lemma BlockHolds(size: map<nat, nat>, base: nat, fl: seq<nat>, live: map<nat, nat>, owner: map<nat, nat>, h: nat,
                   n: nat)
    requires Gaps(size, base, fl) && Owned(size, base, fl, live, owner) && Block(size, fl, live, h, n)
    ensures n > 0 && Holds(owner, h, n)
  {
    if h in live {
      assert LiveOk(size, base, fl, live, owner, h);
    } else {
      var i :| 1 <= i < |fl| && fl[i] == h;
      assert FreeOk(size, owner, fl[i]) && Apart(size, fl, i);
    }
  }

  /** No two blocks overlap, whether free or live. */
  lemma NoOverlap(ptr: map<nat, nat>, size: map<nat, nat>, base: nat, fl: seq<nat>, live: map<nat, nat>,
                  owner: map<nat, nat>, a: nat, n: nat, b: nat, m: nat)
    requires Inv(ptr, size, base, fl, live, owner) && Block(size, fl, live, a, n) && Block(size, fl, live, b, m)
    requires a != b
    ensures a + n <= b || b + m <= a
  {
    hide Owned, Gaps, Block, Listed;
    BlockHolds(size, base, fl, live, owner, a, n);
    BlockHolds(size, base, fl, live, owner, b, m);
    if a < b {
      Disjoint(owner, a, n, b, m);
    } else {
      Disjoint(owner, b, m, a, n);
    }
  }

  /** A size fits the 32 bits of its field. */
  lemma SizeFits(ptr: map<nat, nat>, size: map<nat, nat>, base: nat, fl: seq<nat>, live: map<nat, nat>,
                 owner: map<nat, nat>, h: nat, n: nat)
    requires Inv(ptr, size, base, fl, live, owner) && Block(size, fl, live, h, n)
    ensures base < h && h + n <= LIMIT && n < 0x1_0000_0000
  {
    hide Gaps, Block, Listed;
    BlockHolds(size, base, fl, live, owner, h, n);
    assert owner[h] == h && owner[h + n - 1] == h;
  }

  function Sum(size: map<nat, nat>, hs: seq<nat>): nat
  {
    if hs == [] then 0 else (if hs[0] in size then size[hs[0]] else 0) + Sum(size, hs[1..])
  }

  lemma {:induction false} RegionSize(h: nat, n: nat)
    ensures |Region(h, n)| == n
  {
    if n > 0 {
      RegionSize(h, n - 1);
    }
  }

  /** Without the units of block h. */
  lemma Removed(owner: map<nat, nat>, h: nat, n: nat, rest: map<nat, nat>)
    requires Holds(owner, h, n) && rest == owner - Region(h, n).Keys
    ensures |owner| == n + |rest| && (forall u :: u in rest <==> u in owner && owner[u] != h)
            && forall u :: u in rest ==> rest[u] == owner[u]
  {
    RegionSize(h, n);
    assert owner.Keys == rest.Keys + Region(h, n).Keys;
    assert |owner.Keys| == |rest.Keys| + |Region(h, n).Keys|;
  }

  lemma {:induction false} SumIsCount(size: map<nat, nat>, owner: map<nat, nat>, hs: seq<nat>)
    requires forall i :: 0 <= i < |hs| ==> FreeOk(size, owner, hs[i])
    requires forall i, j :: 0 <= i < j < |hs| ==> hs[i] != hs[j]
    requires forall u :: u in owner ==> owner[u] in hs
    ensures Sum(size, hs) == |owner|
  {
    if hs == [] {
      assert owner == map[];
    } else {
      var h, n, hs' := hs[0], size[hs[0]], hs[1..];
      assert FreeOk(size, owner, h);
      var rest := owner - Region(h, n).Keys;
      Removed(owner, h, n, rest);
      forall i | 0 <= i < |hs'|
        ensures FreeOk(size, rest, hs'[i])
      {
        assert FreeOk(size, owner, hs[i + 1]);
        StillHolds(owner, rest, h, hs'[i], size[hs'[i]]);
      }
      forall u | u in rest
        ensures rest[u] in hs'
      {
        assert owner[u] in [h] + hs';
      }
      SumIsCount(size, rest, hs');
    }
  }

  lemma StillHolds(owner: map<nat, nat>, rest: map<nat, nat>, h: nat, x: nat, n: nat)
    requires Holds(owner, x, n) && x != h
    requires (forall u :: u in rest <==> u in owner && owner[u] != h) && forall u :: u in rest ==> rest[u] == owner[u]
    ensures Holds(rest, x, n)
  {
  }

  /** The sizes of all blocks, free and live, add up to what sbrk supplied: hs lists them. */
  lemma SizesAddUp(ptr: map<nat, nat>, size: map<nat, nat>, base: nat, fl: seq<nat>, live: map<nat, nat>,
                   owner: map<nat, nat>, hs: seq<nat>)
    requires Inv(ptr, size, base, fl, live, owner) && (forall i, j :: 0 <= i < j < |hs| ==> hs[i] != hs[j])
    requires forall h: nat :: h in hs <==> h in live || Listed(fl, h)
    ensures Sum(size, hs) == |owner|
  {
    hide Gaps, Listed, Sum;
    forall i | 0 <= i < |hs|
      ensures FreeOk(size, owner, hs[i])
    {
      assert hs[i] in hs;
      InSize(size, base, fl, live, owner, hs[i]);
      BlockHolds(size, base, fl, live, owner, hs[i], size[hs[i]]);
    }
    SumIsCount(size, owner, hs);
  }

  lemma InSize(size: map<nat, nat>, base: nat, fl: seq<nat>, live: map<nat, nat>, owner: map<nat, nat>, h: nat)
    requires Owned(size, base, fl, live, owner) && (h in live || Listed(fl, h))
    ensures h in size
  {
    if h in live {
      assert LiveOk(size, base, fl, live, owner, h);
    } else {
      var i :| 1 <= i < |fl| && fl[i] == h;
      assert FreeOk(size, owner, fl[i]);
    }
  }

  /** The program may write anything it likes into the blocks it was given, even over the link
      field of their headers: the allocator never reads it. */
  lemma PayloadIsTheProgram(ptr: map<nat, nat>, size: map<nat, nat>, base: nat, fl: seq<nat>, live: map<nat, nat>,
                            owner: map<nat, nat>, ptr': map<nat, nat>, size': map<nat, nat>)
    requires Inv(ptr, size, base, fl, live, owner)
    requires forall h :: h == base || Listed(fl, h) ==> h in ptr' && (h in ptr ==> ptr'[h] == ptr[h])
    requires forall h :: h == base || Listed(fl, h) || h in live ==> h in size' && (h in size ==> size'[h] == size[h])
    ensures Inv(ptr', size', base, fl, live, owner)
  {
    hide Listed, Ring, Owned, Linked, Apart;
    forall i | 0 <= i < |fl|
      ensures fl[i] == base || Listed(fl, fl[i])
    {
      if i > 0 {
        OnList(fl, i);
      }
    }
    RingFrame(ptr, ptr', fl);
    GapsFrame(size, size', base, fl);
    OwnedFrame(size, size', base, fl, live, owner);
  }

  lemma GapsFrame(size: map<nat, nat>, size': map<nat, nat>, base: nat, fl: seq<nat>)
    requires Gaps(size, base, fl)
    requires forall i :: 0 <= i < |fl| ==> fl[i] in size' && (fl[i] in size ==> size'[fl[i]] == size[fl[i]])
    ensures Gaps(size', base, fl)
  {
    assert fl[0] in size';
    forall i | 0 <= i < |fl|
      ensures Apart(size', fl, i)
    {
      assert Apart(size, fl, i);
    }
  }

  lemma OwnedFrame(size: map<nat, nat>, size': map<nat, nat>, base: nat, fl: seq<nat>, live: map<nat, nat>,
                   owner: map<nat, nat>)
    requires Owned(size, base, fl, live, owner)
    requires forall i :: 0 <= i < |fl| ==> fl[i] in size' && (fl[i] in size ==> size'[fl[i]] == size[fl[i]])
    requires forall h :: h in live ==> h in size' && (h in size ==> size'[h] == size[h])
    ensures Owned(size', base, fl, live, owner)
  {
    hide Listed, Holds;
    forall i | 1 <= i < |fl|
      ensures FreeOk(size', owner, fl[i])
    {
      assert FreeOk(size, owner, fl[i]);
    }
    forall h | h in live
      ensures LiveOk(size', base, fl, live, owner, h)
    {
      assert LiveOk(size, base, fl, live, owner, h);
    }
  }
}
