/** The file system of kernel/fs.c on logical disk blocks: the free bitmap, the block map
    of every inode, and who owns which block.
 */
module FsState {
  import opened Blocks

  const NDIRECT: nat := 12
  const MAXFILE: nat := NDIRECT + NINDIRECT
  const SLOTS: nat := MAXFILE + 1     // block addresses an inode can hold, the indirect block's included
  const IPB: nat := 16                // inodes per block
  const BPB: nat := 8 * BSIZE         // bitmap bits per block

  datatype Sb = Sb(size: nat, ninodes: nat, inodestart: nat, bmapstart: nat)

  /** The first block after the bitmap. */
  function DataStart(sb: Sb): nat
  {
    sb.bmapstart + sb.size / BPB + 1
  }

  ghost predicate SbOk(sb: Sb)
  {
    sb.inodestart + sb.ninodes / IPB + 1 <= sb.bmapstart && DataStart(sb) <= sb.size < UINT_LIMIT
  }

  /** head stands for the words holding type, major, minor and nlink. */
  datatype Inode = Inode(head: seq<nat>, size: nat, addrs: seq<nat>)

  datatype Fs = Fs(disk: seq<Block>, inodes: seq<Inode>)

  ghost predicate InodeOk(n: Inode)
  {
    && |n.head| == 2 && |n.addrs| == NDIRECT + 1 && n.size <= MAXFILE * BSIZE
    && (forall k :: 0 <= k < 2 ==> n.head[k] < UINT_LIMIT)
    && (forall k :: 0 <= k <= NDIRECT ==> n.addrs[k] < UINT_LIMIT)
  }

  ghost predicate Shape(sb: Sb, s: Fs)
  {
    && SbOk(sb) && |s.disk| == sb.size && |s.inodes| == sb.ninodes
    && forall i :: 0 <= i < |s.inodes| ==> InodeOk(s.inodes[i])
  }

  // ---------------------------------------------------------------- the bitmap

  lemma QuotientMonotone(b: nat, size: nat)
    requires b < size
    ensures b / BPB <= size / BPB
  {
  }

  /** The bitmap block that holds the bit of block b. */
  function BitBlock(sb: Sb, b: nat): (m: nat)
    requires SbOk(sb) && b < sb.size
    ensures sb.bmapstart <= m < DataStart(sb) <= sb.size
  {
    QuotientMonotone(b, sb.size);
    sb.bmapstart + b / BPB
  }

  function BitIndex(b: nat): (i: nat)
    ensures i < BPB
  {
    b % BPB
  }

  lemma BitIsUnique(sb: Sb, b: nat, x: nat)
    requires SbOk(sb) && b < sb.size && x < sb.size
    ensures BitBlock(sb, b) == BitBlock(sb, x) && BitIndex(b) == BitIndex(x) ==> b == x
  {
  }

  /** Is block b marked in use? */
  predicate InUse(sb: Sb, d: seq<Block>, b: nat)
    requires SbOk(sb) && |d| == sb.size && b < sb.size
  {
    Bit(d[BitBlock(sb, b)], BitIndex(b))
  }

  function Mark(sb: Sb, d: seq<Block>, b: nat, v: bool): (d': seq<Block>)
    requires SbOk(sb) && |d| == sb.size && b < sb.size
    ensures |d'| == |d|
  {
    d[BitBlock(sb, b) := SetBit(d[BitBlock(sb, b)], BitIndex(b), v)]
  }

  lemma InUseOfMark(sb: Sb, d: seq<Block>, b: nat, v: bool, x: nat)
    requires SbOk(sb) && |d| == sb.size && b < sb.size && x < sb.size
    ensures InUse(sb, Mark(sb, d, b, v), x) == if x == b then v else InUse(sb, d, x)
  {
    BitIsUnique(sb, b, x);
    if BitBlock(sb, b) == BitBlock(sb, x) {
      BitOfSetBit(d[BitBlock(sb, b)], BitIndex(b), v, BitIndex(x));
    }
  }

  /** A write outside the bitmap leaves it alone. */
  lemma InUseFrame(sb: Sb, d: seq<Block>, a: nat, blk: Block, x: nat)
    requires SbOk(sb) && |d| == sb.size && a < sb.size && x < sb.size
    requires !(sb.bmapstart <= a < DataStart(sb))
    ensures InUse(sb, d[a := blk], x) == InUse(sb, d, x)
  {
  }

  // ---------------------------------------------------------------- block addresses

  /** The k-th block address of inode i: direct blocks, then the indirect block, then the
      blocks the indirect block lists. 0 is no block. */
  function Addr(s: Fs, i: nat, k: nat): nat
    requires i < |s.inodes| && |s.inodes[i].addrs| == NDIRECT + 1 && k < SLOTS
  {
    var n := s.inodes[i];
    if k <= NDIRECT then n.addrs[k]
    else if n.addrs[NDIRECT] == 0 || n.addrs[NDIRECT] >= |s.disk| then 0
    else Word(s.disk[n.addrs[NDIRECT]], k - NDIRECT - 1)
  }

  /** The slot of the bn-th data block of a file. */
  function Slot(bn: nat): (k: nat)
    requires bn < MAXFILE
    ensures k < SLOTS && k != NDIRECT
  {
    if bn < NDIRECT then bn else bn + 1
  }

  type Owner = map<nat, (nat, nat)>

  /** Every block named by a slot is owned by that slot and by no other, and owned blocks are
      exactly the data blocks marked in use. Slots lo..hi of inode f are left out of account:
      those are being freed. */
  ghost predicate OwnExcept(sb: Sb, s: Fs, owner: Owner, f: nat, lo: nat, hi: nat)
    requires Shape(sb, s)
  {
    && (forall i: nat, k: nat :: i < sb.ninodes && k < SLOTS && Addr(s, i, k) != 0 && !(i == f && lo <= k < hi) ==>
          Addr(s, i, k) in owner && owner[Addr(s, i, k)] == (i, k))
    && (forall a :: a in owner ==>
          && DataStart(sb) <= a < sb.size && owner[a].0 < sb.ninodes && owner[a].1 < SLOTS
          && Addr(s, owner[a].0, owner[a].1) == a && !(owner[a].0 == f && lo <= owner[a].1 < hi))
    && (forall b: nat :: b < sb.size ==> (InUse(sb, s.disk, b) <==> b < DataStart(sb) || b in owner))
  }

  ghost predicate Own(sb: Sb, s: Fs, owner: Owner)
    requires Shape(sb, s)
  {
    OwnExcept(sb, s, owner, 0, 0, 0)
  }

  /** From d to d' only blocks were written that have been logged. */
  ghost predicate Journaled(d: seq<Block>, l: set<nat>, d': seq<Block>, l': set<nat>)
  {
    |d'| == |d| && l <= l' && forall b: nat :: b < |d| && b !in l' ==> d'[b] == d[b]
  }

  lemma JournaledTransitive(d: seq<Block>, l: set<nat>, d1: seq<Block>, l1: set<nat>, d2: seq<Block>, l2: set<nat>)
    requires Journaled(d, l, d1, l1) && Journaled(d1, l1, d2, l2)
    ensures Journaled(d, l, d2, l2)
  {
  }

  /** One logged write. */
  lemma JournaledWrite(d: seq<Block>, l: set<nat>, a: nat, blk: Block)
    requires a < |d|
    ensures Journaled(d, l, d[a := blk], l + {a})
  {
  }

  // ---------------------------------------------------------------- allocation

  /** balloc's effect: the block marked and zeroed. */
  function Allocated(sb: Sb, d: seq<Block>, r: nat): (d': seq<Block>)
    requires SbOk(sb) && |d| == sb.size && r < sb.size
    ensures |d'| == |d|
  {
    Mark(sb, d, r, true)[r := Zeroes()]
  }

  lemma AllocatedJournaled(sb: Sb, d: seq<Block>, l: set<nat>, r: nat)
    requires SbOk(sb) && |d| == sb.size && r < sb.size
    ensures Journaled(d, l, Allocated(sb, d, r), l + {BitBlock(sb, r), r})
  {
    hide Blocks.SetBit, Blocks.Zeroes;
  }

  /** Slot k of inode i made to name block r. */
  function Attached(s: Fs, i: nat, k: nat, r: nat): Fs
    requires i < |s.inodes| && |s.inodes[i].addrs| == NDIRECT + 1 && k < SLOTS
    requires k > NDIRECT ==> s.inodes[i].addrs[NDIRECT] < |s.disk|
  {
    var n := s.inodes[i];
    if k <= NDIRECT then s.(inodes := s.inodes[i := n.(addrs := n.addrs[k := r])])
    else
      var ind := n.addrs[NDIRECT];
      s.(disk := s.disk[ind := PutWord(s.disk[ind], k - NDIRECT - 1, r)])
  }

  /** A free block is a data block that nobody owns. */
  lemma FreeIsUnowned(sb: Sb, s: Fs, owner: Owner, r: nat)
    requires Shape(sb, s) && Own(sb, s, owner) && r < sb.size && !InUse(sb, s.disk, r)
    ensures DataStart(sb) <= r && r !in owner
  {
  }

  lemma InUseOfAllocated(sb: Sb, d: seq<Block>, r: nat, x: nat)
    requires SbOk(sb) && |d| == sb.size && DataStart(sb) <= r < sb.size && x < sb.size
    ensures InUse(sb, Allocated(sb, d, r), x) == (x == r || InUse(sb, d, x))
  {
    InUseOfMark(sb, d, r, true, x);
    InUseFrame(sb, Mark(sb, d, r, true), r, Zeroes(), x);
  }

  lemma AllocatedFrame(sb: Sb, d: seq<Block>, r: nat, x: nat)
    requires SbOk(sb) && |d| == sb.size && DataStart(sb) <= r < sb.size
    requires DataStart(sb) <= x < sb.size && x != r
    ensures Allocated(sb, d, r)[x] == d[x] && Allocated(sb, d, r)[r] == Zeroes()
  {
  }

  /** The state after balloc returned r and its address was stored in slot k of inode i. */
  ghost predicate Grown(sb: Sb, s: Fs, i: nat, k: nat, r: nat, t: Fs)
    requires Shape(sb, s)
  {
    && i < sb.ninodes && k < SLOTS && r < sb.size
    && (k > NDIRECT ==> 0 < s.inodes[i].addrs[NDIRECT] < sb.size)
    && t == Attached(s.(disk := Allocated(sb, s.disk, r)), i, k, r)
  }

  lemma IndirectIsOwned(sb: Sb, s: Fs, owner: Owner, i: nat)
    requires Shape(sb, s) && Own(sb, s, owner) && i < sb.ninodes && s.inodes[i].addrs[NDIRECT] != 0
    ensures var a := s.inodes[i].addrs[NDIRECT];
            a in owner && owner[a] == (i, NDIRECT) && DataStart(sb) <= a < sb.size
  {
    assert Addr(s, i, NDIRECT) == s.inodes[i].addrs[NDIRECT];
  }

  lemma SlotIsOwned(sb: Sb, s: Fs, owner: Owner, i: nat, k: nat)
    requires Shape(sb, s) && Own(sb, s, owner) && i < sb.ninodes && k < SLOTS && Addr(s, i, k) != 0
    ensures Addr(s, i, k) in owner && owner[Addr(s, i, k)] == (i, k)
    ensures DataStart(sb) <= Addr(s, i, k) < sb.size
  {
  }

  lemma AddrWithin(s: Fs, i: nat, k: nat)
    requires i < |s.inodes| && |s.inodes[i].addrs| == NDIRECT + 1 && k <= NDIRECT
    ensures Addr(s, i, k) == s.inodes[i].addrs[k]
  {
  }

  lemma AddrOfIndirect(s: Fs, i: nat)
    requires i < |s.inodes| && |s.inodes[i].addrs| == NDIRECT + 1
    ensures Addr(s, i, NDIRECT) == s.inodes[i].addrs[NDIRECT]
  {
  }

  lemma AddrWithoutIndirect(s: Fs, i: nat, k: nat)
    requires i < |s.inodes| && |s.inodes[i].addrs| == NDIRECT + 1 && k < SLOTS
    requires s.inodes[i].addrs[NDIRECT] == 0 && k > NDIRECT
    ensures Addr(s, i, k) == 0
  {
  }

  lemma GrownShape(sb: Sb, s: Fs, i: nat, k: nat, r: nat, t: Fs)
    requires Shape(sb, s) && Grown(sb, s, i, k, r, t)
    ensures Shape(sb, t)
  {
  }

  /** Growing changes no address but the one slot's. */
  lemma GrownAddr(sb: Sb, s: Fs, owner: Owner, i: nat, k: nat, r: nat, t: Fs, j: nat, m: nat)
    requires Shape(sb, s) && Own(sb, s, owner) && !InUseAt(sb, s, r) && Grown(sb, s, i, k, r, t)
    requires Addr(s, i, k) == 0 && j < sb.ninodes && m < SLOTS
    ensures Shape(sb, t) && Addr(t, j, m) == if j == i && m == k then r else Addr(s, j, m)
  {
    GrownShape(sb, s, i, k, r, t);
    FreeIsUnowned(sb, s, owner, r);
    if m > NDIRECT {
      var a := s.inodes[j].addrs[NDIRECT];
      if a == 0 {
        if j == i && k == NDIRECT {
          WordOfZeroes(m - NDIRECT - 1);
        }
      } else {
        IndirectIsOwned(sb, s, owner, j);
        AllocatedFrame(sb, s.disk, r, a);
        if k > NDIRECT {
          IndirectIsOwned(sb, s, owner, i);
          if j == i {
            WordOfPutWord(s.disk[a], k - NDIRECT - 1, r, m - NDIRECT - 1);
          }
        }
      }
    }
  }

  predicate InUseAt(sb: Sb, s: Fs, r: nat)
    requires SbOk(sb) && |s.disk| == sb.size
  {
    r < sb.size ==> InUse(sb, s.disk, r)
  }

  lemma GrownInUse(sb: Sb, s: Fs, owner: Owner, i: nat, k: nat, r: nat, t: Fs, x: nat)
    requires Shape(sb, s) && Own(sb, s, owner) && !InUseAt(sb, s, r) && Grown(sb, s, i, k, r, t)
    requires x < sb.size
    ensures |t.disk| == sb.size && InUse(sb, t.disk, x) == (x == r || InUse(sb, s.disk, x))
  {
    FreeIsUnowned(sb, s, owner, r);
    InUseOfAllocated(sb, s.disk, r, x);
    if k > NDIRECT {
      IndirectIsOwned(sb, s, owner, i);
      var d := Allocated(sb, s.disk, r);
      var ind := s.inodes[i].addrs[NDIRECT];
      InUseFrame(sb, d, ind, PutWord(d[ind], k - NDIRECT - 1, r), x);
    }
  }

  /** The new block is owned by the slot it was allocated for, and nothing else changes hands. */
  lemma GrownOwn(sb: Sb, s: Fs, owner: Owner, i: nat, k: nat, r: nat, t: Fs)
    requires Shape(sb, s) && Own(sb, s, owner) && !InUseAt(sb, s, r) && Grown(sb, s, i, k, r, t)
    requires Addr(s, i, k) == 0
    ensures Shape(sb, t) && Own(sb, t, owner[r := (i, k)])
  {
    GrownShape(sb, s, i, k, r, t);
    FreeIsUnowned(sb, s, owner, r);
    var owner' := owner[r := (i, k)];
    forall j: nat, m: nat | j < sb.ninodes && m < SLOTS && Addr(t, j, m) != 0
      ensures Addr(t, j, m) in owner' && owner'[Addr(t, j, m)] == (j, m)
    {
      GrownAddr(sb, s, owner, i, k, r, t, j, m);
    }
    forall a | a in owner'
      ensures && DataStart(sb) <= a < sb.size && owner'[a].0 < sb.ninodes && owner'[a].1 < SLOTS
              && Addr(t, owner'[a].0, owner'[a].1) == a
    {
      GrownAddr(sb, s, owner, i, k, r, t, owner'[a].0, owner'[a].1);
    }
    forall x: nat | x < sb.size
      ensures InUse(sb, t.disk, x) <==> x < DataStart(sb) || x in owner'
    {
      GrownInUse(sb, s, owner, i, k, r, t, x);
    }
  }

  /** Growing leaves every other data block's content alone, indirect blocks aside. */
  lemma GrownData(sb: Sb, s: Fs, owner: Owner, i: nat, k: nat, r: nat, t: Fs, a: nat)
    requires Shape(sb, s) && Own(sb, s, owner) && !InUseAt(sb, s, r) && Grown(sb, s, i, k, r, t)
    requires a in owner && owner[a].1 != NDIRECT
    ensures |t.disk| == sb.size && a < sb.size && a != r && t.disk[a] == s.disk[a]
  {
    FreeIsUnowned(sb, s, owner, r);
    AllocatedFrame(sb, s.disk, r, a);
    if k > NDIRECT {
      IndirectIsOwned(sb, s, owner, i);
    }
  }

  // ---------------------------------------------------------------- writing data

  /** Overwriting a block that is neither in the bitmap nor an indirect block changes no
      address and no bit. */
  lemma BlockWriteKeeps(sb: Sb, s: Fs, owner: Owner, a: nat, blk: Block, t: Fs)
    requires Shape(sb, s) && Own(sb, s, owner) && a < sb.size && !(sb.bmapstart <= a < DataStart(sb))
    requires a in owner ==> owner[a].1 != NDIRECT
    requires t == s.(disk := s.disk[a := blk])
    ensures Shape(sb, t) && Own(sb, t, owner)
    ensures forall j: nat, m: nat :: j < sb.ninodes && m < SLOTS ==> Addr(t, j, m) == Addr(s, j, m)
  {
    forall j: nat, m: nat | j < sb.ninodes && m < SLOTS
      ensures Addr(t, j, m) == Addr(s, j, m)
    {
      if s.inodes[j].addrs[NDIRECT] != 0 {
        IndirectIsOwned(sb, s, owner, j);
      }
    }
    forall x: nat | x < sb.size
      ensures InUse(sb, t.disk, x) == InUse(sb, s.disk, x)
    {
      InUseFrame(sb, s.disk, a, blk, x);
    }
  }
}
