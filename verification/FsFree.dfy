/** Freeing the blocks of a file (itrunc in kernel/fs.c): ownership while slots are freed. */
module FsFree {
  import opened Blocks
  import opened FsState
  import opened FsContent
  import opened FsInode

  /** t differs from s only in the bitmap and in inode i. */
  ghost predicate FreesOnly(sb: Sb, s: Fs, i: nat, t: Fs)
    requires Shape(sb, s) && Shape(sb, t)
  {
    && i < sb.ninodes
    && (forall j: nat :: j < sb.ninodes && j != i ==> t.inodes[j] == s.inodes[j])
    && t.inodes[i].head == s.inodes[i].head
    && (forall a: nat :: a < sb.size && !(sb.bmapstart <= a < DataStart(sb)) ==> t.disk[a] == s.disk[a])
  }

  lemma FreesOnlyTransitive(sb: Sb, s: Fs, i: nat, t: Fs, u: Fs)
    requires Shape(sb, s) && Shape(sb, t) && Shape(sb, u) && FreesOnly(sb, s, i, t) && FreesOnly(sb, t, i, u)
    ensures FreesOnly(sb, s, i, u)
  {
  }

  lemma IndirectInRange(sb: Sb, s: Fs, owner: Owner, f: nat, lo: nat, hi: nat, j: nat)
    requires Shape(sb, s) && OwnExcept(sb, s, owner, f, lo, hi) && j < sb.ninodes && lo > NDIRECT
    requires s.inodes[j].addrs[NDIRECT] != 0
    ensures DataStart(sb) <= s.inodes[j].addrs[NDIRECT] < sb.size
    ensures s.inodes[j].addrs[NDIRECT] in owner && owner[s.inodes[j].addrs[NDIRECT]] == (j, NDIRECT)
  {
    AddrOfIndirect(s, j);
  }

  /** Addresses do not depend on the bitmap. */
  lemma MarkAddr(sb: Sb, s: Fs, owner: Owner, f: nat, lo: nat, hi: nat, a: nat, t: Fs, j: nat, m: nat)
    requires Shape(sb, s) && OwnExcept(sb, s, owner, f, lo, hi) && lo > NDIRECT
    requires a < sb.size && t.disk == Mark(sb, s.disk, a, false) && |t.inodes| == sb.ninodes
    requires j < sb.ninodes && m < SLOTS && t.inodes[j] == s.inodes[j]
    ensures Addr(t, j, m) == Addr(s, j, m)
  {
    hide FsState.OwnExcept;
    if m > NDIRECT && s.inodes[j].addrs[NDIRECT] != 0 {
      IndirectInRange(sb, s, owner, f, lo, hi, j);
    }
  }

  /** One entry of the indirect block freed. */
  lemma FreedEntry(sb: Sb, s: Fs, owner: Owner, f: nat, lo: nat, hi: nat, t: Fs)
    requires Shape(sb, s) && OwnExcept(sb, s, owner, f, lo, hi) && f < sb.ninodes && NDIRECT < lo <= hi < SLOTS
    requires 0 < Addr(s, f, hi) < sb.size && t == s.(disk := Mark(sb, s.disk, Addr(s, f, hi), false))
    ensures Addr(s, f, hi) in owner && InUse(sb, s.disk, Addr(s, f, hi))
    ensures Shape(sb, t) && OwnExcept(sb, t, owner - {Addr(s, f, hi)}, f, lo, hi + 1) && FreesOnly(sb, s, f, t)
  {
    hide FsState.Addr, FsState.InUse, Blocks.SetBit;
    var a := Addr(s, f, hi);
    var owner' := owner - {a};
    assert owner[a] == (f, hi);
    forall j: nat, m: nat | j < sb.ninodes && m < SLOTS
      ensures Addr(t, j, m) == Addr(s, j, m)
    {
      MarkAddr(sb, s, owner, f, lo, hi, a, t, j, m);
    }
    forall x: nat | x < sb.size
      ensures InUse(sb, t.disk, x) <==> x < DataStart(sb) || x in owner'
    {
      InUseOfMark(sb, s.disk, a, false, x);
    }
  }

  lemma SkippedEntry(sb: Sb, s: Fs, owner: Owner, f: nat, lo: nat, hi: nat)
    requires Shape(sb, s) && OwnExcept(sb, s, owner, f, lo, hi) && f < sb.ninodes && hi < SLOTS
    requires Addr(s, f, hi) == 0
    ensures OwnExcept(sb, s, owner, f, lo, hi + 1)
  {
  }

  /** Slot k of inode f, direct or indirect, freed and cleared. */
  ghost predicate Cleared(sb: Sb, s: Fs, f: nat, k: nat, t: Fs)
    requires Shape(sb, s)
  {
    && f < sb.ninodes && k <= NDIRECT && 0 < s.inodes[f].addrs[k] < sb.size
    && t == Fs(Mark(sb, s.disk, s.inodes[f].addrs[k], false),
               s.inodes[f := s.inodes[f].(addrs := s.inodes[f].addrs[k := 0])])
  }

  lemma ClearedAddr(sb: Sb, s: Fs, owner: Owner, f: nat, lo: nat, hi: nat, k: nat, t: Fs, j: nat, m: nat)
    requires Shape(sb, s) && OwnExcept(sb, s, owner, f, lo, hi) && lo > NDIRECT && Cleared(sb, s, f, k, t)
    requires j < sb.ninodes && m < SLOTS
    ensures Shape(sb, t)
    ensures Addr(t, j, m) == if j == f && (m == k || (k == NDIRECT && m > NDIRECT)) then 0 else Addr(s, j, m)
  {
    hide FsState.OwnExcept;
    if m > NDIRECT && s.inodes[j].addrs[NDIRECT] != 0 {
      IndirectInRange(sb, s, owner, f, lo, hi, j);
    }
  }

  /** Freeing a direct block, or the indirect block once all its entries are freed. */
  lemma ClearedOwn(sb: Sb, s: Fs, owner: Owner, f: nat, lo: nat, hi: nat, k: nat, t: Fs)
    requires Shape(sb, s) && OwnExcept(sb, s, owner, f, lo, hi) && lo > NDIRECT && Cleared(sb, s, f, k, t)
    requires if k == NDIRECT then lo == NDIRECT + 1 && hi == SLOTS else lo == hi
    ensures s.inodes[f].addrs[k] in owner && InUse(sb, s.disk, s.inodes[f].addrs[k])
    ensures Shape(sb, t) && Own(sb, t, owner - {s.inodes[f].addrs[k]}) && FreesOnly(sb, s, f, t)
  {
    hide FsState.Addr, FsState.InUse, Blocks.SetBit;
    var a := s.inodes[f].addrs[k];
    var owner' := owner - {a};
    AddrWithin(s, f, k);
    assert a in owner && owner[a] == (f, k);
    ClearedAddr(sb, s, owner, f, lo, hi, k, t, f, k);
    forall j: nat, m: nat | j < sb.ninodes && m < SLOTS
      ensures Addr(t, j, m) == if j == f && (m == k || (k == NDIRECT && m > NDIRECT)) then 0 else Addr(s, j, m)
    {
      ClearedAddr(sb, s, owner, f, lo, hi, k, t, j, m);
    }
    forall x: nat | x < sb.size
      ensures InUse(sb, t.disk, x) <==> x < DataStart(sb) || x in owner'
    {
      InUseOfMark(sb, s.disk, a, false, x);
    }
  }

  /** owner' is owner less some blocks of inode i. */
  ghost predicate LosesOnly(owner: Owner, i: nat, owner': Owner)
  {
    && (forall a :: a in owner' ==> a in owner && owner'[a] == owner[a])
    && (forall a :: a in owner && owner[a].0 != i ==> a in owner')
  }

  lemma LosesOne(owner: Owner, i: nat, owner': Owner, a: nat)
    requires LosesOnly(owner, i, owner') && a in owner' && owner'[a].0 == i
    ensures LosesOnly(owner, i, owner' - {a})
  {
  }

  /** An inode without addresses owns nothing. */
  lemma NothingLeft(sb: Sb, s: Fs, owner: Owner, i: nat)
    requires Shape(sb, s) && Own(sb, s, owner) && i < sb.ninodes
    requires forall k :: 0 <= k <= NDIRECT ==> s.inodes[i].addrs[k] == 0
    ensures forall k: nat :: k < SLOTS ==> Addr(s, i, k) == 0
    ensures forall a :: a in owner ==> owner[a].0 != i
  {
    forall k: nat | k < SLOTS
      ensures Addr(s, i, k) == 0
    {
    }
  }

  lemma FreesOnlyAddr(sb: Sb, s: Fs, owner: Owner, i: nat, t: Fs, j: nat, m: nat)
    requires Shape(sb, s) && Shape(sb, t) && Own(sb, s, owner) && FreesOnly(sb, s, i, t)
    requires j < sb.ninodes && j != i && m < SLOTS
    ensures Addr(Fs(t.disk, s.inodes), j, m) == Addr(s, j, m)
  {
    hide FsState.Own, FsState.OwnExcept;
    if m > NDIRECT && s.inodes[j].addrs[NDIRECT] != 0 {
      IndirectIsOwned(sb, s, owner, j);
    }
  }

  /** Freeing the blocks of one file leaves the others' contents and on-disk inodes alone. */
  lemma FreesOnlyOthers(sb: Sb, s: Fs, owner: Owner, i: nat, t: Fs, j: nat)
    requires Shape(sb, s) && Shape(sb, t) && Own(sb, s, owner) && FreesOnly(sb, s, i, t)
    requires j < sb.ninodes && j != i
    ensures Content(t, j) == Content(s, j) && (NoHoles(t, j) <==> NoHoles(s, j))
    ensures Synced(sb, t, j) <==> Synced(sb, s, j)
  {
    hide FsState.Own, FsState.OwnExcept, FsState.Addr, FsContent.Content, FsContent.NoHoles, FsInode.ReadInode;
    var u := Fs(t.disk, s.inodes);
    forall m: nat | m < SLOTS
      ensures Addr(u, j, m) == Addr(s, j, m)
    {
      FreesOnlyAddr(sb, s, owner, i, t, j, m);
    }
    ContentFrame(sb, s, owner, u, j);
    SameFile(t, u, j);
  }

  lemma SameFile(t: Fs, u: Fs, j: nat)
    requires j < |t.inodes| == |u.inodes| && t.disk == u.disk && t.inodes[j] == u.inodes[j]
    requires |t.inodes[j].addrs| == NDIRECT + 1 && t.inodes[j].size <= MAXFILE * BSIZE
    ensures Content(t, j) == Content(u, j) && (NoHoles(t, j) <==> NoHoles(u, j))
  {
    forall m: nat | m < SLOTS
      ensures Addr(t, j, m) == Addr(u, j, m)
    {
    }
    forall p: nat | p < t.inodes[j].size
      ensures ByteAt(t, j, p) == ByteAt(u, j, p)
    {
      BlockOfPosition(p);
    }
  }
}
