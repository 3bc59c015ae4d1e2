/** mkfs/mkfs.c: building an image block by block, bitmap last. Until the bitmap is written, the
    proofs look at the image as if it already marked the blocks handed out so far.
 */
module Mkfs {
  import opened Blocks
  import opened FsState
  import opened FsContent
  import opened FsInode
  import FS = FileSystem
  import CrashFs
  import FsFormat

  // ---------------------------------------------------------------- the bitmap

  /** A bitmap block with the first n bits set. */
  function Bitmap(n: nat): Block
    requires n <= BPB
  {
    if n == 0 then Zeroes() else SetBit(Bitmap(n - 1), n - 1, true)
  }

  lemma {:induction false} ZeroBits(len: nat, k: nat)
    requires k < len
    ensures !ToBits(0, len)[k]
    decreases len
  {
    if k > 0 {
      ZeroBits(len - 1, k - 1);
    }
  }

  lemma BitOfZeroes(b: nat)
    requires b < BPB
    ensures !Bit(Zeroes(), b)
  {
    ZeroBits(8, b % 8);
  }

  lemma {:induction false} BitOfBitmap(n: nat, b: nat)
    requires n <= BPB && b < BPB
    ensures Bit(Bitmap(n), b) == (b < n)
  {
    hide Blocks.Bit, Blocks.SetBit, Blocks.Zeroes;
    if n == 0 {
      BitOfZeroes(b);
    } else {
      BitOfBitmap(n - 1, b);
      BitOfSetBit(Bitmap(n - 1), n - 1, true, b);
    }
  }

  /** One bitmap block, and room for the superblock before the inodes. */
  ghost predicate Layout(sb: Sb)
  {
    SbOk(sb) && sb.size < BPB && 2 <= sb.inodestart
  }

  lemma OneBitmapBlock(sb: Sb, b: nat)
    requires Layout(sb) && b < sb.size
    ensures DataStart(sb) == sb.bmapstart + 1 && BitBlock(sb, b) == sb.bmapstart && BitIndex(b) == b
  {
  }

  /** The image with its first n blocks marked. */
  function Marked(sb: Sb, disk: seq<Block>, n: nat): (d: seq<Block>)
    ensures |d| == |disk|
  {
    if sb.bmapstart < |disk| && n <= BPB then disk[sb.bmapstart := Bitmap(n)] else disk
  }

  lemma MarkedInUse(sb: Sb, disk: seq<Block>, n: nat, b: nat)
    requires Layout(sb) && |disk| == sb.size && n <= BPB && b < sb.size
    ensures InUse(sb, Marked(sb, disk, n), b) == (b < n)
  {
    hide Bit, Bitmap;
    OneBitmapBlock(sb, b);
    BitOfBitmap(n, b);
  }

  /** Handing out block n is what the kernel's balloc does to the marked image, as long as the
      blocks not handed out are zero. */
  lemma MarkedNext(sb: Sb, disk: seq<Block>, n: nat)
    requires Layout(sb) && |disk| == sb.size && DataStart(sb) <= n < sb.size && disk[n] == Zeroes()
    ensures Allocated(sb, Marked(sb, disk, n), n) == Marked(sb, disk, n + 1)
  {
    hide SetBit, Zeroes;
    OneBitmapBlock(sb, n);
    var d := Marked(sb, disk, n);
    assert d[n] == Zeroes();
    assert Mark(sb, d, n, true) == Marked(sb, disk, n + 1);
  }

  function Empty(): Inode
  {
    Inode([0, 0], 0, seq(NDIRECT + 1, _ => 0))
  }

  /** An empty inode with a type and one link. */
  function NewInode(typ: nat): Inode
  {
    Empty().(head := [typ, 65536])
  }

  lemma NewInodeOk(typ: nat)
    requires typ < 65536
    ensures InodeOk(NewInode(typ)) && |InodeWords(NewInode(typ))| == INODE_WORDS
    ensures NewInode(typ) == Empty().(head := NewInode(typ).head) && NewInode(typ).size == 0
  {
  }

  /** A new inode on the disk: type in the first two bytes, one link in the last two before the size, and
      nothing else. */
  lemma NewInodeOnDisk(sb: Sb, s: Fs, i: nat, typ: nat)
    requires Shape(sb, s) && i < sb.ninodes && Synced(sb, s, i) && typ < 65536 && s.inodes[i] == NewInode(typ)
    ensures FsFormat.RawInode(sb, i) < |s.disk|
    ensures var b, off := s.disk[FsFormat.RawInode(sb, i)], i % 16 * 64;
            && b[off] as int + 256 * b[off + 1] as int == typ
            && b[off + 2] == b[off + 3] == b[off + 4] == b[off + 5] == 0
            && b[off + 6] == 1 && b[off + 7] == 0
            && forall k: nat :: 2 <= k < 16 ==> FsFormat.Raw32(b, off + 4 * k) == 0
  {
    FsFormat.InodeOnDisk(sb, s, i);
    var b, off := s.disk[FsFormat.RawInode(sb, i)], i % 16 * 64;
    FsFormat.WordIs(b, i % 16 * 16);
    FsFormat.WordIs(b, i % 16 * 16 + 1);
    forall k: nat | 2 <= k < 16
      ensures FsFormat.Raw32(b, off + 4 * k) == 0
    {
      if k > 2 {
        assert s.inodes[i].addrs[k - 3] == FsFormat.Raw32(b, off + 12 + 4 * (k - 3));
      }
    }
  }

  lemma NothingIn(s: Fs, i: nat)
    requires i < |s.inodes| && |s.inodes[i].addrs| == NDIRECT + 1 && s.inodes[i].size == 0
    ensures Content(s, i) == []
  {
  }

  lemma EmptyInode(w: nat)
    requires w + INODE_WORDS <= NINDIRECT
    ensures InodeOk(Empty()) && ReadInode(Zeroes(), w) == Empty()
  {
    forall k | w <= k < w + INODE_WORDS
      ensures Word(Zeroes(), k) == 0
    {
      WordOfZeroes(k);
    }
    assert ReadInode(Zeroes(), w).addrs == Empty().addrs;
  }

  // ---------------------------------------------------------------- the image under construction

  ghost predicate Sound(sb: Sb, disk: seq<Block>, inodes: seq<Inode>, owner: Owner, freeblock: nat)
  {
    && Layout(sb) && |disk| == sb.size && DataStart(sb) <= freeblock <= sb.size
    && (forall a :: freeblock <= a < sb.size ==> disk[a] == Zeroes())
    && Shape(sb, Fs(Marked(sb, disk, freeblock), inodes)) && Own(sb, Fs(Marked(sb, disk, freeblock), inodes), owner)
  }

  lemma FreshImage(sb: Sb, disk: seq<Block>)
    requires Layout(sb) && |disk| == sb.size && forall a :: 0 <= a < sb.size && a != 1 ==> disk[a] == Zeroes()
    ensures var inodes := seq(sb.ninodes, _ => Empty());
            && Sound(sb, disk, inodes, map[], DataStart(sb))
            && Complete(sb, Fs(Marked(sb, disk, DataStart(sb)), inodes), map[])
            && (forall i: nat, k: nat :: i < sb.ninodes && k < SLOTS ==>
                  Addr(Fs(Marked(sb, disk, DataStart(sb)), inodes), i, k) == 0)
  {
    hide Bitmap, ReadInode, Zeroes;
    OneBitmapBlock(sb, 0);
    EmptyInode(0);
    var s := Fs(Marked(sb, disk, DataStart(sb)), seq(sb.ninodes, _ => Empty()));
    forall b: nat | b < sb.size
      ensures InUse(sb, s.disk, b) <==> b < DataStart(sb)
    {
      MarkedInUse(sb, disk, DataStart(sb), b);
    }
    forall i: nat | i < sb.ninodes
      ensures Synced(sb, s, i)
    {
      EmptyInode(FirstWord(i));
      assert s.disk[IBlock(sb, i)] == Zeroes();
    }
  }

  /** The next free block put into a slot: the kernel's growth, on the marked image. */
  lemma GrewImage(sb: Sb, disk: seq<Block>, inodes: seq<Inode>, owner: Owner, n: nat, i: nat, k: nat, disk': seq<Block>,
                  inodes': seq<Inode>)
    requires Sound(sb, disk, inodes, owner, n) && n < sb.size && i < sb.ninodes && k < SLOTS
    requires Addr(Fs(Marked(sb, disk, n), inodes), i, k) == 0 && (k > NDIRECT ==> inodes[i].addrs[NDIRECT] != 0)
    requires if k <= NDIRECT then disk' == disk && inodes' == inodes[i := inodes[i].(addrs := inodes[i].addrs[k := n])]
             else && inodes' == inodes && inodes[i].addrs[NDIRECT] < sb.size
                  && var ind := inodes[i].addrs[NDIRECT];
                  disk' == disk[ind := PutWord(disk[ind], k - NDIRECT - 1, n)]
    ensures Sound(sb, disk', inodes', owner[n := (i, k)], n + 1)
    ensures Extends(sb, Fs(Marked(sb, disk, n), inodes), owner, i, Fs(Marked(sb, disk', n + 1), inodes'),
                    owner[n := (i, k)])
    ensures forall m: nat :: m < SLOTS ==>
              Addr(Fs(Marked(sb, disk', n + 1), inodes'), i, m) == if m == k then n
                else Addr(Fs(Marked(sb, disk, n), inodes), i, m)
  {
    hide FsState.Own, FsState.OwnExcept, FsContent.Extends, Bitmap, FsState.Addr, FsState.Allocated, FsState.InUse;
    var s, t := Fs(Marked(sb, disk, n), inodes), Fs(Marked(sb, disk', n + 1), inodes');
    MarkedInUse(sb, disk, n, n);
    MarkedNext(sb, disk, n);
    OneBitmapBlock(sb, n);
    if k > NDIRECT {
      IndirectIsOwned(sb, s, owner, i);
      OwnedBelow(sb, disk, inodes, owner, n, inodes[i].addrs[NDIRECT]);
    }
    assert Grown(sb, s, i, k, n, t);
    GrownOwn(sb, s, owner, i, k, n, t);
    GrownExtends(sb, s, owner, i, k, n, t);
    forall m: nat | m < SLOTS
      ensures Addr(t, i, m) == if m == k then n else Addr(s, i, m)
    {
      GrownAddr(sb, s, owner, i, k, n, t, i, m);
    }
  }

  /** Owned blocks have been handed out. */
  lemma OwnedBelow(sb: Sb, disk: seq<Block>, inodes: seq<Inode>, owner: Owner, n: nat, a: nat)
    requires Sound(sb, disk, inodes, owner, n) && a in owner
    ensures DataStart(sb) <= a < n
  {
    hide Bitmap, FsState.InUse;
    MarkedInUse(sb, disk, n, a);
  }

  lemma IndirectBelow(sb: Sb, disk: seq<Block>, inodes: seq<Inode>, owner: Owner, n: nat, i: nat)
    requires Sound(sb, disk, inodes, owner, n) && i < sb.ninodes && inodes[i].addrs[NDIRECT] != 0
    ensures DataStart(sb) <= inodes[i].addrs[NDIRECT] < n
  {
    hide Bitmap, FsState.InUse, FsState.Own, FsState.OwnExcept, FsState.Addr;
    var s := Fs(Marked(sb, disk, n), inodes);
    IndirectIsOwned(sb, s, owner, i);
    OwnedBelow(sb, disk, inodes, owner, n, inodes[i].addrs[NDIRECT]);
  }

  lemma SoundShape(sb: Sb, disk: seq<Block>, inodes: seq<Inode>, owner: Owner, n: nat)
    requires Sound(sb, disk, inodes, owner, n)
    ensures Layout(sb) && |disk| == sb.size && DataStart(sb) <= n <= sb.size
    ensures Shape(sb, Fs(Marked(sb, disk, n), inodes)) && Own(sb, Fs(Marked(sb, disk, n), inodes), owner)
  {
  }

  lemma SlotBelow(sb: Sb, disk: seq<Block>, inodes: seq<Inode>, owner: Owner, n: nat, i: nat, k: nat)
    requires Sound(sb, disk, inodes, owner, n) && i < sb.ninodes && k < SLOTS
    requires Addr(Fs(Marked(sb, disk, n), inodes), i, k) != 0
    ensures DataStart(sb) <= Addr(Fs(Marked(sb, disk, n), inodes), i, k) < n
  {
    hide Bitmap, FsState.InUse, FsState.Own, FsState.OwnExcept, FsState.Addr;
    var s := Fs(Marked(sb, disk, n), inodes);
    SlotIsOwned(sb, s, owner, i, k);
    OwnedBelow(sb, disk, inodes, owner, n, Addr(s, i, k));
  }

  // ---------------------------------------------------------------- contents while building

  /** s and t have the same data blocks for file i, absent ones counting as zeroes. */
  ghost predicate SameBlocks(s: Fs, t: Fs, i: nat)
    requires i < |s.inodes| && |s.inodes[i].addrs| == NDIRECT + 1 && i < |t.inodes|
    requires |t.inodes[i].addrs| == NDIRECT + 1
  {
    forall bn: nat :: bn < MAXFILE ==> FileBlock(t, i, bn) == FileBlock(s, i, bn)
  }

  /** A block handed out is still zero, so growth changes no byte of the file. */
  lemma GrewBlocks(sb: Sb, disk: seq<Block>, inodes: seq<Inode>, owner: Owner, n: nat, i: nat, k: nat,
                   disk': seq<Block>, inodes': seq<Inode>)
    requires Sound(sb, disk, inodes, owner, n) && n < sb.size && i < sb.ninodes && k < SLOTS
    requires Sound(sb, disk', inodes', owner[n := (i, k)], n + 1) && disk'[n] == Zeroes()
    requires Addr(Fs(Marked(sb, disk, n), inodes), i, k) == 0
    requires Extends(sb, Fs(Marked(sb, disk, n), inodes), owner, i, Fs(Marked(sb, disk', n + 1), inodes'),
                     owner[n := (i, k)])
    requires forall m: nat :: m < SLOTS ==>
               Addr(Fs(Marked(sb, disk', n + 1), inodes'), i, m) == if m == k then n
                 else Addr(Fs(Marked(sb, disk, n), inodes), i, m)
    ensures SameBlocks(Fs(Marked(sb, disk, n), inodes), Fs(Marked(sb, disk', n + 1), inodes'), i)
  {
    hide FsState.Own, FsState.OwnExcept, FsContent.Extends, Bitmap, FsState.Addr, Sound, Blocks.Zeroes;
    SoundShape(sb, disk, inodes, owner, n);
    SoundShape(sb, disk', inodes', owner[n := (i, k)], n + 1);
    var s, t := Fs(Marked(sb, disk, n), inodes), Fs(Marked(sb, disk', n + 1), inodes');
    forall bn: nat | bn < MAXFILE
      ensures FileBlock(t, i, bn) == FileBlock(s, i, bn)
    {
      if Addr(s, i, Slot(bn)) != 0 {
        ExtendsBlock(sb, s, owner, i, t, owner[n := (i, k)], i, bn);
      }
    }
  }

  /** From s to t, slot k of inode i was given a block if it had none; nothing else changed. */
  ghost predicate Found(sb: Sb, s: Fs, owner: Owner, i: nat, k: nat, t: Fs, owner': Owner, x: nat)
  {
    && Shape(sb, s) && Shape(sb, t) && i < sb.ninodes && k < SLOTS && x == Addr(t, i, k)
    && Extends(sb, s, owner, i, t, owner') && SameBlocks(s, t, i)
    && forall m: nat :: m < SLOTS && m != k ==> Addr(t, i, m) == Addr(s, i, m)
  }

  /** The same for block fbn of the file and, where that needs one, the indirect block. */
  ghost predicate FoundBlock(sb: Sb, s: Fs, owner: Owner, i: nat, fbn: nat, t: Fs, owner': Owner, x: nat)
  {
    && Shape(sb, s) && Shape(sb, t) && i < sb.ninodes && fbn < MAXFILE && x == Addr(t, i, Slot(fbn))
    && Extends(sb, s, owner, i, t, owner') && SameBlocks(s, t, i)
    && (fbn < NDIRECT ==> Addr(t, i, NDIRECT) == Addr(s, i, NDIRECT))
    && forall bn: nat :: bn < MAXFILE && bn != fbn ==> Addr(t, i, Slot(bn)) == Addr(s, i, Slot(bn))
  }

  lemma FoundAlready(sb: Sb, s: Fs, owner: Owner, i: nat, k: nat)
    requires Shape(sb, s) && i < sb.ninodes && k < SLOTS
    ensures Found(sb, s, owner, i, k, s, owner, Addr(s, i, k))
  {
    hide FsContent.Extends;
    ExtendsSelf(sb, s, owner, i);
  }

  lemma FoundIn(sb: Sb, s: Fs, owner: Owner, i: nat, t: Fs, owner': Owner, x: nat)
    requires Found(sb, s, owner, i, NDIRECT, t, owner', x)
    ensures i < |t.inodes| && |t.inodes[i].addrs| == NDIRECT + 1 && t.inodes[i].addrs[NDIRECT] == x
  {
    hide FsContent.Extends, SameBlocks;
  }

  lemma FoundDirect(sb: Sb, s: Fs, owner: Owner, i: nat, fbn: nat, t: Fs, owner': Owner, x: nat)
    requires fbn < NDIRECT && Found(sb, s, owner, i, fbn, t, owner', x)
    ensures FoundBlock(sb, s, owner, i, fbn, t, owner', x)
  {
    hide FsContent.Extends, FsState.Addr, SameBlocks;
  }

  lemma FoundIndirect(sb: Sb, s: Fs, o: Owner, i: nat, fbn: nat, t: Fs, o': Owner, ind: nat, u: Fs, o'': Owner, x: nat)
    requires NDIRECT <= fbn < MAXFILE && Found(sb, s, o, i, NDIRECT, t, o', ind)
    requires Found(sb, t, o', i, fbn + 1, u, o'', x)
    ensures FoundBlock(sb, s, o, i, fbn, u, o'', x)
  {
    hide FsContent.Extends, FsState.Addr, FsContent.FileBlock;
    ExtendsTransitive(sb, s, o, i, t, o', u, o'');
  }

  /** No block and no byte but zero from size on. */
  ghost predicate Beyond(s: Fs, i: nat, size: nat)
    requires i < |s.inodes| && |s.inodes[i].addrs| == NDIRECT + 1
  {
    && (forall bn: nat :: bn < MAXFILE && bn * BSIZE >= size ==> Addr(s, i, Slot(bn)) == 0)
    && (forall p: nat :: size <= p < MAXFILE * BSIZE ==> ByteAt(s, i, p) == 0)
    && (size <= NDIRECT * BSIZE ==> Addr(s, i, NDIRECT) == 0)
  }

  /** The blocks of file i end where its size says. */
  ghost predicate Exact(s: Fs, i: nat)
    requires i < |s.inodes| && |s.inodes[i].addrs| == NDIRECT + 1
  {
    Beyond(s, i, s.inodes[i].size)
  }

  lemma SameContent(s: Fs, t: Fs, i: nat)
    requires i < |s.inodes| && |s.inodes[i].addrs| == NDIRECT + 1 && i < |t.inodes|
    requires |t.inodes[i].addrs| == NDIRECT + 1
    requires t.inodes[i].size == s.inodes[i].size <= MAXFILE * BSIZE && SameBlocks(s, t, i)
    requires forall m: nat :: m < SLOTS ==> Addr(t, i, m) == Addr(s, i, m)
    ensures Content(t, i) == Content(s, i) && (Exact(s, i) ==> Exact(t, i))
  {
    hide FsState.Addr, FsContent.FileBlock;
    assert Addr(t, i, NDIRECT) == Addr(s, i, NDIRECT);
    forall q: nat | q < MAXFILE * BSIZE
      ensures ByteAt(t, i, q) == ByteAt(s, i, q)
    {
      BlockOfPosition(q);
    }
  }

  /** The image with every file as it should be, on the disk and in memory. */
  ghost predicate Complete(sb: Sb, s: Fs, owner: Owner)
  {
    FS.Consistent(sb, s, owner) && forall i: nat :: i < sb.ninodes ==> Exact(s, i)
  }

  /** t is s with data put at the end of file i, but for the size. */
  ghost predicate Appended(sb: Sb, s: Fs, i: nat, data: seq<Byte>, t: Fs)
  {
    && Shape(sb, s) && Shape(sb, t) && i < sb.ninodes
    && Wrote(sb, s, i, s.inodes[i].size, data, t) && Beyond(t, i, s.inodes[i].size + |data|)
  }

  /** One round of iappend's loop: the file found its block (t to u) and the bytes went in (u to v). */
  lemma AppendStep(sb: Sb, s: Fs, i: nat, data: seq<Byte>, t: Fs, owner: Owner, u: Fs, owner': Owner, pos: nat, a: nat,
                   chunk: seq<Byte>, v: Fs)
    requires 0 < |chunk| <= BSIZE - pos % BSIZE && pos / BSIZE < MAXFILE && pos + |chunk| <= MAXFILE * BSIZE
    requires 0 < a < |u.disk|
    requires v == u.(disk := u.disk[a := Patched(u.disk[a], pos % BSIZE, chunk)])
    requires FoundBlock(sb, t, owner, i, pos / BSIZE, u, owner', a) && Appended(sb, s, i, data, t)
    requires i < |s.inodes| && pos == s.inodes[i].size + |data|
    requires Shape(sb, t) && Shape(sb, u) && Own(sb, t, owner) && Own(sb, u, owner')
    ensures Appended(sb, s, i, data + chunk, v) && Shape(sb, v) && Own(sb, v, owner')
  {
    hide FsState.Own, FsState.OwnExcept, FsState.Addr, FsContent.Extends, FsContent.Wrote, FsContent.Patched,
      SameBlocks, Beyond;
    WroteThenGrew(sb, s, i, s.inodes[i].size, data, t, owner, u, owner');
    WroteChunk(sb, s, i, s.inodes[i].size, data, u, owner', chunk, v);
    AppendBeyond(sb, t, owner, i, pos, u, owner', a, chunk, v);
  }

  lemma AppendBeyond(sb: Sb, t: Fs, owner: Owner, i: nat, pos: nat, u: Fs, owner': Owner, a: nat, chunk: seq<Byte>,
                     v: Fs)
    requires 0 < |chunk| <= BSIZE - pos % BSIZE && pos / BSIZE < MAXFILE && pos + |chunk| <= MAXFILE * BSIZE
    requires 0 < a < |u.disk|
    requires v == u.(disk := u.disk[a := Patched(u.disk[a], pos % BSIZE, chunk)])
    requires FoundBlock(sb, t, owner, i, pos / BSIZE, u, owner', a)
    requires Shape(sb, t) && Shape(sb, u) && Own(sb, u, owner') && i < sb.ninodes && Beyond(t, i, pos)
    ensures Shape(sb, v) && Beyond(v, i, pos + |chunk|)
  {
    hide FsState.Own, FsState.OwnExcept, FsState.Addr, FsContent.Extends, FsContent.ByteAt, FsContent.Patched,
      SameBlocks;
    PatchedAddr(sb, u, owner', i, pos / BSIZE, v);
    forall p: nat | pos + |chunk| <= p < MAXFILE * BSIZE
      ensures ByteAt(v, i, p) == 0
    {
      PatchedByte(sb, u, owner', i, pos, chunk, v, p);
      SameByte(t, u, i, p);
      assert ByteAt(t, i, p) == 0;
    }
    forall bn: nat | bn < MAXFILE && bn * BSIZE >= pos + |chunk|
      ensures Addr(v, i, Slot(bn)) == 0
    {
      assert bn != pos / BSIZE && Addr(t, i, Slot(bn)) == 0;
    }
  }

  lemma SameByte(t: Fs, u: Fs, i: nat, p: nat)
    requires i < |t.inodes| && |t.inodes[i].addrs| == NDIRECT + 1 && i < |u.inodes|
    requires |u.inodes[i].addrs| == NDIRECT + 1
    requires SameBlocks(t, u, i) && p < MAXFILE * BSIZE
    ensures ByteAt(u, i, p) == ByteAt(t, i, p)
  {
    hide FsState.Addr, FsContent.FileBlock;
    BlockOfPosition(p);
  }

  lemma PatchedAddr(sb: Sb, u: Fs, owner: Owner, i: nat, fbn: nat, v: Fs)
    requires Shape(sb, u) && Own(sb, u, owner) && i < sb.ninodes && fbn < MAXFILE && 0 < Addr(u, i, Slot(fbn)) < sb.size
    requires |v.disk| == sb.size && v == u.(disk := u.disk[Addr(u, i, Slot(fbn)) := v.disk[Addr(u, i, Slot(fbn))]])
    ensures Shape(sb, v) && forall j: nat, m: nat :: j < sb.ninodes && m < SLOTS ==> Addr(v, j, m) == Addr(u, j, m)
  {
    hide FsState.Own, FsState.OwnExcept, FsState.Addr;
    SlotIsOwned(sb, u, owner, i, Slot(fbn));
    BlockWriteKeeps(sb, u, owner, Addr(u, i, Slot(fbn)), v.disk[Addr(u, i, Slot(fbn))], v);
  }

  // ---------------------------------------------------------------- how many blocks it takes

  /** The blocks a file of that size takes, the indirect block included. */
  function Footprint(size: nat): nat
  {
    var k := (size + BSIZE - 1) / BSIZE;
    if k > NDIRECT then k + 1 else k
  }

  lemma FootprintMonotone(a: nat, b: nat)
    requires a <= b
    ensures Footprint(a) <= Footprint(b)
  {
    assert (a + BSIZE - 1) / BSIZE <= (b + BSIZE - 1) / BSIZE;
  }

  /** Bytes that stay within a block take blocks only where they start one. */
  lemma FootprintStep(pos: nat, m: nat)
    requires 0 < m <= BSIZE - pos % BSIZE
    ensures pos % BSIZE != 0 ==> Footprint(pos + m) == Footprint(pos)
    ensures pos % BSIZE == 0 ==> Footprint(pos + m) == Footprint(pos) + if pos / BSIZE == NDIRECT then 2 else 1
  {
    var k, r := pos / BSIZE, pos % BSIZE;
    assert pos == BSIZE * k + r;
    assert (pos + m + BSIZE - 1) / BSIZE == k + 1;
    assert (pos + BSIZE - 1) / BSIZE == if r == 0 then k else k + 1;
  }

  ghost function SlotCost(s: Fs, i: nat, k: nat): nat
  {
    if i < |s.inodes| && |s.inodes[i].addrs| == NDIRECT + 1 && k < SLOTS && Addr(s, i, k) == 0 then 1 else 0
  }

  ghost function BlockCost(s: Fs, i: nat, fbn: nat): nat
  {
    if fbn < NDIRECT then SlotCost(s, i, fbn) else SlotCost(s, i, NDIRECT) + SlotCost(s, i, fbn + 1)
  }

  lemma FoundCost(sb: Sb, s: Fs, owner: Owner, i: nat, k: nat, t: Fs, owner': Owner, x: nat, m: nat)
    requires Found(sb, s, owner, i, k, t, owner', x) && m != k
    ensures SlotCost(t, i, m) == SlotCost(s, i, m)
  {
    hide FsContent.Extends, SameBlocks, FsState.Addr;
  }

  /** A listed block that is there is listed somewhere. */
  lemma IndirectThere(s: Fs, i: nat, bn: nat)
    requires i < |s.inodes| && |s.inodes[i].addrs| == NDIRECT + 1 && NDIRECT <= bn < MAXFILE
    requires Addr(s, i, Slot(bn)) != 0
    ensures Addr(s, i, NDIRECT) != 0
  {
  }

  lemma CostIs(sb: Sb, s: Fs, i: nat, data: seq<Byte>, t: Fs, m: nat)
    requires Shape(sb, s) && Shape(sb, t) && i < sb.ninodes && Wrote(sb, s, i, s.inodes[i].size, data, t)
    requires var pos := s.inodes[i].size + |data|;
             Beyond(t, i, pos) && 0 < m <= BSIZE - pos % BSIZE && pos / BSIZE < MAXFILE
    ensures var pos := s.inodes[i].size + |data|;
            BlockCost(t, i, pos / BSIZE) == Footprint(pos + m) - Footprint(pos)
  {
    hide FsState.Addr, FsContent.ByteAt, FsContent.FileBlock, Footprint;
    var pos := s.inodes[i].size + |data|;
    var fbn := pos / BSIZE;
    FootprintStep(pos, m);
    if pos % BSIZE != 0 {
      assert fbn * BSIZE < pos;
      assert Addr(t, i, Slot(fbn)) != 0;
      if fbn >= NDIRECT {
        IndirectThere(t, i, fbn);
      }
    } else {
      assert fbn * BSIZE >= pos;
      assert Addr(t, i, Slot(fbn)) == 0;
      if fbn > NDIRECT {
        assert (fbn - 1) * BSIZE < pos;
        assert Addr(t, i, Slot(fbn - 1)) != 0;
        IndirectThere(t, i, fbn - 1);
      }
    }
  }

  /** n more bytes fit in a file of that size when the first free block is b. */
  ghost predicate Room(sb: Sb, b: nat, size: nat, n: nat)
  {
    size + n <= MAXFILE * BSIZE && b + Footprint(size + n) - Footprint(size) <= sb.size
  }

  /** The image while data is being appended to file i of s. */
  ghost predicate Appending(sb: Sb, s: Fs, i: nat, data: seq<Byte>, disk: seq<Block>, inodes: seq<Inode>, owner: Owner,
                            n: nat)
  {
    Sound(sb, disk, inodes, owner, n) && Appended(sb, s, i, data, Fs(Marked(sb, disk, n), inodes))
  }

  /** A write to a block handed out commutes with marking. */
  lemma MarkedWrite(sb: Sb, disk: seq<Block>, n: nat, x: nat, blk: Block)
    requires Layout(sb) && |disk| == sb.size && n <= sb.size && x < sb.size && x != sb.bmapstart
    ensures Marked(sb, disk[x := blk], n) == Marked(sb, disk, n)[x := blk] && Marked(sb, disk, n)[x] == disk[x]
  {
    hide Bitmap;
  }

  lemma AppendRound(sb: Sb, s: Fs, i: nat, data: seq<Byte>, tot: nat, n1: nat, disk0: seq<Block>, inodes0: seq<Inode>,
                    owner0: Owner, n0: nat, disk: seq<Block>, inodes: seq<Inode>, owner: Owner, n: nat, x: nat,
                    disk': seq<Block>)
    requires tot + n1 <= |data| && i < |s.inodes| && DataStart(sb) <= x < n <= |disk|
    requires var pos := s.inodes[i].size + tot;
             && 0 < n1 <= BSIZE - pos % BSIZE && pos / BSIZE < MAXFILE
             && disk' == disk[x := Patched(disk[x], pos % BSIZE, data[tot..tot + n1])]
             && FoundBlock(sb, Fs(Marked(sb, disk0, n0), inodes0), owner0, i, pos / BSIZE,
                           Fs(Marked(sb, disk, n), inodes), owner, x)
    requires Appending(sb, s, i, data[..tot], disk0, inodes0, owner0, n0) && Sound(sb, disk, inodes, owner, n)
    ensures Appending(sb, s, i, data[..tot + n1], disk', inodes, owner, n)
  {
    hide FsState.Own, FsState.OwnExcept, Appended, FoundBlock, Bitmap, FsContent.Patched, Marked;
    var t, u := Fs(Marked(sb, disk0, n0), inodes0), Fs(Marked(sb, disk, n), inodes);
    var pos := s.inodes[i].size + tot;
    WithinFile(pos, n1);
    OneBitmapBlock(sb, 0);
    MarkedWrite(sb, disk, n, x, disk'[x]);
    AppendStep(sb, s, i, data[..tot], t, owner0, u, owner, pos, x, data[tot..tot + n1],
               Fs(Marked(sb, disk', n), inodes));
    assert data[..tot] + data[tot..tot + n1] == data[..tot + n1];
  }

  lemma WithinFile(pos: nat, m: nat)
    requires pos / BSIZE < MAXFILE && m <= BSIZE - pos % BSIZE
    ensures pos + m <= MAXFILE * BSIZE
  {
  }

  /** The last step of iappend: the size is set (u) and the inode written (v). */
  lemma AppendDone(sb: Sb, s: Fs, owner: Owner, i: nat, data: seq<Byte>, t: Fs, owner': Owner, u: Fs, v: Fs)
    requires Complete(sb, s, owner) && i < sb.ninodes && Shape(sb, t) && Own(sb, t, owner')
    requires Wrote(sb, s, i, s.inodes[i].size, data, t) && Beyond(t, i, s.inodes[i].size + |data|)
    requires u == t.(inodes := t.inodes[i := t.inodes[i].(size := s.inodes[i].size + |data|)])
    requires |InodeWords(u.inodes[i])| == INODE_WORDS && v == Updated(sb, u, i)
    ensures Complete(sb, v, owner') && Content(v, i) == Content(s, i) + data && v.inodes == u.inodes
    ensures forall j: nat :: j < sb.ninodes && j != i ==> Content(v, j) == Content(s, j) && v.inodes[j] == s.inodes[j]
  {
    hide FsState.Own, FsState.OwnExcept, FsState.Addr, FsContent.Wrote, FsContent.Content, FsInode.ReadInode,
      FsContent.FileBlock, Updated, Exact;
    FS.ConsistentSizes(sb, s, owner, i);
    FS.WroteSizes(sb, s, i, s.inodes[i].size, data, t);
    FS.SizeChangeKeeps(sb, t, owner', i, u);
    FS.FinishedContent(sb, s, i, s.inodes[i].size, data, t, u, owner', v);
    FS.FinishedOthers(sb, s, i, s.inodes[i].size, data, t, u, owner', v);
    AppendExact(sb, s, owner, i, data, t, owner', u, v);
    AppendedAtEnd(Content(s, i), data);
  }

  lemma AppendedAtEnd(c: seq<Byte>, data: seq<Byte>)
    ensures Overwrite(c, |c|, data) == c + data
  {
  }

  lemma AppendExact(sb: Sb, s: Fs, owner: Owner, i: nat, data: seq<Byte>, t: Fs, owner': Owner, u: Fs, v: Fs)
    requires Complete(sb, s, owner) && i < sb.ninodes && Shape(sb, t) && Shape(sb, u) && Own(sb, u, owner')
    requires Wrote(sb, s, i, s.inodes[i].size, data, t) && Beyond(t, i, s.inodes[i].size + |data|)
    requires u == t.(inodes := t.inodes[i := t.inodes[i].(size := s.inodes[i].size + |data|)])
    requires |InodeWords(u.inodes[i])| == INODE_WORDS && v == Updated(sb, u, i)
    ensures Shape(sb, v) && forall j: nat :: j < sb.ninodes ==> Exact(v, j)
    ensures forall j: nat :: j < sb.ninodes && j != i ==> v.inodes[j] == s.inodes[j]
  {
    hide FsState.Own, FsState.OwnExcept, FsState.Addr, FsContent.FileBlock, Updated, FsContent.Content,
      FsContent.ByteAt, FsContent.AllWhole, FsInode.Synced;
    UpdatedKeeps(sb, u, owner', i);
    FS.UpdatedInodes(sb, u, i);
    forall j: nat | j < sb.ninodes
      ensures Exact(v, j)
    {
      WroteBlocks(sb, s, i, s.inodes[i].size, data, t, j);
      ResizedBlocks(sb, t, i, u, j);
      UpdatedBlocks(sb, u, owner', i, v, j);
      if j == i {
        BeyondFrame(sb, t, v, i, s.inodes[i].size + |data|);
      } else {
        assert Exact(s, j);
        SameContent(s, v, j);
      }
    }
  }

  lemma WroteBlocks(sb: Sb, s: Fs, i: nat, off: nat, data: seq<Byte>, t: Fs, j: nat)
    requires Shape(sb, s) && Shape(sb, t) && Wrote(sb, s, i, off, data, t) && j < sb.ninodes
    ensures j != i ==> SameBlocks(s, t, j) && t.inodes[j] == s.inodes[j] && forall m: nat :: m < SLOTS ==>
            Addr(t, j, m) == Addr(s, j, m)
  {
    hide FsState.Addr, FsContent.FileBlock;
  }

  /** Changing head or size of an inode moves no block. */
  lemma ResizedBlocks(sb: Sb, t: Fs, i: nat, u: Fs, j: nat)
    requires Shape(sb, t) && Shape(sb, u) && i < sb.ninodes && j < sb.ninodes && u.disk == t.disk
    requires u.inodes[i].addrs == t.inodes[i].addrs && forall k: nat :: k < sb.ninodes && k != i ==>
               u.inodes[k] == t.inodes[k]
    ensures SameBlocks(t, u, j) && forall m: nat :: m < SLOTS ==> Addr(u, j, m) == Addr(t, j, m)
  {
    assert u.inodes[j].addrs == t.inodes[j].addrs;
    forall m: nat | m < SLOTS
      ensures Addr(u, j, m) == Addr(t, j, m)
    {
    }
  }

  lemma UpdatedBlocks(sb: Sb, u: Fs, owner: Owner, i: nat, v: Fs, j: nat)
    requires Shape(sb, u) && Own(sb, u, owner) && i < sb.ninodes && j < sb.ninodes
    requires |InodeWords(u.inodes[i])| == INODE_WORDS && v == Updated(sb, u, i)
    ensures Shape(sb, v) && SameBlocks(u, v, j) && forall m: nat :: m < SLOTS ==> Addr(v, j, m) == Addr(u, j, m)
  {
    hide FsState.Own, FsState.OwnExcept, FsState.Addr, Updated;
    UpdatedKeeps(sb, u, owner, i);
    forall bn: nat | bn < MAXFILE
      ensures FileBlock(v, j, bn) == FileBlock(u, j, bn)
    {
      if Addr(u, j, Slot(bn)) != 0 {
        SlotIsOwned(sb, u, owner, j, Slot(bn));
      }
    }
  }

  lemma BeyondFrame(sb: Sb, t: Fs, v: Fs, i: nat, size: nat)
    requires Shape(sb, t) && Shape(sb, v) && i < sb.ninodes && Beyond(t, i, size) && SameBlocks(t, v, i)
    requires forall m: nat :: m < SLOTS ==> Addr(v, i, m) == Addr(t, i, m)
    ensures Beyond(v, i, size)
  {
    hide FsState.Addr, FsContent.FileBlock;
    assert Addr(v, i, NDIRECT) == Addr(t, i, NDIRECT);
    forall q: nat | size <= q < MAXFILE * BSIZE
      ensures ByteAt(v, i, q) == 0
    {
      BlockOfPosition(q);
      assert ByteAt(t, i, q) == 0;
    }
  }

  /** Inodes from n on have not been touched. */
  ghost predicate Unborn(inodes: seq<Inode>, n: nat)
  {
    forall i :: n <= i < |inodes| ==> inodes[i] == Empty()
  }

  lemma UnbornNext(inodes: seq<Inode>, n: nat, x: Inode)
    requires Unborn(inodes, n) && n < |inodes|
    ensures inodes[n] == Empty() && Unborn(inodes[n := x], n + 1)
  {
    hide Empty;
  }

  lemma ShapeWith(sb: Sb, t: Fs, i: nat, x: Inode)
    requires Shape(sb, t) && i < sb.ninodes && InodeOk(x)
    ensures Shape(sb, t.(inodes := t.inodes[i := x])) && |t.inodes[i].addrs| == NDIRECT + 1
  {
  }

  lemma CompleteShape(sb: Sb, s: Fs, owner: Owner, i: nat)
    requires Complete(sb, s, owner) && i < sb.ninodes
    ensures Shape(sb, s) && Own(sb, s, owner) && NoHoles(s, i) && Beyond(s, i, s.inodes[i].size)
    ensures s.inodes[i].size <= MAXFILE * BSIZE
    ensures Synced(sb, s, i)
  {
    hide FsState.Own, FsState.OwnExcept, FsState.Addr, Beyond, FsInode.ReadInode, FsContent.NoHoles;
    assert Exact(s, i);
  }

  lemma AppendStart(sb: Sb, disk: seq<Block>, inodes: seq<Inode>, owner: Owner, n: nat, i: nat)
    requires Sound(sb, disk, inodes, owner, n) && Complete(sb, Fs(Marked(sb, disk, n), inodes), owner) && i < sb.ninodes
    ensures Appending(sb, Fs(Marked(sb, disk, n), inodes), i, [], disk, inodes, owner, n)
  {
    hide FsState.Own, FsState.OwnExcept, FsState.Addr, FsContent.Wrote, Beyond, Bitmap, Complete, Marked;
    var s := Fs(Marked(sb, disk, n), inodes);
    CompleteShape(sb, s, owner, i);
    WroteNothing(sb, s, i, s.inodes[i].size);
  }

  /** A written inode keeps the image sound. */
  lemma SoundAfter(sb: Sb, disk: seq<Block>, inodes: seq<Inode>, owner: Owner, n: nat, disk': seq<Block>,
                   inodes': seq<Inode>)
    requires Sound(sb, disk, inodes, owner, n) && |disk'| == sb.size
    requires forall a :: n <= a < sb.size ==> disk'[a] == disk[a]
    requires Complete(sb, Fs(Marked(sb, disk', n), inodes'), owner)
    ensures Sound(sb, disk', inodes', owner, n) && Shape(sb, Fs(Marked(sb, disk', n), inodes'))
  {
    hide FsState.Own, FsState.OwnExcept, FsState.Addr, Bitmap, FsContent.AllWhole, FsInode.Synced;
  }

  lemma AppendingIn(sb: Sb, s: Fs, i: nat, data: seq<Byte>, disk: seq<Block>, inodes: seq<Inode>, owner: Owner, n: nat)
    requires Appending(sb, s, i, data, disk, inodes, owner, n)
    ensures Layout(sb) && |disk| == sb.size && DataStart(sb) <= n <= sb.size && i < sb.ninodes && |inodes| == sb.ninodes
    ensures Sound(sb, disk, inodes, owner, n)
    ensures InodeOk(inodes[i]) && Shape(sb, Fs(Marked(sb, disk, n), inodes))
    ensures Own(sb, Fs(Marked(sb, disk, n), inodes), owner)
    ensures Shape(sb, s) && Wrote(sb, s, i, s.inodes[i].size, data, Fs(Marked(sb, disk, n), inodes))
    ensures Beyond(Fs(Marked(sb, disk, n), inodes), i, s.inodes[i].size + |data|)
    ensures inodes[i] == s.inodes[i].(addrs := inodes[i].addrs) && s.inodes[i].size + |data| <= MAXFILE * BSIZE
    ensures forall j: nat :: j < sb.ninodes && j != i ==> inodes[j] == s.inodes[j]
  {
    hide FsState.Own, FsState.OwnExcept, FsState.Addr, Beyond, Bitmap, FsContent.FileBlock, FsContent.ByteAt;
  }

  /** An inode rewritten with the same addresses: all contents that keep their size stay. */
  lemma InodeWritten(sb: Sb, t: Fs, owner: Owner, i: nat, u: Fs, v: Fs)
    requires Shape(sb, t) && Own(sb, t, owner) && i < sb.ninodes && Shape(sb, u)
    requires u == t.(inodes := t.inodes[i := u.inodes[i]]) && u.inodes[i].addrs == t.inodes[i].addrs
    requires |InodeWords(u.inodes[i])| == INODE_WORDS && v == Updated(sb, u, i)
    ensures Shape(sb, v) && Own(sb, v, owner) && v.inodes == u.inodes && Synced(sb, v, i)
    ensures forall j: nat :: j < sb.ninodes && j != i && Synced(sb, t, j) ==> Synced(sb, v, j)
    ensures forall j: nat :: j < sb.ninodes ==> SameBlocks(t, v, j) && SameAddrs(t, v, j)
  {
    hide FsState.Own, FsState.OwnExcept, FsState.Addr, Updated, FsContent.FileBlock, FsInode.ReadInode;
    ResizedOwn(sb, t, owner, i, u);
    UpdatedKeeps(sb, u, owner, i);
    FS.UpdatedInodes(sb, u, i);
    forall j: nat | j < sb.ninodes
      ensures SameBlocks(t, v, j) && SameAddrs(t, v, j)
    {
      ResizedBlocks(sb, t, i, u, j);
      UpdatedBlocks(sb, u, owner, i, v, j);
    }
  }

  ghost predicate SameAddrs(s: Fs, t: Fs, i: nat)
    requires i < |s.inodes| && |s.inodes[i].addrs| == NDIRECT + 1 && i < |t.inodes|
    requires |t.inodes[i].addrs| == NDIRECT + 1
  {
    forall m: nat :: m < SLOTS ==> Addr(t, i, m) == Addr(s, i, m)
  }

  lemma ResizedOwn(sb: Sb, t: Fs, owner: Owner, i: nat, u: Fs)
    requires Shape(sb, t) && Own(sb, t, owner) && i < sb.ninodes && Shape(sb, u)
    requires u == t.(inodes := t.inodes[i := u.inodes[i]]) && u.inodes[i].addrs == t.inodes[i].addrs
    ensures Own(sb, u, owner)
  {
    hide FsState.Addr, FsState.InUse;
    forall j: nat, m: nat | j < sb.ninodes && m < SLOTS
      ensures Addr(u, j, m) == Addr(t, j, m)
    {
      ResizedBlocks(sb, t, i, u, j);
    }
  }

  lemma SameWhole(s: Fs, t: Fs, i: nat)
    requires i < |s.inodes| && |s.inodes[i].addrs| == NDIRECT + 1 && i < |t.inodes|
    requires |t.inodes[i].addrs| == NDIRECT + 1
    requires t.inodes[i].size == s.inodes[i].size && SameAddrs(s, t, i) && NoHoles(s, i)
    ensures NoHoles(t, i)
  {
    hide FsState.Addr;
  }

  lemma HeadWritten(sb: Sb, t: Fs, owner: Owner, i: nat, u: Fs, v: Fs)
    requires Complete(sb, t, owner) && i < sb.ninodes && Shape(sb, t) && Shape(sb, u)
    requires u == t.(inodes := t.inodes[i := t.inodes[i].(head := u.inodes[i].head)])
    requires |InodeWords(u.inodes[i])| == INODE_WORDS && v == Updated(sb, u, i)
    ensures Complete(sb, v, owner) && v.inodes == u.inodes
    ensures forall j: nat :: j < sb.ninodes ==> Content(v, j) == Content(t, j)
  {
    hide FsState.Own, FsState.OwnExcept, FsState.Addr, Updated, FsContent.FileBlock, FsInode.Synced, FsContent.Content,
      Exact, FsContent.NoHoles, SameBlocks;
    InodeWritten(sb, t, owner, i, u, v);
    forall j: nat | j < sb.ninodes
      ensures Content(v, j) == Content(t, j) && Exact(v, j) && NoHoles(v, j)
    {
      assert Exact(t, j) && NoHoles(t, j);
      SameContent(t, v, j);
      SameWhole(t, v, j);
    }
  }

  const ROOTINO: nat := 1

  function Rounded(size: nat): (r: nat)
    ensures size < r <= size + BSIZE
  {
    (size / BSIZE + 1) * BSIZE
  }

  /** Rounding the size of file i up leaves the file whole just when its last block was partly
      filled; it then reads as before, followed by zeroes. */
  lemma RootRounded(sb: Sb, t: Fs, owner: Owner, i: nat, u: Fs, v: Fs)
    requires Complete(sb, t, owner) && i < sb.ninodes && Shape(sb, t)
    requires u == t.(inodes := t.inodes[i := t.inodes[i].(size := Rounded(t.inodes[i].size))])
    requires |InodeWords(u.inodes[i])| == INODE_WORDS && v == Updated(sb, u, i)
    ensures FS.Consistent(sb, v, owner) <==> t.inodes[i].size % BSIZE != 0
    ensures t.inodes[i].size % BSIZE == 0 ==> forall o :: !FS.Consistent(sb, v, o)
    ensures CrashFs.Intact(sb, v.disk) <==> t.inodes[i].size % BSIZE != 0
    ensures FS.Consistent(sb, v, owner) ==>
              && Shape(sb, v)
              && Content(v, i) == Content(t, i) + seq(Rounded(t.inodes[i].size) - t.inodes[i].size, _ => 0)
              && forall j: nat :: j < sb.ninodes && j != i ==> Content(v, j) == Content(t, j)
  {
    hide FsState.Own, FsState.OwnExcept, FsState.Addr, Updated, FsContent.FileBlock, FsInode.Synced, FsContent.Content,
      Beyond, FsContent.NoHoles, SameBlocks, Rounded;
    var size := t.inodes[i].size;
    CompleteShape(sb, t, owner, i);
    FS.UpdatedInodes(sb, u, i);
    RoundedFits(size);
    ResizedSyncs(sb, t, owner, i, u, v);
    ReadBack(sb, v);
    if size == MAXFILE * BSIZE {
      assert !InodeOk(v.inodes[i]);
      return;
    }
    ResizedShape(sb, t, i, u);
    InodeWritten(sb, t, owner, i, u, v);
    RoundedHoles(sb, t, v, i);
    forall j: nat | j < sb.ninodes && j != i
      ensures Content(v, j) == Content(t, j) && NoHoles(v, j)
    {
      assert Exact(t, j) && NoHoles(t, j);
      SameContent(t, v, j);
      SameWhole(t, v, j);
    }
    RoundedContent(sb, t, v, i);
    assert forall j: nat :: j < sb.ninodes ==> Synced(sb, v, j);
  }

  /** When every inode is on the disk as it is in memory, the disk alone decides about the image. */
  lemma ReadBack(sb: Sb, v: Fs)
    requires SbOk(sb) && |v.disk| == sb.size && |v.inodes| == sb.ninodes
    requires forall j: nat :: j < sb.ninodes ==> Synced(sb, v, j)
    ensures CrashFs.Intact(sb, v.disk) <==> exists o :: FS.Consistent(sb, v, o)
  {
    hide FsInode.ReadInode, FS.Consistent;
    forall j: nat | j < sb.ninodes
      ensures CrashFs.InodesOf(sb, v.disk)[j] == v.inodes[j]
    {
      assert Synced(sb, v, j);
    }
    assert CrashFs.InodesOf(sb, v.disk) == v.inodes;
    assert v == Fs(v.disk, v.inodes);
  }

  /** The inode with its new size still fits its words on the disk. */
  lemma ResizedSyncs(sb: Sb, t: Fs, owner: Owner, i: nat, u: Fs, v: Fs)
    requires Complete(sb, t, owner) && i < sb.ninodes && Shape(sb, t)
    requires u == t.(inodes := t.inodes[i := t.inodes[i].(size := Rounded(t.inodes[i].size))])
    requires |InodeWords(u.inodes[i])| == INODE_WORDS && v == Updated(sb, u, i)
    ensures |v.disk| == sb.size && |v.inodes| == sb.ninodes && forall j: nat :: j < sb.ninodes ==> Synced(sb, v, j)
  {
    hide FsState.Own, FsState.OwnExcept, FsState.Addr, FsInode.ReadInode, FsContent.NoHoles, Exact, Rounded,
      FsInode.PutWords;
    assert InodeOk(t.inodes[i]);
    assert Storable(u.inodes[i]);
    UpdatedSyncs(sb, u, i);
    forall j: nat | j < sb.ninodes
      ensures Synced(sb, v, j)
    {
      assert Synced(sb, t, j);
      assert j != i ==> Synced(sb, u, j);
    }
  }

  lemma RoundedFits(size: nat)
    requires size <= MAXFILE * BSIZE
    ensures Rounded(size) > MAXFILE * BSIZE <==> size == MAXFILE * BSIZE
    ensures size == MAXFILE * BSIZE ==> size % BSIZE == 0
  {
  }

  lemma ResizedShape(sb: Sb, t: Fs, i: nat, u: Fs)
    requires Shape(sb, t) && i < sb.ninodes && |u.inodes| == sb.ninodes && u.inodes[i].size <= MAXFILE * BSIZE
    requires u == t.(inodes := t.inodes[i := t.inodes[i].(size := u.inodes[i].size)])
    ensures Shape(sb, u)
  {
  }

  lemma RoundedHoles(sb: Sb, t: Fs, v: Fs, i: nat)
    requires Shape(sb, t) && Shape(sb, v) && i < sb.ninodes && SameAddrs(t, v, i)
    requires NoHoles(t, i) && Beyond(t, i, t.inodes[i].size)
    requires v.inodes[i].size == Rounded(t.inodes[i].size) <= MAXFILE * BSIZE
    ensures NoHoles(v, i) <==> t.inodes[i].size % BSIZE != 0
  {
    hide FsState.Addr, FsContent.ByteAt;
    var size := t.inodes[i].size;
    var last := size / BSIZE;
    if size % BSIZE == 0 {
      assert last < MAXFILE && last * BSIZE == size && Addr(t, i, Slot(last)) == 0;
      assert last * BSIZE < v.inodes[i].size && Addr(v, i, Slot(last)) == 0;
    } else {
      forall bn: nat | bn < MAXFILE && bn * BSIZE < v.inodes[i].size
        ensures Addr(v, i, Slot(bn)) != 0
      {
        RoundedCovers(size, bn);
      }
    }
  }

  lemma RoundedCovers(size: nat, bn: nat)
    requires bn * BSIZE < Rounded(size) && size % BSIZE != 0
    ensures bn * BSIZE < size
  {
  }

  lemma RoundedContent(sb: Sb, t: Fs, v: Fs, i: nat)
    requires Shape(sb, t) && Shape(sb, v) && i < sb.ninodes && SameBlocks(t, v, i)
    requires Beyond(t, i, t.inodes[i].size) && v.inodes[i].size == Rounded(t.inodes[i].size)
    ensures Content(v, i) == Content(t, i) + seq(Rounded(t.inodes[i].size) - t.inodes[i].size, _ => 0)
  {
    hide FsState.Addr, FsContent.FileBlock, Rounded;
    var c, d := Content(v, i), Content(t, i) + seq(Rounded(t.inodes[i].size) - t.inodes[i].size, _ => 0);
    assert |c| == |d|;
    forall p: nat | p < |c|
      ensures c[p] == d[p]
    {
      BlockOfPosition(p);
      assert ByteAt(v, i, p) == ByteAt(t, i, p);
    }
  }

  datatype Outcome = Done | NoSpace | TooBig

  class Image {
    const sb: Sb
    var disk: seq<Block>
    var freeinode: nat
    var freeblock: nat
    ghost var inodes: seq<Inode>        // the inodes as they are meant to be
    ghost var owner: Owner

    ghost function View(): Fs
      reads this
    {
      Fs(Marked(sb, disk, freeblock), inodes)
    }

    ghost predicate Valid()
      reads this
    {
      && Shape(sb, View()) && Sound(sb, disk, inodes, owner, freeblock) && Complete(sb, View(), owner)
      && Unborn(inodes, freeinode)
    }

    /** main, up to the superblock. */
    constructor (sb: Sb, super: Block)
      requires Layout(sb)
      ensures Valid() && this.sb == sb && freeinode == 1 && freeblock == DataStart(sb) && owner == map[]
      ensures inodes == seq(sb.ninodes, _ => Empty())
    {
      this.sb := sb;
      disk := seq(sb.size, _ => Zeroes())[1 := super];
      freeinode, freeblock := 1, DataStart(sb);
      inodes, owner := seq(sb.ninodes, _ => Empty()), map[];
      new;
      FreshImage(sb, disk);
    }

    /** `freeblock++`, stored in slot k of inode inum, whose copy in memory is din. A block past
        the end of the image makes the next read of it fail, and mkfs gives up. */
    method Grow(inum: nat, k: nat, din: Inode) returns (x: nat, din': Inode, out: Outcome)
      requires Sound(sb, disk, inodes, owner, freeblock) && inum < sb.ninodes && k < SLOTS && din == inodes[inum]
      requires Addr(View(), inum, k) == 0 && (k > NDIRECT ==> din.addrs[NDIRECT] != 0)
      modifies this`disk, this`freeblock, this`inodes, this`owner
      ensures out == if old(freeblock) == sb.size then NoSpace else Done
      ensures out.NoSpace? ==> freeblock == sb.size
      ensures out.Done? ==>
                && Sound(sb, disk, inodes, owner, freeblock)
                && din' == inodes[inum]
                && x == old(freeblock) == freeblock - 1
      ensures out.Done? ==> Found(sb, old(View()), old(owner), inum, k, View(), owner, x)
    {
      hide FsState.Own, FsState.OwnExcept, FsContent.Extends, Bitmap, FsState.Addr, SameBlocks;
      x, din' := freeblock, din;
      if freeblock == sb.size {
        return x, din', NoSpace;
      }
      ghost var d, n := disk, inodes;
      if k > NDIRECT {
        IndirectBelow(sb, disk, inodes, owner, freeblock, inum);
        var ind := din.addrs[NDIRECT];
        disk := disk[ind := PutWord(disk[ind], k - NDIRECT - 1, x)];
      } else {
        din' := din.(addrs := din.addrs[k := x]);
        inodes := inodes[inum := din'];
      }
      GrewImage(sb, d, n, owner, freeblock, inum, k, disk, inodes);
      GrewBlocks(sb, d, n, owner, freeblock, inum, k, disk, inodes);
      freeblock := freeblock + 1;
      owner := owner[x := (inum, k)];
      out := Done;
    }

    /** The block in slot k of inode inum, the next free one if there is none. */
    method SlotBlock(inum: nat, k: nat, din: Inode) returns (x: nat, din': Inode, out: Outcome)
      requires Sound(sb, disk, inodes, owner, freeblock) && inum < sb.ninodes && k < SLOTS && din == inodes[inum]
      requires k > NDIRECT ==> din.addrs[NDIRECT] != 0
      modifies this`disk, this`freeblock, this`inodes, this`owner
      ensures out == if old(freeblock) + SlotCost(old(View()), inum, k) > sb.size then NoSpace else Done
      ensures if out.Done? then freeblock == old(freeblock) + SlotCost(old(View()), inum, k) else freeblock == sb.size
      ensures out.Done? ==>
                Sound(sb, disk, inodes, owner, freeblock) && din' == inodes[inum] && DataStart(sb) <= x < freeblock
      ensures out.Done? ==> Found(sb, old(View()), old(owner), inum, k, View(), owner, x)
    {
      hide FsState.Own, FsState.OwnExcept, Bitmap, Sound, Found;
      SoundShape(sb, disk, inodes, owner, freeblock);
      din' := din;
      if k <= NDIRECT {
        x := din.addrs[k];
      } else {
        IndirectBelow(sb, disk, inodes, owner, freeblock, inum);
        OneBitmapBlock(sb, 0);
        x := Word(disk[din.addrs[NDIRECT]], k - NDIRECT - 1);
      }
      assert x == Addr(View(), inum, k);
      if x == 0 {
        x, din', out := Grow(inum, k, din);
      } else {
        SlotBelow(sb, disk, inodes, owner, freeblock, inum, k);
        FoundAlready(sb, View(), owner, inum, k);
        out := Done;
      }
    }

    /** The part of iappend's loop that finds the block to write. */
    method BlockFor(inum: nat, fbn: nat, din: Inode) returns (x: nat, din': Inode, out: Outcome)
      requires Sound(sb, disk, inodes, owner, freeblock) && inum < sb.ninodes && fbn < MAXFILE && din == inodes[inum]
      modifies this`disk, this`freeblock, this`inodes, this`owner
      ensures out == if old(freeblock) + BlockCost(old(View()), inum, fbn) > sb.size then NoSpace else Done
      ensures if out.Done? then freeblock == old(freeblock) + BlockCost(old(View()), inum, fbn)
              else freeblock == sb.size
      ensures out.Done? ==>
                Sound(sb, disk, inodes, owner, freeblock) && din' == inodes[inum] && DataStart(sb) <= x < freeblock
      ensures out.Done? ==> FoundBlock(sb, old(View()), old(owner), inum, fbn, View(), owner, x)
    {
      hide FsState.Own, FsState.OwnExcept, Bitmap, Sound, FsState.Addr, Found, FoundBlock, SlotCost, Marked;
      SoundShape(sb, disk, inodes, owner, freeblock);
      ghost var s, o := View(), owner;
      if fbn < NDIRECT {
        x, din', out := SlotBlock(inum, fbn, din);
        if out.Done? {
          FoundDirect(sb, s, o, inum, fbn, View(), owner, x);
        }
        return;
      }
      x, din', out := SlotBlock(inum, NDIRECT, din);
      if !out.Done? {
        return;
      }
      ghost var t, o', ind := View(), owner, x;
      FoundIn(sb, s, o, inum, t, o', x);
      FoundCost(sb, s, o, inum, NDIRECT, t, o', x, fbn + 1);
      x, din', out := SlotBlock(inum, fbn + 1, din');
      if out.Done? {
        FoundIndirect(sb, s, o, inum, fbn, t, o', ind, View(), owner, x);
      }
    }

    method Rinode(inum: nat) returns (din: Inode)
      requires Valid() && inum < sb.ninodes
      ensures din == inodes[inum]
    {
      hide FsState.Own, FsState.OwnExcept, Complete, Bitmap;
      CompleteShape(sb, View(), owner, inum);
      din := ReadInode(disk[IBlock(sb, inum)], FirstWord(inum));
    }

    /** Writes the copy in memory of inode inum to its place in the image. */
    method Winode(inum: nat, din: Inode)
      requires Layout(sb) && |disk| == sb.size && freeblock <= sb.size && |inodes| == sb.ninodes && inum < sb.ninodes
      requires din == inodes[inum] && |InodeWords(din)| == INODE_WORDS
      modifies this`disk
      ensures View() == Updated(sb, old(View()), inum) && |disk| == sb.size
      ensures forall a :: sb.bmapstart <= a < sb.size ==> disk[a] == old(disk)[a]
    {
      hide PutWords, Bitmap;
      var bn := IBlock(sb, inum);
      disk := disk[bn := PutWords(disk[bn], FirstWord(inum), InodeWords(din))];
    }

    /** One round of iappend's loop. */
    method AppendChunk(inum: nat, data: seq<Byte>, tot: nat, off: nat, din: Inode, ghost s: Fs)
      returns (n1: nat, din': Inode, out: Outcome)
      requires tot < |data| && Appending(sb, s, inum, data[..tot], disk, inodes, owner, freeblock)
      requires inum < |inodes| && din == inodes[inum] && inum < |s.inodes| && off == s.inodes[inum].size + tot
      modifies this`disk, this`freeblock, this`inodes, this`owner
      ensures out.Done? ==>
                0 < n1 <= |data| - tot && Appending(sb, s, inum, data[..tot + n1], disk, inodes, owner, freeblock)
      ensures out.Done? ==> inum < |inodes| && din' == inodes[inum]
      ensures out.Done? ==> freeblock == old(freeblock) + Footprint(off + n1) - Footprint(off)
      ensures out.NoSpace? ==> freeblock == sb.size < old(freeblock) + Footprint(off + |data| - tot) - Footprint(off)
      ensures out.TooBig? ==> off >= MAXFILE * BSIZE
    {
      hide FsState.Own, FsState.OwnExcept, FsState.Addr, Bitmap, Sound, Appending, FoundBlock, FsContent.Wrote, Beyond,
        FsContent.Patched, Marked, BlockCost, Footprint;
      var fbn := off / BSIZE;
      if fbn >= MAXFILE {
        return 0, din, TooBig;
      }
      AppendingIn(sb, s, inum, data[..tot], disk, inodes, owner, freeblock);
      ghost var d, i, w, n := disk, inodes, owner, freeblock;
      var x;
      ghost var m := if |data| - tot < BSIZE - off % BSIZE then |data| - tot else BSIZE - off % BSIZE;
      CostIs(sb, s, inum, data[..tot], View(), m);
      FootprintMonotone(off + m, off + |data| - tot);
      x, din', out := BlockFor(inum, fbn, din);
      if !out.Done? {
        return 0, din', out;
      }
      SoundShape(sb, disk, inodes, owner, freeblock);
      n1 := if |data| - tot < (fbn + 1) * BSIZE - off then |data| - tot else (fbn + 1) * BSIZE - off;
      ghost var d' := disk;
      disk := disk[x := Patched(disk[x], off - fbn * BSIZE, data[tot..tot + n1])];
      AppendRound(sb, s, inum, data, tot, n1, d, i, w, n, d', inodes, owner, freeblock, x, disk);
    }

    /** iappend: the bytes go to the end of the file; no other file changes. */
    method Iappend(inum: nat, data: seq<Byte>) returns (out: Outcome)
      requires Valid() && inum < sb.ninodes && inum < freeinode
      modifies this`disk, this`freeblock, this`inodes, this`owner
      ensures out.Done? ==> Valid() && Content(View(), inum) == Content(old(View()), inum) + data
      ensures out.Done? ==>
                forall j: nat :: j < sb.ninodes && j != inum ==> Content(View(), j) == Content(old(View()), j)
      ensures out.NoSpace? ==> freeblock == sb.size
      ensures out.TooBig? ==> old(inodes)[inum].size + |data| > MAXFILE * BSIZE
      ensures out.Done? <==> Room(sb, old(freeblock), old(inodes)[inum].size, |data|)
      ensures out.Done? ==>
                var size := old(inodes)[inum].size;
                freeblock == old(freeblock) + Footprint(size + |data|) - Footprint(size)
    {
      hide FsState.Own, FsState.OwnExcept, FsState.Addr, Complete, Bitmap, Sound, Appending, FsContent.Content,
        FsContent.Wrote, Beyond, Updated, Marked, Footprint;
      ghost var s, o := View(), owner;
      CompleteShape(sb, s, o, inum);
      var din := Rinode(inum);
      var off, tot := din.size, 0;
      AppendStart(sb, disk, inodes, owner, freeblock, inum);
      assert data[..0] == [];
      while tot < |data|
        invariant tot <= |data| && off == s.inodes[inum].size + tot
        invariant Appending(sb, s, inum, data[..tot], disk, inodes, owner, freeblock)
        invariant inum < |inodes| && din == inodes[inum]
        invariant freeblock == old(freeblock) + Footprint(off) - Footprint(s.inodes[inum].size)
      {
        var n1;
        n1, din, out := AppendChunk(inum, data, tot, off, din, s);
        if !out.Done? {
          return;
        }
        off, tot := off + n1, tot + n1;
      }
      assert data[..tot] == data;
      AppendingIn(sb, s, inum, data, disk, inodes, owner, freeblock);
      SetSize(inum, off, din, data, s, o);
      out := Done;
    }

    /** The end of iappend. */
    method SetSize(inum: nat, off: nat, din: Inode, ghost data: seq<Byte>, ghost s: Fs, ghost o: Owner)
      requires Complete(sb, s, o) && Unborn(s.inodes, freeinode) && inum < freeinode
      requires Appending(sb, s, inum, data, disk, inodes, owner, freeblock)
      requires inum < |inodes| && din == inodes[inum] && inum < |s.inodes| && off == s.inodes[inum].size + |data|
      modifies this`disk, this`inodes
      ensures Valid() && inum < sb.ninodes && Shape(sb, s) && Content(View(), inum) == Content(s, inum) + data
      ensures forall j: nat :: j < sb.ninodes && j != inum ==> Content(View(), j) == Content(s, j)
    {
      hide FsState.Own, FsState.OwnExcept, FsState.Addr, Complete, Bitmap, Sound, Appending, FsContent.Content,
        FsContent.Wrote, Beyond, Updated, Marked;
      AppendingIn(sb, s, inum, data, disk, inodes, owner, freeblock);
      ghost var t, d, i := View(), disk, inodes;
      var din' := din.(size := off);
      inodes := inodes[inum := din'];
      ghost var u := View();
      Winode(inum, din');
      AppendDone(sb, s, o, inum, data, t, owner, u, View());
      SoundAfter(sb, d, i, owner, freeblock, disk, inodes);
    }

    /** ialloc: the next inode, empty but for its type and one link. */
    method Ialloc(typ: nat) returns (inum: nat)
      requires Valid() && freeinode < sb.ninodes && typ < 65536
      modifies this`disk, this`inodes, this`freeinode
      ensures Valid() && inum == old(freeinode) && freeinode == inum + 1 && Content(View(), inum) == []
      ensures inodes == old(inodes)[inum := NewInode(typ)]
      ensures forall j: nat :: j < sb.ninodes ==> Content(View(), j) == Content(old(View()), j)
    {
      hide FsState.Own, FsState.OwnExcept, FsState.Addr, Complete, Bitmap, Sound, FsContent.Content, Beyond, Updated,
        Marked, Empty, NewInode, FsInode.InodeWords, FsState.InodeOk, Unborn, FS.Consistent, FsInode.Synced,
        FsContent.NoHoles, Exact;
      ghost var t, d, i := View(), disk, inodes;
      inum := freeinode;
      CompleteShape(sb, t, owner, inum);
      SoundShape(sb, disk, inodes, owner, freeblock);
      freeinode := freeinode + 1;
      NewInodeOk(typ);
      UnbornNext(inodes, inum, NewInode(typ));
      ShapeWith(sb, t, inum, NewInode(typ));
      var din := NewInode(typ);
      inodes := inodes[inum := din];
      ghost var u := View();
      Winode(inum, din);
      HeadWritten(sb, t, owner, inum, u, View());
      SoundAfter(sb, d, i, owner, freeblock, disk, inodes);
      NothingIn(View(), inum);
    }

    /** The end of main: the size of the root directory becomes a multiple of the block size, and
        grows by a whole block when it was one already. */
    method FixRoot()
      requires Valid() && ROOTINO < sb.ninodes
      modifies this`disk, this`inodes
      ensures |disk| == sb.size
      ensures FS.Consistent(sb, View(), owner) <==> old(inodes)[ROOTINO].size % BSIZE != 0
      ensures old(inodes)[ROOTINO].size % BSIZE == 0 ==> forall o :: !FS.Consistent(sb, View(), o)
      ensures CrashFs.Intact(sb, View().disk) <==> old(inodes)[ROOTINO].size % BSIZE != 0
      ensures FS.Consistent(sb, View(), owner) ==>
                && Shape(sb, View())
                && (var size := old(inodes)[ROOTINO].size;
                    Content(View(), ROOTINO) == Content(old(View()), ROOTINO) + seq(Rounded(size) - size, _ => 0))
                && forall j: nat :: j < sb.ninodes && j != ROOTINO ==> Content(View(), j) == Content(old(View()), j)
    {
      hide FsState.Own, FsState.OwnExcept, FsState.Addr, Complete, Bitmap, Sound, FsContent.Content, Updated, Marked,
        FS.Consistent, Rounded, CrashFs.Intact;
      SoundShape(sb, disk, inodes, owner, freeblock);
      CompleteShape(sb, View(), owner, ROOTINO);
      ghost var t := View();
      var din := Rinode(ROOTINO);
      din := din.(size := Rounded(din.size));
      inodes := inodes[ROOTINO := din];
      ghost var u := View();
      Winode(ROOTINO, din);
      RootRounded(sb, t, owner, ROOTINO, u, View());
    }

    /** balloc: the bitmap on the disk becomes the one the image was built with. */
    method Balloc()
      requires Layout(sb) && |disk| == sb.size && freeblock <= sb.size
      modifies this`disk
      ensures Fs(disk, inodes) == old(View())
      ensures forall b: nat :: b < sb.size ==> (InUse(sb, disk, b) <==> b < freeblock)
    {
      hide Blocks.SetBit;
      var buf: Block := Zeroes();
      var i := 0;
      while i < freeblock
        invariant i <= freeblock && buf == Bitmap(i)
      {
        buf := SetBit(buf, i, true);
        i := i + 1;
      }
      forall b: nat | b < sb.size
        ensures InUse(sb, Marked(sb, disk, freeblock), b) == (b < freeblock)
      {
        MarkedInUse(sb, disk, freeblock, b);
      }
      disk := disk[sb.bmapstart := buf];
    }

    /** One file of main's loop: its inode, its directory entry and its bytes, as they were read. */
    method AddFile(file: File) returns (out: Outcome)
      requires Valid() && ROOTINO < freeinode < sb.ninodes
      modifies this
      ensures out.Done? ==> && Valid() && freeinode == old(freeinode) + 1
                            && (Content(View(), ROOTINO) ==
                                Content(old(View()), ROOTINO) + Dirent(old(freeinode), file.name))
                            && Content(View(), old(freeinode)) == Joined(file.chunks)
      ensures out.Done? ==> forall j: nat :: j < sb.ninodes && j != ROOTINO && j != old(freeinode) ==>
              Content(View(), j) == Content(old(View()), j)
      ensures out.NoSpace? ==> freeblock == sb.size
      ensures out.Done? <==> FileRoom(sb, old(freeblock), old(inodes)[ROOTINO].size, |Joined(file.chunks)|)
      ensures out.Done? ==> freeblock == AfterFile(old(freeblock), old(inodes)[ROOTINO].size, |Joined(file.chunks)|)
    {
      hide FsState.Own, FsState.OwnExcept, Complete, Bitmap, Sound, FsContent.Content, Marked, Dirent, Footprint,
        Joined;
      ghost var s := View();
      ghost var fb, len := freeblock, |Joined(file.chunks)|;
      ghost var root := inodes[ROOTINO].size;
      FootprintZero();
      JoinedPart(file.chunks, 0);
      var inum := Ialloc(T_FILE);
      out := Iappend(ROOTINO, Dirent(inum, file.name));
      var k := 0;
      while out.Done? && k < |file.chunks|
        invariant k <= |file.chunks| && freeinode == inum + 1 && (out.NoSpace? ==> freeblock == sb.size)
        invariant out.Done? ==> && Valid() && Content(View(), inum) == Joined(file.chunks[..k])
                                && Content(View(), ROOTINO) == Content(s, ROOTINO) + Dirent(inum, file.name)
        invariant out.Done? ==>
                    forall j: nat :: j < sb.ninodes && j != ROOTINO && j != inum ==> Content(View(), j) == Content(s, j)
        invariant if out.Done? then freeblock == AfterFile(fb, root, |Joined(file.chunks[..k])|)
                  else !FileRoom(sb, fb, root, len)
        decreases |file.chunks| - k, out
      {
        assert |Content(View(), inum)| == inodes[inum].size;
        JoinedPart(file.chunks, k + 1);
        FootprintMonotone(|Joined(file.chunks[..k + 1])|, len);
        out := Iappend(inum, file.chunks[k]);
        k := k + 1;
      }
      if out.Done? {
        assert file.chunks[..k] == file.chunks;
        assert |Content(View(), inum)| == inodes[inum].size && |Content(View(), ROOTINO)| == inodes[ROOTINO].size;
        SoundShape(sb, disk, inodes, owner, freeblock);
      }
    }
  }

  const T_DIR: nat := 1
  const T_FILE: nat := 2
  const DIRSIZ: nat := 14

  type Name = s: seq<Byte> | |s| == DIRSIZ witness seq(DIRSIZ, _ => 0)

  /** A file to copy: its name, cut or padded to 14 bytes, and what each read of it returned. */
  datatype File = File(name: Name, chunks: seq<seq<Byte>>)

  function Dirent(inum: nat, name: Name): (d: seq<Byte>)
    ensures |d| == DIRSIZ + 2
  {
    [inum % 256, inum / 256 % 256] + name
  }

  function Joined(parts: seq<seq<Byte>>): seq<Byte>
  {
    if parts == [] then [] else Joined(parts[..|parts| - 1]) + parts[|parts| - 1]
  }

  lemma {:induction false} JoinedPart(parts: seq<seq<Byte>>, k: nat)
    requires k <= |parts|
    ensures |Joined(parts[..k])| <= |Joined(parts)|
    ensures k == 0 ==> Joined(parts[..k]) == []
    ensures k > 0 ==> Joined(parts[..k]) == Joined(parts[..k - 1]) + parts[k - 1]
    decreases |parts|
  {
    if k > 0 {
      assert parts[..k][..k - 1] == parts[..k - 1];
    }
    if k == |parts| {
      assert parts[..k] == parts;
    } else {
      var n := |parts| - 1;
      assert parts[..n][..k] == parts[..k];
      JoinedPart(parts[..n], k);
    }
  }

  lemma FootprintZero()
    ensures Footprint(0) == 0
  {
  }

  /** The first free block after a file of len bytes and its entry in a directory of that size. */
  function AfterFile(b: nat, root: nat, len: nat): int
  {
    b + Footprint(root + DIRSIZ + 2) - Footprint(root) + Footprint(len)
  }

  ghost predicate FileRoom(sb: Sb, b: nat, root: nat, len: nat)
  {
    root + DIRSIZ + 2 <= MAXFILE * BSIZE && len <= MAXFILE * BSIZE && AfterFile(b, root, len) <= sb.size
  }

  // ---------------------------------------------------------------- the whole image

  const DOT: Name := [46, 0, 0, 0, 0, 0, 0, 0, 0, 0, 0, 0, 0, 0]
  const DOTDOT: Name := [46, 46, 0, 0, 0, 0, 0, 0, 0, 0, 0, 0, 0, 0]

  /** The root directory after n files. */
  function Listing(files: seq<File>, n: nat): (d: seq<Byte>)
    requires n <= |files|
    ensures |d| == 16 * (n + 2)
  {
    if n == 0 then Dirent(ROOTINO, DOT) + Dirent(ROOTINO, DOTDOT)
    else Listing(files, n - 1) + Dirent(n + 1, files[n - 1].name)
  }

  /** Entry k of a directory, as the kernel reads it: the inode number in two bytes, low byte first, and
      fourteen bytes of name. */
  predicate EntryIs(d: seq<Byte>, k: nat, inum: nat, name: Name)
  {
    16 * k + 16 <= |d| && d[16 * k] as int + 256 * d[16 * k + 1] as int == inum && d[16 * k + 2..16 * k + 16] == name
  }

  lemma DirentIs(d: seq<Byte>, inum: nat, name: Name, k: nat)
    requires |d| == 16 * k && inum < 65536
    ensures EntryIs(d + Dirent(inum, name), k, inum, name)
  {
    var e := d + Dirent(inum, name);
    assert e[16 * k] == Dirent(inum, name)[0] && e[16 * k + 1] == Dirent(inum, name)[1];
    assert e[16 * k + 2..16 * k + 16] == name;
  }

  lemma EntryStays(d: seq<Byte>, e: seq<Byte>, k: nat, inum: nat, name: Name)
    requires EntryIs(d, k, inum, name)
    ensures EntryIs(d + e, k, inum, name)
  {
    assert (d + e)[16 * k + 2..16 * k + 16] == d[16 * k + 2..16 * k + 16];
  }

  /** The root directory has itself under its two names, and then file after file, each with its inode. */
  lemma {:induction false} ListingIs(files: seq<File>, n: nat, k: nat)
    requires n <= |files| && n + 2 <= 65536 && k < n + 2
    ensures k == 0 ==> EntryIs(Listing(files, n), 0, 1, [46, 0, 0, 0, 0, 0, 0, 0, 0, 0, 0, 0, 0, 0])
    ensures k == 1 ==> EntryIs(Listing(files, n), 1, 1, [46, 46, 0, 0, 0, 0, 0, 0, 0, 0, 0, 0, 0, 0])
    ensures k >= 2 ==> EntryIs(Listing(files, n), k, k, files[k - 2].name)
    decreases n
  {
    hide Dirent, EntryIs;
    if n == 0 {
      DirentIs([], ROOTINO, DOT, 0);
      assert [] + Dirent(ROOTINO, DOT) == Dirent(ROOTINO, DOT);
      EntryStays(Dirent(ROOTINO, DOT), Dirent(ROOTINO, DOTDOT), 0, ROOTINO, DOT);
      DirentIs(Dirent(ROOTINO, DOT), ROOTINO, DOTDOT, 1);
    } else if k == n + 1 {
      DirentIs(Listing(files, n - 1), n + 1, files[n - 1].name, n + 1);
    } else {
      ListingIs(files, n - 1, k);
      EntryStays(Listing(files, n - 1), Dirent(n + 1, files[n - 1].name), k,
                 if k < 2 then 1 else k, if k == 0 then DOT else if k == 1 then DOTDOT else files[k - 2].name);
    }
  }

  /** The first n files are there, in the inodes after the root's. */
  ghost predicate Copied(sb: Sb, s: Fs, files: seq<File>, n: nat)
    requires Shape(sb, s) && n <= |files| && n + 2 <= sb.ninodes
  {
    forall j: nat :: j < n ==> Content(s, j + 2) == Joined(files[j].chunks)
  }

  /** The image after n files. */
  ghost predicate Holding(sb: Sb, s: Fs, files: seq<File>, n: nat)
  {
    && Shape(sb, s) && n <= |files| && |files| + 2 <= sb.ninodes && Copied(sb, s, files, n)
    && Content(s, ROOTINO) == Listing(files, n)
  }

  lemma HoldingSizes(sb: Sb, s: Fs, files: seq<File>, n: nat)
    requires Holding(sb, s, files, n)
    ensures |files| + 2 <= sb.ninodes && ROOTINO < |s.inodes| && s.inodes[ROOTINO].size == 16 * (n + 2)
  {
    hide FsContent.Content, Listing;
    assert |Content(s, ROOTINO)| == s.inodes[ROOTINO].size;
  }

  lemma HoldsOneMore(sb: Sb, s: Fs, files: seq<File>, n: nat, t: Fs)
    requires Holding(sb, s, files, n) && n < |files| && Shape(sb, t)
    requires Content(t, ROOTINO) == Content(s, ROOTINO) + Dirent(n + 2, files[n].name)
    requires Content(t, n + 2) == Joined(files[n].chunks)
    requires forall j: nat :: j < sb.ninodes && j != ROOTINO && j != n + 2 ==> Content(t, j) == Content(s, j)
    ensures Holding(sb, t, files, n + 1)
  {
    hide FsContent.Content, Dirent;
    forall j: nat | j < n + 1
      ensures Content(t, j + 2) == Joined(files[j].chunks)
    {
      assert j < n ==> Content(s, j + 2) == Joined(files[j].chunks);
    }
  }

  /** The image main leaves on the disk. */
  ghost predicate Finished(sb: Sb, s: Fs, owner: Owner, files: seq<File>)
  {
    && |s.disk| == sb.size && |files| + 2 <= sb.ninodes
    && (FS.Consistent(sb, s, owner) <==> (|files| + 2) % 64 != 0)
    && ((|files| + 2) % 64 == 0 ==> forall o :: !FS.Consistent(sb, s, o))
    && (CrashFs.Intact(sb, s.disk) <==> (|files| + 2) % 64 != 0)
    && (FS.Consistent(sb, s, owner) ==>
          && Shape(sb, s) && Copied(sb, s, files, |files|)
          && (var size := 16 * (|files| + 2);
              Content(s, ROOTINO) == Listing(files, |files|) + seq(Rounded(size) - size, _ => 0)))
  }

  /** The root directory is a whole number of blocks when the entries are a multiple of 64. */
  lemma DirectoryBlocks(n: nat)
    ensures (16 * (n + 2)) % BSIZE == 0 <==> (n + 2) % 64 == 0
  {
    var q, r := (n + 2) / 64, (n + 2) % 64;
    assert 16 * (n + 2) == BSIZE * q + 16 * r;
  }

  /** The blocks that the first n files take. */
  function Total(files: seq<File>, n: nat): nat
    requires n <= |files|
  {
    if n == 0 then 0 else Total(files, n - 1) + Footprint(|Joined(files[n - 1].chunks)|)
  }

  function FirstFree(sb: Sb, files: seq<File>, n: nat): nat
    requires n <= |files|
  {
    DataStart(sb) + Footprint(16 * (n + 2)) + Total(files, n)
  }

  /** The first n files and the directory that lists them fit. */
  ghost predicate Fits(sb: Sb, files: seq<File>, n: nat)
    requires n <= |files|
  {
    && 16 * (n + 2) <= MAXFILE * BSIZE && FirstFree(sb, files, n) <= sb.size
    && forall j: nat :: j < n ==> |Joined(files[j].chunks)| <= MAXFILE * BSIZE
  }

  lemma {:induction false} FitsFewer(sb: Sb, files: seq<File>, n: nat, m: nat)
    requires n <= m <= |files| && Fits(sb, files, m)
    ensures Fits(sb, files, n)
    decreases m
  {
    hide Footprint, Joined;
    if n < m {
      FootprintMonotone(16 * (m + 1), 16 * (m + 2));
      FitsFewer(sb, files, n, m - 1);
    }
  }

  lemma FitsOneMore(sb: Sb, files: seq<File>, n: nat)
    requires n < |files| && Fits(sb, files, n)
    ensures Fits(sb, files, n + 1) <==> FileRoom(sb, FirstFree(sb, files, n), 16 * (n + 2), |Joined(files[n].chunks)|)
    ensures AfterFile(FirstFree(sb, files, n), 16 * (n + 2), |Joined(files[n].chunks)|) == FirstFree(sb, files, n + 1)
  {
    hide Footprint, Joined;
    assert 16 * (n + 3) == 16 * (n + 2) + DIRSIZ + 2;
  }

  /** mkfs's main: it finishes exactly when the files fit; then the image is in the state every
      operation of the kernel's file system keeps, with each file's bytes in its inode and the
      directory listing them, unless the directory fills its blocks exactly. */
  method Build(sb: Sb, super: Block, files: seq<File>) returns (img: Image, out: Outcome)
    requires Layout(sb) && |files| + 2 <= sb.ninodes
    ensures fresh(img) && img.sb == sb && (out.NoSpace? ==> img.freeblock == sb.size)
    ensures out.Done? <==> Fits(sb, files, |files|)
    ensures out.Done? ==> Finished(sb, Fs(img.disk, img.inodes), img.owner, files)
  {
    hide FsState.Own, FsState.OwnExcept, FsState.Addr, Complete, Bitmap, Sound, Marked, Dirent, FS.Consistent, Rounded,
      Holding, Finished, FsState.InUse, FsContent.Content, Fits, FirstFree;
    img := new Image(sb, super);
    out := AddRoot(img, files);
    if !out.Done? {
      if Fits(sb, files, |files|) {
        FitsFewer(sb, files, 0, |files|);
      }
    } else {
      out := AddFiles(img, files);
    }
    if out.Done? {
      Finish(img, files);
    }
  }

  /** The root directory with its own two entries. */
  method AddRoot(img: Image, ghost files: seq<File>) returns (out: Outcome)
    requires img.Valid() && img.freeinode == ROOTINO && |files| + 2 <= img.sb.ninodes && img.inodes[ROOTINO] == Empty()
    modifies img
    ensures out.Done? ==> img.Valid() && img.freeinode == 2 && Holding(img.sb, img.View(), files, 0)
    ensures out.NoSpace? ==> img.freeblock == img.sb.size
    ensures old(img.freeblock) == DataStart(img.sb) ==>
              (out.Done? <==> Fits(img.sb, files, 0)) && (out.Done? ==> img.freeblock == FirstFree(img.sb, files, 0))
  {
    hide FsState.Own, FsState.OwnExcept, FsState.Addr, Complete, Bitmap, Sound, Marked, Dirent, FsContent.Content;
    FootprintZero();
    var rootino := img.Ialloc(T_DIR);
    out := img.Iappend(rootino, Dirent(rootino, DOT));
    if out.Done? {
      out := img.Iappend(rootino, Dirent(rootino, DOTDOT));
    }
  }

  /** main's loop. */
  method AddFiles(img: Image, files: seq<File>) returns (out: Outcome)
    requires img.Valid() && img.freeinode == 2 && Holding(img.sb, img.View(), files, 0)
    requires img.freeblock == FirstFree(img.sb, files, 0) && Fits(img.sb, files, 0)
    modifies img
    ensures out.Done? <==> Fits(img.sb, files, |files|)
    ensures out.Done? ==> img.Valid() && Holding(img.sb, img.View(), files, |files|)
    ensures out.NoSpace? ==> img.freeblock == img.sb.size
  {
    hide FsState.Own, FsState.OwnExcept, FsState.Addr, Complete, Bitmap, Sound, Marked, Dirent, FsContent.Content,
      Holding, Fits, FirstFree, FileRoom, AfterFile;
    var i := 0;
    out := Done;
    while out.Done? && i < |files|
      invariant i <= |files| && (out.NoSpace? ==> img.freeblock == img.sb.size)
      invariant out.Done? ==> img.Valid() && img.freeinode == i + 2 && Holding(img.sb, img.View(), files, i)
      invariant out.Done? <==> Fits(img.sb, files, i)
      invariant out.Done? ==> img.freeblock == FirstFree(img.sb, files, i)
      decreases |files| - i, out
    {
      ghost var s := img.View();
      HoldingSizes(img.sb, s, files, i);
      FitsOneMore(img.sb, files, i);
      out := img.AddFile(files[i]);
      if out.Done? {
        HoldsOneMore(img.sb, s, files, i, img.View());
      }
      i := i + 1;
    }
    if Fits(img.sb, files, |files|) {
      FitsFewer(img.sb, files, i, |files|);
    }
  }

  /** The end of main. */
  method Finish(img: Image, ghost files: seq<File>)
    requires img.Valid() && Holding(img.sb, img.View(), files, |files|)
    modifies img
    ensures Finished(img.sb, Fs(img.disk, img.inodes), img.owner, files)
  {
    hide FsState.Own, FsState.OwnExcept, FsState.Addr, Complete, Bitmap, Sound, Marked, Dirent, FsContent.Content,
      FS.Consistent, Rounded, FsState.InUse, Listing, CrashFs.Intact;
    DirectoryBlocks(|files|);
    assert |Content(img.View(), ROOTINO)| == img.inodes[ROOTINO].size;
    SoundShape(img.sb, img.disk, img.inodes, img.owner, img.freeblock);
    img.FixRoot();
    img.Balloc();
  }

  lemma {:induction false} NoBytes(files: seq<File>, n: nat)
    requires n <= |files| && forall j :: 0 <= j < |files| ==> files[j].chunks == []
    ensures Total(files, n) == 0
  {
    if n > 0 {
      NoBytes(files, n - 1);
    }
  }

  /** With the constants of kernel/param.h and mkfs.c, 62 empty files fill the directory's block,
      mkfs finishes, and the image has a hole. */
  method FullDirectory(super: Block, name: Name) returns (img: Image, out: Outcome)
    ensures out.Done? && img.sb == Sb(1000, 200, 32, 45)
    ensures !CrashFs.Intact(img.sb, img.disk)
    ensures forall o :: !FS.Consistent(img.sb, Fs(img.disk, img.inodes), o)
  {
    hide FS.Consistent, CrashFs.Intact;
    var files := seq(62, _ => File(name, []));
    NoBytes(files, 62);
    img, out := Build(Sb(1000, 200, 32, 45), super, files);
  }
}
