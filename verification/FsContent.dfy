/** File contents over block maps, and how growth and block writes change them. */
module FsContent {
  import opened Blocks
  import opened FsState

  /** t is s with blocks added to inode i: no address that was set changes, no other inode
      gains one, and no data block that was owned changes content. */
  ghost predicate Extends(sb: Sb, s: Fs, owner: Owner, i: nat, t: Fs, owner': Owner)
    requires Shape(sb, s) && Shape(sb, t)
  {
    && i < sb.ninodes
    && (forall j: nat :: j < sb.ninodes && j != i ==> t.inodes[j] == s.inodes[j])
    && t.inodes[i] == s.inodes[i].(addrs := t.inodes[i].addrs)
    && (forall j: nat, m: nat :: j < sb.ninodes && m < SLOTS && (j != i || Addr(s, j, m) != 0) ==>
          Addr(t, j, m) == Addr(s, j, m))
    && (forall a :: a in owner ==> a in owner' && owner'[a] == owner[a])
    && (forall a :: a in owner && owner[a].1 != NDIRECT && a < sb.size ==> t.disk[a] == s.disk[a])
    && (forall a: nat :: a < sb.bmapstart ==> t.disk[a] == s.disk[a])
  }

  lemma ExtendsSelf(sb: Sb, s: Fs, owner: Owner, i: nat)
    requires Shape(sb, s) && i < sb.ninodes
    ensures Extends(sb, s, owner, i, s, owner)
  {
  }

  lemma ExtendsTransitive(sb: Sb, s: Fs, o1: Owner, i: nat, t: Fs, o2: Owner, u: Fs, o3: Owner)
    requires Shape(sb, s) && Shape(sb, t) && Shape(sb, u)
    requires Extends(sb, s, o1, i, t, o2) && Extends(sb, t, o2, i, u, o3)
    ensures Extends(sb, s, o1, i, u, o3)
  {
    forall j: nat, m: nat | j < sb.ninodes && m < SLOTS && (j != i || Addr(s, j, m) != 0)
      ensures Addr(u, j, m) == Addr(s, j, m)
    {
      assert Addr(t, j, m) == Addr(s, j, m);
    }
  }

  lemma ExtendsAddr(sb: Sb, s: Fs, owner: Owner, i: nat, t: Fs, owner': Owner, k: nat)
    requires Shape(sb, s) && Shape(sb, t) && Extends(sb, s, owner, i, t, owner') && k < SLOTS && Addr(s, i, k) != 0
    ensures Addr(t, i, k) == Addr(s, i, k)
  {
  }

  lemma GrownExtends(sb: Sb, s: Fs, owner: Owner, i: nat, k: nat, r: nat, t: Fs)
    requires Shape(sb, s) && Own(sb, s, owner) && !InUseAt(sb, s, r) && Grown(sb, s, i, k, r, t)
    requires Addr(s, i, k) == 0
    ensures Shape(sb, t) && Extends(sb, s, owner, i, t, owner[r := (i, k)])
  {
    hide FsState.Own, FsState.OwnExcept;
    GrownShape(sb, s, i, k, r, t);
    FreeIsUnowned(sb, s, owner, r);
    forall j: nat, m: nat | j < sb.ninodes && m < SLOTS && (j != i || Addr(s, j, m) != 0)
      ensures Addr(t, j, m) == Addr(s, j, m)
    {
      GrownAddr(sb, s, owner, i, k, r, t, j, m);
    }
    forall a | a in owner && owner[a].1 != NDIRECT && a < sb.size
      ensures t.disk[a] == s.disk[a]
    {
      GrownData(sb, s, owner, i, k, r, t, a);
    }
    if k > NDIRECT {
      IndirectIsOwned(sb, s, owner, i);
    }
  }

  // ---------------------------------------------------------------- contents

  /** The bn-th block of file i, zeroes where it has none. */
  function FileBlock(s: Fs, i: nat, bn: nat): Block
    requires i < |s.inodes| && |s.inodes[i].addrs| == NDIRECT + 1 && bn < MAXFILE
  {
    var a := Addr(s, i, Slot(bn));
    if 0 < a < |s.disk| then s.disk[a] else Zeroes()
  }

  function ByteAt(s: Fs, i: nat, p: nat): Byte
    requires i < |s.inodes| && |s.inodes[i].addrs| == NDIRECT + 1 && p < MAXFILE * BSIZE
  {
    FileBlock(s, i, p / BSIZE)[p % BSIZE]
  }

  function Content(s: Fs, i: nat): (c: seq<Byte>)
    requires i < |s.inodes| && |s.inodes[i].addrs| == NDIRECT + 1 && s.inodes[i].size <= MAXFILE * BSIZE
    ensures |c| == s.inodes[i].size
  {
    seq(s.inodes[i].size, p requires 0 <= p < s.inodes[i].size => ByteAt(s, i, p))
  }

  /** Every block below the file's size is there. */
  ghost predicate NoHoles(s: Fs, i: nat)
    requires i < |s.inodes| && |s.inodes[i].addrs| == NDIRECT + 1
  {
    forall bn: nat :: bn < MAXFILE && bn * BSIZE < s.inodes[i].size ==> Addr(s, i, Slot(bn)) != 0
  }

  ghost predicate AllWhole(sb: Sb, s: Fs)
    requires Shape(sb, s)
  {
    forall i :: 0 <= i < sb.ninodes ==> NoHoles(s, i)
  }

  /** A block that is there stays as it was when the inode grows. */
  lemma ExtendsBlock(sb: Sb, s: Fs, owner: Owner, i: nat, t: Fs, owner': Owner, j: nat, bn: nat)
    requires Shape(sb, s) && Shape(sb, t) && Own(sb, s, owner) && Extends(sb, s, owner, i, t, owner')
    requires j < sb.ninodes && bn < MAXFILE && (j != i || Addr(s, j, Slot(bn)) != 0)
    ensures FileBlock(t, j, bn) == FileBlock(s, j, bn)
  {
    var a := Addr(s, j, Slot(bn));
    assert Addr(t, j, Slot(bn)) == a;
    if a != 0 {
      assert a in owner && owner[a] == (j, Slot(bn));
    }
  }

  /** Writing the block of slot Slot(bn) of file i changes that block of that file and
      nothing of any other. */
  lemma DataWriteBlock(sb: Sb, s: Fs, owner: Owner, i: nat, bn: nat, blk: Block, t: Fs, j: nat, m: nat)
    requires Shape(sb, s) && Own(sb, s, owner) && i < sb.ninodes && bn < MAXFILE
    requires 0 < Addr(s, i, Slot(bn)) < sb.size && t == s.(disk := s.disk[Addr(s, i, Slot(bn)) := blk])
    requires j < sb.ninodes && m < MAXFILE
    ensures Shape(sb, t) && FileBlock(t, j, m) == if j == i && m == bn then blk else FileBlock(s, j, m)
  {
    var a := Addr(s, i, Slot(bn));
    BlockWriteKeeps(sb, s, owner, a, blk, t);
    var x := Addr(s, j, Slot(m));
    assert Addr(t, j, Slot(m)) == x;
    if x == a {
      assert owner[a] == (i, Slot(bn)) && owner[x] == (j, Slot(m));
    }
  }

  // ---------------------------------------------------------------- byte positions

  /** c with data put at off. */
  function Overwrite(c: seq<Byte>, off: nat, data: seq<Byte>): seq<Byte>
    requires off <= |c|
  {
    c[..off] + data + (if off + |data| < |c| then c[off + |data|..] else [])
  }

  /** Two overwrites in a row are one. */
  lemma OverwriteTwice(c: seq<Byte>, off: nat, a: seq<Byte>, b: seq<Byte>)
    requires off <= |c|
    ensures off + |a| <= |Overwrite(c, off, a)|
    ensures Overwrite(Overwrite(c, off, a), off + |a|, b) == Overwrite(c, off, a + b)
  {
  }

  /** The positions a chunk covers, seen within its block. */
  lemma ChunkRange(off: nat, m: nat, p: nat)
    requires m <= BSIZE - off % BSIZE
    ensures off <= p < off + m <==> p / BSIZE == off / BSIZE && off % BSIZE <= p % BSIZE < off % BSIZE + m
    ensures p / BSIZE == off / BSIZE ==> p - off == p % BSIZE - off % BSIZE
  {
  }

  /** The block with data put at o. */
  function Patched(b: Block, o: nat, data: seq<Byte>): Block
    requires o + |data| <= BSIZE
  {
    b[..o] + data + b[o + |data|..]
  }

  // ---------------------------------------------------------------- writing at an offset

  /** t is what s becomes when data has been put at off in file i, sizes not yet adjusted. */
  ghost predicate Wrote(sb: Sb, s: Fs, i: nat, off: nat, data: seq<Byte>, t: Fs)
    requires Shape(sb, s) && Shape(sb, t)
  {
    && i < sb.ninodes && off <= s.inodes[i].size && off + |data| <= MAXFILE * BSIZE
    && (forall j: nat :: j < sb.ninodes && j != i ==> t.inodes[j] == s.inodes[j])
    && t.inodes[i] == s.inodes[i].(addrs := t.inodes[i].addrs)
    && (forall j: nat, m: nat :: j < sb.ninodes && m < SLOTS && j != i ==> Addr(t, j, m) == Addr(s, j, m))
    && (forall j: nat, bn: nat :: j < sb.ninodes && bn < MAXFILE && j != i ==>
          FileBlock(t, j, bn) == FileBlock(s, j, bn))
    && (forall bn: nat :: bn < MAXFILE && (bn * BSIZE < s.inodes[i].size || bn * BSIZE < off + |data|) ==>
          Addr(t, i, Slot(bn)) != 0)
    && (forall p: nat :: p < MAXFILE * BSIZE ==>
          && (off <= p < off + |data| ==> ByteAt(t, i, p) == data[p - off])
          && (p < s.inodes[i].size && !(off <= p < off + |data|) ==> ByteAt(t, i, p) == ByteAt(s, i, p)))
    && (forall a: nat :: a < sb.bmapstart ==> t.disk[a] == s.disk[a])
  }

  lemma WroteNothing(sb: Sb, s: Fs, i: nat, off: nat)
    requires Shape(sb, s) && i < sb.ninodes && NoHoles(s, i) && off <= s.inodes[i].size
    ensures Wrote(sb, s, i, off, [], s)
  {
    forall bn: nat | bn < MAXFILE && (bn * BSIZE < s.inodes[i].size || bn * BSIZE < off)
      ensures Addr(s, i, Slot(bn)) != 0
    {
    }
  }

  lemma BlockOfPosition(p: nat)
    requires p < MAXFILE * BSIZE
    ensures p / BSIZE < MAXFILE && (p / BSIZE) * BSIZE <= p
  {
  }

  /** A byte that the file already has a block for stays as it was when the file grows. */
  lemma ExtendsByte(sb: Sb, t: Fs, owner: Owner, i: nat, u: Fs, owner': Owner, p: nat)
    requires Shape(sb, t) && Shape(sb, u) && Own(sb, t, owner) && Extends(sb, t, owner, i, u, owner')
    requires p < MAXFILE * BSIZE && Addr(t, i, Slot(p / BSIZE)) != 0
    ensures ByteAt(u, i, p) == ByteAt(t, i, p)
  {
    ExtendsBlock(sb, t, owner, i, u, owner', i, p / BSIZE);
  }

  /** bmap's growth disturbs nothing already written or already there. */
  lemma WroteThenGrew(sb: Sb, s: Fs, i: nat, off: nat, data: seq<Byte>, t: Fs, owner: Owner, u: Fs, owner': Owner)
    requires Shape(sb, s) && Shape(sb, t) && Shape(sb, u) && Own(sb, t, owner)
    requires Wrote(sb, s, i, off, data, t) && Extends(sb, t, owner, i, u, owner')
    ensures Wrote(sb, s, i, off, data, u)
  {
    hide FsState.Own, FsState.OwnExcept;
    forall j: nat, bn: nat | j < sb.ninodes && bn < MAXFILE && j != i
      ensures FileBlock(u, j, bn) == FileBlock(s, j, bn)
    {
      ExtendsBlock(sb, t, owner, i, u, owner', j, bn);
    }
    forall p: nat | p < MAXFILE * BSIZE && (p < s.inodes[i].size || off <= p < off + |data|)
      ensures ByteAt(u, i, p) == ByteAt(t, i, p)
    {
      BlockOfPosition(p);
      ExtendsByte(sb, t, owner, i, u, owner', p);
    }
  }

  /** The bytes of the file after one of its blocks was patched. */
  lemma PatchedByte(sb: Sb, t: Fs, owner: Owner, i: nat, pos: nat, chunk: seq<Byte>, u: Fs, p: nat)
    requires Shape(sb, t) && Own(sb, t, owner) && i < sb.ninodes && p < MAXFILE * BSIZE
    requires 0 < |chunk| <= BSIZE - pos % BSIZE && pos / BSIZE < MAXFILE
    requires 0 < Addr(t, i, Slot(pos / BSIZE)) < sb.size
    requires var a := Addr(t, i, Slot(pos / BSIZE));
             u == t.(disk := t.disk[a := Patched(t.disk[a], pos % BSIZE, chunk)])
    ensures Shape(sb, u)
    ensures ByteAt(u, i, p) == if pos <= p < pos + |chunk| then chunk[p - pos] else ByteAt(t, i, p)
  {
    hide FsState.Own, FsState.OwnExcept;
    var a := Addr(t, i, Slot(pos / BSIZE));
    BlockOfPosition(p);
    ChunkRange(pos, |chunk|, p);
    DataWriteBlock(sb, t, owner, i, pos / BSIZE, Patched(t.disk[a], pos % BSIZE, chunk), u, i, p / BSIZE);
  }

  /** One chunk of the loop in writei: the bytes land where they belong. */
  lemma WroteChunk(sb: Sb, s: Fs, i: nat, off: nat, data: seq<Byte>, t: Fs, owner: Owner, chunk: seq<Byte>, u: Fs)
    requires var pos := off + |data|;
             && 0 < |chunk| <= BSIZE - pos % BSIZE && pos + |chunk| <= MAXFILE * BSIZE && pos / BSIZE < MAXFILE
             && i < |t.inodes| && |t.inodes[i].addrs| == NDIRECT + 1 && 0 < Addr(t, i, Slot(pos / BSIZE)) < |t.disk|
             && var a := Addr(t, i, Slot(pos / BSIZE));
             u == t.(disk := t.disk[a := Patched(t.disk[a], pos % BSIZE, chunk)])
    requires Shape(sb, s) && Shape(sb, t) && Own(sb, t, owner) && Wrote(sb, s, i, off, data, t)
    ensures Shape(sb, u) && Own(sb, u, owner) && Wrote(sb, s, i, off, data + chunk, u)
  {
    hide FsState.Own, FsState.OwnExcept, FsState.Addr, FileBlock, ByteAt;
    var pos := off + |data|;
    var bn := pos / BSIZE;
    var a := Addr(t, i, Slot(bn));
    SlotIsOwned(sb, t, owner, i, Slot(bn));
    BlockWriteKeeps(sb, t, owner, a, Patched(t.disk[a], pos % BSIZE, chunk), u);
    forall j: nat, m: nat | j < sb.ninodes && m < MAXFILE && j != i
      ensures FileBlock(u, j, m) == FileBlock(t, j, m)
    {
      DataWriteBlock(sb, t, owner, i, bn, Patched(t.disk[a], pos % BSIZE, chunk), u, j, m);
    }
    forall p: nat | p < MAXFILE * BSIZE
      ensures ByteAt(u, i, p) == if pos <= p < pos + |chunk| then chunk[p - pos] else ByteAt(t, i, p)
    {
      PatchedByte(sb, t, owner, i, pos, chunk, u, p);
    }
    forall m: nat | m < MAXFILE && m * BSIZE < pos + |chunk|
      ensures Addr(u, i, Slot(m)) != 0
    {
      ChunkStaysInBlock(pos, |chunk|, m);
    }
  }

  lemma ChunkStaysInBlock(pos: nat, len: nat, m: nat)
    requires 0 < len <= BSIZE - pos % BSIZE && m * BSIZE < pos + len
    ensures m * BSIZE < pos || m == pos / BSIZE
  {
  }

  /** Only the size of inode i differs. */
  lemma SizeOnly(sb: Sb, t: Fs, i: nat, size: nat, u: Fs)
    requires Shape(sb, t) && i < sb.ninodes && u == t.(inodes := t.inodes[i := t.inodes[i].(size := size)])
    requires size <= MAXFILE * BSIZE
    ensures Shape(sb, u) && u.inodes[i].size == size
    ensures forall k: nat, m: nat :: k < sb.ninodes && m < SLOTS ==> Addr(u, k, m) == Addr(t, k, m)
    ensures forall k: nat, p: nat :: k < sb.ninodes && p < MAXFILE * BSIZE ==> ByteAt(u, k, p) == ByteAt(t, k, p)
    ensures forall k: nat :: k < sb.ninodes && k != i ==> u.inodes[k] == t.inodes[k]
  {
    forall k: nat, m: nat | k < sb.ninodes && m < SLOTS
      ensures Addr(u, k, m) == Addr(t, k, m)
    {
    }
    forall k: nat, p: nat | k < sb.ninodes && p < MAXFILE * BSIZE
      ensures ByteAt(u, k, p) == ByteAt(t, k, p)
    {
      BlockOfPosition(p);
      assert Addr(u, k, Slot(p / BSIZE)) == Addr(t, k, Slot(p / BSIZE));
    }
  }

  /** The content once the size has been adjusted. */
  lemma WroteContent(sb: Sb, s: Fs, i: nat, off: nat, data: seq<Byte>, t: Fs, u: Fs)
    requires Shape(sb, s) && Shape(sb, t) && Wrote(sb, s, i, off, data, t)
    requires var size := s.inodes[i].size;
             u == t.(inodes := t.inodes[i := t.inodes[i].(size := if off + |data| > size then off + |data| else size)])
    ensures Shape(sb, u) && Content(u, i) == Overwrite(Content(s, i), off, data) && NoHoles(u, i)
    ensures forall j: nat :: j < sb.ninodes && j != i ==> Content(u, j) == Content(s, j)
  {
    hide FsState.Addr, ByteAt, Overwrite;
    SizeOnly(sb, t, i, u.inodes[i].size, u);
    WroteOwn(sb, s, i, off, data, t, u);
    forall j: nat | j < sb.ninodes && j != i
      ensures Content(u, j) == Content(s, j)
    {
      WroteOther(sb, s, i, off, data, t, u, j);
    }
  }

  lemma WroteOwn(sb: Sb, s: Fs, i: nat, off: nat, data: seq<Byte>, t: Fs, u: Fs)
    requires Shape(sb, s) && Shape(sb, t) && Shape(sb, u) && Wrote(sb, s, i, off, data, t)
    requires u.inodes[i].size == if off + |data| > s.inodes[i].size then off + |data| else s.inodes[i].size
    requires forall p: nat :: p < MAXFILE * BSIZE ==> ByteAt(u, i, p) == ByteAt(t, i, p)
    ensures Content(u, i) == Overwrite(Content(s, i), off, data)
  {
    hide FsState.Addr, ByteAt;
    var c, c' := Content(s, i), Content(u, i);
    forall p | 0 <= p < |c'|
      ensures c'[p] == Overwrite(c, off, data)[p]
    {
      assert ByteAt(u, i, p) == ByteAt(t, i, p);
    }
  }

  lemma WroteOther(sb: Sb, s: Fs, i: nat, off: nat, data: seq<Byte>, t: Fs, u: Fs, j: nat)
    requires Shape(sb, s) && Shape(sb, t) && Shape(sb, u) && Wrote(sb, s, i, off, data, t) && j < sb.ninodes && j != i
    requires u.inodes[j] == t.inodes[j] && forall p: nat :: p < MAXFILE * BSIZE ==> ByteAt(u, j, p) == ByteAt(t, j, p)
    ensures Content(u, j) == Content(s, j)
  {
    hide FsState.Addr, FileBlock;
    forall p: nat | p < s.inodes[j].size
      ensures ByteAt(u, j, p) == ByteAt(s, j, p)
    {
      BlockOfPosition(p);
      assert FileBlock(t, j, p / BSIZE) == FileBlock(s, j, p / BSIZE);
    }
  }

  // ---------------------------------------------------------------- reading at an offset

  lemma SlicesJoin(c: seq<Byte>, a: nat, b: nat, d: nat)
    requires a <= b <= d <= |c|
    ensures c[a..b] + c[b..d] == c[a..d]
  {
  }

  /** One chunk of the loop in readi. */
  lemma ReadChunk(s: Fs, i: nat, pos: nat, m: nat)
    requires i < |s.inodes| && |s.inodes[i].addrs| == NDIRECT + 1 && s.inodes[i].size <= MAXFILE * BSIZE
    requires m <= BSIZE - pos % BSIZE && pos + m <= s.inodes[i].size && pos / BSIZE < MAXFILE
    ensures FileBlock(s, i, pos / BSIZE)[pos % BSIZE..pos % BSIZE + m] == Content(s, i)[pos..pos + m]
  {
    var o := pos % BSIZE;
    var a, b := FileBlock(s, i, pos / BSIZE)[o..o + m], Content(s, i)[pos..pos + m];
    forall x | 0 <= x < m
      ensures a[x] == b[x]
    {
      ChunkRange(pos, m, pos + x);
    }
  }
}
