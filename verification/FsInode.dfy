/** On-disk inodes: sixteen words each, sixteen inodes to a block (kernel/fs.h). */
module FsInode {
  import opened Blocks
  import opened FsState
  import opened FsContent

  const INODE_WORDS: nat := 16

  function IBlock(sb: Sb, i: nat): (b: nat)
    requires SbOk(sb) && i < sb.ninodes
    ensures sb.inodestart <= b < sb.bmapstart
  {
    sb.inodestart + i / IPB
  }

  /** The index of the inode's first word within its block. */
  function FirstWord(i: nat): (w: nat)
    ensures w + INODE_WORDS <= NINDIRECT
  {
    (i % IPB) * INODE_WORDS
  }

  function InodeWords(n: Inode): seq<nat>
  {
    n.head + [n.size] + n.addrs
  }

  function ReadInode(b: Block, w: nat): Inode
    requires w + INODE_WORDS <= NINDIRECT
  {
    Inode([Word(b, w), Word(b, w + 1)], Word(b, w + 2),
          seq<nat>(NDIRECT + 1, k requires 0 <= k <= NDIRECT => Word(b, w + 3 + k)))
  }

  function PutWords(b: Block, w: nat, ws: seq<nat>): Block
    requires w + |ws| <= NINDIRECT
  {
    if ws == [] then b
    else PutWord(PutWords(b, w, ws[..|ws| - 1]), w + |ws| - 1, ws[|ws| - 1])
  }

  lemma {:induction false} WordOfPutWords(b: Block, w: nat, ws: seq<nat>, j: nat)
    requires w + |ws| <= NINDIRECT && j < NINDIRECT
    requires forall k :: 0 <= k < |ws| ==> ws[k] < UINT_LIMIT
    ensures Word(PutWords(b, w, ws), j) == if w <= j < w + |ws| then ws[j - w] else Word(b, j)
  {
    if ws != [] {
      WordOfPutWords(b, w, ws[..|ws| - 1], j);
      WordOfPutWord(PutWords(b, w, ws[..|ws| - 1]), w + |ws| - 1, ws[|ws| - 1], j);
    }
  }

  /** Every field of the inode fits its words on the disk. */
  ghost predicate Storable(n: Inode)
  {
    && |n.head| == 2 && |n.addrs| == NDIRECT + 1
    && forall k :: 0 <= k < |InodeWords(n)| ==> InodeWords(n)[k] < UINT_LIMIT
  }

  lemma InodeIsStorable(n: Inode)
    requires InodeOk(n)
    ensures Storable(n)
  {
  }

  /** An inode read back from where it was put. */
  lemma ReadInodeOfPutWords(b: Block, w: nat, n: Inode)
    requires Storable(n) && w + INODE_WORDS <= NINDIRECT
    ensures |InodeWords(n)| == INODE_WORDS && ReadInode(PutWords(b, w, InodeWords(n)), w) == n
  {
    var ws := InodeWords(n);
    var p := PutWords(b, w, ws);
    forall j | 0 <= j < INODE_WORDS
      ensures Word(p, w + j) == ws[j]
    {
      WordOfPutWords(b, w, ws, w + j);
    }
    var m := ReadInode(p, w);
    assert Word(p, w + 0) == ws[0] && Word(p, w + 1) == ws[1];
    assert m.head == n.head;
    assert Word(p, w + 2) == ws[2];
    assert m.size == n.size;
    forall k | 0 <= k <= NDIRECT
      ensures m.addrs[k] == n.addrs[k]
    {
      assert Word(p, w + (3 + k)) == ws[3 + k];
    }
    assert m.addrs == n.addrs;
  }

  lemma ReadInodeFrame(b: Block, w: nat, n: Inode, v: nat)
    requires Storable(n) && w + INODE_WORDS <= NINDIRECT && v + INODE_WORDS <= NINDIRECT
    requires v + INODE_WORDS <= w || w + INODE_WORDS <= v
    ensures ReadInode(PutWords(b, w, InodeWords(n)), v) == ReadInode(b, v)
  {
    var p := PutWords(b, w, InodeWords(n));
    forall x | v <= x < v + INODE_WORDS
      ensures Word(p, x) == Word(b, x)
    {
      WordOfPutWords(b, w, InodeWords(n), x);
    }
    assert ReadInode(p, v).addrs == ReadInode(b, v).addrs;
  }

  // ---------------------------------------------------------------- iupdate

  /** Inode i on the disk is the one in memory. */
  ghost predicate Synced(sb: Sb, s: Fs, i: nat)
    requires SbOk(sb) && |s.disk| == sb.size && |s.inodes| == sb.ninodes && i < sb.ninodes
  {
    ReadInode(s.disk[IBlock(sb, i)], FirstWord(i)) == s.inodes[i]
  }

  /** iupdate's effect. */
  function Updated(sb: Sb, s: Fs, i: nat): Fs
    requires SbOk(sb) && |s.disk| == sb.size && |s.inodes| == sb.ninodes && i < sb.ninodes
    requires |InodeWords(s.inodes[i])| == INODE_WORDS
  {
    var b := IBlock(sb, i);
    s.(disk := s.disk[b := PutWords(s.disk[b], FirstWord(i), InodeWords(s.inodes[i]))])
  }

  lemma WordsApart(i: nat, j: nat)
    requires i != j && i / IPB == j / IPB
    ensures FirstWord(j) + INODE_WORDS <= FirstWord(i) || FirstWord(i) + INODE_WORDS <= FirstWord(j)
  {
  }

  /** iupdate brings inode i to the disk and leaves the other inodes on the disk as they are. */
  lemma UpdatedSyncs(sb: Sb, s: Fs, i: nat)
    requires SbOk(sb) && |s.disk| == sb.size && |s.inodes| == sb.ninodes && i < sb.ninodes && Storable(s.inodes[i])
    ensures |InodeWords(s.inodes[i])| == INODE_WORDS
    ensures var t := Updated(sb, s, i);
            && t.inodes == s.inodes && Synced(sb, t, i)
            && forall j: nat :: j < sb.ninodes && j != i ==> Synced(sb, t, j) == Synced(sb, s, j)
  {
    hide Storable, ReadInode;
    var n := s.inodes[i];
    ReadInodeOfPutWords(s.disk[IBlock(sb, i)], FirstWord(i), n);
    var t := Updated(sb, s, i);
    forall j: nat | j < sb.ninodes && j != i
      ensures Synced(sb, t, j) == Synced(sb, s, j)
    {
      if IBlock(sb, i) == IBlock(sb, j) {
        WordsApart(i, j);
        ReadInodeFrame(s.disk[IBlock(sb, i)], FirstWord(i), n, FirstWord(j));
      }
    }
  }

  /** iupdate brings inode i to the disk and disturbs no other inode on the disk, no
      address, no bit and no file content. */
  lemma UpdatedKeeps(sb: Sb, s: Fs, owner: Owner, i: nat)
    requires Shape(sb, s) && Own(sb, s, owner) && i < sb.ninodes
    ensures |InodeWords(s.inodes[i])| == INODE_WORDS
    ensures var t := Updated(sb, s, i);
            && Shape(sb, t) && Own(sb, t, owner) && Synced(sb, t, i)
            && (forall j: nat :: j < sb.ninodes && j != i ==> Synced(sb, t, j) == Synced(sb, s, j))
            && (forall j: nat, m: nat :: j < sb.ninodes && m < SLOTS ==> Addr(t, j, m) == Addr(s, j, m))
            && (forall a: nat :: DataStart(sb) <= a < sb.size ==> t.disk[a] == s.disk[a])
  {
    hide Storable, ReadInode;
    InodeIsStorable(s.inodes[i]);
    UpdatedSyncs(sb, s, i);
    var t := Updated(sb, s, i);
    BlockWriteKeeps(sb, s, owner, IBlock(sb, i), t.disk[IBlock(sb, i)], t);
  }

  /** Contents and holes depend only on the inodes, the addresses and the data blocks. */
  lemma ContentFrame(sb: Sb, s: Fs, owner: Owner, t: Fs, j: nat)
    requires Shape(sb, s) && Shape(sb, t) && Own(sb, s, owner) && t.inodes == s.inodes && j < sb.ninodes
    requires forall m: nat :: m < SLOTS ==> Addr(t, j, m) == Addr(s, j, m)
    requires forall a: nat :: DataStart(sb) <= a < sb.size ==> t.disk[a] == s.disk[a]
    ensures Content(t, j) == Content(s, j) && (NoHoles(t, j) <==> NoHoles(s, j))
  {
    hide FsState.Own, FsState.OwnExcept;
    forall p: nat | p < s.inodes[j].size
      ensures ByteAt(t, j, p) == ByteAt(s, j, p)
    {
      BlockOfPosition(p);
      var k := Slot(p / BSIZE);
      if Addr(s, j, k) != 0 {
        SlotIsOwned(sb, s, owner, j, k);
      }
    }
  }
}
