/** The format of the disk, kernel/fs.h, byte by byte: what a program that knows nothing but the numbers
    below finds on a disk with a consistent file system. */
module FsFormat {
  import opened Blocks
  import opened FsState
  import opened FsContent
  import opened FsInode
  import FS = FileSystem

  /** Four bytes at an offset, low byte first. */
  function Raw32(b: Block, off: nat): nat
    requires off + 4 <= 1024
  {
    b[off] as int + 256 * b[off + 1] as int + 65536 * b[off + 2] as int + 16777216 * b[off + 3] as int
  }

  lemma WordIs(b: Block, i: nat)
    requires i < 256
    ensures Word(b, i) == Raw32(b, 4 * i)
  {
    var s := b[4 * i..4 * i + 4];
    assert s == [b[4 * i], b[4 * i + 1], b[4 * i + 2], b[4 * i + 3]];
    assert s[1..][1..] == s[2..] && s[2..][1..] == s[3..] && s[3..][1..] == [];
    assert LittleEndian(s[3..]) == s[3];
    assert LittleEndian(s[2..]) == s[2] as int + 256 * s[3] as int;
    assert LittleEndian(s[1..]) == s[1] as int + 256 * (s[2] as int + 256 * s[3] as int);
  }

  // ---------------------------------------------------------------- the bitmap

  /** Bit b of the bitmap that starts at a block: eight to a byte, lowest first. */
  predicate RawBit(d: seq<Block>, start: nat, b: nat)
    requires start + b / 8192 < |d|
  {
    d[start + b / 8192][b % 8192 / 8] / [1, 2, 4, 8, 16, 32, 64, 128][b % 8] % 2 == 1
  }

  lemma {:induction false} BitsOf(x: nat, len: nat, k: nat)
    requires k < len
    ensures ToBits(x, len)[k] <==> x / Power2(k) % 2 == 1
  {
    if k > 0 {
      BitsOf(x / 2, len - 1, k - 1);
      assert x / 2 / Power2(k - 1) == x / Power2(k) by { DivTwice(x, Power2(k - 1)); }
    }
  }

  lemma DivTwice(x: nat, m: nat)
    requires m > 0
    ensures x / 2 / m == x / (2 * m)
  {
    var q, r := x / (2 * m), x % (2 * m);
    assert x == 2 * (m * q) + r;
    assert x / 2 == m * q + r / 2;
    assert 0 <= r / 2 < m;
    QuotientIs(x / 2, m, q, r / 2);
  }

  lemma QuotientIs(x: nat, m: nat, q: nat, r: nat)
    requires m > 0 && x == m * q + r && r < m
    ensures x / m == q
  {
    var d := q - x / m;
    assert m * d == m * q - m * (x / m) == x % m - r;
    Multiple(m, d);
  }

  lemma Multiple(m: nat, d: int)
    requires m > 0
    ensures (d >= 1 ==> m * d >= m) && (d <= -1 ==> m * d + m <= 0)
  {
    if d <= -1 {
      assert m * d + m == m * (d + 1);
    }
  }

  lemma Powers(k: nat)
    requires k < 8
    ensures Power2(k) == [1, 2, 4, 8, 16, 32, 64, 128][k]
  {
    assert Power2(0) == 1 && Power2(1) == 2 && Power2(2) == 4 && Power2(3) == 8;
    assert Power2(4) == 16 && Power2(5) == 32 && Power2(6) == 64 && Power2(7) == 128;
  }

  lemma BitIs(b: Block, i: nat)
    requires i < 8192
    ensures Bit(b, i) <==> b[i / 8] / [1, 2, 4, 8, 16, 32, 64, 128][i % 8] % 2 == 1
  {
    hide Power2;
    BitsOf(b[i / 8], 8, i % 8);
    Powers(i % 8);
  }

  /** A block is in use exactly when its bit is set. */
  lemma InUseIs(sb: Sb, d: seq<Block>, b: nat)
    requires SbOk(sb) && |d| == sb.size && b < sb.size
    ensures sb.bmapstart + b / 8192 < |d| && (InUse(sb, d, b) <==> RawBit(d, sb.bmapstart, b))
  {
    hide Bit;
    assert BitBlock(sb, b) == sb.bmapstart + b / 8192;
    BitIs(d[sb.bmapstart + b / 8192], b % 8192);
    assert b % 8192 % 8 == b % 8;
  }

  // ---------------------------------------------------------------- inodes and files

  function RawInode(sb: Sb, i: nat): nat
  {
    sb.inodestart + i / 16
  }

  /** The size of file i: the word after type, major, minor and link count. */
  function RawSize(sb: Sb, d: seq<Block>, i: nat): nat
    requires RawInode(sb, i) < |d|
  {
    Raw32(d[RawInode(sb, i)], i % 16 * 64 + 8)
  }

  /** The address of block bn of file i: one of twelve words in the inode, or a word of the block that
      the thirteenth names. */
  function RawAddress(sb: Sb, d: seq<Block>, i: nat, bn: nat): nat
    requires RawInode(sb, i) < |d| && bn < 268
  {
    var inode, off := d[RawInode(sb, i)], i % 16 * 64;
    if bn < 12 then Raw32(inode, off + 12 + 4 * bn)
    else if Raw32(inode, off + 60) < |d| then Raw32(d[Raw32(inode, off + 60)], 4 * (bn - 12))
    else 0
  }

  lemma InodeOnDisk(sb: Sb, s: Fs, i: nat)
    requires Shape(sb, s) && i < sb.ninodes && Synced(sb, s, i)
    ensures RawInode(sb, i) < |s.disk| && s.inodes[i].size == RawSize(sb, s.disk, i)
    ensures forall k: nat :: k <= 12 ==>
              s.inodes[i].addrs[k] == Raw32(s.disk[RawInode(sb, i)], i % 16 * 64 + 12 + 4 * k)
  {
    hide Raw32;
    assert IBlock(sb, i) == RawInode(sb, i) && FirstWord(i) == i % 16 * 16;
    var b, w := s.disk[RawInode(sb, i)], i % 16 * 16;
    WordIs(b, w + 2);
    forall k: nat | k <= 12
      ensures s.inodes[i].addrs[k] == Raw32(b, i % 16 * 64 + 12 + 4 * k)
    {
      WordIs(b, w + 3 + k);
    }
  }

  /** The slot of a file block, in the numbers above. */
  lemma AddressIs(sb: Sb, s: Fs, i: nat, bn: nat)
    requires Shape(sb, s) && i < sb.ninodes && Synced(sb, s, i) && bn < 268 && Addr(s, i, Slot(bn)) != 0
    ensures RawInode(sb, i) < |s.disk| && Addr(s, i, Slot(bn)) == RawAddress(sb, s.disk, i, bn)
  {
    hide Raw32;
    InodeOnDisk(sb, s, i);
    if bn >= 12 {
      WordIs(s.disk[s.inodes[i].addrs[12]], bn - 12);
    }
  }

  /** A file, as the bytes on the disk give it. */
  lemma FileOnDisk(sb: Sb, s: Fs, owner: Owner, i: nat, p: nat)
    requires FS.Consistent(sb, s, owner) && i < sb.ninodes
    ensures RawInode(sb, i) < |s.disk| && |Content(s, i)| == RawSize(sb, s.disk, i) <= 268 * 1024
    ensures p < RawSize(sb, s.disk, i) ==>
              && 0 < RawAddress(sb, s.disk, i, p / 1024) < sb.size
              && Content(s, i)[p] == s.disk[RawAddress(sb, s.disk, i, p / 1024)][p % 1024]
  {
    hide FsState.Own, FsState.OwnExcept, FsState.Addr, RawAddress, RawSize;
    InodeOnDisk(sb, s, i);
    if p < s.inodes[i].size {
      var bn := p / 1024;
      assert NoHoles(s, i);
      assert bn * BSIZE < s.inodes[i].size;
      SlotIsOwned(sb, s, owner, i, Slot(bn));
      AddressIs(sb, s, i, bn);
    }
  }
}
