/** Disk blocks as byte sequences, with the two finer views that the storage code
    takes of them: 32-bit little-endian words (the log header, indirect blocks) and
    single bits (the free bitmap).
 */
module Blocks {

  const BSIZE: nat := 1024
  const NINDIRECT: nat := 256        // words in a block
  const UINT_LIMIT: nat := 0x1_0000_0000

  type Byte = x: int | 0 <= x < 256
  type Block = s: seq<Byte> | |s| == BSIZE witness Zeroes()

  function Zeroes(): (s: seq<Byte>)
    ensures |s| == BSIZE
  {
    seq(BSIZE, _ => 0)
  }

  // ---------------------------------------------------------------- words

  function LittleEndian(s: seq<Byte>): nat
  {
    if s == [] then 0 else s[0] + 256 * LittleEndian(s[1..])
  }

  function ToBytes(w: nat, len: nat): (s: seq<Byte>)
    ensures |s| == len
  {
    if len == 0 then [] else [w % 256] + ToBytes(w / 256, len - 1)
  }

  function Power256(k: nat): nat
  {
    if k == 0 then 1 else 256 * Power256(k - 1)
  }

  lemma {:induction false} LittleEndianOfToBytes(w: nat, len: nat)
    requires w < Power256(len)
    ensures LittleEndian(ToBytes(w, len)) == w
  {
    if len > 0 {
      LittleEndianOfToBytes(w / 256, len - 1);
      assert ToBytes(w, len)[1..] == ToBytes(w / 256, len - 1);
    }
  }

  /** The i-th 32-bit word of a block. */
  function Word(b: Block, i: nat): nat
    requires i < NINDIRECT
  {
    LittleEndian(b[4 * i..4 * i + 4])
  }

  /** The block with its i-th word replaced. */
  function PutWord(b: Block, i: nat, w: nat): Block
    requires i < NINDIRECT
  {
    b[..4 * i] + ToBytes(w, 4) + b[4 * i + 4..]
  }

  lemma WordOfPutWord(b: Block, i: nat, w: nat, j: nat)
    requires i < NINDIRECT && j < NINDIRECT && w < UINT_LIMIT
    ensures Word(PutWord(b, i, w), j) == if i == j then w else Word(b, j)
  {
    var p := PutWord(b, i, w);
    if i == j {
      assert Power256(4) == UINT_LIMIT by {
        assert Power256(1) == 256 && Power256(2) == 65536 && Power256(3) == 16777216;
      }
      LittleEndianOfToBytes(w, 4);
      assert p[4 * i..4 * i + 4] == ToBytes(w, 4);
    } else {
      assert p[4 * j..4 * j + 4] == b[4 * j..4 * j + 4];
    }
  }

  lemma {:induction false} LittleEndianOfZeroes(s: seq<Byte>)
    requires forall i :: 0 <= i < |s| ==> s[i] == 0
    ensures LittleEndian(s) == 0
  {
    if s != [] {
      LittleEndianOfZeroes(s[1..]);
    }
  }

  lemma WordOfZeroes(i: nat)
    requires i < NINDIRECT
    ensures Word(Zeroes(), i) == 0
  {
    LittleEndianOfZeroes(Zeroes()[4 * i..4 * i + 4]);
  }

  // ---------------------------------------------------------------- bits

  /** The low `len` bits of x, least significant first. */
  function ToBits(x: nat, len: nat): (s: seq<bool>)
    ensures |s| == len
  {
    if len == 0 then [] else [x % 2 == 1] + ToBits(x / 2, len - 1)
  }

  function FromBits(s: seq<bool>): nat
  {
    if s == [] then 0 else (if s[0] then 1 else 0) + 2 * FromBits(s[1..])
  }

  function Power2(k: nat): (p: nat)
    ensures p > 0
  {
    if k == 0 then 1 else 2 * Power2(k - 1)
  }

  lemma {:induction false} FromBitsBound(s: seq<bool>)
    ensures FromBits(s) < Power2(|s|)
  {
    if s != [] {
      FromBitsBound(s[1..]);
    }
  }

  lemma {:induction false} ToBitsOfFromBits(s: seq<bool>)
    ensures ToBits(FromBits(s), |s|) == s
  {
    if s != [] {
      ToBitsOfFromBits(s[1..]);
      assert FromBits(s) / 2 == FromBits(s[1..]);
      assert s == [s[0]] + s[1..];
    }
  }

  /** A byte with bit k put to v, the others as they were. */
  function PutBit(x: Byte, k: nat, v: bool): (y: Byte)
    requires k < 8
    ensures ToBits(y, 8) == ToBits(x, 8)[k := v]
  {
    var s := ToBits(x, 8)[k := v];
    FromBitsBound(s);
    assert Power2(8) == 256 by {
      assert Power2(4) == 16 && Power2(6) == 64;
    }
    ToBitsOfFromBits(s);
    FromBits(s)
  }

  /** Bit i of a bitmap block. */
  function Bit(b: Block, i: nat): bool
    requires i < 8 * BSIZE
  {
    ToBits(b[i / 8], 8)[i % 8]
  }

  function SetBit(b: Block, i: nat, v: bool): Block
    requires i < 8 * BSIZE
  {
    b[i / 8 := PutBit(b[i / 8], i % 8, v)]
  }

  lemma BitOfSetBit(b: Block, i: nat, v: bool, j: nat)
    requires i < 8 * BSIZE && j < 8 * BSIZE
    ensures Bit(SetBit(b, i, v), j) == if i == j then v else Bit(b, j)
  {
    if i / 8 == j / 8 && i != j {
      assert i % 8 != j % 8;
    }
  }
}
