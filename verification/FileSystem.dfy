/** kernel/fs.c in its own form: block allocation, block maps and file content over the
    logical disk that the log and the buffer cache present. bread reads `disk`; log_write
    stores to it and is recorded in `logged`.
 */
module FileSystem {
  import opened Blocks
  import opened FsState
  import opened FsContent
  import opened FsInode
  import opened FsFree
  import LogMachine

  /** b is the first block that a bitmap block stands for. */
  ghost predicate Aligned(b: nat)
  {
    b % BPB == 0
  }

  lemma NextAligned(b: nat)
    requires Aligned(b)
    ensures Aligned(b + BPB)
  {
  }

  lemma FirstAligned()
    ensures Aligned(0)
  {
  }

  /** BBLOCK */
  function MapBlock(sb: Sb, b: nat): nat
  {
    sb.bmapstart + b / BPB
  }

  lemma BitPosition(sb: Sb, b: nat, bi: nat)
    requires SbOk(sb) && Aligned(b) && bi < BPB && b + bi < sb.size
    ensures BitBlock(sb, b + bi) == MapBlock(sb, b) < sb.size && BitIndex(b + bi) == bi
  {
    assert (b + bi) / BPB == b / BPB;
  }

  /** The inner loop of balloc: the first clear bit below the limit. */
  method FirstZero(bp: Block, limit: nat) returns (bi: nat)
    requires limit <= BPB
    ensures bi <= limit && (bi < limit ==> !Bit(bp, bi))
    ensures forall x :: 0 <= x < bi ==> Bit(bp, x)
  {
    bi := 0;
    while bi < limit
      invariant bi <= limit && forall x :: 0 <= x < bi ==> Bit(bp, x)
    {
      if !Bit(bp, bi) {
        return;
      }
      bi := bi + 1;
    }
  }

  /** How many of the bytes left go to the block of position pos. */
  function ChunkSize(left: nat, pos: nat): (m: nat)
    ensures m <= left && m <= BSIZE - pos % BSIZE && (left > 0 ==> m > 0)
  {
    if left < BSIZE - pos % BSIZE then left else BSIZE - pos % BSIZE
  }

  class FileSystem {
    const sb: Sb
    var disk: seq<Block>
    var inodes: seq<Inode>
    ghost var owner: Owner        // which slot of which inode each data block belongs to
    ghost var logged: set<nat>    // blocks passed to log_write

    ghost function State(): Fs
      reads this
    {
      Fs(disk, inodes)
    }

    /** balloc: the lowest free block, marked and zeroed. */
    method Balloc() returns (r: nat, panicked: bool)
      requires SbOk(sb) && |disk| == sb.size
      modifies this`disk, this`logged
      ensures panicked ==> disk == old(disk) && forall x: nat :: x < sb.size ==> InUse(sb, disk, x)
      ensures !panicked ==> && r < sb.size && !InUse(sb, old(disk), r)
                            && (forall x: nat :: x < r ==> InUse(sb, old(disk), x))
                            && disk == Allocated(sb, old(disk), r)
                            && logged == old(logged) + {BitBlock(sb, r), r}
    {
      hide Blocks.Bit, Blocks.SetBit, FsState.BitBlock, FsState.BitIndex, Blocks.Zeroes, Aligned, MapBlock;
      var b := 0;
      FirstAligned();
      while b < sb.size
        invariant Aligned(b) && disk == old(disk) && logged == old(logged)
        invariant forall x: nat :: x < b && x < sb.size ==> InUse(sb, disk, x)
        decreases sb.size - b
      {
        BitPosition(sb, b, 0);
        var bp := disk[MapBlock(sb, b)];
        var bi := FirstZero(bp, if sb.size - b < BPB then sb.size - b else BPB);
        forall x: nat | b <= x < b + bi
          ensures InUse(sb, disk, x)
        {
          BitPosition(sb, b, x - b);
        }
        if bi < BPB && b + bi < sb.size {
          BitPosition(sb, b, bi);
          r := b + bi;
          disk := disk[MapBlock(sb, b) := SetBit(bp, bi, true)];
          disk := disk[r := Zeroes()];
          logged := logged + {MapBlock(sb, b), r};
          return r, false;
        }
        NextAligned(b);
        b := b + BPB;
      }
      return 0, true;
    }

    /** bfree */
    method Bfree(b: nat) returns (panicked: bool)
      requires SbOk(sb) && |disk| == sb.size && b < sb.size
      modifies this`disk, this`logged
      ensures panicked <==> !InUse(sb, old(disk), b)
      ensures panicked ==> disk == old(disk) && logged == old(logged)
      ensures !panicked ==> disk == Mark(sb, old(disk), b, false) && logged == old(logged) + {BitBlock(sb, b)}
      ensures Journaled(old(disk), old(logged), disk, logged)
    {
      var bm := BitBlock(sb, b);
      var bp := disk[bm];
      var bi := b % BPB;
      if !Bit(bp, bi) {
        return true;
      }
      bp := SetBit(bp, bi, false);
      disk := disk[bm := bp];
      logged := logged + {bm};
      return false;
    }

    /** Allocate a block and store its address in slot k of inode inum. */
    method Grow(inum: nat, k: nat) returns (r: nat, panicked: bool)
      requires Shape(sb, State()) && Own(sb, State(), owner) && inum < sb.ninodes && k < SLOTS
      requires Addr(State(), inum, k) == 0 && (k > NDIRECT ==> inodes[inum].addrs[NDIRECT] != 0)
      modifies this
      ensures Shape(sb, State()) && Own(sb, State(), owner)
      ensures Extends(sb, old(State()), old(owner), inum, State(), owner)
      ensures panicked ==> State() == old(State()) && owner == old(owner)
      ensures !panicked ==> && Addr(State(), inum, k) == r && DataStart(sb) <= r < sb.size
                            && disk[r] == Zeroes()
                            && r !in old(owner) && owner == old(owner)[r := (inum, k)]
      ensures !panicked ==> forall x :: x in logged && x !in old(logged) ==>
                x == r || sb.bmapstart <= x < DataStart(sb) || (k > NDIRECT && x == inodes[inum].addrs[NDIRECT])
      ensures !panicked ==> Journaled(old(disk), old(logged), disk, logged)
    {
      hide FsState.Own, FsState.OwnExcept, FsContent.Extends, FsState.Journaled;
      ghost var s := State();
      ExtendsSelf(sb, s, owner, inum);
      if k > NDIRECT {
        IndirectIsOwned(sb, s, owner, inum);
      }
      r, panicked := Balloc();
      if panicked {
        return;
      }
      AllocatedJournaled(sb, s.disk, old(logged), r);
      if k <= NDIRECT {
        inodes := inodes[inum := inodes[inum].(addrs := inodes[inum].addrs[k := r])];
      } else {
        var ind := inodes[inum].addrs[NDIRECT];
        ghost var d, l := disk, logged;
        disk := disk[ind := PutWord(disk[ind], k - NDIRECT - 1, r)];
        logged := logged + {ind};
        JournaledWrite(d, l, ind, disk[ind]);
        JournaledTransitive(s.disk, old(logged), d, l, disk, logged);
      }
      ghost var t := State();
      FreeIsUnowned(sb, s, owner, r);
      assert Grown(sb, s, inum, k, r, t);
      GrownOwn(sb, s, owner, inum, k, r, t);
      GrownExtends(sb, s, owner, inum, k, r, t);
      GrownAddr(sb, s, owner, inum, k, r, t, inum, k);
      owner := owner[r := (inum, k)];
    }

    /** The address in slot k of inode inum, allocating a block if there is none: the step that
        bmap takes for a direct block, for the indirect block and for an entry of it. */
    method SlotAddr(inum: nat, k: nat) returns (addr: nat, panicked: bool)
      requires Shape(sb, State()) && Own(sb, State(), owner) && inum < sb.ninodes && k < SLOTS
      requires k > NDIRECT ==> inodes[inum].addrs[NDIRECT] != 0
      modifies this
      ensures Shape(sb, State()) && Own(sb, State(), owner)
      ensures Extends(sb, old(State()), old(owner), inum, State(), owner)
      ensures Addr(old(State()), inum, k) != 0 ==> !panicked
      ensures !panicked ==> Slotted(sb, old(State()), old(owner), old(logged), inum, k, State(), owner, logged, addr)
    {
      hide FsState.Own, FsState.OwnExcept, FsContent.Extends, FsState.Journaled;
      ghost var s := State();
      ExtendsSelf(sb, s, owner, inum);
      JournaledNothing(disk, logged);
      if k <= NDIRECT {
        addr := inodes[inum].addrs[k];
      } else {
        IndirectIsOwned(sb, s, owner, inum);
        addr := Word(disk[inodes[inum].addrs[NDIRECT]], k - NDIRECT - 1);
      }
      assert addr == Addr(s, inum, k);
      if addr == 0 {
        addr, panicked := Grow(inum, k);
      } else {
        SlotIsOwned(sb, s, owner, inum, k);
        panicked := false;
      }
    }

    /** bmap: the address of the bn-th block of the file, allocating what is missing. */
    method Bmap(inum: nat, bn: nat) returns (addr: nat, panicked: bool)
      requires Shape(sb, State()) && Own(sb, State(), owner) && inum < sb.ninodes
      modifies this
      ensures Shape(sb, State()) && Own(sb, State(), owner)
      ensures Extends(sb, old(State()), old(owner), inum, State(), owner)
      ensures bn >= MAXFILE ==> panicked
      ensures bn < MAXFILE && Addr(old(State()), inum, Slot(bn)) != 0 ==> !panicked
      ensures !panicked ==> Mapped(sb, old(State()), old(owner), old(logged), inum, bn, State(), owner, logged, addr)
    {
      hide FsState.Own, FsState.OwnExcept, FsContent.Extends, FsState.Addr, Slotted, Mapped;
      ghost var s, o, l := State(), owner, logged;
      ExtendsSelf(sb, s, owner, inum);
      if bn < NDIRECT {
        addr, panicked := SlotAddr(inum, bn);
        if !panicked {
          MappedDirect(sb, s, o, l, inum, bn, State(), owner, logged, addr);
        }
        return;
      }
      if bn < MAXFILE {
        addr, panicked := SlotAddr(inum, NDIRECT);
        if panicked {
          AddrOfIndirect(s, inum);
          AddrWithoutIndirect(s, inum, Slot(bn));
          return;
        }
        ghost var t, o1, l1, ind := State(), owner, logged, addr;
        SlottedIndirect(sb, s, o, l, inum, bn, t, o1, l1, ind);
        addr, panicked := SlotAddr(inum, bn + 1);
        ExtendsTransitive(sb, s, o, inum, t, o1, State(), owner);
        if !panicked {
          MappedIndirect(sb, s, o, l, inum, bn, t, o1, l1, ind, State(), owner, logged, addr);
        }
        return;
      }
      return 0, true;
    }

    /** readi. The destination takes `room` bytes; a chunk that does not fit makes the copy
        fail. The bytes read are exactly the requested slice of the file, clipped at its size,
        and reading never changes the file system, so it never allocates. */
    method Readi(inum: nat, off: nat, n: nat, room: nat) returns (dst: seq<Byte>, ret: int)
      requires Shape(sb, State()) && Own(sb, State(), owner) && inum < sb.ninodes && NoHoles(State(), inum)
      requires off < UINT_LIMIT && n < UINT_LIMIT
      modifies this
      ensures State() == old(State()) && owner == old(owner) && logged == old(logged)
      ensures off > inodes[inum].size || off + n >= UINT_LIMIT ==> ret == 0 && dst == []
      ensures off <= inodes[inum].size && off + n < UINT_LIMIT ==>
                var len := if off + n > inodes[inum].size then inodes[inum].size - off else n;
                if len <= room then ret == len && dst == Content(State(), inum)[off..off + len] else ret == -1
    {
      hide FsState.Own, FsState.OwnExcept, FsState.Addr, FsContent.Extends, FsContent.Content, FsContent.FileBlock,
        ChunkSize, FsState.Journaled;
      ghost var s := State();
      dst := [];
      if off > inodes[inum].size || (off + n) % UINT_LIMIT < off {
        return [], 0;
      }
      var len := n;
      if off + n > inodes[inum].size {
        len := inodes[inum].size - off;
      }
      var tot, pos := 0, off;
      while tot < len
        invariant 0 <= tot <= len && pos == off + tot && tot <= room
        invariant State() == s && owner == old(owner) && logged == old(logged)
        invariant dst == Content(s, inum)[off..pos]
      {
        BlockOfPosition(pos);
        var addr, panicked := Bmap(inum, pos / BSIZE);
        var m := ChunkSize(len - tot, pos);
        if tot + m > room {
          return dst, -1;
        }
        ReadChunk(s, inum, pos, m);
        BlockAt(s, inum, pos / BSIZE, addr);
        SlicesJoin(Content(s, inum), off, pos, pos + m);
        dst := dst + disk[addr][pos % BSIZE..pos % BSIZE + m];
        tot, pos := tot + m, pos + m;
      }
      return dst, len;
    }

    /** iupdate */
    method Iupdate(inum: nat)
      requires Shape(sb, State()) && Own(sb, State(), owner) && inum < sb.ninodes
      modifies this`disk, this`logged
      ensures |InodeWords(inodes[inum])| == INODE_WORDS && State() == Updated(sb, old(State()), inum)
      ensures logged == old(logged) + {IBlock(sb, inum)} && Journaled(old(disk), old(logged), disk, logged)
    {
      hide FsState.Own, FsState.OwnExcept, FsState.Addr, FsState.Journaled;
      UpdatedKeeps(sb, State(), owner, inum);
      var b := IBlock(sb, inum);
      var w := FirstWord(inum);
      var words := InodeWords(inodes[inum]);
      var bp := disk[b];
      for k := 0 to INODE_WORDS
        invariant bp == PutWords(disk[b], w, words[..k])
      {
        bp := PutWord(bp, w + k, words[k]);
        assert words[..k + 1][..k] == words[..k];
      }
      assert words[..INODE_WORDS] == words;
      JournaledWrite(disk, logged, b, bp);
      disk := disk[b := bp];
      logged := logged + {b};
    }

    /** Between system calls: ownership, no holes, and every inode on the disk as in memory. */
    ghost predicate Valid()
      reads this
    {
      Consistent(sb, State(), owner)
    }

    /** One round of the loop in writei; 0 when the source cannot supply the chunk. */
    method WriteChunk(inum: nat, off: nat, n: nat, src: seq<Byte>, tot: nat, ghost s: Fs, ghost l0: set<nat>)
      returns (m: nat, panicked: bool)
      requires off + n <= MAXFILE * BSIZE && tot < n && tot <= |src|
      requires Writing(sb, s, l0, inum, off, n, src[..tot], State(), owner, logged)
      modifies this
      ensures Shape(sb, State()) && Own(sb, State(), owner)
      ensures !panicked ==> && tot + m <= n && tot + m <= |src| && (m == 0 ==> |src| < n)
                            && Writing(sb, s, l0, inum, off, n, src[..tot + m], State(), owner, logged)
    {
      hide FsState.Own, FsState.OwnExcept, FsState.Addr, FsContent.Extends, Writing, FsState.Journaled,
        FsContent.Patched, FsContent.Wrote, LoggedBy, ChunkSize, FsState.Slot, Mapped;
      WritingIn(sb, s, l0, inum, off, n, src[..tot], State(), owner, logged);
      var pos := off + tot;
      BlockOfPosition(pos);
      ghost var t, o, l := State(), owner, logged;
      var addr;
      addr, panicked := Bmap(inum, pos / BSIZE);
      if panicked {
        return 0, true;
      }
      ghost var u := State();
      WritingGrew(sb, s, l0, inum, off, n, src[..tot], t, o, l, u, owner, logged, pos, addr);
      m := ChunkSize(n - tot, pos);
      if tot + m > |src| {
        return 0, false;
      }
      disk := disk[addr := Patched(disk[addr], pos % BSIZE, src[tot..tot + m])];
      WritingPatched(sb, s, l0, inum, off, n, src, tot, m, u, owner, logged, addr, State());
      logged := logged + {addr};
      WritingIn(sb, s, l0, inum, off, n, src[..tot + m], State(), owner, logged);
    }

    /** The loop of writei. A chunk the source cannot supply ends it early. */
    method WriteChunks(inum: nat, off: nat, n: nat, src: seq<Byte>) returns (tot: nat, panicked: bool)
      requires Shape(sb, State()) && Own(sb, State(), owner) && inum < sb.ninodes && NoHoles(State(), inum)
      requires off <= inodes[inum].size && off + n <= MAXFILE * BSIZE
      modifies this
      ensures Shape(sb, State()) && Own(sb, State(), owner)
      ensures !panicked ==> && tot <= n && tot <= |src| && (n <= |src| ==> tot == n)
                            && Writing(sb, old(State()), old(logged), inum, off, n, src[..tot], State(), owner, logged)
    {
      hide FsState.Own, FsState.OwnExcept, FsState.Addr, Writing;
      ghost var s := State();
      WritingNothing(sb, s, logged, inum, off, n, owner);
      tot, panicked := 0, false;
      assert src[..0] == [];
      while tot < n
        invariant Shape(sb, State()) && Own(sb, State(), owner)
        invariant tot <= n && tot <= |src| && !panicked
        invariant Writing(sb, s, old(logged), inum, off, n, src[..tot], State(), owner, logged)
      {
        var m;
        m, panicked := WriteChunk(inum, off, n, src, tot, s, old(logged));
        if panicked || m == 0 {
          return;
        }
        tot := tot + m;
      }
    }

    /** writei: replaces exactly the bytes off..off+ret of the file, growing it as needed, and
        changes no other file. A request past the end of the file, past the largest file or
        wrapping around is refused and changes nothing. */
    method Writei(inum: nat, off: nat, n: nat, src: seq<Byte>) returns (ret: int, panicked: bool)
      requires Valid() && inum < sb.ninodes && off < UINT_LIMIT && n < UINT_LIMIT
      modifies this
      ensures off > old(inodes)[inum].size || off + n > MAXFILE * BSIZE ==>
                ret == -1 && !panicked && State() == old(State()) && owner == old(owner) && logged == old(logged)
      ensures !panicked ==> Valid()
      ensures !panicked && off <= old(inodes)[inum].size && off + n <= MAXFILE * BSIZE ==>
                && 0 <= ret <= n && ret <= |src| && (n <= |src| ==> ret == n)
                && Content(State(), inum) == Overwrite(Content(old(State()), inum), off, src[..ret])
                && (forall j: nat :: j < sb.ninodes && j != inum ==> Content(State(), j) == Content(old(State()), j))
                && LoggedBy(sb, old(logged), logged - {IBlock(sb, inum)}, State(), inum, off, n)
      ensures !panicked ==> Journaled(old(disk), old(logged), disk, logged)
    {
      hide FsState.Own, FsState.OwnExcept, FsState.Addr, FsContent.Wrote, FsContent.Content, LoggedBy,
        FsState.Journaled, Writing;
      JournaledNothing(disk, logged);
      ghost var s := State();
      if off > inodes[inum].size || (off + n) % UINT_LIMIT < off {
        return -1, false;
      }
      if (off + n) % UINT_LIMIT > MAXFILE * BSIZE {
        return -1, false;
      }
      var tot;
      tot, panicked := WriteChunks(inum, off, n, src);
      if panicked {
        return -1, true;
      }
      ghost var t, l := State(), logged;
      WritingIn(sb, s, old(logged), inum, off, n, src[..tot], t, owner, l);
      WroteSizes(sb, s, inum, off, src[..tot], t);
      if off + tot > inodes[inum].size {
        inodes := inodes[inum := inodes[inum].(size := off + tot)];
      }
      ghost var u := State();
      SizeChangeKeeps(sb, t, owner, inum, u);
      Iupdate(inum);
      JournaledTransitive(s.disk, old(logged), t.disk, l, disk, logged);
      FinishWrite(sb, s, inum, off, src[..tot], t, u, owner, old(logged), l, n, State());
      return tot, false;
    }

    /** The first loop of itrunc. */
    method FreeDirect(inum: nat) returns (panicked: bool)
      requires Shape(sb, State()) && Own(sb, State(), owner) && inum < sb.ninodes
      modifies this
      ensures !panicked && Shape(sb, State()) && Own(sb, State(), owner)
      ensures FreesOnly(sb, old(State()), inum, State()) && LosesOnly(old(owner), inum, owner)
      ensures inodes[inum].addrs[NDIRECT] == old(inodes)[inum].addrs[NDIRECT]
      ensures forall k :: 0 <= k < NDIRECT ==> inodes[inum].addrs[k] == 0
      ensures Journaled(old(disk), old(logged), disk, logged) && BitmapOnly(sb, old(logged), logged)
    {
      hide FsState.Own, FsState.OwnExcept, FsFree.FreesOnly, FsFree.LosesOnly, FsState.Journaled;
      ghost var s := State();
      FreesNothing(sb, s, owner, inum);
      JournaledNothing(disk, logged);
      for i := 0 to NDIRECT
        invariant Journaled(old(disk), old(logged), disk, logged) && BitmapOnly(sb, old(logged), logged)
        invariant Shape(sb, State()) && Own(sb, State(), owner)
        invariant FreesOnly(sb, s, inum, State()) && LosesOnly(old(owner), inum, owner)
        invariant inodes[inum].addrs[NDIRECT] == old(inodes)[inum].addrs[NDIRECT]
        invariant forall k :: 0 <= k < i ==> inodes[inum].addrs[k] == 0
      {
        var a := inodes[inum].addrs[i];
        if a != 0 {
          ghost var t, l := State(), logged;
          DirectFreed(sb, s, old(owner), t, owner, inum, i);
          panicked := Bfree(a);
          JournaledTransitive(old(disk), old(logged), t.disk, l, disk, logged);
          if panicked {
            return;
          }
          inodes := inodes[inum := inodes[inum].(addrs := inodes[inum].addrs[i := 0])];
          owner := owner - {a};
        }
      }
      return false;
    }

    /** The second half of itrunc: every block the indirect block lists, then itself. */
    method FreeIndirect(inum: nat) returns (panicked: bool)
      requires Shape(sb, State()) && Own(sb, State(), owner) && inum < sb.ninodes && inodes[inum].addrs[NDIRECT] != 0
      modifies this
      ensures !panicked && Shape(sb, State()) && Own(sb, State(), owner)
      ensures FreesOnly(sb, old(State()), inum, State()) && LosesOnly(old(owner), inum, owner)
      ensures inodes == old(inodes)[inum := old(inodes)[inum].(addrs := old(inodes)[inum].addrs[NDIRECT := 0])]
      ensures Journaled(old(disk), old(logged), disk, logged) && BitmapOnly(sb, old(logged), logged)
    {
      hide FsState.Own, FsState.OwnExcept, FsFree.FreesOnly, FsFree.LosesOnly, FsState.Journaled;
      JournaledNothing(disk, logged);
      ghost var s := State();
      FreesNothing(sb, s, owner, inum);
      IndirectIsOwned(sb, s, owner, inum);
      OwnIsOwnExcept(sb, s, owner, inum, NDIRECT + 1);
      var ind := inodes[inum].addrs[NDIRECT];
      var bp := disk[ind];
      for j := 0 to NINDIRECT
        invariant Shape(sb, State()) && inodes == old(inodes) && disk[ind] == bp
        invariant OwnExcept(sb, State(), owner, inum, NDIRECT + 1, NDIRECT + 1 + j)
        invariant FreesOnly(sb, s, inum, State()) && LosesOnly(old(owner), inum, owner)
        invariant Journaled(old(disk), old(logged), disk, logged) && BitmapOnly(sb, old(logged), logged)
      {
        var a := Word(bp, j);
        ghost var t, l := State(), logged;
        EntryFreed(sb, s, old(owner), t, owner, inum, NDIRECT + 1 + j);
        if a != 0 {
          panicked := Bfree(a);
          JournaledTransitive(old(disk), old(logged), t.disk, l, disk, logged);
          if panicked {
            return;
          }
          owner := owner - {a};
        }
      }
      ghost var t, l := State(), logged;
      IndirectFreed(sb, s, old(owner), t, owner, inum);
      panicked := Bfree(ind);
      JournaledTransitive(old(disk), old(logged), t.disk, l, disk, logged);
      if panicked {
        return;
      }
      inodes := inodes[inum := inodes[inum].(addrs := inodes[inum].addrs[NDIRECT := 0])];
      owner := owner - {ind};
    }

    /** itrunc: never frees a free block, empties the file, gives back exactly the file's
        blocks and leaves every other file as it was. */
    method Itrunc(inum: nat) returns (panicked: bool)
      requires Valid() && inum < sb.ninodes
      modifies this
      ensures !panicked && Valid()
      ensures Content(State(), inum) == [] && forall k: nat :: k < SLOTS ==> Addr(State(), inum, k) == 0
      ensures forall j: nat :: j < sb.ninodes && j != inum ==> Content(State(), j) == Content(old(State()), j)
      ensures forall a :: a in owner <==> a in old(owner) && old(owner)[a].0 != inum
      ensures forall b: nat :: b < sb.size ==>
                (InUse(sb, disk, b) <==> InUse(sb, old(disk), b) && !(b in old(owner) && old(owner)[b].0 == inum))
      ensures Journaled(old(disk), old(logged), disk, logged)
      ensures BitmapOnly(sb, old(logged), logged - {IBlock(sb, inum)})
    {
      hide FsState.Own, FsState.OwnExcept, FsFree.FreesOnly, FsFree.LosesOnly, FsState.Addr, FsContent.Content,
        FsState.Journaled;
      ghost var s := State();
      panicked := FreeDirect(inum);
      ghost var t := State();
      if inodes[inum].addrs[NDIRECT] != 0 {
        ghost var o, l := owner, logged;
        panicked := FreeIndirect(inum);
        JournaledTransitive(s.disk, old(logged), t.disk, l, disk, logged);
        FreesOnlyTransitive(sb, s, inum, t, State());
        LosesTransitive(old(owner), inum, o, owner);
      }
      ghost var u := State();
      inodes := inodes[inum := inodes[inum].(size := 0)];
      SizeChangeKeeps(sb, u, owner, inum, State());
      ghost var v, l1 := State(), logged;
      Iupdate(inum);
      JournaledTransitive(s.disk, old(logged), v.disk, l1, disk, logged);
      Truncated(sb, s, old(owner), inum, u, v, owner, State());
      BitsFollowOwners(sb, s, old(owner), State(), owner, inum);
    }

    /** The inode case of filewrite (kernel/file.c): the request cut into transactions. A file that
        has become shorter than the offset is left alone. `most` is the largest number of blocks any
        one of the transactions logged. */
    method Filewrite(inum: nat, off: nat, n: int, src: seq<Byte>)
      returns (ret: int, off': nat, panicked: bool, ghost most: nat)
      requires Valid() && inum < sb.ninodes && off < UINT_LIMIT && n < UINT_LIMIT / 2
      modifies this
      ensures off > old(inodes)[inum].size ==>
                !panicked && State() == old(State()) && off' == off && ret == if n == 0 then 0 else -1
      ensures !panicked ==> Valid() && off <= off' && off' - off <= |src| && (ret == n || ret == -1)
      ensures !panicked && ret >= 0 ==> off' == off + n
      ensures !panicked && off <= old(inodes)[inum].size ==>
                && Content(State(), inum) == Overwrite(Content(old(State()), inum), off, src[..off' - off])
                && forall j: nat :: j < sb.ninodes && j != inum ==> Content(State(), j) == Content(old(State()), j)
      ensures !panicked && off <= old(inodes)[inum].size && 0 <= n <= |src| && off + n <= MAXFILE * BSIZE ==>
                ret == n && off' == off + n
      ensures sb.size < BPB && !panicked ==> most <= LogMachine.MAXOPBLOCKS
    {
      hide FsContent.Content, FsContent.Overwrite, Consistent, LoggedBy;
      ghost var s := State();
      var max := ((LogMachine.MAXOPBLOCKS - 1 - 1 - 2) / 2) * BSIZE;
      var i := 0;
      off', most, panicked := off, 0, false;
      ConsistentSizes(sb, s, owner, inum);
      NothingYet(sb, s, inum, off, src);
      while i < n
        invariant Shape(sb, State()) && Valid() && !panicked
        invariant 0 <= i && (n >= 0 ==> i <= n) && off' == off + i && i <= |src|
        invariant SoFar(sb, s, inum, off, src[..i], State())
        invariant sb.size < BPB ==> most <= LogMachine.MAXOPBLOCKS
        decreases n - i
      {
        var n1 := n - i;
        if n1 > max {
          n1 := max;
        }
        logged := {};
        ghost var t := State();
        var r;
        r, panicked := Writei(inum, off', n1, src[i..]);
        if panicked {
          return -1, off', true, 0;
        }
        ConsistentSizes(sb, State(), owner, inum);
        if r >= 0 {
          ChunkDone(sb, s, t, State(), owner, inum, off, src, i, r);
          if sb.size < BPB {
            ChunkBudget(sb, logged, State(), owner, inum, off', n1);
          }
        }
        most := if |logged| > most then |logged| else most;
        if r > 0 {
          off' := off' + r;
        }
        if r != n1 {
          return -1, off', false, most;
        }
        i := i + r;
      }
      ret := if i == n then n else -1;
    }
  }

  /** data has gone to file i of s at off, which gives t; past the end of the file nothing goes. */
  ghost predicate SoFar(sb: Sb, s: Fs, i: nat, off: nat, data: seq<Byte>, t: Fs)
    requires Shape(sb, s) && Shape(sb, t) && i < sb.ninodes
  {
    if off > s.inodes[i].size then data == [] && t == s
    else
      && Content(t, i) == Overwrite(Content(s, i), off, data) && off + |data| <= t.inodes[i].size
      && forall j: nat :: j < sb.ninodes && j != i ==> Content(t, j) == Content(s, j)
  }

  lemma NothingYet(sb: Sb, s: Fs, i: nat, off: nat, src: seq<Byte>)
    requires Shape(sb, s) && i < sb.ninodes
    ensures SoFar(sb, s, i, off, src[..0], s)
  {
    hide FsContent.Content;
    assert src[..0] == [];
    if off <= s.inodes[i].size {
      OverwriteNothing(Content(s, i), off);
    }
  }

  /** Only bitmap blocks were logged. */
  ghost predicate BitmapOnly(sb: Sb, l: set<nat>, l': set<nat>)
  {
    forall x :: x in l' && x !in l ==> sb.bmapstart <= x < DataStart(sb)
  }

  lemma JournaledNothing(d: seq<Block>, l: set<nat>)
    ensures Journaled(d, l, d, l)
  {
  }

  /** Slot k of inode i holds addr, allocated and zeroed if the slot was empty; blocks logged on the
      way are that block, the bitmap and the indirect block. */
  ghost predicate Slotted(sb: Sb, s: Fs, o: Owner, l: set<nat>, i: nat, k: nat, t: Fs, o': Owner, l': set<nat>,
                          addr: nat)
  {
    && Shape(sb, s)
    && Shape(sb, t)
    && i < sb.ninodes
    && k < SLOTS
    && Extends(sb, s, o, i, t, o')
    && Journaled(s.disk, l, t.disk, l')
    && Addr(t, i, k) == addr && DataStart(sb) <= addr < sb.size
    && (if Addr(s, i, k) != 0 then t == s && o' == o && l' == l else t.disk[addr] == Zeroes())
    && forall x :: x in l' && x !in l ==>
         x == addr || sb.bmapstart <= x < DataStart(sb) || (k > NDIRECT && x == t.inodes[i].addrs[NDIRECT])
  }

  /** The same for the bn-th block of a file. */
  ghost predicate Mapped(sb: Sb, s: Fs, o: Owner, l: set<nat>, i: nat, bn: nat, t: Fs, o': Owner, l': set<nat>,
                         addr: nat)
  {
    && Shape(sb, s)
    && Shape(sb, t)
    && i < sb.ninodes
    && bn < MAXFILE
    && Extends(sb, s, o, i, t, o')
    && Journaled(s.disk, l, t.disk, l')
    && Addr(t, i, Slot(bn)) == addr && DataStart(sb) <= addr < sb.size
    && (if Addr(s, i, Slot(bn)) != 0 then t == s && o' == o && l' == l else t.disk[addr] == Zeroes())
    && forall x :: x in l' && x !in l ==>
         x == addr || sb.bmapstart <= x < DataStart(sb) || 0 != x == t.inodes[i].addrs[NDIRECT]
  }

  lemma MappedDirect(sb: Sb, s: Fs, o: Owner, l: set<nat>, i: nat, bn: nat, t: Fs, o': Owner, l': set<nat>, addr: nat)
    requires bn < NDIRECT && Slotted(sb, s, o, l, i, bn, t, o', l', addr)
    ensures Mapped(sb, s, o, l, i, bn, t, o', l', addr)
  {
    hide FsState.Addr, FsContent.Extends, FsState.Journaled, Blocks.Zeroes;
  }

  /** After bmap has found or made the indirect block. */
  lemma SlottedIndirect(sb: Sb, s: Fs, o: Owner, l: set<nat>, i: nat, bn: nat, t: Fs, o': Owner, l': set<nat>, ind: nat)
    requires NDIRECT <= bn < MAXFILE && Slotted(sb, s, o, l, i, NDIRECT, t, o', l', ind)
    ensures i < |t.inodes| && |t.inodes[i].addrs| == NDIRECT + 1 && t.inodes[i].addrs[NDIRECT] == ind != 0
    ensures i < |s.inodes| && |s.inodes[i].addrs| == NDIRECT + 1 && Addr(t, i, Slot(bn)) == Addr(s, i, Slot(bn))
    ensures Addr(s, i, Slot(bn)) != 0 ==> t == s && o' == o && l' == l
  {
    hide FsState.Addr, FsContent.Extends, FsState.Journaled, Blocks.Zeroes;
    AddrOfIndirect(s, i);
    AddrOfIndirect(t, i);
    EmptyIndirect(s, t, i, bn);
  }

  lemma MappedIndirect(sb: Sb, s: Fs, o: Owner, l: set<nat>, i: nat, bn: nat, t: Fs, o1: Owner, l1: set<nat>, ind: nat,
                       u: Fs, o2: Owner, l2: set<nat>, addr: nat)
    requires NDIRECT <= bn < MAXFILE && Slotted(sb, s, o, l, i, NDIRECT, t, o1, l1, ind)
    requires Slotted(sb, t, o1, l1, i, bn + 1, u, o2, l2, addr)
    ensures Mapped(sb, s, o, l, i, bn, u, o2, l2, addr)
  {
    hide FsState.Addr, FsContent.Extends, FsState.Journaled, Blocks.Zeroes;
    SlottedIndirect(sb, s, o, l, i, bn, t, o1, l1, ind);
    AddrOfIndirect(t, i);
    AddrOfIndirect(u, i);
    ExtendsAddr(sb, t, o1, i, u, o2, NDIRECT);
    ExtendsTransitive(sb, s, o, i, t, o1, u, o2);
    JournaledTransitive(s.disk, l, t.disk, l1, u.disk, l2);
  }

  lemma BlockAt(s: Fs, i: nat, bn: nat, a: nat)
    requires i < |s.inodes| && |s.inodes[i].addrs| == NDIRECT + 1 && bn < MAXFILE && 0 < a < |s.disk|
    requires a == Addr(s, i, Slot(bn))
    ensures FileBlock(s, i, bn) == s.disk[a]
  {
    hide FsState.Addr;
  }

  lemma OverwriteNothing(c: seq<Byte>, off: nat)
    requires off <= |c|
    ensures Overwrite(c, off, []) == c
  {
  }

  /** One transaction of filewrite carries the content on. */
  lemma ChunkDone(sb: Sb, s: Fs, t: Fs, u: Fs, owner: Owner, i: nat, off: nat, src: seq<Byte>, k: nat, r: nat)
    requires Shape(sb, s) && Shape(sb, t) && Consistent(sb, u, owner) && i < sb.ninodes && k + r <= |src|
    requires SoFar(sb, s, i, off, src[..k], t) && off + k <= t.inodes[i].size
    requires Content(u, i) == Overwrite(Content(t, i), off + k, src[k..][..r])
    requires forall j: nat :: j < sb.ninodes && j != i ==> Content(u, j) == Content(t, j)
    ensures SoFar(sb, s, i, off, src[..k + r], u)
  {
    hide FsContent.Content, Consistent;
    assert src[..k] + src[k..][..r] == src[..k + r];
    OverwriteTwice(Content(s, i), off, src[..k], src[k..][..r]);
    ConsistentSizes(sb, u, owner, i);
  }

  /** A transaction of filewrite logs at most seven blocks when the bitmap is one block: four
      data blocks, the bitmap, the indirect block and the inode. */
  lemma ChunkBudget(sb: Sb, l: set<nat>, s: Fs, owner: Owner, i: nat, off: nat, n: nat)
    requires Consistent(sb, s, owner) && i < sb.ninodes && sb.size < BPB && n <= 3 * BSIZE
    requires LoggedBy(sb, {}, l - {IBlock(sb, i)}, s, i, off, n)
    ensures |l| <= 7
  {
    hide FsState.Own, FsState.OwnExcept, FsState.Addr, Consistent;
    ConsistentSizes(sb, s, owner, i);
    var first := off / BSIZE;
    var ind := s.inodes[i].addrs[NDIRECT];
    var a0 := DataAddr(s, i, first);
    var a1 := DataAddr(s, i, first + 1);
    var a2 := DataAddr(s, i, first + 2);
    var a3 := DataAddr(s, i, first + 3);
    var all := {IBlock(sb, i), sb.bmapstart, ind, a0, a1, a2, a3};
    forall x | x in l
      ensures x in all
    {
      if x != IBlock(sb, i) && !(sb.bmapstart <= x < DataStart(sb)) && x != ind {
        assert x in l - {IBlock(sb, i)};
        var bn: nat :|
          bn < MAXFILE && Touches(off, n, bn) && 0 != x == Addr(s, i, Slot(bn));
        FourBlocks(off, n, bn);
        assert x == DataAddr(s, i, bn);
      }
    }
    SevenAtMost(IBlock(sb, i), sb.bmapstart, ind, a0, a1, a2, a3);
    SubsetSize(l, all);
  }

  lemma FourBlocks(off: nat, n: nat, bn: nat)
    requires Touches(off, n, bn) && n <= 3 * BSIZE
    ensures bn <= off / BSIZE + 3
  {
  }

  function DataAddr(s: Fs, i: nat, bn: nat): nat
    requires i < |s.inodes| && |s.inodes[i].addrs| == NDIRECT + 1
  {
    if bn < MAXFILE then Addr(s, i, Slot(bn)) else 0
  }

  lemma SevenAtMost(a: nat, b: nat, c: nat, d: nat, e: nat, f: nat, g: nat)
    ensures |{a, b, c, d, e, f, g}| <= 7
  {
    assert {a, b, c, d, e, f, g} == {a, b, c} + {d, e, f, g};
    assert |{a, b, c}| <= 3 && |{d, e, f, g}| <= 4;
  }

  lemma {:induction false} SubsetSize(a: set<nat>, b: set<nat>)
    requires a <= b
    ensures |a| <= |b|
  {
    if a != {} {
      var x :| x in a;
      SubsetSize(a - {x}, b - {x});
    }
  }

  lemma ConsistentSizes(sb: Sb, s: Fs, owner: Owner, i: nat)
    requires Consistent(sb, s, owner) && i < sb.ninodes
    ensures Shape(sb, s) && s.inodes[i].size <= MAXFILE * BSIZE
  {
  }

  /** What one round of the second loop needs to know. */
  lemma EntryFreed(sb: Sb, s: Fs, owner: Owner, t: Fs, o: Owner, i: nat, k: nat)
    requires Shape(sb, s) && Shape(sb, t) && i < sb.ninodes && NDIRECT < k < SLOTS
    requires OwnExcept(sb, t, o, i, NDIRECT + 1, k) && FreesOnly(sb, s, i, t) && LosesOnly(owner, i, o)
    requires t.inodes[i].addrs[NDIRECT] != 0
    ensures t.inodes[i].addrs[NDIRECT] < sb.size
    ensures var a := Word(t.disk[t.inodes[i].addrs[NDIRECT]], k - NDIRECT - 1);
            if a == 0 then OwnExcept(sb, t, o, i, NDIRECT + 1, k + 1)
            else
              && a < sb.size && InUse(sb, t.disk, a)
              && var u := t.(disk := Mark(sb, t.disk, a, false));
              && Shape(sb, u) && OwnExcept(sb, u, o - {a}, i, NDIRECT + 1, k + 1)
              && FreesOnly(sb, s, i, u) && LosesOnly(owner, i, o - {a})
              && u.disk[t.inodes[i].addrs[NDIRECT]] == t.disk[t.inodes[i].addrs[NDIRECT]]
  {
    hide FsState.Own, FsState.OwnExcept, FsFree.FreesOnly, FsFree.LosesOnly, FsState.InUse;
    IndirectInRange(sb, t, o, i, NDIRECT + 1, k, i);
    var a := Word(t.disk[t.inodes[i].addrs[NDIRECT]], k - NDIRECT - 1);
    assert Addr(t, i, k) == a;
    if a == 0 {
      SkippedEntry(sb, t, o, i, NDIRECT + 1, k);
    } else {
      EntryIsOwned(sb, t, o, i, k);
      var u := t.(disk := Mark(sb, t.disk, a, false));
      FreedEntry(sb, t, o, i, NDIRECT + 1, k, u);
      FreesOnlyTransitive(sb, s, i, t, u);
      LosesOne(owner, i, o, a);
    }
  }

  lemma EntryIsOwned(sb: Sb, t: Fs, o: Owner, i: nat, k: nat)
    requires Shape(sb, t) && i < sb.ninodes && NDIRECT < k < SLOTS && OwnExcept(sb, t, o, i, NDIRECT + 1, k)
    requires Addr(t, i, k) != 0
    ensures Addr(t, i, k) in o && o[Addr(t, i, k)] == (i, k) && Addr(t, i, k) < sb.size
  {
  }

  lemma IndirectFreed(sb: Sb, s: Fs, owner: Owner, t: Fs, o: Owner, i: nat)
    requires Shape(sb, s) && Shape(sb, t) && i < sb.ninodes && t.inodes[i].addrs[NDIRECT] != 0
    requires OwnExcept(sb, t, o, i, NDIRECT + 1, SLOTS) && FreesOnly(sb, s, i, t) && LosesOnly(owner, i, o)
    ensures var a := t.inodes[i].addrs[NDIRECT];
            && a < sb.size && InUse(sb, t.disk, a)
            && var u := Fs(Mark(sb, t.disk, a, false),
                           t.inodes[i := t.inodes[i].(addrs := t.inodes[i].addrs[NDIRECT := 0])]);
            && Shape(sb, u) && Own(sb, u, o - {a}) && FreesOnly(sb, s, i, u) && LosesOnly(owner, i, o - {a})
  {
    hide FsState.Own, FsState.OwnExcept, FsFree.FreesOnly, FsFree.LosesOnly, FsState.Addr, FsState.InUse;
    var a := t.inodes[i].addrs[NDIRECT];
    IndirectInRange(sb, t, o, i, NDIRECT + 1, SLOTS, i);
    var u := Fs(Mark(sb, t.disk, a, false), t.inodes[i := t.inodes[i].(addrs := t.inodes[i].addrs[NDIRECT := 0])]);
    ClearedOwn(sb, t, o, i, NDIRECT + 1, SLOTS, NDIRECT, u);
    FreesOnlyTransitive(sb, s, i, t, u);
    LosesOne(owner, i, o, a);
  }

  lemma LosesTransitive(o1: Owner, i: nat, o2: Owner, o3: Owner)
    requires LosesOnly(o1, i, o2) && LosesOnly(o2, i, o3)
    ensures LosesOnly(o1, i, o3)
  {
  }

  /** The state w after all slots are clear (u), the size is 0 (v) and the inode is written. */
  lemma Truncated(sb: Sb, s: Fs, owner: Owner, i: nat, u: Fs, v: Fs, o: Owner, w: Fs)
    requires Consistent(sb, s, owner) && Shape(sb, u) && Shape(sb, v) && Own(sb, v, o) && i < sb.ninodes
    requires FreesOnly(sb, s, i, u) && LosesOnly(owner, i, o)
    requires forall k :: 0 <= k <= NDIRECT ==> u.inodes[i].addrs[k] == 0
    requires v == u.(inodes := u.inodes[i := u.inodes[i].(size := 0)])
    requires |InodeWords(v.inodes[i])| == INODE_WORDS && w == Updated(sb, v, i)
    ensures Consistent(sb, w, o) && Content(w, i) == [] && forall k: nat :: k < SLOTS ==> Addr(w, i, k) == 0
    ensures forall j: nat :: j < sb.ninodes && j != i ==> Content(w, j) == Content(s, j)
    ensures forall a :: a in o <==> a in owner && owner[a].0 != i
  {
    hide FsState.Own, FsState.OwnExcept, FsFree.FreesOnly, FsState.Addr, FsContent.Content, FsInode.ReadInode,
      FsContent.ByteAt, Updated;
    UpdatedKeeps(sb, v, o, i);
    UpdatedInodes(sb, v, i);
    NothingLeft(sb, v, o, i);
    SizedFreesOnly(sb, s, i, u, v);
    ContentFrame(sb, v, o, w, i);
    forall j: nat | j < sb.ninodes && j != i
      ensures Content(w, j) == Content(s, j) && NoHoles(w, j) && Synced(sb, w, j)
    {
      ContentFrame(sb, v, o, w, j);
      FreesOnlyOthers(sb, s, owner, i, v, j);
      assert NoHoles(s, j) && Synced(sb, s, j);
    }
    assert NoHoles(w, i);
  }

  lemma BitsFollowOwners(sb: Sb, s: Fs, owner: Owner, w: Fs, o: Owner, i: nat)
    requires Shape(sb, s) && Shape(sb, w) && Own(sb, s, owner) && Own(sb, w, o)
    requires forall a :: a in o <==> a in owner && owner[a].0 != i
    ensures forall b: nat :: b < sb.size ==>
              (InUse(sb, w.disk, b) <==> InUse(sb, s.disk, b) && !(b in owner && owner[b].0 == i))
  {
  }

  lemma SizedFreesOnly(sb: Sb, s: Fs, i: nat, u: Fs, v: Fs)
    requires Shape(sb, s) && Shape(sb, u) && Shape(sb, v) && i < sb.ninodes && FreesOnly(sb, s, i, u)
    requires v == u.(inodes := u.inodes[i := u.inodes[i].(size := 0)])
    ensures FreesOnly(sb, s, i, v)
  {
  }

  lemma FreesNothing(sb: Sb, s: Fs, owner: Owner, i: nat)
    requires Shape(sb, s) && i < sb.ninodes
    ensures FreesOnly(sb, s, i, s) && LosesOnly(owner, i, owner)
  {
  }

  /** What one round of the first loop needs to know. */
  lemma DirectFreed(sb: Sb, s: Fs, owner: Owner, t: Fs, o: Owner, i: nat, k: nat)
    requires Shape(sb, s) && Shape(sb, t) && Own(sb, t, o) && FreesOnly(sb, s, i, t) && LosesOnly(owner, i, o)
    requires i < sb.ninodes && k < NDIRECT && t.inodes[i].addrs[k] != 0
    ensures var a := t.inodes[i].addrs[k];
            && a < sb.size && InUse(sb, t.disk, a)
            && var u := Fs(Mark(sb, t.disk, a, false), t.inodes[i := t.inodes[i].(addrs := t.inodes[i].addrs[k := 0])]);
            && Shape(sb, u) && Own(sb, u, o - {a}) && FreesOnly(sb, s, i, u) && LosesOnly(owner, i, o - {a})
  {
    hide FsState.Own, FsState.OwnExcept, FsFree.FreesOnly, FsFree.LosesOnly, FsState.Addr, FsState.InUse;
    var a := t.inodes[i].addrs[k];
    AddrWithin(t, i, k);
    SlotIsOwned(sb, t, o, i, k);
    var u := Fs(Mark(sb, t.disk, a, false), t.inodes[i := t.inodes[i].(addrs := t.inodes[i].addrs[k := 0])]);
    OwnIsOwnExcept(sb, t, o, i, SLOTS);
    ClearedOwn(sb, t, o, i, SLOTS, SLOTS, k, u);
    FreesOnlyTransitive(sb, s, i, t, u);
    LosesOne(owner, i, o, a);
  }

  lemma OwnIsOwnExcept(sb: Sb, s: Fs, owner: Owner, f: nat, k: nat)
    requires Shape(sb, s)
    ensures Own(sb, s, owner) <==> OwnExcept(sb, s, owner, f, k, k)
  {
  }

  lemma WroteSizes(sb: Sb, s: Fs, i: nat, off: nat, data: seq<Byte>, t: Fs)
    requires Shape(sb, s) && Shape(sb, t) && i < sb.ninodes && Wrote(sb, s, i, off, data, t)
    ensures t.inodes[i].size == s.inodes[i].size && off + |data| <= MAXFILE * BSIZE
  {
  }

  ghost predicate Consistent(sb: Sb, s: Fs, owner: Owner)
  {
    && Shape(sb, s) && Own(sb, s, owner) && AllWhole(sb, s)
    && forall i: nat :: i < sb.ninodes ==> Synced(sb, s, i)
  }

  /** The state v after the size was adjusted (u) and the inode written back. */
  ghost predicate Finished(sb: Sb, s: Fs, i: nat, off: nat, data: seq<Byte>, t: Fs, u: Fs, owner: Owner, v: Fs)
  {
    && Shape(sb, s) && Shape(sb, t) && Shape(sb, u) && Own(sb, u, owner) && i < sb.ninodes
    && Wrote(sb, s, i, off, data, t) && off <= s.inodes[i].size
    && u == t.(inodes := t.inodes[i := t.inodes[i].(size :=
                 if off + |data| > s.inodes[i].size then off + |data| else s.inodes[i].size)])
    && |InodeWords(u.inodes[i])| == INODE_WORDS && v == Updated(sb, u, i)
  }

  lemma FinishedContent(sb: Sb, s: Fs, i: nat, off: nat, data: seq<Byte>, t: Fs, u: Fs, owner: Owner, v: Fs)
    requires Finished(sb, s, i, off, data, t, u, owner, v)
    ensures Shape(sb, v) && Own(sb, v, owner) && v.inodes == u.inodes && NoHoles(v, i)
    ensures Content(v, i) == Overwrite(Content(s, i), off, data)
    ensures forall j: nat :: j < sb.ninodes && j != i ==> Content(v, j) == Content(s, j)
    ensures forall m: nat :: m < SLOTS ==> Addr(v, i, m) == Addr(u, i, m)
  {
    hide FsState.Own, FsState.OwnExcept, FsState.Addr, FsContent.Wrote, FsContent.Content, Updated, FsContent.NoHoles;
    UpdatedKeeps(sb, u, owner, i);
    WroteContent(sb, s, i, off, data, t, u);
    UpdatedInodes(sb, u, i);
    forall j: nat | j < sb.ninodes
      ensures Content(v, j) == Content(u, j) && NoHoles(v, j) == NoHoles(u, j)
    {
      ContentFrame(sb, u, owner, v, j);
    }
  }

  lemma UpdatedInodes(sb: Sb, s: Fs, i: nat)
    requires SbOk(sb) && |s.disk| == sb.size && |s.inodes| == sb.ninodes && i < sb.ninodes
    requires |InodeWords(s.inodes[i])| == INODE_WORDS
    ensures Updated(sb, s, i).inodes == s.inodes
  {
  }

  /** The other inodes are where they were, on the disk and in memory. */
  lemma FinishedOthers(sb: Sb, s: Fs, i: nat, off: nat, data: seq<Byte>, t: Fs, u: Fs, owner: Owner, v: Fs)
    requires Finished(sb, s, i, off, data, t, u, owner, v) && AllWhole(sb, s)
    requires forall j: nat :: j < sb.ninodes ==> Synced(sb, s, j)
    ensures Shape(sb, v) && forall j: nat :: j < sb.ninodes ==> Synced(sb, v, j)
    ensures forall j: nat :: j < sb.ninodes && j != i ==> NoHoles(v, j)
  {
    hide FsState.Own, FsState.OwnExcept, FsState.Addr, FsInode.ReadInode;
    UpdatedKeeps(sb, u, owner, i);
    SizeChangeAddr(sb, t, i, u);
    forall j: nat | j < sb.ninodes && j != i
      ensures Synced(sb, v, j) && NoHoles(v, j)
    {
      assert Synced(sb, s, j) && NoHoles(s, j);
      assert t.disk[IBlock(sb, j)] == s.disk[IBlock(sb, j)];
      assert Synced(sb, u, j);
    }
  }

  lemma SizeChangeAddr(sb: Sb, t: Fs, i: nat, u: Fs)
    requires Shape(sb, t) && Shape(sb, u) && i < sb.ninodes
    requires u == t.(inodes := t.inodes[i := t.inodes[i].(size := u.inodes[i].size)])
    ensures forall j: nat, m: nat :: j < sb.ninodes && m < SLOTS ==> Addr(u, j, m) == Addr(t, j, m)
  {
    forall j: nat, m: nat | j < sb.ninodes && m < SLOTS
      ensures Addr(u, j, m) == Addr(t, j, m)
    {
    }
  }

  lemma FinishWrite(sb: Sb, s: Fs, i: nat, off: nat, data: seq<Byte>, t: Fs, u: Fs, owner: Owner, l0: set<nat>,
                    l: set<nat>, n: nat, v: Fs)
    requires Finished(sb, s, i, off, data, t, u, owner, v) && AllWhole(sb, s)
    requires forall j: nat :: j < sb.ninodes ==> Synced(sb, s, j)
    requires LoggedBy(sb, l0, l, t, i, off, n)
    ensures Shape(sb, v) && Own(sb, v, owner) && AllWhole(sb, v)
    ensures forall j: nat :: j < sb.ninodes ==> Synced(sb, v, j)
    ensures Content(v, i) == Overwrite(Content(s, i), off, data)
    ensures forall j: nat :: j < sb.ninodes && j != i ==> Content(v, j) == Content(s, j)
    ensures LoggedBy(sb, l0, l + {IBlock(sb, i)} - {IBlock(sb, i)}, v, i, off, n)
  {
    hide FsState.Own, FsState.OwnExcept, FsState.Addr, FsInode.ReadInode, FsContent.Wrote, FsContent.Content, Finished;
    FinishedContent(sb, s, i, off, data, t, u, owner, v);
    FinishedOthers(sb, s, i, off, data, t, u, owner, v);
    FinishedLogged(sb, s, i, off, data, t, u, owner, v, l0, l, n);
  }

  lemma FinishedLogged(sb: Sb, s: Fs, i: nat, off: nat, data: seq<Byte>, t: Fs, u: Fs, owner: Owner, v: Fs,
                       l0: set<nat>, l: set<nat>, n: nat)
    requires Finished(sb, s, i, off, data, t, u, owner, v) && Shape(sb, v) && LoggedBy(sb, l0, l, t, i, off, n)
    requires v.inodes == u.inodes && forall m: nat :: m < SLOTS ==> Addr(v, i, m) == Addr(u, i, m)
    ensures LoggedBy(sb, l0, l + {IBlock(sb, i)} - {IBlock(sb, i)}, v, i, off, n)
  {
    hide FsState.Own, FsState.OwnExcept, FsState.Addr, FsContent.Wrote;
    SizeChangeAddr(sb, t, i, u);
    forall x | x in l && x !in l0
      ensures || sb.bmapstart <= x < DataStart(sb) || 0 != x == v.inodes[i].addrs[NDIRECT]
              || exists bn: nat ::
                   bn < MAXFILE && Touches(off, n, bn) && 0 != x == Addr(v, i, Slot(bn))
    {
      if !(sb.bmapstart <= x < DataStart(sb)) && !(0 != x == t.inodes[i].addrs[NDIRECT]) {
        var bn: nat :|
          bn < MAXFILE && Touches(off, n, bn) && 0 != x == Addr(t, i, Slot(bn));
        assert Addr(v, i, Slot(bn)) == x;
      }
    }
  }

  lemma SizeChangeKeeps(sb: Sb, t: Fs, owner: Owner, i: nat, u: Fs)
    requires Shape(sb, t) && Own(sb, t, owner) && i < sb.ninodes && |u.inodes| == sb.ninodes
    requires u.inodes[i].size <= MAXFILE * BSIZE
    requires u == t.(inodes := t.inodes[i := t.inodes[i].(size := u.inodes[i].size)])
    ensures Shape(sb, u) && Own(sb, u, owner)
    ensures forall j: nat, m: nat :: j < sb.ninodes && m < SLOTS ==> Addr(u, j, m) == Addr(t, j, m)
  {
    forall j: nat, m: nat | j < sb.ninodes && m < SLOTS
      ensures Addr(u, j, m) == Addr(t, j, m)
    {
    }
  }

  /** The bytes off..off+n of a file reach into its bn-th block. */
  ghost predicate Touches(off: nat, n: nat, bn: nat)
  {
    off / BSIZE <= bn && bn * BSIZE < off + n
  }

  /** Every block logged is in the bitmap, the file's indirect block, or a data block of the
      file that the range off..off+n touches. */
  ghost predicate LoggedBy(sb: Sb, before: set<nat>, after: set<nat>, s: Fs, i: nat, off: nat, n: nat)
    requires Shape(sb, s) && i < sb.ninodes
  {
    forall x :: x in after && x !in before ==>
      || sb.bmapstart <= x < DataStart(sb) || 0 != x == s.inodes[i].addrs[NDIRECT]
      || exists bn: nat :: bn < MAXFILE && Touches(off, n, bn) && 0 != x == Addr(s, i, Slot(bn))
  }

  lemma GrewLogged(sb: Sb, l0: set<nat>, l: set<nat>, l': set<nat>, t: Fs, o: Owner, u: Fs, o': Owner, i: nat, off: nat,
                   n: nat, pos: nat, addr: nat)
    requires Shape(sb, t) && Shape(sb, u) && Extends(sb, t, o, i, u, o') && LoggedBy(sb, l0, l, t, i, off, n)
    requires off <= pos < off + n && pos / BSIZE < MAXFILE && 0 != addr == Addr(u, i, Slot(pos / BSIZE))
    requires forall x :: x in l' && x !in l ==>
               x == addr || sb.bmapstart <= x < DataStart(sb) || 0 != x == u.inodes[i].addrs[NDIRECT]
    ensures LoggedBy(sb, l0, l', u, i, off, n)
  {
    AddrOfIndirect(t, i);
    AddrOfIndirect(u, i);
    assert Touches(off, n, pos / BSIZE);
    hide Touches;
    forall x | x in l' && x !in l0
      ensures || sb.bmapstart <= x < DataStart(sb) || 0 != x == u.inodes[i].addrs[NDIRECT]
              || exists bn: nat ::
                   bn < MAXFILE && Touches(off, n, bn) && 0 != x == Addr(u, i, Slot(bn))
    {
      if x in l && !(sb.bmapstart <= x < DataStart(sb)) && !(0 != x == t.inodes[i].addrs[NDIRECT]) {
        var bn: nat :|
          bn < MAXFILE && Touches(off, n, bn) && 0 != x == Addr(t, i, Slot(bn));
        assert Addr(u, i, Slot(bn)) == x;
      }
    }
  }

  lemma PatchLogged(sb: Sb, l0: set<nat>, l: set<nat>, u: Fs, v: Fs, i: nat, off: nat, n: nat, pos: nat, addr: nat)
    requires Shape(sb, u) && Shape(sb, v) && i < sb.ninodes && LoggedBy(sb, l0, l, u, i, off, n)
    requires off <= pos < off + n && pos / BSIZE < MAXFILE && 0 != addr == Addr(u, i, Slot(pos / BSIZE))
    requires v.inodes == u.inodes && forall m: nat :: m < SLOTS ==> Addr(v, i, m) == Addr(u, i, m)
    ensures LoggedBy(sb, l0, l + {addr}, v, i, off, n)
  {
    assert Touches(off, n, pos / BSIZE);
    hide Touches;
    forall x | x in l + {addr} && x !in l0
      ensures || sb.bmapstart <= x < DataStart(sb) || 0 != x == v.inodes[i].addrs[NDIRECT]
              || exists bn: nat ::
                   bn < MAXFILE && Touches(off, n, bn) && 0 != x == Addr(v, i, Slot(bn))
    {
      if x == addr {
        assert Addr(v, i, Slot(pos / BSIZE)) == addr;
      } else if !(sb.bmapstart <= x < DataStart(sb)) && !(0 != x == u.inodes[i].addrs[NDIRECT]) {
        var bn: nat :|
          bn < MAXFILE && Touches(off, n, bn) && 0 != x == Addr(u, i, Slot(bn));
        assert Addr(v, i, Slot(bn)) == x;
      }
    }
  }

  /** writei has put data at off in file i of s, from logged blocks l0 to l. */
  ghost predicate Writing(sb: Sb, s: Fs, l0: set<nat>, i: nat, off: nat, n: nat, data: seq<Byte>, t: Fs, owner: Owner,
                          l: set<nat>)
  {
    && Shape(sb, s) && Shape(sb, t) && Own(sb, t, owner) && i < sb.ninodes
    && Wrote(sb, s, i, off, data, t) && LoggedBy(sb, l0, l, t, i, off, n) && Journaled(s.disk, l0, t.disk, l)
  }

  lemma WritingIn(sb: Sb, s: Fs, l0: set<nat>, i: nat, off: nat, n: nat, data: seq<Byte>, t: Fs, owner: Owner,
                  l: set<nat>)
    requires Writing(sb, s, l0, i, off, n, data, t, owner, l)
    ensures Shape(sb, s) && Shape(sb, t) && Own(sb, t, owner) && i < sb.ninodes
    ensures Wrote(sb, s, i, off, data, t) && LoggedBy(sb, l0, l, t, i, off, n) && Journaled(s.disk, l0, t.disk, l)
  {
  }

  lemma WritingNothing(sb: Sb, s: Fs, l: set<nat>, i: nat, off: nat, n: nat, owner: Owner)
    requires Shape(sb, s) && Own(sb, s, owner) && i < sb.ninodes && NoHoles(s, i) && off <= s.inodes[i].size
    ensures Writing(sb, s, l, i, off, n, [], s, owner, l)
  {
    hide FsState.Own, FsState.OwnExcept, FsState.Addr, FsContent.Wrote, LoggedBy, FsState.Journaled, FsContent.NoHoles;
    WroteNothing(sb, s, i, off);
    NothingLogged(sb, l, s, i, off, n);
    JournaledNothing(s.disk, l);
  }

  lemma WritingGrew(sb: Sb, s: Fs, l0: set<nat>, i: nat, off: nat, n: nat, data: seq<Byte>, t: Fs, o: Owner,
                    l: set<nat>, u: Fs, o': Owner, l': set<nat>, pos: nat, addr: nat)
    requires off <= pos < off + n && Writing(sb, s, l0, i, off, n, data, t, o, l)
    requires Mapped(sb, t, o, l, i, pos / BSIZE, u, o', l', addr) && Shape(sb, u) && Own(sb, u, o')
    ensures Writing(sb, s, l0, i, off, n, data, u, o', l')
    ensures pos / BSIZE < MAXFILE && 0 < addr == Addr(u, i, Slot(pos / BSIZE)) && addr < sb.size
  {
    hide FsState.Own, FsState.OwnExcept, FsState.Addr, FsContent.Extends, FsContent.Wrote, LoggedBy, FsState.Journaled;
    WroteThenGrew(sb, s, i, off, data, t, o, u, o');
    GrewLogged(sb, l0, l, l', t, o, u, o', i, off, n, pos, addr);
    JournaledTransitive(s.disk, l0, t.disk, l, u.disk, l');
  }

  lemma WritingPatched(sb: Sb, s: Fs, l0: set<nat>, i: nat, off: nat, n: nat, src: seq<Byte>, tot: nat, m: nat, u: Fs,
                       owner: Owner, l: set<nat>, a: nat, v: Fs)
    requires tot + m <= |src| && a < |u.disk| && 0 < m <= BSIZE - (off + tot) % BSIZE && tot + m <= n
    requires off + n <= MAXFILE * BSIZE
    requires v == u.(disk := u.disk[a := Patched(u.disk[a], (off + tot) % BSIZE, src[tot..tot + m])])
    requires Writing(sb, s, l0, i, off, n, src[..tot], u, owner, l)
    requires Shape(sb, u) && i < sb.ninodes && (off + tot) / BSIZE < MAXFILE
    requires 0 < a == Addr(u, i, Slot((off + tot) / BSIZE))
    ensures Writing(sb, s, l0, i, off, n, src[..tot + m], v, owner, l + {a})
  {
    hide FsState.Own, FsState.OwnExcept, FsState.Addr, FsContent.Wrote, LoggedBy, FsState.Journaled, FsContent.Patched;
    var pos := off + tot;
    WroteChunk(sb, s, i, off, src[..tot], u, owner, src[tot..tot + m], v);
    assert src[..tot] + src[tot..tot + m] == src[..tot + m];
    SlotIsOwned(sb, u, owner, i, Slot(pos / BSIZE));
    BlockWriteKeeps(sb, u, owner, a, v.disk[a], v);
    PatchLogged(sb, l0, l, u, v, i, off, n, pos, a);
    JournaledWrite(u.disk, l, a, v.disk[a]);
    JournaledTransitive(s.disk, l0, u.disk, l, v.disk, l + {a});
  }

  lemma NothingLogged(sb: Sb, l: set<nat>, s: Fs, i: nat, off: nat, n: nat)
    requires Shape(sb, s) && i < sb.ninodes
    ensures LoggedBy(sb, l, l, s, i, off, n)
  {
  }

  /** A freshly allocated indirect block lists nothing. */
  lemma EmptyIndirect(s: Fs, t: Fs, i: nat, bn: nat)
    requires i < |s.inodes| == |t.inodes| && |s.inodes[i].addrs| == |t.inodes[i].addrs| == NDIRECT + 1
    requires NDIRECT <= bn < MAXFILE && 0 < t.inodes[i].addrs[NDIRECT] < |t.disk|
    requires if s.inodes[i].addrs[NDIRECT] == 0 then t.disk[t.inodes[i].addrs[NDIRECT]] == Zeroes() else t == s
    ensures Addr(t, i, Slot(bn)) == Addr(s, i, Slot(bn))
    ensures s.inodes[i].addrs[NDIRECT] == 0 ==> Addr(s, i, Slot(bn)) == 0
  {
    WordOfZeroes(bn - NDIRECT);
  }
}
