/** The file system of kernel/fs.c across crashes: what the log of kernel/log.c recovers is a
    consistent file system, if the operations took one to another.
 */
module CrashFs {
  import opened Blocks
  import opened LogMachine
  import opened LogCrash
  import opened LogSpace
  import FsState
  import FsContent
  import FsInode
  import FS = FileSystem

  // ---------------------------------------------------------------- a consistent file system on a disk

  /** The inodes as the disk has them. */
  function InodesOf(sb: FsState.Sb, d: Disk): (r: seq<FsState.Inode>)
    requires FsState.SbOk(sb) && |d| == sb.size
    ensures |r| == sb.ninodes
    ensures forall i: nat :: i < sb.ninodes ==>
              r[i] == FsInode.ReadInode(d[FsInode.IBlock(sb, i)], FsInode.FirstWord(i))
  {
    seq(sb.ninodes, i requires 0 <= i < sb.ninodes => FsInode.ReadInode(d[FsInode.IBlock(sb, i)], FsInode.FirstWord(i)))
  }

  ghost predicate Intact(sb: FsState.Sb, d: Disk)
  {
    FsState.SbOk(sb) && |d| == sb.size && exists owner :: FS.Consistent(sb, FsState.Fs(d, InodesOf(sb, d)), owner)
  }

  lemma ConsistentIsIntact(sb: FsState.Sb, d: Disk, inodes: seq<FsState.Inode>, owner: FsState.Owner)
    requires FS.Consistent(sb, FsState.Fs(d, inodes), owner)
    ensures Intact(sb, d)
  {
    hide FsInode.ReadInode, FsState.Own, FsState.OwnExcept, FsContent.AllWhole;
    var s := FsState.Fs(d, inodes);
    forall i: nat | i < sb.ninodes
      ensures inodes[i] == InodesOf(sb, d)[i]
    {
      assert FsInode.Synced(sb, s, i);
    }
    assert inodes == InodesOf(sb, d);
  }

  lemma SameAddr(sb: FsState.Sb, s: FsState.Fs, owner: FsState.Owner, t: FsState.Fs, i: nat, k: nat)
    requires FsState.Shape(sb, s) && FsState.Own(sb, s, owner) && FsState.Shape(sb, t) && t.inodes == s.inodes
    requires forall b: nat :: sb.inodestart <= b < sb.size ==> t.disk[b] == s.disk[b]
    requires i < sb.ninodes && k < FsState.SLOTS
    ensures FsState.Addr(t, i, k) == FsState.Addr(s, i, k)
  {
    hide FsState.Own, FsState.OwnExcept;
    if k > FsState.NDIRECT && s.inodes[i].addrs[FsState.NDIRECT] != 0 {
      FsState.IndirectIsOwned(sb, s, owner, i);
    }
  }

  lemma OwnFrame(sb: FsState.Sb, s: FsState.Fs, owner: FsState.Owner, t: FsState.Fs)
    requires FsState.Shape(sb, s) && FsState.Own(sb, s, owner) && FsState.Shape(sb, t) && t.inodes == s.inodes
    requires forall b: nat :: sb.inodestart <= b < sb.size ==> t.disk[b] == s.disk[b]
    ensures FsState.Own(sb, t, owner)
  {
    hide FsState.Addr, Blocks.Bit;
    forall i: nat, k: nat | i < sb.ninodes && k < FsState.SLOTS
      ensures FsState.Addr(t, i, k) == FsState.Addr(s, i, k)
    {
      SameAddr(sb, s, owner, t, i, k);
    }
    forall b: nat | b < sb.size
      ensures FsState.InUse(sb, t.disk, b) == FsState.InUse(sb, s.disk, b)
    {
    }
  }

  /** Blocks before the inodes do not matter: boot block, superblock and log. */
  lemma IntactFrame(sb: FsState.Sb, d: Disk, d': Disk)
    requires Intact(sb, d) && |d'| == |d| && forall b: nat :: sb.inodestart <= b < sb.size ==> d'[b] == d[b]
    ensures Intact(sb, d')
  {
    hide FsInode.ReadInode, FsState.Own, FsState.OwnExcept, FsState.Addr;
    assert InodesOf(sb, d') == InodesOf(sb, d);
    var s, t := FsState.Fs(d, InodesOf(sb, d)), FsState.Fs(d', InodesOf(sb, d));
    var owner :| FS.Consistent(sb, s, owner);
    OwnFrame(sb, s, owner, t);
    forall i: nat | i < sb.ninodes
      ensures FsContent.NoHoles(t, i) && FsInode.Synced(sb, t, i)
    {
      assert FsContent.NoHoles(s, i) && FsInode.Synced(sb, s, i);
      forall k: nat | k < FsState.SLOTS
        ensures FsState.Addr(t, i, k) == FsState.Addr(s, i, k)
      {
        SameAddr(sb, s, owner, t, i, k);
      }
    }
    assert FS.Consistent(sb, t, owner);
  }

  // ---------------------------------------------------------------- operations in order

  function Flat(parts: seq<seq<Update>>): seq<Update>
  {
    if parts == [] then [] else parts[0] + Flat(parts[1..])
  }

  lemma {:induction false} ReplayConcat(d: Disk, a: seq<Update>, b: seq<Update>)
    ensures Replay(d, a + b) == Replay(Replay(d, a), b)
  {
    if b == [] {
      assert a + b == a;
    } else {
      var n := |b| - 1;
      assert (a + b)[..|a + b| - 1] == a + b[..n];
      ReplayConcat(d, a, b[..n]);
    }
  }

  /** The parts, one after the other from d on, each take an intact file system to an intact one. */
  ghost predicate Serial(sb: FsState.Sb, d: Disk, parts: seq<seq<Update>>)
    decreases parts
  {
    parts == [] ||
    ((Intact(sb, d) ==> Intact(sb, Replay(d, parts[0]))) && Serial(sb, Replay(d, parts[0]), parts[1..]))
  }

  lemma {:induction false} SerialIntact(sb: FsState.Sb, d: Disk, parts: seq<seq<Update>>)
    requires Intact(sb, d) && Serial(sb, d, parts)
    ensures Intact(sb, Replay(d, Flat(parts)))
    decreases parts
  {
    hide Intact;
    if parts != [] {
      SerialIntact(sb, Replay(d, parts[0]), parts[1..]);
      ReplayConcat(d, parts[0], Flat(parts[1..]));
    }
  }

  /** The operations of a group, taken one after the other, keep the file system intact. */
  ghost predicate GroupOk(sb: FsState.Sb, d: Disk, g: Group)
  {
    exists parts :: Flat(parts) == g.updates && Serial(sb, d, parts)
  }

  ghost predicate GroupsOk(sb: FsState.Sb, base: Disk, gs: seq<Group>)
  {
    forall k :: 0 <= k < |gs| ==> GroupOk(sb, ReplayGroups(base, gs[..k]), gs[k])
  }

  lemma {:induction false} GroupsIntact(sb: FsState.Sb, base: Disk, gs: seq<Group>)
    requires Intact(sb, base) && GroupsOk(sb, base, gs)
    ensures Intact(sb, ReplayGroups(base, gs))
  {
    hide Intact, Serial;
    if gs != [] {
      var n := |gs| - 1;
      forall k | 0 <= k < n
        ensures GroupOk(sb, ReplayGroups(base, gs[..n][..k]), gs[..n][k])
      {
        assert gs[..n][..k] == gs[..k];
        assert GroupOk(sb, ReplayGroups(base, gs[..k]), gs[k]);
      }
      GroupsIntact(sb, base, gs[..n]);
      assert GroupOk(sb, ReplayGroups(base, gs[..n]), gs[n]);
      var parts :| Flat(parts) == gs[n].updates && Serial(sb, ReplayGroups(base, gs[..n]), parts);
      SerialIntact(sb, ReplayGroups(base, gs[..n]), parts);
    }
  }

  // ---------------------------------------------------------------- crashes

  /** The log lies before the inodes, on the same device. */
  ghost predicate Above(c: Config, sb: FsState.Sb)
  {
    c.blocks == sb.size && c.start + c.size <= sb.inodestart
  }

  /** The disk once a crash now has been recovered from. */
  function AfterCrash(c: Config, d: Disk): (r: Disk)
    requires DiskOk(c, d)
    ensures |r| == c.blocks && forall b: nat :: b < c.blocks ==> r[b] == if Home(c, b) then Recovered(c, d, b) else d[b]
  {
    seq(c.blocks, b requires 0 <= b < c.blocks => if Home(c, b) then Recovered(c, d, b) else d[b])
  }

  /** In every state of every run, crashes included: if the operations of every committed group keep
      the file system intact, a crash now and recovery leave it intact. */
  lemma CrashKeepsIntact(c: Config, sb: FsState.Sb, s0: State, steps: seq<Step>)
    requires Init(c, s0) && IsRun(c, s0, steps) && Above(c, sb) && Intact(sb, s0.base)
    requires GroupsOk(sb, s0.base, Final(c, s0, steps).groups)
    ensures Shape(c, Final(c, s0, steps)) && Intact(sb, AfterCrash(c, Final(c, s0, steps).disk))
  {
    hide Intact, IsRun, Init, GroupsOk;
    GroupCommit(c, s0, steps);
    GroupsArePrefix(c, s0, steps);
    var s := Final(c, s0, steps);
    GroupsIntact(sb, s0.base, s.groups);
    IntactSize(sb, s0.base);
    IntactFrame(sb, ReplayGroups(s0.base, s.groups), AfterCrash(c, s.disk));
  }

  lemma IntactSize(sb: FsState.Sb, d: Disk)
    requires Intact(sb, d)
    ensures |d| == sb.size
  {
  }

  /** Whenever nothing is logged that has not been committed, what the cache shows is intact: after
      recovery as much as after any commit. */
  lemma IdleIsIntact(c: Config, sb: FsState.Sb, s0: State, steps: seq<Step>)
    requires Init(c, s0) && IsRun(c, s0, steps) && Above(c, sb) && Intact(sb, s0.base)
    requires var s := Final(c, s0, steps); s.phase.Running? && s.current == [] && GroupsOk(sb, s0.base, s.groups)
    ensures Intact(sb, Final(c, s0, steps).mem)
  {
    hide Intact, IsRun, Init, GroupsOk;
    InitInv(c, s0);
    RunInv(c, s0, steps);
    GroupsArePrefix(c, s0, steps);
    var s := Final(c, s0, steps);
    GroupsIntact(sb, s0.base, s.groups);
    IntactSize(sb, s0.base);
    IdleShows(c, s);
    IntactFrame(sb, ReplayGroups(s0.base, s.groups), s.mem);
  }

  lemma IdleShows(c: Config, s: State)
    requires Inv(c, s) && s.phase.Running? && s.current == []
    ensures |s.mem| == c.blocks && forall b: nat :: Home(c, b) ==> s.mem[b] == ReplayGroups(s.base, s.groups)[b]
  {
    hide LogCrash.Durable, LogCrash.Whole, LogCrash.GroupsWhole;
  }

  // ---------------------------------------------------------------- operations of the file system

  /** A request that a system call makes between begin_op and end_op: a chunk of filewrite, or
      itrunc. */
  datatype Request = Put(inum: nat, off: nat, src: seq<Byte>) | Truncate(inum: nat)

  ghost predicate Sensible(sb: FsState.Sb, r: Request)
  {
    r.inum < sb.ninodes && (r.Put? ==> r.off < UINT_LIMIT && |r.src| <= 3 * BSIZE)
  }

  ghost function Listing(s: set<nat>): (r: seq<nat>)
    ensures (forall b :: b in r <==> b in s) && forall i :: 0 <= i < |r| ==> r[i] in s
  {
    if s == {} then [] else var x :| x in s; Listing(s - {x}) + [x]
  }

  /** One logged write for each of the blocks, with its content on d. */
  function UpdatesFor(op: OpId, bs: seq<nat>, d: Disk): (us: seq<Update>)
    requires forall i :: 0 <= i < |bs| ==> bs[i] < |d|
    ensures forall u :: u in us ==> u.op == op && u.blockno in bs
  {
    if bs == [] then [] else
      var n := |bs| - 1;
      UpdatesFor(op, bs[..n], d) + [Update(op, bs[n], d[bs[n]])]
  }

  lemma {:induction false} ReplayUpdates(d: Disk, d': Disk, op: OpId, bs: seq<nat>, b: nat)
    requires |d'| == |d| && b < |d| && forall i :: 0 <= i < |bs| ==> bs[i] < |d|
    ensures Replay(d, UpdatesFor(op, bs, d'))[b] == if b in bs then d'[b] else d[b]
  {
    if bs != [] {
      var n := |bs| - 1;
      var us := UpdatesFor(op, bs[..n], d');
      ReplayUpdates(d, d', op, bs[..n], b);
      ReplaySnoc(d, us, Update(op, bs[n], d'[bs[n]]));
      assert b in bs <==> b in bs[..n] || b == bs[n];
    }
  }

  /** Writing what was logged, as it ended up, is what the operation did. */
  lemma LoggedIsAll(d: Disk, d': Disk, l: set<nat>, op: OpId)
    requires FsState.Journaled(d, {}, d', l) && forall b :: b in l ==> b < |d|
    ensures Replay(d, UpdatesFor(op, Listing(l), d')) == d'
  {
    hide UpdatesFor, Listing;
    var r := Replay(d, UpdatesFor(op, Listing(l), d'));
    forall b: nat | b < |d|
      ensures r[b] == d'[b]
    {
      ReplayUpdates(d, d', op, Listing(l), b);
    }
  }

  lemma BlocksOfUpdates(op: OpId, l: set<nat>, d: Disk)
    requires forall b :: b in l ==> b < |d|
    ensures |BlocksOf(UpdatesFor(op, Listing(l), d))| <= |l|
  {
    hide UpdatesFor, Listing;
    FS.SubsetSize(BlocksOf(UpdatesFor(op, Listing(l), d)), l);
  }

  /** What writei logs lies in the inode area, the bitmap and the data area. */
  lemma WriteInRange(sb: FsState.Sb, s: FsState.Fs, owner: FsState.Owner, i: nat, off: nat, n: nat, l: set<nat>, b: nat)
    requires FS.Consistent(sb, s, owner) && i < sb.ninodes && b in l
    requires FS.LoggedBy(sb, {}, l - {FsInode.IBlock(sb, i)}, s, i, off, n)
    ensures sb.inodestart <= b < sb.size
  {
    hide FsState.Own, FsState.OwnExcept, FsState.Addr, FsContent.AllWhole, FsInode.Synced, FsState.InodeOk,
      FsState.Slot, FS.Touches;
    if b != FsInode.IBlock(sb, i) && !(sb.bmapstart <= b < FsState.DataStart(sb)) {
      assert b in l - {FsInode.IBlock(sb, i)} && b !in {};
      ShapeAddrs(sb, s, i);
      if b != 0 && b == s.inodes[i].addrs[FsState.NDIRECT] {
        FsState.IndirectIsOwned(sb, s, owner, i);
      } else {
        var bn: nat :| bn < FsState.MAXFILE && FS.Touches(off, n, bn)
                       && 0 != b == FsState.Addr(s, i, FsState.Slot(bn));
        FsState.SlotIsOwned(sb, s, owner, i, FsState.Slot(bn));
      }
    }
  }

  lemma ShapeAddrs(sb: FsState.Sb, s: FsState.Fs, i: nat)
    requires FsState.Shape(sb, s) && i < sb.ninodes
    ensures |s.inodes[i].addrs| == FsState.NDIRECT + 1
  {
  }

  lemma TruncateInRange(sb: FsState.Sb, i: nat, l: set<nat>)
    requires FsState.SbOk(sb) && i < sb.ninodes && FS.BitmapOnly(sb, {}, l - {FsInode.IBlock(sb, i)})
    ensures forall b :: b in l ==> sb.inodestart <= b < sb.size
    ensures sb.size < FsState.BPB ==> |l| <= 2
  {
    forall b | b in l
      ensures sb.inodestart <= b < sb.size
      ensures sb.size < FsState.BPB ==> b in {FsInode.IBlock(sb, i), sb.bmapstart}
    {
      assert b == FsInode.IBlock(sb, i) || b in l - {FsInode.IBlock(sb, i)};
    }
    if sb.size < FsState.BPB {
      FS.SubsetSize(l, {FsInode.IBlock(sb, i), sb.bmapstart});
    }
  }

  /** An operation of the file system and the writes it logged: replayed, they are all it did to the
      disk; they stay out of the log's own blocks; and with one bitmap block they keep within the
      promise made to begin_op. */
  method Transact(fs: FS.FileSystem, ghost op: OpId, r: Request) returns (panicked: bool, ghost us: seq<Update>)
    requires fs.Valid() && Sensible(fs.sb, r)
    modifies fs
    ensures !panicked ==> fs.Valid() && Replay(old(fs.disk), us) == fs.disk
    ensures !panicked ==> forall u :: u in us ==> u.op == op && fs.sb.inodestart <= u.blockno < fs.sb.size
    ensures !panicked && fs.sb.size < FsState.BPB ==> |BlocksOf(us)| <= MAXOPBLOCKS
  {
    hide FsState.Journaled, FS.LoggedBy, FsContent.Content, FS.Consistent, UpdatesFor, Listing, FsState.Addr, Replay;
    ghost var d := fs.disk;
    FS.ConsistentSizes(fs.sb, fs.State(), fs.owner, r.inum);
    fs.logged := {};
    match r {
    case Put(inum, off, src) =>
      var ret;
      ret, panicked := fs.Writei(inum, off, |src|, src);
      if panicked {
        return true, [];
      }
      FS.ConsistentSizes(fs.sb, fs.State(), fs.owner, inum);
      PutLogged(fs.sb, fs.State(), fs.owner, inum, off, |src|, fs.logged);
    case Truncate(inum) =>
      panicked := fs.Itrunc(inum);
      FS.ConsistentSizes(fs.sb, fs.State(), fs.owner, inum);
      TruncateInRange(fs.sb, inum, fs.logged);
    }
    JournaledSize(d, fs.disk, fs.logged);
    us := UpdatesFor(op, Listing(fs.logged), fs.disk);
    LoggedIsAll(d, fs.disk, fs.logged, op);
    BlocksOfUpdates(op, fs.logged, fs.disk);
  }

  lemma JournaledSize(d: Disk, d': Disk, l: set<nat>)
    requires FsState.Journaled(d, {}, d', l)
    ensures |d'| == |d|
  {
  }

  /** A chunk of filewrite logs at most seven blocks, none of them the log's. */
  lemma PutLogged(sb: FsState.Sb, s: FsState.Fs, owner: FsState.Owner, i: nat, off: nat, n: nat, l: set<nat>)
    requires FS.Consistent(sb, s, owner) && FsState.Shape(sb, s) && i < sb.ninodes && n <= 3 * BSIZE
    requires l == {} || FS.LoggedBy(sb, {}, l - {FsInode.IBlock(sb, i)}, s, i, off, n)
    ensures forall b :: b in l ==> sb.inodestart <= b < sb.size
    ensures sb.size < FsState.BPB ==> |l| <= 7
  {
    hide FS.Consistent, FS.LoggedBy;
    forall b | b in l
      ensures sb.inodestart <= b < sb.size
    {
      WriteInRange(sb, s, owner, i, off, n, l, b);
    }
    if l != {} && sb.size < FsState.BPB {
      FS.ChunkBudget(sb, l, s, owner, i, off, n);
    }
  }

  lemma {:induction false} FlatSnoc(parts: seq<seq<Update>>, us: seq<Update>)
    ensures Flat(parts + [us]) == Flat(parts) + us
  {
    if parts == [] {
      assert parts + [us] == [us];
    } else {
      assert (parts + [us])[1..] == parts[1..] + [us];
      FlatSnoc(parts[1..], us);
    }
  }

  lemma {:induction false} SerialSnoc(sb: FsState.Sb, d: Disk, parts: seq<seq<Update>>, us: seq<Update>)
    requires Serial(sb, d, parts)
    requires Intact(sb, Replay(d, Flat(parts))) ==> Intact(sb, Replay(Replay(d, Flat(parts)), us))
    ensures Serial(sb, d, parts + [us])
    decreases parts
  {
    hide Intact;
    if parts == [] {
      assert (parts + [us])[1..] == [];
    } else {
      assert (parts + [us])[1..] == parts[1..] + [us];
      ReplayConcat(d, parts[0], Flat(parts[1..]));
      SerialSnoc(sb, Replay(d, parts[0]), parts[1..], us);
    }
  }

  /** Requests served one after the other: what they log is the kind of run of operations that
      CrashKeepsIntact asks for, and replaying it gives the disk they left. */
  method Serve(fs: FS.FileSystem, rs: seq<Request>) returns (panicked: bool, ghost parts: seq<seq<Update>>)
    requires fs.Valid() && forall i :: 0 <= i < |rs| ==> Sensible(fs.sb, rs[i])
    modifies fs
    ensures !panicked ==> fs.Valid() && |parts| == |rs| && Serial(fs.sb, old(fs.disk), parts)
    ensures !panicked ==> Replay(old(fs.disk), Flat(parts)) == fs.disk && Intact(fs.sb, fs.disk)
    ensures !panicked && fs.sb.size < FsState.BPB ==>
              forall i :: 0 <= i < |parts| ==> |BlocksOf(parts[i])| <= MAXOPBLOCKS
  {
    hide FS.Consistent, Intact, Sensible, BlocksOf;
    var i := 0;
    parts, panicked := [], false;
    ConsistentIsIntact(fs.sb, fs.disk, fs.inodes, fs.owner);
    while i < |rs|
      invariant i <= |rs| && !panicked && fs.Valid() && |parts| == i && Serial(fs.sb, old(fs.disk), parts)
      invariant Replay(old(fs.disk), Flat(parts)) == fs.disk && Intact(fs.sb, fs.disk)
      invariant fs.sb.size < FsState.BPB ==> forall j :: 0 <= j < i ==> |BlocksOf(parts[j])| <= MAXOPBLOCKS
    {
      ghost var d, us := fs.disk, [];
      panicked, us := Transact(fs, i, rs[i]);
      if panicked {
        return;
      }
      ConsistentIsIntact(fs.sb, fs.disk, fs.inodes, fs.owner);
      SerialSnoc(fs.sb, old(fs.disk), parts, us);
      FlatSnoc(parts, us);
      ReplayConcat(old(fs.disk), Flat(parts), us);
      parts := parts + [us];
      i := i + 1;
    }
  }

  lemma {:induction false} SerialSplit(sb: FsState.Sb, d: Disk, parts: seq<seq<Update>>, k: nat)
    requires Serial(sb, d, parts) && k <= |parts|
    ensures Serial(sb, d, parts[..k]) && Serial(sb, Replay(d, Flat(parts[..k])), parts[k..])
    decreases parts
  {
    hide Intact;
    if k == 0 {
      assert parts[..0] == [] && parts[0..] == parts;
    } else {
      var p := parts[1..];
      SerialSplit(sb, Replay(d, parts[0]), p, k - 1);
      assert parts[..k] == [parts[0]] + p[..k - 1] && parts[..k][1..] == p[..k - 1] && parts[k..] == p[k - 1..];
      ReplayConcat(d, parts[0], Flat(p[..k - 1]));
    }
  }

  /** The groups are the parts in order, each group some whole parts: cuts[k] parts are in the
      first k groups. */
  ghost predicate Grouped(gs: seq<Group>, parts: seq<seq<Update>>, cuts: seq<nat>)
  {
    && |cuts| == |gs| + 1 && cuts[0] == 0
    && forall k :: 0 <= k < |gs| ==> CutOf(gs[k], parts, cuts, k)
  }

  ghost predicate CutOf(g: Group, parts: seq<seq<Update>>, cuts: seq<nat>, k: nat)
    requires k + 1 < |cuts|
  {
    cuts[k] <= cuts[k + 1] <= |parts| && g.updates == Flat(parts[cuts[k]..cuts[k + 1]])
  }

  lemma {:induction false} FlatConcat(a: seq<seq<Update>>, b: seq<seq<Update>>)
    ensures Flat(a + b) == Flat(a) + Flat(b)
  {
    if a == [] {
      assert a + b == b;
    } else {
      assert (a + b)[1..] == a[1..] + b;
      FlatConcat(a[1..], b);
    }
  }

  /** The state after the first k groups is the state after the requests in them. */
  lemma {:induction false} GroupedReplay(base: Disk, gs: seq<Group>, parts: seq<seq<Update>>, cuts: seq<nat>, k: nat)
    requires Grouped(gs, parts, cuts) && k <= |gs|
    ensures cuts[k] <= |parts| && ReplayGroups(base, gs[..k]) == Replay(base, Flat(parts[..cuts[k]]))
  {
    if k > 0 {
      GroupedReplay(base, gs, parts, cuts, k - 1);
      assert CutOf(gs[k - 1], parts, cuts, k - 1);
      var a, b := cuts[k - 1], cuts[k];
      assert gs[..k][..k - 1] == gs[..k - 1];
      assert parts[..b] == parts[..a] + parts[a..b];
      FlatConcat(parts[..a], parts[a..b]);
      ReplayConcat(base, Flat(parts[..a]), Flat(parts[a..b]));
    }
  }

  /** Requests served in order, committed in whole groups at any pace, with crashes anywhere: what is
      left after a crash is an intact file system, namely the one after the requests in the groups
      that were committed. */
  lemma ServedSurvives(c: Config, sb: FsState.Sb, s0: State, steps: seq<Step>, parts: seq<seq<Update>>, cuts: seq<nat>)
    requires Init(c, s0) && IsRun(c, s0, steps) && Above(c, sb) && Intact(sb, s0.base) && Serial(sb, s0.base, parts)
    requires Grouped(Final(c, s0, steps).groups, parts, cuts)
    ensures var s, m := Final(c, s0, steps), cuts[|Final(c, s0, steps).groups|];
            && m <= |parts| && Shape(c, s) && Intact(sb, AfterCrash(c, s.disk))
            && (forall b: nat :: Home(c, b) ==> AfterCrash(c, s.disk)[b] == Replay(s0.base, Flat(parts[..m]))[b])
  {
    hide Intact, IsRun, Init, Serial, Flat, Grouped, GroupsOk;
    var gs := Final(c, s0, steps).groups;
    GroupedOk(sb, s0.base, gs, parts, cuts);
    CrashKeepsIntact(c, sb, s0, steps);
    GroupCommit(c, s0, steps);
    GroupsArePrefix(c, s0, steps);
    GroupedReplay(s0.base, gs, parts, cuts, |gs|);
    GroupedSize(gs, parts, cuts);
    assert gs[..|gs|] == gs;
  }

  lemma GroupedSize(gs: seq<Group>, parts: seq<seq<Update>>, cuts: seq<nat>)
    requires Grouped(gs, parts, cuts)
    ensures |cuts| == |gs| + 1
  {
  }

  lemma GroupedOk(sb: FsState.Sb, base: Disk, gs: seq<Group>, parts: seq<seq<Update>>, cuts: seq<nat>)
    requires Grouped(gs, parts, cuts) && Serial(sb, base, parts)
    ensures GroupsOk(sb, base, gs)
  {
    hide Grouped, GroupOk, Serial;
    GroupedSize(gs, parts, cuts);
    forall k | 0 <= k < |gs|
      ensures GroupOk(sb, ReplayGroups(base, gs[..k]), gs[k])
    {
      GroupedOne(sb, base, gs, parts, cuts, k);
    }
  }

  lemma GroupedOne(sb: FsState.Sb, base: Disk, gs: seq<Group>, parts: seq<seq<Update>>, cuts: seq<nat>, k: nat)
    requires Grouped(gs, parts, cuts) && Serial(sb, base, parts) && k < |gs|
    ensures GroupOk(sb, ReplayGroups(base, gs[..k]), gs[k])
  {
    hide Intact, Serial, Flat, ReplayGroups, Replay;
    assert CutOf(gs[k], parts, cuts, k);
    GroupedReplay(base, gs, parts, cuts, k);
    var a, n := cuts[k], cuts[k + 1] - cuts[k];
    SerialSplit(sb, base, parts, a);
    assert parts[a..][..n] == parts[a..cuts[k + 1]];
    SerialSplit(sb, Replay(base, Flat(parts[..a])), parts[a..], n);
  }
}
