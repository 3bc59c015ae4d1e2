/** The write-ahead log of kernel/log.c as a step system.

    One step is one atomic action of the kernel or one single block write to the disk,
    so a `Crash` step may fall between any two block writes of commit or of recovery.
    `mem` is the block content that the buffer cache presents; module CacheMachine
    refines it to real buffers. The fields after `mem` are history variables.
 */
module LogMachine {
  import opened Blocks

  const MAXOPBLOCKS: nat := 10
  const LOGSIZE: nat := 30

  type Disk = seq<Block>
  type OpId = nat

  /** log.start and log.size, and the number of blocks on the device. */
  datatype Config = Config(start: nat, size: nat, blocks: nat)

  ghost predicate ConfigOk(c: Config)
  {
    1 <= c.size && c.start + c.size <= c.blocks <= UINT_LIMIT
  }

  /** A block outside the log area. */
  predicate Home(c: Config, b: nat)
  {
    b < c.blocks && !(c.start <= b < c.start + c.size)
  }

  // ---------------------------------------------------------------- the on-disk header

  function HeadN(c: Config, d: Disk): nat
    requires c.start < |d|
  {
    Word(d[c.start], 0)
  }

  function HeadBlock(c: Config, d: Disk, i: nat): nat
    requires c.start < |d| && i < LOGSIZE
  {
    Word(d[c.start], 1 + i)
  }

  function PutEntries(b: Block, lh: seq<nat>, k: nat): Block
    requires k <= |lh| <= LOGSIZE
  {
    if k == 0 then b else PutWord(PutEntries(b, lh, k - 1), k, lh[k - 1])
  }

  /** write_head: only n and the first n entries of the header block are overwritten. */
  function EncodeHead(b: Block, lh: seq<nat>): Block
    requires |lh| <= LOGSIZE
  {
    PutEntries(PutWord(b, 0, |lh|), lh, |lh|)
  }

  lemma {:induction false} PutEntriesReads(b: Block, lh: seq<nat>, k: nat, j: nat)
    requires k <= |lh| <= LOGSIZE && j < NINDIRECT
    requires forall i :: 0 <= i < |lh| ==> lh[i] < UINT_LIMIT
    ensures Word(PutEntries(b, lh, k), j) == if 1 <= j <= k then lh[j - 1] else Word(b, j)
  {
    if k > 0 {
      PutEntriesReads(b, lh, k - 1, j);
      WordOfPutWord(PutEntries(b, lh, k - 1), k, lh[k - 1], j);
    }
  }

  /** After write_head the on-disk header reads back as the list written. */
  lemma HeadWritten(c: Config, d: Disk, lh: seq<nat>)
    requires c.start < |d| && |lh| <= LOGSIZE
    requires forall i :: 0 <= i < |lh| ==> lh[i] < UINT_LIMIT
    ensures var d' := d[c.start := EncodeHead(d[c.start], lh)];
            && HeadN(c, d') == |lh|
            && forall i :: 0 <= i < |lh| ==> HeadBlock(c, d', i) == lh[i]
  {
    var e := EncodeHead(d[c.start], lh);
    PutEntriesReads(PutWord(d[c.start], 0, |lh|), lh, |lh|, 0);
    WordOfPutWord(d[c.start], 0, |lh|, 0);
    forall i | 0 <= i < |lh|
      ensures Word(e, 1 + i) == lh[i]
    {
      PutEntriesReads(PutWord(d[c.start], 0, |lh|), lh, |lh|, 1 + i);
    }
  }

  /** A disk whose header recovery can act on. */
  ghost predicate DiskOk(c: Config, d: Disk)
  {
    && ConfigOk(c)
    && |d| == c.blocks
    && HeadN(c, d) <= LOGSIZE
    && HeadN(c, d) <= c.size - 1
    && forall i :: 0 <= i < HeadN(c, d) ==> Home(c, HeadBlock(c, d, i))
  }

  /** A write anywhere but to the header block leaves the header as it was. */
  lemma HeadFrame(c: Config, d: Disk, b: nat, x: Block)
    requires c.start < |d| && b < |d| && b != c.start
    ensures HeadN(c, d[b := x]) == HeadN(c, d)
    ensures forall i :: 0 <= i < LOGSIZE ==> HeadBlock(c, d[b := x], i) == HeadBlock(c, d, i)
    ensures DiskOk(c, d) ==> DiskOk(c, d[b := x])
  {
    var d' := d[b := x];
    forall i | 0 <= i < LOGSIZE
      ensures HeadBlock(c, d', i) == HeadBlock(c, d, i)
    {
    }
    if DiskOk(c, d) {
      forall i | 0 <= i < HeadN(c, d')
        ensures Home(c, HeadBlock(c, d', i))
      {
        assert HeadBlock(c, d', i) == HeadBlock(c, d, i);
      }
    }
  }

  /** What block b will hold once the first k log entries have been installed. */
  function Look(c: Config, d: Disk, k: nat, b: nat): Block
    requires ConfigOk(c) && |d| == c.blocks && k <= LOGSIZE && k <= c.size - 1 && b < c.blocks
  {
    if k == 0 then d[b]
    else if HeadBlock(c, d, k - 1) == b then d[c.start + k]
    else Look(c, d, k - 1, b)
  }

  predicate Listed(c: Config, d: Disk, k: nat, b: nat)
    requires c.start < |d| && k <= LOGSIZE
  {
    exists i :: 0 <= i < k && HeadBlock(c, d, i) == b
  }

  /** What block b will hold if the machine crashes now and recovery runs to its end. */
  function Recovered(c: Config, d: Disk, b: nat): Block
    requires DiskOk(c, d) && b < c.blocks
  {
    Look(c, d, HeadN(c, d), b)
  }

  lemma {:induction false} LookFrame(c: Config, d: Disk, d': Disk, k: nat, b: nat)
    requires ConfigOk(c) && |d| == |d'| == c.blocks && k <= LOGSIZE && k <= c.size - 1
    requires b < c.blocks
    requires forall i :: c.start <= i < c.start + c.size ==> d[i] == d'[i]
    requires d[b] == d'[b] || Listed(c, d, k, b)
    ensures Look(c, d, k, b) == Look(c, d', k, b)
  {
    if k > 0 && HeadBlock(c, d, k - 1) != b {
      LookFrame(c, d, d', k - 1, b);
    }
  }

  /** If every listed log block holds m's content for the block it is listed for, and
      unlisted b already agrees with m, then Look is m. */
  lemma {:induction false} LookGives(c: Config, d: Disk, k: nat, b: nat, m: Disk)
    requires ConfigOk(c) && |d| == |m| == c.blocks && k <= LOGSIZE && k <= c.size - 1
    requires b < c.blocks
    requires forall i :: 0 <= i < k && HeadBlock(c, d, i) == b ==> d[c.start + 1 + i] == m[b]
    requires Listed(c, d, k, b) || d[b] == m[b]
    ensures Look(c, d, k, b) == m[b]
  {
    if k > 0 {
      if HeadBlock(c, d, k - 1) == b {
        assert d[c.start + 1 + (k - 1)] == m[b];
      } else {
        LookGives(c, d, k - 1, b, m);
      }
    }
  }

  // ---------------------------------------------------------------- updates and groups

  datatype Update = Update(op: OpId, blockno: nat, data: Block)

  /** The operations that commit together, and their updates in the order logged. */
  datatype Group = Group(ops: set<OpId>, updates: seq<Update>)

  function Replay(base: Disk, us: seq<Update>): (d: Disk)
    ensures |d| == |base|
  {
    if us == [] then base
    else
      var u := us[|us| - 1];
      var d := Replay(base, us[..|us| - 1]);
      if u.blockno < |d| then d[u.blockno := u.data] else d
  }

  function ReplayGroups(base: Disk, gs: seq<Group>): (d: Disk)
    ensures |d| == |base|
  {
    if gs == [] then base
    else Replay(ReplayGroups(base, gs[..|gs| - 1]), gs[|gs| - 1].updates)
  }

  lemma ReplaySnoc(base: Disk, us: seq<Update>, u: Update)
    requires u.blockno < |base|
    ensures Replay(base, us + [u]) == Replay(base, us)[u.blockno := u.data]
  {
    assert (us + [u])[..|us|] == us;
  }

  lemma ReplayGroupsSnoc(base: Disk, gs: seq<Group>, g: Group)
    ensures ReplayGroups(base, gs + [g]) == Replay(ReplayGroups(base, gs), g.updates)
  {
    assert (gs + [g])[..|gs|] == gs;
  }

  /** The updates of one operation, in order. */
  function UpdatesOf(us: seq<Update>, op: OpId): seq<Update>
  {
    if us == [] then []
    else
      var rest := UpdatesOf(us[..|us| - 1], op);
      if us[|us| - 1].op == op then rest + [us[|us| - 1]] else rest
  }

  lemma UpdatesOfSnoc(us: seq<Update>, u: Update, op: OpId)
    ensures UpdatesOf(us + [u], op)
         == if u.op == op then UpdatesOf(us, op) + [u] else UpdatesOf(us, op)
  {
    assert (us + [u])[..|us|] == us;
  }

  // ---------------------------------------------------------------- state and steps

  datatype Phase =
    | Running               // log.committing == 0
    | Copying(tail: nat)    // write_log, then the committing write_head
    | Installing(tail: nat) // install_trans(0), then the clearing write_head
    | Finishing             // commit() has returned, committing is still 1
    | Booting               // before read_head
    | Recovering(tail: nat) // install_trans(1), then the clearing write_head

  datatype State = State(
    disk: Disk,
    phase: Phase,
    lh: seq<nat>,        // log.lh.block[..log.lh.n]
    outstanding: nat,    // log.outstanding
    mem: Disk,
    base: Disk,                       // recovered content at the first boot
    active: seq<OpId>,                // operations between begin_op and end_op
    ended: set<OpId>,                 // operations of this group already past end_op
    current: seq<Update>,             // updates logged since the last commit
    issued: map<OpId, seq<Update>>,   // every update each operation ever logged
    appended: map<OpId, nat>,         // new log entries each operation caused
    groups: seq<Group>)               // groups whose header write reached the disk

  datatype Step =
    | Begin(op: OpId)
    | Write(op: OpId, blockno: nat, data: Block)
    | End(op: OpId)
    | CopyBlock
    | CommitHead
    | InstallBlock
    | ClearHead
    | FinishCommit
    | Crash
    | ReadHead
    | RecoverBlock
    | RecoverClear

  predicate Committing(s: State)
  {
    !s.phase.Running?
  }

  /** The test at the top of log_write. */
  predicate WritePanics(c: Config, s: State)
  {
    |s.lh| >= LOGSIZE || |s.lh| >= c.size - 1 || s.outstanding < 1
  }

  /** The panic inside end_op, checked after outstanding was decremented. */
  predicate EndPanics(s: State)
  {
    Committing(s)
  }

  /** begin_op admits a new operation; otherwise it sleeps. */
  predicate Admits(s: State)
  {
    !Committing(s) && |s.lh| + (s.outstanding + 1) * MAXOPBLOCKS <= LOGSIZE
  }

  predicate Enabled(c: Config, s: State, e: Step)
  {
    match e
    case Begin(op) => Admits(s) && op !in s.issued
    case Write(op, b, data) => op in s.active && !WritePanics(c, s) && Home(c, b)
    case End(op) => op in s.active && !EndPanics(s)
    case CopyBlock => s.phase.Copying? && s.phase.tail < |s.lh|
    case CommitHead => s.phase.Copying? && s.phase.tail == |s.lh|
    case InstallBlock => s.phase.Installing? && s.phase.tail < |s.lh|
    case ClearHead => s.phase.Installing? && s.phase.tail == |s.lh|
    case FinishCommit => s.phase.Finishing?
    case Crash => true
    case ReadHead => s.phase.Booting?
    case RecoverBlock => s.phase.Recovering? && s.phase.tail < |s.lh|
    case RecoverClear => s.phase.Recovering? && s.phase.tail == |s.lh|
  }

  function Without(a: seq<OpId>, op: OpId): seq<OpId>
  {
    if a == [] then [] else if a[0] == op then a[1..] else [a[0]] + Without(a[1..], op)
  }

  /** read_head */
  function ReadEntries(c: Config, d: Disk): (lh: seq<nat>)
    requires c.start < |d| && HeadN(c, d) <= LOGSIZE
    ensures |lh| == HeadN(c, d)
    ensures forall i :: 0 <= i < |lh| ==> lh[i] == HeadBlock(c, d, i)
  {
    seq(HeadN(c, d), i requires 0 <= i < LOGSIZE => HeadBlock(c, d, i))
  }

  /** The bounds within which every step is defined; they hold in every reachable state. */
  ghost predicate Shape(c: Config, s: State)
  {
    && DiskOk(c, s.disk)
    && |s.mem| == |s.base| == c.blocks
    && |s.lh| <= LOGSIZE && |s.lh| <= c.size - 1
    && (forall i :: 0 <= i < |s.lh| ==> Home(c, s.lh[i]))
    && (s.phase.Copying? || s.phase.Installing? || s.phase.Recovering? ==> s.phase.tail <= |s.lh|)
    && (forall op :: op in s.active ==> op in s.issued)
    && s.issued.Keys == s.appended.Keys
    && s.outstanding == |s.active|
  }

  function Next(c: Config, s: State, e: Step): State
    requires Shape(c, s) && Enabled(c, s, e)
  {
    match e
    case Begin(op) =>
      s.(outstanding := s.outstanding + 1, active := s.active + [op],
         issued := s.issued[op := []], appended := s.appended[op := 0])
    case Write(op, b, data) =>
      var u := Update(op, b, data);
      var s1 := s.(mem := s.mem[b := data], current := s.current + [u],
                   issued := s.issued[op := s.issued[op] + [u]]);
      if b in s.lh then s1      // log absorption
      else s1.(lh := s.lh + [b], appended := s.appended[op := s.appended[op] + 1])
    case End(op) =>
      var s1 := s.(outstanding := s.outstanding - 1, active := Without(s.active, op),
                   ended := s.ended + {op});
      if s1.outstanding > 0 then s1
      else if |s.lh| > 0 then s1.(phase := Copying(0))
      else s1.(phase := Finishing, ended := {}, groups := s.groups + [Group(s1.ended, [])])
    case CopyBlock =>
      s.(disk := s.disk[c.start + s.phase.tail + 1 := s.mem[s.lh[s.phase.tail]]],
         phase := Copying(s.phase.tail + 1))
    case CommitHead =>
      s.(disk := s.disk[c.start := EncodeHead(s.disk[c.start], s.lh)], phase := Installing(0),
         groups := s.groups + [Group(s.ended, s.current)], ended := {}, current := [])
    case InstallBlock =>
      s.(disk := s.disk[s.lh[s.phase.tail] := s.disk[c.start + s.phase.tail + 1]],
         phase := Installing(s.phase.tail + 1))
    case ClearHead =>
      s.(disk := s.disk[c.start := EncodeHead(s.disk[c.start], [])], lh := [], phase := Finishing)
    case FinishCommit =>
      s.(phase := Running)
    case Crash =>
      s.(phase := Booting, lh := [], outstanding := 0, active := [], ended := {}, current := [],
         mem := s.disk)
    case ReadHead =>
      s.(phase := Recovering(0), lh := ReadEntries(c, s.disk))
    case RecoverBlock =>
      s.(disk := s.disk[s.lh[s.phase.tail] := s.disk[c.start + s.phase.tail + 1]],
         phase := Recovering(s.phase.tail + 1))
    case RecoverClear =>
      var d := s.disk[c.start := EncodeHead(s.disk[c.start], [])];
      s.(disk := d, lh := [], phase := Running, mem := d)
  }
}
