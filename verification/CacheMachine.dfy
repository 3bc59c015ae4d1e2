/** The buffer cache of kernel/bio.c under the log of kernel/log.c, as a step system over
    real buffers: every block that is read, modified, logged, committed, installed or
    recovered passes through a buffer, and bget recycles by the list of BufferRing. Only
    `log.mem` is a history variable: no step computes with it. The proofs are in CacheProofs.
 */
module CacheMachine {
  import opened Prelude
  import opened Blocks
  import opened LogMachine
  import BufferRing

  type Tid = nat

  /** struct buf. dev is 0 until the buffer is first used and 1 from then on. */
  datatype Buf = Buf(
    dev: nat, blockno: nat, valid: bool, refcnt: nat, holder: Option<Tid>, data: Block,
    users: multiset<Tid>,    // history: threads between bget and the end of brelse
    dirty: Option<OpId>)     // history: modified by this operation and not yet logged

  /** order is the list of buffers from the head on. */
  datatype Cache = Cache(bufs: seq<Buf>, order: seq<nat>, log: State)

  datatype CStep =
    | Hit(t: Tid, i: nat, b: nat)       // bget, block cached
    | Recycle(t: Tid, i: nat, b: nat)   // bget, block not cached
    | Lock(t: Tid, i: nat)              // acquiresleep returns
    | Fill(t: Tid, i: nat)              // bread reads the disk
    | Modify(t: Tid, i: nat, op: OpId, data: Block)
    | LogWrite(t: Tid, i: nat, op: OpId)
    | Unlock(t: Tid, i: nat)            // brelse, releasesleep
    | Drop(t: Tid, i: nat)              // brelse, refcnt--
    | BeginOp(op: OpId)
    | EndOp(op: OpId)
    | CopyToLog(t: Tid, i: nat, j: nat) // write_log: buffer i is the log block, j the cached block
    | WriteHead(t: Tid, i: nat)
    | Install(t: Tid, i: nat, j: nat)   // install_trans: buffer i is the log block, j the home block
    | EraseHead(t: Tid, i: nat)
    | Finish
    | PowerFail
    | LoadHead(t: Tid, i: nat)
    | Reinstall(t: Tid, i: nat, j: nat) // install_trans while recovering
    | RecoverEnd(t: Tid, i: nat)

  predicate Holds(s: Cache, t: Tid, i: nat, b: nat)
  {
    && i < |s.bufs| && s.bufs[i].dev == 1 && s.bufs[i].blockno == b
    && s.bufs[i].holder == Some(t) && s.bufs[i].valid
  }

  /** Is block b cached? */
  predicate Cached(s: Cache, b: nat)
  {
    exists i :: 0 <= i < |s.bufs| && s.bufs[i].dev == 1 && s.bufs[i].blockno == b
  }

  function Refs(bufs: seq<Buf>): (r: seq<nat>)
    ensures |r| == |bufs| && forall i :: 0 <= i < |bufs| ==> r[i] == bufs[i].refcnt
  {
    seq(|bufs|, i requires 0 <= i < |bufs| => bufs[i].refcnt)
  }

  predicate CEnabled(c: Config, s: Cache, e: CStep)
  {
    match e
    case Hit(t, i, b) => i < |s.bufs| && s.bufs[i].dev == 1 && s.bufs[i].blockno == b
    case Recycle(t, i, b) =>
      && b < c.blocks && !Cached(s, b) && i < |s.bufs| && s.bufs[i].refcnt == 0
      && BufferRing.Choice(Refs(s.bufs), s.order, i)
    case Lock(t, i) => i < |s.bufs| && t in s.bufs[i].users && s.bufs[i].holder == None
    case Fill(t, i) =>
      && i < |s.bufs| && s.bufs[i].holder == Some(t) && !s.bufs[i].valid
      && s.bufs[i].dev == 1 && s.bufs[i].blockno < |s.log.disk|
    // a client modifies only home blocks, inside an operation, one operation at a time
    case Modify(t, i, op, data) =>
      && i < |s.bufs| && Holds(s, t, i, s.bufs[i].blockno) && Home(c, s.bufs[i].blockno)
      && op in s.log.active && (s.bufs[i].dirty == None || s.bufs[i].dirty == Some(op))
    case LogWrite(t, i, op) =>
      && i < |s.bufs| && Holds(s, t, i, s.bufs[i].blockno)
      && (s.bufs[i].dirty == None || s.bufs[i].dirty == Some(op))
      && Enabled(c, s.log, Write(op, s.bufs[i].blockno, s.bufs[i].data))
    // and has logged what it modified before it lets the buffer go
    case Unlock(t, i) => i < |s.bufs| && s.bufs[i].holder == Some(t) && s.bufs[i].dirty == None
    case Drop(t, i) => i < |s.bufs| && t in s.bufs[i].users && s.bufs[i].holder != Some(t) && s.bufs[i].refcnt > 0
    case BeginOp(op) => Enabled(c, s.log, Begin(op))
    // or ends the operation
    case EndOp(op) =>
      Enabled(c, s.log, End(op)) && forall i :: 0 <= i < |s.bufs| ==> s.bufs[i].dirty != Some(op)
    case CopyToLog(t, i, j) =>
      && Enabled(c, s.log, CopyBlock)
      && Holds(s, t, i, c.start + s.log.phase.tail + 1) && Holds(s, t, j, s.log.lh[s.log.phase.tail])
    case WriteHead(t, i) => Enabled(c, s.log, CommitHead) && Holds(s, t, i, c.start)
    case Install(t, i, j) =>
      && Enabled(c, s.log, InstallBlock)
      && Holds(s, t, i, c.start + s.log.phase.tail + 1) && Holds(s, t, j, s.log.lh[s.log.phase.tail])
      && s.bufs[j].refcnt > 0
    case EraseHead(t, i) => Enabled(c, s.log, ClearHead) && Holds(s, t, i, c.start)
    case Finish => Enabled(c, s.log, FinishCommit)
    case PowerFail => true
    case LoadHead(t, i) =>
      Enabled(c, s.log, ReadHead) && Holds(s, t, i, c.start) && Word(s.bufs[i].data, 0) <= LOGSIZE
    case Reinstall(t, i, j) =>
      && Enabled(c, s.log, RecoverBlock)
      && Holds(s, t, i, c.start + s.log.phase.tail + 1) && Holds(s, t, j, s.log.lh[s.log.phase.tail])
    case RecoverEnd(t, i) => Enabled(c, s.log, RecoverClear) && Holds(s, t, i, c.start)
  }

  /** The entries of a header block held in a buffer. */
  function HeaderEntries(b: Block): (lh: seq<nat>)
    requires Word(b, 0) <= LOGSIZE
  {
    seq(Word(b, 0), i requires 0 <= i < LOGSIZE => Word(b, 1 + i))
  }

  function SetBuf(s: Cache, i: nat, b: Buf): Cache
    requires i < |s.bufs|
  {
    s.(bufs := s.bufs[i := b])
  }

  const EmptyBuf := Buf(0, 0, false, 0, None, Zeroes(), multiset{}, None)

  function CNext(c: Config, s: Cache, e: CStep): Cache
    requires Shape(c, s.log) && CEnabled(c, s, e)
  {
    var d := s.log.disk;
    match e
    case Hit(t, i, b) =>
      var u := s.bufs[i];
      SetBuf(s, i, u.(refcnt := u.refcnt + 1, users := u.users + multiset{t}))
    case Recycle(t, i, b) =>
      SetBuf(s, i, s.bufs[i].(dev := 1, blockno := b, valid := false, refcnt := 1, users := multiset{t}))
    case Lock(t, i) => SetBuf(s, i, s.bufs[i].(holder := Some(t)))
    case Fill(t, i) => SetBuf(s, i, s.bufs[i].(data := d[s.bufs[i].blockno], valid := true))
    case Modify(t, i, op, data) => SetBuf(s, i, s.bufs[i].(data := data, dirty := Some(op)))
    case LogWrite(t, i, op) =>
      var u := s.bufs[i];
      var pin := if u.blockno in s.log.lh then u.refcnt else u.refcnt + 1;
      Cache(s.bufs[i := u.(refcnt := pin, dirty := None)], s.order, Next(c, s.log, Write(op, u.blockno, u.data)))
    case Unlock(t, i) => SetBuf(s, i, s.bufs[i].(holder := None))
    case Drop(t, i) =>
      var u := s.bufs[i];
      SetBuf(s, i, u.(refcnt := u.refcnt - 1, users := u.users - multiset{t})).(
        order := if u.refcnt == 1 then BufferRing.Fronted(s.order, i) else s.order)
    case BeginOp(op) => s.(log := Next(c, s.log, Begin(op)))
    case EndOp(op) => s.(log := Next(c, s.log, End(op)))
    case CopyToLog(t, i, j) =>
      var data := s.bufs[j].data;
      Cache(s.bufs[i := s.bufs[i].(data := data)], s.order,
            s.log.(disk := d[s.bufs[i].blockno := data], phase := Copying(s.log.phase.tail + 1)))
    case WriteHead(t, i) =>
      var data := EncodeHead(s.bufs[i].data, s.log.lh);
      Cache(s.bufs[i := s.bufs[i].(data := data)], s.order,
            Next(c, s.log, CommitHead).(disk := d[c.start := data]))
    case Install(t, i, j) =>
      var data := s.bufs[i].data;
      Cache(s.bufs[j := s.bufs[j].(data := data, refcnt := s.bufs[j].refcnt - 1)], s.order,
            s.log.(disk := d[s.bufs[j].blockno := data], phase := Installing(s.log.phase.tail + 1)))
    case EraseHead(t, i) =>
      var data := EncodeHead(s.bufs[i].data, []);
      Cache(s.bufs[i := s.bufs[i].(data := data)], s.order,
            s.log.(disk := d[c.start := data], lh := [], phase := Finishing))
    case Finish => s.(log := Next(c, s.log, FinishCommit))
    case PowerFail => Cache(seq(|s.bufs|, _ => EmptyBuf), BufferRing.Startup(|s.bufs|), Next(c, s.log, Crash))
    case LoadHead(t, i) =>
      s.(log := s.log.(lh := HeaderEntries(s.bufs[i].data), phase := Recovering(0)))
    case Reinstall(t, i, j) =>
      var data := s.bufs[i].data;
      Cache(s.bufs[j := s.bufs[j].(data := data)], s.order,
            s.log.(disk := d[s.bufs[j].blockno := data], phase := Recovering(s.log.phase.tail + 1)))
    case RecoverEnd(t, i) =>
      var data := EncodeHead(s.bufs[i].data, []);
      Cache(s.bufs[i := s.bufs[i].(data := data)], s.order,
            s.log.(disk := d[c.start := data], lh := [], phase := Running, mem := d[c.start := data]))
  }
}
