/** kernel/virtio_disk.c: the descriptor table and the two rings that the driver shares with the
    device, as sections 2.6 and 5.2 of the VirtIO 1.1 specification lay them out. The device is
    an environment that may step between any two driver operations; each driver operation runs
    under vdisk_lock from one point where it can sleep to the next.
 */
module Virtio {

  const NUM: nat := 8
  const WRAP: nat := 0x1_0000           // ring indices are 16 bits wide
  const BSIZE: nat := 1024
  const F_NEXT: nat := 1
  const F_WRITE: nat := 2

  /** What a descriptor's address points to. */
  datatype Where = Nowhere | Header(i: nat) | Data(b: nat) | Status(i: nat)

  datatype Desc = Desc(addr: Where, len: nat, flags: nat, next: nat)

  const ZERO := Desc(Nowhere, 0, 0, 0)

  /** A request header: type and sector. */
  datatype Op = Op(write: bool, sector: nat)

  datatype Info = Info(b: nat, status: nat)

  /** Where a request is: in the available ring, with the device, in the used ring at a position
      counted from the start of time, or reported to the waiting process. */
  datatype Stage = Queued | Fetched | Done(at: nat) | Seen

  datatype Req = Req(id: nat, d1: nat, d2: nat, buf: nat, write: bool, sector: nat, stage: Stage)

  type Reqs = map<nat, Req>

  /** 512 bytes on the disk, and 1024 in memory. */
  type Sector = s: seq<int> | |s| == 512 witness seq(512, _ => 0)
  type Buffer = s: seq<int> | |s| == 1024 witness seq(1024, _ => 0)

  function SectorAt(media: map<nat, Sector>, k: nat): Sector
  {
    if k in media then media[k] else seq(512, _ => 0)
  }

  function BufferAt(mem: map<nat, Buffer>, b: nat): Buffer
  {
    if b in mem then mem[b] else seq(1024, _ => 0)
  }

  function HasNext(flags: nat): bool { flags % 2 == 1 }

  /** A write puts the buffer into two sectors, a read puts two sectors into the buffer; nothing else changes. */
  ghost predicate Transferred(media: map<nat, Sector>, mem: map<nat, Buffer>, r: Req, media': map<nat, Sector>,
                              mem': map<nat, Buffer>)
  {
    if r.write
    then
      && mem' == mem
      && media' == media[r.sector := BufferAt(mem, r.buf)[..512]][r.sector + 1 := BufferAt(mem, r.buf)[512..]]
    else media' == media && mem' == mem[r.buf := SectorAt(media, r.sector) + SectorAt(media, r.sector + 1)]
  }

  // ---------------------------------------------------------------- descriptors

  /** i is one of the three descriptors of the request with head h. */
  ghost predicate In(reqs: Reqs, h: nat, i: nat)
  {
    h in reqs && (i == h || i == reqs[h].d1 || i == reqs[h].d2)
  }

  /** The descriptors are those of the requests, three each and disjoint, and the free ones. */
  ghost predicate Split(free: seq<bool>, reqs: Reqs)
  {
    && |free| == NUM
    && (forall h :: h in reqs ==> h < NUM && reqs[h].d1 < NUM && reqs[h].d2 < NUM)
    && (forall h :: h in reqs ==> h != reqs[h].d1 && h != reqs[h].d2 && reqs[h].d1 != reqs[h].d2)
    && (forall h, g, i :: In(reqs, h, i) && In(reqs, g, i) ==> h == g)
    && (forall i :: 0 <= i < NUM ==> (free[i] <==> !exists h :: In(reqs, h, i)))
  }

  function NumFree(free: seq<bool>): nat
  {
    if free == [] then 0 else (if free[0] then 1 else 0) + NumFree(free[1..])
  }

  lemma {:induction false} NumFreeSet(free: seq<bool>, i: nat, v: bool)
    requires i < |free| && free[i] != v
    ensures NumFree(free[i := v]) == NumFree(free) + if v then 1 else -1
    decreases |free|
  {
    var f := free[i := v];
    if i == 0 {
      assert f[1..] == free[1..];
    } else {
      NumFreeSet(free[1..], i - 1, v);
      assert f[1..] == free[1..][i - 1 := v];
    }
  }

  lemma {:induction false} NumFreeBound(free: seq<bool>)
    ensures NumFree(free) <= |free| && (NumFree(free) == 0 <==> forall i :: 0 <= i < |free| ==> !free[i])
    decreases |free|
  {
    if free != [] {
      NumFreeBound(free[1..]);
      assert forall i :: 1 <= i < |free| ==> free[i] == free[1..][i - 1];
    }
  }

  /** What the device finds when it follows the chain from h. */
  ghost predicate Chained(desc: seq<Desc>, ops: seq<Op>, info: seq<Info>, h: nat, r: Req)
    requires |desc| == |ops| == |info| == NUM && h < NUM && r.d1 < NUM && r.d2 < NUM
  {
    && desc[h] == Desc(Header(h), 16, F_NEXT, r.d1) && ops[h] == Op(r.write, r.sector)
    && desc[r.d1] == Desc(Data(r.buf), BSIZE, (if r.write then 0 else F_WRITE) + F_NEXT, r.d2)
    && desc[r.d2] == Desc(Status(h), 1, F_WRITE, 0)
    && info[h].b == r.buf && (r.stage.Done? || r.stage.Seen? ==> info[h].status == 0)
  }

  ghost predicate Tables(free: seq<bool>, desc: seq<Desc>, ops: seq<Op>, info: seq<Info>, reqs: Reqs)
  {
    && Split(free, reqs) && |desc| == |ops| == |info| == NUM
    && (forall i :: 0 <= i < NUM && free[i] ==> desc[i] == ZERO)
    && (forall h :: h in reqs ==> Chained(desc, ops, info, h, reqs[h]))
  }

  // ---------------------------------------------------------------- rings

  /** Entries from..to of a ring, counted from the start of time. */
  function Slot(k: nat): (i: nat)
    ensures i < NUM
  {
    k % NUM
  }

  /** A 16-bit index and the count it stands for. */
  predicate Wrapped(idx: nat, k: nat)
  {
    idx == k % WRAP
  }

  lemma WrapSlot(idx: nat, k: nat)
    requires Wrapped(idx, k)
    ensures idx % NUM == Slot(k) && Wrapped((idx + 1) % WRAP, k + 1)
  {
    var q, r := k / WRAP, k % WRAP;
    assert k == q * WRAP + r && q * WRAP == (q * 8192) * NUM;
    assert k + 1 == q * WRAP + (r + 1);
  }

  /** 16-bit indices tell two counts apart that are at most NUM steps from each other. */
  lemma WrapDiffers(x: nat, a: nat, y: nat, b: nat)
    requires Wrapped(x, a) && Wrapped(y, b) && a <= b <= a + NUM
    ensures x == y <==> a == b
  {
  }

  /** The unfetched part of the available ring holds the queued requests in order. */
  ghost predicate AvailOk(ring: seq<nat>, lo: nat, hi: nat, reqs: Reqs)
  {
    && |ring| == NUM && lo <= hi
    && (forall k: nat :: lo <= k < hi ==>
          ring[Slot(k)] in reqs && reqs[ring[Slot(k)]].stage == Queued && reqs[ring[Slot(k)]].id == k)
    && (forall h :: h in reqs && reqs[h].stage == Queued ==> lo <= reqs[h].id < hi && ring[Slot(reqs[h].id)] == h)
  }

  /** The unseen part of the used ring holds the requests the device is done with. */
  ghost predicate UsedOk(ring: seq<nat>, lo: nat, hi: nat, reqs: Reqs)
  {
    && |ring| == NUM && lo <= hi
    && (forall k: nat :: lo <= k < hi ==> ring[Slot(k)] in reqs && reqs[ring[Slot(k)]].stage == Done(k))
    && (forall h :: h in reqs && reqs[h].stage.Done? ==>
          lo <= reqs[h].stage.at < hi && ring[Slot(reqs[h].stage.at)] == h)
  }

  /** Distinct members of a set are no more than it has. */
  lemma {:induction false} Fits(s: seq<nat>, keys: set<nat>)
    requires (forall i :: 0 <= i < |s| ==> s[i] in keys) && forall i, j :: 0 <= i < j < |s| ==> s[i] != s[j]
    ensures |s| <= |keys|
    decreases |s|
  {
    if s != [] {
      var n := |s| - 1;
      Fits(s[..n], keys - {s[n]});
    }
  }

  // ---------------------------------------------------------------- bookkeeping

  /** b->disk is set exactly while a request for the buffer is unfinished; a buffer has at most
      one request. */
  ghost predicate BusyOk(busy: set<nat>, reqs: Reqs)
  {
    && (forall h :: h in reqs ==> (reqs[h].buf in busy <==> reqs[h].stage != Seen))
    && (forall b :: b in busy ==> exists h :: h in reqs && reqs[h].buf == b)
    && (forall h, g :: h in reqs && g in reqs && h != g ==> reqs[h].buf != reqs[g].buf)
  }

  /** Of the n requests ever made, each has been reported once, or has not been and is there. */
  ghost predicate ServedOk(served: seq<nat>, n: nat, reqs: Reqs)
  {
    && (forall i, j :: 0 <= i < j < |served| ==> served[i] != served[j])
    && (forall id :: id in served ==> id < n)
    && (forall h :: h in reqs ==> reqs[h].id < n && (reqs[h].id in served <==> reqs[h].stage == Seen))
    && (forall h, g :: h in reqs && g in reqs && h != g ==> reqs[h].id != reqs[g].id)
    && (forall id: nat :: id < n && id !in served ==> exists h :: h in reqs && reqs[h].id == id)
  }

  ghost predicate Space(free: seq<bool>, desc: seq<Desc>, ops: seq<Op>, info: seq<Info>, reqs: Reqs)
  {
    Tables(free, desc, ops, info, reqs) && NumFree(free) + 3 * |reqs| == NUM
  }

  ghost predicate Avail(ring: seq<nat>, idx: nat, dev: nat, fetched: nat, made: nat, reqs: Reqs)
  {
    AvailOk(ring, fetched, made, reqs) && Wrapped(idx, made) && Wrapped(dev, fetched) && |reqs| <= 2
  }

  ghost predicate Used(ring: seq<nat>, idx: nat, dev: nat, seen: nat, done: nat, reqs: Reqs)
  {
    UsedOk(ring, seen, done, reqs) && Wrapped(idx, seen) && Wrapped(dev, done) && |reqs| <= 2
  }

  ghost predicate Books(busy: set<nat>, served: seq<nat>, made: nat, reqs: Reqs)
  {
    BusyOk(busy, reqs) && ServedOk(served, made, reqs)
  }

  class Disk {
    var free: seq<bool>
    var desc: seq<Desc>
    var ops: seq<Op>
    var info: seq<Info>
    var availRing: seq<nat>
    var availIdx: nat                   // avail->idx
    var usedRing: seq<nat>
    var usedIdx: nat                    // disk.used_idx
    var busy: set<nat>                  // the buffers with b->disk set
    var devAvail: nat                   // how far the device has read the available ring
    var devUsed: nat                    // used->idx
    var media: map<nat, Sector>         // the disk
    var mem: map<nat, Buffer>           // the data of the buffers
    var waiting: bool                   // some process sleeps on &disk.free[0]
    ghost var reqs: Reqs
    ghost var made: nat                 // all four indices without wraparound
    ghost var fetched: nat
    ghost var done: nat
    ghost var seen: nat
    ghost var served: seq<nat>          // the requests reported, in order

    ghost predicate Valid()
      reads this
    {
      && Space(free, desc, ops, info, reqs)
      && Avail(availRing, availIdx, devAvail, fetched, made, reqs) && Used(usedRing, usedIdx, devUsed, seen, done, reqs)
      && Books(busy, served, made, reqs)
    }

    /** No process sleeps for descriptors while there are three. */
    ghost predicate WaitersServed()
      reads this
    {
      waiting ==> NumFree(free) < 3
    }

    /** What virtio_disk_init leaves: all memory zero, all descriptors free. */
    constructor ()
      ensures Valid() && reqs == map[] && made == 0 && served == [] && WaitersServed()
    {
      free := seq(NUM, _ => true);
      desc := seq(NUM, _ => ZERO);
      ops := seq(NUM, _ => Op(false, 0));
      info := seq(NUM, _ => Info(0, 0));
      availRing, usedRing := seq(NUM, _ => 0), seq(NUM, _ => 0);
      availIdx, usedIdx, devAvail, devUsed := 0, 0, 0, 0;
      busy, reqs, served := {}, map[], [];
      media, mem, waiting := map[], map[], false;
      made, fetched, done, seen := 0, 0, 0, 0;
      new;
      AllFree(free);
    }

    /** alloc_desc: the first free descriptor. */
    method AllocDesc() returns (i: int)
      requires |free| == NUM
      modifies this`free
      ensures i < 0 ==> free == old(free) && forall j :: 0 <= j < NUM ==> !free[j]
      ensures i >= 0 ==>
                i < NUM && old(free)[i] && free == old(free)[i := false] && forall j :: 0 <= j < i ==> !old(free)[j]
    {
      i := 0;
      while i < NUM
        invariant 0 <= i <= NUM && free == old(free) && forall j :: 0 <= j < i ==> !free[j]
      {
        if free[i] {
          free := free[i := false];
          return;
        }
        i := i + 1;
      }
      i := -1;
    }

    /** free_desc, which wakes whoever waits for descriptors. */
    method FreeDesc(i: nat) returns (panicked: bool)
      requires |free| == |desc| == NUM
      modifies this`free, this`desc, this`waiting
      ensures !panicked ==> !waiting
      ensures panicked <==> i >= NUM || old(free)[i]
      ensures panicked ==> free == old(free) && desc == old(desc)
      ensures !panicked ==> free == old(free)[i := true] && desc == old(desc)[i := ZERO]
    {
      if i >= NUM {
        return true;
      }
      if free[i] {
        return true;
      }
      desc := desc[i := ZERO];
      free := free[i := true];
      waiting := false;
      panicked := false;
    }

    /** The descriptors taken so far go back when there are not enough. */
    method GiveBack(idx: seq<nat>, ghost was: seq<bool>) returns (panicked: bool)
      requires |free| == |desc| == |was| == NUM && Took(was, idx, free)
      requires forall k :: 0 <= k < NUM && was[k] ==> desc[k] == ZERO
      modifies this`free, this`desc, this`waiting
      ensures waiting ==> old(waiting)
      ensures !panicked && desc == old(desc) && |free| == NUM && forall k :: 0 <= k < NUM ==> (free[k] <==> was[k])
    {
      panicked := false;
      var j := 0;
      while j < |idx|
        invariant 0 <= j <= |idx| && |free| == NUM && desc == old(desc) && !panicked && (waiting ==> old(waiting))
        invariant forall k :: 0 <= k < NUM ==> (free[k] <==> was[k] && k !in idx[j..])
      {
        assert idx[j..] == [idx[j]] + idx[j + 1..];
        var p := FreeDesc(idx[j]);
        panicked := panicked || p;
        assert desc == old(desc);
        j := j + 1;
      }
    }

    /** alloc3_desc: three descriptors, or nothing changed. */
    method Alloc3Desc() returns (idx: seq<nat>, panicked: bool)
      requires |free| == |desc| == NUM && forall i :: 0 <= i < NUM && free[i] ==> desc[i] == ZERO
      modifies this`free, this`desc, this`waiting
      ensures waiting ==> old(waiting)
      ensures !panicked && desc == old(desc) && |free| == NUM
      ensures if old(NumFree(free)) >= 3
              then |idx| == 3 && Took(old(free), idx, free) && NumFree(free) == old(NumFree(free)) - 3
              else idx == [] && free == old(free)
    {
      panicked, idx := false, [];
      var i := 0;
      while i < 3
        invariant 0 <= i == |idx| <= 3 && |free| == NUM && Took(old(free), idx, free)
        invariant desc == old(desc) && NumFree(free) + i == NumFree(old(free)) && waiting == old(waiting)
      {
        ghost var was := free;
        NumFreeBound(free);
        var d := AllocDesc();
        if d < 0 {
          panicked := GiveBack(idx, old(free));
          assert free == old(free);
          return [], panicked;
        }
        NumFreeSet(was, d, false);
        idx := idx + [d];
        i := i + 1;
      }
    }

    /** free_chain: exactly the three descriptors of the request. */
    method FreeChain(h: nat, ghost was: seq<Info>) returns (panicked: bool)
      requires Tables(free, desc, ops, was, reqs) && h in reqs
      modifies this`free, this`desc, this`waiting
      ensures !panicked && |free| == |desc| == NUM && !waiting
      ensures var r := reqs[h];
              && h < NUM && r.d1 < NUM && r.d2 < NUM
              && free == old(free)[h := true][r.d1 := true][r.d2 := true]
              && desc == old(desc)[h := ZERO][r.d1 := ZERO][r.d2 := ZERO]
    {
      hide Tables, Split;
      ghost var r := reqs[h];
      ChainFacts(free, desc, ops, was, reqs, h);
      ghost var path := [h, r.d1, r.d2];
      ghost var n := 0;
      var i := h;
      panicked := false;
      while true
        invariant 0 <= n < 3 && i == path[n] && |free| == |desc| == NUM && !panicked
        invariant free == (if n == 0 then old(free) else if n == 1 then old(free)[h := true]
                           else old(free)[h := true][r.d1 := true])
        invariant desc == (if n == 0 then old(desc) else if n == 1 then old(desc)[h := ZERO]
                           else old(desc)[h := ZERO][r.d1 := ZERO])
        decreases 3 - n
      {
        var flag, nxt := desc[i].flags, desc[i].next;
        panicked := FreeDesc(i);
        if !HasNext(flag) {
          break;
        }
        i := nxt;
        n := n + 1;
      }
    }

    /** The middle of virtio_disk_rw: the three descriptors and what they point to. */
    method Format(idx: seq<nat>, b: nat, sector: nat, write: bool)
      requires |desc| == |ops| == |info| == NUM && |idx| == 3 && (forall i :: 0 <= i < 3 ==> idx[i] < NUM)
      requires forall i, j :: 0 <= i < j < 3 ==> idx[i] != idx[j]
      modifies this`desc, this`ops, this`info
      ensures |desc| == |ops| == |info| == NUM
      ensures forall id: nat :: Chained(desc, ops, info, idx[0], Req(id, idx[1], idx[2], b, write, sector, Queued))
      ensures forall i :: 0 <= i < NUM && i !in idx ==>
                desc[i] == old(desc)[i] && ops[i] == old(ops)[i] && info[i] == old(info)[i]
    {
      var h, x, y := idx[0], idx[1], idx[2];
      assert idx == [h, x, y];
      ops := ops[h := Op(write, sector)];
      desc := desc[h := Desc(Header(h), 16, F_NEXT, x)];
      desc := desc[x := Desc(Data(b), BSIZE, (if write then 0 else F_WRITE) + F_NEXT, y)];
      info := info[h := info[h].(status := 0xff)];
      desc := desc[y := Desc(Status(h), 1, F_WRITE, 0)];
      info := info[h := info[h].(b := b)];
    }

    /** Finds three descriptors and lays the request out in them. */
    method LayOut(b: nat, sector: nat, write: bool, ghost id: nat) returns (idx: seq<nat>, panicked: bool)
      requires Space(free, desc, ops, info, reqs)
      modifies this`free, this`desc, this`ops, this`info, this`waiting
      ensures waiting ==> old(waiting)
      ensures !panicked
      ensures if old(NumFree(free)) < 3
              then idx == [] && free == old(free) && desc == old(desc) && ops == old(ops) && info == old(info)
              else && |idx| == 3 && idx[0] !in reqs && |reqs| < 2
                   && Space(free, desc, ops, info, reqs[idx[0] := Req(id, idx[1], idx[2], b, write, sector, Queued)])
    {
      hide Tables, Took, NumFree, Chained;
      ghost var f0, d0, o0, n0 := free, desc, ops, info;
      FreeAreZero(free, desc, ops, info, reqs);
      idx, panicked := Alloc3Desc();
      if idx == [] {
        return;
      }
      TookFacts(f0, idx, free);
      Format(idx, b, sector, write);
      ghost var r := Req(id, idx[1], idx[2], b, write, sector, Queued);
      TablesAdd(f0, d0, o0, n0, reqs, idx, free, desc, ops, info, r);
      assert reqs[idx[0] := r].Keys == reqs.Keys + {idx[0]};
    }

    /** The first half of virtio_disk_rw: the request is laid out and offered to the device; if
        descriptors are short nothing changes and the process sleeps. The caller holds the
        buffer's lock, so no other request for it is under way. */
    method Submit(b: nat, blockno: nat, write: bool) returns (idx: seq<nat>, panicked: bool)
      requires Valid() && forall h :: h in reqs ==> reqs[h].buf != b
      modifies this`free, this`desc, this`ops, this`info, this`busy, this`availRing, this`availIdx, this`reqs
      modifies this`made, this`waiting
      ensures Valid() && !panicked && (idx == [] ==> waiting)
      ensures old(WaitersServed()) ==> WaitersServed()
      ensures if old(NumFree(free)) < 3
              then idx == [] && reqs == old(reqs) && free == old(free) && made == old(made) && busy == old(busy)
              else && |idx| == 3 && idx[0] !in old(reqs) && made == old(made) + 1 && busy == old(busy) + {b}
                   && reqs == old(reqs)[idx[0] := Req(old(made), idx[1], idx[2], b, write, blockno * 2, Queued)]
    {
      hide Space, NumFree, Avail, Used, Books;
      idx, panicked := LayOut(b, blockno * (BSIZE / 512), write, made);
      if idx == [] {
        waiting := true;
        return;
      }
      Enlist(idx[0], b, Req(made, idx[1], idx[2], b, write, blockno * 2, Queued));
    }

    /** Records a request that has been laid out, and offers it. */
    method Enlist(h: nat, b: nat, ghost r: Req)
      requires Avail(availRing, availIdx, devAvail, fetched, made, reqs)
      requires Used(usedRing, usedIdx, devUsed, seen, done, reqs)
      requires Books(busy, served, made, reqs) && h !in reqs && |reqs| < 2 && r.id == made && r.stage == Queued
      requires r.buf == b
      requires forall g :: g in reqs ==> reqs[g].buf != b
      modifies this`busy, this`availRing, this`availIdx, this`reqs, this`made
      ensures reqs == old(reqs)[h := r] && made == old(made) + 1 && busy == old(busy) + {b}
      ensures Avail(availRing, availIdx, devAvail, fetched, made, reqs)
      ensures Used(usedRing, usedIdx, devUsed, seen, done, reqs)
      ensures Books(busy, served, made, reqs)
    {
      hide Avail, Used, Books;
      BooksAdd(busy, reqs, made, served, h, r);
      UsedAdd(usedRing, usedIdx, devUsed, seen, done, reqs, h, r);
      busy := busy + {b};
      Offer(h, r);
      reqs := reqs[h := r];
      made := made + 1;
    }

    /** Puts a chain into the available ring. */
    method Offer(h: nat, ghost r: Req)
      requires Avail(availRing, availIdx, devAvail, fetched, made, reqs) && h !in reqs && |reqs| < 2 && r.id == made
      requires r.stage == Queued
      modifies this`availRing, this`availIdx
      ensures Avail(availRing, availIdx, devAvail, fetched, made + 1, reqs[h := r])
    {
      hide AvailOk, Slot, Wrapped;
      MapSize(reqs, h, r);
      RingSize(availRing, fetched, made, reqs);
      WrapSlot(availIdx, made);
      AvailCount(availRing, fetched, made, reqs);
      AvailAdd(availRing, fetched, made, reqs, h, r);
      availRing := availRing[availIdx % NUM := h];
      availIdx := (availIdx + 1) % WRAP;
    }

    // -------------------------------------------------------------- the device

    /** The device takes the next chain from the available ring, if there is one. */
    method DeviceFetch() returns (got: bool, h: nat)
      requires Valid()
      modifies this`devAvail, this`reqs, this`fetched
      ensures Valid() && (got <==> old(fetched) < made)
      ensures !got ==> reqs == old(reqs)
      ensures got ==>
                && h in old(reqs)
                && old(reqs)[h].stage == Queued
                && old(reqs)[h].id == old(fetched)
                && fetched == old(fetched) + 1
                && reqs == Restaged(old(reqs), h, Fetched)
    {
      hide Space, Avail, Used, Books;
      got, h := TakeAvail();
      if got {
        BooksSame(busy, served, made, reqs, h, Fetched);
        UsedSkip(usedRing, usedIdx, devUsed, seen, done, reqs, h, Fetched);
        InfoSize(free, desc, ops, info, reqs, h);
        SpaceRestage(free, desc, ops, info, reqs, h, Fetched, info);
        reqs := Restaged(reqs, h, Fetched);
        fetched := fetched + 1;
      }
    }

    /** The device's reading of the available ring. */
    method TakeAvail() returns (got: bool, h: nat)
      requires Avail(availRing, availIdx, devAvail, fetched, made, reqs)
      modifies this`devAvail
      ensures got <==> fetched < made
      ensures !got ==> devAvail == old(devAvail)
      ensures got ==> && h in reqs && reqs[h].stage == Queued && reqs[h].id == fetched
                      && Avail(availRing, availIdx, devAvail, fetched + 1, made, Restaged(reqs, h, Fetched))
    {
      hide AvailOk, Slot, Wrapped;
      RingSize(availRing, fetched, made, reqs);
      AvailCount(availRing, fetched, made, reqs);
      WrapDiffers(devAvail, fetched, availIdx, made);
      if devAvail == availIdx {
        return false, 0;
      }
      WrapSlot(devAvail, fetched);
      h := availRing[devAvail % NUM];
      devAvail := (devAvail + 1) % WRAP;
      AvailFetch(availRing, fetched, made, reqs, h);
      RestagedSize(reqs, h, Fetched);
      got := true;
    }

    /** What a block device does with the chain at h, by section 5.2.6 of VirtIO 1.1: it reads a header of sixteen
        bytes, and moves the data between its sectors and memory that it may read, for a write, or write, for a
        read. Anything else is an error. */
    method Carry(h: nat)
      requires |desc| == |ops| == |info| == NUM && h < NUM
      modifies this`info, this`media, this`mem
      ensures forall r: Req :: r.d1 < NUM && r.d2 < NUM && Chained(desc, ops, old(info), h, r) ==>
                && info == old(info)[h := old(info)[h].(status := 0)]
                && Transferred(old(media), old(mem), r, media, mem)
    {
      var head := desc[h];
      if !head.addr.Header? || head.addr.i >= NUM || head.len != 16 || head.flags != 1 || head.next >= NUM {
        return;
      }
      var data := desc[head.next];
      if !data.addr.Data? || data.len != 1024 || data.flags % 2 != 1 || data.next >= NUM {
        return;
      }
      var last := desc[data.next];
      if !last.addr.Status? || last.addr.i >= NUM || last.len != 1 || last.flags != 2 {
        return;
      }
      var op, b, writable := ops[head.addr.i], data.addr.b, data.flags / 2 % 2 == 1;
      var status := 0;
      if op.write && !writable {
        media := media[op.sector := BufferAt(mem, b)[..512]];
        media := media[op.sector + 1 := BufferAt(mem, b)[512..]];
      } else if !op.write && writable {
        mem := mem[b := SectorAt(media, op.sector) + SectorAt(media, op.sector + 1)];
      } else {
        status := 1;
      }
      info := info[last.addr.i := info[last.addr.i].(status := status)];
    }

    /** The device carries out a request it has fetched, in whatever order, and reports it: the block is on the
        disk after a write, and in the buffer after a read, and nothing else has changed. */
    method DeviceComplete(h: nat)
      requires Valid() && h in reqs && reqs[h].stage == Fetched
      modifies this`info, this`usedRing, this`devUsed, this`reqs, this`done, this`media, this`mem
      ensures Valid() && done == old(done) + 1 && reqs == Restaged(old(reqs), h, Done(old(done)))
      ensures Transferred(old(media), old(mem), old(reqs)[h], media, mem)
    {
      hide Space, Avail, Used, Books, Transferred, Chained;
      AvailSkip(availRing, availIdx, devAvail, fetched, made, reqs, h, Done(done));
      BooksSame(busy, served, made, reqs, h, Done(done));
      InfoSize(free, desc, ops, info, reqs, h);
      ChainAt(free, desc, ops, info, reqs, h);
      SpaceRestage(free, desc, ops, info, reqs, h, Done(done), info[h := info[h].(status := 0)]);
      Carry(h);
      PutUsed(h);
      reqs := Restaged(reqs, h, Done(done));
      done := done + 1;
    }

    method PutUsed(h: nat)
      requires Used(usedRing, usedIdx, devUsed, seen, done, reqs) && h in reqs && !reqs[h].stage.Done?
      modifies this`usedRing, this`devUsed
      ensures Used(usedRing, usedIdx, devUsed, seen, done + 1, Restaged(reqs, h, Done(done)))
    {
      hide UsedOk, Slot, Wrapped;
      UsedSize(usedRing, seen, done, reqs);
      UsedCount(usedRing, seen, done, reqs);
      UsedDone(usedRing, seen, done, reqs, h);
      RestagedSize(reqs, h, Done(done));
      WrapSlot(devUsed, done);
      usedRing := usedRing[devUsed % NUM := h];
      devUsed := (devUsed + 1) % WRAP;
    }

    // -------------------------------------------------------------- completion

    /** One round of virtio_disk_intr. */
    method IntrOne() returns (more: bool, panicked: bool)
      requires Valid()
      modifies this`usedIdx, this`busy, this`reqs, this`seen, this`served
      ensures Valid() && !panicked && (more <==> old(seen) < done)
      ensures !more ==> reqs == old(reqs) && seen == old(seen) && served == old(served) && busy == old(busy)
      ensures more ==>
                exists h ::
                  && h in old(reqs) && old(reqs)[h].stage == Done(old(seen))
                  && reqs == Restaged(old(reqs), h, Seen)
                  && served == old(served) + [old(reqs)[h].id]
                  && busy == old(busy) - {old(reqs)[h].buf}
      ensures more ==> seen == old(seen) + 1
    {
      hide Space, Avail, Used, Books;
      var id;
      more, id := TakeUsed();
      if !more {
        return false, false;
      }
      InfoSize(free, desc, ops, info, reqs, id);
      if info[id].status != 0 {
        return true, true;
      }
      AvailSkip(availRing, availIdx, devAvail, fetched, made, reqs, id, Seen);
      BooksSeen(busy, served, made, reqs, id);
      SpaceRestage(free, desc, ops, info, reqs, id, Seen, info);
      busy := busy - {info[id].b};
      served := served + [reqs[id].id];
      reqs := Restaged(reqs, id, Seen);
      seen := seen + 1;
      panicked := false;
    }

    /** The driver's reading of the used ring. */
    method TakeUsed() returns (more: bool, id: nat)
      requires Used(usedRing, usedIdx, devUsed, seen, done, reqs)
      modifies this`usedIdx
      ensures more <==> seen < done
      ensures !more ==> usedIdx == old(usedIdx)
      ensures more ==> && id in reqs && reqs[id].stage == Done(seen)
                       && Used(usedRing, usedIdx, devUsed, seen + 1, done, Restaged(reqs, id, Seen))
    {
      hide UsedOk, Slot, Wrapped;
      UsedSize(usedRing, seen, done, reqs);
      UsedCount(usedRing, seen, done, reqs);
      WrapDiffers(usedIdx, seen, devUsed, done);
      if usedIdx == devUsed {
        return false, 0;
      }
      WrapSlot(usedIdx, seen);
      id := usedRing[usedIdx % NUM];
      usedIdx := (usedIdx + 1) % WRAP;
      UsedSeen(usedRing, seen, done, reqs, id);
      RestagedSize(reqs, id, Seen);
      more := true;
    }

    /** virtio_disk_intr: reports every request the device is done with. */
    method Intr() returns (panicked: bool)
      requires Valid()
      modifies this`usedIdx, this`busy, this`reqs, this`seen, this`served
      ensures Valid() && !panicked && seen == done && old(seen) <= seen
      ensures |served| == |old(served)| + (seen - old(seen)) && old(served) <= served
    {
      hide Space, Avail, Books, UsedOk, Wrapped;
      UsedSize(usedRing, seen, done, reqs);
      var more;
      more, panicked := IntrOne();
      while more
        invariant Valid() && !panicked && (!more ==> seen == done) && old(seen) <= seen
        invariant |served| == |old(served)| + (seen - old(seen)) && old(served) <= served
        decreases done - seen, more
      {
        UsedSize(usedRing, seen, done, reqs);
        more, panicked := IntrOne();
      }
    }

    /** The second half of virtio_disk_rw, once b->disk has been cleared. */
    method Finish(h: nat) returns (panicked: bool)
      requires Valid() && h in reqs && reqs[h].buf !in busy
      modifies this`info, this`free, this`desc, this`reqs, this`waiting
      ensures Valid() && !panicked && reqs == old(reqs) - {h} && WaitersServed()
    {
      hide Space, Avail, Used, Books;
      IsSeen(busy, served, made, reqs, h);
      BooksRemove(busy, served, made, reqs, h);
      AvailRemove(availRing, availIdx, devAvail, fetched, made, reqs, h);
      UsedRemove(usedRing, usedIdx, devUsed, seen, done, reqs, h);
      panicked := Release(h);
      reqs := reqs - {h};
    }

    method Release(h: nat) returns (panicked: bool)
      requires Space(free, desc, ops, info, reqs) && h in reqs
      modifies this`info, this`free, this`desc, this`waiting
      ensures !waiting
      ensures !panicked && Space(free, desc, ops, info, reqs - {h}) && NumFree(free) == old(NumFree(free)) + 3
    {
      hide Tables, NumFree;
      ghost var f0, d0, n0 := free, desc, info;
      InfoSize(free, desc, ops, info, reqs, h);
      ChainFacts(free, desc, ops, info, reqs, h);
      info := info[h := info[h].(b := 0)];
      panicked := FreeChain(h, n0);
      CountBack(f0, h, reqs[h].d1, reqs[h].d2);
      TablesRemove(f0, d0, ops, n0, reqs, h, free, desc, info);
    }
  }

  lemma InfoSize(free: seq<bool>, desc: seq<Desc>, ops: seq<Op>, info: seq<Info>, reqs: Reqs, h: nat)
    requires Space(free, desc, ops, info, reqs) && h in reqs
    ensures |info| == NUM && h < NUM && info[h].b == reqs[h].buf
    ensures (reqs[h].stage.Done? || reqs[h].stage.Seen? ==> info[h].status == 0)
  {
    assert Chained(desc, ops, info, h, reqs[h]);
  }

  lemma ChainAt(free: seq<bool>, desc: seq<Desc>, ops: seq<Op>, info: seq<Info>, reqs: Reqs, h: nat)
    requires Space(free, desc, ops, info, reqs) && h in reqs
    ensures |desc| == |ops| == |info| == NUM && h < NUM && reqs[h].d1 < NUM && reqs[h].d2 < NUM
    ensures Chained(desc, ops, info, h, reqs[h])
  {
  }

  lemma TookFacts(was: seq<bool>, idx: seq<nat>, free: seq<bool>)
    requires |was| == |free| == NUM && Took(was, idx, free)
    ensures (forall i :: 0 <= i < |idx| ==> idx[i] < NUM) && forall i, j :: 0 <= i < j < |idx| ==> idx[i] != idx[j]
  {
  }

  lemma ChainFacts(free: seq<bool>, desc: seq<Desc>, ops: seq<Op>, info: seq<Info>, reqs: Reqs, h: nat)
    requires Tables(free, desc, ops, info, reqs) && h in reqs
    ensures |free| == |desc| == NUM
    ensures var r := reqs[h];
            && h < NUM && r.d1 < NUM && r.d2 < NUM && h != r.d1 && h != r.d2 && r.d1 != r.d2
            && !free[h] && !free[r.d1] && !free[r.d2]
            && HasNext(desc[h].flags) && desc[h].next == r.d1 && HasNext(desc[r.d1].flags) && desc[r.d1].next == r.d2
            && !HasNext(desc[r.d2].flags)
  {
    var r := reqs[h];
    assert In(reqs, h, h) && In(reqs, h, r.d1) && In(reqs, h, r.d2);
    assert Chained(desc, ops, info, h, r);
  }

  /** The descriptors idx, distinct and free before, are not free any more. */
  ghost predicate Took(was: seq<bool>, idx: seq<nat>, free: seq<bool>)
    requires |was| == |free| == NUM
  {
    && (forall i :: 0 <= i < |idx| ==> idx[i] < NUM && was[idx[i]])
    && (forall i, j :: 0 <= i < j < |idx| ==> idx[i] != idx[j])
    && (forall k :: 0 <= k < NUM ==> (free[k] <==> was[k] && k !in idx))
  }

  lemma FreeAreZero(free: seq<bool>, desc: seq<Desc>, ops: seq<Op>, info: seq<Info>, reqs: Reqs)
    requires Tables(free, desc, ops, info, reqs)
    ensures |free| == |desc| == |ops| == |info| == NUM && forall i :: 0 <= i < NUM && free[i] ==> desc[i] == ZERO
  {
  }

  lemma SplitAdd(was: seq<bool>, reqs: Reqs, idx: seq<nat>, free: seq<bool>, r: Req)
    requires Split(was, reqs) && |free| == NUM && |idx| == 3 && Took(was, idx, free) && r.d1 == idx[1] && r.d2 == idx[2]
    ensures idx[0] !in reqs && Split(free, reqs[idx[0] := r])
  {
    var h, q := idx[0], reqs[idx[0] := r];
    assert h in reqs ==> In(reqs, h, h);
    assert forall i: nat :: In(q, h, i) <==> i in idx;
    assert forall g, i: nat :: g != h ==> (In(q, g, i) <==> In(reqs, g, i));
    forall g, i: nat | In(reqs, g, i)
      ensures i !in idx
    {
      assert !was[i];
    }
    forall i | 0 <= i < NUM
      ensures free[i] <==> !exists g :: In(q, g, i)
    {
      if i in idx {
        assert In(q, h, i);
      } else if was[i] {
        assert !exists g :: In(reqs, g, i);
      } else {
        var g :| In(reqs, g, i);
        assert In(q, g, i);
      }
    }
  }

  lemma TablesAdd(f0: seq<bool>, d0: seq<Desc>, o0: seq<Op>, n0: seq<Info>, reqs: Reqs, idx: seq<nat>, free: seq<bool>,
                  desc: seq<Desc>, ops: seq<Op>, info: seq<Info>, r: Req)
    requires Tables(f0, d0, o0, n0, reqs) && |free| == NUM && |idx| == 3 && Took(f0, idx, free) && r.d1 == idx[1]
    requires r.d2 == idx[2]
    requires |desc| == |ops| == |info| == NUM && Chained(desc, ops, info, idx[0], r)
    requires forall i :: 0 <= i < NUM && i !in idx ==> desc[i] == d0[i] && ops[i] == o0[i] && info[i] == n0[i]
    ensures idx[0] !in reqs && Tables(free, desc, ops, info, reqs[idx[0] := r])
  {
    hide Split, Chained, Took;
    SplitBounds(f0, reqs);
    SplitAdd(f0, reqs, idx, free, r);
    forall g | g in reqs
      ensures Chained(desc, ops, info, g, reqs[g])
    {
      ChainStays(f0, d0, o0, n0, reqs, idx, free, desc, ops, info, g);
    }
    forall i | 0 <= i < NUM && free[i]
      ensures desc[i] == ZERO
    {
      StillFree(f0, idx, free, i);
    }
  }

  lemma SplitBounds(free: seq<bool>, reqs: Reqs)
    requires Split(free, reqs)
    ensures |free| == NUM && forall h :: h in reqs ==> h < NUM && reqs[h].d1 < NUM && reqs[h].d2 < NUM
  {
  }

  lemma StillFree(was: seq<bool>, idx: seq<nat>, free: seq<bool>, i: nat)
    requires |was| == |free| == NUM && Took(was, idx, free) && i < NUM && free[i]
    ensures was[i] && i !in idx
  {
  }

  /** A chain in flight has none of the descriptors just taken. */
  lemma ChainStays(f0: seq<bool>, d0: seq<Desc>, o0: seq<Op>, n0: seq<Info>, reqs: Reqs, idx: seq<nat>, free: seq<bool>,
                   desc: seq<Desc>, ops: seq<Op>, info: seq<Info>, g: nat)
    requires Tables(f0, d0, o0, n0, reqs) && |free| == NUM && Took(f0, idx, free) && g in reqs
    requires |desc| == |ops| == |info| == NUM
    requires forall i :: 0 <= i < NUM && i !in idx ==> desc[i] == d0[i] && ops[i] == o0[i] && info[i] == n0[i]
    ensures Chained(desc, ops, info, g, reqs[g])
  {
    assert Chained(d0, o0, n0, g, reqs[g]);
    assert In(reqs, g, g) && In(reqs, g, reqs[g].d1) && In(reqs, g, reqs[g].d2);
    assert !f0[g] && !f0[reqs[g].d1] && !f0[reqs[g].d2];
  }

  /** No more unfetched or unseen entries than requests, and there are at most two of those. */
  lemma AvailCount(ring: seq<nat>, lo: nat, hi: nat, reqs: Reqs)
    requires AvailOk(ring, lo, hi, reqs)
    ensures hi - lo <= |reqs|
  {
    var s := seq(hi - lo, i requires 0 <= i < hi - lo => ring[Slot(lo + i)]);
    forall i | 0 <= i < |s|
      ensures s[i] in reqs && reqs[s[i]].id == lo + i
    {
      assert s[i] == ring[Slot(lo + i)];
    }
    Fits(s, reqs.Keys);
  }

  lemma UsedCount(ring: seq<nat>, lo: nat, hi: nat, reqs: Reqs)
    requires UsedOk(ring, lo, hi, reqs)
    ensures hi - lo <= |reqs|
  {
    var s := seq(hi - lo, i requires 0 <= i < hi - lo => ring[Slot(lo + i)]);
    forall i | 0 <= i < |s|
      ensures s[i] in reqs && reqs[s[i]].stage == Done(lo + i)
    {
      assert s[i] == ring[Slot(lo + i)];
    }
    Fits(s, reqs.Keys);
  }

  /** Counts less than NUM apart have different slots. */
  lemma SlotsDiffer(k: nat, j: nat)
    requires k < j < k + NUM
    ensures Slot(k) != Slot(j)
  {
  }

  lemma RingSize(ring: seq<nat>, lo: nat, hi: nat, reqs: Reqs)
    requires AvailOk(ring, lo, hi, reqs)
    ensures |ring| == NUM && lo <= hi
  {
  }

  lemma MapSize(reqs: Reqs, h: nat, r: Req)
    requires h !in reqs
    ensures |reqs[h := r]| == |reqs| + 1
  {
    assert reqs[h := r].Keys == reqs.Keys + {h};
  }

  lemma AvailAdd(ring: seq<nat>, lo: nat, hi: nat, reqs: Reqs, h: nat, r: Req)
    requires AvailOk(ring, lo, hi, reqs) && hi < lo + NUM && h !in reqs && r.id == hi && r.stage == Queued
    ensures AvailOk(ring[Slot(hi) := h], lo, hi + 1, reqs[h := r])
  {
    forall k: nat | lo <= k < hi
      ensures Slot(k) != Slot(hi)
    {
      SlotsDiffer(k, hi);
    }
  }

  lemma UsedAdd(ring: seq<nat>, idx: nat, dev: nat, seen: nat, done: nat, reqs: Reqs, h: nat, r: Req)
    requires Used(ring, idx, dev, seen, done, reqs) && h !in reqs && |reqs| < 2 && r.stage == Queued
    ensures Used(ring, idx, dev, seen, done, reqs[h := r])
  {
    assert reqs[h := r].Keys == reqs.Keys + {h};
  }

  lemma BooksAdd(busy: set<nat>, reqs: Reqs, n: nat, served: seq<nat>, h: nat, r: Req)
    requires Books(busy, served, n, reqs) && h !in reqs && r.id == n && r.stage == Queued
    requires forall g :: g in reqs ==> reqs[g].buf != r.buf
    ensures Books(busy + {r.buf}, served, n + 1, reqs[h := r])
  {
    var q := reqs[h := r];
    forall b | b in busy + {r.buf}
      ensures exists g :: g in q && q[g].buf == b
    {
      if b == r.buf {
        assert q[h].buf == b;
      } else {
        var g :| g in reqs && reqs[g].buf == b;
        assert q[g].buf == b;
      }
    }
    forall id: nat | id < n + 1 && id !in served
      ensures exists g :: g in q && q[g].id == id
    {
      if id == n {
        assert q[h].id == id;
      } else {
        var g :| g in reqs && reqs[g].id == id;
        assert q[g].id == id;
      }
    }
  }

  // ---------------------------------------------------------------- a request moves on

  function Restaged(reqs: Reqs, h: nat, st: Stage): Reqs
    requires h in reqs
  {
    reqs[h := reqs[h].(stage := st)]
  }

  lemma RestagedSize(reqs: Reqs, h: nat, st: Stage)
    requires h in reqs
    ensures |Restaged(reqs, h, st)| == |reqs|
  {
    assert Restaged(reqs, h, st).Keys == reqs.Keys;
  }

  lemma SplitRestage(free: seq<bool>, reqs: Reqs, h: nat, st: Stage)
    requires Split(free, reqs) && h in reqs
    ensures Split(free, Restaged(reqs, h, st))
  {
    var q := Restaged(reqs, h, st);
    assert forall g, i: nat :: In(q, g, i) <==> In(reqs, g, i);
    forall i | 0 <= i < NUM
      ensures free[i] <==> !exists g :: In(q, g, i)
    {
      if g :| In(reqs, g, i) {
        assert In(q, g, i);
      }
    }
  }

  lemma SpaceRestage(free: seq<bool>, desc: seq<Desc>, ops: seq<Op>, info: seq<Info>, reqs: Reqs, h: nat, st: Stage,
                     info': seq<Info>)
    requires Space(free, desc, ops, info, reqs) && h in reqs && h < NUM && |info| == |info'| == NUM
    requires info'[h].b == info[h].b
    requires forall i :: 0 <= i < NUM && i != h ==> info'[i] == info[i]
    requires st.Done? || st.Seen? ==> info'[h].status == 0
    ensures Space(free, desc, ops, info', Restaged(reqs, h, st))
  {
    hide Split, NumFree;
    SplitRestage(free, reqs, h, st);
    RestagedSize(reqs, h, st);
    SplitSizes(free, reqs);
    var q := Restaged(reqs, h, st);
    forall g | g in q
      ensures g < NUM && q[g].d1 < NUM && q[g].d2 < NUM && Chained(desc, ops, info', g, q[g])
    {
      assert Chained(desc, ops, info, g, reqs[g]);
    }
  }

  lemma SplitSizes(free: seq<bool>, reqs: Reqs)
    requires Split(free, reqs)
    ensures |free| == NUM && forall g :: g in reqs ==> g < NUM && reqs[g].d1 < NUM && reqs[g].d2 < NUM
  {
  }

  lemma AvailSkip(ring: seq<nat>, idx: nat, dev: nat, lo: nat, hi: nat, reqs: Reqs, h: nat, st: Stage)
    requires Avail(ring, idx, dev, lo, hi, reqs) && h in reqs && reqs[h].stage != Queued && st != Queued
    ensures Avail(ring, idx, dev, lo, hi, Restaged(reqs, h, st))
  {
    hide Wrapped;
    RestagedSize(reqs, h, st);
  }

  lemma UsedSkip(ring: seq<nat>, idx: nat, dev: nat, lo: nat, hi: nat, reqs: Reqs, h: nat, st: Stage)
    requires Used(ring, idx, dev, lo, hi, reqs) && h in reqs && !reqs[h].stage.Done? && !st.Done?
    ensures Used(ring, idx, dev, lo, hi, Restaged(reqs, h, st))
  {
    hide Wrapped;
    RestagedSize(reqs, h, st);
  }

  lemma AvailFetch(ring: seq<nat>, lo: nat, hi: nat, reqs: Reqs, h: nat)
    requires AvailOk(ring, lo, hi, reqs) && lo < hi && h == ring[Slot(lo)]
    ensures h in reqs && reqs[h].stage == Queued && reqs[h].id == lo
    ensures AvailOk(ring, lo + 1, hi, Restaged(reqs, h, Fetched))
  {
    forall k: nat | lo < k < hi
      ensures ring[Slot(k)] != h
    {
      assert reqs[ring[Slot(k)]].id == k;
    }
  }

  lemma UsedDone(ring: seq<nat>, lo: nat, hi: nat, reqs: Reqs, h: nat)
    requires UsedOk(ring, lo, hi, reqs) && hi < lo + NUM && h in reqs && !reqs[h].stage.Done?
    ensures UsedOk(ring[Slot(hi) := h], lo, hi + 1, Restaged(reqs, h, Done(hi)))
  {
    forall k: nat | lo <= k < hi
      ensures Slot(k) != Slot(hi) && ring[Slot(k)] != h
    {
      SlotsDiffer(k, hi);
    }
  }

  lemma UsedSeen(ring: seq<nat>, lo: nat, hi: nat, reqs: Reqs, h: nat)
    requires UsedOk(ring, lo, hi, reqs) && lo < hi && h == ring[Slot(lo)]
    ensures h in reqs && reqs[h].stage == Done(lo) && UsedOk(ring, lo + 1, hi, Restaged(reqs, h, Seen))
  {
    forall k: nat | lo < k < hi
      ensures ring[Slot(k)] != h
    {
      assert reqs[ring[Slot(k)]].stage == Done(k);
    }
  }

  lemma BooksSame(busy: set<nat>, served: seq<nat>, n: nat, reqs: Reqs, h: nat, st: Stage)
    requires Books(busy, served, n, reqs) && h in reqs && reqs[h].stage != Seen && st != Seen
    ensures Books(busy, served, n, Restaged(reqs, h, st))
  {
    hide BusyOk, ServedOk;
    BusySame(busy, reqs, h, st);
    ServedSame(served, n, reqs, h, st);
  }

  lemma BusySame(busy: set<nat>, reqs: Reqs, h: nat, st: Stage)
    requires BusyOk(busy, reqs) && h in reqs && reqs[h].stage != Seen && st != Seen
    ensures BusyOk(busy, Restaged(reqs, h, st))
  {
    BufStillThere(busy, reqs, h, st);
  }

  lemma ServedSame(served: seq<nat>, n: nat, reqs: Reqs, h: nat, st: Stage)
    requires ServedOk(served, n, reqs) && h in reqs && reqs[h].stage != Seen && st != Seen
    ensures ServedOk(served, n, Restaged(reqs, h, st))
  {
    IdStillThere(served, n, reqs, h, st);
  }

  lemma BooksSeen(busy: set<nat>, served: seq<nat>, n: nat, reqs: Reqs, h: nat)
    requires Books(busy, served, n, reqs) && h in reqs && reqs[h].stage != Seen
    ensures Books(busy - {reqs[h].buf}, served + [reqs[h].id], n, Restaged(reqs, h, Seen))
  {
    hide BusyOk, ServedOk;
    BusySeen(busy, reqs, h);
    ServedSeen(served, n, reqs, h);
  }

  lemma BusySeen(busy: set<nat>, reqs: Reqs, h: nat)
    requires BusyOk(busy, reqs) && h in reqs && reqs[h].stage != Seen
    ensures BusyOk(busy - {reqs[h].buf}, Restaged(reqs, h, Seen))
  {
    BufStillThere(busy, reqs, h, Seen);
  }

  lemma ServedSeen(served: seq<nat>, n: nat, reqs: Reqs, h: nat)
    requires ServedOk(served, n, reqs) && h in reqs && reqs[h].stage != Seen
    ensures ServedOk(served + [reqs[h].id], n, Restaged(reqs, h, Seen))
  {
    IdStillThere(served, n, reqs, h, Seen);
  }

  lemma IdStillThere(served: seq<nat>, n: nat, reqs: Reqs, h: nat, st: Stage)
    requires ServedOk(served, n, reqs) && h in reqs
    ensures var q := Restaged(reqs, h, st);
            forall id: nat :: id < n && id !in served ==> exists g :: g in q && q[g].id == id
  {
    var q := Restaged(reqs, h, st);
    forall id: nat | id < n && id !in served
      ensures exists g :: g in q && q[g].id == id
    {
      var g :| g in reqs && reqs[g].id == id;
      assert q[g].id == id;
    }
  }

  lemma BufStillThere(busy: set<nat>, reqs: Reqs, h: nat, st: Stage)
    requires BusyOk(busy, reqs) && h in reqs
    ensures var q := Restaged(reqs, h, st);
            forall b :: b in busy ==> exists g :: g in q && q[g].buf == b
  {
    var q := Restaged(reqs, h, st);
    forall b | b in busy
      ensures exists g :: g in q && q[g].buf == b
    {
      var g :| g in reqs && reqs[g].buf == b;
      assert q[g].buf == b;
    }
  }

  // ---------------------------------------------------------------- a request is over

  lemma UsedSize(ring: seq<nat>, lo: nat, hi: nat, reqs: Reqs)
    requires UsedOk(ring, lo, hi, reqs)
    ensures lo <= hi && |ring| == NUM
  {
  }

  lemma IsSeen(busy: set<nat>, served: seq<nat>, n: nat, reqs: Reqs, h: nat)
    requires Books(busy, served, n, reqs) && h in reqs && reqs[h].buf !in busy
    ensures reqs[h].stage == Seen
  {
  }

  lemma CountBack(free: seq<bool>, x: nat, y: nat, z: nat)
    requires |free| == NUM && x < NUM && y < NUM && z < NUM && x != y && x != z && y != z && !free[x] && !free[y]
    requires !free[z]
    ensures NumFree(free[x := true][y := true][z := true]) == NumFree(free) + 3
  {
    NumFreeSet(free, x, true);
    NumFreeSet(free[x := true], y, true);
    NumFreeSet(free[x := true][y := true], z, true);
  }

  lemma SplitRemove(free: seq<bool>, reqs: Reqs, h: nat, free': seq<bool>)
    requires Split(free, reqs) && h in reqs
    requires free' == free[h := true][reqs[h].d1 := true][reqs[h].d2 := true]
    ensures Split(free', reqs - {h})
  {
    var q := reqs - {h};
    assert forall g, i: nat :: In(q, g, i) <==> g != h && In(reqs, g, i);
    forall i | 0 <= i < NUM
      ensures free'[i] <==> !exists g :: In(q, g, i)
    {
      if In(reqs, h, i) {
        assert free'[i];
      } else if !free[i] {
        var g :| In(reqs, g, i);
        assert In(q, g, i);
      }
    }
  }

  /** The descriptors of another request are not those of h. */
  lemma Others(free: seq<bool>, reqs: Reqs, g: nat, h: nat)
    requires Split(free, reqs) && g in reqs && h in reqs && g != h
    ensures var r, x := reqs[g], reqs[h];
            && g != x.d1
            && g != x.d2
            && r.d1 != h
            && r.d1 != x.d1
            && r.d1 != x.d2
            && r.d2 != h
            && r.d2 != x.d1
            && r.d2 != x.d2
            && g < NUM && r.d1 < NUM && r.d2 < NUM
  {
    var r, x := reqs[g], reqs[h];
    assert In(reqs, g, g) && In(reqs, g, r.d1) && In(reqs, g, r.d2);
    assert In(reqs, h, h) && In(reqs, h, x.d1) && In(reqs, h, x.d2);
  }

  lemma ChainKept(free: seq<bool>, desc: seq<Desc>, ops: seq<Op>, info: seq<Info>, reqs: Reqs, h: nat, g: nat,
                  desc': seq<Desc>, info': seq<Info>)
    requires Tables(free, desc, ops, info, reqs) && h in reqs && g in reqs && g != h && |desc'| == |info'| == NUM
    requires forall i :: 0 <= i < NUM && i != h && i != reqs[h].d1 && i != reqs[h].d2 ==> desc'[i] == desc[i]
    requires forall i :: 0 <= i < NUM && i != h ==> info'[i] == info[i]
    ensures g < NUM && reqs[g].d1 < NUM && reqs[g].d2 < NUM && Chained(desc', ops, info', g, reqs[g])
  {
    hide Split;
    Others(free, reqs, g, h);
    assert Chained(desc, ops, info, g, reqs[g]);
  }

  lemma TablesRemove(free: seq<bool>, desc: seq<Desc>, ops: seq<Op>, info: seq<Info>, reqs: Reqs, h: nat,
                     free': seq<bool>, desc': seq<Desc>, info': seq<Info>)
    requires Tables(free, desc, ops, info, reqs) && h in reqs && |info'| == NUM && h < NUM && reqs[h].d1 < NUM
    requires reqs[h].d2 < NUM
    requires free' == free[h := true][reqs[h].d1 := true][reqs[h].d2 := true]
    requires desc' == desc[h := ZERO][reqs[h].d1 := ZERO][reqs[h].d2 := ZERO]
    requires forall i :: 0 <= i < NUM && i != h ==> info'[i] == info[i]
    ensures Tables(free', desc', ops, info', reqs - {h}) && |reqs - {h}| == |reqs| - 1
  {
    hide Split, Chained;
    var q := reqs - {h};
    SplitRemove(free, reqs, h, free');
    SplitSizes(free', q);
    SplitSizes(free, reqs);
    assert reqs.Keys == q.Keys + {h};
    forall g | g in q
      ensures g < NUM && q[g].d1 < NUM && q[g].d2 < NUM && Chained(desc', ops, info', g, q[g])
    {
      ChainKept(free, desc, ops, info, reqs, h, g, desc', info');
    }
  }

  lemma AvailRemove(ring: seq<nat>, idx: nat, dev: nat, lo: nat, hi: nat, reqs: Reqs, h: nat)
    requires Avail(ring, idx, dev, lo, hi, reqs) && h in reqs && reqs[h].stage == Seen
    ensures Avail(ring, idx, dev, lo, hi, reqs - {h})
  {
    hide Wrapped, Slot;
    assert reqs.Keys == (reqs - {h}).Keys + {h};
  }

  lemma UsedRemove(ring: seq<nat>, idx: nat, dev: nat, lo: nat, hi: nat, reqs: Reqs, h: nat)
    requires Used(ring, idx, dev, lo, hi, reqs) && h in reqs && reqs[h].stage == Seen
    ensures Used(ring, idx, dev, lo, hi, reqs - {h})
  {
    hide Wrapped, Slot;
    assert reqs.Keys == (reqs - {h}).Keys + {h};
  }

  lemma BooksRemove(busy: set<nat>, served: seq<nat>, n: nat, reqs: Reqs, h: nat)
    requires Books(busy, served, n, reqs) && h in reqs && reqs[h].stage == Seen
    ensures Books(busy, served, n, reqs - {h})
  {
    var q := reqs - {h};
    forall b | b in busy
      ensures exists g :: g in q && q[g].buf == b
    {
      var g :| g in reqs && reqs[g].buf == b;
      assert q[g].buf == b;
    }
    forall id: nat | id < n && id !in served
      ensures exists g :: g in q && q[g].id == id
    {
      var g :| g in reqs && reqs[g].id == id;
      assert q[g].id == id;
    }
  }

  lemma {:induction false} AllFree(free: seq<bool>)
    requires forall i :: 0 <= i < |free| ==> free[i]
    ensures NumFree(free) == |free|
    decreases |free|
  {
    if free != [] {
      AllFree(free[1..]);
    }
  }

  /** In every state of every run: a request ever made has been reported to its process exactly
      once, or not yet, and then it is one of at most two that hold three descriptors each. */
  lemma ExactlyOnce(free: seq<bool>, desc: seq<Desc>, ops: seq<Op>, info: seq<Info>, busy: set<nat>, served: seq<nat>,
                    made: nat, reqs: Reqs, id: nat)
    requires Space(free, desc, ops, info, reqs) && Books(busy, served, made, reqs) && id < made
    ensures |reqs| <= 2
    ensures id in served ==>
              multiset(served)[id] == 1 && forall h :: h in reqs && reqs[h].id == id ==> reqs[h].stage == Seen
    ensures id !in served ==> exists h :: h in reqs && reqs[h].id == id && reqs[h].stage != Seen && reqs[h].buf in busy
  {
    hide Tables, NumFree;
    if id in served {
      Once(served, id);
    } else {
      var h :| h in reqs && reqs[h].id == id;
      assert reqs[h].stage != Seen;
    }
  }

  lemma {:induction false} Once(s: seq<nat>, x: nat)
    requires x in s && forall i, j :: 0 <= i < j < |s| ==> s[i] != s[j]
    ensures multiset(s)[x] == 1
    decreases |s|
  {
    assert s == [s[0]] + s[1..];
    if x in s[1..] {
      Once(s[1..], x);
    }
  }
}
