/** kernel/vm.c: copying a process's memory into a child's page table. Both address spaces
    live in the same physical memory; the proofs keep them apart.
 */
module Fork {
  import opened Prelude
  import opened PageTable
  import opened Vm

  /** The page is a table of the space or one of its user frames. */
  ghost predicate Owns(sp: Space, frames: Frames, p: nat)
  {
    Tables(sp, p) || exists v :: v in frames && frames[v] == p
  }

  /** No page belongs to both address spaces. */
  ghost predicate Apart(a: Space, fa: Frames, b: Space, fb: Frames)
  {
    forall p :: Owns(a, fa, p) ==> !Owns(b, fb, p)
  }

  function PageAt(m: Mem, p: nat): Page
  {
    if p in m then m[p] else Blank()
  }

  /** What a copy is to hold at each virtual page: the content of the original's frame, under
      the original's permissions. */
  function Original(m: Mem, sp: Space): Wanted
  {
    (v: nat) => (PageAt(m, Ppn(Pte(m, sp, v))), Flags(Pte(m, sp, v)))
  }

  /** An address space is as it was: the same translations to the same contents. */
  ghost predicate Kept(m0: Mem, mem: Mem, lo: nat, hi: nat, free: seq<nat>, sp: Space, frames: Frames)
  {
    && UserOk(mem, lo, hi, free, sp, frames)
    && (forall v: nat :: Pte(mem, sp, v) == Pte(m0, sp, v))
    && (forall v :: v in frames ==> frames[v] in m0 && frames[v] in mem && mem[frames[v]] == m0[frames[v]])
  }

  /** Work on one address space leaves the other one alone. */
  lemma Bystander(m0: Mem, lo: nat, hi: nat, f0: seq<nat>, osp: Space, oframes: Frames, sp: Space, frames: Frames,
                  mem: Mem, free: seq<nat>)
    requires UserOk(m0, lo, hi, f0, osp, oframes) && Apart(osp, oframes, sp, frames) && Untouched(m0, f0, sp, mem)
    requires forall p :: p in free ==> p in f0
    ensures Kept(m0, mem, lo, hi, free, osp, oframes)
  {
    hide PageTable.TreeOk, PageTable.Pte, Apart;
    OwnsTables(osp, oframes);
    forall n | n in osp.nodes
      ensures osp.nodes[n] in m0 && osp.nodes[n] in mem && mem[osp.nodes[n]] == m0[osp.nodes[n]]
    {
      TablePages(m0, osp, n);
      NotBoth(osp, oframes, sp, frames, osp.nodes[n]);
    }
    TreeFrame(m0, mem, osp);
    forall v | v in oframes
      ensures oframes[v] in m0 && oframes[v] in mem && mem[oframes[v]] == m0[oframes[v]]
      ensures FrameOk(mem, lo, hi, free, osp, v, oframes[v])
    {
      assert FrameOk(m0, lo, hi, f0, osp, v, oframes[v]);
      assert Owns(osp, oframes, oframes[v]);
      NotBoth(osp, oframes, sp, frames, oframes[v]);
    }
  }

  lemma OwnsTables(sp: Space, frames: Frames)
    ensures forall n :: n in sp.nodes ==> Tables(sp, sp.nodes[n]) && Owns(sp, frames, sp.nodes[n])
  {
  }

  lemma NotBoth(a: Space, fa: Frames, b: Space, fb: Frames, p: nat)
    requires Apart(a, fa, b, fb) && Owns(a, fa, p)
    ensures !Owns(b, fb, p) && !Tables(b, p)
  {
  }

  /** Pages a space gained were free, so they are nobody else's. */
  lemma StillApart(m0: Mem, lo: nat, hi: nat, f0: seq<nat>, osp: Space, oframes: Frames, sp: Space, frames: Frames,
                   sp': Space, frames': Frames)
    requires UserOk(m0, lo, hi, f0, osp, oframes) && Apart(osp, oframes, sp, frames)
    requires forall p :: Owns(sp', frames', p) ==> Owns(sp, frames, p) || p in f0
    ensures Apart(osp, oframes, sp', frames')
  {
    hide PageTable.TreeOk, PageTable.Pte;
    forall p | Owns(osp, oframes, p)
      ensures p !in f0
    {
      if !Tables(osp, p) {
        var v :| v in oframes && oframes[v] == p;
        assert FrameOk(m0, lo, hi, f0, osp, v, oframes[v]);
      }
    }
  }

  /** What growing adds to a space was free. */
  lemma GrownOwns(m0: Mem, f0: seq<nat>, sp: Space, frames: Frames, lo: nat, hi: nat, mem: Mem, free: seq<nat>,
                  sp': Space, taken: seq<nat>, frames': Frames, first: nat, k: nat, want: Wanted, p: nat)
    requires UserGrown(m0, f0, sp, frames, lo, hi, mem, free, sp', taken, frames', first, k, want)
    requires Owns(sp', frames', p)
    ensures Owns(sp, frames, p) || p in f0
  {
    hide PageTable.TreeOk, PageTable.Pte, PageTable.UserOk, PageTable.SpaceOk, Vm.NewPages, Vm.Untouched,
      PageTable.FramesOf;
    if Tables(sp', p) {
      if !Tables(sp, p) {
        AddedTable(sp, sp', taken, p);
        assert p in multiset(taken) && p in multiset(f0);
      }
    } else {
      var v :| v in frames' && frames'[v] == p;
      if v in frames {
        assert frames[v] == p;
      } else {
        InFramesOf(frames', first, k, v);
        assert p in multiset(FramesOf(frames', first, k)) && p in multiset(f0);
      }
    }
  }

  lemma UndoneOwns(m0: Mem, f0: seq<nat>, sp: Space, frames: Frames, lo: nat, hi: nat, mem: Mem, free: seq<nat>,
                   sp': Space, taken: seq<nat>, p: nat)
    requires Undone(m0, f0, sp, frames, lo, hi, mem, free, sp', taken) && Owns(sp', frames, p)
    ensures Owns(sp, frames, p) || p in f0
  {
    hide PageTable.TreeOk, PageTable.Pte, PageTable.UserOk, PageTable.SpaceOk, Vm.Untouched;
    if Tables(sp', p) && !Tables(sp, p) {
      AddedTable(sp, sp', taken, p);
      assert p in multiset(taken) && p in multiset(f0);
    }
  }

  lemma GrownBystander(m0: Mem, f0: seq<nat>, sp: Space, frames: Frames, lo: nat, hi: nat, mem: Mem, free: seq<nat>,
                       sp': Space, taken: seq<nat>, frames': Frames, first: nat, k: nat, want: Wanted, osp: Space,
                       oframes: Frames)
    requires UserGrown(m0, f0, sp, frames, lo, hi, mem, free, sp', taken, frames', first, k, want)
    requires UserOk(m0, lo, hi, f0, osp, oframes) && Apart(osp, oframes, sp, frames)
    ensures Kept(m0, mem, lo, hi, free, osp, oframes) && Apart(osp, oframes, sp', frames')
  {
    hide PageTable.TreeOk, PageTable.Pte, PageTable.UserOk, PageTable.SpaceOk, Vm.NewPages, Vm.Untouched, Apart, Kept,
      Owns;
    forall p | p in free
      ensures p in f0
    {
      assert p in multiset(free) && p in multiset(f0);
    }
    Bystander(m0, lo, hi, f0, osp, oframes, sp, frames, mem, free);
    hide Vm.UserGrown;
    forall p | Owns(sp', frames', p)
      ensures Owns(sp, frames, p) || p in f0
    {
      GrownOwns(m0, f0, sp, frames, lo, hi, mem, free, sp', taken, frames', first, k, want, p);
    }
    StillApart(m0, lo, hi, f0, osp, oframes, sp, frames, sp', frames');
  }

  lemma UndoneBystander(m0: Mem, f0: seq<nat>, sp: Space, frames: Frames, lo: nat, hi: nat, mem: Mem, free: seq<nat>,
                        sp': Space, taken: seq<nat>, osp: Space, oframes: Frames)
    requires Undone(m0, f0, sp, frames, lo, hi, mem, free, sp', taken)
    requires UserOk(m0, lo, hi, f0, osp, oframes) && Apart(osp, oframes, sp, frames)
    ensures Kept(m0, mem, lo, hi, free, osp, oframes) && Apart(osp, oframes, sp', frames)
  {
    hide PageTable.TreeOk, PageTable.Pte, PageTable.UserOk, PageTable.SpaceOk, Vm.Untouched, Apart, Kept, Owns;
    forall p | p in free
      ensures p in f0
    {
      assert p in multiset(free) && p in multiset(f0);
    }
    Bystander(m0, lo, hi, f0, osp, oframes, sp, frames, mem, free);
    hide Vm.Undone;
    forall p | Owns(sp', frames, p)
      ensures Owns(sp, frames, p) || p in f0
    {
      UndoneOwns(m0, f0, sp, frames, lo, hi, mem, free, sp', taken, p);
    }
    StillApart(m0, lo, hi, f0, osp, oframes, sp, frames, sp', frames);
  }

  /** walk without alloc, and the entry it points to; None for a null pointer. */
  method Lookup(k: Memory, ghost sp: Space, root: nat, vpn: nat) returns (pte: Option<nat>, panicked: bool)
    requires k.Valid() && SpaceOk(k.mem, k.lo, k.hi, k.free, sp) && root == sp.root
    modifies k
    ensures k.Valid() && k.mem == old(k.mem) && k.free == old(k.free)
    ensures panicked <==> vpn >= VPN_LIMIT
    ensures !panicked ==> Pte(k.mem, sp, vpn) == if pte.Some? then pte.value else 0
  {
    hide PageTable.TreeOk, PageTable.Grew, PageTable.Pte, Vm.FreeList;
    ghost var sp', taken;
    var slot;
    slot, panicked, sp', taken := k.Walk(sp, root, vpn, false);
    if panicked {
      return None, true;
    }
    if slot == None {
      NoEntry(k.mem, sp, vpn);
      return None, false;
    }
    EntryOf(k.mem, sp, vpn);
    pte := Some(k.mem[slot.value.0][slot.value.1]);
  }

  /** walkaddr: the frame of a user page, 0 if there is none. */
  method Walkaddr(k: Memory, ghost sp: Space, root: nat, va: nat) returns (pa: nat)
    requires k.Valid() && SpaceOk(k.mem, k.lo, k.hi, k.free, sp) && root == sp.root
    modifies k
    ensures k.Valid() && k.mem == old(k.mem) && k.free == old(k.free)
    ensures var pte := Pte(k.mem, sp, va / PGSIZE);
            pa == if va < VPN_LIMIT * PGSIZE && V(pte) && (pte / PTE_U) % 2 == 1 then Ppn(pte) * PGSIZE else 0
  {
    hide PageTable.TreeOk, PageTable.Pte, Vm.FreeList;
    if va >= VPN_LIMIT * PGSIZE {
      return 0;
    }
    VpnOf(va);
    var pte, panicked := Lookup(k, sp, root, va / PGSIZE);
    if pte == None {
      return 0;
    }
    if !V(pte.value) {
      return 0;
    }
    if (pte.value / PTE_U) % 2 == 0 {
      return 0;
    }
    pa := Ppn(pte.value) * PGSIZE;
  }

  lemma VpnOf(va: nat)
    requires va < VPN_LIMIT * PGSIZE
    ensures va / PGSIZE < VPN_LIMIT
  {
  }

  /** The page to copy at v and its permissions. */
  lemma OriginalAt(m0: Mem, mem: Mem, lo: nat, hi: nat, free: seq<nat>, osp: Space, oframes: Frames, v: nat)
    requires Kept(m0, mem, lo, hi, free, osp, oframes) && V(Pte(mem, osp, v)) && v in oframes
    ensures Ppn(Pte(mem, osp, v)) in mem
    ensures Original(m0, osp)(v) == (mem[Ppn(Pte(mem, osp, v))], Flags(Pte(mem, osp, v)))
    ensures Flags(Pte(mem, osp, v)) < 1024 && (Flags(Pte(mem, osp, v)) / 2) % 8 != 0
  {
    hide PageTable.TreeOk, PageTable.Pte;
    assert FrameOk(mem, lo, hi, free, osp, v, oframes[v]);
    ValidHasTable(mem, osp, v);
    ValidIsLeaf(mem, osp, v);
    LeafFlags(Pte(mem, osp, v));
  }

  lemma ValidHasTable(mem: Mem, sp: Space, v: nat)
    requires V(Pte(mem, sp, v))
    ensures TableOf(0, v) in sp.nodes
  {
  }

  lemma LeafFlags(pte: nat)
    requires Leaf(pte)
    ensures (Flags(pte) / 2) % 8 != 0
  {
    var q, r := pte / 1024, pte % 1024;
    assert pte == 1024 * q + r;
    assert pte / 2 == 8 * (64 * q) + r / 2;
  }

  /** Takes back the pages that uvmcopy has copied so far. */
  method Uncopy(k: Memory, ghost m0: Mem, ghost f0: seq<nat>, ghost sp: Space, ghost frames: Frames, ghost want: Wanted,
                ghost sp': Space, root: nat, a: nat, ghost taken: seq<nat>, ghost fr: Frames)
    requires k.Valid() && root == sp'.root
    requires UserGrown(m0, f0, sp, frames, k.lo, k.hi, k.mem, k.free, sp', taken, fr, 0, a, want)
    modifies k
    ensures k.Valid() && Undone(m0, f0, sp, frames, k.lo, k.hi, k.mem, k.free, sp', taken)
  {
    hide PageTable.TreeOk, Vm.FreeList, PageTable.Pte, PageTable.UserOk, Vm.TablesAdded, Vm.Untouched, Vm.UserGrown,
      Vm.Undone, Vm.Pages, Vm.Unmappable;
    GrownFrames(m0, f0, sp, frames, k.lo, k.hi, k.mem, k.free, sp', taken, fr, 0, a, want);
    FramesUnmappable(k.mem, k.lo, k.hi, k.free, sp', fr, 0, a);
    ghost var m, f := k.mem, k.free;
    var p := k.Uvmunmap(sp', root, 0, a, true, fr);
    Ungrown(m0, f0, sp, frames, k.lo, k.hi, m, f, sp', taken, fr, 0, a, want, k.mem, k.free);
  }

  /** uvmcopy: on success the child has at every page below sz a frame of its own with the
      parent's content and permissions; on failure all it got is given back. The parent is
      left alone either way. */
  method Uvmcopy(k: Memory, ghost osp: Space, oroot: nat, ghost oframes: Frames, ghost sp: Space, root: nat,
                 ghost frames: Frames, sz: nat)
    returns (ok: bool, panicked: bool, ghost sp': Space, ghost taken: seq<nat>, ghost frames': Frames)
    requires k.Valid() && UserOk(k.mem, k.lo, k.hi, k.free, osp, oframes) && oroot == osp.root
    requires UserOk(k.mem, k.lo, k.hi, k.free, sp, frames) && root == sp.root && Apart(osp, oframes, sp, frames)
    requires forall v: nat :: v < Pages(sz) && V(Pte(k.mem, osp, v)) ==> v in oframes
    modifies k
    ensures k.Valid() && sp'.root == sp.root
    ensures panicked ==> exists v: nat :: v < Pages(sz) && (!V(Pte(old(k.mem), osp, v)) || !Mappable(old(k.mem), sp, v))
    ensures !panicked ==> Kept(old(k.mem), k.mem, k.lo, k.hi, k.free, osp, oframes) && Apart(osp, oframes, sp', frames')
    ensures !panicked && ok ==>
              UserGrown(old(k.mem), old(k.free), sp, frames, k.lo, k.hi, k.mem, k.free, sp', taken, frames', 0,
                        Pages(sz),
                        Original(old(k.mem), osp))
    ensures !panicked && !ok ==>
              frames' == frames && Undone(old(k.mem), old(k.free), sp, frames, k.lo, k.hi, k.mem, k.free, sp', taken)
  {
    hide PageTable.TreeOk, Vm.FreeList, PageTable.Pte, PageTable.UserOk, Vm.TablesAdded, Vm.Untouched, Vm.UserGrown,
      Vm.Undone, Vm.Pages, Vm.Mappable, Original, Kept, Apart, Owns;
    ghost var m0, f0, want := k.mem, k.free, Original(k.mem, osp);
    NothingGrown(m0, k.lo, k.hi, f0, sp, frames, 0, want);
    sp', taken, frames' := sp, [], frames;
    GrownBystander(m0, f0, sp, frames, k.lo, k.hi, k.mem, k.free, sp', taken, frames', 0, 0, want, osp, oframes);
    var i := 0;
    while i * PGSIZE < sz
      invariant 0 <= i <= Pages(sz) && k.Valid() && sp'.root == root
      invariant UserGrown(m0, f0, sp, frames, k.lo, k.hi, k.mem, k.free, sp', taken, frames', 0, i, want)
      invariant Kept(m0, k.mem, k.lo, k.hi, k.free, osp, oframes) && Apart(osp, oframes, sp', frames')
    {
      PageBelow(i, sz);
      ghost var q, t, fr := sp', taken, frames';
      var ok1;
      ok1, panicked, sp', taken, frames' :=
        CopyPage(k, m0, f0, osp, oroot, oframes, sp, frames, q, root, t, fr, i);
      if panicked {
        return false, true, sp', taken, frames';
      }
      if !ok1 {
        Uncopy(k, m0, f0, sp, frames, want, sp', root, i, taken, fr);
        UndoneBystander(m0, f0, sp, frames, k.lo, k.hi, k.mem, k.free, sp', taken, osp, oframes);
        return false, false, sp', taken, frames;
      }
      i := i + 1;
    }
    PagesReached(i, sz);
    return true, false, sp', taken, frames';
  }

  /** One round of uvmcopy. */
  method CopyPage(k: Memory, ghost m0: Mem, ghost f0: seq<nat>, ghost osp: Space, oroot: nat, ghost oframes: Frames,
                  ghost sp: Space, ghost frames: Frames, ghost q: Space, root: nat, ghost t: seq<nat>, ghost fr: Frames,
                  i: nat)
    returns (ok: bool, panicked: bool, ghost sp': Space, ghost taken: seq<nat>, ghost frames': Frames)
    requires k.Valid() && q.root == root && oroot == osp.root
    requires UserGrown(m0, f0, sp, frames, k.lo, k.hi, k.mem, k.free, q, t, fr, 0, i, Original(m0, osp))
    requires UserOk(m0, k.lo, k.hi, f0, osp, oframes) && Apart(osp, oframes, sp, frames)
    requires Kept(m0, k.mem, k.lo, k.hi, k.free, osp, oframes) && (V(Pte(m0, osp, i)) ==> i in oframes)
    modifies k
    ensures k.Valid() && sp'.root == root
    ensures panicked ==> !V(Pte(m0, osp, i)) || !Mappable(m0, sp, i)
    ensures !panicked ==> Kept(m0, k.mem, k.lo, k.hi, k.free, osp, oframes) && Apart(osp, oframes, sp', frames')
    ensures !panicked && ok ==>
              UserGrown(m0, f0, sp, frames, k.lo, k.hi, k.mem, k.free, sp', taken, frames', 0, i + 1, Original(m0, osp))
    ensures !panicked && !ok ==> && frames' == fr
                                 && UserGrown(m0, f0, sp, frames, k.lo, k.hi, k.mem, k.free, sp', taken, fr, 0, i,
                                              Original(m0, osp))
  {
    hide PageTable.TreeOk, Vm.FreeList, PageTable.Pte, PageTable.UserOk, Vm.TablesAdded, Vm.Untouched, Vm.UserGrown,
      Vm.Undone, Vm.Mappable, Original, Kept, Apart, Owns;
    ghost var want := Original(m0, osp);
    KeptSpace(m0, k.mem, k.lo, k.hi, k.free, osp, oframes, i);
    GrownFrames(m0, f0, sp, frames, k.lo, k.hi, k.mem, k.free, q, t, fr, 0, i, want);
    sp', taken, frames' := q, t, fr;
    var pte;
    pte, panicked := Lookup(k, osp, oroot, i);
    if panicked {
      NotMappable(m0, sp, i);
      return false, true, q, t, fr;
    }
    if pte == None {
      return false, true, q, t, fr;
    }
    if !V(pte.value) {
      return false, true, q, t, fr;
    }
    OriginalAt(m0, k.mem, k.lo, k.hi, k.free, osp, oframes, i);
    ghost var m, f := k.mem, k.free;
    ghost var more;
    ok, panicked, sp', more, frames' := k.PutFrame(q, root, i, k.mem[Ppn(pte.value)], Flags(pte.value), fr);
    if panicked {
      GrownMappable(m0, f0, sp, frames, k.lo, k.hi, m, f, q, t, fr, 0, i, want);
      return false, true, sp', t, fr;
    }
    taken := t + more;
    if ok {
      GrownOneMore(m0, f0, sp, frames, k.lo, k.hi, m, f, q, t, fr, 0, i, want, k.mem, k.free, sp', more, frames');
      GrownBystander(m0, f0, sp, frames, k.lo, k.hi, k.mem, k.free, sp', taken, frames', 0, i + 1, want, osp, oframes);
    } else {
      GrownButOne(m0, f0, sp, frames, k.lo, k.hi, m, f, q, t, fr, 0, i, want, k.mem, k.free, sp', more);
      GrownBystander(m0, f0, sp, frames, k.lo, k.hi, k.mem, k.free, sp', taken, fr, 0, i, want, osp, oframes);
    }
  }

  lemma NotMappable(mem: Mem, sp: Space, v: nat)
    requires v >= VPN_LIMIT
    ensures !Mappable(mem, sp, v)
  {
  }

  lemma KeptSpace(m0: Mem, mem: Mem, lo: nat, hi: nat, free: seq<nat>, sp: Space, frames: Frames, v: nat)
    requires Kept(m0, mem, lo, hi, free, sp, frames)
    ensures SpaceOk(mem, lo, hi, free, sp) && Pte(mem, sp, v) == Pte(m0, sp, v)
  {
  }

  /** What a successful uvmcopy means: parent and child translate the same pages, with the
      same permissions, to different frames that hold the same. */
  lemma CopyMeans(m0: Mem, f0: seq<nat>, osp: Space, oframes: Frames, sp: Space, frames: Frames, lo: nat, hi: nat,
                  mem: Mem, free: seq<nat>, sp': Space, taken: seq<nat>, frames': Frames, n: nat, v: nat)
    requires UserGrown(m0, f0, sp, frames, lo, hi, mem, free, sp', taken, frames', 0, n, Original(m0, osp))
    requires Kept(m0, mem, lo, hi, free, osp, oframes) && Apart(osp, oframes, sp', frames')
    requires v < n && V(Pte(m0, osp, v)) && v in oframes
    ensures v in frames' && Ppn(Pte(mem, sp', v)) == frames'[v] != oframes[v] == Ppn(Pte(mem, osp, v))
    ensures Flags(Pte(mem, sp', v)) == Flags(Pte(mem, osp, v))
    ensures frames'[v] in mem && oframes[v] in mem && mem[frames'[v]] == mem[oframes[v]]
  {
    hide PageTable.TreeOk, PageTable.Pte, Vm.Untouched, Vm.TablesAdded, Vm.Mappable;
    assert FrameOk(mem, lo, hi, free, osp, v, oframes[v]);
    assert Owns(osp, oframes, oframes[v]);
    assert Owns(sp', frames', frames'[v]);
    ValidFlags(Pte(m0, osp, v));
  }

  lemma ValidFlags(pte: nat)
    requires V(pte)
    ensures Flags(pte) % 2 == 1
  {
  }
}
