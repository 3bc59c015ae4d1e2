/** kernel/kalloc.c and kernel/vm.c in their own form: the free list threaded through the
    free pages, and page tables written through pointers into physical memory.
 */
module Vm {
  import opened Prelude
  import opened PageTable

  const PTE_R: nat := 2
  const PTE_W: nat := 4
  const PTE_X: nat := 8
  const PTE_U: nat := 16

  /** A page filled with one byte value, as memset leaves it. */
  function Junk(b: nat): (s: seq<nat>)
    ensures |s| == ENTRIES
  {
    seq(ENTRIES, _ => b * 0x0101_0101_0101_0101)
  }

  function NextFree(free: seq<nat>, i: nat): nat
  {
    if i + 1 < |free| then free[i + 1] else 0
  }

  /** The list threaded through the first word of each free page; 0 ends it. */
  ghost predicate FreeList(mem: Mem, head: nat, free: seq<nat>)
  {
    && Nodup(free) && (forall i :: 0 <= i < |free| ==> free[i] in mem && free[i] != 0)
    && head == (if free == [] then 0 else free[0])
    && forall i :: 0 <= i < |free| ==> mem[free[i]][0] == NextFree(free, i) * PGSIZE
  }

  lemma FreeListFrame(mem: Mem, head: nat, free: seq<nat>, p: nat, x: Page)
    requires FreeList(mem, head, free) && p !in free
    ensures FreeList(mem[p := x], head, free)
  {
  }

  lemma EmptyFreeList(mem: Mem)
    ensures FreeList(mem, 0, [])
  {
  }

  lemma FreeListTail(mem: Mem, head: nat, free: seq<nat>)
    requires FreeList(mem, head, free) && free != []
    ensures head in mem && FreeList(mem, mem[head][0] / PGSIZE, free[1..])
  {
    var rest := free[1..];
    assert mem[free[0]][0] == NextFree(free, 0) * PGSIZE;
    forall i | 0 <= i < |rest|
      ensures mem[rest[i]][0] == NextFree(rest, i) * PGSIZE
    {
      assert rest[i] == free[i + 1] && NextFree(rest, i) == NextFree(free, i + 1);
    }
  }

  lemma FreeListCons(mem: Mem, head: nat, free: seq<nat>, p: nat, x: Page)
    requires FreeList(mem, head, free) && p !in free && p != 0 && x[0] == head * PGSIZE
    ensures FreeList(mem[p := x], p, [p] + free)
  {
    var more, m := [p] + free, mem[p := x];
    forall i | 0 <= i < |more|
      ensures m[more[i]][0] == NextFree(more, i) * PGSIZE
    {
      if i > 0 {
        assert more[i] == free[i - 1] && NextFree(more, i) == NextFree(free, i - 1);
      }
    }
  }

  /** walk and mappages accept the virtual page: below MAXVA and not mapped yet. */
  predicate Mappable(mem: Mem, sp: Space, vpn: nat)
  {
    vpn < VPN_LIMIT && !V(Pte(mem, sp, vpn))
  }

  class Memory {
    const lo: nat       // first page the allocator manages: end, rounded up
    const hi: nat       // PHYSTOP / PGSIZE
    var mem: Mem
    var freelist: nat   // kmem.freelist as a page number, 0 for null
    ghost var free: seq<nat>

    ghost predicate Valid()
      reads this
    {
      && 0 < lo <= hi && (forall p :: lo <= p < hi ==> p in mem)
      && FreeList(mem, freelist, free) && forall i :: 0 <= i < |free| ==> lo <= free[i] < hi
    }

    /** kinit: freerange over all managed pages. */
    constructor (lo: nat, hi: nat, mem: Mem)
      requires 0 < lo <= hi && forall p :: lo <= p < hi ==> p in mem
      ensures Valid() && this.lo == lo && this.hi == hi && this.mem.Keys == mem.Keys
      ensures |free| == hi - lo && forall p :: lo <= p < hi ==> p in free
    {
      hide FreeList;
      this.lo, this.hi := lo, hi;
      this.mem := mem;
      freelist := 0;
      free := [];
      new;
      EmptyFreeList(mem);
      var p := lo;
      while p + 1 <= hi
        invariant lo <= p <= hi && Valid() && this.mem.Keys == mem.Keys && |free| == p - lo
        invariant forall i :: 0 <= i < |free| ==> free[i] < p
        invariant forall q :: lo <= q < p ==> q in free
      {
        var panicked := Kfree(p);
        p := p + 1;
      }
    }

    /** kfree. The page must not be free already: the code does not check that. */
    method Kfree(p: nat) returns (panicked: bool)
      requires Valid() && p !in free
      modifies this
      ensures Valid() && (panicked <==> p < lo || p >= hi)
      ensures panicked ==> mem == old(mem) && free == old(free)
      ensures !panicked ==> free == [p] + old(free) && mem == old(mem)[p := Junk(1)[0 := old(freelist) * PGSIZE]]
    {
      if p < lo || p >= hi {
        return true;
      }
      ghost var was := mem;
      mem := mem[p := Junk(1)];
      mem := mem[p := mem[p][0 := freelist * PGSIZE]];
      FreeListCons(was, freelist, free, p, mem[p]);
      assert was[p := mem[p]] == mem;
      freelist := p;
      free := [p] + free;
      return false;
    }

    /** kalloc */
    method Kalloc() returns (p: nat)
      requires Valid()
      modifies this
      ensures Valid()
      ensures p == 0 <==> old(free) == []
      ensures p == 0 ==> mem == old(mem) && free == old(free)
      ensures p != 0 ==> p == old(free)[0] && free == old(free)[1..] && mem == old(mem)[p := Junk(5)]
    {
      p := freelist;
      if p != 0 {
        FreeListTail(mem, freelist, free);
        freelist := mem[p][0] / PGSIZE;
        ghost var rest := free[1..];
        FreeListFrame(mem, freelist, rest, p, Junk(5));
        mem := mem[p := Junk(5)];
        free := rest;
      }
    }

    // ---------------------------------------------------------------- vm.c

    /** The allocating branch of walk: a blank page hung into entry idx of table n. */
    method AddTable(ghost sp: Space, ghost n: Node, pagetable: nat, idx: nat) returns (p: nat)
      requires Valid() && SpaceOk(mem, lo, hi, free, sp) && n in sp.nodes && n.level > 0 && idx < ENTRIES
      requires Child(n, idx) !in sp.nodes && pagetable == sp.nodes[n]
      modifies this
      ensures Valid()
      ensures p == 0 ==> mem == old(mem) && free == old(free) == []
      ensures p != 0 ==> && SpaceOk(mem, lo, hi, free, Grown(sp, n, idx, p)) && p in mem
                         && Grew(old(mem), old(free), sp, [p], mem, free, Grown(sp, n, idx, p))
    {
      hide PageTable.TreeOk, PageTable.Grew, FreeList, PageTable.Child;
      TablePages(mem, sp, n);
      ghost var m, f := mem, free;
      FreeListPages(m, freelist, f);
      p := Kalloc();
      if p == 0 {
        return;
      }
      GrewOne(m, lo, hi, f, sp, n, idx, p, free);
      FreeListFrame(mem, freelist, free, p, Blank());
      mem := mem[p := Blank()];
      FreeListFrame(mem, freelist, free, pagetable, mem[pagetable][idx := MakePte(p, 0)]);
      mem := mem[pagetable := mem[pagetable][idx := MakePte(p, 0)]];
      assert mem == GrownMem(m, sp, n, idx, p);
    }

    /** walk: the page and index of the last-level entry of a virtual page. Tables that are
        missing are added when alloc is set; if memory runs out, those already added stay. */
    method Walk(ghost sp: Space, root: nat, vpn: nat, alloc: bool)
      returns (slot: Option<(nat, nat)>, panicked: bool, ghost sp': Space, ghost taken: seq<nat>)
      requires Valid() && SpaceOk(mem, lo, hi, free, sp) && root == sp.root
      modifies this
      ensures Valid() && SpaceOk(mem, lo, hi, free, sp') && (panicked <==> vpn >= VPN_LIMIT)
      ensures Grew(old(mem), old(free), sp, taken, mem, free, sp') && sp'.root == sp.root
      ensures panicked ==> slot == None && taken == [] && sp' == sp
      ensures !alloc ==> mem == old(mem) && free == old(free) && freelist == old(freelist) && sp' == sp && taken == []
      ensures slot.Some? ==> TableOf(0, vpn) in sp'.nodes && slot.value == (sp'.nodes[TableOf(0, vpn)], Px(0, vpn))
      ensures slot.Some? ==>
                && Points(mem, root, vpn / 262144) && Points(mem, mem[root][vpn / 262144] / 1024, vpn / 512 % 512)
                && slot.value == (mem[mem[root][vpn / 262144] / 1024][vpn / 512 % 512] / 1024, vpn % 512)
      ensures slot == None && !panicked ==> TableOf(0, vpn) !in sp'.nodes && (alloc ==> free == [])
    {
      hide PageTable.TreeOk, PageTable.Grew, FreeList, PageTable.Child;
      GrewNothing(mem, free, sp);
      sp', taken := sp, [];
      if vpn >= VPN_LIMIT {
        return None, true, sp, [];
      }
      var pagetable := root;
      var level := 2;
      RootTable(mem, sp, vpn);
      while level > 0
        invariant 0 <= level <= 2 && Valid() && SpaceOk(mem, lo, hi, free, sp')
        invariant Grew(old(mem), old(free), sp, taken, mem, free, sp') && sp'.root == root
        invariant !alloc ==>
                    mem == old(mem) && free == old(free) && freelist == old(freelist) && sp' == sp && taken == []
        invariant TableOf(level, vpn) in sp'.nodes && pagetable == sp'.nodes[TableOf(level, vpn)] && pagetable in mem
      {
        var idx := Px(level, vpn);
        ghost var n := TableOf(level, vpn);
        Follow(mem, sp', level, vpn);
        var pte := mem[pagetable][idx];
        if V(pte) {
          pagetable := Ppn(pte);
        } else {
          if !alloc {
            MissingTable(mem, sp', level, vpn);
            return None, false, sp', taken;
          }
          ghost var m, f, k := mem, free, sp';
          var p := AddTable(k, n, pagetable, idx);
          if p == 0 {
            MissingTable(mem, sp', level, vpn);
            return None, false, sp', taken;
          }
          pagetable := p;
          sp' := Grown(k, n, idx, p);
          GrewTransitive(old(mem), old(free), sp, taken, m, f, k, [p], mem, free, sp');
          taken := taken + [p];
        }
        level := level - 1;
      }
      LastEntry(mem, sp', vpn);
      slot := Some((pagetable, Px(0, vpn)));
      panicked := false;
    }

    /** One round of mappages. */
    method MapOne(ghost sp: Space, root: nat, vpn: nat, ppn: nat, perm: nat)
      returns (ok: bool, panicked: bool, ghost sp': Space, ghost taken: seq<nat>)
      requires Valid() && SpaceOk(mem, lo, hi, free, sp) && root == sp.root && perm < 1024 && (perm / 2) % 8 != 0
      modifies this
      ensures Valid() && SpaceOk(mem, lo, hi, free, sp') && Took(old(mem), old(free), sp, taken, mem, free, sp')
      ensures sp'.root == sp.root && (panicked <==> !Mappable(old(mem), sp, vpn))
      ensures ok ==> !panicked && forall v: nat ::
                Pte(mem, sp', v) == if v == vpn then MakePte(ppn, perm) else Pte(old(mem), sp, v)
      ensures !ok ==> forall v: nat :: Pte(mem, sp', v) == Pte(old(mem), sp, v)
      ensures !ok && !panicked ==> free == []
    {
      hide PageTable.TreeOk, PageTable.Took, FreeList, PageTable.Pte;
      var slot;
      slot, panicked, sp', taken := Walk(sp, root, vpn, true);
      if panicked {
        return false, true, sp', taken;
      }
      if slot == None {
        NoEntry(mem, sp', vpn);
        return false, false, sp', taken;
      }
      var page, idx := slot.value.0, slot.value.1;
      EntryOf(mem, sp', vpn);
      if V(mem[page][idx]) {
        return false, true, sp', taken;
      }
      ghost var m := mem;
      LeafSetTook(m, lo, hi, free, sp', vpn, MakePte(ppn, perm));
      FreeListFrame(mem, freelist, free, page, mem[page][idx := MakePte(ppn, perm)]);
      mem := mem[page := mem[page][idx := MakePte(ppn, perm)]];
      TookTransitive(old(mem), old(free), sp, taken, m, free, sp', [], mem, free, sp');
      assert taken + [] == taken;
      return true, false, sp', taken;
    }

    /** mappages: maps the pages that va..va+size touches, in order, to consecutive frames.
        `done` of them have been mapped when it returns; all of them on success. No other
        translation changes. */
    method Mappages(ghost sp: Space, root: nat, va: nat, size: nat, pa: nat, perm: nat)
      returns (ret: int, panicked: bool, ghost sp': Space, ghost taken: seq<nat>, ghost done: nat)
      requires Valid() && SpaceOk(mem, lo, hi, free, sp) && root == sp.root && perm < 1024 && (perm / 2) % 8 != 0
      modifies this
      ensures Valid() && SpaceOk(mem, lo, hi, free, sp') && Took(old(mem), old(free), sp, taken, mem, free, sp')
      ensures sp'.root == sp.root && (size == 0 ==> panicked)
      ensures forall v: nat :: Pte(mem, sp', v) ==
                if va / PGSIZE <= v < va / PGSIZE + done then MakePte(pa / PGSIZE + (v - va / PGSIZE), perm)
                else Pte(old(mem), sp, v)
      ensures forall v: nat :: va / PGSIZE <= v < va / PGSIZE + done ==> Mappable(old(mem), sp, v)
      ensures !panicked && ret == 0 ==> va / PGSIZE + done == (va + size - 1) / PGSIZE + 1
      ensures !panicked && ret != 0 ==> ret == -1 && va / PGSIZE + done <= (va + size - 1) / PGSIZE && free == []
      ensures panicked && size > 0 ==>
                va / PGSIZE + done <= (va + size - 1) / PGSIZE && !Mappable(old(mem), sp, va / PGSIZE + done)
    {
      hide PageTable.TreeOk, PageTable.Took, FreeList, PageTable.Pte;
      GrewNothing(mem, free, sp);
      sp', taken, done := sp, [], 0;
      if size == 0 {
        return 0, true, sp', taken, 0;
      }
      var a, last, p := va / PGSIZE, (va + size - 1) / PGSIZE, pa / PGSIZE;
      while true
        invariant Valid() && SpaceOk(mem, lo, hi, free, sp') && Took(old(mem), old(free), sp, taken, mem, free, sp')
        invariant sp'.root == root && a == va / PGSIZE + done && p == pa / PGSIZE + done && a <= last
        invariant forall v: nat :: Pte(mem, sp', v) ==
                    if va / PGSIZE <= v < a then MakePte(pa / PGSIZE + (v - va / PGSIZE), perm)
                    else Pte(old(mem), sp, v)
        invariant forall v: nat :: va / PGSIZE <= v < a ==> Mappable(old(mem), sp, v)
        decreases last - a
      {
        ghost var m, f, k := mem, free, sp';
        var ok;
        ghost var more;
        ok, panicked, sp', more := MapOne(k, root, a, p, perm);
        TookTransitive(old(mem), old(free), sp, taken, m, f, k, more, mem, free, sp');
        taken := taken + more;
        if panicked {
          return 0, true, sp', taken, done;
        }
        if !ok {
          return -1, false, sp', taken, done;
        }
        done := done + 1;
        if a == last {
          break;
        }
        a, p := a + 1, p + 1;
      }
      ret := 0;
    }

    /** One round of uvmunmap. */
    method UnmapOne(ghost sp: Space, root: nat, vpn: nat, doFree: bool, ghost frames: Frames) returns (panicked: bool)
      requires Valid() && UserOk(mem, lo, hi, free, sp, frames) && root == sp.root
      requires if doFree then V(Pte(mem, sp, vpn)) ==> vpn in frames else vpn !in frames
      modifies this
      ensures Valid() && (panicked <==> vpn >= VPN_LIMIT || !V(Pte(old(mem), sp, vpn)))
      ensures panicked ==> mem == old(mem) && free == old(free)
      ensures !panicked ==> && UserOk(mem, lo, hi, free, sp, frames - {vpn})
                            && free == (if doFree then [frames[vpn]] + old(free) else old(free))
                            && (forall v: nat :: Pte(mem, sp, v) == if v == vpn then 0 else Pte(old(mem), sp, v))
      ensures !panicked ==> forall p :: p in old(mem) && !Tables(sp, p) && !(doFree && p == frames[vpn]) ==>
                              p in mem && mem[p] == old(mem)[p]
    {
      hide PageTable.TreeOk, PageTable.Took, PageTable.Grew, FreeList, PageTable.Pte, PageTable.UserOk;
      UserSpace(mem, lo, hi, free, sp, frames);
      var slot;
      ghost var sp', taken;
      slot, panicked, sp', taken := Walk(sp, root, vpn, false);
      if panicked {
        return;
      }
      if slot == None {
        NoEntry(mem, sp, vpn);
        return true;
      }
      var page, idx := slot.value.0, slot.value.1;
      EntryOf(mem, sp, vpn);
      var pte := mem[page][idx];
      if !V(pte) {
        return true;
      }
      ValidIsLeaf(mem, sp, vpn);
      if Flags(pte) == PTE_V {
        return true;
      }
      ghost var m, f := mem, free;
      if doFree {
        UserFrame(mem, lo, hi, free, sp, frames, vpn);
        panicked := Kfree(Ppn(pte));
      }
      ghost var m1 := mem;
      assert page !in free;
      FreeListFrame(m1, freelist, free, page, m1[page][idx := 0]);
      mem := mem[page := mem[page][idx := 0]];
      UserUnmapped(m, lo, hi, f, sp, frames, vpn, m1, free, mem);
      panicked := false;
    }

    /** uvmunmap: removes exactly npages translations from va on, and with doFree gives each
        of their frames back exactly once. It panics if one of the pages is not mapped. */
    method Uvmunmap(ghost sp: Space, root: nat, va: nat, npages: nat, doFree: bool, ghost frames: Frames)
      returns (panicked: bool)
      requires Valid() && UserOk(mem, lo, hi, free, sp, frames) && root == sp.root
      requires forall v: nat :: va / PGSIZE <= v < va / PGSIZE + npages ==>
                 if doFree then V(Pte(mem, sp, v)) ==> v in frames else v !in frames
      modifies this
      ensures Valid()
      ensures !panicked <==> va % PGSIZE == 0 && forall v: nat :: va / PGSIZE <= v < va / PGSIZE + npages ==>
                               Unmappable(old(mem), sp, v)
      ensures !panicked ==> UserOk(mem, lo, hi, free, sp, Keep(frames, va / PGSIZE, npages))
      ensures !panicked ==> forall v: nat ::
                Pte(mem, sp, v) == if va / PGSIZE <= v < va / PGSIZE + npages then 0 else Pte(old(mem), sp, v)
      ensures !panicked && doFree ==> && (forall v :: va / PGSIZE <= v < va / PGSIZE + npages ==> v in frames)
                                      && free == FramesOf(frames, va / PGSIZE, npages) + old(free)
      ensures !panicked && !doFree ==> free == old(free)
      ensures !panicked ==> forall p :: && p in old(mem) && !Tables(sp, p)
                                        && (doFree ==> p !in FramesOf(frames, va / PGSIZE, npages)) ==>
                p in mem && mem[p] == old(mem)[p]
    {
      hide PageTable.TreeOk, FreeList, PageTable.Pte, PageTable.UserOk, Cleared, PageTable.FramesOf, PageTable.Keep;
      UserSpace(mem, lo, hi, free, sp, frames);
      if va % PGSIZE != 0 {
        return true;
      }
      var first, a := va / PGSIZE, va / PGSIZE;
      KeepNone(frames, first);
      ClearedNone(mem, free, sp, frames, first, doFree);
      while a < first + npages
        invariant first <= a <= first + npages && Valid()
        invariant SpaceOk(mem, lo, hi, free, sp) && UserOk(mem, lo, hi, free, sp, Keep(frames, first, a - first))
        invariant Cleared(old(mem), old(free), mem, free, sp, frames, first, a - first, doFree)
      {
        ghost var m, f := mem, free;
        ClearedAt(old(mem), old(free), mem, free, sp, frames, first, a - first, doFree, a);
        panicked := UnmapOne(sp, root, a, doFree, Keep(frames, first, a - first));
        if panicked {
          assert !Unmappable(old(mem), sp, a);
          return;
        }
        KeepOneLess(frames, first, a - first);
        UserSpace(mem, lo, hi, free, sp, Keep(frames, first, a - first + 1));
        ClearedNext(old(mem), old(free), m, f, mem, free, sp, frames, first, a - first, doFree);
        a := a + 1;
      }
      ClearedMeans(old(mem), old(free), mem, free, sp, frames, first, npages, doFree);
      panicked := false;
    }

    /** mappages for a single page. */
    method MapPage(ghost sp: Space, root: nat, vpn: nat, ppn: nat, perm: nat)
      returns (ok: bool, panicked: bool, ghost sp': Space, ghost taken: seq<nat>)
      requires Valid() && SpaceOk(mem, lo, hi, free, sp) && root == sp.root && perm < 1024 && (perm / 2) % 8 != 0
      modifies this
      ensures Valid() && SpaceOk(mem, lo, hi, free, sp') && Took(old(mem), old(free), sp, taken, mem, free, sp')
      ensures sp'.root == sp.root && (panicked ==> !Mappable(old(mem), sp, vpn))
      ensures ok ==> && !panicked && Mappable(old(mem), sp, vpn)
                     && forall v: nat :: Pte(mem, sp', v) == if v == vpn then MakePte(ppn, perm)
                        else Pte(old(mem), sp, v)
      ensures !ok && !panicked ==> free == [] && forall v: nat :: Pte(mem, sp', v) == Pte(old(mem), sp, v)
    {
      hide PageTable.TreeOk, PageTable.Took, FreeList, PageTable.Pte;
      OnePage(vpn);
      OnePage(ppn);
      var ret;
      ghost var done;
      ret, panicked, sp', taken, done := Mappages(sp, root, vpn * PGSIZE, PGSIZE, ppn * PGSIZE, perm);
      ok := !panicked && ret == 0;
    }

    /** One round of uvmalloc or uvmcopy: a frame of its own holding `data` mapped at vpn, or
        everything but new tables undone. */
    method PutFrame(ghost sp: Space, root: nat, vpn: nat, data: Page, perm: nat, ghost frames: Frames)
      returns (ok: bool, panicked: bool, ghost sp': Space, ghost taken: seq<nat>, ghost frames': Frames)
      requires Valid() && UserOk(mem, lo, hi, free, sp, frames) && root == sp.root && perm < 1024 && (perm / 2) % 8 != 0
      modifies this
      ensures Valid() && sp'.root == sp.root
      ensures panicked ==> !Mappable(old(mem), sp, vpn)
      ensures !panicked ==> UserOk(mem, lo, hi, free, sp', frames') && TablesAdded(sp, sp', taken)
      ensures ok ==> && !panicked && Mappable(old(mem), sp, vpn) && vpn !in frames && vpn in frames'
                     && frames' == frames[vpn := frames'[vpn]] && frames'[vpn] in mem && mem[frames'[vpn]] == data
                     && multiset(old(free)) == multiset(free) + multiset(taken) + multiset{frames'[vpn]}
                     && forall v: nat :: Pte(mem, sp', v) ==
                          if v == vpn then MakePte(frames'[vpn], perm) else Pte(old(mem), sp, v)
      ensures !ok && !panicked ==> && frames' == frames && multiset(old(free)) == multiset(free) + multiset(taken)
                                   && forall v: nat :: Pte(mem, sp', v) == Pte(old(mem), sp, v)
      ensures !panicked ==> Untouched(old(mem), old(free), sp, mem)
    {
      hide PageTable.TreeOk, PageTable.Took, FreeList, PageTable.Pte, PageTable.UserOk, TablesAdded, Untouched,
        Mappable;
      UserSpace(mem, lo, hi, free, sp, frames);
      NoTablesAdded(sp);
      ghost var m, f := mem, free;
      FreeListPages(m, freelist, f);
      NothingTouched(m, f, sp);
      sp', taken, frames' := sp, [], frames;
      var p := Kalloc();
      if p == 0 {
        return false, false, sp, [], frames;
      }
      FrameTaken(m, lo, hi, f, sp, frames, p, data, free);
      FreeListFrame(mem, freelist, free, p, data);
      mem := mem[p := data];
      assert mem == m[p := data];
      SameMappable(m, mem, sp, vpn);
      ok, panicked, sp', taken := MapFrame(m, f, sp, root, vpn, p, perm, frames);
      frames' := if ok then frames[vpn := p] else frames;
    }

    /** Maps the page p, just taken from the free list, at vpn; or gives it back. m and f are
        the memory and the free list before it was taken. */
    method MapFrame(ghost m: Mem, ghost f: seq<nat>, ghost sp: Space, root: nat, vpn: nat, p: nat, perm: nat,
                    ghost frames: Frames)
      returns (ok: bool, panicked: bool, ghost sp': Space, ghost taken: seq<nat>)
      requires Valid() && UserOk(mem, lo, hi, free, sp, frames) && root == sp.root && perm < 1024 && (perm / 2) % 8 != 0
      requires f == [p] + free && p !in free && p in mem && lo <= p < hi && p != 0 && !Tables(sp, p)
      requires Untouched(m, f, sp, mem)
      requires forall v :: v in frames ==> frames[v] != p
      modifies this
      ensures Valid() && sp'.root == sp.root
      ensures panicked ==> !Mappable(old(mem), sp, vpn)
      ensures !panicked ==> TablesAdded(sp, sp', taken) && Untouched(m, f, sp, mem)
      ensures ok ==> && !panicked && Mappable(old(mem), sp, vpn) && vpn !in frames && p in mem && mem[p] == old(mem)[p]
                     && UserOk(mem, lo, hi, free, sp', frames[vpn := p])
                     && multiset(f) == multiset(free) + multiset(taken) + multiset{p}
                     && forall v: nat :: Pte(mem, sp', v) == if v == vpn then MakePte(p, perm) else Pte(old(mem), sp, v)
      ensures !ok && !panicked ==> && UserOk(mem, lo, hi, free, sp', frames)
                                   && multiset(f) == multiset(free) + multiset(taken)
                                   && forall v: nat :: Pte(mem, sp', v) == Pte(old(mem), sp, v)
    {
      hide PageTable.TreeOk, PageTable.Took, FreeList, PageTable.Pte, PageTable.UserOk, TablesAdded, Untouched,
        Mappable;
      UserSpace(mem, lo, hi, free, sp, frames);
      ghost var m1, f1 := mem, free;
      ok, panicked, sp', taken := MapPage(sp, root, vpn, p, perm);
      if panicked {
        return false, true, sp', taken;
      }
      if !ok {
        FrameUnmapped(m, f, m1, lo, hi, f1, sp, frames, taken, mem, free, sp', p);
        ghost var m2, f2 := mem, free;
        panicked := Kfree(p);
        FrameReturned(m, f, sp, m2, lo, hi, f2, sp', frames, p, mem, free);
        return false, false, sp', taken;
      }
      FrameMapped(m, f, m1, lo, hi, f1, sp, frames, taken, mem, free, sp', p, vpn, perm);
    }

    /** uvmdealloc */
    method Uvmdealloc(ghost sp: Space, root: nat, oldsz: nat, newsz: nat, ghost frames: Frames)
      returns (ret: nat, panicked: bool)
      requires Valid() && UserOk(mem, lo, hi, free, sp, frames) && root == sp.root
      requires forall v: nat :: Pages(newsz) <= v < Pages(oldsz) ==> v in frames
      modifies this
      ensures Valid() && !panicked && ret == if newsz < oldsz then newsz else oldsz
      ensures newsz >= oldsz ==> mem == old(mem) && free == old(free)
      ensures var n := if Pages(newsz) < Pages(oldsz) then Pages(oldsz) - Pages(newsz) else 0;
              && UserOk(mem, lo, hi, free, sp, Keep(frames, Pages(newsz), n))
              && free == FramesOf(frames, Pages(newsz), n) + old(free)
              && (forall v: nat :: Pte(mem, sp, v) ==
                    if Pages(newsz) <= v < Pages(newsz) + n then 0 else Pte(old(mem), sp, v))
              && (forall p :: p in old(mem) && !Tables(sp, p) && p !in FramesOf(frames, Pages(newsz), n) ==>
                    p in mem && mem[p] == old(mem)[p])
    {
      hide PageTable.TreeOk, FreeList, PageTable.Pte, PageTable.UserOk;
      KeepNone(frames, Pages(newsz));
      if newsz >= oldsz {
        PagesMonotone(oldsz, newsz);
        return oldsz, false;
      }
      PagesMonotone(newsz, oldsz);
      if Pages(newsz) < Pages(oldsz) {
        var npages := Pages(oldsz) - Pages(newsz);
        OnePage(Pages(newsz));
        FramesUnmappable(mem, lo, hi, free, sp, frames, Pages(newsz), npages);
        panicked := Uvmunmap(sp, root, Pages(newsz) * PGSIZE, npages, true, frames);
      }
      return newsz, false;
    }

    /** Takes back the pages that uvmalloc has added so far. */
    method Shrink(ghost m0: Mem, ghost f0: seq<nat>, ghost sp: Space, ghost frames: Frames, ghost want: Wanted,
                  ghost sp': Space, root: nat, first: nat, a: nat, ghost taken: seq<nat>, ghost fr: Frames)
      requires Valid() && root == sp'.root && first <= a
      requires UserGrown(m0, f0, sp, frames, lo, hi, mem, free, sp', taken, fr, first, a - first, want)
      modifies this
      ensures Valid() && Undone(m0, f0, sp, frames, lo, hi, mem, free, sp', taken)
    {
      hide PageTable.TreeOk, FreeList, PageTable.Pte, PageTable.UserOk, TablesAdded, Untouched, UserGrown, Undone,
        Pages;
      GrownFrames(m0, f0, sp, frames, lo, hi, mem, free, sp', taken, fr, first, a - first, want);
      WholePages(first);
      WholePages(a);
      ghost var m, f := mem, free;
      var r, p := Uvmdealloc(sp', root, a * PGSIZE, first * PGSIZE, fr);
      Ungrown(m0, f0, sp, frames, lo, hi, m, f, sp', taken, fr, first, a - first, want, mem, free);
    }

    /** uvmalloc: grows the user memory page by page with zeroed frames. If memory runs out
        every frame taken is given back and the translations are as before; only tables added
        on the way stay. */
    method Uvmalloc(ghost sp: Space, root: nat, oldsz: nat, newsz: nat, ghost frames: Frames)
      returns (ret: nat, panicked: bool, ghost sp': Space, ghost taken: seq<nat>, ghost frames': Frames)
      requires Valid() && UserOk(mem, lo, hi, free, sp, frames) && root == sp.root
      modifies this
      ensures Valid() && sp'.root == sp.root
      ensures newsz < oldsz ==>
                !panicked && ret == oldsz && mem == old(mem) && free == old(free) && sp' == sp && frames' == frames
      ensures panicked ==> exists v: nat :: Pages(oldsz) <= v < Pages(newsz) && !Mappable(old(mem), sp, v)
      ensures !panicked && newsz >= oldsz ==> ret == newsz || ret == 0
      ensures !panicked && newsz >= oldsz && ret == newsz ==>
                && Pages(oldsz) <= Pages(newsz)
                && UserGrown(old(mem), old(free), sp, frames, lo, hi, mem, free, sp', taken, frames',
                             Pages(oldsz), Pages(newsz) - Pages(oldsz), ZeroPages())
      ensures !panicked && newsz >= oldsz && ret != newsz ==>
                frames' == frames && Undone(old(mem), old(free), sp, frames, lo, hi, mem, free, sp', taken)
    {
      hide PageTable.TreeOk, FreeList, PageTable.Pte, PageTable.UserOk, TablesAdded, Untouched, Mappable, UserGrown,
        Undone, ZeroPages, Pages;
      UserSpace(mem, lo, hi, free, sp, frames);
      ghost var want := ZeroPages();
      NothingGrown(mem, lo, hi, free, sp, frames, Pages(oldsz), want);
      sp', taken, frames' := sp, [], frames;
      if newsz < oldsz {
        return oldsz, false, sp, [], frames;
      }
      PagesMonotone(oldsz, newsz);
      var first, a := Pages(oldsz), Pages(oldsz);
      while a * PGSIZE < newsz
        invariant first <= a <= Pages(newsz) && Valid() && sp'.root == root
        invariant UserOk(mem, lo, hi, free, sp', frames')
        invariant UserGrown(old(mem), old(free), sp, frames, lo, hi, mem, free, sp', taken, frames', first, a - first,
                            want)
      {
        PageBelow(a, newsz);
        ZeroPage(a);
        ghost var m, f, k, fr := mem, free, sp', frames';
        UserSpace(m, lo, hi, f, k, fr);
        ghost var more;
        var ok;
        ok, panicked, sp', more, frames' := PutFrame(k, root, a, Blank(), UserPerm, fr);
        if panicked {
          GrownMappable(old(mem), old(free), sp, frames, lo, hi, m, f, k, taken, fr, first, a - first, want);
          return 0, true, sp', taken, fr;
        }
        if !ok {
          GrownButOne(old(mem), old(free), sp, frames, lo, hi, m, f, k, taken, fr, first, a - first, want, mem, free,
                      sp', more);
          taken := taken + more;
          Shrink(old(mem), old(free), sp, frames, want, sp', root, first, a, taken, fr);
          return 0, false, sp', taken, frames;
        }
        GrownOneMore(old(mem), old(free), sp, frames, lo, hi, m, f, k, taken, fr, first, a - first, want,
                     mem, free, sp', more, frames');
        taken := taken + more;
        a := a + 1;
      }
      PagesReached(a, newsz);
      ret := newsz;
      panicked := false;
    }
  }

  /** The number of pages that sz bytes take: PGROUNDUP(sz) / PGSIZE. */
  function Pages(sz: nat): nat
  {
    (sz + PGSIZE - 1) / PGSIZE
  }

  /** As many pages as it takes, and no more. */
  lemma PagesIs(sz: nat)
    ensures Pages(sz) * 4096 >= sz && (Pages(sz) > 0 ==> (Pages(sz) - 1) * 4096 < sz)
  {
  }

  lemma PagesMonotone(a: nat, b: nat)
    requires a <= b
    ensures Pages(a) <= Pages(b)
  {
  }

  lemma PageBelow(a: nat, sz: nat)
    requires a * PGSIZE < sz
    ensures a < Pages(sz)
  {
  }

  lemma PagesReached(a: nat, sz: nat)
    requires a * PGSIZE >= sz && a <= Pages(sz)
    ensures a == Pages(sz)
  {
  }

  /** frames' is frames plus the k pages from first on. */
  ghost predicate Added(frames: Frames, frames': Frames, first: nat, k: nat)
  {
    && (forall v :: v in frames' <==> v in frames || first <= v < first + k)
    && (forall v :: v in frames ==> v < first || v >= first + k)
    && (forall v :: v in frames ==> frames'[v] == frames[v])
  }

  ghost predicate SameTranslation(mem: Mem, sp: Space, mem': Mem, sp': Space)
  {
    forall v: nat :: V(Pte(mem, sp, v)) || V(Pte(mem', sp', v)) ==> Pte(mem', sp', v) == Pte(mem, sp, v)
  }

  /** Nothing was written but pages that were free and tables of the space. */
  ghost predicate Untouched(m0: Mem, f0: seq<nat>, sp: Space, mem: Mem)
  {
    forall p :: p in m0 && p !in f0 && !Tables(sp, p) ==> p in mem && mem[p] == m0[p]
  }

  lemma NothingTouched(mem: Mem, free: seq<nat>, sp: Space)
    ensures Untouched(mem, free, sp, mem)
  {
  }

  const UserPerm: nat := PTE_W + PTE_X + PTE_R + PTE_U

  /** The content and the permissions each new page is to have. */
  type Wanted = nat -> (Page, nat)

  function ZeroPages(): Wanted
  {
    (v: nat) => (Blank(), UserPerm)
  }

  lemma ZeroPage(v: nat)
    ensures ZeroPages()(v) == (Blank(), UserPerm)
  {
  }

  /** k pages from first on were added to the user memory: each was unmapped before, is mapped
      to a frame of its own with the wanted content and permissions now, and nothing else about
      the space changed but that tables were added; every page that left the free list is one
      of those frames or tables. */
  ghost predicate UserGrown(m0: Mem, f0: seq<nat>, sp: Space, frames: Frames, lo: nat, hi: nat, mem: Mem,
                            free: seq<nat>, sp': Space, taken: seq<nat>, frames': Frames, first: nat, k: nat,
                            want: Wanted)
  {
    && SpaceOk(m0, lo, hi, f0, sp) && UserOk(mem, lo, hi, free, sp', frames')
    && TablesAdded(sp, sp', taken) && Added(frames, frames', first, k) && Untouched(m0, f0, sp, mem)
    && NewPages(m0, sp, mem, sp', frames', first, k, want) && Accounted(f0, free, taken, frames', first, k)
  }

  /** The translations after k pages from first on were mapped. */
  ghost predicate NewPages(m0: Mem, sp: Space, mem: Mem, sp': Space, frames': Frames, first: nat, k: nat, want: Wanted)
  {
    && (forall v: nat :: first <= v < first + k ==>
          v in frames' && want(v).1 < 1024 && frames'[v] in mem && mem[frames'[v]] == want(v).0)
    && (forall v: nat :: first <= v < first + k ==> Mappable(m0, sp, v))
    && (forall v: nat :: Pte(mem, sp', v) ==
          if first <= v < first + k then MakePte(frames'[v], want(v).1) else Pte(m0, sp, v))
  }

  lemma {:induction false} InFramesOf(frames: Frames, first: nat, k: nat, v: nat)
    requires forall w :: first <= w < first + k ==> w in frames
    requires first <= v < first + k
    ensures frames[v] in FramesOf(frames, first, k)
  {
    if v != first + k - 1 {
      InFramesOf(frames, first, k - 1, v);
    }
  }

  /** What growth means to the program: the hardware translates every new address to a page of zeroes of its own
      that was free before, which it may read, write and execute. */
  lemma GrownMeans(m0: Mem, f0: seq<nat>, sp: Space, frames: Frames, lo: nat, hi: nat, mem: Mem, free: seq<nat>,
                   sp': Space, taken: seq<nat>, frames': Frames, oldsz: nat, newsz: nat, a: nat)
    requires oldsz <= newsz && Pages(oldsz) <= Pages(newsz) && (oldsz + 4095) / 4096 * 4096 <= a < newsz
    requires UserGrown(m0, f0, sp, frames, lo, hi, mem, free, sp', taken, frames', Pages(oldsz),
                       Pages(newsz) - Pages(oldsz), ZeroPages())
    ensures a < 0x40_0000_0000
    ensures var pte := Translated(mem, sp'.root, a / 0x4000_0000, a / 0x20_0000 % 512, a / 0x1000 % 512);
            && pte % 1024 == 31 && pte / 1024 in f0 && pte / 1024 in mem
            && forall i :: 0 <= i < 512 ==> mem[pte / 1024][i] == 0
  {
    hide PageTable.TreeOk, PageTable.Pte, PageTable.UserOk, Untouched, TablesAdded, FramesOf, Translated;
    var v := a / 4096;
    PagesIs(newsz);
    UserSpace(mem, lo, hi, free, sp', frames');
    assert Mappable(m0, sp, v) && ZeroPages()(v) == (Blank(), UserPerm);
    Parts(a);
    Split(v);
    HardwareAgrees(mem, sp', v / 262144, v / 512 % 512, v % 512);
    PteParts(frames'[v], 31);
    InFramesOf(frames', Pages(oldsz), Pages(newsz) - Pages(oldsz), v);
    assert frames'[v] in multiset(f0);
  }

  lemma Parts(a: nat)
    ensures a / 4096 / 262144 == a / 0x4000_0000 && a / 4096 / 512 % 512 == a / 0x20_0000 % 512
  {
  }

  /** Where the pages that left the free list are now. */
  ghost predicate Accounted(f0: seq<nat>, free: seq<nat>, taken: seq<nat>, frames': Frames, first: nat, k: nat)
  {
    && (forall v :: first <= v < first + k ==> v in frames')
    && multiset(f0) == multiset(free) + multiset(taken) + multiset(FramesOf(frames', first, k))
  }

  /** Everything as before, but that some pages that were free are tables now. */
  ghost predicate Undone(m0: Mem, f0: seq<nat>, sp: Space, frames: Frames, lo: nat, hi: nat, mem: Mem, free: seq<nat>,
                         sp': Space, taken: seq<nat>)
  {
    && UserOk(mem, lo, hi, free, sp', frames) && TablesAdded(sp, sp', taken)
    && multiset(f0) == multiset(free) + multiset(taken)
    && Untouched(m0, f0, sp, mem) && SameTranslation(m0, sp, mem, sp')
  }

  lemma NothingGrown(mem: Mem, lo: nat, hi: nat, free: seq<nat>, sp: Space, frames: Frames, first: nat, want: Wanted)
    requires UserOk(mem, lo, hi, free, sp, frames)
    ensures UserGrown(mem, free, sp, frames, lo, hi, mem, free, sp, [], frames, first, 0, want)
  {
    hide PageTable.TreeOk, PageTable.Pte;
  }

  lemma GrownFrames(m0: Mem, f0: seq<nat>, sp: Space, frames: Frames, lo: nat, hi: nat, mem: Mem, free: seq<nat>,
                    sp': Space, taken: seq<nat>, frames': Frames, first: nat, k: nat, want: Wanted)
    requires UserGrown(m0, f0, sp, frames, lo, hi, mem, free, sp', taken, frames', first, k, want)
    ensures UserOk(mem, lo, hi, free, sp', frames') && forall v :: first <= v < first + k ==> v in frames'
  {
    hide PageTable.TreeOk, PageTable.Pte, PageTable.UserOk, TablesAdded, Untouched, Mappable, Accounted, NewPages;
  }

  lemma GrownMappable(m0: Mem, f0: seq<nat>, sp: Space, frames: Frames, lo: nat, hi: nat, mem: Mem, free: seq<nat>,
                      sp': Space, taken: seq<nat>, frames': Frames, first: nat, k: nat, want: Wanted)
    requires UserGrown(m0, f0, sp, frames, lo, hi, mem, free, sp', taken, frames', first, k, want)
    ensures TreeOk(m0, sp) && TreeOk(mem, sp') && (Mappable(m0, sp, first + k) <==> Mappable(mem, sp', first + k))
  {
    hide PageTable.TreeOk, PageTable.Pte, TablesAdded, Untouched, Accounted;
  }

  lemma TablesAddedTransitive(sp: Space, sp1: Space, sp2: Space, t1: seq<nat>, t2: seq<nat>)
    requires TablesAdded(sp, sp1, t1) && TablesAdded(sp1, sp2, t2)
    ensures TablesAdded(sp, sp2, t1 + t2)
  {
    forall p | p in t1
      ensures Tables(sp2, p)
    {
      TablesGrow(sp1, sp2, p);
    }
  }

  lemma AddedTable(sp: Space, sp1: Space, taken: seq<nat>, p: nat)
    requires TablesAdded(sp, sp1, taken) && Tables(sp1, p) && !Tables(sp, p)
    ensures p in taken
  {
    var n :| n in sp1.nodes && sp1.nodes[n] == p;
    assert n !in sp.nodes;
  }

  /** Pages left alone twice are left alone. */
  lemma UntouchedStep(m0: Mem, f0: seq<nat>, sp: Space, m: Mem, f: seq<nat>, sp1: Space, taken: seq<nat>,
                      own: multiset<nat>, mem: Mem)
    requires Untouched(m0, f0, sp, m) && Untouched(m, f, sp1, mem) && TablesAdded(sp, sp1, taken)
    requires multiset(f0) == multiset(f) + multiset(taken) + own
    ensures Untouched(m0, f0, sp, mem)
  {
    forall p | p in m0 && p !in f0 && !Tables(sp, p)
      ensures p in mem && mem[p] == m0[p]
    {
      assert p !in multiset(f0);
      assert p !in f && p !in taken;
      if Tables(sp1, p) {
        AddedTable(sp, sp1, taken, p);
      }
    }
  }

  lemma UntouchedFrames(m: Mem, lo: nat, hi: nat, f: seq<nat>, sp: Space, frames: Frames, mem: Mem, v: nat)
    requires UserOk(m, lo, hi, f, sp, frames) && Untouched(m, f, sp, mem) && v in frames
    ensures frames[v] in m && frames[v] in mem && mem[frames[v]] == m[frames[v]]
  {
    hide PageTable.TreeOk, PageTable.Pte;
    assert FrameOk(m, lo, hi, f, sp, v, frames[v]);
  }

  /** One more page. */
  lemma GrownOneMore(m0: Mem, f0: seq<nat>, sp: Space, frames: Frames, lo: nat, hi: nat, m: Mem, f: seq<nat>,
                     sp1: Space, taken: seq<nat>, fr: Frames, first: nat, k: nat, want: Wanted, mem: Mem,
                     free: seq<nat>, sp2: Space, more: seq<nat>, fr2: Frames)
    requires UserGrown(m0, f0, sp, frames, lo, hi, m, f, sp1, taken, fr, first, k, want)
    requires UserOk(mem, lo, hi, free, sp2, fr2) && TablesAdded(sp1, sp2, more) && Untouched(m, f, sp1, mem)
    requires Mappable(m, sp1, first + k) && first + k !in fr && first + k in fr2
    requires want(first + k).1 < 1024
    requires fr2 == fr[first + k := fr2[first + k]] && fr2[first + k] in mem && mem[fr2[first + k]] == want(first + k).0
    requires multiset(f) == multiset(free) + multiset(more) + multiset{fr2[first + k]}
    requires forall v: nat :: Pte(mem, sp2, v) ==
               if v == first + k then MakePte(fr2[first + k], want(first + k).1) else Pte(m, sp1, v)
    ensures UserGrown(m0, f0, sp, frames, lo, hi, mem, free, sp2, taken + more, fr2, first, k + 1, want)
  {
    hide PageTable.TreeOk, PageTable.Pte, TablesAdded, Mappable, PageTable.UserOk, PageTable.SpaceOk, NewPages,
      Untouched, Added;
    GrownMappable(m0, f0, sp, frames, lo, hi, m, f, sp1, taken, fr, first, k, want);
    TablesAddedTransitive(sp, sp1, sp2, taken, more);
    UntouchedStep(m0, f0, sp, m, f, sp1, taken, multiset(FramesOf(fr, first, k)), mem);
    OneAdded(frames, fr, first, k, fr2);
    hide Accounted;
    OneNewPage(m0, sp, m, lo, hi, f, sp1, mem, sp2, fr, fr2, first, k, want);
    OneAccounted(f0, f, free, taken, more, fr, fr2, first, k);
  }

  lemma OneAdded(frames: Frames, fr: Frames, first: nat, k: nat, fr2: Frames)
    requires Added(frames, fr, first, k)
    requires first + k !in fr && first + k in fr2 && fr2 == fr[first + k := fr2[first + k]]
    ensures Added(frames, fr2, first, k + 1)
  {
  }

  lemma OneNewPage(m0: Mem, sp: Space, m: Mem, lo: nat, hi: nat, f: seq<nat>, sp1: Space, mem: Mem, sp2: Space,
                   fr: Frames, fr2: Frames, first: nat, k: nat, want: Wanted)
    requires NewPages(m0, sp, m, sp1, fr, first, k, want) && Mappable(m0, sp, first + k)
    requires UserOk(m, lo, hi, f, sp1, fr) && Untouched(m, f, sp1, mem) && want(first + k).1 < 1024
    requires first + k in fr2 && fr2 == fr[first + k := fr2[first + k]] && fr2[first + k] in mem
    requires mem[fr2[first + k]] == want(first + k).0
    requires forall v: nat :: Pte(mem, sp2, v) ==
               if v == first + k then MakePte(fr2[first + k], want(first + k).1) else Pte(m, sp1, v)
    ensures NewPages(m0, sp, mem, sp2, fr2, first, k + 1, want)
  {
    hide PageTable.Pte, PageTable.MakePte, Mappable, PageTable.UserOk, Untouched;
    PteStep(m0, sp, m, sp1, mem, sp2, fr, fr2, first, k, want);
    forall v | first <= v < first + k
      ensures fr[v] in m && fr[v] in mem && mem[fr[v]] == m[fr[v]]
    {
      UntouchedFrames(m, lo, hi, f, sp1, fr, mem, v);
    }
  }

  lemma OneAccounted(f0: seq<nat>, f: seq<nat>, free: seq<nat>, taken: seq<nat>, more: seq<nat>, fr: Frames,
                     fr2: Frames, first: nat, k: nat)
    requires Accounted(f0, f, taken, fr, first, k) && first + k in fr2 && fr2 == fr[first + k := fr2[first + k]]
    requires multiset(f) == multiset(free) + multiset(more) + multiset{fr2[first + k]}
    ensures Accounted(f0, free, taken + more, fr2, first, k + 1)
  {
    hide PageTable.FramesOf;
    FramesOfFrame(fr, fr2, first, k);
    FramesOfLast(fr2, first, k);
    MorePages(f0, f, free, taken, more, FramesOf(fr, first, k), fr2[first + k]);
  }

  lemma FramesOfLast(fr: Frames, first: nat, k: nat)
    requires forall v :: first <= v < first + k + 1 ==> v in fr
    ensures FramesOf(fr, first, k + 1) == [fr[first + k]] + FramesOf(fr, first, k)
  {
  }

  lemma PteStep(m0: Mem, sp: Space, m: Mem, sp1: Space, mem: Mem, sp2: Space, fr: Frames, fr2: Frames, first: nat,
                k: nat, want: Wanted)
    requires forall v: nat :: first <= v < first + k ==> v in fr && v in fr2 && fr2[v] == fr[v] && want(v).1 < 1024
    requires first + k in fr2 && want(first + k).1 < 1024
    requires forall v: nat :: Pte(m, sp1, v) ==
               if first <= v < first + k then MakePte(fr[v], want(v).1) else Pte(m0, sp, v)
    requires forall v: nat :: Pte(mem, sp2, v) ==
               if v == first + k then MakePte(fr2[first + k], want(first + k).1) else Pte(m, sp1, v)
    ensures forall v: nat :: Pte(mem, sp2, v) ==
              if first <= v < first + k + 1 then MakePte(fr2[v], want(v).1) else Pte(m0, sp, v)
  {
    hide PageTable.Pte, PageTable.MakePte;
  }

  lemma MorePages(f0: seq<nat>, f: seq<nat>, free: seq<nat>, taken: seq<nat>, more: seq<nat>, own: seq<nat>, p: nat)
    requires multiset(f0) == multiset(f) + multiset(taken) + multiset(own)
    requires multiset(f) == multiset(free) + multiset(more) + multiset{p}
    ensures multiset(f0) == multiset(free) + multiset(taken + more) + multiset([p] + own)
  {
  }

  lemma {:induction false} FramesOfFrame(fr: Frames, fr2: Frames, first: nat, k: nat)
    requires forall v :: first <= v < first + k ==> v in fr && v in fr2 && fr2[v] == fr[v]
    ensures FramesOf(fr, first, k) == FramesOf(fr2, first, k)
  {
    if k > 0 {
      FramesOfFrame(fr, fr2, first, k - 1);
    }
  }

  /** A page that could not be mapped: the same pages, perhaps more tables. */
  lemma GrownButOne(m0: Mem, f0: seq<nat>, sp: Space, frames: Frames, lo: nat, hi: nat, m: Mem, f: seq<nat>, sp1: Space,
                    taken: seq<nat>, fr: Frames, first: nat, k: nat, want: Wanted, mem: Mem, free: seq<nat>, sp2: Space,
                    more: seq<nat>)
    requires UserGrown(m0, f0, sp, frames, lo, hi, m, f, sp1, taken, fr, first, k, want)
    requires UserOk(mem, lo, hi, free, sp2, fr) && TablesAdded(sp1, sp2, more) && Untouched(m, f, sp1, mem)
    requires multiset(f) == multiset(free) + multiset(more) && forall v: nat :: Pte(mem, sp2, v) == Pte(m, sp1, v)
    ensures UserGrown(m0, f0, sp, frames, lo, hi, mem, free, sp2, taken + more, fr, first, k, want)
  {
    hide PageTable.TreeOk, PageTable.Pte, TablesAdded, Mappable, PageTable.UserOk, PageTable.SpaceOk, Untouched,
      PageTable.MakePte;
    TablesAddedTransitive(sp, sp1, sp2, taken, more);
    UntouchedStep(m0, f0, sp, m, f, sp1, taken, multiset(FramesOf(fr, first, k)), mem);
    forall v | first <= v < first + k
      ensures fr[v] in m && fr[v] in mem && mem[fr[v]] == m[fr[v]]
    {
      UntouchedFrames(m, lo, hi, f, sp1, fr, mem, v);
    }
    assert multiset(taken + more) == multiset(taken) + multiset(more);
  }

  lemma KeepAdded(frames: Frames, fr: Frames, first: nat, k: nat)
    requires Added(frames, fr, first, k)
    ensures Keep(fr, first, k) == frames
  {
  }

  /** The added pages taken away again: every frame is back on the free list. */
  lemma Ungrown(m0: Mem, f0: seq<nat>, sp: Space, frames: Frames, lo: nat, hi: nat, m: Mem, f: seq<nat>, sp': Space,
                taken: seq<nat>, fr: Frames, first: nat, k: nat, want: Wanted, mem: Mem, free: seq<nat>)
    requires UserGrown(m0, f0, sp, frames, lo, hi, m, f, sp', taken, fr, first, k, want)
    requires UserOk(mem, lo, hi, free, sp', Keep(fr, first, k))
    requires forall v :: first <= v < first + k ==> v in fr
    requires forall p :: p in m && !Tables(sp', p) && p !in FramesOf(fr, first, k) ==> p in mem && mem[p] == m[p]
    requires free == FramesOf(fr, first, k) + f
    requires forall v: nat :: Pte(mem, sp', v) == if first <= v < first + k then 0 else Pte(m, sp', v)
    ensures Undone(m0, f0, sp, frames, lo, hi, mem, free, sp', taken)
  {
    hide PageTable.TreeOk, PageTable.Pte, TablesAdded, PageTable.UserOk, PageTable.SpaceOk, PageTable.FramesOf;
    KeepAdded(frames, fr, first, k);
    var own := FramesOf(fr, first, k);
    assert multiset(free) == multiset(own) + multiset(f);
    forall p | p in m0 && p !in f0 && !Tables(sp, p)
      ensures p in mem && mem[p] == m0[p]
    {
      assert p !in multiset(f0);
      assert p !in own && p !in taken;
      if Tables(sp', p) {
        AddedTable(sp, sp', taken, p);
      }
    }
    forall v: nat | V(Pte(m0, sp, v)) || V(Pte(mem, sp', v))
      ensures Pte(mem, sp', v) == Pte(m0, sp, v)
    {
      assert first <= v < first + k ==> Mappable(m0, sp, v);
      assert !V(0);
    }
  }

  /** The pages to be given back are all mapped. */
  lemma FramesUnmappable(mem: Mem, lo: nat, hi: nat, free: seq<nat>, sp: Space, frames: Frames, first: nat, k: nat)
    requires UserOk(mem, lo, hi, free, sp, frames) && forall v: nat :: first <= v < first + k ==> v in frames
    ensures TreeOk(mem, sp) && forall v: nat :: first <= v < first + k ==> Unmappable(mem, sp, v)
  {
    hide PageTable.TreeOk, PageTable.Pte;
    forall v: nat | first <= v < first + k
      ensures Unmappable(mem, sp, v)
    {
      assert FrameOk(mem, lo, hi, free, sp, v, frames[v]);
    }
  }

  lemma FrameTaken(mem: Mem, lo: nat, hi: nat, free: seq<nat>, sp: Space, frames: Frames, p: nat, x: Page,
                   free': seq<nat>)
    requires UserOk(mem, lo, hi, free, sp, frames) && free == [p] + free' && p !in free' && p in mem && lo <= p < hi
    ensures UserOk(mem[p := x], lo, hi, free', sp, frames) && !Tables(sp, p) && Untouched(mem, free, sp, mem[p := x])
    ensures multiset(free) == multiset{p} + multiset(free') && forall v :: v in frames ==> frames[v] != p
    ensures forall v: nat :: Pte(mem[p := x], sp, v) == Pte(mem, sp, v)
  {
    hide PageTable.TreeOk, PageTable.Pte, PageTable.UserOk;
    UserAllocated(mem, lo, hi, free, sp, frames, p, x, free');
  }

  lemma SameMappable(m: Mem, m1: Mem, sp: Space, vpn: nat)
    requires Pte(m1, sp, vpn) == Pte(m, sp, vpn)
    ensures Mappable(m, sp, vpn) <==> Mappable(m1, sp, vpn)
  {
  }

  /** New tables are the only pages written by a mapping. */
  lemma TookUntouched(m: Mem, f: seq<nat>, m1: Mem, f1: seq<nat>, sp: Space, taken: seq<nat>, mem: Mem, free: seq<nat>,
                      sp': Space, p: nat)
    requires Untouched(m, f, sp, m1) && f == [p] + f1 && Took(m1, f1, sp, taken, mem, free, sp')
    ensures Untouched(m, f, sp, mem)
  {
    forall q | q in m && q !in f && !Tables(sp, q)
      ensures q in mem && mem[q] == m[q]
    {
      assert q !in f1;
      NotANewTable(m1, f1, sp, taken, mem, free, sp', q);
    }
  }

  /** The failing branch: the page is nobody's, the rest is as before but for new tables. */
  lemma FrameUnmapped(m: Mem, f: seq<nat>, m1: Mem, lo: nat, hi: nat, f1: seq<nat>, sp: Space, frames: Frames,
                      taken: seq<nat>, mem: Mem, free: seq<nat>, sp': Space, p: nat)
    requires UserOk(m1, lo, hi, f1, sp, frames) && SpaceOk(mem, lo, hi, free, sp') && Untouched(m, f, sp, m1)
    requires Took(m1, f1, sp, taken, mem, free, sp') && f == [p] + f1 && p !in f1 && !Tables(sp, p)
    requires forall v: nat :: Pte(mem, sp', v) == Pte(m1, sp, v)
    ensures UserOk(mem, lo, hi, free, sp', frames) && TablesAdded(sp, sp', taken) && Untouched(m, f, sp, mem)
    ensures !Tables(sp', p) && p !in free && multiset(f1) == multiset(taken) + multiset(free)
  {
    hide PageTable.TreeOk, PageTable.Pte, PageTable.UserOk, PageTable.Took, PageTable.SpaceOk, TablesAdded, Untouched;
    TookTables(m1, f1, sp, taken, mem, free, sp');
    NotANewTable(m1, f1, sp, taken, mem, free, sp', p);
    UserGrew(m1, lo, hi, f1, sp, frames, taken, mem, free, sp');
    TookUntouched(m, f, m1, f1, sp, taken, mem, free, sp', p);
  }

  lemma FrameReturned(m: Mem, f: seq<nat>, sp: Space, m2: Mem, lo: nat, hi: nat, f2: seq<nat>, sp': Space,
                      frames: Frames, p: nat, mem: Mem, free: seq<nat>)
    requires UserOk(m2, lo, hi, f2, sp', frames) && Untouched(m, f, sp, m2) && !Tables(sp', p) && p in f
    requires forall v :: v in frames ==> frames[v] != p
    requires p in mem && mem == m2[p := mem[p]] && free == [p] + f2
    ensures UserOk(mem, lo, hi, free, sp', frames) && Untouched(m, f, sp, mem)
    ensures multiset(free) == multiset{p} + multiset(f2) && forall v: nat :: Pte(mem, sp', v) == Pte(m2, sp', v)
  {
    hide PageTable.TreeOk, PageTable.Pte, PageTable.UserOk;
    UserFreed(m2, lo, hi, f2, sp', frames, p, mem, free);
  }

  /** The successful branch: the page is now the frame of vpn. */
  lemma FrameMapped(m: Mem, f: seq<nat>, m1: Mem, lo: nat, hi: nat, f1: seq<nat>, sp: Space, frames: Frames,
                    taken: seq<nat>, mem: Mem, free: seq<nat>, sp': Space, p: nat, vpn: nat, perm: nat)
    requires UserOk(m1, lo, hi, f1, sp, frames) && SpaceOk(mem, lo, hi, free, sp') && Untouched(m, f, sp, m1)
    requires Took(m1, f1, sp, taken, mem, free, sp') && f == [p] + f1 && p !in f1 && !Tables(sp, p) && p in m1
    requires lo <= p < hi
    requires perm < 1024 && Mappable(m1, sp, vpn) && forall v :: v in frames ==> frames[v] != p
    requires forall v: nat :: Pte(mem, sp', v) == if v == vpn then MakePte(p, perm) else Pte(m1, sp, v)
    ensures UserOk(mem, lo, hi, free, sp', frames[vpn := p]) && TablesAdded(sp, sp', taken) && Untouched(m, f, sp, mem)
    ensures vpn !in frames && p in mem && mem[p] == m1[p] && multiset(f1) == multiset(taken) + multiset(free)
  {
    hide PageTable.TreeOk, PageTable.Pte, PageTable.UserOk, PageTable.Took, TablesAdded, Mappable, Untouched;
    TookTables(m1, f1, sp, taken, mem, free, sp');
    NotANewTable(m1, f1, sp, taken, mem, free, sp', p);
    MappedIsNew(m1, lo, hi, f1, sp, frames, vpn);
    UserGrew(m1, lo, hi, f1, sp, frames, taken, mem, free, sp');
    UserJoined(mem, lo, hi, free, sp', frames, vpn, p);
    TookUntouched(m, f, m1, f1, sp, taken, mem, free, sp', p);
  }

  /** Tables were added to the space, each in one of the pages taken, and every page taken is one. */
  ghost predicate TablesAdded(sp: Space, sp': Space, taken: seq<nat>)
  {
    && (forall n :: n in sp.nodes ==> n in sp'.nodes && sp'.nodes[n] == sp.nodes[n])
    && (forall p :: p in taken ==> Tables(sp', p))
    && (forall n :: n in sp'.nodes && n !in sp.nodes ==> sp'.nodes[n] in taken)
  }

  lemma NoTablesAdded(sp: Space)
    ensures TablesAdded(sp, sp, [])
  {
  }

  lemma TookTables(mem: Mem, free: seq<nat>, sp: Space, taken: seq<nat>, mem': Mem, free': seq<nat>, sp': Space)
    requires Took(mem, free, sp, taken, mem', free', sp')
    ensures TablesAdded(sp, sp', taken) && mem'.Keys == mem.Keys
    ensures multiset(free) == multiset(taken) + multiset(free') && forall q :: q in free' ==> q in free
    ensures forall p :: p in mem && !Tables(sp', p) ==> mem'[p] == mem[p]
  {
  }

  lemma WholePages(vpn: nat)
    ensures Pages(vpn * PGSIZE) == vpn
  {
  }

  lemma OnePage(vpn: nat)
    ensures (vpn * PGSIZE) / PGSIZE == vpn && (vpn * PGSIZE + PGSIZE - 1) / PGSIZE == vpn
  {
  }

  /** A page of nobody's given back. */
  lemma UserFreed(mem: Mem, lo: nat, hi: nat, free: seq<nat>, sp: Space, frames: Frames, p: nat, mem': Mem,
                  free': seq<nat>)
    requires UserOk(mem, lo, hi, free, sp, frames) && !Tables(sp, p) && forall v :: v in frames ==> frames[v] != p
    requires p in mem' && mem' == mem[p := mem'[p]] && free' == [p] + free
    ensures UserOk(mem', lo, hi, free', sp, frames) && multiset(free') == multiset{p} + multiset(free)
    ensures forall v: nat :: Pte(mem', sp, v) == Pte(mem, sp, v)
  {
    hide PageTable.TreeOk, PageTable.Pte;
    forall n | n in sp.nodes
      ensures sp.nodes[n] in mem && sp.nodes[n] != p
    {
      TablePages(mem, sp, n);
    }
    TreeFrame(mem, mem', sp);
    forall v | v in frames
      ensures FrameOk(mem', lo, hi, free', sp, v, frames[v])
    {
      assert FrameOk(mem, lo, hi, free, sp, v, frames[v]);
    }
  }

  lemma MappedIsNew(mem: Mem, lo: nat, hi: nat, free: seq<nat>, sp: Space, frames: Frames, vpn: nat)
    requires UserOk(mem, lo, hi, free, sp, frames) && Mappable(mem, sp, vpn)
    ensures vpn !in frames && vpn < VPN_LIMIT
  {
  }

  predicate Unmappable(mem: Mem, sp: Space, vpn: nat)
  {
    vpn < VPN_LIMIT && V(Pte(mem, sp, vpn))
  }

  /** n pages from first on were unmapped, from m0 and f0 to m and f. */
  ghost predicate Cleared(m0: Mem, f0: seq<nat>, m: Mem, f: seq<nat>, sp: Space, frames: Frames, first: nat, n: nat,
                          doFree: bool)
  {
    && (forall v: nat :: Pte(m, sp, v) == if first <= v < first + n then 0 else Pte(m0, sp, v))
    && (forall v: nat :: first <= v < first + n ==> Unmappable(m0, sp, v))
    && (if doFree then (forall v :: first <= v < first + n ==> v in frames) && f == FramesOf(frames, first, n) + f0
        else f == f0)
    && (forall p :: p in m0 && !Tables(sp, p) && (doFree ==> p !in FramesOf(frames, first, n)) ==>
          p in m && m[p] == m0[p])
  }

  lemma ClearedNone(m: Mem, f: seq<nat>, sp: Space, frames: Frames, first: nat, doFree: bool)
    ensures Cleared(m, f, m, f, sp, frames, first, 0, doFree)
  {
    hide PageTable.Pte;
  }

  lemma ClearedAt(m0: Mem, f0: seq<nat>, m: Mem, f: seq<nat>, sp: Space, frames: Frames, first: nat, n: nat,
                  doFree: bool, v: nat)
    requires Cleared(m0, f0, m, f, sp, frames, first, n, doFree) && !(first <= v < first + n)
    ensures Pte(m, sp, v) == Pte(m0, sp, v) && (v in frames <==> v in Keep(frames, first, n))
    ensures v in frames ==> Keep(frames, first, n)[v] == frames[v]
  {
    hide PageTable.Pte;
  }

  lemma ClearedNext(m0: Mem, f0: seq<nat>, m: Mem, f: seq<nat>, m': Mem, f': seq<nat>, sp: Space, frames: Frames,
                    first: nat, n: nat, doFree: bool)
    requires Cleared(m0, f0, m, f, sp, frames, first, n, doFree) && first + n < VPN_LIMIT && V(Pte(m, sp, first + n))
    requires if doFree then first + n in frames && f' == [frames[first + n]] + f else f' == f
    requires forall v: nat :: Pte(m', sp, v) == if v == first + n then 0 else Pte(m, sp, v)
    requires forall p :: p in m && !Tables(sp, p) && !(doFree && p == frames[first + n]) ==> p in m' && m'[p] == m[p]
    ensures Cleared(m0, f0, m', f', sp, frames, first, n + 1, doFree)
  {
    hide PageTable.Pte, PageTable.Tables;
  }

  lemma ClearedMeans(m0: Mem, f0: seq<nat>, m: Mem, f: seq<nat>, sp: Space, frames: Frames, first: nat, n: nat,
                     doFree: bool)
    requires Cleared(m0, f0, m, f, sp, frames, first, n, doFree)
    ensures forall v: nat :: Pte(m, sp, v) == if first <= v < first + n then 0 else Pte(m0, sp, v)
    ensures forall v: nat :: first <= v < first + n ==> Unmappable(m0, sp, v)
    ensures if doFree then (forall v :: first <= v < first + n ==> v in frames) && f == FramesOf(frames, first, n) + f0
            else f == f0
    ensures forall p :: p in m0 && !Tables(sp, p) && (doFree ==> p !in FramesOf(frames, first, n)) ==>
              p in m && m[p] == m0[p]
  {
    hide PageTable.Pte;
  }

  lemma KeepNone(frames: Frames, first: nat)
    ensures Keep(frames, first, 0) == frames
  {
  }

  lemma KeepOneLess(frames: Frames, first: nat, k: nat)
    ensures Keep(frames, first, k) - {first + k} == Keep(frames, first, k + 1)
  {
  }

  lemma UserSpace(mem: Mem, lo: nat, hi: nat, free: seq<nat>, sp: Space, frames: Frames)
    requires UserOk(mem, lo, hi, free, sp, frames)
    ensures SpaceOk(mem, lo, hi, free, sp)
  {
  }

  lemma UserFrame(mem: Mem, lo: nat, hi: nat, free: seq<nat>, sp: Space, frames: Frames, vpn: nat)
    requires UserOk(mem, lo, hi, free, sp, frames) && vpn in frames
    ensures FrameOk(mem, lo, hi, free, sp, vpn, frames[vpn])
    ensures forall n :: n in sp.nodes ==> sp.nodes[n] != frames[vpn]
  {
    assert FrameOk(mem, lo, hi, free, sp, vpn, frames[vpn]);
  }

  /** A valid last-level entry has more than PTE_V set. */
  lemma ValidIsLeaf(mem: Mem, sp: Space, vpn: nat)
    requires TreeOk(mem, sp) && TableOf(0, vpn) in sp.nodes && V(Pte(mem, sp, vpn))
    ensures Flags(Pte(mem, sp, vpn)) != PTE_V && Leaf(Pte(mem, sp, vpn))
  {
    assert Leaf(Entry(mem, sp, TableOf(0, vpn), Px(0, vpn)));
  }

  lemma NoEntry(mem: Mem, sp: Space, vpn: nat)
    requires TableOf(0, vpn) !in sp.nodes
    ensures Pte(mem, sp, vpn) == 0 && !V(0)
  {
  }

  lemma EntryOf(mem: Mem, sp: Space, vpn: nat)
    requires TreeOk(mem, sp) && TableOf(0, vpn) in sp.nodes
    ensures sp.nodes[TableOf(0, vpn)] in mem
    ensures Pte(mem, sp, vpn) == mem[sp.nodes[TableOf(0, vpn)]][Px(0, vpn)]
  {
  }

  lemma RootTable(mem: Mem, sp: Space, vpn: nat)
    requires TreeOk(mem, sp) && vpn < VPN_LIMIT
    ensures TableOf(2, vpn) in sp.nodes && sp.nodes[TableOf(2, vpn)] == sp.root && sp.root in mem
  {
    PathRoot(vpn);
  }

  /** A valid inner entry leads to the next table of the path; an invalid one means there is none. */
  lemma Follow(mem: Mem, sp: Space, level: nat, vpn: nat)
    requires TreeOk(mem, sp) && 1 <= level <= 2 && TableOf(level, vpn) in sp.nodes
    ensures sp.nodes[TableOf(level, vpn)] in mem
    ensures var pte := mem[sp.nodes[TableOf(level, vpn)]][Px(level, vpn)];
            && Child(TableOf(level, vpn), Px(level, vpn)) == TableOf(level - 1, vpn)
            && (V(pte) <==> TableOf(level - 1, vpn) in sp.nodes)
            && (V(pte) ==> Ppn(pte) == sp.nodes[TableOf(level - 1, vpn)] && Ppn(pte) in mem)
  {
    PathStep(level, vpn);
    assert Entry(mem, sp, TableOf(level, vpn), Px(level, vpn)) == mem[sp.nodes[TableOf(level, vpn)]][Px(level, vpn)];
  }

  lemma MissingTable(mem: Mem, sp: Space, level: nat, vpn: nat)
    requires TreeOk(mem, sp) && 1 <= level <= 2 && TableOf(level - 1, vpn) !in sp.nodes
    ensures TableOf(0, vpn) !in sp.nodes
  {
    if level == 2 {
      assert Parent(TableOf(0, vpn)) == TableOf(1, vpn);
    }
  }

  lemma FreeListPages(mem: Mem, head: nat, free: seq<nat>)
    requires FreeList(mem, head, free)
    ensures Nodup(free) && forall i :: 0 <= i < |free| ==> free[i] in mem
    ensures free != [] ==> free == [free[0]] + free[1..] && free[0] !in free[1..]
  {
  }
}
