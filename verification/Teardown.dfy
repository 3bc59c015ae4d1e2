/** kernel/vm.c and kernel/proc.c: building an empty address space and taking one down, page
    by page, until everything it held is back on the free list.
 */
module Teardown {
  import opened Prelude
  import opened PageTable
  import opened Vm
  import opened Fork

  // ---------------------------------------------------------------- parts of the tree

  /** m is n or a table below it. */
  ghost predicate Under(m: Node, n: Node)
    decreases n.level - m.level
  {
    m == n || (m.level < n.level && Under(Parent(m), n))
  }

  lemma {:induction false} UnderUnique(m: Node, a: Node, b: Node)
    requires Under(m, a) && Under(m, b) && a.level == b.level
    ensures a == b
    decreases a.level - m.level
  {
    if m != a {
      UnderUnique(Parent(m), a, b);
    }
  }

  lemma {:induction false} UnderLevel(m: Node, n: Node)
    requires Under(m, n)
    ensures m.level <= n.level
    decreases n.level - m.level
  {
  }

  lemma {:induction false} UnderChild(m: Node, n: Node, idx: nat)
    requires n.level > 0 && idx < ENTRIES && Under(m, Child(n, idx))
    ensures Under(m, n) && m != n
    decreases n.level - m.level
  {
    UnderLevel(m, Child(n, idx));
    ParentOfChild(n, idx);
    if m != Child(n, idx) {
      UnderChild(Parent(m), n, idx);
    }
  }

  /** A table below n is below one of n's children, which is in the tree too. */
  lemma {:induction false} UnderSome(mem: Mem, sp: Space, m: Node, n: Node) returns (idx: nat)
    requires TreeOk(mem, sp) && m in sp.nodes && n in sp.nodes && Under(m, n) && m != n
    ensures n.level > 0 && idx < ENTRIES && Under(m, Child(n, idx)) && Child(n, idx) in sp.nodes
    decreases n.level - m.level
  {
    if Parent(m) == n {
      idx := m.prefix % ENTRIES;
      assert Child(n, idx) == m;
    } else {
      UnderLevel(Parent(m), n);
      HasParent(mem, sp, m, n);
      idx := UnderSome(mem, sp, Parent(m), n);
      UnderLevel(Parent(m), Child(n, idx));
    }
  }

  lemma HasParent(mem: Mem, sp: Space, m: Node, n: Node)
    requires TreeOk(mem, sp) && m in sp.nodes && n in sp.nodes && m.level < n.level
    ensures Parent(m) in sp.nodes
  {
  }

  lemma {:induction false} UnderRoot(mem: Mem, sp: Space, m: Node)
    requires TreeOk(mem, sp) && m in sp.nodes
    ensures Under(m, ROOT)
    decreases 2 - m.level
  {
    if m.level < 2 {
      UnderRoot(mem, sp, Parent(m));
    }
  }

  /** An entry of a table, 0 where there is none. */
  function Slot(mem: Mem, sp: Space, m: Node, idx: nat): nat
  {
    if m in sp.nodes && sp.nodes[m] in mem && idx < ENTRIES then Entry(mem, sp, m, idx) else 0
  }

  ghost predicate PageUnder(sp: Space, n: Node, p: nat)
  {
    exists m :: m in sp.nodes && Under(m, n) && sp.nodes[m] == p
  }

  /** Some virtual page below n is still mapped. */
  ghost predicate LeafUnder(mem: Mem, sp: Space, n: Node)
  {
    exists m, idx: nat :: m in sp.nodes && Under(m, n) && m.level == 0 && idx < ENTRIES && V(Slot(mem, sp, m, idx))
  }

  /** The tables below n stand as in m0, in managed pages that are not free. */
  ghost predicate Standing(m0: Mem, mem: Mem, lo: nat, hi: nat, free: seq<nat>, sp: Space, n: Node)
  {
    forall m :: m in sp.nodes && Under(m, n) ==>
      && sp.nodes[m] in mem && sp.nodes[m] in m0 && mem[sp.nodes[m]] == m0[sp.nodes[m]]
      && lo <= sp.nodes[m] < hi && sp.nodes[m] !in free
  }

  /** The page is below one of the first i children of n. */
  ghost predicate PageDone(sp: Space, n: Node, i: nat, p: nat)
  {
    n.level > 0 && exists j: nat :: j < i && Child(n, j) in sp.nodes && PageUnder(sp, Child(n, j), p)
  }

  ghost predicate NoLeafYet(m0: Mem, sp: Space, n: Node, i: nat)
  {
    if n.level == 0 then forall j: nat :: j < i ==> !V(Slot(m0, sp, n, j))
    else forall j: nat :: j < i && Child(n, j) in sp.nodes ==> !LeafUnder(m0, sp, Child(n, j))
  }

  /** Taking down one child leaves the later ones standing. */
  lemma NextStanding(m0: Mem, mem: Mem, lo: nat, hi: nat, free: seq<nat>, sp: Space, n: Node, i: nat, freed: seq<nat>,
                     mem': Mem, free': seq<nat>, c: Node)
    requires TreeOk(m0, sp) && Standing(m0, mem, lo, hi, free, sp, n) && n in sp.nodes
    requires free' == freed + free && (forall p :: p in freed ==> PageDone(sp, n, i, p))
    requires forall p :: p in mem && p !in freed && p != sp.nodes[n] ==> p in mem' && mem'[p] == mem[p]
    requires n.level > 0 && i < ENTRIES && c == Child(n, i) && c in sp.nodes
    ensures Standing(m0, mem', lo, hi, free', sp, c)
  {
    hide PageTable.TreeOk;
    forall m | m in sp.nodes && Under(m, c)
      ensures sp.nodes[m] !in freed && Under(m, n) && m != n && sp.nodes[m] != sp.nodes[n]
    {
      UnderChild(m, n, i);
      Distinct(m0, sp, m, n);
      if sp.nodes[m] in freed {
        DoneElsewhere(m0, sp, n, i, m);
      }
    }
  }

  lemma Distinct(m0: Mem, sp: Space, m: Node, n: Node)
    requires TreeOk(m0, sp) && m in sp.nodes && n in sp.nodes && m != n
    ensures sp.nodes[m] != sp.nodes[n]
  {
  }

  lemma DoneElsewhere(m0: Mem, sp: Space, n: Node, i: nat, m: Node)
    requires TreeOk(m0, sp) && n.level > 0 && m in sp.nodes && Under(m, Child(n, i))
    ensures !PageDone(sp, n, i, sp.nodes[m])
  {
    hide PageTable.TreeOk;
    if PageDone(sp, n, i, sp.nodes[m]) {
      var j: nat :| j < i && Child(n, j) in sp.nodes && PageUnder(sp, Child(n, j), sp.nodes[m]);
      var w :| w in sp.nodes && Under(w, Child(n, j)) && sp.nodes[w] == sp.nodes[m];
      if w != m {
        Distinct(m0, sp, w, m);
      }
      UnderUnique(m, Child(n, i), Child(n, j));
    }
  }

  /** All children done: only n's own page is left. */
  lemma AllDone(m0: Mem, sp: Space, n: Node, p: nat)
    requires TreeOk(m0, sp) && n in sp.nodes
    ensures PageUnder(sp, n, p) <==> PageDone(sp, n, ENTRIES, p) || p == sp.nodes[n]
  {
    hide PageTable.TreeOk;
    if PageUnder(sp, n, p) && p != sp.nodes[n] {
      var m :| m in sp.nodes && Under(m, n) && sp.nodes[m] == p;
      var idx := UnderSome(m0, sp, m, n);
      assert PageUnder(sp, Child(n, idx), p);
    }
    if PageDone(sp, n, ENTRIES, p) {
      var j: nat :| j < ENTRIES && Child(n, j) in sp.nodes && PageUnder(sp, Child(n, j), p);
      var m :| m in sp.nodes && Under(m, Child(n, j)) && sp.nodes[m] == p;
      UnderChild(m, n, j);
    }
    assert Under(n, n);
  }

  lemma NoLeafAtAll(m0: Mem, sp: Space, n: Node)
    requires TreeOk(m0, sp) && n in sp.nodes && NoLeafYet(m0, sp, n, ENTRIES)
    ensures !LeafUnder(m0, sp, n)
  {
    hide PageTable.TreeOk;
    if LeafUnder(m0, sp, n) {
      var m, idx: nat :| m in sp.nodes && Under(m, n) && m.level == 0 && idx < ENTRIES && V(Slot(m0, sp, m, idx));
      if m != n {
        var j := UnderSome(m0, sp, m, n);
      }
    }
  }

  lemma LeafBelow(m0: Mem, sp: Space, n: Node, i: nat)
    requires TreeOk(m0, sp) && n.level > 0 && i < ENTRIES && LeafUnder(m0, sp, Child(n, i))
    ensures LeafUnder(m0, sp, n)
  {
    hide PageTable.TreeOk;
    var m, idx: nat :| m in sp.nodes && Under(m, Child(n, i)) && m.level == 0 && idx < ENTRIES
      && V(Slot(m0, sp, m, idx));
    UnderChild(m, n, i);
  }

  /** What an entry says. */
  lemma EntrySays(m0: Mem, sp: Space, n: Node, idx: nat)
    requires TreeOk(m0, sp) && n in sp.nodes && idx < ENTRIES
    ensures sp.nodes[n] in m0 && Slot(m0, sp, n, idx) == m0[sp.nodes[n]][idx]
    ensures n.level > 0 ==> (V(Slot(m0, sp, n, idx)) <==> Child(n, idx) in sp.nodes)
    ensures n.level > 0 && V(Slot(m0, sp, n, idx)) ==>
              !Leaf(Slot(m0, sp, n, idx)) && Ppn(Slot(m0, sp, n, idx)) == sp.nodes[Child(n, idx)]
    ensures n.level == 0 && V(Slot(m0, sp, n, idx)) ==> Leaf(Slot(m0, sp, n, idx))
  {
  }

  /** Where freewalk stands before entry i of table n. */
  ghost predicate Halfway(m0: Mem, was: Mem, f0: seq<nat>, mem: Mem, free: seq<nat>, sp: Space, n: Node, i: nat,
                          freed: seq<nat>)
    requires n in sp.nodes
  {
    var page := sp.nodes[n];
    && free == freed + f0 && (forall p :: p in freed <==> PageDone(sp, n, i, p))
    && (forall p :: p in was && p !in freed && p != page ==> p in mem && mem[p] == was[p])
    && page in mem && page in m0 && page !in free && (forall j :: i <= j < ENTRIES ==> mem[page][j] == m0[page][j])
    && NoLeafYet(m0, sp, n, i)
  }

  lemma HalfwayStart(m0: Mem, was: Mem, lo: nat, hi: nat, f0: seq<nat>, sp: Space, n: Node)
    requires n in sp.nodes && Standing(m0, was, lo, hi, f0, sp, n)
    ensures Halfway(m0, was, f0, was, f0, sp, n, 0, [])
  {
    hide Standing;
    StandingSelf(m0, was, lo, hi, f0, sp, n);
    assert f0 == [] + f0;
  }

  lemma HalfwaySkip(m0: Mem, was: Mem, f0: seq<nat>, mem: Mem, free: seq<nat>, sp: Space, n: Node, i: nat,
                    freed: seq<nat>)
    requires TreeOk(m0, sp) && n in sp.nodes && Halfway(m0, was, f0, mem, free, sp, n, i, freed) && i < ENTRIES
    requires !V(Slot(m0, sp, n, i))
    ensures Halfway(m0, was, f0, mem, free, sp, n, i + 1, freed)
  {
    hide PageTable.TreeOk, PageUnder, LeafUnder;
    EntrySays(m0, sp, n, i);
    forall p: nat
      ensures PageDone(sp, n, i + 1, p) <==> PageDone(sp, n, i, p)
    {
    }
  }

  lemma HalfwayStep(m0: Mem, was: Mem, f0: seq<nat>, m: Mem, f: seq<nat>, sp: Space, n: Node, i: nat, freed: seq<nat>,
                    more: seq<nat>, m1: Mem, mem: Mem, free: seq<nat>)
    requires TreeOk(m0, sp) && n in sp.nodes && Halfway(m0, was, f0, m, f, sp, n, i, freed) && i < ENTRIES
    requires n.level > 0 && Child(n, i) in sp.nodes && free == more + f
    requires (forall p :: p in more <==> PageUnder(sp, Child(n, i), p))
    requires forall p :: p in m && p !in more ==> p in m1 && m1[p] == m[p]
    requires sp.nodes[n] in m1 && mem == m1[sp.nodes[n] := m1[sp.nodes[n]][i := 0]] && !LeafUnder(m0, sp, Child(n, i))
    ensures Halfway(m0, was, f0, mem, free, sp, n, i + 1, more + freed)
  {
    hide PageTable.TreeOk, LeafUnder, PageUnder, PageDone;
    NotUnderChild(m0, sp, n, i);
    forall p: nat
      ensures PageDone(sp, n, i + 1, p) <==> PageDone(sp, n, i, p) || PageUnder(sp, Child(n, i), p)
    {
      DoneOneMore(sp, n, i, p);
    }
  }

  lemma DoneOneMore(sp: Space, n: Node, i: nat, p: nat)
    requires n.level > 0 && Child(n, i) in sp.nodes
    ensures PageDone(sp, n, i + 1, p) <==> PageDone(sp, n, i, p) || PageUnder(sp, Child(n, i), p)
  {
    hide PageUnder;
  }

  lemma NotUnderChild(m0: Mem, sp: Space, n: Node, i: nat)
    requires TreeOk(m0, sp) && n in sp.nodes && n.level > 0 && i < ENTRIES
    ensures !PageUnder(sp, Child(n, i), sp.nodes[n])
  {
    hide PageTable.TreeOk;
    if PageUnder(sp, Child(n, i), sp.nodes[n]) {
      var m :| m in sp.nodes && Under(m, Child(n, i)) && sp.nodes[m] == sp.nodes[n];
      UnderChild(m, n, i);
      Distinct(m0, sp, m, n);
    }
  }

  lemma HalfwayDone(m0: Mem, was: Mem, f0: seq<nat>, mem: Mem, free: seq<nat>, sp: Space, n: Node, freed: seq<nat>,
                    mem': Mem, free': seq<nat>)
    requires TreeOk(m0, sp) && n in sp.nodes && Halfway(m0, was, f0, mem, free, sp, n, ENTRIES, freed)
    requires free' == [sp.nodes[n]] + free && sp.nodes[n] in mem' && mem' == mem[sp.nodes[n] := mem'[sp.nodes[n]]]
    ensures !LeafUnder(m0, sp, n) && free' == [sp.nodes[n]] + freed + f0
    ensures forall p :: p in [sp.nodes[n]] + freed <==> PageUnder(sp, n, p)
    ensures forall p :: p in was && p !in [sp.nodes[n]] + freed ==> p in mem' && mem'[p] == was[p]
  {
    hide PageTable.TreeOk, PageUnder, LeafUnder;
    NoLeafAtAll(m0, sp, n);
    hide NoLeafYet, PageDone;
    forall p: nat
      ensures PageUnder(sp, n, p) <==> PageDone(sp, n, ENTRIES, p) || p == sp.nodes[n]
    {
      AllDone(m0, sp, n, p);
    }
  }

  lemma LeafHere(m0: Mem, sp: Space, n: Node, i: nat)
    requires n in sp.nodes && n.level == 0 && i < ENTRIES && V(Slot(m0, sp, n, i))
    ensures LeafUnder(m0, sp, n)
  {
    assert Under(n, n);
  }

  lemma StandingSelf(m0: Mem, mem: Mem, lo: nat, hi: nat, free: seq<nat>, sp: Space, n: Node)
    requires Standing(m0, mem, lo, hi, free, sp, n) && n in sp.nodes
    ensures sp.nodes[n] in mem && sp.nodes[n] in m0 && mem[sp.nodes[n]] == m0[sp.nodes[n]]
    ensures lo <= sp.nodes[n] < hi && sp.nodes[n] !in free
  {
    assert Under(n, n);
  }

  /** freewalk */
  method Freewalk(k: Memory, ghost m0: Mem, ghost sp: Space, ghost n: Node, pagetable: nat)
    returns (panicked: bool, ghost freed: seq<nat>)
    requires k.Valid() && TreeOk(m0, sp) && n in sp.nodes && pagetable == sp.nodes[n]
    requires Standing(m0, k.mem, k.lo, k.hi, k.free, sp, n)
    modifies k
    ensures k.Valid() && (panicked <==> LeafUnder(m0, sp, n))
    ensures !panicked ==> k.free == freed + old(k.free) && forall p :: p in freed <==> PageUnder(sp, n, p)
    ensures !panicked ==> forall p :: p in old(k.mem) && p !in freed ==> p in k.mem && k.mem[p] == old(k.mem)[p]
    decreases n.level
  {
    hide PageTable.TreeOk, Vm.FreeList, Standing, LeafUnder, PageUnder, PageDone, NoLeafYet, Slot;
    freed := [];
    ghost var was, f0 := k.mem, k.free;
    StandingSelf(m0, was, k.lo, k.hi, f0, sp, n);
    HalfwayStart(m0, was, k.lo, k.hi, f0, sp, n);
    var i := 0;
    while i < ENTRIES
      invariant 0 <= i <= ENTRIES && k.Valid() && Halfway(m0, was, f0, k.mem, k.free, sp, n, i, freed)
    {
      var pte := k.mem[pagetable][i];
      EntrySays(m0, sp, n, i);
      if V(pte) && !Leaf(pte) {
        var child := Ppn(pte);
        NextStanding(m0, was, k.lo, k.hi, f0, sp, n, i, freed, k.mem, k.free, Child(n, i));
        ghost var m, f, more := k.mem, k.free, [];
        panicked, more := Freewalk(k, m0, sp, Child(n, i), child);
        if panicked {
          LeafBelow(m0, sp, n, i);
          return true, [];
        }
        NotUnderChild(m0, sp, n, i);
        FreeListFrame(k.mem, k.freelist, k.free, pagetable, k.mem[pagetable][i := 0]);
        ghost var m1 := k.mem;
        k.mem := k.mem[pagetable := k.mem[pagetable][i := 0]];
        HalfwayStep(m0, was, f0, m, f, sp, n, i, freed, more, m1, k.mem, k.free);
        freed := more + freed;
      } else if V(pte) {
        LeafHere(m0, sp, n, i);
        return true, [];
      } else {
        HalfwaySkip(m0, was, f0, k.mem, k.free, sp, n, i, freed);
      }
      i := i + 1;
    }
    ghost var m, f := k.mem, k.free;
    panicked := k.Kfree(pagetable);
    HalfwayDone(m0, was, f0, m, f, sp, n, freed, k.mem, k.free);
    freed := [pagetable] + freed;
  }

  // ---------------------------------------------------------------- whole address spaces

  /** The free list f0 holds exactly what is free now together with what the space owns. */
  ghost predicate Stock(f0: seq<nat>, free: seq<nat>, sp: Space, frames: Frames)
  {
    forall p :: p in f0 <==> p in free || Owns(sp, frames, p)
  }

  /** Two lists without repetitions that hold the same are permutations of each other. */
  lemma {:induction false} SameBag(a: seq<nat>, b: seq<nat>)
    requires Nodup(a) && Nodup(b) && forall p :: p in a <==> p in b
    ensures multiset(a) == multiset(b)
  {
    forall p: nat
      ensures multiset(a)[p] == multiset(b)[p]
    {
      Once(a, p);
      Once(b, p);
    }
  }

  lemma {:induction false} Once(a: seq<nat>, p: nat)
    requires Nodup(a)
    ensures multiset(a)[p] == if p in a then 1 else 0
  {
    if a != [] {
      assert a == [a[0]] + a[1..];
      Once(a[1..], p);
      assert p in a <==> p == a[0] || p in a[1..];
    }
  }

  /** Growing a space moves pages from the free list into it, and nowhere else. */
  lemma GrownStock(f: seq<nat>, m0: Mem, f0: seq<nat>, sp: Space, frames: Frames, lo: nat, hi: nat, mem: Mem,
                   free: seq<nat>, sp': Space, taken: seq<nat>, frames': Frames, first: nat, k: nat, want: Wanted)
    requires Stock(f, f0, sp, frames)
    requires UserGrown(m0, f0, sp, frames, lo, hi, mem, free, sp', taken, frames', first, k, want)
    ensures Stock(f, free, sp', frames')
  {
    hide PageTable.TreeOk, PageTable.Pte, PageTable.UserOk, PageTable.SpaceOk, Vm.NewPages, Vm.Untouched;
    forall p: nat
      ensures p in f0 || Owns(sp, frames, p) <==> p in free || Owns(sp', frames', p)
    {
      assert (p in f0 <==> p in multiset(f0)) && (p in free <==> p in multiset(free));
      if p in f0 {
        if p in multiset(taken) {
          assert p in taken;
        } else if p in multiset(FramesOf(frames', first, k)) {
          FramesOfOwner(frames', first, k, p);
        }
      } else if Owns(sp, frames, p) {
        StaysOwned(sp, frames, sp', frames', taken, p);
      } else if Owns(sp', frames', p) {
        GrownOwns(m0, f0, sp, frames, lo, hi, mem, free, sp', taken, frames', first, k, want, p);
      }
    }
  }

  lemma StaysOwned(sp: Space, frames: Frames, sp': Space, frames': Frames, taken: seq<nat>, p: nat)
    requires TablesAdded(sp, sp', taken) && Owns(sp, frames, p) && forall v :: v in frames ==>
               v in frames' && frames'[v] == frames[v]
    ensures Owns(sp', frames', p)
  {
    if Tables(sp, p) {
      TablesGrow(sp, sp', p);
    } else {
      var v :| v in frames && frames[v] == p;
      assert frames'[v] == p;
    }
  }

  lemma {:induction false} FramesOfOwner(frames: Frames, first: nat, k: nat, p: nat)
    requires (forall w :: first <= w < first + k ==> w in frames) && p in FramesOf(frames, first, k)
    ensures exists v :: first <= v < first + k && v in frames && frames[v] == p
  {
    if p != frames[first + k - 1] {
      FramesOfOwner(frames, first, k - 1, p);
    }
  }

  /** A failed attempt to grow changes hands only of pages that became tables. */
  lemma UndoneStock(f: seq<nat>, m0: Mem, f0: seq<nat>, sp: Space, frames: Frames, lo: nat, hi: nat, mem: Mem,
                    free: seq<nat>, sp': Space, taken: seq<nat>)
    requires Stock(f, f0, sp, frames) && Undone(m0, f0, sp, frames, lo, hi, mem, free, sp', taken)
    ensures Stock(f, free, sp', frames)
  {
    hide PageTable.TreeOk, PageTable.Pte, PageTable.UserOk, PageTable.SpaceOk, Vm.Untouched;
    forall p: nat
      ensures p in f0 || Owns(sp, frames, p) <==> p in free || Owns(sp', frames, p)
    {
      assert (p in f0 <==> p in multiset(f0)) && (p in free <==> p in multiset(free));
      if p in f0 {
        if p in multiset(taken) {
          assert p in taken;
        }
      } else if Owns(sp, frames, p) {
        StaysOwned(sp, frames, sp', frames, taken, p);
      } else if Owns(sp', frames, p) {
        UndoneOwns(m0, f0, sp, frames, lo, hi, mem, free, sp', taken, p);
      }
    }
  }

  lemma MappedLeaf(mem: Mem, sp: Space)
    requires TreeOk(mem, sp)
    ensures LeafUnder(mem, sp, ROOT) <==> exists v: nat :: V(Pte(mem, sp, v))
  {
    if LeafUnder(mem, sp, ROOT) {
      var m, idx: nat :| m in sp.nodes && Under(m, ROOT) && m.level == 0 && idx < ENTRIES && V(Slot(mem, sp, m, idx));
      assert TableOf(0, m.prefix * ENTRIES + idx) == m && Px(0, m.prefix * ENTRIES + idx) == idx;
      assert V(Pte(mem, sp, m.prefix * ENTRIES + idx));
    }
    if v: nat :| V(Pte(mem, sp, v)) {
      UnderRoot(mem, sp, TableOf(0, v));
      assert V(Slot(mem, sp, TableOf(0, v), Px(0, v)));
    }
  }

  lemma StandingRoot(mem: Mem, lo: nat, hi: nat, free: seq<nat>, sp: Space)
    requires SpaceOk(mem, lo, hi, free, sp)
    ensures ROOT in sp.nodes && sp.root == sp.nodes[ROOT] && Standing(mem, mem, lo, hi, free, sp, ROOT)
    ensures forall p :: PageUnder(sp, ROOT, p) <==> Tables(sp, p)
  {
    forall m | m in sp.nodes
      ensures Under(m, ROOT) && sp.nodes[m] in mem
    {
      UnderRoot(mem, sp, m);
    }
  }

  /** uvmcreate */
  method Uvmcreate(k: Memory) returns (root: nat, ghost sp: Space)
    requires k.Valid()
    modifies k
    ensures k.Valid() && (root == 0 <==> old(k.free) == [])
    ensures root == 0 ==> k.mem == old(k.mem) && k.free == old(k.free)
    ensures root != 0 ==>
              && sp.root == root
              && UserOk(k.mem, k.lo, k.hi, k.free, sp, map[])
              && Stock(old(k.free), k.free, sp, map[])
              && (forall v: nat :: Pte(k.mem, sp, v) == 0)
              && forall p :: p in old(k.mem) && p !in old(k.free) ==> p in k.mem && k.mem[p] == old(k.mem)[p]
  {
    hide Vm.FreeList;
    ghost var f := k.free;
    FreeListPages(k.mem, k.freelist, f);
    root := k.Kalloc();
    sp := Space(root, map[ROOT := root]);
    if root == 0 {
      return;
    }
    FreeListFrame(k.mem, k.freelist, k.free, root, Blank());
    k.mem := k.mem[root := Blank()];
    assert f == [root] + k.free;
    BlankSpace(k.mem, root);
    OnlyRoot(root);
  }

  lemma BlankSpace(mem: Mem, root: nat)
    requires root in mem && mem[root] == Blank()
    ensures TreeOk(mem, Space(root, map[ROOT := root]))
    ensures forall v: nat :: Pte(mem, Space(root, map[ROOT := root]), v) == 0
  {
  }

  lemma OnlyRoot(root: nat)
    ensures forall p :: Owns(Space(root, map[ROOT := root]), map[], p) <==> p == root
  {
    assert ROOT in Space(root, map[ROOT := root]).nodes;
  }

  /** uvmfree: every frame and every table is given back, once each. */
  method Uvmfree(k: Memory, ghost sp: Space, root: nat, sz: nat, ghost frames: Frames) returns (panicked: bool)
    requires k.Valid() && UserOk(k.mem, k.lo, k.hi, k.free, sp, frames) && root == sp.root
    requires forall v: nat :: v in frames <==> v < Pages(sz)
    modifies k
    ensures k.Valid() && (panicked <==> exists v: nat :: V(Pte(old(k.mem), sp, v)) && v !in frames)
    ensures !panicked ==> forall p :: p in k.free <==> p in old(k.free) || Owns(sp, frames, p)
    ensures !panicked ==>
              forall p :: p in old(k.mem) && !Owns(sp, frames, p) ==> p in k.mem && k.mem[p] == old(k.mem)[p]
  {
    hide PageTable.TreeOk, PageTable.Pte, PageTable.UserOk, Vm.FreeList, Vm.Pages, Vm.Unmappable, PageTable.FramesOf,
      Owns, Standing, PageUnder, LeafUnder;
    ghost var m0, f0, n := k.mem, k.free, Pages(sz);
    if sz > 0 {
      FramesUnmappable(k.mem, k.lo, k.hi, k.free, sp, frames, 0, n);
      panicked := k.Uvmunmap(sp, root, 0, Pages(sz), true, frames);
    } else {
      ZeroSize();
      KeepNone(frames, 0);
      NoFrames(frames);
    }
    UserSpace(k.mem, k.lo, k.hi, k.free, sp, Keep(frames, 0, n));
    StandingRoot(k.mem, k.lo, k.hi, k.free, sp);
    MappedLeaf(k.mem, sp);
    LeftMapped(m0, k.mem, sp, n, frames);
    ghost var m1, f1, freed := k.mem, k.free, [];
    panicked, freed := Freewalk(k, k.mem, sp, ROOT, root);
    if !panicked {
      AllReturned(sp, frames, n, f0, freed, k.free);
    }
  }

  lemma ZeroSize()
    ensures Pages(0) == 0
  {
  }

  lemma NoFrames(frames: Frames)
    ensures FramesOf(frames, 0, 0) == []
  {
  }

  lemma LeftMapped(m0: Mem, mem: Mem, sp: Space, n: nat, frames: Frames)
    requires forall v: nat :: v in frames <==> v < n
    requires forall v: nat :: Pte(mem, sp, v) == if v < n then 0 else Pte(m0, sp, v)
    ensures (exists v: nat :: V(Pte(mem, sp, v))) <==> exists v: nat :: V(Pte(m0, sp, v)) && v !in frames
  {
    hide PageTable.Pte;
    if v: nat :| V(Pte(mem, sp, v)) {
      assert !V(0);
      assert V(Pte(m0, sp, v)) && v !in frames;
    }
    if v: nat :| V(Pte(m0, sp, v)) && v !in frames {
      assert V(Pte(mem, sp, v));
    }
  }

  lemma AllReturned(sp: Space, frames: Frames, n: nat, f0: seq<nat>, freed: seq<nat>, free: seq<nat>)
    requires forall v: nat :: v in frames <==> v < n
    requires (forall p :: p in freed <==> Tables(sp, p)) && free == freed + (FramesOf(frames, 0, n) + f0)
    ensures forall p :: p in free <==> p in f0 || Owns(sp, frames, p)
    ensures forall p :: p in FramesOf(frames, 0, n) ==> Owns(sp, frames, p)
  {
    forall p: nat
      ensures p in FramesOf(frames, 0, n) <==> exists v :: v in frames && frames[v] == p
    {
      if p in FramesOf(frames, 0, n) {
        FramesOfOwner(frames, 0, n, p);
      }
      if v :| v in frames && frames[v] == p {
        InFramesOf(frames, 0, n, v);
      }
    }
  }

  // ---------------------------------------------------------------- proc.c

  const TRAMPOLINE: nat := VPN_LIMIT - 1
  const TRAPFRAME: nat := VPN_LIMIT - 2

  /** What proc_pagetable maps. */
  function FixedPte(trampoline: nat, trapframe: nat, v: nat): nat
  {
    if v == TRAMPOLINE then MakePte(trampoline, PTE_R + PTE_X)
    else if v == TRAPFRAME then MakePte(trapframe, PTE_R + PTE_W)
    else 0
  }

  /** A table page taken for the space moves from the free list into it. */
  lemma TookStock(f: seq<nat>, m: Mem, f0: seq<nat>, sp: Space, taken: seq<nat>, mem: Mem, free: seq<nat>, sp': Space)
    requires Stock(f, f0, sp, map[]) && Took(m, f0, sp, taken, mem, free, sp')
    ensures Stock(f, free, sp', map[])
  {
    forall p: nat
      ensures p in f0 || Tables(sp, p) <==> p in free || Tables(sp', p)
    {
      if Tables(sp, p) {
        TablesGrow(sp, sp', p);
      }
    }
    forall p: nat
      ensures Owns(sp, map[], p) <==> Tables(sp, p)
      ensures Owns(sp', map[], p) <==> Tables(sp', p)
    {
    }
  }

  /** Nothing but pages that were free and tables was written. */
  lemma TookOthers(m: Mem, f0: seq<nat>, sp: Space, taken: seq<nat>, mem: Mem, free: seq<nat>, sp': Space, p: nat)
    requires Took(m, f0, sp, taken, mem, free, sp') && p in m && p !in f0 && !Tables(sp, p)
    ensures p in mem && mem[p] == m[p] && !Tables(sp', p)
  {
    NotANewTable(m, f0, sp, taken, mem, free, sp', p);
  }

  /** Pages outside the stock are as they were. */
  ghost predicate Others(m0: Mem, f0: seq<nat>, mem: Mem)
  {
    forall p :: p in m0 && p !in f0 ==> p in mem && mem[p] == m0[p]
  }

  /** mappages of one page into a space without user memory. */
  method MapFixed(k: Memory, ghost m0: Mem, ghost f0: seq<nat>, ghost sp: Space, root: nat, vpn: nat, ppn: nat,
                  perm: nat)
    returns (ok: bool, ghost sp': Space)
    requires k.Valid() && UserOk(k.mem, k.lo, k.hi, k.free, sp, map[]) && Stock(f0, k.free, sp, map[])
    requires Others(m0, f0, k.mem)
    requires root == sp.root && perm < 1024 && (perm / 2) % 8 != 0 && Mappable(k.mem, sp, vpn)
    modifies k
    ensures k.Valid() && UserOk(k.mem, k.lo, k.hi, k.free, sp', map[]) && Stock(f0, k.free, sp', map[])
    ensures Others(m0, f0, k.mem)
    ensures sp'.root == sp.root
    ensures forall v: nat :: Pte(k.mem, sp', v) == if ok && v == vpn then MakePte(ppn, perm) else Pte(old(k.mem), sp, v)
  {
    hide PageTable.TreeOk, PageTable.Took, Vm.FreeList, PageTable.Pte, Vm.Mappable, Owns;
    ghost var m, f := k.mem, k.free;
    ghost var taken;
    var panicked;
    ok, panicked, sp', taken := k.MapPage(sp, root, vpn, ppn, perm);
    TookStock(f0, m, f, sp, taken, k.mem, k.free, sp');
    forall p | p in m0 && p !in f0
      ensures p in k.mem && k.mem[p] == m0[p]
    {
      assert !Owns(sp, map[], p);
      OwnsNoFrames(sp, p);
      TookOthers(m, f, sp, taken, k.mem, k.free, sp', p);
    }
  }

  lemma OwnsNoFrames(sp: Space, p: nat)
    ensures Owns(sp, map[], p) <==> Tables(sp, p)
  {
  }

  /** proc_pagetable: an address space with the trampoline and the trapframe mapped and no
      user memory; or nothing, and every page back where it was. */
  method ProcPagetable(k: Memory, trampoline: nat, trapframe: nat) returns (root: nat, panicked: bool, ghost sp: Space)
    requires k.Valid()
    modifies k
    ensures k.Valid() && !panicked && Others(old(k.mem), old(k.free), k.mem)
    ensures root == 0 ==> multiset(k.free) == multiset(old(k.free))
    ensures root != 0 ==>
              && sp.root == root
              && UserOk(k.mem, k.lo, k.hi, k.free, sp, map[])
              && Stock(old(k.free), k.free, sp, map[])
              && forall v: nat :: Pte(k.mem, sp, v) == FixedPte(trampoline, trapframe, v)
    ensures root != 0 ==> forall v: nat :: Pte(k.mem, sp, v) == if v == 0x3ff_ffff then trampoline * 1024 + 11
                                           else if v == 0x3ff_fffe then trapframe * 1024 + 7 else 0
  {
    hide PageTable.TreeOk, Vm.FreeList, PageTable.Pte, PageTable.UserOk, Stock, PageTable.MakePte;
    ghost var m0, f0 := k.mem, k.free;
    assert Nodup(f0) by { FreeListNodup(m0, k.freelist, f0); }
    root, sp := Uvmcreate(k);
    panicked := false;
    if root == 0 {
      return;
    }
    RootIsPage(k.mem, k.lo, k.hi, k.free, sp);
    ZeroIsMappable(k.mem, sp, TRAMPOLINE);
    var ok;
    ok, sp := MapFixed(k, m0, f0, sp, root, TRAMPOLINE, trampoline, PTE_R + PTE_X);
    if !ok {
      panicked := Discard(k, m0, f0, sp, root);
      return 0, panicked, sp;
    }
    ZeroIsMappable(k.mem, sp, TRAPFRAME);
    ok, sp := MapFixed(k, m0, f0, sp, root, TRAPFRAME, trapframe, PTE_R + PTE_W);
    if !ok {
      panicked := DropFixed(k, m0, f0, sp, root, TRAMPOLINE, map[]);
      panicked := Discard(k, m0, f0, sp, root);
      return 0, panicked, sp;
    }
  }

  lemma FreeListNodup(mem: Mem, head: nat, free: seq<nat>)
    requires FreeList(mem, head, free)
    ensures Nodup(free)
  {
  }

  lemma RootIsPage(mem: Mem, lo: nat, hi: nat, free: seq<nat>, sp: Space)
    requires UserOk(mem, lo, hi, free, sp, map[])
    ensures lo <= sp.root < hi
  {
  }

  lemma ZeroIsMappable(mem: Mem, sp: Space, v: nat)
    requires Pte(mem, sp, v) == 0 && v < VPN_LIMIT
    ensures Mappable(mem, sp, v)
  {
  }

  /** uvmunmap of one page that has no user frame behind it. */
  method DropFixed(k: Memory, ghost m0: Mem, ghost f0: seq<nat>, ghost sp: Space, root: nat, vpn: nat,
                   ghost frames: Frames)
    returns (panicked: bool)
    requires k.Valid() && UserOk(k.mem, k.lo, k.hi, k.free, sp, frames) && root == sp.root && vpn !in frames
    requires vpn < VPN_LIMIT && Stock(f0, k.free, sp, frames) && Others(m0, f0, k.mem)
    modifies k
    ensures k.Valid() && (panicked <==> !V(Pte(old(k.mem), sp, vpn)))
    ensures !panicked ==>
              UserOk(k.mem, k.lo, k.hi, k.free, sp, frames) && k.free == old(k.free) && Others(m0, f0, k.mem)
    ensures !panicked ==> forall v: nat :: Pte(k.mem, sp, v) == if v == vpn then 0 else Pte(old(k.mem), sp, v)
  {
    hide PageTable.TreeOk, Vm.FreeList, PageTable.Pte, PageTable.UserOk, Owns;
    OnePage(vpn);
    ghost var m := k.mem;
    assert (forall v: nat :: vpn <= v < vpn + 1 ==> Unmappable(m, sp, v)) <==> Unmappable(m, sp, vpn);
    panicked := k.Uvmunmap(sp, root, vpn * PGSIZE, 1, false, frames);
    if !panicked {
      KeepOther(frames, vpn);
      forall p | p in m0 && p !in f0
        ensures p in k.mem && k.mem[p] == m0[p]
      {
        assert !Owns(sp, frames, p);
        NotOwned(sp, frames, p);
      }
    }
  }

  lemma NotOwned(sp: Space, frames: Frames, p: nat)
    requires !Owns(sp, frames, p)
    ensures !Tables(sp, p)
  {
  }

  lemma KeepOther(frames: Frames, vpn: nat)
    requires vpn !in frames
    ensures Keep(frames, vpn, 1) == frames
  {
  }

  /** uvmfree of a space without user memory and without mappings. */
  method Discard(k: Memory, ghost m0: Mem, ghost f0: seq<nat>, ghost sp: Space, root: nat) returns (panicked: bool)
    requires k.Valid() && UserOk(k.mem, k.lo, k.hi, k.free, sp, map[]) && Stock(f0, k.free, sp, map[])
    requires Others(m0, f0, k.mem)
    requires root == sp.root && Nodup(f0) && forall v: nat :: Pte(k.mem, sp, v) == 0
    modifies k
    ensures k.Valid() && !panicked && multiset(k.free) == multiset(f0) && Others(m0, f0, k.mem)
  {
    hide PageTable.TreeOk, Vm.FreeList, PageTable.Pte, PageTable.UserOk, Owns, Nodup;
    ZeroSize();
    assert !V(0);
    panicked := Uvmfree(k, sp, root, 0, map[]);
    FreeListNodup(k.mem, k.freelist, k.free);
    SameBag(k.free, f0);
  }

  /** proc_freepagetable */
  method ProcFreepagetable(k: Memory, ghost f0: seq<nat>, ghost sp: Space, root: nat, sz: nat, ghost frames: Frames)
    returns (panicked: bool)
    requires k.Valid() && UserOk(k.mem, k.lo, k.hi, k.free, sp, frames) && root == sp.root
    requires forall v: nat :: v in frames <==> v < Pages(sz)
    requires TRAMPOLINE !in frames && TRAPFRAME !in frames && Nodup(f0) && Stock(f0, k.free, sp, frames)
    modifies k
    ensures k.Valid()
    ensures !panicked <==> && V(Pte(old(k.mem), sp, TRAMPOLINE)) && V(Pte(old(k.mem), sp, TRAPFRAME))
                           && forall v: nat :: V(Pte(old(k.mem), sp, v)) ==>
                                v == TRAMPOLINE || v == TRAPFRAME || v < Pages(sz)
    ensures !panicked ==> multiset(k.free) == multiset(f0) && Others(old(k.mem), f0, k.mem)
  {
    hide PageTable.TreeOk, Vm.FreeList, PageTable.Pte, PageTable.UserOk, Owns, Nodup, Vm.Pages;
    ghost var m0 := k.mem;
    panicked := DropFixed(k, m0, f0, sp, root, TRAMPOLINE, frames);
    if panicked {
      return;
    }
    panicked := DropFixed(k, m0, f0, sp, root, TRAPFRAME, frames);
    if panicked {
      return;
    }
    ghost var m := k.mem;
    assert !V(0);
    assert forall v: nat :: V(Pte(m, sp, v)) <==> V(Pte(m0, sp, v)) && v != TRAMPOLINE && v != TRAPFRAME;
    panicked := Uvmfree(k, sp, root, sz, frames);
    if !panicked {
      FreeListNodup(k.mem, k.freelist, k.free);
      SameBag(k.free, f0);
    }
  }

  // ---------------------------------------------------------------- the life of an address space

  const UINT: nat := 0x1_0000_0000

  /** A process's address space of sz bytes, all of whose pages came from f0; m0 is memory as it
      was then. */
  ghost predicate Alive(m0: Mem, f0: seq<nat>, mem: Mem, lo: nat, hi: nat, free: seq<nat>, sp: Space, sz: nat,
                        frames: Frames)
  {
    && UserOk(mem, lo, hi, free, sp, frames) && sz < UINT && (forall v: nat :: v in frames <==> v < Pages(sz))
    && Stock(f0, free, sp, frames) && Others(m0, f0, mem) && Fixed(mem, sp, sz)
  }

  /** The trampoline and the trapframe are mapped, and beyond sz bytes nothing else is. */
  ghost predicate Fixed(mem: Mem, sp: Space, sz: nat)
  {
    && V(Pte(mem, sp, TRAMPOLINE)) && V(Pte(mem, sp, TRAPFRAME))
    && forall v: nat :: V(Pte(mem, sp, v)) ==> v == TRAMPOLINE || v == TRAPFRAME || v < Pages(sz)
  }

  /** User memory stays clear of the trapframe. */
  lemma PagesBound(sz: nat)
    requires sz < UINT
    ensures Pages(sz) < TRAPFRAME < TRAMPOLINE < VPN_LIMIT
  {
  }

  lemma AliveMappable(m0: Mem, f0: seq<nat>, mem: Mem, lo: nat, hi: nat, free: seq<nat>, sp: Space, sz: nat,
                      frames: Frames, newsz: nat)
    requires Alive(m0, f0, mem, lo, hi, free, sp, sz, frames) && newsz < UINT
    ensures forall v: nat :: Pages(sz) <= v < Pages(newsz) ==> Mappable(mem, sp, v)
  {
    hide PageTable.Pte, PageTable.UserOk, Vm.Pages, Stock, Others;
    PagesBound(newsz);
  }

  lemma StockFree(f0: seq<nat>, free: seq<nat>, sp: Space, frames: Frames, p: nat)
    requires Stock(f0, free, sp, frames) && p !in f0
    ensures p !in free && !Tables(sp, p) && !Owns(sp, frames, p)
  {
  }

  lemma OthersUntouched(m0: Mem, f0: seq<nat>, m: Mem, f: seq<nat>, sp: Space, frames: Frames, mem: Mem)
    requires Others(m0, f0, m) && Stock(f0, f, sp, frames) && Untouched(m, f, sp, mem)
    ensures Others(m0, f0, mem)
  {
    hide Stock;
    forall p | p in m0 && p !in f0
      ensures p in mem && mem[p] == m0[p]
    {
      StockFree(f0, f, sp, frames, p);
    }
  }

  lemma AliveGrown(m0: Mem, f0: seq<nat>, m: Mem, f: seq<nat>, sp: Space, sz: nat, frames: Frames, lo: nat, hi: nat,
                   mem: Mem, free: seq<nat>, sp': Space, taken: seq<nat>, frames': Frames, newsz: nat, want: Wanted)
    requires Alive(m0, f0, m, lo, hi, f, sp, sz, frames) && newsz < UINT && Pages(sz) <= Pages(newsz)
    requires UserGrown(m, f, sp, frames, lo, hi, mem, free, sp', taken, frames', Pages(sz), Pages(newsz) - Pages(sz),
                       want)
    ensures Alive(m0, f0, mem, lo, hi, free, sp', newsz, frames')
  {
    hide PageTable.TreeOk, PageTable.Pte, PageTable.UserOk, PageTable.SpaceOk, Stock, Others, Vm.Pages, Vm.TablesAdded,
      Vm.Untouched, Vm.Accounted, PageTable.MakePte;
    PagesBound(newsz);
    GrownStock(f0, m, f, sp, frames, lo, hi, mem, free, sp', taken, frames', Pages(sz), Pages(newsz) - Pages(sz), want);
    OthersUntouched(m0, f0, m, f, sp, frames, mem);
  }

  lemma AliveUndone(m0: Mem, f0: seq<nat>, m: Mem, f: seq<nat>, sp: Space, sz: nat, frames: Frames, lo: nat, hi: nat,
                    mem: Mem, free: seq<nat>, sp': Space, taken: seq<nat>)
    requires Alive(m0, f0, m, lo, hi, f, sp, sz, frames) && Undone(m, f, sp, frames, lo, hi, mem, free, sp', taken)
    ensures Alive(m0, f0, mem, lo, hi, free, sp', sz, frames)
  {
    hide PageTable.TreeOk, PageTable.Pte, PageTable.UserOk, Stock, Others, Vm.Pages, Vm.TablesAdded, Vm.Untouched;
    UndoneStock(f0, m, f, sp, frames, lo, hi, mem, free, sp', taken);
    OthersUntouched(m0, f0, m, f, sp, frames, mem);
  }

  /** Frames given back are free again and no longer the space's. */
  lemma ShrunkStock(f0: seq<nat>, f: seq<nat>, sp: Space, frames: Frames, first: nat, n: nat)
    requires Stock(f0, f, sp, frames) && (forall v: nat :: v in frames <==> v < first + n)
    ensures Stock(f0, FramesOf(frames, first, n) + f, sp, Keep(frames, first, n))
  {
    forall p: nat
      ensures p in f || Owns(sp, frames, p) <==>
                p in FramesOf(frames, first, n) + f || Owns(sp, Keep(frames, first, n), p)
    {
      if p in FramesOf(frames, first, n) {
        FramesOfOwner(frames, first, n, p);
      }
      if v :| v in frames && frames[v] == p {
        if v < first {
          assert v in Keep(frames, first, n) && Keep(frames, first, n)[v] == p;
        } else {
          InFramesOf(frames, first, n, v);
        }
      }
      if v :| v in Keep(frames, first, n) && Keep(frames, first, n)[v] == p {
        assert v in frames && frames[v] == p;
      }
    }
  }

  lemma AliveShrunk(m0: Mem, f0: seq<nat>, m: Mem, f: seq<nat>, sp: Space, sz: nat, frames: Frames, lo: nat, hi: nat,
                    mem: Mem, free: seq<nat>, newsz: nat)
    requires Alive(m0, f0, m, lo, hi, f, sp, sz, frames) && newsz < UINT && Pages(newsz) <= Pages(sz)
    requires var n := Pages(sz) - Pages(newsz);
             && UserOk(mem, lo, hi, free, sp, Keep(frames, Pages(newsz), n))
             && free == FramesOf(frames, Pages(newsz), n) + f
             && (forall v: nat :: Pte(mem, sp, v) == if Pages(newsz) <= v < Pages(newsz) + n then 0 else Pte(m, sp, v))
             && (forall p :: p in m && !Tables(sp, p) && p !in FramesOf(frames, Pages(newsz), n) ==>
                   p in mem && mem[p] == m[p])
    ensures Alive(m0, f0, mem, lo, hi, free, sp, newsz, Keep(frames, Pages(newsz), Pages(sz) - Pages(newsz)))
  {
    hide PageTable.TreeOk, PageTable.Pte, PageTable.UserOk, Stock, Vm.Pages, Owns, PageTable.FramesOf;
    var n := Pages(sz) - Pages(newsz);
    PagesBound(sz);
    assert !V(0);
    ShrunkStock(f0, f, sp, frames, Pages(newsz), n);
    forall p | p in m0 && p !in f0
      ensures p in mem && mem[p] == m0[p]
    {
      StockFree(f0, f, sp, frames, p);
      StockFree(f0, free, sp, Keep(frames, Pages(newsz), n), p);
    }
  }

  /** growproc. The new size is computed in 32 bits; where that wraps around nothing changes, and
      growing still reports success. */
  method Growproc(k: Memory, ghost m0: Mem, ghost f0: seq<nat>, ghost sp: Space, root: nat, sz: nat, n: int,
                  ghost frames: Frames)
    returns (ret: int, sz': nat, panicked: bool, ghost sp': Space, ghost frames': Frames)
    requires k.Valid() && Alive(m0, f0, k.mem, k.lo, k.hi, k.free, sp, sz, frames) && root == sp.root
    requires -0x8000_0000 <= n < 0x8000_0000
    modifies k
    ensures k.Valid() && Alive(m0, f0, k.mem, k.lo, k.hi, k.free, sp', sz', frames') && sp'.root == root && !panicked
    ensures ret == 0 ==> sz' == if 0 <= sz + n < UINT then sz + n else sz
    ensures ret == 0 || (ret == -1 && n > 0 && sz' == sz)
  {
    hide PageTable.TreeOk, Vm.FreeList, PageTable.Pte, PageTable.UserOk, Stock, Others, Fixed, Owns, Vm.Pages,
      Vm.UserGrown, Vm.Undone, Vm.Mappable, PageTable.FramesOf, PageTable.Keep, PageTable.Tables;
    ghost var m, f := k.mem, k.free;
    var newsz := (sz + n) % UINT;
    sz', panicked, sp', frames' := sz, false, sp, frames;
    if n > 0 {
      AliveMappable(m0, f0, m, k.lo, k.hi, f, sp, sz, frames, newsz);
      ghost var taken;
      var r;
      r, panicked, sp', taken, frames' := k.Uvmalloc(sp, root, sz, newsz, frames);
      if newsz >= sz && r != newsz {
        AliveUndone(m0, f0, m, f, sp, sz, frames, k.lo, k.hi, k.mem, k.free, sp', taken);
      } else if newsz >= sz {
        AliveGrown(m0, f0, m, f, sp, sz, frames, k.lo, k.hi, k.mem, k.free, sp', taken, frames', newsz, ZeroPages());
      }
      if r == 0 {
        return -1, sz, panicked, sp', frames';
      }
      sz' := r;
    } else if n < 0 {
      sz', panicked := k.Uvmdealloc(sp, root, sz, newsz, frames);
      if newsz < sz {
        PagesMonotone(newsz, sz);
        AliveShrunk(m0, f0, m, f, sp, sz, frames, k.lo, k.hi, k.mem, k.free, newsz);
        frames' := Keep(frames, Pages(newsz), Pages(sz) - Pages(newsz));
      }
    }
    ret := 0;
  }

  lemma AliveFirst(m0: Mem, f0: seq<nat>, mem: Mem, lo: nat, hi: nat, free: seq<nat>, sp: Space, trampoline: nat,
                   trapframe: nat)
    requires UserOk(mem, lo, hi, free, sp, map[]) && Stock(f0, free, sp, map[]) && Others(m0, f0, mem)
    requires forall v: nat :: Pte(mem, sp, v) == FixedPte(trampoline, trapframe, v)
    ensures Alive(m0, f0, mem, lo, hi, free, sp, 0, map[])
  {
    hide PageTable.TreeOk, PageTable.Pte, PageTable.UserOk, Stock, Others, PageTable.MakePte;
    ZeroSize();
    assert !V(0);
  }

  /** An address space made by proc_pagetable, changed by any number of growprocs and taken down by
      proc_freepagetable: nothing panics, every page is back on the free list exactly once, and no
      other page was written. */
  method Lifetime(k: Memory, trampoline: nat, trapframe: nat, ns: seq<int>) returns (made: bool, panicked: bool)
    requires k.Valid() && forall i :: 0 <= i < |ns| ==> -0x8000_0000 <= ns[i] < 0x8000_0000
    modifies k
    ensures k.Valid() && !panicked && multiset(k.free) == multiset(old(k.free))
    ensures Others(old(k.mem), old(k.free), k.mem)
  {
    hide PageTable.TreeOk, Vm.FreeList, PageTable.Pte, PageTable.UserOk, Stock, Others, Alive, Nodup, PageTable.MakePte;
    ghost var m0, f0 := k.mem, k.free;
    FreeListNodup(m0, k.freelist, f0);
    var root;
    ghost var sp, frames := Space(0, map[]), map[];
    root, panicked, sp := ProcPagetable(k, trampoline, trapframe);
    made := root != 0;
    if !made {
      return;
    }
    AliveFirst(m0, f0, k.mem, k.lo, k.hi, k.free, sp, trampoline, trapframe);
    var sz, i := 0, 0;
    while i < |ns|
      invariant i <= |ns| && k.Valid() && !panicked && sp.root == root
      invariant Alive(m0, f0, k.mem, k.lo, k.hi, k.free, sp, sz, frames)
    {
      var r;
      r, sz, panicked, sp, frames := Growproc(k, m0, f0, sp, root, sz, ns[i], frames);
      i := i + 1;
    }
    ghost var m := k.mem;
    AliveMeans(m0, f0, m, k.lo, k.hi, k.free, sp, sz, frames);
    panicked := ProcFreepagetable(k, f0, sp, root, sz, frames);
    OthersTransitive(m0, f0, m, k.mem);
  }

  /** A new process that grows by one page and then gives back one byte more than it has: growproc
      reports success, and the process keeps its page. */
  method ShrinkPastZero(k: Memory, trampoline: nat, trapframe: nat)
    returns (made: bool, grew: int, ret: int, sz: nat, panicked: bool)
    requires k.Valid()
    modifies k
    ensures k.Valid() && !panicked
    ensures made && grew == 0 ==> ret == 0 && sz == PGSIZE
  {
    hide PageTable.TreeOk, Vm.FreeList, PageTable.Pte, PageTable.UserOk, Stock, Others, Alive, PageTable.MakePte;
    ghost var m0, f0 := k.mem, k.free;
    var root;
    ghost var sp, frames := Space(0, map[]), map[];
    ret, sz, grew := 0, 0, 0;
    root, panicked, sp := ProcPagetable(k, trampoline, trapframe);
    made := root != 0;
    if !made {
      return;
    }
    AliveFirst(m0, f0, k.mem, k.lo, k.hi, k.free, sp, trampoline, trapframe);
    grew, sz, panicked, sp, frames := Growproc(k, m0, f0, sp, root, 0, PGSIZE, frames);
    ret, sz, panicked, sp, frames := Growproc(k, m0, f0, sp, root, sz, -(sz + 1), frames);
  }

  lemma AliveMeans(m0: Mem, f0: seq<nat>, mem: Mem, lo: nat, hi: nat, free: seq<nat>, sp: Space, sz: nat,
                   frames: Frames)
    requires Alive(m0, f0, mem, lo, hi, free, sp, sz, frames)
    ensures UserOk(mem, lo, hi, free, sp, frames) && (forall v: nat :: v in frames <==> v < Pages(sz))
    ensures TRAMPOLINE !in frames && TRAPFRAME !in frames && Stock(f0, free, sp, frames) && Others(m0, f0, mem)
    ensures V(Pte(mem, sp, TRAMPOLINE)) && V(Pte(mem, sp, TRAPFRAME))
    ensures forall v: nat :: V(Pte(mem, sp, v)) ==> v == TRAMPOLINE || v == TRAPFRAME || v < Pages(sz)
  {
    hide PageTable.UserOk, PageTable.Pte, Vm.Pages, Stock, Others;
    PagesBound(sz);
  }

  lemma OthersTransitive(m0: Mem, f0: seq<nat>, m: Mem, mem: Mem)
    requires Others(m0, f0, m) && Others(m, f0, mem)
    ensures Others(m0, f0, mem)
  {
  }
}
