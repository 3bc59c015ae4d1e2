/** Sv39 page tables (section 4.4 of the RISC-V Privileged Architecture specification) as
    kernel/vm.c builds them: three levels of pages of 512 words each, in physical memory. A
    page is named by its physical page number, a virtual page by its virtual page number.
 */
module PageTable {

  const ENTRIES: nat := 512
  const PGSIZE: nat := 4096
  const VPN_LIMIT: nat := 0x400_0000       // MAXVA / PGSIZE

  type Page = s: seq<nat> | |s| == ENTRIES witness Blank()
  type Mem = map<nat, Page>

  function Blank(): (s: seq<nat>)
    ensures |s| == ENTRIES
  {
    seq(ENTRIES, _ => 0)
  }

  // ---------------------------------------------------------------- entries

  const PTE_V: nat := 1

  predicate V(pte: nat) { pte % 2 == 1 }

  /** Any of R, W, X: a leaf. */
  predicate Leaf(pte: nat) { (pte / 2) % 8 != 0 }

  function Flags(pte: nat): nat { pte % 1024 }

  function Ppn(pte: nat): nat { pte / 1024 }

  /** PA2PTE(pa) | perm | PTE_V */
  function MakePte(ppn: nat, perm: nat): (pte: nat)
    requires perm < 1024
    ensures pte == ppn * 1024 + perm + (if perm % 2 == 1 then 0 else 1)
    ensures V(pte) && Ppn(pte) == ppn && Flags(pte) == if perm % 2 == 1 then perm else perm + 1
    ensures Leaf(pte) <==> (perm / 2) % 8 != 0
  {
    var low := if perm % 2 == 1 then perm else perm + 1;
    PteParts(ppn, low);
    ppn * 1024 + low
  }

  lemma PteParts(ppn: nat, low: nat)
    requires low < 1024
    ensures (ppn * 1024 + low) / 1024 == ppn && (ppn * 1024 + low) % 1024 == low
    ensures (ppn * 1024 + low) % 2 == low % 2 && ((ppn * 1024 + low) / 2) % 8 == (low / 2) % 8
  {
    assert (ppn * 1024 + low) / 2 == ppn * 512 + low / 2;
    assert (ppn * 512 + low / 2) % 8 == (low / 2) % 8;
  }

  // ---------------------------------------------------------------- the tree

  /** A table of the tree: level 2 is the root; the prefix is the part of the virtual page
      number that leads to it. */
  datatype Node = Node(level: nat, prefix: nat)

  /** nodes says which physical page holds each table. */
  datatype Space = Space(root: nat, nodes: map<Node, nat>)

  const ROOT := Node(2, 0)

  function Child(n: Node, idx: nat): Node
    requires n.level > 0
  {
    Node(n.level - 1, n.prefix * ENTRIES + idx)
  }

  function Parent(n: Node): Node
  {
    Node(n.level + 1, n.prefix / ENTRIES)
  }

  /** The table of the given level on the path of a virtual page. */
  function TableOf(level: nat, vpn: nat): Node
    requires level <= 2
  {
    Node(level, if level == 0 then vpn / ENTRIES else if level == 1 then vpn / ENTRIES / ENTRIES
                else vpn / ENTRIES / ENTRIES / ENTRIES)
  }

  /** PX(level, va) */
  function Px(level: nat, vpn: nat): (i: nat)
    requires level <= 2
    ensures i < ENTRIES
  {
    if level == 0 then vpn % ENTRIES
    else if level == 1 then vpn / ENTRIES % ENTRIES
    else vpn / ENTRIES / ENTRIES % ENTRIES
  }

  lemma PathStep(level: nat, vpn: nat)
    requires 1 <= level <= 2
    ensures Child(TableOf(level, vpn), Px(level, vpn)) == TableOf(level - 1, vpn)
  {
  }

  lemma PathRoot(vpn: nat)
    requires vpn < VPN_LIMIT
    ensures TableOf(2, vpn) == ROOT
  {
  }

  function Entry(mem: Mem, sp: Space, n: Node, idx: nat): nat
    requires n in sp.nodes && sp.nodes[n] in mem && idx < ENTRIES
  {
    mem[sp.nodes[n]][idx]
  }

  ghost predicate Injective(nodes: map<Node, nat>)
  {
    forall n, m :: n in nodes && m in nodes && n != m ==> nodes[n] != nodes[m]
  }

  /** Inner entries lead exactly to the tables of the tree, each by exactly one path, and
      the valid entries of the last level are leaves. */
  ghost predicate TreeOk(mem: Mem, sp: Space)
  {
    && ROOT in sp.nodes && sp.nodes[ROOT] == sp.root && Injective(sp.nodes)
    && (forall n :: n in sp.nodes ==> n.level <= 2 && sp.nodes[n] in mem && (n.level == 2 ==> n == ROOT))
    && (forall n :: n in sp.nodes && n.level < 2 ==> Parent(n) in sp.nodes)
    && (forall n, idx: nat :: n in sp.nodes && n.level > 0 && idx < ENTRIES ==>
          (V(Entry(mem, sp, n, idx)) <==> Child(n, idx) in sp.nodes))
    && (forall n, idx: nat :: n in sp.nodes && n.level > 0 && idx < ENTRIES && Child(n, idx) in sp.nodes ==>
          Entry(mem, sp, n, idx) == MakePte(sp.nodes[Child(n, idx)], 0))
    && (forall n, idx: nat :: n in sp.nodes && n.level == 0 && idx < ENTRIES && V(Entry(mem, sp, n, idx)) ==>
          Leaf(Entry(mem, sp, n, idx)))
  }

  /** The entry that translates a virtual page, 0 if there is none. */
  function Pte(mem: Mem, sp: Space, vpn: nat): nat
  {
    var n := TableOf(0, vpn);
    if n in sp.nodes && sp.nodes[n] in mem then Entry(mem, sp, n, Px(0, vpn)) else 0
  }

  // ---------------------------------------------------------------- what the hardware makes of it

  /** The entry at index i of the table in page p points to the next table: valid, and neither readable,
      writable nor executable. */
  predicate Points(mem: Mem, p: nat, i: nat)
    requires i < 512
  {
    p in mem && mem[p][i] % 2 == 1 && mem[p][i] / 2 % 8 == 0
  }

  function Next(mem: Mem, p: nat, i: nat): nat
    requires i < 512 && p in mem
  {
    mem[p][i] / 1024
  }

  /** The entry that translates a virtual page, by its three indices of nine bits each, as section 4.4 of the
      RISC-V Privileged Architecture specification has it for pages of 4096 bytes. 0 where the page is not mapped. */
  function Translated(mem: Mem, root: nat, i2: nat, i1: nat, i0: nat): nat
    requires i2 < 512 && i1 < 512 && i0 < 512
  {
    if !Points(mem, root, i2) then 0
    else if !Points(mem, Next(mem, root, i2), i1) then 0
    else
      var last := Next(mem, Next(mem, root, i2), i1);
      if last !in mem || mem[last][i0] % 2 == 0 then 0 else mem[last][i0]
  }

  /** A page number is its three indices. */
  lemma Indices(i2: nat, i1: nat, i0: nat)
    requires i2 < 512 && i1 < 512 && i0 < 512
    ensures var vpn := (i2 * 512 + i1) * 512 + i0;
            && Px(0, vpn) == i0 && Px(1, vpn) == i1 && Px(2, vpn) == i2
            && TableOf(0, vpn) == Child(Child(ROOT, i2), i1) && TableOf(1, vpn) == Child(ROOT, i2)
  {
    var a := i2 * 512 + i1;
    var vpn := a * 512 + i0;
    assert vpn / 512 == a && vpn % 512 == i0;
    assert a / 512 == i2 && a % 512 == i1;
  }

  /** An inner entry leads to its child in the tree, or nowhere. */
  lemma InnerEntry(mem: Mem, sp: Space, n: Node, i: nat)
    requires TreeOk(mem, sp) && n in sp.nodes && n.level > 0 && i < 512
    ensures Points(mem, sp.nodes[n], i) <==> Child(n, i) in sp.nodes
    ensures Child(n, i) in sp.nodes ==> sp.nodes[n] in mem && Next(mem, sp.nodes[n], i) == sp.nodes[Child(n, i)]
  {
    assert V(Entry(mem, sp, n, i)) <==> Child(n, i) in sp.nodes;
    if Child(n, i) in sp.nodes {
      assert Entry(mem, sp, n, i) == MakePte(sp.nodes[Child(n, i)], 0);
      PteParts(sp.nodes[Child(n, i)], 1);
    }
  }

  /** The hardware finds exactly the entries that the tree gives. */
  lemma HardwareAgrees(mem: Mem, sp: Space, i2: nat, i1: nat, i0: nat)
    requires TreeOk(mem, sp) && i2 < 512 && i1 < 512 && i0 < 512
    ensures var pte := Pte(mem, sp, (i2 * 512 + i1) * 512 + i0);
            Translated(mem, sp.root, i2, i1, i0) == if pte % 2 == 1 then pte else 0
  {
    hide TreeOk, Child, TableOf, Px, Points, Next;
    TreeRoot(mem, sp);
    Indices(i2, i1, i0);
    InnerEntry(mem, sp, ROOT, i2);
    var n1 := Child(ROOT, i2);
    ChildLevel(ROOT, i2);
    if n1 in sp.nodes {
      InnerEntry(mem, sp, n1, i1);
      InTree(mem, sp, n1);
      if Child(n1, i1) in sp.nodes {
        InTree(mem, sp, Child(n1, i1));
      }
    } else if Child(n1, i1) in sp.nodes {
      ParentIn(mem, sp, n1, i1);
    }
  }

  /** Where the last-level entry of a page is, in terms of the words in memory. */
  lemma LastEntry(mem: Mem, sp: Space, vpn: nat)
    requires TreeOk(mem, sp) && vpn < VPN_LIMIT && TableOf(0, vpn) in sp.nodes
    ensures Points(mem, sp.root, vpn / 262144) && Points(mem, Next(mem, sp.root, vpn / 262144), vpn / 512 % 512)
    ensures sp.nodes[TableOf(0, vpn)] == Next(mem, Next(mem, sp.root, vpn / 262144), vpn / 512 % 512)
    ensures Px(0, vpn) == vpn % 512
  {
    hide TreeOk, Child, TableOf, Px, Points, Next;
    var i2, i1, i0 := vpn / 262144, vpn / 512 % 512, vpn % 512;
    Split(vpn);
    TreeRoot(mem, sp);
    Indices(i2, i1, i0);
    InnerEntry(mem, sp, ROOT, i2);
    ChildLevel(ROOT, i2);
    ParentIn(mem, sp, Child(ROOT, i2), i1);
    InnerEntry(mem, sp, Child(ROOT, i2), i1);
  }

  lemma Split(vpn: nat)
    requires vpn < VPN_LIMIT
    ensures vpn / 262144 < 512 && vpn == (vpn / 262144 * 512 + vpn / 512 % 512) * 512 + vpn % 512
  {
    assert vpn / 512 / 512 == vpn / 262144;
  }

  lemma ChildLevel(n: Node, i: nat)
    requires n.level > 0
    ensures Child(n, i).level == n.level - 1
  {
  }

  lemma TreeRoot(mem: Mem, sp: Space)
    requires TreeOk(mem, sp)
    ensures ROOT in sp.nodes && sp.nodes[ROOT] == sp.root && sp.root in mem
  {
  }

  lemma InTree(mem: Mem, sp: Space, n: Node)
    requires TreeOk(mem, sp) && n in sp.nodes
    ensures sp.nodes[n] in mem
  {
  }

  lemma ParentIn(mem: Mem, sp: Space, n: Node, i: nat)
    requires TreeOk(mem, sp) && n.level == 1 && i < 512 && Child(n, i) in sp.nodes
    ensures n in sp.nodes
  {
    ParentOfChild(n, i);
  }

  // ---------------------------------------------------------------- changes

  ghost predicate Tables(sp: Space, p: nat)
  {
    exists n :: n in sp.nodes && sp.nodes[n] == p
  }

  /** Memory outside the tables does not matter. */
  lemma TreeFrame(mem: Mem, mem': Mem, sp: Space)
    requires TreeOk(mem, sp)
    requires forall n :: n in sp.nodes ==> sp.nodes[n] in mem' && mem'[sp.nodes[n]] == mem[sp.nodes[n]]
    ensures TreeOk(mem', sp)
    ensures forall vpn: nat :: Pte(mem', sp, vpn) == Pte(mem, sp, vpn)
  {
    forall n, idx: nat | n in sp.nodes && idx < ENTRIES
      ensures Entry(mem', sp, n, idx) == Entry(mem, sp, n, idx)
    {
    }
  }

  /** A fresh blank page hung into entry idx of table n. */
  function Grown(sp: Space, n: Node, idx: nat, p: nat): Space
    requires n.level > 0
  {
    sp.(nodes := sp.nodes[Child(n, idx) := p])
  }

  function GrownMem(mem: Mem, sp: Space, n: Node, idx: nat, p: nat): Mem
    requires n in sp.nodes && sp.nodes[n] in mem && idx < ENTRIES
  {
    var m1 := mem[p := Blank()];
    m1[sp.nodes[n] := mem[sp.nodes[n]][idx := MakePte(p, 0)]]
  }

  lemma ChildIsInjective(n: Node, i: nat, m: Node, j: nat)
    requires n.level > 0 && m.level > 0 && i < ENTRIES && j < ENTRIES && Child(n, i) == Child(m, j)
    ensures n == m && i == j
  {
  }

  lemma ParentOfChild(n: Node, idx: nat)
    requires n.level > 0 && idx < ENTRIES
    ensures Parent(Child(n, idx)) == n
  {
  }

  lemma GrownEntry(mem: Mem, sp: Space, n: Node, idx: nat, p: nat, m: Node, j: nat)
    requires TreeOk(mem, sp) && n in sp.nodes && n.level > 0 && idx < ENTRIES
    requires Child(n, idx) !in sp.nodes && !Tables(sp, p) && j < ENTRIES && m in Grown(sp, n, idx, p).nodes
    ensures var sp' := Grown(sp, n, idx, p);
            var mem' := GrownMem(mem, sp, n, idx, p);
            && sp'.nodes[m] in mem'
            && Entry(mem', sp', m, j) == (if m == Child(n, idx) then 0
                                          else if m == n && j == idx then MakePte(p, 0)
                                          else Entry(mem, sp, m, j))
  {
    assert n != Child(n, idx);
    assert sp.nodes[n] != p;
    if m != Child(n, idx) {
      assert sp.nodes[m] != p;
    }
  }

  lemma GrownNodes(mem: Mem, sp: Space, n: Node, idx: nat, p: nat)
    requires TreeOk(mem, sp) && n in sp.nodes && n.level > 0 && idx < ENTRIES
    requires Child(n, idx) !in sp.nodes && !Tables(sp, p)
    ensures var sp' := Grown(sp, n, idx, p);
            && ROOT in sp'.nodes && sp'.nodes[ROOT] == sp'.root && Injective(sp'.nodes)
            && (forall m :: m in sp'.nodes ==> m.level <= 2 && (m.level == 2 ==> m == ROOT))
            && (forall m :: m in sp'.nodes && m.level < 2 ==> Parent(m) in sp'.nodes)
  {
    ParentOfChild(n, idx);
  }

  /** All entries after a table was added. */
  lemma GrownEntries(mem: Mem, sp: Space, n: Node, idx: nat, p: nat)
    requires TreeOk(mem, sp) && n in sp.nodes && n.level > 0 && idx < ENTRIES
    requires Child(n, idx) !in sp.nodes && !Tables(sp, p)
    ensures var sp', mem', c := Grown(sp, n, idx, p), GrownMem(mem, sp, n, idx, p), Child(n, idx);
            forall m, j: nat :: m in sp'.nodes && j < ENTRIES ==>
              && sp'.nodes[m] in mem' && (m != c ==> m in sp.nodes && sp.nodes[m] in mem)
              && Entry(mem', sp', m, j) == (if m == c then 0 else if m == n && j == idx then MakePte(p, 0)
                                            else Entry(mem, sp, m, j))
  {
    hide Child, MakePte, Entry;
    var sp', mem', c := Grown(sp, n, idx, p), GrownMem(mem, sp, n, idx, p), Child(n, idx);
    forall m, j: nat | m in sp'.nodes && j < ENTRIES
      ensures sp'.nodes[m] in mem' && (m != c ==> m in sp.nodes && sp.nodes[m] in mem)
      ensures Entry(mem', sp', m, j) == (if m == c then 0 else if m == n && j == idx then MakePte(p, 0)
                                         else Entry(mem, sp, m, j))
    {
      GrownEntry(mem, sp, n, idx, p, m, j);
    }
  }

  /** Which tables are in the tree after one was added. */
  lemma GrownChildren(mem: Mem, sp: Space, n: Node, idx: nat, p: nat, m: Node, j: nat)
    requires TreeOk(mem, sp) && n in sp.nodes && n.level > 0 && idx < ENTRIES && Child(n, idx) !in sp.nodes
    requires m in Grown(sp, n, idx, p).nodes && m.level > 0 && j < ENTRIES
    ensures Child(m, j) in Grown(sp, n, idx, p).nodes <==> (m == n && j == idx) || Child(m, j) in sp.nodes
    ensures m == Child(n, idx) ==> Child(m, j) !in Grown(sp, n, idx, p).nodes
  {
    if Child(m, j) == Child(n, idx) {
      ChildIsInjective(m, j, n, idx);
    }
    ParentOfChild(m, j);
  }

  /** Hanging a blank table into the tree keeps it a tree and changes no translation. */
  lemma GrownTree(mem: Mem, sp: Space, n: Node, idx: nat, p: nat)
    requires TreeOk(mem, sp) && n in sp.nodes && n.level > 0 && idx < ENTRIES
    requires Child(n, idx) !in sp.nodes && !Tables(sp, p)
    ensures TreeOk(GrownMem(mem, sp, n, idx, p), Grown(sp, n, idx, p))
    ensures forall vpn: nat ::
              Pte(GrownMem(mem, sp, n, idx, p), Grown(sp, n, idx, p), vpn) == Pte(mem, sp, vpn)
  {
    GrownTreeOk(mem, sp, n, idx, p);
    GrownPtes(mem, sp, n, idx, p);
  }

  lemma GrownPtes(mem: Mem, sp: Space, n: Node, idx: nat, p: nat)
    requires TreeOk(mem, sp) && n in sp.nodes && n.level > 0 && idx < ENTRIES
    requires Child(n, idx) !in sp.nodes && !Tables(sp, p)
    ensures forall vpn: nat ::
              Pte(GrownMem(mem, sp, n, idx, p), Grown(sp, n, idx, p), vpn) == Pte(mem, sp, vpn)
  {
    hide Entry, MakePte;
    GrownEntries(mem, sp, n, idx, p);
    hide TreeOk, GrownMem;
  }

  lemma ZeroIsNotValid()
    ensures !V(0)
  {
  }

  lemma GrownTreeOk(mem: Mem, sp: Space, n: Node, idx: nat, p: nat)
    requires TreeOk(mem, sp) && n in sp.nodes && n.level > 0 && idx < ENTRIES
    requires Child(n, idx) !in sp.nodes && !Tables(sp, p)
    ensures TreeOk(GrownMem(mem, sp, n, idx, p), Grown(sp, n, idx, p))
  {
    hide GrownMem, Child, Entry, MakePte, V, Leaf, Parent, Ppn, Flags;
    var sp', mem' := Grown(sp, n, idx, p), GrownMem(mem, sp, n, idx, p);
    ZeroIsNotValid();
    GrownNodes(mem, sp, n, idx, p);
    GrownEntries(mem, sp, n, idx, p);
    forall m | m in sp'.nodes
      ensures sp'.nodes[m] in mem'
    {
      assert 0 < ENTRIES;
      GrownEntry(mem, sp, n, idx, p, m, 0);
    }
    forall m, j: nat | m in sp'.nodes && m.level > 0 && j < ENTRIES
      ensures Child(m, j) in sp'.nodes <==> (m == n && j == idx) || Child(m, j) in sp.nodes
      ensures m == Child(n, idx) ==> Child(m, j) !in sp'.nodes
    {
      GrownChildren(mem, sp, n, idx, p, m, j);
    }
  }

  /** The memory after *pte = x for the last-level entry of a virtual page. */
  function LeafSet(mem: Mem, sp: Space, vpn: nat, x: nat): Mem
    requires TableOf(0, vpn) in sp.nodes && sp.nodes[TableOf(0, vpn)] in mem
  {
    var t := sp.nodes[TableOf(0, vpn)];
    mem[t := mem[t][Px(0, vpn) := x]]
  }

  lemma VpnIsPath(a: nat, b: nat)
    requires TableOf(0, a) == TableOf(0, b) && Px(0, a) == Px(0, b)
    ensures a == b
  {
  }

  /** Writing a last-level entry changes that one translation and keeps the tree. */
  lemma LeafSetTree(mem: Mem, sp: Space, vpn: nat, x: nat)
    requires TreeOk(mem, sp) && TableOf(0, vpn) in sp.nodes && (V(x) ==> Leaf(x))
    ensures TreeOk(LeafSet(mem, sp, vpn, x), sp)
    ensures forall v: nat :: Pte(LeafSet(mem, sp, vpn, x), sp, v) == if v == vpn then x else Pte(mem, sp, v)
  {
    var mem' := LeafSet(mem, sp, vpn, x);
    var t := TableOf(0, vpn);
    forall n, idx: nat | n in sp.nodes && idx < ENTRIES
      ensures Entry(mem', sp, n, idx) == if n == t && idx == Px(0, vpn) then x else Entry(mem, sp, n, idx)
    {
    }
    assert TreeOk(mem', sp);
    forall v: nat
      ensures Pte(mem', sp, v) == if v == vpn then x else Pte(mem, sp, v)
    {
      if TableOf(0, v) == t && Px(0, v) == Px(0, vpn) {
        VpnIsPath(v, vpn);
      }
    }
  }

  // ---------------------------------------------------------------- pages taken for tables

  /** The tree stands in managed pages that are not free. */
  ghost predicate SpaceOk(mem: Mem, lo: nat, hi: nat, free: seq<nat>, sp: Space)
  {
    TreeOk(mem, sp) && forall n :: n in sp.nodes ==> lo <= sp.nodes[n] < hi && sp.nodes[n] !in free
  }

  /** Tables were added, each in one of the pages `taken` from the front of the free list;
      every page taken became a table, and no page but tables was written. */
  ghost predicate Took(mem: Mem, free: seq<nat>, sp: Space, taken: seq<nat>, mem': Mem, free': seq<nat>, sp': Space)
  {
    && sp'.root == sp.root && (forall n :: n in sp.nodes ==> n in sp'.nodes && sp'.nodes[n] == sp.nodes[n])
    && free == taken + free' && (forall p :: p in taken ==> Tables(sp', p))
    && (forall n :: n in sp'.nodes && n !in sp.nodes ==> sp'.nodes[n] in taken)
    && mem'.Keys == mem.Keys
    && (forall p :: p in mem && !Tables(sp', p) ==> mem'[p] == mem[p])
  }

  /** Tables were added and no translation changed. */
  ghost predicate Grew(mem: Mem, free: seq<nat>, sp: Space, taken: seq<nat>, mem': Mem, free': seq<nat>, sp': Space)
  {
    Took(mem, free, sp, taken, mem', free', sp') && forall v: nat :: Pte(mem', sp', v) == Pte(mem, sp, v)
  }

  lemma GrewNothing(mem: Mem, free: seq<nat>, sp: Space)
    requires TreeOk(mem, sp)
    ensures Grew(mem, free, sp, [], mem, free, sp)
  {
  }

  lemma TablesGrow(sp: Space, sp': Space, p: nat)
    requires forall n :: n in sp.nodes ==> n in sp'.nodes && sp'.nodes[n] == sp.nodes[n]
    requires Tables(sp, p)
    ensures Tables(sp', p)
  {
    var n :| n in sp.nodes && sp.nodes[n] == p;
    assert n in sp'.nodes && sp'.nodes[n] == p;
  }

  lemma TookTransitive(mem: Mem, free: seq<nat>, sp: Space, t1: seq<nat>, mem1: Mem, free1: seq<nat>, sp1: Space,
                       t2: seq<nat>, mem2: Mem, free2: seq<nat>, sp2: Space)
    requires Took(mem, free, sp, t1, mem1, free1, sp1) && Took(mem1, free1, sp1, t2, mem2, free2, sp2)
    ensures Took(mem, free, sp, t1 + t2, mem2, free2, sp2)
  {
    forall p | p in t1
      ensures Tables(sp2, p)
    {
      TablesGrow(sp1, sp2, p);
    }
    forall p | p in mem && !Tables(sp2, p)
      ensures mem2[p] == mem[p]
    {
      if Tables(sp1, p) {
        TablesGrow(sp1, sp2, p);
      }
    }
  }

  lemma GrewTransitive(mem: Mem, free: seq<nat>, sp: Space, t1: seq<nat>, mem1: Mem, free1: seq<nat>, sp1: Space,
                       t2: seq<nat>, mem2: Mem, free2: seq<nat>, sp2: Space)
    requires TreeOk(mem, sp) && TreeOk(mem1, sp1) && TreeOk(mem2, sp2)
    requires Grew(mem, free, sp, t1, mem1, free1, sp1) && Grew(mem1, free1, sp1, t2, mem2, free2, sp2)
    ensures Grew(mem, free, sp, t1 + t2, mem2, free2, sp2)
  {
    hide TreeOk, Pte, Took;
    TookTransitive(mem, free, sp, t1, mem1, free1, sp1, t2, mem2, free2, sp2);
  }

  /** Writing a last-level entry takes no page. */
  lemma LeafSetTook(mem: Mem, lo: nat, hi: nat, free: seq<nat>, sp: Space, vpn: nat, x: nat)
    requires SpaceOk(mem, lo, hi, free, sp) && TableOf(0, vpn) in sp.nodes && (V(x) ==> Leaf(x))
    ensures sp.nodes[TableOf(0, vpn)] in mem
    ensures SpaceOk(LeafSet(mem, sp, vpn, x), lo, hi, free, sp)
    ensures Took(mem, free, sp, [], LeafSet(mem, sp, vpn, x), free, sp)
    ensures forall v: nat :: Pte(LeafSet(mem, sp, vpn, x), sp, v) == if v == vpn then x else Pte(mem, sp, v)
  {
    hide TreeOk, Pte;
    TablePages(mem, sp, TableOf(0, vpn));
    LeafSetTree(mem, sp, vpn, x);
    assert Tables(sp, sp.nodes[TableOf(0, vpn)]);
  }

  lemma TablePages(mem: Mem, sp: Space, n: Node)
    requires TreeOk(mem, sp) && n in sp.nodes
    ensures sp.nodes[n] in mem
  {
  }

  lemma GrownPages(mem: Mem, sp: Space, n: Node, idx: nat, p: nat, q: nat)
    requires n in sp.nodes && sp.nodes[n] in mem && n.level > 0 && idx < ENTRIES && p in mem && q in mem
    requires Child(n, idx) !in sp.nodes && !Tables(Grown(sp, n, idx, p), q)
    ensures GrownMem(mem, sp, n, idx, p)[q] == mem[q]
  {
    var sp' := Grown(sp, n, idx, p);
    assert sp'.nodes[Child(n, idx)] == p && n in sp'.nodes && sp'.nodes[n] == sp.nodes[n];
  }

  /** One new table. */
  lemma GrewOne(mem: Mem, lo: nat, hi: nat, free: seq<nat>, sp: Space, n: Node, idx: nat, p: nat, free': seq<nat>)
    requires SpaceOk(mem, lo, hi, free, sp) && n in sp.nodes && n.level > 0 && idx < ENTRIES
    requires Child(n, idx) !in sp.nodes && free == [p] + free' && lo <= p < hi && p in mem && p !in free'
    ensures var mem', sp' := GrownMem(mem, sp, n, idx, p), Grown(sp, n, idx, p);
            && SpaceOk(mem', lo, hi, free', sp') && Grew(mem, free, sp, [p], mem', free', sp')
  {
    hide TreeOk, Pte, Took, GrownMem, Grown, Child;
    TablePages(mem, sp, n);
    assert p in free;
    assert !Tables(sp, p);
    GrownTree(mem, sp, n, idx, p);
    GrownTook(mem, free, sp, n, idx, p, free');
    GrownRange(sp, lo, hi, free', n, idx, p);
  }

  lemma GrownRange(sp: Space, lo: nat, hi: nat, free': seq<nat>, n: Node, idx: nat, p: nat)
    requires n in sp.nodes && n.level > 0 && idx < ENTRIES && lo <= p < hi && p !in free'
    requires forall m :: m in sp.nodes ==> lo <= sp.nodes[m] < hi && sp.nodes[m] !in free'
    ensures forall m :: m in Grown(sp, n, idx, p).nodes ==>
              lo <= Grown(sp, n, idx, p).nodes[m] < hi && Grown(sp, n, idx, p).nodes[m] !in free'
  {
    hide Child;
  }

  lemma GrownTook(mem: Mem, free: seq<nat>, sp: Space, n: Node, idx: nat, p: nat, free': seq<nat>)
    requires n in sp.nodes && sp.nodes[n] in mem && n.level > 0 && idx < ENTRIES && p in mem
    requires Child(n, idx) !in sp.nodes && free == [p] + free'
    ensures Took(mem, free, sp, [p], GrownMem(mem, sp, n, idx, p), free', Grown(sp, n, idx, p))
  {
    hide Child, MakePte, GrownMem;
    var mem', sp' := GrownMem(mem, sp, n, idx, p), Grown(sp, n, idx, p);
    assert sp'.nodes[Child(n, idx)] == p;
    GrownKeys(mem, sp, n, idx, p);
    forall q | q in mem && !Tables(sp', q)
      ensures mem'[q] == mem[q]
    {
      GrownPages(mem, sp, n, idx, p, q);
    }
  }

  lemma GrownKeys(mem: Mem, sp: Space, n: Node, idx: nat, p: nat)
    requires n in sp.nodes && sp.nodes[n] in mem && idx < ENTRIES && p in mem
    ensures GrownMem(mem, sp, n, idx, p).Keys == mem.Keys
  {
    hide MakePte;
  }

  // ---------------------------------------------------------------- user frames

  /** Which frame stands behind each user page. */
  type Frames = map<nat, nat>

  ghost predicate FrameOk(mem: Mem, lo: nat, hi: nat, free: seq<nat>, sp: Space, v: nat, p: nat)
  {
    && v < VPN_LIMIT && V(Pte(mem, sp, v)) && Ppn(Pte(mem, sp, v)) == p
    && lo <= p < hi && p !in free && !Tables(sp, p) && p in mem
  }

  /** The user frames are mapped, each once, and are neither free nor tables. */
  ghost predicate UserOk(mem: Mem, lo: nat, hi: nat, free: seq<nat>, sp: Space, frames: Frames)
  {
    && SpaceOk(mem, lo, hi, free, sp)
    && (forall v :: v in frames ==> FrameOk(mem, lo, hi, free, sp, v, frames[v]))
    && (forall v, w :: v in frames && w in frames && v != w ==> frames[v] != frames[w])
  }

  /** The frames of k pages from `first` on, last first. */
  function FramesOf(frames: Frames, first: nat, k: nat): seq<nat>
    requires forall v :: first <= v < first + k ==> v in frames
  {
    if k == 0 then [] else [frames[first + k - 1]] + FramesOf(frames, first, k - 1)
  }

  function Keep(frames: Frames, first: nat, k: nat): Frames
  {
    map v | v in frames && !(first <= v < first + k) :: frames[v]
  }

  /** The entry of a user page cleared, and its frame given back when doFree. */
  lemma UserUnmapped(mem: Mem, lo: nat, hi: nat, free: seq<nat>, sp: Space, frames: Frames, vpn: nat, mem1: Mem,
                     free1: seq<nat>, mem2: Mem)
    requires UserOk(mem, lo, hi, free, sp, frames) && TableOf(0, vpn) in sp.nodes
    requires || (free1 == free && mem1 == mem && vpn !in frames)
             || (vpn in frames && free1 == [frames[vpn]] + free && mem1.Keys == mem.Keys
                 && mem1 == mem[frames[vpn] := mem1[frames[vpn]]])
    requires sp.nodes[TableOf(0, vpn)] in mem1 && mem2 == LeafSet(mem1, sp, vpn, 0)
    ensures UserOk(mem2, lo, hi, free1, sp, frames - {vpn})
    ensures forall v: nat :: Pte(mem2, sp, v) == if v == vpn then 0 else Pte(mem, sp, v)
    ensures forall p :: p in mem && !Tables(sp, p) && !(vpn in frames && p == frames[vpn]) ==>
              p in mem2 && mem2[p] == mem[p]
  {
    hide TreeOk, Pte;
    assert forall n :: n in sp.nodes ==> Tables(sp, sp.nodes[n]);
    forall n | n in sp.nodes
      ensures sp.nodes[n] in mem1 && mem1[sp.nodes[n]] == mem[sp.nodes[n]]
    {
      TablePages(mem, sp, n);
      if vpn in frames {
        assert FrameOk(mem, lo, hi, free, sp, vpn, frames[vpn]);
      }
    }
    TreeFrame(mem, mem1, sp);
    LeafSetTook(mem1, lo, hi, free1, sp, vpn, 0);
    forall v | v in frames - {vpn}
      ensures FrameOk(mem2, lo, hi, free1, sp, v, frames[v])
    {
      assert FrameOk(mem, lo, hi, free, sp, v, frames[v]);
    }
  }

  /** A page taken off the free list, and whatever is written to it, is no concern of the space. */
  lemma UserAllocated(mem: Mem, lo: nat, hi: nat, free: seq<nat>, sp: Space, frames: Frames, p: nat, x: Page,
                      free': seq<nat>)
    requires UserOk(mem, lo, hi, free, sp, frames) && p in free && forall q :: q in free' ==> q in free
    ensures UserOk(mem[p := x], lo, hi, free', sp, frames) && !Tables(sp, p) && forall v :: v in frames ==>
              frames[v] != p
    ensures forall v: nat :: Pte(mem[p := x], sp, v) == Pte(mem, sp, v)
  {
    hide TreeOk, Pte;
    forall n | n in sp.nodes
      ensures sp.nodes[n] in mem && sp.nodes[n] != p
    {
      TablePages(mem, sp, n);
    }
    TreeFrame(mem, mem[p := x], sp);
    forall v | v in frames
      ensures FrameOk(mem[p := x], lo, hi, free', sp, v, frames[v]) && frames[v] != p
    {
      assert FrameOk(mem, lo, hi, free, sp, v, frames[v]);
    }
  }

  lemma NotANewTable(mem: Mem, free: seq<nat>, sp: Space, taken: seq<nat>, mem': Mem, free': seq<nat>, sp': Space,
                     p: nat)
    requires Took(mem, free, sp, taken, mem', free', sp') && p !in free && !Tables(sp, p)
    ensures !Tables(sp', p)
  {
  }

  /** New tables do not disturb the user frames. */
  lemma UserGrew(mem: Mem, lo: nat, hi: nat, free: seq<nat>, sp: Space, frames: Frames, taken: seq<nat>, mem': Mem,
                 free': seq<nat>, sp': Space)
    requires UserOk(mem, lo, hi, free, sp, frames) && SpaceOk(mem', lo, hi, free', sp')
    requires Took(mem, free, sp, taken, mem', free', sp')
    requires forall v :: v in frames ==> Pte(mem', sp', v) == Pte(mem, sp, v)
    ensures UserOk(mem', lo, hi, free', sp', frames)
    ensures forall v :: v in frames ==> mem'[frames[v]] == mem[frames[v]]
  {
    hide TreeOk, Pte;
    forall v | v in frames
      ensures FrameOk(mem', lo, hi, free', sp', v, frames[v]) && mem'[frames[v]] == mem[frames[v]]
    {
      assert FrameOk(mem, lo, hi, free, sp, v, frames[v]);
      NotANewTable(mem, free, sp, taken, mem', free', sp', frames[v]);
    }
  }

  /** A page of our own, just mapped, joins the user frames. */
  lemma UserJoined(mem: Mem, lo: nat, hi: nat, free: seq<nat>, sp: Space, frames: Frames, vpn: nat, p: nat)
    requires UserOk(mem, lo, hi, free, sp, frames) && FrameOk(mem, lo, hi, free, sp, vpn, p)
    requires forall v :: v in frames ==> v != vpn && frames[v] != p
    ensures UserOk(mem, lo, hi, free, sp, frames[vpn := p])
  {
    hide TreeOk, Pte;
  }
}
