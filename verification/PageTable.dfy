/** Sv39 page tables as values (section 4.4 of the RISC-V Privileged Architecture): page-table
    entries, the three-level tree of table pages, and the flat map it stands for. */
module PageTable {

  const PGSIZE := 4096
  const ENTRIES := 512
  /** Pages of virtual memory below MAXVA = 2^38. */
  const MAXPAGES := 0x400_0000
  /** Pages a three-level table can name. */
  const SPACE := 0x800_0000
  const TRAMPOLINE := MAXPAGES - 1
  const TRAPFRAME := MAXPAGES - 2

  // Addresses. A page number v stands for the addresses v * PGSIZE .. (v + 1) * PGSIZE - 1.

  function PgRoundUp(sz: nat): (r: nat)
    ensures r % PGSIZE == 0 && sz <= r < sz + PGSIZE
  {
    (sz + PGSIZE - 1) / PGSIZE * PGSIZE
  }

  /** Pages needed for sz bytes. */
  function PagesOf(sz: nat): (n: nat)
    ensures n * PGSIZE == PgRoundUp(sz)
  {
    (sz + PGSIZE - 1) / PGSIZE
  }

  function Weight(level: nat): (w: nat)
    requires level < 3
    ensures w > 0
  {
    if level == 0 then 1 else if level == 1 then 512 else 262144
  }

  /** The 9-bit index of page v at a level. */
  function Index(level: nat, v: nat): (i: nat)
    requires level < 3
    ensures i < ENTRIES
  {
    v / Weight(level) % ENTRIES
  }

  /** PX(level, va), shifts written as divisions. */
  function Px(level: nat, va: nat): (i: nat)
    requires level < 3
    ensures i < ENTRIES
  {
    va / (PGSIZE * Weight(level)) % ENTRIES
  }

  lemma PxIsIndex(level: nat, va: nat)
    requires level < 3
    ensures Px(level, va) == Index(level, va / PGSIZE)
  {
    var w := Weight(level);
    var q, r := va / PGSIZE, va % PGSIZE;
    var a, b := q / w, q % w;
    assert va == PGSIZE * (w * a + b) + r && b <= w - 1;
    assert va == (PGSIZE * w) * a + (PGSIZE * b + r) && PGSIZE * b + r < PGSIZE * w;
  }

  lemma FromIndices(v: nat)
    requires v < SPACE
    ensures v == 262144 * Index(2, v) + 512 * Index(1, v) + Index(0, v)
  {
    var h := v / 512;
    assert v == 512 * h + v % 512;
    assert v / 262144 == h / 512 && h / 512 < 512;
  }

  /** The three indices determine the page. */
  lemma IndicesDiffer(v: nat, w: nat)
    requires v < SPACE && w < SPACE && v != w
    ensures Index(2, v) != Index(2, w) || Index(1, v) != Index(1, w) || Index(0, v) != Index(0, w)
  {
    hide Index;
    FromIndices(v);
    FromIndices(w);
  }

  lemma ToIndices(i2: nat, i1: nat, i0: nat)
    requires i2 < ENTRIES && i1 < ENTRIES && i0 < ENTRIES
    ensures var v := 262144 * i2 + 512 * i1 + i0;
      v < SPACE && Index(2, v) == i2 && Index(1, v) == i1 && Index(0, v) == i0
  {
  }

  // Entries

  datatype Perm = Perm(r: bool, w: bool, x: bool, u: bool)

  /** An entry is not valid, links to a lower table (no R, W or X), or maps a page. */
  datatype Pte = Invalid | Link(ppn: nat) | Leaf(ppn: nat, perm: Perm)

  predicate Proper(e: Pte) {
    e.Leaf? ==> e.perm.r || e.perm.w || e.perm.x
  }

  function Bit(b: bool): (n: nat) { if b then 1 else 0 }

  /** PTE_R | PTE_W | PTE_X | PTE_U of a permission. */
  function PermBits(p: Perm): (n: nat)
    ensures n < 32
  {
    2 * Bit(p.r) + 4 * Bit(p.w) + 8 * Bit(p.x) + 16 * Bit(p.u)
  }

  /** The 64-bit word of an entry. */
  function Word(e: Pte): (n: nat) {
    match e
    case Invalid => 0
    case Link(ppn) => ppn * 1024 + 1
    case Leaf(ppn, perm) => ppn * 1024 + PermBits(perm) + 1
  }

  function Pte2Pa(word: nat): (pa: nat) { word / 1024 * PGSIZE }

  function PteFlags(word: nat): (f: nat) { word % 1024 }

  function FlagSet(word: nat, flag: nat): (b: bool)
    requires flag > 0
  {
    word / flag % 2 == 1
  }

  /** Reading an entry the way the kernel's macros do. */
  function Read(word: nat): (e: Pte) {
    var f := PteFlags(word);
    if !FlagSet(f, 1) then Invalid
    else if !FlagSet(f, 2) && !FlagSet(f, 4) && !FlagSet(f, 8) then Link(Pte2Pa(word) / PGSIZE)
    else Leaf(Pte2Pa(word) / PGSIZE, Perm(FlagSet(f, 2), FlagSet(f, 4), FlagSet(f, 8), FlagSet(f, 16)))
  }

  lemma Split1024(ppn: nat, n: nat)
    requires n < 1024
    ensures (ppn * 1024 + n) / 1024 == ppn && (ppn * 1024 + n) % 1024 == n
  {
  }

  lemma FlagsRead(p: Perm)
    ensures var f := PermBits(p) + 1;
      && FlagSet(f, 1) && FlagSet(f, 2) == p.r && FlagSet(f, 4) == p.w && FlagSet(f, 8) == p.x && FlagSet(f, 16) == p.u
      && (f == 1 <==> !p.r && !p.w && !p.x && !p.u)
  {
  }

  lemma WholePages(ppn: nat)
    ensures ppn * PGSIZE / PGSIZE == ppn
  {
  }

  /** What the macros write they read back; and "not a leaf" is the word test PTE_FLAGS == PTE_V. */
  lemma WordRoundTrip(e: Pte)
    requires Proper(e)
    ensures Read(Word(e)) == e
    ensures e.Link? <==> PteFlags(Word(e)) == 1
    ensures !e.Invalid? ==> Pte2Pa(Word(e)) == e.ppn * PGSIZE
  {
    if !e.Invalid? {
      var p := if e.Leaf? then e.perm else Perm(false, false, false, false);
      FlagsRead(p);
      Split1024(e.ppn, PermBits(p) + 1);
      WholePages(e.ppn);
      assert Word(e) == e.ppn * 1024 + (PermBits(p) + 1);
      hide PermBits, FlagSet;
    }
  }

  // The tree

  type Tables = map<nat, seq<Pte>>

  /** Where a table page hangs: its level, its root, and the entry that links to it. */
  datatype Node = Node(level: nat, root: nat, parent: nat, index: nat)

  type Nodes = map<nat, Node>

  function Entry(t: Tables, q: nat, i: nat): (e: Pte) {
    if q in t && i < |t[q]| then t[q][i] else Invalid
  }

  /** The level-0 table that walk reaches. */
  function LowTable(t: Tables, root: nat, v: nat): (q: Pte)
    ensures !q.Leaf?
  {
    var e2 := Entry(t, root, Index(2, v));
    if !e2.Link? then Invalid
    else
      var e1 := Entry(t, e2.ppn, Index(1, v));
      if e1.Link? then e1 else Invalid
  }

  /** The flat map. */
  function Lookup(t: Tables, root: nat, v: nat): (e: Pte) {
    var low := LowTable(t, root, v);
    if low.Link? then Entry(t, low.ppn, Index(0, v)) else Invalid
  }

  ghost predicate NodeOk(t: Tables, n: Nodes, q: nat)
    requires q in t && q in n
  {
    var k := n[q];
    && |t[q]| == ENTRIES
    && k.level < 3
    && (k.level == 2 ==> k.root == q)
    && (k.level < 2 ==> k.parent in n && k.parent in t && n[k.parent].level == k.level + 1 && n[k.parent].root == k.root
                        && k.index < ENTRIES && Entry(t, k.parent, k.index) == Link(q))
  }

  ghost predicate EntryOk(t: Tables, n: Nodes, q: nat, i: nat)
    requires q in t && q in n
  {
    var e := Entry(t, q, i);
    && (e.Link? ==> n[q].level > 0 && e.ppn in n && n[e.ppn] == Node(n[q].level - 1, n[q].root, q, i))
    && (e.Leaf? ==> n[q].level == 0)
  }

  ghost predicate WfTree(t: Tables, n: Nodes) {
    && t.Keys == n.Keys
    && (forall q :: q in t ==> NodeOk(t, n, q))
    && (forall q, i :: q in t ==> EntryOk(t, n, q, i))
  }

  ghost predicate IsRoot(n: Nodes, r: nat) {
    r in n && n[r].level == 2
  }

  function EmptyTable(): (s: seq<Pte>)
    ensures |s| == ENTRIES && forall i :: 0 <= i < ENTRIES ==> s[i] == Invalid
  {
    seq(ENTRIES, _ => Invalid)
  }

  function Put(t: Tables, q: nat, i: nat, e: Pte): (t': Tables)
    requires q in t && i < |t[q]|
  {
    t[q := t[q][i := e]]
  }

  lemma PutEntry(t: Tables, q: nat, i: nat, e: Pte)
    requires q in t && i < |t[q]|
    ensures forall p, j :: Entry(Put(t, q, i, e), p, j) == if p == q && j == i then e else Entry(t, p, j)
  {
  }

  // Adding a root, a table, a mapping

  /** The same translations, for every root of n. */
  ghost predicate SameMaps(t: Tables, t': Tables, n: Nodes) {
    forall r, v: nat :: IsRoot(n, r) && v < SPACE ==> Lookup(t', r, v) == Lookup(t, r, v)
  }

  lemma NewTableEntry(t: Tables, q: nat)
    ensures forall p, j :: Entry(t[q := EmptyTable()], p, j) == if p == q then Invalid else Entry(t, p, j)
  {
  }

  /** Table q, zeroed, is added as a root. */
  ghost predicate Rooted(t: Tables, n: Nodes, q: nat, t': Tables, n': Nodes) {
    WfTree(t, n) && q !in t && t' == t[q := EmptyTable()] && n' == n[q := Node(2, q, q, 0)]
  }

  lemma RootedTree(t: Tables, n: Nodes, q: nat, t': Tables, n': Nodes)
    requires Rooted(t, n, q, t', n')
    ensures WfTree(t', n')
  {
    NewTableEntry(t, q);
    forall p | p in t' ensures NodeOk(t', n', p) {
      if p != q { assert NodeOk(t, n, p); }
    }
    forall p, i | p in t' ensures EntryOk(t', n', p, i) {
      if p != q { assert EntryOk(t, n, p, i); }
    }
  }

  lemma RootedMaps(t: Tables, n: Nodes, q: nat, t': Tables, n': Nodes, r: nat, v: nat)
    requires Rooted(t, n, q, t', n') && IsRoot(n, r)
    ensures Lookup(t', r, v) == Lookup(t, r, v)
  {
    NewTableEntry(t, q);
    WalkStays(t, n, r, v);
    hide Index, WfTree;
  }

  lemma RootedEmpty(t: Tables, q: nat, v: nat)
    ensures Lookup(t[q := EmptyTable()], q, v) == Invalid
  {
    NewTableEntry(t, q);
  }

  lemma NewRoot(t: Tables, n: Nodes, q: nat, t': Tables, n': Nodes)
    requires Rooted(t, n, q, t', n')
    ensures WfTree(t', n') && SameMaps(t, t', n)
    ensures forall v: nat :: Lookup(t', q, v) == Invalid
  {
    RootedTree(t, n, q, t', n');
    hide WfTree, Lookup;
    forall r, v: nat | IsRoot(n, r) ensures Lookup(t', r, v) == Lookup(t, r, v) { RootedMaps(t, n, q, t', n', r, v); }
    forall v: nat ensures Lookup(t', q, v) == Invalid { RootedEmpty(t, q, v); }
  }

  /** The tables on the way to v are tables of the tree. */
  lemma WalkStays(t: Tables, n: Nodes, r: nat, v: nat)
    requires WfTree(t, n) && IsRoot(n, r)
    ensures var e2 := Entry(t, r, Index(2, v));
      && !e2.Leaf? && (e2.Link? ==> e2.ppn in t && n[e2.ppn] == Node(1, r, r, Index(2, v)))
      && (e2.Link? ==> var e1 := Entry(t, e2.ppn, Index(1, v));
            !e1.Leaf? && (e1.Link? ==> e1.ppn in t && n[e1.ppn] == Node(0, r, e2.ppn, Index(1, v))))
  {
    hide Index;
    assert NodeOk(t, n, r) && EntryOk(t, n, r, Index(2, v));
    var e2 := Entry(t, r, Index(2, v));
    if e2.Link? { assert EntryOk(t, n, e2.ppn, Index(1, v)); }
  }

  /** Table c, zeroed, is linked in as entry i of table q. */
  ghost predicate Linked(t: Tables, n: Nodes, q: nat, i: nat, c: nat, t': Tables, n': Nodes) {
    && WfTree(t, n) && q in t && n[q].level > 0 && i < ENTRIES && t[q][i] == Invalid && c !in t
    && t' == Put(t, q, i, Link(c))[c := EmptyTable()] && n' == n[c := Node(n[q].level - 1, n[q].root, q, i)]
  }

  lemma LinkedEntries(t: Tables, n: Nodes, q: nat, i: nat, c: nat, t': Tables, n': Nodes)
    requires Linked(t, n, q, i, c, t', n')
    ensures forall p, j :: Entry(t', p, j) == if p == c then Invalid
                                                else if p == q && j == i then Link(c) else Entry(t, p, j)
    ensures t'.Keys == t.Keys + {c} && n'.Keys == n.Keys + {c} && n[q].level < 3 && c !in n &&
            forall p :: p in t' ==> |t'[p]| == ENTRIES
  {
    PutEntry(t, q, i, Link(c));
    NewTableEntry(Put(t, q, i, Link(c)), c);
    hide Index;
    assert NodeOk(t, n, q);
    forall p | p in t' ensures |t'[p]| == ENTRIES {
      if p != c { assert NodeOk(t, n, p); }
    }
  }

  lemma LinkedNode(t: Tables, n: Nodes, q: nat, i: nat, c: nat, t': Tables, n': Nodes, p: nat)
    requires Linked(t, n, q, i, c, t', n') && p in t'
    ensures NodeOk(t', n', p)
  {
    LinkedEntries(t, n, q, i, c, t', n');
    hide Put;
    if p != c { assert NodeOk(t, n, p); } else { assert NodeOk(t, n, q); }
  }

  lemma LinkedEntry(t: Tables, n: Nodes, q: nat, i: nat, c: nat, t': Tables, n': Nodes, p: nat, j: nat)
    requires Linked(t, n, q, i, c, t', n') && p in t'
    ensures EntryOk(t', n', p, j)
  {
    LinkedEntries(t, n, q, i, c, t', n');
    hide Put;
    if p != c { assert EntryOk(t, n, p, j); }
  }

  lemma LinkedMaps(t: Tables, n: Nodes, q: nat, i: nat, c: nat, t': Tables, n': Nodes, r: nat, v: nat)
    requires Linked(t, n, q, i, c, t', n') && IsRoot(n, r)
    ensures Lookup(t', r, v) == Lookup(t, r, v)
  {
    LinkedEntries(t, n, q, i, c, t', n');
    hide Put, Index;
    WalkStays(t, n, r, v);
  }

  /** The allocating branch of walk: linking a zeroed page in changes no translation. */
  lemma NewTable(t: Tables, n: Nodes, q: nat, i: nat, c: nat, t': Tables, n': Nodes)
    requires Linked(t, n, q, i, c, t', n')
    ensures WfTree(t', n') && SameMaps(t, t', n) && forall r :: IsRoot(n', r) <==> IsRoot(n, r)
    ensures forall p, j :: Entry(t', p, j) == if p == c then Invalid
                                                else if p == q && j == i then Link(c) else Entry(t, p, j)
  {
    hide Index, Put, NodeOk, EntryOk, Entry, Lookup;
    LinkedEntries(t, n, q, i, c, t', n');
    forall p | p in t' ensures NodeOk(t', n', p) { LinkedNode(t, n, q, i, c, t', n', p); }
    forall p, j | p in t' ensures EntryOk(t', n', p, j) { LinkedEntry(t, n, q, i, c, t', n', p, j); }
    forall r, v: nat | IsRoot(n, r) ensures Lookup(t', r, v) ==
        Lookup(t, r, v) { LinkedMaps(t, n, q, i, c, t', n', r, v); }
  }

  /** Two pages of two address spaces never share an entry. */
  lemma EntriesApart(t: Tables, n: Nodes, r: nat, v: nat, r': nat, v': nat)
    requires WfTree(t, n) && IsRoot(n, r) && IsRoot(n, r') && v < SPACE && v' < SPACE && (r != r' || v != v')
    requires LowTable(t, r, v).Link? && LowTable(t, r, v) == LowTable(t, r', v')
    ensures Index(0, v) != Index(0, v')
  {
    WalkStays(t, n, r, v);
    WalkStays(t, n, r', v');
    if v != v' { IndicesDiffer(v, v'); }
  }

  /** Writing one level-0 entry changes the translation of one page only. */
  lemma SetLeaf(t: Tables, n: Nodes, r: nat, v: nat, e: Pte, t': Tables)
    requires WfTree(t, n) && IsRoot(n, r) && v < SPACE && !e.Link?
    requires var low := LowTable(t, r, v);
      low.Link? && low.ppn in t && Index(0, v) < |t[low.ppn]| && t' == Put(t, low.ppn, Index(0, v), e)
    ensures WfTree(t', n)
    ensures Lookup(t', r, v) == e
    ensures forall r', v': nat :: IsRoot(n, r') && v' < SPACE && (r' != r || v' != v) ==>
                                    Lookup(t', r', v') == Lookup(t, r', v')
    ensures forall r', v': nat :: IsRoot(n, r') ==> LowTable(t', r', v') == LowTable(t, r', v')
  {
    var q, i := LowTable(t, r, v).ppn, Index(0, v);
    PutEntry(t, q, i, e);
    WalkStays(t, n, r, v);
    hide Index;
    forall p | p in t' ensures NodeOk(t', n, p) { assert NodeOk(t, n, p); }
    forall p, j | p in t' ensures EntryOk(t', n, p, j) { assert EntryOk(t, n, p, j); }
    forall r', v': nat | IsRoot(n, r') ensures LowTable(t', r', v') == LowTable(t, r', v') {
      WalkStays(t, n, r', v');
    }
    forall r', v': nat | IsRoot(n, r') && v' < SPACE && (r' != r || v' != v)
      ensures Lookup(t', r', v') == Lookup(t, r', v') {
      if LowTable(t, r', v') == LowTable(t, r, v) { EntriesApart(t, n, r, v, r', v'); }
    }
  }

  // Removing a tree

  /** c is q or hangs below it. */
  ghost predicate Below(n: Nodes, c: nat, q: nat)
    decreases if c in n && n[c].level < 3 then 3 - n[c].level else 0
  {
    && c in n && n[c].level < 3
    && (c == q || (n[c].level < 2 && n[c].parent in n && n[n[c].parent].level == n[c].level + 1 &&
                   Below(n, n[c].parent, q)))
  }

  lemma {:induction false} BelowRoot(t: Tables, n: Nodes, c: nat, r: nat)
    requires WfTree(t, n) && IsRoot(n, r) && c in n
    ensures Below(n, c, r) <==> n[c].root == r
    decreases if n[c].level < 3 then 3 - n[c].level else 0
  {
    assert NodeOk(t, n, c) && NodeOk(t, n, r);
    if n[c].level < 2 { BelowRoot(t, n, n[c].parent, r); }
  }

  /** Dropping every table of one root leaves the other trees whole. */
  lemma DropRoot(t: Tables, n: Nodes, r: nat, t': Tables, n': Nodes)
    requires WfTree(t, n) && IsRoot(n, r)
    requires forall c :: c in t' <==> c in t && n[c].root != r
    requires forall c :: c in t' ==> t'[c] == t[c]
    requires forall c :: c in n' <==> c in n && n[c].root != r
    requires forall c :: c in n' ==> n'[c] == n[c]
    ensures WfTree(t', n') && SameMaps(t, t', n')
  {
    hide Index;
    forall q | q in t' ensures NodeOk(t', n', q) { assert NodeOk(t, n, q); }
    forall q, i | q in t' ensures EntryOk(t', n', q, i) { assert EntryOk(t, n, q, i); }
    forall s, v: nat | IsRoot(n', s) ensures Lookup(t', s, v) == Lookup(t, s, v) {
      assert NodeOk(t, n, s);
      WalkStays(t, n, s, v);
    }
  }

  /** A tree whose flat map has no leaf holds no leaf. */
  lemma NoLeafBelow(t: Tables, n: Nodes, r: nat, c: nat, i: nat)
    requires WfTree(t, n) && IsRoot(n, r) && c in n && n[c].root == r
    requires forall v: nat :: v < SPACE ==> !Lookup(t, r, v).Leaf?
    ensures !Entry(t, c, i).Leaf?
  {
    assert EntryOk(t, n, c, i) && NodeOk(t, n, c);
    if n[c].level == 0 && i < ENTRIES {
      var m := n[c].parent;
      assert NodeOk(t, n, m) && NodeOk(t, n, n[m].parent);
      ToIndices(n[m].index, n[c].index, i);
      var v := 262144 * n[m].index + 512 * n[c].index + i;
      hide Index;
      assert LowTable(t, r, v) == Link(c);
      assert Lookup(t, r, v) == Entry(t, c, i);
    }
  }

  /** Which entry of q leads to c. */
  ghost function Branch(n: Nodes, c: nat, q: nat): (i: nat)
    requires Below(n, c, q) && c != q
    decreases 3 - n[c].level
  {
    if n[c].parent == q then n[c].index else Branch(n, n[c].parent, q)
  }

  /** What hangs below the table at entry i of q is what hangs below q through entry i. */
  lemma {:induction false} BranchOf(t: Tables, n: Nodes, c: nat, q: nat, i: nat)
    requires WfTree(t, n) && q in t && Entry(t, q, i).Link? && c in n
    ensures Below(n, c, Entry(t, q, i).ppn) <==> Below(n, c, q) && c != q && Branch(n, c, q) == i
    decreases if n[c].level < 3 then 3 - n[c].level else 0
  {
    var k := Entry(t, q, i).ppn;
    assert EntryOk(t, n, q, i) && NodeOk(t, n, c) && NodeOk(t, n, q);
    if n[c].level < 2 { BranchOf(t, n, n[c].parent, q, i); }
  }
}
