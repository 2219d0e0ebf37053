/** The address spaces of all processes (the memory side of proc.c): allocproc, fork, sbrk and
    freeproc over the page tables and pages of Vm. */
module AddressSpaces {
  import opened Collections
  import opened PageTable
  import opened Vm

  const TWO32 := 0x1_0000_0000
  const CODE := Perm(true, false, true, false)
  const FRAME := Perm(true, true, false, false)

  /** A slot of proc[]: pagetable, sz and trapframe. */
  datatype Slot = Empty | Space(root: nat, sz: nat, frame: nat)

  /** What page w of an address space must be. */
  ghost predicate PageFits(e: Pte, d: Data, sz: nat, frame: nat, trampoline: nat, w: nat) {
    if w < PagesOf(sz) then e.Leaf? && e.perm == USER && e.ppn in d
    else if w == TRAMPOLINE then e == Leaf(trampoline, CODE)
    else if w == TRAPFRAME then e == Leaf(frame, FRAME)
    else e == Invalid
  }

  /** The address space maps exactly its user pages, the trapframe and the trampoline. */
  ghost predicate Fits(t: Tables, n: Nodes, d: Data, s: Slot, trampoline: nat)
    requires s.Space?
  {
    && IsRoot(n, s.root) && s.sz < TWO32 && s.frame in d
    && forall w: nat :: w < SPACE ==> PageFits(Lookup(t, s.root, w), d, s.sz, s.frame, trampoline, w)
  }

  ghost predicate RootTaken(procs: seq<Slot>, r: nat) {
    exists i :: 0 <= i < |procs| && procs[i].Space? && procs[i].root == r
  }

  /** Page tables and processes match one to one, and no data page is without a use. */
  ghost predicate Settled(n: Nodes, u: Uses, procs: seq<Slot>) {
    && (forall r :: IsRoot(n, r) ==> RootTaken(procs, r))
    && (forall i, j :: 0 <= i < j < |procs| && procs[i].Space? && procs[j].Space? ==> procs[i].root != procs[j].root)
    && (forall q :: q in u ==> u[q].At?)
  }

  ghost predicate AllFit(t: Tables, n: Nodes, d: Data, procs: seq<Slot>, trampoline: nat) {
    forall i :: 0 <= i < |procs| && procs[i].Space? ==> Fits(t, n, d, procs[i], trampoline)
  }

  /** One root more. */
  ghost predicate PlusRoot(n: Nodes, n': Nodes, root: nat) {
    && !IsRoot(n, root)
    && forall r :: IsRoot(n', r) <==> IsRoot(n, r) || r == root
  }

  ghost predicate MinusRoot(n: Nodes, n': Nodes, root: nat) {
    forall r :: IsRoot(n', r) <==> IsRoot(n, r) && r != root
  }

  /** The root maps the trampoline and the trapframe and nothing else. */
  ghost predicate Bare(t: Tables, root: nat, frame: nat, trampoline: nat) {
    forall w: nat :: w < SPACE ==>
      Lookup(t, root, w) == if w == TRAMPOLINE then Leaf(trampoline, CODE)
                              else if w == TRAPFRAME then Leaf(frame, FRAME) else Invalid
  }

  class Kernel {
    const mem: Memory
    const trampoline: nat       // the trampoline's page, in the kernel text
    var procs: seq<Slot>

    ghost predicate Valid()
      reads this, mem
    {
      && mem.Ok() && !(mem.lo <= trampoline < mem.hi)
      && AllFit(mem.tables, mem.nodes, mem.data, procs, trampoline)
      && Settled(mem.nodes, mem.uses, procs)
    }

    constructor(start: nat, end: nat, nproc: nat, trampolinePage: nat)
      requires !(PagesOf(start) <= trampolinePage < end / PGSIZE)
      ensures Valid() && fresh(mem) && |procs| == nproc && forall i :: 0 <= i < nproc ==> procs[i] == Empty
      ensures var lo, hi := PagesOf(start), end / PGSIZE; |mem.freelist| == if lo < hi then hi - lo else 0
    {
      mem := new Memory(start, end);
      trampoline := trampolinePage;
      procs := seq(nproc, _ => Empty);
    }

    /** proc_pagetable: a page table with trampoline and trapframe only; on failure no page is lost. */
    method ProcPagetable(frame: nat) returns (r: Option<nat>)
      requires mem.Ok() && !(mem.lo <= trampoline < mem.hi) && frame in mem.data && frame in mem.uses &&
               mem.uses[frame] == Spare
      modifies mem
      ensures mem.Ok() && mem.data == old(mem.data) && SameMaps(old(mem.tables), mem.tables, old(mem.nodes))
      ensures if r.Some? then |mem.freelist| + 5 >= |old(mem.freelist)| else |old(mem.freelist)| <= 5
      ensures r.None? ==> SameRoots(old(mem.nodes), mem.nodes) && mem.uses == old(mem.uses)
      ensures r.Some? ==> PlusRoot(old(mem.nodes), mem.nodes, r.value) && Bare(mem.tables, r.value, frame, trampoline)
      ensures r.Some? ==> mem.uses == old(mem.uses)[frame := At(r.value, TRAPFRAME)]
    {
      hide WfTree, Parted, UseOk, Lookup, MapsRange, UsedRange, ClearsRange;
      ghost var t0, n0, d0, u0 := mem.tables, mem.nodes, mem.data, mem.uses;
      r := mem.Uvmcreate();
      if r.None? { return; }
      var root := r.value;
      ghost var t1, n1 := mem.tables, mem.nodes;
      UseKeys(t1, n1, d0, u0, mem.lo, mem.hi);
      NotMapped(mem.freelist, t1, mem.data, mem.lo, mem.hi, trampoline, frame);
      var ok; ghost var done;
      ok, done := mem.Mappages(root, TRAMPOLINE * PGSIZE, PGSIZE, trampoline * PGSIZE, CODE);
      ghost var t2, n2 := mem.tables, mem.nodes;
      MapsFirst(t0, t1, t2, n0, n1, n2, u0, mem.uses, root, done, trampoline);
      if !ok {
        mem.Uvmfree(root, 0);
        Abandoned(t0, t2, mem.tables, n0, n2, mem.nodes, d0, u0, mem.data, mem.uses, root);
        return None;
      }
      r := MapTrapframe(root, frame, t0, n0);
    }

    /** The second half of proc_pagetable: the trapframe goes below the trampoline, or everything is undone. */
    method MapTrapframe(root: nat, frame: nat, ghost t0: Tables, ghost n0: Nodes) returns (r: Option<nat>)
      requires mem.Ok() && !(mem.lo <= trampoline < mem.hi) && frame in mem.data && frame in mem.uses &&
               mem.uses[frame] == Spare
      requires PlusRoot(n0, mem.nodes, root) && SameMaps(t0, mem.tables, n0) && IsRoot(mem.nodes, root)
      requires forall w: nat :: w < SPACE ==> Lookup(mem.tables, root, w) ==
                                              if w == TRAMPOLINE then Leaf(trampoline, CODE) else Invalid
      modifies mem
      ensures mem.Ok() && mem.data == old(mem.data) && SameMaps(t0, mem.tables, n0) && (r.Some? ==> r.value == root)
      ensures if r.Some? then |mem.freelist| + 2 >= |old(mem.freelist)| else |old(mem.freelist)| <= 2
      ensures r.None? ==> SameRoots(n0, mem.nodes) && mem.uses == old(mem.uses)
      ensures r.Some? ==> PlusRoot(n0, mem.nodes, root) && Bare(mem.tables, root, frame, trampoline)
      ensures r.Some? ==> mem.uses == old(mem.uses)[frame := At(root, TRAPFRAME)]
    {
      hide WfTree, Parted, UseOk, Lookup, MapsRange, UsedRange, ClearsRange, Bare;
      ghost var t2, n2, d0, u0 := mem.tables, mem.nodes, mem.data, mem.uses;
      UseKeys(t2, n2, d0, u0, mem.lo, mem.hi);
      NotMapped(mem.freelist, t2, mem.data, mem.lo, mem.hi, trampoline, frame);
      var ok; ghost var done;
      ok, done := mem.Mappages(root, TRAPFRAME * PGSIZE, PGSIZE, frame * PGSIZE, FRAME);
      ghost var t3, n3, u3 := mem.tables, mem.nodes, mem.uses;
      MapsSecond(t0, t2, t3, n0, n2, n3, u0, u3, root, done, trampoline, frame);
      if ok { return Some(root); }
      mem.Uvmunmap(root, TRAMPOLINE * PGSIZE, 1, false);
      ghost var t4 := mem.tables;
      TrampolineGone(t0, t3, t4, n0, n3, d0, u3, mem.uses, mem.lo, mem.hi, root, trampoline);
      mem.Uvmfree(root, 0);
      Abandoned(t0, t4, mem.tables, n0, n3, mem.nodes, d0, u0, mem.data, mem.uses, root);
      return None;
    }

    /** allocproc: a trapframe page and a bare page table, or nothing. */
    method AllocProc(i: nat) returns (ok: bool)
      requires Valid() && i < |procs| && procs[i].Empty?
      modifies this, mem
      ensures Valid() && SameMaps(old(mem.tables), mem.tables, old(mem.nodes)) && Keeps(old(mem.data), mem.data)
      ensures |procs| == |old(procs)|
      ensures ok ==> procs[i].Space? && procs[i].sz == 0 && procs == old(procs)[i := procs[i]] &&
                     !IsRoot(old(mem.nodes), procs[i].root)
      ensures ok ==> procs[i].frame !in old(mem.data) && mem.data.Keys == old(mem.data).Keys + {procs[i].frame}
      ensures ok ==> mem.uses == old(mem.uses)[procs[i].frame := At(procs[i].root, TRAPFRAME)]
      ensures if ok then |mem.freelist| + 6 >= |old(mem.freelist)| else |old(mem.freelist)| <= 6
      ensures !ok ==> procs == old(procs) && mem.data == old(mem.data)
    {
      hide WfTree, Parted, UseOk, Lookup, Fits, PlusRoot, Bare;
      ghost var t0, n0, d0, u0 := mem.tables, mem.nodes, mem.data, mem.uses;
      UseKeys(t0, n0, d0, u0, mem.lo, mem.hi);
      var frame := mem.Kalloc();
      if frame.None? { return false; }
      var root := ProcPagetable(frame.value);
      if root.None? {
        mem.Kfree(frame.value);
        assert mem.data == d0 && mem.uses == u0;
        SameStillFit(t0, mem.tables, n0, mem.nodes, d0, d0, procs, trampoline);
        SameSettled(n0, mem.nodes, u0, procs);
        return false;
      }
      SpawnFits(t0, mem.tables, n0, mem.nodes, d0, mem.data, u0, procs, trampoline, i, root.value, frame.value);
      procs := procs[i := Space(root.value, 0, frame.value)];
      ok := true;
      PlusIsNew(n0, mem.nodes, root.value);
    }

    /** The two uvmunmap calls of proc_freepagetable. */
    method UnmapFixed(root: nat, frame: nat)
      requires mem.Ok() && IsRoot(mem.nodes, root) && !(mem.lo <= trampoline < mem.hi) && frame in mem.data
      requires Lookup(mem.tables, root, TRAMPOLINE) == Leaf(trampoline, CODE) &&
               Lookup(mem.tables, root, TRAPFRAME) == Leaf(frame, FRAME)
      modifies mem
      ensures mem.Ok() && mem.nodes == old(mem.nodes) && mem.data == old(mem.data)
      ensures frame in old(mem.uses) && old(mem.uses)[frame] == At(root, TRAPFRAME)
      ensures mem.uses == old(mem.uses)[frame := Spare] && Stripped(old(mem.tables), mem.tables, mem.nodes, root)
    {
      hide WfTree, Parted, UseOk, Lookup, Idled;
      ghost var t0, n0, d0, u0 := mem.tables, mem.nodes, mem.data, mem.uses;
      DataInRange(mem.freelist, t0, d0, mem.lo, mem.hi);
      mem.Uvmunmap(root, TRAMPOLINE * PGSIZE, 1, false);
      ghost var t1, u1 := mem.tables, mem.uses;
      IdledOne(t0, n0, d0, u0, u1, mem.lo, mem.hi, root, TRAMPOLINE);
      mem.Uvmunmap(root, TRAPFRAME * PGSIZE, 1, false);
      IdledOne(t1, n0, d0, u1, mem.uses, mem.lo, mem.hi, root, TRAPFRAME);
    }

    /** freeproc: trapframe, user pages and page table all go back to the free list. */
    method FreeProc(i: nat)
      requires Valid() && i < |procs| && procs[i].Space?
      modifies this, mem
      ensures Valid() && procs == old(procs)[i := Empty]
      ensures FreedAll(old(mem.data), old(mem.uses), mem.data, old(procs)[i].root) &&
              SameMaps(old(mem.tables), mem.tables, mem.nodes)
    {
      hide WfTree, Parted, UseOk, Lookup, Stripped, Fits, PagesOf, AllFit, Settled, Released, FreedAll, Dropped;
      var root, sz, frame := procs[i].root, procs[i].sz, procs[i].frame;
      ghost var t0, n0, d0, u0 := mem.tables, mem.nodes, mem.data, mem.uses;
      DataInRange(mem.freelist, t0, d0, mem.lo, mem.hi);
      BeforeFree(t0, n0, d0, procs, i, trampoline);
      UnmapFixed(root, frame);
      ghost var t1, u1 := mem.tables, mem.uses;
      mem.Kfree(frame);
      ghost var d2, u2 := mem.data, mem.uses;
      assert u2 == u0 - {frame};
      AfterStrip(t0, t1, n0, d0, u0, mem.lo, mem.hi, procs[i], trampoline);
      mem.Uvmfree(root, sz);
      DroppedRoots(t1, n0, mem.nodes, root);
      FreedPages(t0, n0, d0, u0, mem.data, mem.uses, mem.lo, mem.hi, procs[i], trampoline);
      FreedMaps(t0, t1, mem.tables, n0, mem.nodes, root);
      FreedFits(t0, mem.tables, n0, mem.nodes, d0, u0, mem.data, mem.uses, mem.lo, mem.hi, procs, i, trampoline);
      procs := procs[i := Empty];
    }

    /** growproc: any int n. The new size is computed in 32 bits, so a sum outside 0 .. 2^32 - 1 changes nothing and
        still reports success; otherwise success means the size changed by exactly n, and failure changes nothing. */
    method Growproc(i: nat, n: int) returns (ok: bool)
      requires Valid() && i < |procs| && procs[i].Space? && -0x8000_0000 <= n < 0x8000_0000
      modifies this, mem
      ensures Valid() && |procs| == |old(procs)|
      ensures var sz := old(procs)[i].sz + n;
        if 0 <= sz < TWO32 then procs == (if ok then old(procs)[i := old(procs)[i].(sz := sz)] else old(procs)) &&
                                (!ok ==> n > 0)
        else ok && procs == old(procs)
      ensures !ok ==> n > 0 && |old(mem.freelist)| <= 3 * Pages(old(procs)[i].sz, old(procs)[i].sz + n)
      ensures !ok || n == 0 || !(0 <= old(procs)[i].sz + n < TWO32) ==>
                SameMaps(old(mem.tables), mem.tables, mem.nodes) && mem.data == old(mem.data)
      ensures ok && n > 0 && procs != old(procs) ==>
        && Keeps(old(mem.data), mem.data)
        && Zeroed(mem.tables, mem.data, procs[i].root, PagesOf(old(procs)[i].sz), Pages(old(procs)[i].sz, procs[i].sz))
      ensures ok && n < 0 && procs != old(procs) ==> Keeps(mem.data, old(mem.data))
    {
      hide WfTree, Parted, UseOk, Lookup, Fits, AllFit, Settled, PagesOf, Pages, Extends, Zeroed, ClearsRange, Released;
      var s := procs[i];
      ghost var t0, n0, d0, u0 := mem.tables, mem.nodes, mem.data, mem.uses;
      DataInRange(mem.freelist, t0, d0, mem.lo, mem.hi);
      BeforeFree(t0, n0, d0, procs, i, trampoline);
      assert s.sz < TWO32 by { SizeBound(t0, n0, d0, s, trampoline); }
      var newsz := (s.sz + n) % TWO32;
      var sz := s.sz;
      if n > 0 {
        BeforeGrow(t0, n0, d0, s, trampoline, newsz);
        sz := mem.Uvmalloc(s.root, s.sz, newsz);
        if sz == 0 {
          SameStillFit(t0, mem.tables, n0, mem.nodes, d0, d0, procs, trampoline);
          SameSettled(n0, mem.nodes, u0, procs);
          return false;
        }
        if newsz >= s.sz {
          ZeroedUser(mem.tables, mem.data, s.root, PagesOf(s.sz), Pages(s.sz, newsz));
          GrownFits(t0, mem.tables, n0, mem.nodes, d0, mem.data, u0, mem.uses, procs, i, trampoline, newsz);
        } else {
          SameStillFit(t0, mem.tables, n0, mem.nodes, d0, d0, procs, trampoline);
          SameSettled(n0, mem.nodes, u0, procs);
        }
      } else if n < 0 {
        BeforeShrink(t0, n0, d0, s, trampoline, newsz);
        sz := mem.Uvmdealloc(s.root, s.sz, newsz);
        ShrunkFits(t0, mem.tables, n0, d0, mem.data, u0, mem.uses, mem.lo, mem.hi, procs, i, trampoline, newsz);
      }
      assert sz == s.sz ==> procs[i := s.(sz := sz)] == procs;
      procs := procs[i := s.(sz := sz)];
      ok := true;
    }

    /** The memory side of fork: the child gets a copy of every user page, or no trace of it is left. */
    method Fork(i: nat, j: nat) returns (ok: bool)
      requires Valid() && i < |procs| && procs[i].Space? && j < |procs| && procs[j].Empty?
      modifies this, mem
      ensures |procs| == |old(procs)|
      ensures ok ==> procs[j].Space? && procs[j].sz == old(procs)[i].sz && procs == old(procs)[j := procs[j]]
      ensures ok ==> Copied(mem.tables, mem.data, old(procs)[i].root, procs[j].root, PagesOf(old(procs)[i].sz))
      ensures ok ==> Keeps(old(mem.data), mem.data)
      ensures !ok ==> |old(mem.freelist)| <= 6 + 3 * PagesOf(old(procs)[i].sz)
      ensures !ok ==> procs == old(procs) && mem.data == old(mem.data)
      ensures Valid()
    {
      hide WfTree, Parted, UseOk, Lookup, Fits, AllFit, Settled, PagesOf, Pages, Extends, Copied, FreedAll;
      ghost var n00, d00, u00 := mem.nodes, mem.data, mem.uses;
      UsesRooted(mem.tables, n00, d00, u00, mem.lo, mem.hi);
      ok := AllocProc(j);
      if !ok { return; }
      var p, c := procs[i], procs[j];
      ghost var t0, n0, d0, u0 := mem.tables, mem.nodes, mem.data, mem.uses;
      DataInRange(mem.freelist, t0, d0, mem.lo, mem.hi);
      BeforeFree(t0, n0, d0, procs, i, trampoline);
      BeforeFree(t0, n0, d0, procs, j, trampoline);
      BeforeCopy(t0, n0, d0, u0, procs, i, j, trampoline);
      ok := mem.Uvmcopy(p.root, c.root, p.sz);
      if ok {
        CopiedFits(t0, mem.tables, n0, mem.nodes, d0, mem.data, u0, mem.uses, procs, i, j, trampoline);
        procs := procs[j := c.(sz := p.sz)];
      } else {
        SameStillFit(t0, mem.tables, n0, mem.nodes, d0, d0, procs, trampoline);
        SameSettled(n0, mem.nodes, u0, procs);
        FreeProc(j);
        FreedBack(d00, u00, d0, u0, mem.data, n00, c.root, c.frame);
        assert procs == old(procs);
      }
    }

    /** Any run of these operations, failing or not, keeps every address space exact and loses no page. */
    method Run(ops: seq<Op>)
      requires Valid()
      modifies this, mem
      ensures Valid() && |procs| == |old(procs)|
    {
      var k := 0;
      while k < |ops|
        invariant 0 <= k <= |ops| && Valid() && |procs| == |old(procs)|
      {
        Step(ops[k]);
        k := k + 1;
      }
    }

    method Step(op: Op)
      requires Valid()
      modifies this, mem
      ensures |procs| == |old(procs)|
      ensures Valid()
    {
      match op
      case Alloc(i) =>
        if i < |procs| && procs[i].Empty? { var _ := AllocProc(i); }
      case ForkTo(i, j) =>
        if i < |procs| && procs[i].Space? && j < |procs| && procs[j].Empty? { var _ := Fork(i, j); }
      case Sbrk(i, n) =>
        if i < |procs| && procs[i].Space? && -0x8000_0000 <= n < 0x8000_0000 { var _ := Growproc(i, n); }
      case Reap(i) =>
        if i < |procs| && procs[i].Space? { FreeProc(i); }
    }
  }

  /** growproc reports success without doing anything when the new size does not fit: a process of size 0 that gives
      back a byte keeps its size and is told it succeeded. */
  method ShrinkBelowZero() returns (k: Kernel, ok: bool)
    ensures fresh(k) && k.Valid() && ok && |k.procs| == 1 && k.procs[0].Space? && k.procs[0].sz == 0
  {
    k := new Kernel(0, 8 * PGSIZE, 1, 8);
    var started := k.AllocProc(0);
    ok := k.Growproc(0, -1);
  }

  lemma FitsPage(t: Tables, n: Nodes, d: Data, s: Slot, trampoline: nat, w: nat)
    requires s.Space? && Fits(t, n, d, s, trampoline) && w < SPACE
    ensures PageFits(Lookup(t, s.root, w), d, s.sz, s.frame, trampoline, w)
  {
  }

  lemma SmallSize(sz: nat)
    requires sz < TWO32
    ensures PagesOf(sz) <= 0x10_0000 < TRAPFRAME
  {
  }

  lemma NotMapped(f: seq<nat>, t: Tables, d: Data, lo: nat, hi: nat, trampoline: nat, frame: nat)
    requires Parted(f, t, d, lo, hi) && frame in d && !(lo <= trampoline < hi)
    ensures trampoline != frame && trampoline !in d
  {
  }

  lemma MapsFirst(t0: Tables, t1: Tables, t2: Tables, n0: Nodes, n1: Nodes, n2: Nodes, u: Uses, u': Uses, root: nat,
                  done: nat, trampoline: nat)
    requires n1 == n0[root := Node(2, root, root, 0)] && root !in n0 && SameMaps(t0, t1, n0) &&
             forall v: nat :: Lookup(t1, root, v) == Invalid
    requires MapsRange(t1, t2, n1, root, TRAMPOLINE, done, trampoline, CODE) &&
             UsedRange(u, u', root, TRAMPOLINE, done, trampoline)
    requires done <= 1 && SameRoots(n1, n2) && trampoline !in u
    ensures u' == u && PlusRoot(n0, n2, root) && SameMaps(t0, t2, n0)
    ensures forall w: nat :: w < SPACE ==>
                               Lookup(t2, root, w) == if w == TRAMPOLINE && done == 1 then Leaf(trampoline, CODE)
                                                        else Invalid
  {
    hide Lookup;
  }

  lemma Abandoned(t0: Tables, t: Tables, t': Tables, n0: Nodes, n: Nodes, n': Nodes, d: Data, u: Uses, d': Data,
                  u': Uses, root: nat)
    requires PlusRoot(n0, n, root) && SameMaps(t0, t, n0) && WfTree(t, n) && IsRoot(n, root)
    requires Dropped(n, n', root) && SameMaps(t, t', n') && Released(d, u, d', u', root, 0, 0)
    ensures SameRoots(n0, n') && SameMaps(t0, t', n0) && d' == d && u' == u
  {
    hide Lookup;
  }

  lemma MapsSecond(t0: Tables, t2: Tables, t3: Tables, n0: Nodes, n2: Nodes, n3: Nodes, u: Uses, u': Uses, root: nat,
                   done: nat, trampoline: nat, frame: nat)
    requires PlusRoot(n0, n2, root) && SameMaps(t0, t2, n0) && SameRoots(n2, n3) && done <= 1 && frame in u
    requires forall w: nat :: w < SPACE ==>
                                Lookup(t2, root, w) == if w == TRAMPOLINE then Leaf(trampoline, CODE) else Invalid
    requires MapsRange(t2, t3, n2, root, TRAPFRAME, done, frame, FRAME) &&
             UsedRange(u, u', root, TRAPFRAME, done, frame)
    ensures PlusRoot(n0, n3, root) && SameMaps(t0, t3, n0) && Lookup(t3, root, TRAMPOLINE) == Leaf(trampoline, CODE)
    ensures u' == if done == 1 then u[frame := At(root, TRAPFRAME)] else u
    ensures done == 1 ==> Bare(t3, root, frame, trampoline)
    ensures done == 0 ==> forall w: nat :: w < SPACE && w != TRAMPOLINE ==> Lookup(t3, root, w) == Invalid
  {
    hide Lookup;
  }

  /** Unmapping the trampoline gives no data page back. */
  lemma TrampolineGone(t0: Tables, t: Tables, t': Tables, n0: Nodes, n: Nodes, d: Data, u: Uses, u': Uses, lo: nat,
                       hi: nat, root: nat, trampoline: nat)
    requires UseOk(t, n, d, u, lo, hi) && IsRoot(n, root) && Lookup(t, root, TRAMPOLINE) == Leaf(trampoline, CODE) &&
             trampoline !in d
    requires ClearsRange(t, t', n, root, TRAMPOLINE, 1) && Idled(u, u', root, TRAMPOLINE, 1)
    requires PlusRoot(n0, n, root) && SameMaps(t0, t, n0)
    ensures u' == u && SameMaps(t0, t', n0)
    ensures forall w: nat :: w < SPACE ==>
                               Lookup(t', root, w) == if w == TRAMPOLINE then Invalid else Lookup(t, root, w)
  {
    hide Lookup;
    OneUser(t, n, d, u, lo, hi, root, TRAMPOLINE);
  }

  /** Old data pages are as they were. */
  ghost predicate Keeps(d: Data, d': Data) {
    forall q :: q in d ==> q in d' && d'[q] == d[q]
  }

  lemma PlusIsNew(n: Nodes, n': Nodes, root: nat)
    requires PlusRoot(n, n', root)
    ensures !IsRoot(n, root)
  {
  }

  lemma SameStillFit(t: Tables, t': Tables, n: Nodes, n': Nodes, d: Data, d': Data, procs: seq<Slot>, trampoline: nat)
    requires AllFit(t, n, d, procs, trampoline) && SameMaps(t, t', n) && Keeps(d, d')
    requires forall r :: IsRoot(n, r) ==> IsRoot(n', r)
    ensures AllFit(t', n', d', procs, trampoline)
  {
    hide Lookup, PagesOf;
  }

  lemma SameSettled(n: Nodes, n': Nodes, u: Uses, procs: seq<Slot>)
    requires Settled(n, u, procs) && SameRoots(n, n')
    ensures Settled(n', u, procs)
  {
  }

  lemma SpawnFits(t: Tables, t': Tables, n: Nodes, n': Nodes, d: Data, d': Data, u: Uses, procs: seq<Slot>,
                  trampoline: nat,
                  i: nat, root: nat, frame: nat)
    requires AllFit(t, n, d, procs, trampoline) && SameMaps(t, t', n) && Keeps(d, d') && Settled(n, u, procs)
    requires i < |procs| && procs[i].Empty? && PlusRoot(n, n', root) && Bare(t', root, frame, trampoline) && frame in d'
    ensures AllFit(t', n', d', procs[i := Space(root, 0, frame)], trampoline)
    ensures Settled(n', u[frame := At(root, TRAPFRAME)], procs[i := Space(root, 0, frame)])
  {
    hide Lookup;
    var s := Space(root, 0, frame);
    var procs' := procs[i := s];
    assert PagesOf(0) == 0;
    assert Fits(t', n', d', s, trampoline);
    forall k | 0 <= k < |procs'| && procs'[k].Space? ensures Fits(t', n', d', procs'[k], trampoline) {
      if k != i { assert Fits(t, n, d, procs[k], trampoline); }
    }
    forall r | IsRoot(n', r) ensures RootTaken(procs', r) {
      if r == root { assert procs'[i].root == r; }
      else {
        var k :| 0 <= k < |procs| && procs[k].Space? && procs[k].root == r;
        assert procs'[k] == procs[k];
      }
    }
  }

  /** Trampoline and trapframe are not mapped any more, everything else is as it was. */
  ghost predicate Stripped(t: Tables, t': Tables, n: Nodes, root: nat) {
    && (forall r, w: nat :: IsRoot(n, r) && w < SPACE && r != root ==> Lookup(t', r, w) == Lookup(t, r, w))
    && (forall w: nat :: w < SPACE ==> Lookup(t', root, w) == if w == TRAMPOLINE || w == TRAPFRAME then Invalid
                                                                else Lookup(t, root, w))
  }

  /** Exactly the data pages of one address space are gone. */
  ghost predicate FreedAll(d: Data, u: Uses, d': Data, root: nat) {
    forall q :: (q in d' <==> q in d && !(q in u && u[q].At? && u[q].root == root)) && (q in d' ==> d'[q] == d[q])
  }

  lemma IdledOne(t: Tables, n: Nodes, d: Data, u: Uses, u': Uses, lo: nat, hi: nat, root: nat, w: nat)
    requires UseOk(t, n, d, u, lo, hi) && IsRoot(n, root) && w < SPACE && Lookup(t, root, w).Leaf? &&
             Idled(u, u', root, w, 1)
    requires forall q :: q in d ==> lo <= q < hi
    ensures var q := Lookup(t, root, w).ppn;
            u' == (if q in d then u[q := Spare] else u) && (q in d ==> q in u && u[q] == At(root, w))
  {
    hide Lookup;
    OneUser(t, n, d, u, lo, hi, root, w);
  }

  lemma BeforeFree(t: Tables, n: Nodes, d: Data, procs: seq<Slot>, i: nat, trampoline: nat)
    requires AllFit(t, n, d, procs, trampoline) && i < |procs| && procs[i].Space?
    ensures var s := procs[i];
      && Fits(t, n, d, s, trampoline) && IsRoot(n, s.root) && s.frame in d && PagesOf(s.sz) <= MAXPAGES
      && Lookup(t, s.root, TRAMPOLINE) == Leaf(trampoline, CODE) && Lookup(t, s.root, TRAPFRAME) == Leaf(s.frame, FRAME)
  {
    hide Lookup;
    var s := procs[i];
    assert Fits(t, n, d, s, trampoline);
    SmallSize(s.sz);
    FitsPage(t, n, d, s, trampoline, TRAMPOLINE);
    FitsPage(t, n, d, s, trampoline, TRAPFRAME);
  }

  /** With trampoline and trapframe gone, only the user pages are left, none of them the trapframe. */
  lemma AfterStrip(t: Tables, t': Tables, n: Nodes, d: Data, u: Uses, lo: nat, hi: nat, s: Slot, trampoline: nat)
    requires s.Space? && Fits(t, n, d, s, trampoline) && Stripped(t, t', n, s.root) && UseOk(t, n, d, u, lo, hi)
    requires forall q :: q in d ==> lo <= q < hi
    ensures forall w: nat :: w < PagesOf(s.sz) ==>
                               Lookup(t', s.root, w).Leaf? && Lookup(t', s.root, w).ppn in d - {s.frame}
    ensures forall w: nat :: PagesOf(s.sz) <= w < SPACE ==> !Lookup(t', s.root, w).Leaf?
  {
    hide Lookup;
    SmallSize(s.sz);
    hide PagesOf;
    FitsPage(t, n, d, s, trampoline, TRAPFRAME);
    OneUser(t, n, d, u, lo, hi, s.root, TRAPFRAME);
    forall w: nat | w < SPACE ensures w < PagesOf(s.sz) ==>
        Lookup(t', s.root, w).Leaf? && Lookup(t', s.root, w).ppn in d - {s.frame}
      ensures PagesOf(s.sz) <= w ==> !Lookup(t', s.root, w).Leaf?
    {
      FitsPage(t, n, d, s, trampoline, w);
      if w < PagesOf(s.sz) { OneUser(t, n, d, u, lo, hi, s.root, w); }
    }
  }

  lemma DroppedRoots(t: Tables, n: Nodes, n': Nodes, root: nat)
    requires WfTree(t, n) && IsRoot(n, root) && Dropped(n, n', root)
    ensures MinusRoot(n, n', root)
  {
    forall r | IsRoot(n, r) ensures n[r].root == r { assert NodeOk(t, n, r); }
  }

  lemma FreedMaps(t: Tables, t1: Tables, t': Tables, n: Nodes, n': Nodes, root: nat)
    requires Stripped(t, t1, n, root) && MinusRoot(n, n', root) && SameMaps(t1, t', n')
    ensures SameMaps(t, t', n')
  {
    hide Lookup;
  }

  /** What an address space maps of our memory is its user pages and its trapframe; all of it is freed. */
  lemma FreedPages(t: Tables, n: Nodes, d: Data, u: Uses, d': Data, u': Uses, lo: nat, hi: nat, s: Slot,
                   trampoline: nat)
    requires s.Space? && Fits(t, n, d, s, trampoline) && UseOk(t, n, d, u, lo, hi) && !(lo <= trampoline < hi)
    requires forall q :: q in d ==> lo <= q < hi
    requires s.frame in u && u[s.frame] == At(s.root, TRAPFRAME)
    requires Released(d - {s.frame}, u - {s.frame}, d', u', s.root, 0, PagesOf(s.sz))
    ensures FreedAll(d, u, d', s.root) && u'.Keys == d'.Keys && forall q :: q in u' ==> u'[q] == u[q]
  {
    hide Lookup;
    SmallSize(s.sz);
    hide PagesOf;
    forall q | q in d && q != s.frame
      ensures UsedIn(u, q, s.root, 0, PagesOf(s.sz)) <==> q in u && u[q].At? && u[q].root == s.root
    {
      if q in u && u[q].At? && u[q].root == s.root {
        assert UseFits(t, n, u, q);
        FitsPage(t, n, d, s, trampoline, u[q].v);
      }
    }
    forall q | q in d && q != s.frame ensures q in d' <==> !UsedIn(u, q, s.root, 0, PagesOf(s.sz)) {
      assert UsedIn(u - {s.frame}, q, s.root, 0, PagesOf(s.sz)) <==> UsedIn(u, q, s.root, 0, PagesOf(s.sz));
    }
  }

  lemma FreedFits(t: Tables, t': Tables, n: Nodes, n': Nodes, d: Data, u: Uses, d': Data, u': Uses, lo: nat, hi: nat,
                  procs: seq<Slot>, i: nat, trampoline: nat)
    requires AllFit(t, n, d, procs, trampoline) && Settled(n, u, procs) && UseOk(t, n, d, u, lo, hi) && i < |procs| &&
             procs[i].Space?
    requires MinusRoot(n, n', procs[i].root) && SameMaps(t, t', n') && FreedAll(d, u, d', procs[i].root)
    requires u'.Keys == d'.Keys && forall q :: q in u' ==> u'[q] == u[q]
    requires forall q :: q in d ==> lo <= q < hi
    ensures AllFit(t', n', d', procs[i := Empty], trampoline) && Settled(n', u', procs[i := Empty])
  {
    hide Lookup, PagesOf;
    var procs' := procs[i := Empty];
    forall k | 0 <= k < |procs'| && procs'[k].Space? ensures Fits(t', n', d', procs'[k], trampoline) {
      FitsStays(t, t', n, n', d, d', u, lo, hi, procs[k], trampoline, procs[i].root);
    }
    forall r | IsRoot(n', r) ensures RootTaken(procs', r) {
      var k :| 0 <= k < |procs| && procs[k].Space? && procs[k].root == r;
      assert procs'[k] == procs[k];
    }
  }

  /** Another address space losing its pages does not touch this one. */
  lemma FitsStays(t: Tables, t': Tables, n: Nodes, n': Nodes, d: Data, d': Data, u: Uses, lo: nat, hi: nat, s: Slot,
                  trampoline: nat, other: nat)
    requires s.Space? && Fits(t, n, d, s, trampoline) && UseOk(t, n, d, u, lo, hi) && s.root != other &&
             IsRoot(n', s.root)
    requires forall w: nat :: w < SPACE ==> Lookup(t', s.root, w) == Lookup(t, s.root, w)
    requires forall q :: q in d && q in u && u[q].At? && u[q].root != other ==> q in d'
    requires forall q :: q in d ==> lo <= q < hi
    ensures Fits(t', n', d', s, trampoline)
  {
    hide Lookup;
    SmallSize(s.sz);
    hide PagesOf;
    FitsPage(t, n, d, s, trampoline, TRAPFRAME);
    OneUser(t, n, d, u, lo, hi, s.root, TRAPFRAME);
    forall w: nat | w < SPACE ensures PageFits(Lookup(t', s.root, w), d', s.sz, s.frame, trampoline, w) {
      FitsPage(t, n, d, s, trampoline, w);
      if w < PagesOf(s.sz) { OneUser(t, n, d, u, lo, hi, s.root, w); }
    }
  }

  lemma SizeBound(t: Tables, n: Nodes, d: Data, s: Slot, trampoline: nat)
    requires s.Space? && Fits(t, n, d, s, trampoline)
    ensures s.sz < TWO32
  {
  }

  lemma BeforeGrow(t: Tables, n: Nodes, d: Data, s: Slot, trampoline: nat, newsz: nat)
    requires s.Space? && Fits(t, n, d, s, trampoline) && newsz < TWO32
    ensures PagesOf(newsz) <= MAXPAGES && forall w: nat :: PagesOf(s.sz) <= w < PagesOf(newsz) ==>
                                                             Lookup(t, s.root, w) == Invalid
  {
    hide Lookup;
    SmallSize(newsz);
  }

  lemma BeforeShrink(t: Tables, n: Nodes, d: Data, s: Slot, trampoline: nat, newsz: nat)
    requires s.Space? && Fits(t, n, d, s, trampoline) && newsz < TWO32
    ensures forall w: nat :: PagesOf(newsz) <= w < PagesOf(s.sz) ==>
                               Lookup(t, s.root, w).Leaf? && Lookup(t, s.root, w).ppn in d
  {
    hide Lookup;
    SmallSize(s.sz);
    hide PagesOf;
  }

  lemma PagesGrow(sz: nat, newsz: nat)
    requires sz <= newsz
    ensures PagesOf(sz) <= PagesOf(newsz) && Pages(sz, newsz) == PagesOf(newsz) - PagesOf(sz)
  {
  }

  ghost predicate AllUser(t: Tables, root: nat, v: nat, m: nat) {
    forall w: nat :: v <= w < v + m ==> Lookup(t, root, w).Leaf? && Lookup(t, root, w).perm == USER
  }

  lemma ZeroedUser(t: Tables, d: Data, root: nat, v: nat, m: nat)
    requires Zeroed(t, d, root, v, m)
    ensures AllUser(t, root, v, m)
  {
  }

  lemma GrownFits(t: Tables, t': Tables, n: Nodes, n': Nodes, d: Data, d': Data, u: Uses, u': Uses, procs: seq<Slot>,
                  i: nat, trampoline: nat, newsz: nat)
    requires AllFit(t, n, d, procs, trampoline) && Settled(n, u, procs) && SameRoots(n, n') && i < |procs| &&
             procs[i].Space?
    requires procs[i].sz <= newsz < TWO32
    requires Extends(t, t', n', d, d', u, u', procs[i].root, PagesOf(procs[i].sz), Pages(procs[i].sz, newsz))
    requires AllUser(t', procs[i].root, PagesOf(procs[i].sz), Pages(procs[i].sz, newsz))
    ensures AllFit(t', n', d', procs[i := procs[i].(sz := newsz)], trampoline) &&
            Settled(n', u', procs[i := procs[i].(sz := newsz)])
    ensures Keeps(d, d')
  {
    hide Lookup;
    var s := procs[i];
    var procs' := procs[i := s.(sz := newsz)];
    PagesGrow(s.sz, newsz);
    SmallSize(newsz);
    hide PagesOf, Pages;
    forall k | 0 <= k < |procs'| && procs'[k].Space? ensures Fits(t', n', d', procs'[k], trampoline) {
      var o := procs[k];
      assert Fits(t, n, d, o, trampoline);
      forall w: nat | w < SPACE ensures PageFits(Lookup(t', o.root, w), d', procs'[k].sz, o.frame, trampoline, w) {
        FitsPage(t, n, d, o, trampoline, w);
      }
    }
    forall r | IsRoot(n', r) ensures RootTaken(procs', r) {
      var k :| 0 <= k < |procs| && procs[k].Space? && procs[k].root == r;
      assert procs'[k].root == r;
    }
    forall q | q in u' ensures u'[q].At? {
      if q !in d { assert UsedIn(u', q, s.root, PagesOf(s.sz), Pages(s.sz, newsz)); }
    }
  }

  lemma ShrunkFits(t: Tables, t': Tables, n: Nodes, d: Data, d': Data, u: Uses, u': Uses, lo: nat, hi: nat,
                   procs: seq<Slot>, i: nat, trampoline: nat, newsz: nat)
    requires AllFit(t, n, d, procs, trampoline) && Settled(n, u, procs) && UseOk(t, n, d, u, lo, hi) && i < |procs| &&
             procs[i].Space?
    requires procs[i].sz < TWO32 && forall q :: q in d ==> lo <= q < hi
    requires var m := if PagesOf(newsz) < PagesOf(procs[i].sz) then PagesOf(procs[i].sz) - PagesOf(newsz) else 0;
      ClearsRange(t, t', n, procs[i].root, PagesOf(newsz), m) &&
      Released(d, u, d', u', procs[i].root, PagesOf(newsz), m)
    ensures var s := procs[i].(sz := if newsz >= procs[i].sz then procs[i].sz else newsz);
      AllFit(t', n, d', procs[i := s], trampoline) && Settled(n, u', procs[i := s])
    ensures Keeps(d', d)
    ensures newsz >= procs[i].sz ==> SameMaps(t, t', n) && d' == d
  {
    hide Lookup, UseOk, Fits, ClearsRange, Released, Settled, PagesOf;
    var oldsz, root := procs[i].sz, procs[i].root;
    var s := procs[i].(sz := if newsz >= oldsz then oldsz else newsz);
    var procs' := procs[i := s];
    assert forall k :: 0 <= k < |procs| && k != i && procs[k].Space? ==>
                         procs[k].root != root by { RootsApart(n, u, procs); }
    forall k | 0 <= k < |procs'| && procs'[k].Space? ensures Fits(t', n, d', procs'[k], trampoline) {
      ShrunkFit(t, t', n, d, d', u, u', lo, hi, procs[k], trampoline, root, newsz, oldsz, procs'[k].sz);
    }
    var m := if PagesOf(newsz) < PagesOf(oldsz) then PagesOf(oldsz) - PagesOf(newsz) else 0;
    ShrunkSettled(t, t', n, d, d', u, u', procs, i, s.sz, PagesOf(newsz), m);
    if newsz >= oldsz { PagesGrow(oldsz, newsz); }
  }

  lemma RootsApart(n: Nodes, u: Uses, procs: seq<Slot>)
    requires Settled(n, u, procs)
    ensures forall i, j :: 0 <= i < |procs| && 0 <= j < |procs| && i != j && procs[i].Space? && procs[j].Space? ==>
                             procs[i].root != procs[j].root
  {
  }

  lemma ShrunkSettled(t: Tables, t': Tables, n: Nodes, d: Data, d': Data, u: Uses, u': Uses, procs: seq<Slot>, i: nat,
                      sz: nat, v: nat, m: nat)
    requires Settled(n, u, procs) && i < |procs| && procs[i].Space?
    requires ClearsRange(t, t', n, procs[i].root, v, m) && Released(d, u, d', u', procs[i].root, v, m)
    ensures Settled(n, u', procs[i := procs[i].(sz := sz)]) && Keeps(d', d)
    ensures m == 0 ==> SameMaps(t, t', n) && d' == d
  {
    hide Lookup;
    var procs' := procs[i := procs[i].(sz := sz)];
    forall r | IsRoot(n, r) ensures RootTaken(procs', r) {
      var k :| 0 <= k < |procs| && procs[k].Space? && procs[k].root == r;
      assert procs'[k].root == r;
    }
    if m == 0 { assert forall p :: !UsedIn(u, p, procs[i].root, v, 0); }
  }

  lemma ShrunkFit(t: Tables, t': Tables, n: Nodes, d: Data, d': Data, u: Uses, u': Uses, lo: nat, hi: nat, o: Slot,
                  trampoline: nat,
                  root: nat, newsz: nat, oldsz: nat, sz: nat)
    requires o.Space? && Fits(t, n, d, o, trampoline) && UseOk(t, n, d, u, lo, hi) && oldsz < TWO32
    requires forall q :: q in d ==> lo <= q < hi
    requires var m := if PagesOf(newsz) < PagesOf(oldsz) then PagesOf(oldsz) - PagesOf(newsz) else 0;
      ClearsRange(t, t', n, root, PagesOf(newsz), m) && Released(d, u, d', u', root, PagesOf(newsz), m)
    requires if o.root == root then o.sz == oldsz && sz == (if newsz >= oldsz then oldsz else newsz) else sz == o.sz
    ensures Fits(t', n, d', o.(sz := sz), trampoline)
  {
    hide Lookup;
    SmallSize(o.sz);
    SmallSize(oldsz);
    if newsz >= oldsz { PagesGrow(oldsz, newsz); } else { PagesGrow(newsz, oldsz); }
    hide PagesOf;
    FitsPage(t, n, d, o, trampoline, TRAPFRAME);
    OneUser(t, n, d, u, lo, hi, o.root, TRAPFRAME);
    forall w: nat | w < SPACE ensures PageFits(Lookup(t', o.root, w), d', sz, o.frame, trampoline, w) {
      FitsPage(t, n, d, o, trampoline, w);
      if w < PagesOf(o.sz) { OneUser(t, n, d, u, lo, hi, o.root, w); }
    }
  }

  lemma UsesRooted(t: Tables, n: Nodes, d: Data, u: Uses, lo: nat, hi: nat)
    requires UseOk(t, n, d, u, lo, hi)
    ensures u.Keys == d.Keys && forall q :: q in u && u[q].At? ==> IsRoot(n, u[q].root)
  {
    hide Lookup;
    forall q | q in u && u[q].At? ensures IsRoot(n, u[q].root) { assert UseFits(t, n, u, q); }
  }

  lemma BeforeCopy(t: Tables, n: Nodes, d: Data, u: Uses, procs: seq<Slot>, i: nat, j: nat, trampoline: nat)
    requires AllFit(t, n, d, procs, trampoline) && Settled(n, u, procs) && i < |procs| && procs[i].Space? &&
             j < |procs| && procs[j].Space? && i != j
    requires procs[j].sz == 0
    ensures procs[i].root != procs[j].root && procs[i].sz < TWO32
    ensures forall w: nat :: w < PagesOf(procs[i].sz) ==>
                               Lookup(t, procs[i].root, w).Leaf? && Lookup(t, procs[i].root, w).ppn in d
    ensures forall w: nat :: w < PagesOf(procs[i].sz) ==> Lookup(t, procs[j].root, w) == Invalid
  {
    hide Lookup;
    RootsApart(n, u, procs);
    assert Fits(t, n, d, procs[i], trampoline) && Fits(t, n, d, procs[j], trampoline);
    SmallSize(procs[i].sz);
    assert PagesOf(0) == 0;
    hide PagesOf;
  }

  lemma CopiedFits(t: Tables, t': Tables, n: Nodes, n': Nodes, d: Data, d': Data, u: Uses, u': Uses, procs: seq<Slot>,
                   i: nat, j: nat, trampoline: nat)
    requires AllFit(t, n, d, procs, trampoline) && Settled(n, u, procs) && SameRoots(n, n') && i < |procs| &&
             procs[i].Space? && j < |procs| && procs[j].Space?
    requires i != j && procs[j].sz == 0 && procs[i].sz < TWO32
    requires Extends(t, t', n', d, d', u, u', procs[j].root, 0, PagesOf(procs[i].sz)) &&
             Copied(t', d', procs[i].root, procs[j].root, PagesOf(procs[i].sz))
    ensures AllFit(t', n', d', procs[j := procs[j].(sz := procs[i].sz)], trampoline) &&
            Settled(n', u', procs[j := procs[j].(sz := procs[i].sz)])
    ensures Keeps(d, d')
  {
    hide Lookup;
    RootsApart(n, u, procs);
    PagesGrow(0, procs[i].sz);
    assert PagesOf(0) == 0;
    assert Fits(t, n, d, procs[i], trampoline);
    SmallSize(procs[i].sz);
    hide PagesOf, Pages;
    forall w: nat | w < PagesOf(procs[i].sz)
      ensures Lookup(t', procs[j].root, w).Leaf? && Lookup(t', procs[j].root, w).perm == USER {
      FitsPage(t, n, d, procs[i], trampoline, w);
    }
    GrownFits(t, t', n, n', d, d', u, u', procs, j, trampoline, procs[i].sz);
  }

  lemma FreedBack(d: Data, u: Uses, d1: Data, u1: Uses, d': Data, n: Nodes, root: nat, frame: nat)
    requires u.Keys == d.Keys && frame !in d && Keeps(d, d1) && d1.Keys == d.Keys + {frame}
    requires u1 == u[frame := At(root, TRAPFRAME)] && !IsRoot(n, root)
    requires forall q :: q in u && u[q].At? ==> IsRoot(n, u[q].root)
    requires FreedAll(d1, u1, d', root)
    ensures d' == d
  {
  }

  datatype Op = Alloc(i: nat) | ForkTo(i: nat, j: nat) | Sbrk(i: nat, n: int) | Reap(i: nat)

  lemma {:induction false} RootOfNode(t: Tables, n: Nodes, c: nat)
    requires WfTree(t, n) && c in n
    ensures IsRoot(n, n[c].root)
    decreases if n[c].level < 3 then 3 - n[c].level else 0
  {
    assert NodeOk(t, n, c);
    if n[c].level < 2 { RootOfNode(t, n, n[c].parent); }
  }

  /** Conservation: a page is free, or a table of one live process, or mapped in one live process as a user
      page or the trapframe. Once every slot is empty, every page is free. */
  lemma Conserved(k: Kernel, q: nat)
    requires k.Valid() && k.mem.lo <= q < k.mem.hi
    ensures q in k.mem.tables ==> q in k.mem.nodes && RootTaken(k.procs, k.mem.nodes[q].root) &&
                                  q !in k.mem.freelist && q !in k.mem.data
    ensures q in k.mem.data ==> q in k.mem.uses && k.mem.uses[q].At? && RootTaken(k.procs, k.mem.uses[q].root) &&
                                q !in k.mem.freelist
    ensures q in k.mem.freelist || q in k.mem.tables || q in k.mem.data
    ensures (forall i :: 0 <= i < |k.procs| ==> k.procs[i].Empty?) ==> q in k.mem.freelist
  {
    var m := k.mem;
    if q in m.tables { RootOfNode(m.tables, m.nodes, q); }
    UsesRooted(m.tables, m.nodes, m.data, m.uses, m.lo, m.hi);
    hide Lookup, WfTree, UseOk, AllFit;
  }
}
