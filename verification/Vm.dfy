/** Physical pages (kalloc.c) and user page tables (vm.c). Pages are named by page number;
    every page the allocator was given is free, a page-table page, or a data page. */
module Vm {
  import opened Collections
  import opened PageTable

  type Page = s: seq<int> | |s| == PGSIZE witness seq(PGSIZE, _ => 0)

  function Filled(b: int): (p: Page)
    ensures forall i :: 0 <= i < PGSIZE ==> p[i] == b
  {
    seq(PGSIZE, _ => b)
  }

  /** What a data page is for: nothing yet, or mapped at page v of an address space. */
  datatype Use = Spare | At(root: nat, v: nat)

  type Data = map<nat, Page>
  type Uses = map<nat, Use>

  /** Free, table and data pages partition the pages lo .. hi - 1. */
  ghost predicate Parted(f: seq<nat>, t: Tables, d: Data, lo: nat, hi: nat) {
    && Distinct(f)
    && (forall q :: q in f ==> q !in t && q !in d)
    && (forall q :: q in t ==> q !in d)
    && (forall q :: (q in f || q in t || q in d) <==> lo <= q < hi)
  }

  /** A mapped page is mapped once only, and if it is allocator memory it is a data page. */
  ghost predicate LeafOk(d: Data, u: Uses, lo: nat, hi: nat, e: Pte, r: nat, v: nat) {
    e.Leaf? ==> Proper(e) && (lo <= e.ppn < hi ==> e.ppn in d && e.ppn in u && u[e.ppn] == At(r, v))
  }

  ghost predicate UseFits(t: Tables, n: Nodes, u: Uses, q: nat)
    requires q in u
  {
    u[q].At? ==> IsRoot(n, u[q].root) && u[q].v < SPACE && Lookup(t, u[q].root, u[q].v).Leaf? &&
                 Lookup(t, u[q].root, u[q].v).ppn == q
  }

  ghost predicate UseOk(t: Tables, n: Nodes, d: Data, u: Uses, lo: nat, hi: nat) {
    && u.Keys == d.Keys
    && (forall q :: q in u ==> UseFits(t, n, u, q))
    && (forall r, v: nat :: IsRoot(n, r) && v < SPACE ==> LeafOk(d, u, lo, hi, Lookup(t, r, v), r, v))
  }

  ghost predicate SameRoots(n: Nodes, n': Nodes) {
    forall r :: IsRoot(n', r) <==> IsRoot(n, r)
  }

  lemma UseTablesGrow(t: Tables, n: Nodes, t': Tables, n': Nodes, d: Data, u: Uses, lo: nat, hi: nat)
    requires UseOk(t, n, d, u, lo, hi) && SameMaps(t, t', n) && SameRoots(n, n')
    ensures UseOk(t', n', d, u, lo, hi)
  {
    hide Lookup;
    forall q | q in u ensures UseFits(t', n', u, q) { assert UseFits(t, n, u, q); }
  }

  lemma UseAlloc(t: Tables, n: Nodes, d: Data, u: Uses, lo: nat, hi: nat, q: nat, p: Page)
    requires UseOk(t, n, d, u, lo, hi) && q !in d
    ensures UseOk(t, n, d[q := p], u[q := Spare], lo, hi)
  {
    hide Lookup;
    var u' := u[q := Spare];
    forall c | c in u' ensures UseFits(t, n, u', c) {
      if c != q { assert UseFits(t, n, u, c); }
    }
  }

  lemma UseFree(t: Tables, n: Nodes, d: Data, u: Uses, lo: nat, hi: nat, q: nat)
    requires UseOk(t, n, d, u, lo, hi) && q in u && u[q].Spare?
    ensures UseOk(t, n, d - {q}, u - {q}, lo, hi)
  {
    hide Lookup;
    forall c | c in u - {q} ensures UseFits(t, n, u - {q}, c) { assert UseFits(t, n, u, c); }
  }

  /** Only page v of root r changed. */
  ghost predicate OnlyAt(t: Tables, t': Tables, n: Nodes, r: nat, v: nat, e: Pte) {
    && Lookup(t', r, v) == e
    && forall r', v': nat :: IsRoot(n, r') && v' < SPACE && (r' != r || v' != v) ==>
                               Lookup(t', r', v') == Lookup(t, r', v')
  }

  lemma UseMap(t: Tables, t': Tables, n: Nodes, d: Data, u: Uses, lo: nat, hi: nat, r: nat, v: nat, q: nat, perm: Perm)
    requires UseOk(t, n, d, u, lo, hi) && OnlyAt(t, t', n, r, v, Leaf(q, perm)) && Proper(Leaf(q, perm))
    requires IsRoot(n, r) && v < SPACE && Lookup(t, r, v) == Invalid
    requires lo <= q < hi ==> q in d && u[q].Spare?
    requires q in d ==> lo <= q < hi
    ensures UseOk(t', n, d, if q in d then u[q := At(r, v)] else u, lo, hi)
  {
    hide Lookup;
    var u' := if q in d then u[q := At(r, v)] else u;
    forall c | c in u' ensures UseFits(t', n, u', c) {
      if c != q || q !in d { assert UseFits(t, n, u, c); }
    }
    forall r', v': nat | IsRoot(n, r') && v' < SPACE ensures LeafOk(d, u', lo, hi, Lookup(t', r', v'), r', v') {
      assert LeafOk(d, u, lo, hi, Lookup(t, r', v'), r', v');
    }
  }

  lemma UseUnmap(t: Tables, t': Tables, n: Nodes, d: Data, u: Uses, lo: nat, hi: nat, r: nat, v: nat, q: nat)
    requires UseOk(t, n, d, u, lo, hi) && OnlyAt(t, t', n, r, v, Invalid)
    requires IsRoot(n, r) && v < SPACE && Lookup(t, r, v).Leaf? && Lookup(t, r, v).ppn == q
    requires q in d ==> lo <= q < hi
    ensures UseOk(t', n, d, if q in d then u[q := Spare] else u, lo, hi)
  {
    hide Lookup;
    var u' := if q in d then u[q := Spare] else u;
    assert LeafOk(d, u, lo, hi, Lookup(t, r, v), r, v);
    forall c | c in u' ensures UseFits(t', n, u', c) {
      assert UseFits(t, n, u, c);
    }
    forall r', v': nat | IsRoot(n, r') && v' < SPACE ensures LeafOk(d, u', lo, hi, Lookup(t', r', v'), r', v') {
      assert LeafOk(d, u, lo, hi, Lookup(t, r', v'), r', v');
    }
  }

  lemma PartedPop(f: seq<nat>, t: Tables, d: Data, lo: nat, hi: nat, p: Page)
    requires Parted(f, t, d, lo, hi) && f != []
    ensures Parted(f[1..], t, d[f[0] := p], lo, hi) && f[0] !in d && f[0] !in t
  {
    var rest := f[1..];
    assert f == [f[0]] + rest;
    assert forall q :: q in f <==> q == f[0] || q in rest;
    assert forall j :: 0 <= j < |rest| ==> rest[j] == f[j + 1] && rest[j] != f[0];
    assert f[0] !in rest && Distinct(rest);
  }

  lemma PartedPush(f: seq<nat>, t: Tables, d: Data, lo: nat, hi: nat, q: nat)
    requires Parted(f, t, d, lo, hi) && q !in f && lo <= q < hi
    ensures Parted([q] + f, t - {q}, d - {q}, lo, hi)
  {
  }

  /** The physical page q can be mapped: it is a data page with no use yet, or no page of ours. */
  ghost predicate Mappable(d: Data, u: Uses, lo: nat, hi: nat, q: nat) {
    lo <= q < hi ==> q in d && q in u && u[q] == Spare
  }

  /** Pages v .. v + m - 1 of root are mapped to q, q + 1, ...; every other translation is as it was. */
  ghost predicate MapsRange(t: Tables, t': Tables, n: Nodes, root: nat, v: nat, m: nat, q: nat, perm: Perm) {
    && (forall w: nat :: v <= w < v + m ==> Lookup(t', root, w) == Leaf(q + w - v, perm))
    && (forall r, w: nat :: IsRoot(n, r) && w < SPACE && !(r == root && v <= w < v + m) ==>
                              Lookup(t', r, w) == Lookup(t, r, w))
  }

  /** Pages v .. v + m - 1 of root are not mapped any more; every other translation is as it was. */
  ghost predicate ClearsRange(t: Tables, t': Tables, n: Nodes, root: nat, v: nat, m: nat) {
    && (forall w: nat :: v <= w < v + m ==> Lookup(t', root, w) == Invalid)
    && (forall r, w: nat :: IsRoot(n, r) && w < SPACE && !(r == root && v <= w < v + m) ==>
                              Lookup(t', r, w) == Lookup(t, r, w))
  }

  ghost predicate UsedRange(u: Uses, u': Uses, root: nat, v: nat, m: nat, q: nat) {
    && u'.Keys == u.Keys
    && forall p :: p in u ==> u'[p] == if q <= p < q + m then At(root, v + p - q) else u[p]
  }

  /** Page p is one of those mapped at v .. v + m - 1 of root. */
  ghost predicate UsedIn(u: Uses, p: nat, root: nat, v: nat, m: nat) {
    p in u && u[p].At? && u[p].root == root && v <= u[p].v < v + m
  }

  class Memory {
    var freelist: seq<nat>     // kmem.freelist, head first
    var tables: Tables         // contents of the page-table pages
    var data: Data             // contents of the other allocated pages
    ghost var nodes: Nodes     // where each table page hangs
    ghost var uses: Uses       // what each data page is for
    const lo: nat
    const hi: nat

    ghost predicate Ok()
      reads this
    {
      WfTree(tables, nodes) && Parted(freelist, tables, data, lo, hi) && UseOk(tables, nodes, data, uses, lo, hi)
    }

    /** kinit and freerange: every whole page of the range ends up on the free list, once. */
    constructor(start: nat, end: nat)
      ensures lo == PagesOf(start) && hi == end / PGSIZE && |freelist| == if lo < hi then hi - lo else 0
      ensures Ok() && tables == map[] && data == map[] && nodes == map[] && uses == map[]
    {
      lo, hi := PagesOf(start), end / PGSIZE;
      freelist, tables, data, nodes, uses := [], map[], map[], map[], map[];
      new;
      var p := PgRoundUp(start);
      ghost var k := 0;
      while p + PGSIZE <= end
        invariant p == (lo + k) * PGSIZE && lo == PagesOf(start) && hi == end / PGSIZE
        invariant (lo + k <= hi || k == 0) && |freelist| == k
        invariant tables == map[] && data == map[] && nodes == map[] && uses == map[]
        invariant Distinct(freelist) && forall q :: q in freelist <==> lo <= q < lo + k
        decreases end - p
      {
        assert p / PGSIZE == lo + k && lo + k !in freelist;
        freelist := [p / PGSIZE] + freelist;
        p, k := p + PGSIZE, k + 1;
      }
    }

    /** Pops the free list; the page comes back full of fives. */
    method Kalloc() returns (r: Option<nat>)
      requires Ok()
      modifies this
      ensures Ok() && tables == old(tables) && nodes == old(nodes)
      ensures r.None? <==> old(freelist) == []
      ensures r.None? ==> freelist == old(freelist) && data == old(data) && uses == old(uses)
      ensures r.Some? ==> r.value == old(freelist)[0] && freelist == old(freelist)[1..]
      ensures r.Some? ==> r.value !in old(data) && r.value !in tables && lo <= r.value < hi
      ensures r.Some? ==> data == old(data)[r.value := Filled(5)] && uses == old(uses)[r.value := Spare]
    {
      hide Lookup, WfTree, UseOk;
      if freelist == [] { return None; }
      var q := freelist[0];
      PartedPop(freelist, tables, data, lo, hi, Filled(5));
      UseAlloc(tables, nodes, data, uses, lo, hi, q, Filled(5));
      freelist, data, uses := freelist[1..], data[q := Filled(5)], uses[q := Spare];
      r := Some(q);
    }

    /** Frees a data page that nothing maps. */
    method Kfree(q: nat)
      requires Ok() && q in data && q in uses && uses[q] == Spare
      modifies this
      ensures Ok() && tables == old(tables) && nodes == old(nodes)
      ensures freelist == [q] + old(freelist) && data == old(data) - {q} && uses == old(uses) - {q}
    {
      hide Lookup, WfTree, UseOk;
      PartedPush(freelist, tables, data, lo, hi, q);
      UseFree(tables, nodes, data, uses, lo, hi, q);
      assert tables - {q} == tables;
      freelist, data, uses := [q] + freelist, data - {q}, uses - {q};
    }

    /** The level-0 table holding the entry for va, allocating tables on the way if asked to. */
    method Walk(root: nat, va: nat, alloc: bool) returns (r: Option<nat>)
      requires Ok() && IsRoot(nodes, root) && va < MAXPAGES * PGSIZE
      modifies this
      ensures Ok() && SameRoots(old(nodes), nodes) && SameMaps(old(tables), tables, old(nodes))
      ensures data == old(data) && uses == old(uses)
      ensures !alloc ==> tables == old(tables) && nodes == old(nodes) && freelist == old(freelist)
      ensures |freelist| + 2 >= |old(freelist)|
      ensures r.Some? ==> LowTable(tables, root, va / PGSIZE) == Link(r.value) && r.value in tables &&
                          |tables[r.value]| == ENTRIES
      ensures r.None? ==> if alloc then freelist == [] else !LowTable(tables, root, va / PGSIZE).Link?
    {
      hide Lookup, Index, UseOk, Parted;
      ghost var v := va / PGSIZE;
      var q, level := root, 2;
      while level > 0
        invariant 0 <= level <= 2 && |freelist| + 2 - level >= |old(freelist)|
        invariant Ok() && SameRoots(old(nodes), nodes) && SameMaps(old(tables), tables, old(nodes))
        invariant data == old(data) && uses == old(uses)
        invariant !alloc ==> tables == old(tables) && nodes == old(nodes) && freelist == old(freelist)
        invariant IsRoot(nodes, root) && q in tables && nodes[q].level == level
        invariant level == 2 ==> q == root
        invariant level == 1 ==> Entry(tables, root, Index(2, v)) == Link(q)
        invariant level == 0 ==> LowTable(tables, root, v) == Link(q)
      {
        PxIsIndex(level, va);
        var i := Px(level, va);
        assert NodeOk(tables, nodes, q) && EntryOk(tables, nodes, q, i);
        if tables[q][i].Link? {
          q := tables[q][i].ppn;
        } else {
          if !alloc { return None; }
          var c := LinkNew(q, i);
          if c.None? { return None; }
          q := c.value;
        }
        level := level - 1;
      }
      assert NodeOk(tables, nodes, q);
      r := Some(q);
    }

    /** walk's allocating branch: a zeroed page is linked in. */
    method LinkNew(q: nat, i: nat) returns (r: Option<nat>)
      requires Ok() && q in tables && nodes[q].level > 0 && i < ENTRIES && Entry(tables, q, i) == Invalid
      modifies this
      ensures Ok() && SameRoots(old(nodes), nodes) && SameMaps(old(tables), tables, old(nodes))
      ensures data == old(data) && uses == old(uses)
      ensures r.Some? ==> |freelist| + 1 == |old(freelist)|
      ensures r.None? ==> freelist == old(freelist) == [] && tables == old(tables) && nodes == old(nodes)
      ensures r.Some? ==> r.value in tables &&
                          nodes == old(nodes)[r.value := Node(old(nodes)[q].level - 1, old(nodes)[q].root, q, i)]
      ensures r.Some? ==>
                forall p, j :: Entry(tables, p, j) ==
                               if p == r.value then Invalid
                               else if p == q && j == i then Link(r.value)
                               else Entry(old(tables), p, j)
    {
      hide Lookup, UseOk, Parted, WfTree;
      ghost var t, n, d, u, f := tables, nodes, data, uses, freelist;
      r := Kalloc();
      if r.None? { return; }
      var c := r.value;
      NodeOf(t, n, q);
      tables := Put(tables, q, i, Link(c))[c := EmptyTable()];
      data, uses := data - {c}, uses - {c};
      nodes := nodes[c := Node(nodes[q].level - 1, nodes[q].root, q, i)];
      assert c !in u by { UseKeys(t, n, d, u, lo, hi); }
      assert data == d && uses == u;
      NewTable(t, n, q, i, c, tables, nodes);
      PartedTake(f, t, tables, d, lo, hi);
      UseTablesGrow(t, n, tables, nodes, d, u, lo, hi);
    }

    /** The physical page of a user address, if it is mapped and user-accessible. */
    method Walkaddr(root: nat, va: nat) returns (r: Option<nat>)
      requires Ok() && IsRoot(nodes, root)
      modifies this
      ensures Ok() && tables == old(tables) && nodes == old(nodes) && freelist == old(freelist) && data == old(data) &&
              uses == old(uses)
      ensures var e := Lookup(tables, root, va / PGSIZE);
        r == if va < MAXPAGES * PGSIZE && e.Leaf? && e.perm.u then Some(e.ppn) else None
    {
      if va >= MAXPAGES * PGSIZE { return None; }
      var e := Fetch(root, va);
      r := if e.Leaf? && e.perm.u then Some(e.ppn) else None;
    }

    /** One turn of mappages' loop. */
    method MapPage(root: nat, a: nat, q: nat, perm: Perm) returns (ok: bool)
      requires Ok() && IsRoot(nodes, root) && a < MAXPAGES * PGSIZE && Proper(Leaf(q, perm)) &&
               Mappable(data, uses, lo, hi, q)
      requires Lookup(tables, root, a / PGSIZE) == Invalid
      modifies this
      ensures Ok() && SameRoots(old(nodes), nodes) && data == old(data)
      ensures |freelist| + 2 >= |old(freelist)|
      ensures ok ==> OnlyAt(old(tables), tables, nodes, root, a / PGSIZE, Leaf(q, perm))
      ensures ok ==> uses == if q in data then old(uses)[q := At(root, a / PGSIZE)] else old(uses)
      ensures !ok ==> freelist == [] && SameMaps(old(tables), tables, nodes) && uses == old(uses)
    {
      hide Lookup, Index, UseOk, Parted, WfTree;
      ghost var v := a / PGSIZE;
      var low := Walk(root, a, true);
      if low.None? { return false; }
      ghost var t := tables;
      PxIsIndex(0, a);
      LookupOf(t, root, v);
      tables := Put(tables, low.value, Px(0, a), Leaf(q, perm));
      SetLeaf(t, nodes, root, v, Leaf(q, perm), tables);
      DataInRange(freelist, t, data, lo, hi);
      UseMap(t, tables, nodes, data, uses, lo, hi, root, v, q, perm);
      PartedKeys(freelist, t, tables, data, lo, hi);
      uses := if q in data then uses[q := At(root, v)] else uses;
      ok := true;
    }

    /** Maps every page that [va, va + size) touches. On failure the pages before the failing one stay mapped. */
    method Mappages(root: nat, va: nat, size: nat, pa: nat, perm: Perm) returns (ok: bool, ghost done: nat)
      requires Ok() && IsRoot(nodes, root) && size > 0 && va + size <= MAXPAGES * PGSIZE && Proper(Leaf(0, perm))
      requires forall w: nat :: va / PGSIZE <= w <= (va + size - 1) / PGSIZE ==> Lookup(tables, root, w) == Invalid
      requires forall w: nat :: pa / PGSIZE <= w <= pa / PGSIZE + (va + size - 1) / PGSIZE - va / PGSIZE ==>
                                  Mappable(data, uses, lo, hi, w)
      modifies this
      ensures Ok() && SameRoots(old(nodes), nodes) && data == old(data)
      ensures MapsRange(old(tables), tables, old(nodes), root, va / PGSIZE, done, pa / PGSIZE, perm)
      ensures UsedRange(old(uses), uses, root, va / PGSIZE, done, pa / PGSIZE)
      ensures |freelist| + 2 * done + (if ok then 0 else 2) >= |old(freelist)|
      ensures if ok then done == (va + size - 1) / PGSIZE - va / PGSIZE + 1
              else freelist == [] && done <= (va + size - 1) / PGSIZE - va / PGSIZE
    {
      hide Lookup, WfTree, Parted, UseOk;
      var a, last, p := va / PGSIZE * PGSIZE, (va + size - 1) / PGSIZE * PGSIZE, pa;
      done := 0;
      while true
        invariant a == (va / PGSIZE + done) * PGSIZE && a <= last && p == pa + done * PGSIZE
        invariant Ok() && SameRoots(old(nodes), nodes) && data == old(data)
        invariant MapsRange(old(tables), tables, old(nodes), root, va / PGSIZE, done, pa / PGSIZE, perm)
        invariant UsedRange(old(uses), uses, root, va / PGSIZE, done, pa / PGSIZE)
        invariant |freelist| + 2 * done >= |old(freelist)|
        decreases last - a
      {
        assert a / PGSIZE == va / PGSIZE + done && p / PGSIZE == pa / PGSIZE + done;
        UseKeys(tables, nodes, data, uses, lo, hi);
        assert Mappable(data, old(uses), lo, hi, p / PGSIZE);
        ok := MapPage(root, a, p / PGSIZE, perm);
        if !ok { return; }
        done := done + 1;
        if a == last { return; }
        a, p := a + PGSIZE, p + PGSIZE;
      }
    }

    /** One turn of uvmunmap's loop. */
    method UnmapPage(root: nat, a: nat, doFree: bool)
      requires Ok() && IsRoot(nodes, root) && a < MAXPAGES * PGSIZE && Lookup(tables, root, a / PGSIZE).Leaf?
      requires doFree ==> Lookup(tables, root, a / PGSIZE).ppn in data
      modifies this
      ensures Ok() && nodes == old(nodes) && OnlyAt(old(tables), tables, nodes, root, a / PGSIZE, Invalid)
      ensures var q := old(Lookup(tables, root, a / PGSIZE)).ppn;
        && (doFree ==> data == old(data) - {q} && uses == old(uses) - {q})
        && (!doFree ==> data == old(data) && uses == if q in data then old(uses)[q := Spare] else old(uses))
    {
      hide Lookup, Index, UseOk, Parted, WfTree;
      ghost var v, t := a / PGSIZE, tables;
      LookupOf(t, root, v);
      var low := Walk(root, a, false);
      assert low.Some? by { UnmappedWithoutTable(t, root, v); }
      PxIsIndex(0, a);
      var q := tables[low.value][Px(0, a)].ppn;
      tables := Put(tables, low.value, Px(0, a), Invalid);
      SetLeaf(t, nodes, root, v, Invalid, tables);
      DataInRange(freelist, t, data, lo, hi);
      UseKeys(t, nodes, data, uses, lo, hi);
      UseUnmap(t, tables, nodes, data, uses, lo, hi, root, v, q);
      PartedKeys(freelist, t, tables, data, lo, hi);
      ghost var u := uses;
      uses := if q in data then uses[q := Spare] else uses;
      if doFree {
        Kfree(q);
        assert uses == u - {q};
      }
    }

    /** Unmaps npages pages from va on; with doFree their data pages go back to the free list. */
    method Uvmunmap(root: nat, va: nat, npages: nat, doFree: bool)
      requires Ok() && IsRoot(nodes, root) && va % PGSIZE == 0 && va / PGSIZE + npages <= MAXPAGES
      requires forall w: nat :: va / PGSIZE <= w < va / PGSIZE + npages ==>
                                  Lookup(tables, root, w).Leaf? && (doFree ==> Lookup(tables, root, w).ppn in data)
      modifies this
      ensures Ok() && nodes == old(nodes) && ClearsRange(old(tables), tables, nodes, root, va / PGSIZE, npages)
      ensures doFree ==> Released(old(data), old(uses), data, uses, root, va / PGSIZE, npages)
      ensures !doFree ==> data == old(data) && Idled(old(uses), uses, root, va / PGSIZE, npages)
    {
      hide Lookup, WfTree, Parted, UseOk;
      var a := va;
      ghost var v, m := va / PGSIZE, 0;
      UseKeys(tables, nodes, data, uses, lo, hi);
      ReleasedNone(data, uses, root, v);
      while a < va + npages * PGSIZE
        invariant 0 <= m <= npages && a == va + m * PGSIZE
        invariant Ok() && nodes == old(nodes) && ClearsRange(old(tables), tables, nodes, root, v, m)
        invariant doFree ==> Released(old(data), old(uses), data, uses, root, v, m)
        invariant !doFree ==> data == old(data) && Idled(old(uses), uses, root, v, m)
        decreases npages - m
      {
        assert a / PGSIZE == v + m;
        OneUser(old(tables), old(nodes), old(data), old(uses), lo, hi, root, v + m);
        DataInRange(old(freelist), old(tables), old(data), lo, hi);
        ghost var q := Lookup(tables, root, v + m).ppn;
        assert doFree ==> q in data;
        UnmapPage(root, a, doFree);
        a, m := a + PGSIZE, m + 1;
      }
    }

    /** An empty address space. */
    method Uvmcreate() returns (r: Option<nat>)
      requires Ok()
      modifies this
      ensures Ok() && data == old(data) && uses == old(uses)
      ensures r.Some? ==> |freelist| + 1 == |old(freelist)|
      ensures r.None? ==> freelist == old(freelist) == [] && tables == old(tables) && nodes == old(nodes)
      ensures r.Some? ==> r.value !in old(nodes) && nodes == old(nodes)[r.value := Node(2, r.value, r.value, 0)]
      ensures r.Some? ==> SameMaps(old(tables), tables, old(nodes)) &&
                          forall v: nat :: Lookup(tables, r.value, v) == Invalid
    {
      hide Lookup, UseOk, Parted, WfTree;
      ghost var t, n, d, u, f := tables, nodes, data, uses, freelist;
      r := Kalloc();
      if r.None? { return; }
      var c := r.value;
      tables := tables[c := EmptyTable()];
      data, uses := data - {c}, uses - {c};
      nodes := nodes[c := Node(2, c, c, 0)];
      UseKeys(t, n, d, u, lo, hi);
      TreeKeys(t, n);
      assert data == d && uses == u;
      NewRoot(t, n, c, tables, nodes);
      PartedTake(f, t, tables, d, lo, hi);
      UseNewRoot(t, n, tables, nodes, c, d, u, lo, hi);
    }

    /** Shrinks user memory; newsz need not be smaller. */
    method Uvmdealloc(root: nat, oldsz: nat, newsz: nat) returns (r: nat)
      requires Ok() && IsRoot(nodes, root) && PagesOf(oldsz) <= MAXPAGES
      requires forall w: nat :: PagesOf(newsz) <= w < PagesOf(oldsz) ==>
                                  Lookup(tables, root, w).Leaf? && Lookup(tables, root, w).ppn in data
      modifies this
      ensures Ok() && nodes == old(nodes) && r == if newsz >= oldsz then oldsz else newsz
      ensures var m := if PagesOf(newsz) < PagesOf(oldsz) then PagesOf(oldsz) - PagesOf(newsz) else 0;
        && ClearsRange(old(tables), tables, nodes, root, PagesOf(newsz), m)
        && Released(old(data), old(uses), data, uses, root, PagesOf(newsz), m)
    {
      hide Lookup, WfTree, Parted, UseOk;
      UseKeys(tables, nodes, data, uses, lo, hi);
      ReleasedNone(data, uses, root, PagesOf(newsz));
      if newsz >= oldsz { return oldsz; }
      if PgRoundUp(newsz) < PgRoundUp(oldsz) {
        var npages := (PgRoundUp(oldsz) - PgRoundUp(newsz)) / PGSIZE;
        Uvmunmap(root, PgRoundUp(newsz), npages, true);
      }
      return newsz;
    }

    /** kalloc, fill, mappages, and kfree again if mappages fails. */
    method AddPage(root: nat, a: nat, page: Page, perm: Perm) returns (ok: bool, ghost q: nat)
      requires Ok() && IsRoot(nodes, root) && a < MAXPAGES * PGSIZE && a % PGSIZE == 0 && Proper(Leaf(0, perm))
      requires Lookup(tables, root, a / PGSIZE) == Invalid
      modifies this
      ensures Ok() && SameRoots(old(nodes), nodes)
      ensures if ok then |freelist| + 3 >= |old(freelist)| else |old(freelist)| <= 3
      ensures ok ==> OnlyAt(old(tables), tables, nodes, root, a / PGSIZE, Leaf(q, perm)) && q !in old(data)
      ensures ok ==> data == old(data)[q := page] && uses == old(uses)[q := At(root, a / PGSIZE)]
      ensures !ok ==> SameMaps(old(tables), tables, nodes) && data == old(data) && uses == old(uses)
    {
      hide Lookup, WfTree, Parted, UseOk, MapsRange, UsedRange;
      UseKeys(tables, nodes, data, uses, lo, hi);
      q := 0;
      var mem := Kalloc();
      if mem.None? { return false, 0; }
      q := mem.value;
      UseWritten(tables, nodes, data, uses, lo, hi, q, page);
      PartedWritten(freelist, tables, data, lo, hi, q, page);
      data := data[mem.value := page];
      ghost var u := uses;
      ghost var done;
      ghost var t, n := tables, nodes;
      ok, done := Mappages(root, a, PGSIZE, mem.value * PGSIZE, perm);
      MapsOne(t, tables, n, nodes, u, uses, root, a / PGSIZE, done, q, perm);
      if ok { return; }
      Kfree(mem.value);
      assert data == old(data) && uses == old(uses);
    }

    /** Grows user memory with zeroed pages; on failure nothing stays mapped or allocated. */
    method Uvmalloc(root: nat, oldsz: nat, newsz: nat) returns (r: nat)
      requires Ok() && IsRoot(nodes, root) && PagesOf(newsz) <= MAXPAGES
      requires forall w: nat :: PagesOf(oldsz) <= w < PagesOf(newsz) ==> Lookup(tables, root, w) == Invalid
      modifies this
      ensures Ok() && SameRoots(old(nodes), nodes)
      ensures newsz < oldsz ==> r == oldsz && tables == old(tables) && data == old(data) && uses == old(uses)
      ensures newsz >= oldsz ==> r == newsz || r == 0
      ensures newsz >= oldsz && r == 0 < newsz ==> |old(freelist)| <= 3 * Pages(oldsz, newsz)
      ensures newsz >= oldsz && r == newsz && newsz > 0 ==>
        && Extends(old(tables), tables, nodes, old(data), data, old(uses), uses, root, PagesOf(oldsz),
                   Pages(oldsz, newsz))
        && Zeroed(tables, data, root, PagesOf(oldsz), Pages(oldsz, newsz))
      ensures newsz >= oldsz && r == 0 && newsz > 0 ==>
                SameMaps(old(tables), tables, old(nodes)) && data == old(data) && uses == old(uses)
    {
      hide Lookup, WfTree, Parted, UseOk, Extends, Zeroed, OnlyAt;
      if newsz < oldsz { return oldsz; }
      UseKeys(tables, nodes, data, uses, lo, hi);
      var base := PgRoundUp(oldsz);
      var a := base;
      ghost var v, m, total := PagesOf(oldsz), 0, Pages(oldsz, newsz);
      ghost var t0, n0, d0, u0 := tables, nodes, data, uses;
      ExtendNone(t0, n0, d0, u0, root, v);
      while a < newsz
        invariant a == base + m * PGSIZE && (m < total <==> a < newsz) && m <= total
        invariant Ok() && SameRoots(n0, nodes)
        invariant Extends(t0, tables, nodes, d0, data, u0, uses, root, v, m)
        invariant Zeroed(tables, data, root, v, m)
        invariant |freelist| + 3 * m >= |old(freelist)|
        decreases newsz - a
      {
        assert a / PGSIZE == v + m && a % PGSIZE == 0;
        ghost var t1, n1, d1, u1 := tables, nodes, data, uses;
        ExtendBeyond(t0, t1, n1, d0, d1, u0, u1, root, v, m);
        var ok; ghost var q;
        ok, q := AddPage(root, a, Filled(0), USER);
        if !ok {
          ExtendStays(t0, t1, tables, n1, nodes, d0, d1, u0, u1, root, v, m);
          ghost var t2 := tables;
          assert PagesOf(a) == v + m && PagesOf(base) == v;
          var _ := Uvmdealloc(root, a, base);
          ExtendUndone(t0, t2, tables, n0, nodes, d0, d1, data, u0, u1, uses, root, v, m, lo, hi);
          return 0;
        }
        ExtendOne(t0, t1, tables, n1, nodes, d0, d1, u0, u1, root, v, m, q, Filled(0), USER);
        ZeroOne(t1, tables, nodes, d1, root, v, m, q);
        a, m := a + PGSIZE, m + 1;
      }
      return newsz;
    }

    /** Copies the pages of the first sz bytes of one address space into another, with their permissions. */
    method Uvmcopy(from: nat, to: nat, sz: nat) returns (ok: bool)
      requires Ok() && IsRoot(nodes, from) && IsRoot(nodes, to) && from != to && PagesOf(sz) <= MAXPAGES
      requires forall w: nat :: w < PagesOf(sz) ==> Lookup(tables, from, w).Leaf? && Lookup(tables, from, w).ppn in data
      requires forall w: nat :: w < PagesOf(sz) ==> Lookup(tables, to, w) == Invalid
      modifies this
      ensures Ok() && SameRoots(old(nodes), nodes)
      ensures !ok ==> |old(freelist)| <= 3 * PagesOf(sz)
      ensures ok ==> Extends(old(tables), tables, nodes, old(data), data, old(uses), uses, to, 0, PagesOf(sz))
      ensures ok ==> Copied(tables, data, from, to, PagesOf(sz))
      ensures !ok ==> SameMaps(old(tables), tables, old(nodes)) && data == old(data) && uses == old(uses)
    {
      hide Lookup, WfTree, Parted, UseOk, Extends, Copied, OnlyAt;
      UseKeys(tables, nodes, data, uses, lo, hi);
      var i := 0;
      ghost var m := 0;
      ghost var t0, n0, d0, u0 := tables, nodes, data, uses;
      ExtendNone(t0, n0, d0, u0, to, 0);
      CopyNone(t0, d0, from, to);
      while i < sz
        invariant i == m * PGSIZE && (m < PagesOf(sz) <==> i < sz) && m <= PagesOf(sz)
        invariant Ok() && SameRoots(n0, nodes)
        invariant Extends(t0, tables, nodes, d0, data, u0, uses, to, 0, m)
        invariant Copied(tables, data, from, to, m)
        invariant |freelist| + 3 * m >= |old(freelist)|
        decreases sz - i
      {
        assert i / PGSIZE == m && i % PGSIZE == 0;
        ghost var t1, n1, d1, u1 := tables, nodes, data, uses;
        ExtendBeyond(t0, t1, n1, d0, d1, u0, u1, to, 0, m);
        ExtendSource(t0, t1, n1, d0, d1, u0, u1, to, m, from, m);
        var pte := Fetch(from, i);
        EntryProper(t1, n1, d1, u1, lo, hi, from, m);
        var copied; ghost var q;
        copied, q := AddPage(to, i, data[pte.ppn], pte.perm);
        if !copied {
          ExtendStays(t0, t1, tables, n1, nodes, d0, d1, u0, u1, to, 0, m);
          ghost var t2 := tables;
          Uvmunmap(to, 0, i / PGSIZE, true);
          ExtendUndone(t0, t2, tables, n0, nodes, d0, d1, data, u0, u1, uses, to, 0, m, lo, hi);
          return false;
        }
        ExtendOne(t0, t1, tables, n1, nodes, d0, d1, u0, u1, to, 0, m, q, d1[pte.ppn], pte.perm);
        CopyOne(t1, tables, nodes, d1, from, to, m, q);
        i, m := i + PGSIZE, m + 1;
      }
      ok := true;
    }

    /** walk without allocation, and the entry it points at. */
    method Fetch(root: nat, va: nat) returns (e: Pte)
      requires Ok() && IsRoot(nodes, root) && va < MAXPAGES * PGSIZE
      modifies this
      ensures Ok() && tables == old(tables) && nodes == old(nodes) && freelist == old(freelist) && data == old(data) &&
              uses == old(uses)
      ensures e == Lookup(tables, root, va / PGSIZE)
    {
      LookupOf(tables, root, va / PGSIZE);
      UnmappedWithoutTable(tables, root, va / PGSIZE);
      hide Lookup, UseOk, Parted, WfTree, Index;
      var low := Walk(root, va, false);
      if low.None? { return Invalid; }
      PxIsIndex(0, va);
      e := tables[low.value][Px(0, va)];
    }

    /** Frees the tables below q, clearing q's entries on the way, and then q. t and n are the tree as it was
        when freeing began; only q's subtree need still be as it was. */
    method Freewalk(q: nat, ghost t: Tables, ghost n: Nodes)
      requires WfTree(t, n) && q in t && Parted(freelist, tables, data, lo, hi)
      requires forall c :: Below(n, c, q) ==> c in tables && tables[c] == t[c]
      requires forall c, i :: Below(n, c, q) ==> !Entry(t, c, i).Leaf?
      modifies this`freelist, this`tables
      ensures Parted(freelist, tables, data, lo, hi)
      ensures forall c :: c in tables <==> c in old(tables) && !Below(n, c, q)
      ensures forall c :: c in tables ==> tables[c] == old(tables)[c]
      decreases if q in n then n[q].level else 0
    {
      hide Parted, WfTree, NodeOk, EntryOk;
      FreeStart(t, n, q);
      var i := 0;
      while i < ENTRIES
        invariant 0 <= i <= ENTRIES && Parted(freelist, tables, data, lo, hi)
        invariant q in tables && |tables[q]| == ENTRIES && forall j :: i <= j < ENTRIES ==> tables[q][j] == t[q][j]
        invariant forall c :: c in tables <==> c in old(tables) && !FreedBy(n, c, q, i)
        invariant forall c :: c in tables && c != q ==> tables[c] == old(tables)[c]
      {
        var pte := tables[q][i];
        assert pte == Entry(t, q, i);
        if pte.Link? {
          ChildOf(t, n, q, i);
          forall c ensures Below(n, c, pte.ppn) <==> Below(n, c, q) && c != q && Branch(n, c, q) == i {
            if c in n { BranchOf(t, n, c, q, i); }
          }
          Freewalk(pte.ppn, t, n);
          ghost var t1 := tables;
          tables := Put(tables, q, i, Invalid);
          PartedKeys(freelist, t1, tables, data, lo, hi);
        } else {
          assert !pte.Leaf?;
          NoBranch(t, n, q, i);
        }
        i := i + 1;
      }
      FreeEnd(t, n, q);
      ghost var t1, f1 := tables, freelist;
      FreeAllocated(freelist, tables, data, lo, hi, q);
      PartedPush(freelist, tables, data, lo, hi, q);
      assert data - {q} == data;
      freelist, tables := [q] + freelist, tables - {q};
    }

    /** Frees the first sz bytes of user memory, and then every table of the address space. */
    method Uvmfree(root: nat, sz: nat)
      requires Ok() && IsRoot(nodes, root) && PagesOf(sz) <= MAXPAGES
      requires forall w: nat :: w < PagesOf(sz) ==> Lookup(tables, root, w).Leaf? && Lookup(tables, root, w).ppn in data
      requires forall w: nat :: PagesOf(sz) <= w < SPACE ==> !Lookup(tables, root, w).Leaf?
      modifies this
      ensures Ok() && Dropped(old(nodes), nodes, root) && SameMaps(old(tables), tables, nodes)
      ensures Released(old(data), old(uses), data, uses, root, 0, PagesOf(sz))
    {
      hide Lookup, UseOk, Parted, WfTree, Below, ClearsRange;
      UseKeys(tables, nodes, data, uses, lo, hi);
      ReleasedNone(data, uses, root, 0);
      ClearsNone(tables, nodes, root, 0);
      if sz > 0 {
        Uvmunmap(root, 0, PgRoundUp(sz) / PGSIZE, true);
      }
      ghost var t, n := tables, nodes;
      assert PagesOf(sz) == PgRoundUp(sz) / PGSIZE && (sz == 0 ==> PagesOf(sz) == 0);
      ClearsAll(old(tables), t, n, root, PagesOf(sz));
      AllBelow(t, n, root);
      Freewalk(root, t, n);
      nodes := map c | c in n && n[c].root != root :: n[c];
      DropRoot(t, n, root, tables, nodes);
      UseDropRoot(t, n, tables, nodes, data, uses, lo, hi, root);
      SameAfterDrop(old(tables), t, tables, n, nodes, root, PagesOf(sz));
    }

    /** Every user-accessible page of root is one of our data pages. */
    ghost predicate UserPagesOurs(root: nat)
      reads this
    {
      forall v: nat :: v < MAXPAGES && Lookup(tables, root, v).Leaf? && Lookup(tables, root, v).perm.u ==>
                         Lookup(tables, root, v).ppn in data
    }

    /** Writes src to user memory at dstva, page by page. */
    method Copyout(root: nat, dstva: nat, src: seq<int>) returns (ok: bool, ghost done: nat)
      requires Ok() && IsRoot(nodes, root) && UserPagesOurs(root)
      modifies this
      ensures Ok() && tables == old(tables) && nodes == old(nodes) && uses == old(uses) && freelist == old(freelist)
      ensures Wrote(tables, old(data), data, nodes, root, dstva, src, done)
      ensures if ok then done == |src| else done < |src| && UserByte(tables, data, root, dstva + done).None?
    {
      hide WfTree, Parted, UseOk, Lookup, Wrote, UserByte;
      var va, i := dstva, 0;
      done := 0;
      WroteNone(tables, data, nodes, root, dstva, src);
      while i < |src|
        invariant 0 <= i <= |src| && (i < |src| ==> va == dstva + i) && done == i
        invariant Ok() && tables == old(tables) && nodes == old(nodes) && uses == old(uses) && freelist == old(freelist)
        invariant UserPagesOurs(root) && data.Keys == old(data).Keys
        invariant Wrote(tables, old(data), data, nodes, root, dstva, src, i)
      {
        var va0 := va / PGSIZE * PGSIZE;
        var pa0 := Walkaddr(root, va0);
        assert va0 / PGSIZE == va / PGSIZE && va - va0 == va % PGSIZE;
        if pa0.None? {
          NoByte(tables, data, root, va);
          return false, i;
        }
        var n := PGSIZE - (va - va0);
        if n > |src| - i { n := |src| - i; }
        var q, off, page := pa0.value, va - va0, data[pa0.value];
        ghost var d := data;
        UseWritten(tables, nodes, data, uses, lo, hi, q, Splice(page, off, src[i..i + n]));
        PartedWritten(freelist, tables, data, lo, hi, q, Splice(page, off, src[i..i + n]));
        DataInRange(freelist, tables, data, lo, hi);
        data := data[q := Splice(page, off, src[i..i + n])];
        BytesWritten(tables, nodes, d, uses, lo, hi, root, va, src[i..i + n], data);
        WroteMore(tables, old(data), d, data, nodes, root, dstva, src, i, n);
        i, va, done := i + n, va0 + PGSIZE, i + n;
      }
      ok := true;
    }

    /** Reads len bytes of user memory at srcva, page by page. */
    method Copyin(root: nat, srcva: nat, len: nat) returns (ok: bool, dst: seq<int>)
      requires Ok() && IsRoot(nodes, root) && UserPagesOurs(root)
      modifies this
      ensures Ok() && tables == old(tables) && nodes == old(nodes) && uses == old(uses) && freelist == old(freelist) &&
              data == old(data)
      ensures |dst| <= len && forall k :: 0 <= k < |dst| ==> UserByte(tables, data, root, srcva + k) == Some(dst[k])
      ensures if ok then |dst| == len else |dst| < len && UserByte(tables, data, root, srcva + |dst|).None?
    {
      hide WfTree, Parted, UseOk, Lookup, UserByte;
      var va := srcva;
      dst := [];
      while |dst| < len
        invariant |dst| <= len && (|dst| < len ==> va == srcva + |dst|)
        invariant Ok() && tables == old(tables) && nodes == old(nodes) && uses == old(uses) &&
                  freelist == old(freelist) && data == old(data)
        invariant UserPagesOurs(root)
        invariant forall k :: 0 <= k < |dst| ==> UserByte(tables, data, root, srcva + k) == Some(dst[k])
        decreases len - |dst|
      {
        var va0 := va / PGSIZE * PGSIZE;
        var pa0 := Walkaddr(root, va0);
        assert va0 / PGSIZE == va / PGSIZE && va - va0 == va % PGSIZE;
        if pa0.None? {
          NoByte(tables, data, root, va);
          return false, dst;
        }
        var n := PGSIZE - (va - va0);
        if n > len - |dst| { n := len - |dst|; }
        BytesRead(tables, data, root, va, n);
        dst := dst + data[pa0.value][va - va0..va - va0 + n];
        va := va0 + PGSIZE;
      }
      ok := true;
    }
  }

  lemma UseKeys(t: Tables, n: Nodes, d: Data, u: Uses, lo: nat, hi: nat)
    requires UseOk(t, n, d, u, lo, hi)
    ensures u.Keys == d.Keys
  {
  }

  lemma NodeOf(t: Tables, n: Nodes, q: nat)
    requires WfTree(t, n) && q in t
    ensures q in n && |t[q]| == ENTRIES && n[q].level < 3
  {
    assert NodeOk(t, n, q);
  }

  lemma PartedTake(f: seq<nat>, t: Tables, t': Tables, d: Data, lo: nat, hi: nat)
    requires Parted(f, t, d, lo, hi) && f != [] && t'.Keys == t.Keys + {f[0]}
    ensures Parted(f[1..], t', d, lo, hi)
  {
    assert f == [f[0]] + f[1..];
  }

  lemma LookupOf(t: Tables, root: nat, v: nat)
    ensures LowTable(t, root, v).Link? ==> Lookup(t, root, v) == Entry(t, LowTable(t, root, v).ppn, Index(0, v))
  {
  }

  lemma DataInRange(f: seq<nat>, t: Tables, d: Data, lo: nat, hi: nat)
    requires Parted(f, t, d, lo, hi)
    ensures forall q :: q in d ==> lo <= q < hi
  {
  }

  lemma PartedKeys(f: seq<nat>, t: Tables, t': Tables, d: Data, lo: nat, hi: nat)
    requires Parted(f, t, d, lo, hi) && t'.Keys == t.Keys
    ensures Parted(f, t', d, lo, hi)
  {
  }

  lemma UnmappedWithoutTable(t: Tables, root: nat, v: nat)
    ensures Lookup(t, root, v) != Invalid ==> LowTable(t, root, v).Link?
  {
  }

  /** Exactly the pages mapped at v .. v + m - 1 of root are gone. */
  ghost predicate Released(d: Data, u: Uses, d': Data, u': Uses, root: nat, v: nat, m: nat) {
    && u.Keys == d.Keys && u'.Keys == d'.Keys
    && (forall p :: p in d' <==> p in d && !UsedIn(u, p, root, v, m))
    && (forall p :: p in d' ==> d'[p] == d[p] && u'[p] == u[p])
  }

  /** Exactly the pages mapped at v .. v + m - 1 of root have lost their use. */
  ghost predicate Idled(u: Uses, u': Uses, root: nat, v: nat, m: nat) {
    && u'.Keys == u.Keys
    && forall p :: p in u ==> u'[p] == if UsedIn(u, p, root, v, m) then Spare else u[p]
  }

  lemma ReleasedNone(d: Data, u: Uses, root: nat, v: nat)
    ensures u.Keys == d.Keys ==> Released(d, u, d, u, root, v, 0) && Idled(u, u, root, v, 0)
  {
  }

  /** The page mapped at w is the only one whose use is w. */
  lemma OneUser(t: Tables, n: Nodes, d: Data, u: Uses, lo: nat, hi: nat, root: nat, w: nat)
    requires UseOk(t, n, d, u, lo, hi) && IsRoot(n, root) && w < SPACE && Lookup(t, root, w).Leaf?
    ensures u.Keys == d.Keys
    ensures var q := Lookup(t, root, w).ppn; lo <= q < hi ==> q in u && u[q] == At(root, w)
    ensures forall p :: p in u && u[p] == At(root, w) ==> p == Lookup(t, root, w).ppn
  {
    hide Lookup;
    assert LeafOk(d, u, lo, hi, Lookup(t, root, w), root, w);
    forall p | p in u && u[p] == At(root, w) ensures p == Lookup(t, root, w).ppn { assert UseFits(t, n, u, p); }
  }

  lemma TreeKeys(t: Tables, n: Nodes)
    requires WfTree(t, n)
    ensures t.Keys == n.Keys
  {
  }

  lemma UseNewRoot(t: Tables, n: Nodes, t': Tables, n': Nodes, q: nat, d: Data, u: Uses, lo: nat, hi: nat)
    requires UseOk(t, n, d, u, lo, hi) && SameMaps(t, t', n) && q !in n && n' == n[q := Node(2, q, q, 0)]
    requires forall v: nat :: Lookup(t', q, v) == Invalid
    ensures UseOk(t', n', d, u, lo, hi)
  {
    hide Lookup;
    forall c | c in u ensures UseFits(t', n', u, c) { assert UseFits(t, n, u, c); }
    forall r, v: nat | IsRoot(n', r) && v < SPACE ensures LeafOk(d, u, lo, hi, Lookup(t', r, v), r, v) {
      if r != q { assert IsRoot(n, r) && LeafOk(d, u, lo, hi, Lookup(t, r, v), r, v); }
    }
  }

  const USER := Perm(true, true, true, true)

  lemma UseWritten(t: Tables, n: Nodes, d: Data, u: Uses, lo: nat, hi: nat, q: nat, p: Page)
    requires UseOk(t, n, d, u, lo, hi) && q in d
    ensures UseOk(t, n, d[q := p], u, lo, hi)
  {
    hide Lookup;
    forall r, v: nat | IsRoot(n, r) && v < SPACE ensures LeafOk(d[q := p], u, lo, hi, Lookup(t, r, v), r, v) {
      assert LeafOk(d, u, lo, hi, Lookup(t, r, v), r, v);
    }
  }

  lemma PartedWritten(f: seq<nat>, t: Tables, d: Data, lo: nat, hi: nat, q: nat, p: Page)
    requires Parted(f, t, d, lo, hi) && q in d
    ensures Parted(f, t, d[q := p], lo, hi)
  {
  }

  function Pages(oldsz: nat, newsz: nat): (m: nat) {
    if PagesOf(oldsz) < PagesOf(newsz) then PagesOf(newsz) - PagesOf(oldsz) else 0
  }

  /** Pages v .. v + m - 1 of root were added, each on a newly allocated page; nothing else changed. */
  ghost predicate Extends(t: Tables, t': Tables, n: Nodes, d: Data, d': Data, u: Uses, u': Uses, root: nat, v: nat,
                          m: nat)
  {
    && u.Keys == d.Keys && u'.Keys == d'.Keys
    && (forall w: nat :: v <= w < v + m ==>
                           Lookup(t', root, w).Leaf? && Lookup(t', root, w).ppn in d' && Lookup(t', root, w).ppn !in d)
    && (forall r, w: nat :: IsRoot(n, r) && w < SPACE && !(r == root && v <= w < v + m) ==>
                              Lookup(t', r, w) == Lookup(t, r, w))
    && (forall p :: p in d ==> p in d' && d'[p] == d[p] && u'[p] == u[p])
    && (forall p :: p in d' && p !in d ==> UsedIn(u', p, root, v, m))
  }

  /** The added pages are user pages full of zeroes. */
  ghost predicate Zeroed(t: Tables, d: Data, root: nat, v: nat, m: nat) {
    forall w: nat :: v <= w < v + m ==>
      var e := Lookup(t, root, w); e.Leaf? && e.perm == USER && e.ppn in d && d[e.ppn] == Filled(0)
  }

  lemma ExtendNone(t: Tables, n: Nodes, d: Data, u: Uses, root: nat, v: nat)
    requires u.Keys == d.Keys
    ensures Extends(t, t, n, d, d, u, u, root, v, 0) && Zeroed(t, d, root, v, 0)
  {
  }

  lemma ExtendBeyond(t0: Tables, t: Tables, n: Nodes, d0: Data, d: Data, u0: Uses, u: Uses, root: nat, v: nat, m: nat)
    requires Extends(t0, t, n, d0, d, u0, u, root, v, m) && IsRoot(n, root)
    ensures forall w: nat :: v + m <= w < SPACE ==> Lookup(t, root, w) == Lookup(t0, root, w)
    ensures forall w: nat :: v <= w < v + m ==> Lookup(t, root, w).Leaf? && Lookup(t, root, w).ppn in d
  {
    hide Lookup;
  }

  lemma ExtendOne(t0: Tables, t: Tables, t': Tables, n: Nodes, n': Nodes, d0: Data, d: Data, u0: Uses, u: Uses,
                  root: nat, v: nat, m: nat, q: nat, page: Page, perm: Perm)
    requires Extends(t0, t, n, d0, d, u0, u, root, v, m) && SameRoots(n, n') && IsRoot(n, root) && v + m < SPACE
    requires OnlyAt(t, t', n', root, v + m, Leaf(q, perm)) && q !in d
    ensures Extends(t0, t', n', d0, d[q := page], u0, u[q := At(root, v + m)], root, v, m + 1)
  {
    hide Lookup;
    var d', u' := d[q := page], u[q := At(root, v + m)];
    forall w: nat | v <= w < v + m + 1
      ensures Lookup(t', root, w).Leaf? && Lookup(t', root, w).ppn in d' && Lookup(t', root, w).ppn !in d0
    {
      if w < v + m { assert Lookup(t', root, w) == Lookup(t, root, w); }
    }
    forall p | p in d' && p !in d0 ensures UsedIn(u', p, root, v, m + 1) {
      if p != q { assert UsedIn(u, p, root, v, m); }
    }
  }

  lemma ExtendStays(t0: Tables, t: Tables, t': Tables, n: Nodes, n': Nodes, d0: Data, d: Data, u0: Uses, u: Uses,
                    root: nat, v: nat, m: nat)
    requires Extends(t0, t, n, d0, d, u0, u, root, v, m) && SameRoots(n, n') && IsRoot(n, root) && v + m < SPACE
    requires SameMaps(t, t', n')
    ensures Extends(t0, t', n', d0, d, u0, u, root, v, m)
    ensures forall w: nat :: v <= w < v + m ==> Lookup(t', root, w).Leaf? && Lookup(t', root, w).ppn in d
  {
    hide Lookup;
  }

  lemma ZeroOne(t: Tables, t': Tables, n: Nodes, d: Data, root: nat, v: nat, m: nat, q: nat)
    requires Zeroed(t, d, root, v, m) && OnlyAt(t, t', n, root, v + m, Leaf(q, USER)) && IsRoot(n, root) &&
             v + m < SPACE && q !in d
    ensures Zeroed(t', d[q := Filled(0)], root, v, m + 1)
  {
    hide Lookup;
  }

  /** Unmapping and freeing what was added gives everything back. */
  lemma ExtendUndone(t0: Tables, t: Tables, t': Tables, n0: Nodes, n: Nodes, d0: Data, d: Data, d': Data, u0: Uses,
                     u: Uses, u': Uses,
                     root: nat, v: nat, m: nat, lo: nat, hi: nat)
    requires UseOk(t0, n0, d0, u0, lo, hi) && SameRoots(n0, n) && IsRoot(n0, root) && v + m <= SPACE
    requires Extends(t0, t, n, d0, d, u0, u, root, v, m)
    requires ClearsRange(t, t', n, root, v, m) && Released(d, u, d', u', root, v, m)
    requires forall w: nat :: v <= w < v + m ==> Lookup(t0, root, w) == Invalid
    ensures d' == d0 && u' == u0 && SameMaps(t0, t', n0)
  {
    hide Lookup;
    forall p ensures p in d' <==> p in d0 {
      if p in d0 { assert UseFits(t0, n0, u0, p); }
    }
  }

  /** The first m pages of to hold what those of from hold, with the same permissions. */
  ghost predicate Copied(t: Tables, d: Data, from: nat, to: nat, m: nat) {
    forall w: nat :: w < m ==>
      var s, e := Lookup(t, from, w), Lookup(t, to, w);
      s.Leaf? && e.Leaf? && e.perm == s.perm && s.ppn in d && e.ppn in d && d[e.ppn] == d[s.ppn]
  }

  lemma CopyNone(t: Tables, d: Data, from: nat, to: nat)
    ensures Copied(t, d, from, to, 0)
  {
  }

  lemma CopyOne(t: Tables, t': Tables, n: Nodes, d: Data, from: nat, to: nat, m: nat, q: nat)
    requires Copied(t, d, from, to, m) && IsRoot(n, from) && IsRoot(n, to) && from != to && m < SPACE && q !in d
    requires Lookup(t, from, m).Leaf? && Lookup(t, from, m).ppn in d
    requires OnlyAt(t, t', n, to, m, Leaf(q, Lookup(t, from, m).perm))
    ensures Copied(t', d[q := d[Lookup(t, from, m).ppn]], from, to, m + 1)
  {
    hide Lookup;
  }

  lemma ExtendSource(t0: Tables, t: Tables, n: Nodes, d0: Data, d: Data, u0: Uses, u: Uses, root: nat, m: nat, r: nat,
                     w: nat)
    requires Extends(t0, t, n, d0, d, u0, u, root, 0, m) && IsRoot(n, r) && r != root && w < SPACE
    requires Lookup(t0, r, w).Leaf? && Lookup(t0, r, w).ppn in d0
    ensures Lookup(t, r, w) == Lookup(t0, r, w) && Lookup(t, r, w).ppn in d
  {
    hide Lookup;
  }

  lemma EntryProper(t: Tables, n: Nodes, d: Data, u: Uses, lo: nat, hi: nat, r: nat, w: nat)
    requires UseOk(t, n, d, u, lo, hi) && IsRoot(n, r) && w < SPACE
    ensures Proper(Lookup(t, r, w))
  {
    hide Lookup;
    assert LeafOk(d, u, lo, hi, Lookup(t, r, w), r, w);
  }

  lemma MapsOne(t: Tables, t': Tables, n: Nodes, n': Nodes, u: Uses, u': Uses, root: nat, v: nat, m: nat, q: nat,
                perm: Perm)
    requires MapsRange(t, t', n, root, v, m, q, perm) && UsedRange(u, u', root, v, m, q) && SameRoots(n, n') &&
             m <= 1 && q in u
    ensures m == 1 ==> OnlyAt(t, t', n', root, v, Leaf(q, perm)) && u' == u[q := At(root, v)]
    ensures m == 0 ==> SameMaps(t, t', n') && u' == u
  {
    hide Lookup;
  }

  /** Entry i' < i of q leads to c: freewalk's loop has freed it. */
  ghost predicate FreedBy(n: Nodes, c: nat, q: nat, i: nat) {
    Below(n, c, q) && c != q && Branch(n, c, q) < i
  }

  lemma FreeStart(t: Tables, n: Nodes, q: nat)
    requires WfTree(t, n) && q in t
    ensures q in n && n[q].level < 3 && |t[q]| == ENTRIES && Below(n, q, q)
  {
    assert NodeOk(t, n, q);
  }

  lemma ChildOf(t: Tables, n: Nodes, q: nat, i: nat)
    requires WfTree(t, n) && q in t && Entry(t, q, i).Link?
    ensures var c := Entry(t, q, i).ppn; c in t && c in n && q in n && n[c].level < n[q].level
  {
    assert EntryOk(t, n, q, i);
  }

  lemma {:induction false} BranchLinks(t: Tables, n: Nodes, c: nat, q: nat)
    requires WfTree(t, n) && q in t && Below(n, c, q) && c != q
    ensures Branch(n, c, q) < ENTRIES && Entry(t, q, Branch(n, c, q)).Link?
    decreases 3 - n[c].level
  {
    assert NodeOk(t, n, c);
    if n[c].parent != q { BranchLinks(t, n, n[c].parent, q); }
  }

  lemma NoBranch(t: Tables, n: Nodes, q: nat, i: nat)
    requires WfTree(t, n) && q in t && !Entry(t, q, i).Link?
    ensures forall c :: Below(n, c, q) && c != q ==> Branch(n, c, q) != i
  {
    forall c | Below(n, c, q) && c != q ensures Branch(n, c, q) != i { BranchLinks(t, n, c, q); }
  }

  lemma FreeEnd(t: Tables, n: Nodes, q: nat)
    requires WfTree(t, n) && q in t
    ensures forall c :: FreedBy(n, c, q, ENTRIES) <==> Below(n, c, q) && c != q
  {
    forall c | Below(n, c, q) && c != q ensures FreedBy(n, c, q, ENTRIES) { BranchLinks(t, n, c, q); }
  }

  lemma FreeAllocated(f: seq<nat>, t: Tables, d: Data, lo: nat, hi: nat, q: nat)
    requires Parted(f, t, d, lo, hi) && q in t
    ensures q !in f && q !in d && lo <= q < hi
  {
  }

  /** The tree of one root is gone, and only it. */
  ghost predicate Dropped(n: Nodes, n': Nodes, root: nat) {
    forall c :: (c in n' <==> c in n && n[c].root != root) && (c in n' ==> n'[c] == n[c])
  }

  lemma AllBelow(t: Tables, n: Nodes, root: nat)
    requires WfTree(t, n) && IsRoot(n, root) && forall v: nat :: v < SPACE ==> !Lookup(t, root, v).Leaf?
    ensures root in t && forall c :: Below(n, c, root) <==> c in t && c in n && n[c].root == root
    ensures forall c, i :: Below(n, c, root) ==> !Entry(t, c, i).Leaf?
    ensures t.Keys == n.Keys
  {
    hide Lookup;
    forall c ensures Below(n, c, root) <==> c in n && n[c].root == root {
      if c in n { BelowRoot(t, n, c, root); }
    }
    forall c, i | Below(n, c, root) ensures !Entry(t, c, i).Leaf? { NoLeafBelow(t, n, root, c, i); }
  }

  lemma UseDropRoot(t: Tables, n: Nodes, t': Tables, n': Nodes, d: Data, u: Uses, lo: nat, hi: nat, root: nat)
    requires UseOk(t, n, d, u, lo, hi) && IsRoot(n, root) && WfTree(t, n) && Dropped(n, n', root) && SameMaps(t, t', n')
    requires forall v: nat :: v < SPACE ==> !Lookup(t, root, v).Leaf?
    ensures UseOk(t', n', d, u, lo, hi)
  {
    hide Lookup, EntryOk;
    forall r | IsRoot(n, r) ensures n[r].root == r { assert NodeOk(t, n, r); }
    forall q | q in u ensures UseFits(t', n', u, q) { assert UseFits(t, n, u, q); }
    forall r, v: nat | IsRoot(n', r) && v < SPACE ensures LeafOk(d, u, lo, hi, Lookup(t', r, v), r, v) {
      assert LeafOk(d, u, lo, hi, Lookup(t, r, v), r, v);
    }
  }

  lemma ClearsNone(t: Tables, n: Nodes, root: nat, v: nat)
    ensures ClearsRange(t, t, n, root, v, 0)
  {
  }

  lemma ClearsAll(t: Tables, t': Tables, n: Nodes, root: nat, m: nat)
    requires IsRoot(n, root) && m <= SPACE && ClearsRange(t, t', n, root, 0, m)
    requires forall w: nat :: m <= w < SPACE ==> !Lookup(t, root, w).Leaf?
    ensures forall w: nat :: w < SPACE ==> !Lookup(t', root, w).Leaf?
  {
    hide Lookup;
  }

  lemma SameAfterDrop(t0: Tables, t: Tables, t': Tables, n: Nodes, n': Nodes, root: nat, m: nat)
    requires WfTree(t, n) && IsRoot(n, root) && Dropped(n, n', root) && ClearsRange(t0, t, n, root, 0, m) &&
             SameMaps(t, t', n')
    ensures SameMaps(t0, t', n')
  {
    hide Lookup, EntryOk;
    assert NodeOk(t, n, root);
  }

  /** The byte a user program sees at va. */
  ghost function UserByte(t: Tables, d: Data, root: nat, va: nat): (b: Option<int>) {
    var e := Lookup(t, root, va / PGSIZE);
    if va < MAXPAGES * PGSIZE && e.Leaf? && e.perm.u && e.ppn in d then Some(d[e.ppn][va % PGSIZE]) else None
  }

  lemma NoByte(t: Tables, d: Data, root: nat, va: nat)
    requires !(va < MAXPAGES * PGSIZE && Lookup(t, root, va / PGSIZE).Leaf? && Lookup(t, root, va / PGSIZE).perm.u)
    ensures UserByte(t, d, root, va).None?
  {
  }

  /** The first k bytes of src are at va of root, and no other user byte has changed. */
  ghost predicate Wrote(t: Tables, d: Data, d': Data, n: Nodes, root: nat, va: nat, src: seq<int>, k: nat) {
    && k <= |src|
    && forall r, a: nat :: IsRoot(n, r) ==>
         UserByte(t, d', r, a) == if r == root && va <= a < va + k then Some(src[a - va]) else UserByte(t, d, r, a)
  }

  lemma WroteNone(t: Tables, d: Data, n: Nodes, root: nat, va: nat, src: seq<int>)
    ensures Wrote(t, d, d, n, root, va, src, 0)
  {
  }

  lemma BytesWritten(t: Tables, n: Nodes, d: Data, u: Uses, lo: nat, hi: nat, root: nat, va: nat, bytes: seq<int>,
                     d': Data)
    requires UseOk(t, n, d, u, lo, hi) && IsRoot(n, root) && va < MAXPAGES * PGSIZE && va % PGSIZE + |bytes| <= PGSIZE
    requires forall q :: q in d ==> lo <= q < hi
    requires var e := Lookup(t, root, va / PGSIZE);
             e.Leaf? && e.perm.u && e.ppn in d && d' == d[e.ppn := Splice(d[e.ppn], va % PGSIZE, bytes)]
    ensures forall r, a: nat :: IsRoot(n, r) ==>
         UserByte(t, d', r, a) == if r == root && va <= a < va + |bytes| then Some(bytes[a - va])
                                    else UserByte(t, d, r, a)
  {
    hide Lookup, Splice;
    var q := Lookup(t, root, va / PGSIZE).ppn;
    OneUser(t, n, d, u, lo, hi, root, va / PGSIZE);
    forall r, a: nat | IsRoot(n, r)
      ensures UserByte(t, d', r, a) == if r == root && va <= a < va + |bytes| then Some(bytes[a - va])
                                         else UserByte(t, d, r, a)
    {
      var e := Lookup(t, r, a / PGSIZE);
      if va <= a < va + |bytes| { SamePage(va, a, |bytes|); }
      if a < MAXPAGES * PGSIZE && e.Leaf? && e.ppn == q {
        OneUser(t, n, d, u, lo, hi, r, a / PGSIZE);
        assert a == a / PGSIZE * PGSIZE + a % PGSIZE;
      }
    }
  }

  lemma SamePage(va: nat, a: nat, len: nat)
    requires va <= a < va + len && va % PGSIZE + len <= PGSIZE
    ensures a / PGSIZE == va / PGSIZE && a % PGSIZE == va % PGSIZE + (a - va)
  {
  }

  lemma WroteMore(t: Tables, d0: Data, d: Data, d': Data, n: Nodes, root: nat, va: nat, src: seq<int>, k: nat, m: nat)
    requires Wrote(t, d0, d, n, root, va, src, k) && k + m <= |src|
    requires forall r, a: nat :: IsRoot(n, r) ==>
         UserByte(t, d', r, a) == if r == root && va + k <= a < va + k + m then Some(src[k..k + m][a - va - k])
                                    else UserByte(t, d, r, a)
    ensures Wrote(t, d0, d', n, root, va, src, k + m)
  {
    hide UserByte;
  }

  lemma BytesRead(t: Tables, d: Data, root: nat, va: nat, n: nat)
    requires va < MAXPAGES * PGSIZE && va % PGSIZE + n <= PGSIZE
    requires var e := Lookup(t, root, va / PGSIZE); e.Leaf? && e.perm.u && e.ppn in d
    ensures forall a: nat :: va <= a < va + n ==>
                               UserByte(t, d, root, a) ==
                                 Some(d[Lookup(t, root, va / PGSIZE).ppn][va % PGSIZE + a - va])
  {
    hide Lookup;
    forall a: nat | va <= a < va + n
      ensures UserByte(t, d, root, a) == Some(d[Lookup(t, root, va / PGSIZE).ppn][va % PGSIZE + a - va])
    {
      SamePage(va, a, n);
    }
  }
}
