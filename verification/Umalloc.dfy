/** The K&R storage allocator of user programs: malloc, free and morecore over one circular,
    address-ordered free list threaded through block headers. Addresses are in bytes; a block's
    size counts its header and is in units of sizeof(Header). */
module Umalloc {
  import opened Collections

  /** sizeof(Header). */
  const UNIT := 16

  datatype Block = Block(a: nat, n: nat)

  function End(b: Block): (e: nat) { b.a + UNIT * b.n }

  predicate Apart(b: Block, c: Block) {
    End(b) <= c.a || End(c) <= b.a
  }

  // The free list as a value: the blocks after base, in list order

  /** Address-ordered, non-empty, and coalesced: there is a gap between any two neighbours. */
  ghost predicate Ordered(free: seq<Block>) {
    && (forall i :: 0 <= i < |free| ==> free[i].n > 0)
    && (forall i, j :: 0 <= i < j < |free| ==> End(free[i]) < free[j].a)
  }

  ghost predicate Within(free: seq<Block>, lo: nat, hi: nat) {
    forall i :: 0 <= i < |free| ==> lo <= free[i].a && End(free[i]) <= hi
  }

  /** Live blocks, by address. */
  type Live = map<nat, nat>

  ghost predicate LiveOk(live: Live, lo: nat, hi: nat) {
    && (forall a :: a in live ==> live[a] > 0 && lo <= a && a + UNIT * live[a] <= hi)
    && (forall a, b :: a in live && b in live && a != b ==> Apart(Block(a, live[a]), Block(b, live[b])))
  }

  ghost predicate Separate(free: seq<Block>, live: Live) {
    forall i, a :: 0 <= i < |free| && a in live ==> Apart(free[i], Block(a, live[a]))
  }

  predicate Holds(b: Block, x: nat) {
    b.a <= x < End(b)
  }

  ghost predicate FreeAt(free: seq<Block>, x: nat) {
    exists i :: 0 <= i < |free| && Holds(free[i], x)
  }

  // Releasing a block

  /** b belongs between free[j - 1] and free[j], and touches neither's inside. */
  ghost predicate Fits(free: seq<Block>, b: Block, j: nat) {
    && j <= |free| && b.n > 0
    && (forall i :: 0 <= i < j ==> End(free[i]) <= b.a)
    && (forall i :: j <= i < |free| ==> End(b) <= free[i].a)
  }

  predicate MergesUp(free: seq<Block>, b: Block, j: nat)
    requires j <= |free|
  {
    j < |free| && End(b) == free[j].a
  }

  predicate MergesDown(free: seq<Block>, b: Block, j: nat)
    requires j <= |free|
  {
    j > 0 && End(free[j - 1]) == b.a
  }

  /** b together with the neighbours it touches. */
  function Merged(free: seq<Block>, b: Block, j: nat): (m: Block)
    requires j <= |free|
    ensures m.a == (if MergesDown(free, b, j) then free[j - 1].a else b.a)
    ensures End(m) == if MergesUp(free, b, j) then End(free[j]) else End(b)
  {
    var n := if MergesUp(free, b, j) then b.n + free[j].n else b.n;
    if MergesDown(free, b, j) then Block(free[j - 1].a, free[j - 1].n + n) else Block(b.a, n)
  }

  /** The free list with the blocks l .. h - 1 replaced by m. */
  function Replace(free: seq<Block>, l: nat, h: nat, m: Block): (r: seq<Block>)
    requires l <= h <= |free|
    ensures |r| == l + 1 + |free| - h
    ensures forall i :: 0 <= i < |r| ==> r[i] == if i < l then free[i] else if i == l then m else free[i - l - 1 + h]
  {
    free[..l] + [m] + free[h..]
  }

  /** The free list after b was put in at j and joined with its neighbours. */
  function Insert(free: seq<Block>, b: Block, j: nat): (r: seq<Block>)
    requires j <= |free|
  {
    Replace(free, if MergesDown(free, b, j) then j - 1 else j, if MergesUp(free, b, j) then j + 1 else j,
            Merged(free, b, j))
  }

  lemma ReplaceOrdered(free: seq<Block>, l: nat, h: nat, m: Block)
    requires Ordered(free) && l <= h <= |free| && m.n > 0
    requires forall i :: 0 <= i < l ==> End(free[i]) < m.a
    requires forall i :: h <= i < |free| ==> End(m) < free[i].a
    ensures Ordered(Replace(free, l, h, m))
  {
    hide End;
    var r := Replace(free, l, h, m);
    forall i, j | 0 <= i < j < |r| ensures End(r[i]) < r[j].a {
      var i', j' := if i < l then i else i - l - 1 + h, if j < l then j else j - l - 1 + h;
      if i != l && j != l { assert End(free[i']) < free[j'].a; }
    }
  }

  /** Joining keeps the list ordered and coalesced. */
  lemma InsertOrdered(free: seq<Block>, b: Block, j: nat)
    requires Ordered(free) && Fits(free, b, j)
    ensures Ordered(Insert(free, b, j))
  {
    var l := if MergesDown(free, b, j) then j - 1 else j;
    var h := if MergesUp(free, b, j) then j + 1 else j;
    var m := Merged(free, b, j);
    forall i | 0 <= i < l ensures End(free[i]) < m.a {
      if i < j - 1 { assert End(free[i]) < free[j - 1].a; }
    }
    forall i | h <= i < |free| ensures End(m) < free[i].a {
      if j < i { assert End(free[j]) < free[i].a; }
    }
    ReplaceOrdered(free, l, h, m);
  }

  lemma MergedHolds(free: seq<Block>, b: Block, j: nat, x: nat)
    requires Ordered(free) && Fits(free, b, j)
    ensures Holds(Merged(free, b, j), x) <==>
            || Holds(b, x)
            || (MergesDown(free, b, j) && Holds(free[j - 1], x))
            || (MergesUp(free, b, j) && Holds(free[j], x))
  {
  }

  lemma ReplaceCovers(free: seq<Block>, l: nat, h: nat, m: Block, x: nat)
    requires l <= h <= |free|
    ensures FreeAt(Replace(free, l, h, m), x) <==>
            Holds(m, x) || exists i :: 0 <= i < |free| && (i < l || h <= i) && Holds(free[i], x)
  {
    hide Holds;
    var r := Replace(free, l, h, m);
    if Holds(m, x) { assert Holds(r[l], x); }
    forall i | 0 <= i < |free| && (i < l || h <= i) && Holds(free[i], x) ensures FreeAt(r, x) {
      assert r[if i < l then i else i - h + l + 1] == free[i];
    }
    forall i | 0 <= i < |r| && Holds(r[i], x)
      ensures Holds(m, x) || exists i :: 0 <= i < |free| && (i < l || h <= i) && Holds(free[i], x)
    {
      if i != l { assert r[i] == free[if i < l then i else i - l - 1 + h]; }
    }
  }

  /** Joining neither loses nor duplicates storage. */
  lemma InsertCovers(free: seq<Block>, b: Block, j: nat, x: nat)
    requires Ordered(free) && Fits(free, b, j)
    ensures FreeAt(Insert(free, b, j), x) <==> FreeAt(free, x) || Holds(b, x)
  {
    hide Ordered, Fits, Holds, Replace, Merged, End;
    InsertPlace(free, b, j);
    var l := if MergesDown(free, b, j) then j - 1 else j;
    var h := if MergesUp(free, b, j) then j + 1 else j;
    MergedHolds(free, b, j, x);
    ReplaceCovers(free, l, h, Merged(free, b, j), x);
  }

  lemma InsertPlace(free: seq<Block>, b: Block, j: nat)
    requires Fits(free, b, j)
    ensures j <= |free|
  {
  }

  lemma MergedApart(free: seq<Block>, b: Block, j: nat, c: Block)
    requires Ordered(free) && Fits(free, b, j) && c.n > 0 && Apart(b, c)
    requires forall i :: 0 <= i < |free| ==> Apart(free[i], c)
    ensures Apart(Merged(free, b, j), c)
  {
    assert j > 0 ==> Apart(free[j - 1], c);
    assert j < |free| ==> Apart(free[j], c);
  }

  lemma ReplaceApart(free: seq<Block>, l: nat, h: nat, m: Block, c: Block)
    requires l <= h <= |free| && Apart(m, c)
    requires forall i :: 0 <= i < |free| ==> Apart(free[i], c)
    ensures forall i :: 0 <= i < |Replace(free, l, h, m)| ==> Apart(Replace(free, l, h, m)[i], c)
  {
    hide Apart;
    var r := Replace(free, l, h, m);
    forall i | 0 <= i < |r| ensures Apart(r[i], c) {
      if i != l { assert r[i] == free[if i < l then i else i - l - 1 + h]; }
    }
  }

  lemma InsertApart(free: seq<Block>, b: Block, j: nat, c: Block)
    requires Ordered(free) && Fits(free, b, j) && c.n > 0 && Apart(b, c)
    requires forall i :: 0 <= i < |free| ==> Apart(free[i], c)
    ensures forall i :: 0 <= i < |Insert(free, b, j)| ==> Apart(Insert(free, b, j)[i], c)
  {
    hide Ordered, Fits, Merged, Replace, Apart, End;
    InsertPlace(free, b, j);
    var l := if MergesDown(free, b, j) then j - 1 else j;
    var h := if MergesUp(free, b, j) then j + 1 else j;
    MergedApart(free, b, j, c);
    ReplaceApart(free, l, h, Merged(free, b, j), c);
  }

  lemma InsertWithin(free: seq<Block>, b: Block, j: nat, lo: nat, hi: nat)
    requires Ordered(free) && Fits(free, b, j) && Within(free, lo, hi) && lo <= b.a && End(b) <= hi
    ensures Within(Insert(free, b, j), lo, hi)
  {
  }

  /** Some block of the new list is at least as large as b. */
  lemma InsertLarge(free: seq<Block>, b: Block, j: nat)
    requires Fits(free, b, j)
    ensures exists i :: 0 <= i < |Insert(free, b, j)| && Insert(free, b, j)[i].n >= b.n
  {
    var l := if MergesDown(free, b, j) then j - 1 else j;
    assert Insert(free, b, j)[l] == Merged(free, b, j);
  }

  /** g is f plus the storage lo .. hi - 1. */
  ghost predicate Gains(f: seq<Block>, g: seq<Block>, lo: nat, hi: nat) {
    forall x: nat :: FreeAt(g, x) <==> FreeAt(f, x) || lo <= x < hi
  }

  lemma InsertGains(free: seq<Block>, b: Block, j: nat)
    requires Ordered(free) && Fits(free, b, j)
    ensures Gains(free, Insert(free, b, j), b.a, End(b))
  {
    hide FreeAt, Insert;
    forall x: nat ensures FreeAt(Insert(free, b, j), x) <==>
        FreeAt(free, x) || b.a <= x < End(b) { InsertCovers(free, b, j, x); }
  }

  // Taking a block

  /** malloc takes the whole block, or its tail. */
  function Taken(b: Block, n: nat): (r: Block)
    requires n <= b.n
    ensures End(r) == End(b) && r.n == n
  {
    Block(b.a + UNIT * (b.n - n), n)
  }

  function Take(free: seq<Block>, i: nat, n: nat): (r: seq<Block>)
    requires i < |free| && n <= free[i].n
  {
    if free[i].n == n then free[..i] + free[i + 1..] else free[i := Block(free[i].a, free[i].n - n)]
  }

  lemma TakeOrdered(free: seq<Block>, i: nat, n: nat)
    requires Ordered(free) && i < |free| && 0 < n <= free[i].n
    ensures Ordered(Take(free, i, n))
    ensures forall k :: 0 <= k < |Take(free, i, n)| ==> Apart(Take(free, i, n)[k], Taken(free[i], n))
  {
    var r := Take(free, i, n);
    forall k | 0 <= k < |r| ensures Apart(r[k], Taken(free[i], n)) {
      if free[i].n == n { assert r[k] == free[if k < i then k else k + 1]; }
      else if k < i { assert End(free[k]) < free[i].a; }
      else if k > i { assert End(free[i]) < free[k].a; }
    }
  }

  lemma TakeApart(free: seq<Block>, i: nat, n: nat, c: Block)
    requires i < |free| && 0 < n <= free[i].n && forall k :: 0 <= k < |free| ==> Apart(free[k], c)
    requires c.n > 0
    ensures Apart(Taken(free[i], n), c)
    ensures forall k :: 0 <= k < |Take(free, i, n)| ==> Apart(Take(free, i, n)[k], c)
  {
  }

  lemma TakeWithin(free: seq<Block>, i: nat, n: nat, lo: nat, hi: nat)
    requires i < |free| && 0 < n <= free[i].n && Within(free, lo, hi)
    ensures Within(Take(free, i, n), lo, hi) && lo <= Taken(free[i], n).a && End(Taken(free[i], n)) <= hi
    ensures Taken(free[i], n).n == n
  {
  }

  lemma TakeCovers(free: seq<Block>, i: nat, n: nat, x: nat)
    requires i < |free| && 0 < n <= free[i].n
    ensures FreeAt(free, x) <==> FreeAt(Take(free, i, n), x) || Holds(Taken(free[i], n), x)
  {
    var r := Take(free, i, n);
    forall k | 0 <= k < |free| && Holds(free[k], x) ensures FreeAt(r, x) || Holds(Taken(free[i], n), x) {
      if free[i].n != n {
        assert r[i] == Block(free[i].a, free[i].n - n);
        assert Holds(free[i], x) ==> Holds(r[i], x) || Holds(Taken(free[i], n), x);
      }
      if k < i { assert r[k] == free[k]; }
      else if k > i { assert r[if free[i].n == n then k - 1 else k] == free[k]; }
    }
    forall k | 0 <= k < |r| && Holds(r[k], x) ensures FreeAt(free, x) {
      if free[i].n == n { assert r[k] == free[if k < i then k else k + 1]; }
      else if k == i { assert Holds(free[i], x); }
      else { assert r[k] == free[k]; }
    }
    if Holds(Taken(free[i], n), x) { assert Holds(free[i], x); }
  }

  lemma TakeLoses(free: seq<Block>, i: nat, n: nat)
    requires i < |free| && 0 < n <= free[i].n
    ensures Gains(Take(free, i, n), free, Taken(free[i], n).a, End(free[i]))
  {
    hide FreeAt, Take;
    forall x: nat ensures FreeAt(free, x) <==>
        FreeAt(Take(free, i, n), x) || Taken(free[i], n).a <= x < End(free[i]) { TakeCovers(free, i, n, x); }
  }

  // The list in memory: header fields, threaded from base back to base

  type Fields = map<nat, nat>

  /** The i-th header of the ring; base is the 0th. */
  function Header(base: nat, free: seq<Block>, i: nat): (a: nat)
    requires i <= |free|
  {
    if i == 0 then base else free[i - 1].a
  }

  function After(free: seq<Block>, i: nat): (k: nat)
    requires i <= |free|
    ensures k <= |free|
  {
    if i < |free| then i + 1 else 0
  }

  ghost predicate LinkOk(ptr: Fields, size: Fields, base: nat, free: seq<Block>, i: nat)
    requires i <= |free|
  {
    var a := Header(base, free, i);
    && a in ptr && a in size
    && ptr[a] == Header(base, free, After(free, i))
    && size[a] == if i == 0 then 0 else free[i - 1].n
  }

  /** The headers form one circular list: base, then the free blocks in order. */
  ghost predicate Linked(ptr: Fields, size: Fields, base: nat, free: seq<Block>) {
    forall i :: 0 <= i <= |free| ==> LinkOk(ptr, size, base, free, i)
  }

  /** free's header updates, once it has found that b goes after header p. */
  function FreedPtr(ptr: Fields, size: Fields, b: nat, p: nat): (r: Fields)
    requires b in size && p in ptr && p in size && ptr[p] in ptr
  {
    var next := ptr[p];
    var ptr1 := ptr[b := if b + UNIT * size[b] == next then ptr[next] else next];
    ptr1[p := if p + UNIT * size[p] == b then ptr1[b] else b]
  }

  function FreedSize(ptr: Fields, size: Fields, b: nat, p: nat): (r: Fields)
    requires b in size && p in ptr && p in size && ptr[p] in size
  {
    var next := ptr[p];
    var size1 := if b + UNIT * size[b] == next then size[b := size[b] + size[next]] else size;
    if p + UNIT * size[p] == b then size1[p := size1[p] + size1[b]] else size1
  }

  /** What must hold in memory for the blocks l .. h - 1 to have been replaced by m. */
  ghost predicate Relinked(ptr: Fields, size: Fields, ptr': Fields, size': Fields, base: nat, free: seq<Block>, l: nat,
                           h: nat, m: Block)
    requires l <= h <= |free|
  {
    && m.a in ptr' && m.a in size' && size'[m.a] == m.n && ptr'[m.a] == Header(base, free, After(free, h))
    && (forall i {:trigger Header(base, free, i)} :: 0 <= i <= |free| && (i <= l || i > h) ==>
          var a := Header(base, free, i);
          a in ptr && a in size && a in ptr' && a in size' && size'[a] == size[a] &&
          ptr'[a] == if i == l then m.a else ptr[a])
  }

  lemma ReplaceLinked(ptr: Fields, size: Fields, ptr': Fields, size': Fields, base: nat, free: seq<Block>, l: nat,
                      h: nat, m: Block)
    requires Linked(ptr, size, base, free) && l <= h <= |free| && Relinked(ptr, size, ptr', size', base, free, l, h, m)
    ensures Linked(ptr', size', base, Replace(free, l, h, m))
  {
    var r := Replace(free, l, h, m);
    forall i | 0 <= i <= |r| ensures LinkOk(ptr', size', base, r, i) {
      var k := if i <= l then i else i - l - 1 + h;
      assert LinkOk(ptr, size, base, free, k);
      assert i != l + 1 ==> Header(base, r, i) == Header(base, free, k);
      assert i < |r| && i != l ==> Header(base, r, i + 1) == Header(base, free, if i < l then k + 1 else i - l + h);
    }
  }

  /** Distinct headers have distinct addresses. */
  lemma HeadersDiffer(base: nat, free: seq<Block>, lo: nat, hi: nat, i: nat, k: nat)
    requires Ordered(free) && Within(free, lo, hi) && base < lo && i < k <= |free|
    ensures Header(base, free, i) < Header(base, free, k)
  {
    if i > 0 { assert End(free[i - 1]) < free[k - 1].a; }
  }

  /** Those updates are Insert on the list. */
  lemma InsertLinked(ptr: Fields, size: Fields, base: nat, free: seq<Block>, b: Block, j: nat, lo: nat, hi: nat)
    requires Linked(ptr, size, base, free) && Ordered(free) && Fits(free, b, j) && b.a in size && size[b.a] == b.n
    requires base < lo <= b.a && Within(free, lo, hi)
    ensures var p: nat := Header(base, free, j);
      && p in ptr && p in size && ptr[p] in ptr && ptr[p] in size
      && Linked(FreedPtr(ptr, size, b.a, p), FreedSize(ptr, size, b.a, p), base, Insert(free, b, j))
  {
    var p: nat := Header(base, free, j);
    assert LinkOk(ptr, size, base, free, j) && LinkOk(ptr, size, base, free, After(free, j));
    var up, down := MergesUp(free, b, j), MergesDown(free, b, j);
    assert up <==> b.a + UNIT * size[b.a] == ptr[p];
    assert down <==> p + UNIT * size[p] == b.a;
    var l, h := if down then j - 1 else j, if up then j + 1 else j;
    var ptr', size' := FreedPtr(ptr, size, b.a, p), FreedSize(ptr, size, b.a, p);
    forall i | 0 <= i <= |free| ensures Header(base, free, i) != b.a && (i != j ==> Header(base, free, i) != p) {
      if i < j { HeadersDiffer(base, free, lo, hi, i, j); }
      if j < i { HeadersDiffer(base, free, lo, hi, j, i); }
    }
    var m := Merged(free, b, j);
    forall i | 0 <= i <= |free| && (i <= l || i > h)
      ensures var a: nat := Header(base, free, i);
        a in ptr && a in size && a in ptr' && a in size' && size'[a] == size[a] &&
        ptr'[a] == if i == l then m.a else ptr[a]
    {
      assert LinkOk(ptr, size, base, free, i);
    }
    ReplaceLinked(ptr, size, ptr', size', base, free, l, h, m);
  }

  /** Where a block at a goes: the number of free blocks below it. */
  ghost function Place(free: seq<Block>, a: nat): (j: nat)
    ensures j <= |free|
  {
    if free == [] || free[|free| - 1].a < a then |free| else Place(free[..|free| - 1], a)
  }

  lemma {:induction false} PlaceFits(free: seq<Block>, b: Block)
    requires Ordered(free) && b.n > 0 && forall i :: 0 <= i < |free| ==> Apart(free[i], b)
    ensures Fits(free, b, Place(free, b.a))
  {
    if free != [] && free[|free| - 1].a >= b.a {
      var short := free[..|free| - 1];
      PlaceFits(short, b);
      forall i | 0 <= i < |free| ensures i >= Place(free, b.a) ==> End(b) <= free[i].a {
        assert Apart(free[i], b) && free[i].n > 0;
        if i < |short| { assert short[i] == free[i]; }
      }
      forall i | 0 <= i < Place(free, b.a) ensures End(free[i]) <= b.a { assert short[i] == free[i]; }
    } else {
      forall i | 0 <= i < |free| ensures End(free[i]) <= b.a {
        assert Apart(free[i], b) && free[i].n > 0;
        if i < |free| - 1 { assert End(free[i]) < free[|free| - 1].a; }
      }
    }
  }

  /** Exactly the headers up to the j-th lie below b. */
  lemma BelowPlace(base: nat, free: seq<Block>, b: Block, j: nat, lo: nat, hi: nat, i: nat)
    requires Ordered(free) && Within(free, lo, hi) && base < lo <= b.a && Fits(free, b, j) && i <= |free|
    ensures Header(base, free, i) < b.a <==> i <= j
    ensures Header(base, free, i) != b.a
  {
    if 0 < i <= j { assert End(free[i - 1]) <= b.a; }
    if i > j { assert End(b) <= free[i - 1].a; }
  }

  /** Steps from header i to header j round the ring. */
  ghost function Steps(free: seq<Block>, i: nat, j: nat): (d: nat)
    requires i <= |free| && j <= |free|
  {
    if i <= j then j - i else j - i + |free| + 1
  }

  ghost predicate OnRing(base: nat, free: seq<Block>, a: nat) {
    exists i :: 0 <= i <= |free| && Header(base, free, i) == a
  }

  class Heap {
    var ptr: Fields            // s.ptr of each header
    var size: Fields           // s.size of each header
    var freep: nat             // 0 until the first malloc
    var brk: nat               // end of the memory obtained so far
    const base: nat            // address of the static header
    ghost var free: seq<Block>
    ghost var live: Live

    ghost predicate Valid()
      reads this
    {
      && base > 0 && base + UNIT <= brk
      && Ordered(free) && Within(free, base + UNIT, brk) && LiveOk(live, base + UNIT, brk) && Separate(free, live)
      && (forall a :: a in live ==> a in size && size[a] == live[a])
      && (if freep == 0 then free == [] && live == map[] else Linked(ptr, size, base, free) &&
                                                              OnRing(base, free, freep))
    }

    constructor(b: nat, start: nat)
      requires b > 0 && b + UNIT <= start
      ensures Valid() && base == b && brk == start && freep == 0 && free == [] && live == map[]
    {
      base, brk, freep, ptr, size := b, start, 0, map[], map[];
      free, live := [], map[];
    }

    /** The header after which a block at bp belongs. */
    method FindPlace(bp: nat) returns (p: nat)
      requires Valid() && freep != 0 && bp in live
      ensures p == Header(base, free, Place(free, bp)) && p in ptr && p in size && ptr[p] in ptr && ptr[p] in size
    {
      hide Ordered, Within, LiveOk, Separate, Fits, Linked, LinkOk, Header;
      ghost var b, j := Block(bp, live[bp]), Place(free, bp);
      LiveApart(free, live, bp, base + UNIT, brk);
      PlaceFits(free, b);
      p := freep;
      ghost var i :| 0 <= i <= |free| && Header(base, free, i) == p;
      Look(ptr, size, base, free, b, j, base + UNIT, brk, i);
      while !(bp > p && bp < ptr[p])
        invariant 0 <= i <= |free| && p == Header(base, free, i) && p in ptr &&
                  ptr[p] == Header(base, free, After(free, i))
        decreases Steps(free, i, j)
      {
        Look(ptr, size, base, free, b, j, base + UNIT, brk, i);
        if p >= ptr[p] && (bp > p || bp < ptr[p]) { break; }
        p := ptr[p];
        i := After(free, i);
        Look(ptr, size, base, free, b, j, base + UNIT, brk, i);
      }
      Look(ptr, size, base, free, b, j, base + UNIT, brk, i);
    }

    /** free's header updates: the block goes after p, and touching blocks become one. */
    method Join(bp: nat, p: nat)
      requires bp != p && bp in size && p in ptr && p in size && ptr[p] in ptr && ptr[p] in size
      modifies this`ptr, this`size
      ensures ptr == FreedPtr(old(ptr), old(size), bp, p) && size == FreedSize(old(ptr), old(size), bp, p)
    {
      var next := ptr[p];
      if bp + UNIT * size[bp] == next {
        size := size[bp := size[bp] + size[next]];
        ptr := ptr[bp := ptr[next]];
      } else {
        ptr := ptr[bp := next];
      }
      if p + UNIT * size[p] == bp {
        size := size[p := size[p] + size[bp]];
        ptr := ptr[p := ptr[bp]];
      } else {
        ptr := ptr[p := bp];
      }
    }

    /** Puts a live block back on the list, in address order, joined with the neighbours it touches. */
    method Free(bp: nat)
      requires Valid() && freep != 0 && bp in live
      modifies this
      ensures Valid() && freep != 0 && brk == old(brk) && live == old(live) - {bp}
      ensures free == Insert(old(free), Block(bp, old(live)[bp]), Place(old(free), bp))
      ensures Gains(old(free), free, bp, bp + UNIT * old(live)[bp])
    {
      hide Ordered, Within, LiveOk, Separate, Fits, Linked, LinkOk, Header, Insert, Gains, OnRing;
      ghost var b, j := Block(bp, live[bp]), Place(free, bp);
      ghost var ptr0, size0, free0 := ptr, size, free;
      LiveApart(free, live, bp, base + UNIT, brk);
      PlaceFits(free, b);
      var p: nat := FindPlace(bp);
      InsertLinked(ptr, size, base, free, b, j, base + UNIT, brk);
      InsertOnRing(base, free, b, j);
      FreedLive(ptr, size, base, free, live, bp, j, base + UNIT, brk);
      Join(bp, p);
      freep := p;
      free := Insert(free, b, j);
      live := live - {bp};
      InsertOrdered(free0, b, j);
      InsertWithin(free0, b, j, base + UNIT, brk);
      InsertSeparate(free0, old(live), b, j, base + UNIT, brk);
      InsertGains(free0, b, j);
    }

    /** Asks for more memory and frees it. grant is sbrk's answer: failure, or how far above brk the new memory
        starts (the program may call sbrk itself). */
    method Morecore(nu: nat, grant: Option<nat>) returns (ok: bool)
      requires Valid() && freep != 0 && 0 < nu && Request(nu) * UNIT < 0x8000_0000
      modifies this
      ensures Valid() && freep != 0 && live == old(live) && ok == grant.Some?
      ensures !ok ==> brk == old(brk) && free == old(free) && freep == old(freep)
      ensures ok ==> brk == old(brk) + grant.value + UNIT * Request(nu)
      ensures ok ==> Gains(old(free), free, old(brk) + grant.value, brk)
      ensures ok ==> !TooSmall(free, nu)
    {
      hide Ordered, Within, LiveOk, Separate, Fits, Linked, LinkOk, Header, Insert, Gains, OnRing;
      var n := if nu < 4096 then 4096 else nu;
      SbrkArgument(n);
      if grant.None? { return false; }
      var hp := brk + grant.value;
      MoreSpace(ptr, size, base, free, live, brk, hp, n);
      brk := hp + UNIT * n;
      size := size[hp := n];
      live := live[hp := n];
      ghost var f, b := free, Block(hp, n);
      LiveApart(free, live, hp, base + UNIT, brk);
      PlaceFits(f, b);
      Free(hp);
      InsertLarge(f, b, Place(f, hp));
      assert !TooSmall(free, nu);
      assert live == old(live);
      ok := true;
    }

    /** Takes the block at p, or its tail, for a request of n units. prev is the header before p. */
    method Carve(prev: nat, p: nat, n: nat, ghost k: nat) returns (bp: nat)
      requires Valid() && freep != 0 && k < |free| && p == Header(base, free, k + 1) &&
               prev == Header(base, free, k) && 0 < n <= free[k].n
      modifies this
      ensures Valid() && freep != 0 && brk == old(brk) && bp !in old(live) && live == old(live)[bp := n]
      ensures free == Take(old(free), k, n) && Block(bp, n) == Taken(old(free)[k], n) &&
              Gains(free, old(free), bp, bp + UNIT * n)
    {
      hide Ordered, Within, LiveOk, Separate, Linked, LinkOk, OnRing, Gains;
      ghost var f, l := free, live;
      RingEntry(ptr, size, base, free, k);
      TakeOrdered(f, k, n);
      TakeLive(f, l, k, n, base + UNIT, brk);
      bp := p;
      if size[p] == n {
        TakeWhole(ptr, size, base, f, k, base + UNIT, brk);
        ptr := ptr[prev := ptr[p]];
      } else {
        TakeTail(ptr, size, base, f, l, k, n, base + UNIT, brk);
        size := size[p := size[p] - n];
        bp := p + UNIT * size[p];
        size := size[bp := n];
      }
      freep := prev;
      free, live := Take(f, k, n), live[bp := n];
      TakeLoses(f, k, n);
    }

    /** The first malloc makes a ring of base alone. */
    method Start()
      requires Valid() && freep == 0
      modifies this
      ensures Valid() && freep != 0 && free == old(free) && live == old(live) && brk == old(brk)
    {
      ptr, size, freep := ptr[base := base], size[base := 0], base;
      EmptyRing(ptr, size, base);
    }

    /** Next-fit search from freep, with at most one morecore. */
    method Malloc(nbytes: nat, grant: Option<nat>) returns (r: Option<nat>, ghost before: seq<Block>)
      requires Valid() && nbytes < 0x1_0000_0000 && Request(Units(nbytes)) * UNIT < 0x8000_0000
      modifies this
      ensures Valid()
      ensures var n := Units(nbytes);
        && (r.Some? ==> r.value >= UNIT && r.value - UNIT !in old(live) && live == old(live)[r.value - UNIT := n] &&
                        UNIT * (n - 1) >= nbytes)
        && (r.None? ==> live == old(live) && brk == old(brk) && free == old(free) && grant.None?)
        && (r.None? || brk != old(brk) ==> TooSmall(old(free), n))
        && (brk != old(brk) ==> grant.Some? && brk == old(brk) + grant.value + UNIT * Request(n))
      ensures Gains(old(free), before, if brk == old(brk) then brk else brk - UNIT * Request(Units(nbytes)), brk)
      ensures r.Some? ==> Gains(free, before, r.value - UNIT, r.value + UNIT * (Units(nbytes) - 1))
    {
      hide Ordered, Within, LiveOk, Separate, Linked, LinkOk, Take, Gains, Taken, Header, Passed, TooSmall, Steps,
           OnRing;
      var n := Units(nbytes);
      hide Units, Request;
      if freep == 0 { Start(); }
      var prev: nat := freep;
      ghost var f: nat := IndexOf(base, free, freep);
      Round(ptr, size, base, free, f);
      var p: nat := ptr[prev];
      ghost var i: nat, grown := After(free, f), false;
      PassedNone(free, n, f);
      GainsNothing(free, brk);
      while true
        invariant Valid() && freep != 0 && live == old(live) && f <= |free| && Header(base, free, f) == freep
        invariant i <= |free| && p == Header(base, free, i) && prev == Header(base, free, Before(free, i))
        invariant if grown then grant.Some? && brk == old(brk) + grant.value + UNIT * Request(n) &&
                                TooSmall(old(free), n) && !TooSmall(free, n)
                  else brk == old(brk) && free == old(free)
        invariant Gains(old(free), free, if grown then brk - UNIT * Request(n) else brk, brk)
        invariant Passed(free, n, f, i)
        decreases !grown, Steps(free, i, f)
      {
        Round(ptr, size, base, free, i);
        if i == f { SameHeader(base, free, base + UNIT, brk, i, f); }
        if size[p] >= n {
          before := free;
          var bp := Carve(prev, p, n, i - 1);
          return Some(bp + UNIT), before;
        }
        if p == freep {
          SameHeader(base, free, base + UNIT, brk, i, f);
          AllPassed(free, n, f);
          var ok := Morecore(n, grant);
          if !ok { return None, free; }
          grown := true;
          p := freep;
          f := IndexOf(base, free, freep);
          i := f;
          Round(ptr, size, base, free, i);
          PassedNone(free, n, f);
        } else {
          PassedOne(free, n, f, i);
        }
        prev, p := p, ptr[p];
        i := After(free, i);
      }
    }
  }

  lemma LiveApart(free: seq<Block>, live: Live, a: nat, lo: nat, hi: nat)
    requires Separate(free, live) && LiveOk(live, lo, hi) && a in live
    ensures live[a] > 0 && lo <= a && a + UNIT * live[a] <= hi &&
            forall i :: 0 <= i < |free| ==> Apart(free[i], Block(a, live[a]))
  {
  }

  /** What free's two tests find at the i-th header: they succeed exactly at the right place. */
  lemma Look(ptr: Fields, size: Fields, base: nat, free: seq<Block>, b: Block, j: nat, lo: nat, hi: nat, i: nat)
    requires Linked(ptr, size, base, free) && Ordered(free) && Within(free, lo, hi) && base < lo <= b.a &&
             Fits(free, b, j) && i <= |free|
    ensures var p: nat := Header(base, free, i);
      && p in ptr && p in size && ptr[p] == Header(base, free, After(free, i)) && ptr[p] in ptr && ptr[p] in size
      && (b.a > p && b.a < ptr[p] <==> i == j && i < |free|)
      && (p >= ptr[p] && (b.a > p || b.a < ptr[p]) <==> i == j && i == |free|)
  {
    assert LinkOk(ptr, size, base, free, i) && LinkOk(ptr, size, base, free, After(free, i));
    BelowPlace(base, free, b, j, lo, hi, i);
    BelowPlace(base, free, b, j, lo, hi, After(free, i));
    if i < |free| {
      HeadersDiffer(base, free, lo, hi, i, i + 1);
    } else if i > 0 {
      HeadersDiffer(base, free, lo, hi, 0, i);
    }
    hide Ordered, Within, Fits, Linked;
  }

  lemma InsertOnRing(base: nat, free: seq<Block>, b: Block, j: nat)
    requires j <= |free|
    ensures OnRing(base, Insert(free, b, j), Header(base, free, j))
  {
    assert Header(base, Insert(free, b, j), j) == Header(base, free, j);
  }

  lemma InsertSeparate(free: seq<Block>, live: Live, b: Block, j: nat, lo: nat, hi: nat)
    requires Ordered(free) && Fits(free, b, j) && LiveOk(live, lo, hi) && Separate(free, live) && b.a in live &&
             b.n == live[b.a]
    ensures LiveOk(live - {b.a}, lo, hi) && Separate(Insert(free, b, j), live - {b.a})
  {
    hide Insert;
    forall a | a in live && a != b.a
      ensures forall i :: 0 <= i < |Insert(free, b, j)| ==> Apart(Insert(free, b, j)[i], Block(a, live[a]))
    {
      InsertApart(free, b, j, Block(a, live[a]));
    }
  }

  /** free writes no size of a block that stays live. */
  lemma FreedLive(ptr: Fields, size: Fields, base: nat, free: seq<Block>, live: Live, bp: nat, j: nat, lo: nat, hi: nat)
    requires bp in live && bp in size && Linked(ptr, size, base, free) && Ordered(free) && Separate(free, live) &&
             LiveOk(live, lo, hi) && 0 < base < lo && Within(free, lo, hi) && j <= |free|
    requires forall a :: a in live ==> a in size && size[a] == live[a]
    ensures var p: nat := Header(base, free, j);
      && p != bp && p > 0 && p in ptr && p in size && ptr[p] in size
      && forall a :: a in live && a != bp ==>
                       a in FreedSize(ptr, size, bp, p) && FreedSize(ptr, size, bp, p)[a] == live[a]
  {
    assert LinkOk(ptr, size, base, free, j) && LinkOk(ptr, size, base, free, After(free, j));
    forall a | a in live ensures a != Header(base, free, j) {
      if j > 0 { assert Apart(free[j - 1], Block(a, live[a])); }
    }
  }

  /** What morecore asks for, in units. */
  function Request(nu: nat): (n: nat)
    ensures n >= nu
  {
    if nu < 4096 then 4096 else nu
  }

  /** A value passed as a C int: the low 32 bits, read as a signed number. */
  function AsInt(x: nat): (r: int) {
    var low := x % 0x1_0000_0000;
    if low < 0x8000_0000 then low else low - 0x1_0000_0000
  }

  /** sbrk gets the byte count morecore computed exactly if it is below 2^31. */
  lemma SbrkArgument(n: nat)
    ensures AsInt(n * UNIT) == n * UNIT <==> n * UNIT < 0x8000_0000
  {
  }

  /** The largest request whose memory sbrk is asked for correctly; one byte more asks it to shrink the process. */
  lemma LargestRequest(nbytes: nat)
    ensures AsInt(Request(Units(nbytes)) * UNIT) == Request(Units(nbytes)) * UNIT <==> nbytes <= 2147483616
    ensures AsInt(Request(Units(2147483617)) * UNIT) == -0x8000_0000
  {
    SbrkArgument(Request(Units(nbytes)));
  }

  lemma MoreSpace(ptr: Fields, size: Fields, base: nat, free: seq<Block>, live: Live, brk: nat, hp: nat, n: nat)
    requires Ordered(free) && Within(free, base + UNIT, brk) && LiveOk(live, base + UNIT, brk) &&
             Separate(free, live) && base + UNIT <= brk <= hp && n > 0
    requires Linked(ptr, size, base, free) && forall a :: a in live ==> a in size && size[a] == live[a]
    ensures hp !in live && Within(free, base + UNIT, hp + UNIT * n) && Separate(free, live[hp := n])
    ensures LiveOk(live[hp := n], base + UNIT, hp + UNIT * n)
    ensures Linked(ptr, size[hp := n], base, free)
  {
    var size' := size[hp := n];
    forall i | 0 <= i <= |free| ensures LinkOk(ptr, size', base, free, i) {
      assert LinkOk(ptr, size, base, free, i);
      assert Header(base, free, i) < brk;
    }
  }

  lemma RingEntry(ptr: Fields, size: Fields, base: nat, free: seq<Block>, k: nat)
    requires Linked(ptr, size, base, free) && k < |free|
    ensures var p: nat := Header(base, free, k + 1); p in ptr && p in size && size[p] == free[k].n && p == free[k].a
  {
    assert LinkOk(ptr, size, base, free, k + 1);
  }

  lemma TakeLive(free: seq<Block>, live: Live, k: nat, n: nat, lo: nat, hi: nat)
    requires Ordered(free) && Within(free, lo, hi) && LiveOk(live, lo, hi) && Separate(free, live) && k < |free| &&
             0 < n <= free[k].n
    ensures var b := Taken(free[k], n);
      && b.a !in live && free[k].a !in live
      && LiveOk(live[b.a := n], lo, hi) && Separate(Take(free, k, n), live[b.a := n]) &&
         Within(Take(free, k, n), lo, hi)
  {
    var b := Taken(free[k], n);
    forall a | a in live ensures a != b.a && a != free[k].a && Apart(b, Block(a, live[a]))
      && forall i :: 0 <= i < |Take(free, k, n)| ==> Apart(Take(free, k, n)[i], Block(a, live[a]))
    {
      assert Apart(free[k], Block(a, live[a]));
      TakeApart(free, k, n, Block(a, live[a]));
    }
    TakeOrdered(free, k, n);
    TakeWithin(free, k, n, lo, hi);
    hide Taken, Take, Apart, Within;
  }

  /** Header i of the ring without block k. */
  lemma TakeLink(ptr: Fields, size: Fields, base: nat, free: seq<Block>, k: nat, lo: nat, hi: nat, i: nat)
    requires Linked(ptr, size, base, free) && Ordered(free) && Within(free, lo, hi) && 0 < base < lo && k < |free|
    requires i < |free| && Header(base, free, k + 1) in ptr
    ensures LinkOk(ptr[Header(base, free, k) := ptr[Header(base, free, k + 1)]], size, base,
                   free[..k] + free[k + 1..], i)
  {
    assert LinkOk(ptr, size, base, free, k + 1);
    var r := free[..k] + free[k + 1..];
    var i' := if i <= k then i else i + 1;
    assert LinkOk(ptr, size, base, free, i');
    assert Header(base, r, i) == Header(base, free, i');
    if i' < k {
      HeadersDiffer(base, free, lo, hi, i', k);
    } else if k < i' {
      HeadersDiffer(base, free, lo, hi, k, i');
    }
    hide Linked, Ordered, Within;
  }

  lemma TakeWhole(ptr: Fields, size: Fields, base: nat, free: seq<Block>, k: nat, lo: nat, hi: nat)
    requires Linked(ptr, size, base, free) && Ordered(free) && Within(free, lo, hi) && 0 < base < lo && k < |free|
    ensures var prev: nat, p: nat := Header(base, free, k), Header(base, free, k + 1);
      && prev > 0 && p in ptr
      && Linked(ptr[prev := ptr[p]], size, base, free[..k] + free[k + 1..])
      && OnRing(base, free[..k] + free[k + 1..], prev)
  {
    var prev: nat, p: nat := Header(base, free, k), Header(base, free, k + 1);
    assert LinkOk(ptr, size, base, free, k + 1) && p in ptr;
    hide LinkOk;
    var r := free[..k] + free[k + 1..];
    var ptr' := ptr[prev := ptr[p]];
    forall i | 0 <= i <= |r| ensures LinkOk(ptr', size, base, r, i) {
      TakeLink(ptr, size, base, free, k, lo, hi, i);
    }
    assert Header(base, r, k) == prev;
  }

  lemma TakeTail(ptr: Fields, size: Fields, base: nat, free: seq<Block>, live: Live, k: nat, n: nat, lo: nat, hi: nat)
    requires Linked(ptr, size, base, free) && Ordered(free) && Within(free, lo, hi) && 0 < base < lo && k < |free| &&
             0 < n < free[k].n
    requires LiveOk(live, lo, hi) && Separate(free, live)
    ensures var prev: nat, p: nat := Header(base, free, k), Header(base, free, k + 1);
      var r := free[k := Block(free[k].a, free[k].n - n)];
      && prev > 0 && p in size && size[p] == free[k].n
      && Linked(ptr, size[p := free[k].n - n][Taken(free[k], n).a := n], base, r) && OnRing(base, r, prev)
  {
    var prev: nat, p: nat := Header(base, free, k), Header(base, free, k + 1);
    var r := free[k := Block(free[k].a, free[k].n - n)];
    var t := Taken(free[k], n).a;
    var size' := size[p := free[k].n - n][t := n];
    assert LinkOk(ptr, size, base, free, k + 1);
    forall i | 0 <= i <= |r| ensures LinkOk(ptr, size', base, r, i) {
      assert LinkOk(ptr, size, base, free, i);
      assert Header(base, r, i) == Header(base, free, i);
      if i <= k { HeadersDiffer(base, free, lo, hi, i, k + 1); }
      else if i > k + 1 { assert End(free[k]) < free[i - 1].a; }
    }
    assert Header(base, r, k) == prev;
  }

  /** malloc's nunits: the bytes rounded up to units, and a header. */
  function Units(nbytes: nat): (n: nat)
    ensures n > 0 && UNIT * (n - 1) >= nbytes > UNIT * (n - 2)
  {
    (nbytes + UNIT - 1) / UNIT + 1
  }

  ghost predicate TooSmall(free: seq<Block>, n: nat) {
    forall i :: 0 <= i < |free| ==> free[i].n < n
  }

  function Before(free: seq<Block>, i: nat): (k: nat)
    requires i <= |free|
    ensures k <= |free|
  {
    if i > 0 then i - 1 else |free|
  }

  /** The blocks strictly after header f and before header i, going round, are too small. */
  ghost predicate Passed(free: seq<Block>, n: nat, f: nat, i: nat)
    requires f <= |free| && i <= |free|
  {
    forall k :: 0 < k <= |free| && Steps(free, k, f) > Steps(free, i, f) ==> free[k - 1].n < n
  }

  lemma EmptyRing(ptr: Fields, size: Fields, base: nat)
    requires base in ptr && base in size && ptr[base] == base && size[base] == 0
    ensures Linked(ptr, size, base, []) && OnRing(base, [], base)
  {
    assert Header(base, [], 0) == base;
  }

  lemma Round(ptr: Fields, size: Fields, base: nat, free: seq<Block>, i: nat)
    requires Linked(ptr, size, base, free) && i <= |free|
    ensures var p: nat := Header(base, free, i);
      p in ptr && p in size && ptr[p] == Header(base, free, After(free, i)) &&
      size[p] == if i == 0 then 0 else free[i - 1].n
  {
    assert LinkOk(ptr, size, base, free, i);
  }

  lemma SameHeader(base: nat, free: seq<Block>, lo: nat, hi: nat, i: nat, k: nat)
    requires Ordered(free) && Within(free, lo, hi) && base < lo && i <= |free| && k <= |free| &&
             Header(base, free, i) == Header(base, free, k)
    ensures i == k
  {
    if i < k { HeadersDiffer(base, free, lo, hi, i, k); } else if k < i { HeadersDiffer(base, free, lo, hi, k, i); }
  }

  lemma IndexOf(base: nat, free: seq<Block>, a: nat) returns (i: nat)
    requires OnRing(base, free, a)
    ensures i <= |free| && Header(base, free, i) == a
  {
    i :| 0 <= i <= |free| && Header(base, free, i) == a;
  }

  lemma GainsNothing(free: seq<Block>, a: nat)
    ensures Gains(free, free, a, a)
  {
  }

  lemma PassedNone(free: seq<Block>, n: nat, f: nat)
    requires f <= |free|
    ensures Passed(free, n, f, After(free, f))
  {
  }

  lemma PassedOne(free: seq<Block>, n: nat, f: nat, i: nat)
    requires f <= |free| && i <= |free| && i != f && Passed(free, n, f, i) && (i > 0 ==> free[i - 1].n < n)
    ensures Passed(free, n, f, After(free, i)) && Steps(free, After(free, i), f) < Steps(free, i, f)
  {
  }

  lemma AllPassed(free: seq<Block>, n: nat, f: nat)
    requires f <= |free| && Passed(free, n, f, f) && (f > 0 ==> free[f - 1].n < n)
    ensures TooSmall(free, n)
  {
    forall i | 0 <= i < |free| ensures free[i].n < n {
      assert i + 1 == f || Steps(free, i + 1, f) > 0;
    }
  }
}
