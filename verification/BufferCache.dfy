/** The buffer cache: NBUF buffers on a doubly linked list kept in order of last
    release, reference counts that include the log's pins, and the contents a reader
    is promised. Each method is one critical section, or one use of a buffer whose
    sleep lock the caller holds, so a run of the cache is any sequence of calls. */
module BufferCache {
  import opened Params
  import opened DiskBlock
  import opened CrashSafety

  const HEAD: nat := NBUF   // list position of bcache.head

  /** struct buf without its list pointers; holder is the pid in its sleep lock, 0 when free. */
  datatype Buf = Buf(valid: bool, dev: nat, blockno: nat, holder: nat, refcnt: nat, data: Block) {
    predicate Is(b: nat) { dev == ROOTDEV && blockno == b }
  }

  // The list

  /** The ring, head first and then latest release first; pos is its inverse, and stamp
      the time of each buffer's last release. */
  datatype Lru = Lru(ring: seq<nat>, pos: seq<nat>, stamp: seq<nat>, clock: nat)

  function Succ(i: nat): (j: nat) { if i >= NBUF then 0 else i + 1 }

  function Pred(i: nat): (j: nat) { if i == 0 then NBUF else i - 1 }

  ghost predicate Permutation(u: Lru) {
    && |u.ring| == |u.pos| == NBUF + 1
    && u.ring[0] == HEAD
    && (forall i :: 0 <= i <= NBUF ==> u.ring[i] <= NBUF && u.pos[u.ring[i]] == i)
    && (forall x :: 0 <= x <= NBUF ==> u.pos[x] <= NBUF && u.ring[u.pos[x]] == x)
  }

  /** The pointers spell the ring. */
  ghost predicate Linked(next: seq<nat>, prev: seq<nat>, u: Lru) {
    && |next| == |prev| == NBUF + 1
    && Permutation(u)
    && (forall x {:trigger next[x]} :: 0 <= x <= NBUF ==> next[x] == u.ring[Succ(u.pos[x])])
    && (forall x {:trigger prev[x]} :: 0 <= x <= NBUF ==> prev[x] == u.ring[Pred(u.pos[x])])
  }

  ghost predicate Recency(u: Lru) {
    && Permutation(u) && |u.stamp| == NBUF
    && (forall x :: 0 <= x < NBUF ==> u.stamp[x] < u.clock)
    && (forall x, y :: 0 <= x < NBUF && 0 <= y < NBUF && u.pos[x] < u.pos[y] ==> u.stamp[x] > u.stamp[y])
  }

  /** x is released now: it moves to the front and everything before it moves back. */
  function Released(u: Lru, x: nat): (r: Lru)
    requires |u.ring| == |u.pos| == NBUF + 1 && |u.stamp| == NBUF && x < NBUF
    ensures |r.ring| == |r.pos| == NBUF + 1
  {
    var p := u.pos[x];
    Lru(seq(NBUF + 1, i requires 0 <= i <= NBUF =>
          if i == 0 then HEAD else if i == 1 then x else if i <= p then u.ring[i - 1] else u.ring[i]),
        seq(NBUF + 1, y requires 0 <= y <= NBUF =>
          if y == x then 1 else if 1 <= u.pos[y] < p then u.pos[y] + 1 else u.pos[y]),
        u.stamp[x := u.clock], u.clock + 1)
  }

  lemma ReleasedPermutes(u: Lru, x: nat)
    requires Permutation(u) && |u.stamp| == NBUF && x < NBUF
    ensures Permutation(Released(u, x))
    ensures Recency(u) ==> Recency(Released(u, x))
  {
    var r := Released(u, x);
    assert u.pos[u.ring[0]] == 0;
    forall y | 0 <= y <= NBUF ensures r.pos[y] <= NBUF && r.ring[r.pos[y]] == y {
      assert u.ring[u.pos[y]] == y;
    }
  }

  /** brelse's pointer updates. */
  function Relink(next: seq<nat>, prev: seq<nat>, x: nat): (r: (seq<nat>, seq<nat>))
    requires |next| == |prev| == NBUF + 1 && x < NBUF
    requires next[x] <= HEAD && prev[x] <= HEAD
    requires next[prev[x] := next[x]][HEAD] <= HEAD
    ensures |r.0| == |r.1| == NBUF + 1
  {
    var prev1 := prev[next[x] := prev[x]];
    var next1 := next[prev[x] := next[x]];
    var first := next1[HEAD];
    (next1[x := first][HEAD := x], prev1[x := HEAD][first := x])
  }

  /** Where x and its neighbours sit. */
  lemma Neighbours(next: seq<nat>, prev: seq<nat>, u: Lru, x: nat)
    requires Linked(next, prev, u) && x < NBUF
    ensures var p := u.pos[x];
            && 1 <= p <= NBUF && next[x] == u.ring[Succ(p)] && prev[x] == u.ring[p - 1]
            && (prev[x] == HEAD <==> p == 1) && (next[x] == HEAD <==> p == NBUF)
            && next[HEAD] == u.ring[1] && prev[HEAD] == u.ring[NBUF]
            && next[prev[x] := next[x]][HEAD] == u.ring[if p == 1 then 2 else 1]
  {
    assert u.pos[u.ring[0]] == 0;
  }

  lemma RelinkNext(next: seq<nat>, prev: seq<nat>, u: Lru, x: nat, y: nat)
    requires Linked(next, prev, u) && |u.stamp| == NBUF && x < NBUF && y <= NBUF
    requires next[x] <= HEAD && prev[x] <= HEAD && next[prev[x] := next[x]][HEAD] <= HEAD
    requires Permutation(Released(u, x))
    ensures var r := Released(u, x); Relink(next, prev, x).0[y] == r.ring[Succ(r.pos[y])]
  {
    Neighbours(next, prev, u, x);
    var r, p, q := Released(u, x), u.pos[x], u.pos[y];
    assert y == u.ring[q] && next[y] == u.ring[Succ(q)];
    if y == HEAD {
    } else if y == x {
      assert r.pos[y] == 1;
    } else if q < p - 1 {
      assert r.pos[y] == q + 1;
    } else if q == p - 1 {
      assert y == prev[x] && r.pos[y] == p;
    } else {
      assert r.pos[y] == q;
    }
  }

  lemma RelinkPrev(next: seq<nat>, prev: seq<nat>, u: Lru, x: nat, y: nat)
    requires Linked(next, prev, u) && |u.stamp| == NBUF && x < NBUF && y <= NBUF
    requires next[x] <= HEAD && prev[x] <= HEAD && next[prev[x] := next[x]][HEAD] <= HEAD
    requires Permutation(Released(u, x))
    ensures var r := Released(u, x); Relink(next, prev, x).1[y] == r.ring[Pred(r.pos[y])]
  {
    Neighbours(next, prev, u, x);
    var r, p, q := Released(u, x), u.pos[x], u.pos[y];
    assert y == u.ring[q] && prev[y] == u.ring[Pred(q)];
    if y == HEAD {
      assert r.pos[y] == 0;
    } else if y == x {
      assert r.pos[y] == 1;
    } else if q < p {
      assert r.pos[y] == q + 1;
    } else {
      assert r.pos[y] == q;
    }
  }

  lemma RelinkMoves(next: seq<nat>, prev: seq<nat>, u: Lru, x: nat)
    requires Linked(next, prev, u) && |u.stamp| == NBUF && x < NBUF
    ensures next[x] <= HEAD && prev[x] <= HEAD && next[prev[x] := next[x]][HEAD] <= HEAD
    ensures var (n, v) := Relink(next, prev, x); Linked(n, v, Released(u, x))
  {
    ReleasedPermutes(u, x);
    Neighbours(next, prev, u, x);
    var (n, v) := Relink(next, prev, x);
    var r := Released(u, x);
    forall y {:trigger n[y]} | 0 <= y <= NBUF
      ensures n[y] == r.ring[Succ(r.pos[y])] { RelinkNext(next, prev, u, x, y); }
    forall y {:trigger v[y]} | 0 <= y <= NBUF
      ensures v[y] == r.ring[Pred(r.pos[y])] { RelinkPrev(next, prev, u, x, y); }
  }

  // Reference counts and contents

  /** users counts the bget calls not yet matched by brelse; view is what the holders of
      the blocks have been told; dirty blocks were changed and neither logged nor written. */
  datatype Ledger = Ledger(users: seq<nat>, pinned: set<nat>, dirty: set<nat>, view: Disk, trace: seq<Write>)

  ghost predicate Cached(buf: seq<Buf>, b: nat) {
    exists i :: 0 <= i < |buf| && buf[i].Is(b) && buf[i].valid
  }

  function Pins(x: Buf, pinned: set<nat>): (n: nat) {
    if x.dev == ROOTDEV && x.blockno in pinned then 1 else 0
  }

  ghost predicate Slot(x: Buf, users: nat, g: Ledger, d: Disk) {
    && |g.view| == |d|
    && x.refcnt == users + Pins(x, g.pinned)
    && (x.dev == ROOTDEV || (x.dev == 0 && users == 0 && !x.valid))
    && (x.dev == ROOTDEV ==> x.blockno < |d|)
    && (x.holder != 0 ==> users > 0)
    && (x.valid ==> x.data == g.view[x.blockno])
  }

  ghost predicate Coherent(buf: seq<Buf>, g: Ledger, d: Disk) {
    && |buf| == NBUF && |g.users| == NBUF && |g.view| == |d|
    && (forall i :: 0 <= i < NBUF ==> Slot(buf[i], g.users[i], g, d))
    && (forall i, j :: 0 <= i < j < NBUF && buf[i].dev == ROOTDEV && buf[j].dev == ROOTDEV ==>
                         buf[i].blockno != buf[j].blockno)
    && (forall b :: b in g.pinned ==> b < |d| && Cached(buf, b))
    && (forall b :: b in g.dirty ==> b < |d| && Cached(buf, b))
    && (forall b :: 0 <= b < |d| && b !in g.pinned && b !in g.dirty ==> g.view[b] == d[b])
  }

  ghost predicate Unused(buf: seq<Buf>) {
    exists i :: 0 <= i < |buf| && buf[i].refcnt == 0
  }

  /** Nobody holds the sleep lock of the buffer of b. */
  ghost predicate Unlocked(buf: seq<Buf>, b: nat) {
    forall i :: 0 <= i < |buf| && buf[i].Is(b) ==> buf[i].holder == 0
  }

  // The bookkeeping survives each kind of buffer update

  lemma TakeReference(buf: seq<Buf>, g: Ledger, d: Disk, r: nat)
    requires Coherent(buf, g, d) && r < NBUF && buf[r].dev == ROOTDEV
    ensures Coherent(buf[r := buf[r].(refcnt := buf[r].refcnt + 1)], g.(users := g.users[r := g.users[r] + 1]), d)
  {
    var n := buf[r := buf[r].(refcnt := buf[r].refcnt + 1)];
    KeepWitnesses(buf, n, r);
  }

  /** Rewriting slot r, keeping its block number and validity, loses no cached block. */
  lemma KeepWitnesses(buf: seq<Buf>, n: seq<Buf>, r: nat)
    requires |buf| == |n| == NBUF && r < NBUF
    requires forall i :: 0 <= i < NBUF && i != r ==> n[i] == buf[i]
    requires n[r].dev == buf[r].dev && n[r].blockno == buf[r].blockno
    requires buf[r].valid ==> n[r].valid
    ensures forall b :: Cached(buf, b) ==> Cached(n, b)
  {
    forall b | Cached(buf, b) ensures Cached(n, b) {
      var i :| 0 <= i < |buf| && buf[i].Is(b) && buf[i].valid;
      assert n[i].Is(b) && n[i].valid;
    }
  }

  /** What is known once buffer x has been given to another block: a change nobody logged or wrote is lost. */
  function Evicted(g: Ledger, x: Buf, d: Disk): (r: Ledger)
    ensures x.blockno !in g.dirty ==> r == g
  {
    if x.dev == ROOTDEV && x.blockno in g.dirty && x.blockno < |d| == |g.view| then
      g.(view := g.view[x.blockno := d[x.blockno]], dirty := g.dirty - {x.blockno})
    else g
  }

  /** An unused buffer can be given to an uncached block: nothing logged is lost. */
  lemma Recycle(buf: seq<Buf>, g: Ledger, d: Disk, r: nat, b: nat)
    requires Coherent(buf, g, d) && r < NBUF && buf[r].refcnt == 0 && b < |d|
    requires forall i :: 0 <= i < NBUF ==> !buf[i].Is(b)
    ensures b !in g.pinned && b !in g.dirty && (buf[r].dev == ROOTDEV ==> buf[r].blockno !in g.pinned)
    ensures Coherent(buf[r := buf[r].(dev := ROOTDEV, blockno := b, valid := false, refcnt := 1)],
                     Evicted(g, buf[r], d).(users := g.users[r := 1]), d)
  {
    var n := buf[r := buf[r].(dev := ROOTDEV, blockno := b, valid := false, refcnt := 1)];
    var g' := Evicted(g, buf[r], d).(users := g.users[r := 1]);
    assert !Cached(buf, b);
    assert Slot(buf[r], g.users[r], g, d);
    forall c | c in g'.pinned || c in g'.dirty ensures Cached(n, c) {
      assert Cached(buf, c);
      var i :| 0 <= i < |buf| && buf[i].Is(c) && buf[i].valid;
      assert Slot(buf[i], g.users[i], g, d);
      assert n[i].Is(c) && n[i].valid;
    }
    forall i | 0 <= i < NBUF ensures Slot(n[i], g'.users[i], g', d) {
      assert Slot(buf[i], g.users[i], g, d);
    }
  }

  /** The caller of bread has the lock and sees the contents it was promised. */
  lemma Fill(buf: seq<Buf>, g: Ledger, d: Disk, r: nat, me: nat)
    requires Coherent(buf, g, d) && r < NBUF && buf[r].dev == ROOTDEV && g.users[r] > 0 && me != 0
    ensures var x := buf[r].(holder := me, valid := true,
                             data := if buf[r].valid then buf[r].data else d[buf[r].blockno]);
            x.data == g.view[x.blockno] && Coherent(buf[r := x], g, d)
  {
    var b := buf[r].blockno;
    var x := buf[r].(holder := me, valid := true, data := if buf[r].valid then buf[r].data else d[b]);
    assert Slot(buf[r], g.users[r], g, d);
    if !buf[r].valid {
      assert !Cached(buf, b);
    }
    KeepWitnesses(buf, buf[r := x], r);
  }

  /** The holder changes its buffer. */
  lemma Change(buf: seq<Buf>, g: Ledger, d: Disk, r: nat, data: Block)
    requires Coherent(buf, g, d) && r < NBUF && buf[r].valid && buf[r].holder != 0
    ensures buf[r].blockno < |g.view|
    ensures Coherent(buf[r := buf[r].(data := data)],
                     g.(view := g.view[buf[r].blockno := data], dirty := g.dirty + {buf[r].blockno}), d)
  {
    assert Slot(buf[r], g.users[r], g, d);
    var n := buf[r := buf[r].(data := data)];
    KeepWitnesses(buf, n, r);
    assert n[r].Is(buf[r].blockno);
    var g' := g.(view := g.view[buf[r].blockno := data], dirty := g.dirty + {buf[r].blockno});
    forall i | 0 <= i < NBUF ensures Slot(n[i], g'.users[i], g', d) {
      assert Slot(buf[i], g.users[i], g, d);
    }
  }

  /** Writing a held buffer to disk cleans it. */
  lemma WriteBack(buf: seq<Buf>, g: Ledger, d: Disk, r: nat)
    requires Coherent(buf, g, d) && r < NBUF && buf[r].valid
    ensures buf[r].blockno < |d|
    ensures var b := buf[r].blockno;
            Coherent(buf, g.(dirty := g.dirty - {b}, trace := g.trace + [Write(b, buf[r].data)]), d[b := buf[r].data])
  {
    assert Slot(buf[r], g.users[r], g, d);
    var b := buf[r].blockno;
    var g' := g.(dirty := g.dirty - {b}, trace := g.trace + [Write(b, buf[r].data)]);
    forall i | 0 <= i < NBUF ensures Slot(buf[i], g'.users[i], g', d[b := buf[r].data]) {
      assert Slot(buf[i], g.users[i], g, d);
    }
  }

  lemma DropReference(buf: seq<Buf>, g: Ledger, d: Disk, r: nat)
    requires Coherent(buf, g, d) && r < NBUF && buf[r].holder != 0
    ensures |buf| == |g.users| == NBUF && g.users[r] > 0 && buf[r].refcnt > 0
    ensures Coherent(buf[r := buf[r].(holder := 0, refcnt := buf[r].refcnt - 1)],
                     g.(users := g.users[r := g.users[r] - 1]), d)
  {
    assert Slot(buf[r], g.users[r], g, d);
    var n := buf[r := buf[r].(holder := 0, refcnt := buf[r].refcnt - 1)];
    KeepWitnesses(buf, n, r);
    var u := g.users[r := g.users[r] - 1];
    forall i | 0 <= i < NBUF ensures Slot(n[i], u[i], g.(users := u), d) {
      assert Slot(buf[i], g.users[i], g, d);
    }
  }

  /** A pin keeps the buffer of a logged block in use. */
  lemma Pin(buf: seq<Buf>, g: Ledger, d: Disk, r: nat)
    requires Coherent(buf, g, d) && r < NBUF && buf[r].valid && buf[r].blockno !in g.pinned
    ensures Coherent(buf[r := buf[r].(refcnt := buf[r].refcnt + 1)],
                     g.(pinned := g.pinned + {buf[r].blockno}, dirty := g.dirty - {buf[r].blockno}), d)
  {
    assert Slot(buf[r], g.users[r], g, d);
    var n := buf[r := buf[r].(refcnt := buf[r].refcnt + 1)];
    KeepWitnesses(buf, n, r);
    assert n[r].Is(buf[r].blockno);
    var g' := g.(pinned := g.pinned + {buf[r].blockno}, dirty := g.dirty - {buf[r].blockno});
    forall i | 0 <= i < NBUF ensures Slot(n[i], g'.users[i], g', d) {
      assert Slot(buf[i], g.users[i], g, d);
    }
  }

  /** A block may be unpinned once its contents are on disk. */
  lemma Unpin(buf: seq<Buf>, g: Ledger, d: Disk, r: nat)
    requires Coherent(buf, g, d) && r < NBUF && buf[r].valid && buf[r].blockno in g.pinned
    requires d[buf[r].blockno] == g.view[buf[r].blockno]
    ensures buf[r].refcnt > 0
    ensures Coherent(buf[r := buf[r].(refcnt := buf[r].refcnt - 1)], g.(pinned := g.pinned - {buf[r].blockno}), d)
  {
    assert Slot(buf[r], g.users[r], g, d);
    var n := buf[r := buf[r].(refcnt := buf[r].refcnt - 1)];
    KeepWitnesses(buf, n, r);
    var g' := g.(pinned := g.pinned - {buf[r].blockno});
    forall i | 0 <= i < NBUF ensures Slot(n[i], g'.users[i], g', d) {
      assert Slot(buf[i], g.users[i], g, d);
    }
  }

  function InitialLru(): (u: Lru) {
    Lru(seq(NBUF + 1, i requires 0 <= i <= NBUF => NBUF - i), seq(NBUF + 1, i requires 0 <= i <= NBUF => NBUF - i),
        seq(NBUF, i => i), NBUF)
  }

  lemma InitialLinks(next: seq<nat>, prev: seq<nat>)
    requires |next| == |prev| == NBUF + 1
    requires next[HEAD] == NBUF - 1 && prev[HEAD] == 0
    requires forall i :: 0 <= i < NBUF ==> next[i] == if i == 0 then HEAD else i - 1
    requires forall i :: 0 <= i < NBUF ==> prev[i] == i + 1
    ensures Linked(next, prev, InitialLru()) && Recency(InitialLru())
  {
  }

  lemma CoherentSize(buf: seq<Buf>, g: Ledger, d: Disk)
    requires Coherent(buf, g, d)
    ensures |buf| == |g.users| == NBUF
  {
  }

  /** A buffer without references is not locked. */
  lemma IdleBuffer(buf: seq<Buf>, g: Ledger, d: Disk, r: nat)
    requires Coherent(buf, g, d) && r < NBUF && buf[r].refcnt == 0
    ensures buf[r].holder == 0 && g.users[r] == 0
  {
    assert Slot(buf[r], g.users[r], g, d);
  }

  /** Following prev from the p-th place of the ring. */
  lemma BackOne(next: seq<nat>, prev: seq<nat>, u: Lru, p: nat)
    requires Linked(next, prev, u) && p <= NBUF
    ensures |u.ring| == NBUF + 1 && |prev| == NBUF + 1 && u.ring[p] <= HEAD && prev[u.ring[p]] == u.ring[Pred(p)] &&
            (u.ring[p] == HEAD <==> p == 0)
    ensures u.ring[0] == HEAD && u.ring[Pred(p)] <= HEAD
  {
    assert u.pos[u.ring[p]] == p && u.pos[u.ring[0]] == 0;
  }

  /** Going back, the first unused buffer is the least recently released one. */
  lemma OldestUnused(next: seq<nat>, prev: seq<nat>, u: Lru, buf: seq<Buf>, p: nat)
    requires Linked(next, prev, u) && Recency(u) && |buf| == NBUF && Unused(buf) && p <= NBUF
    requires forall q :: p < q <= NBUF ==> u.ring[q] < NBUF && buf[u.ring[q]].refcnt != 0
    ensures u.ring[p] < NBUF && forall j :: 0 <= j < NBUF && buf[j].refcnt == 0 ==> u.stamp[u.ring[p]] <= u.stamp[j]
  {
    forall j | 0 <= j < NBUF && buf[j].refcnt == 0 ensures 1 <= u.pos[j] <= p { assert u.ring[u.pos[j]] == j; }
    var i :| 0 <= i < NBUF && buf[i].refcnt == 0;
    assert 1 <= u.pos[i] <= p;
    assert u.pos[u.ring[p]] == p;
  }


  class BCache {
    var buf: seq<Buf>
    var next: seq<nat>
    var prev: seq<nat>
    var disk: Disk
    ghost var lru: Lru
    ghost var g: Ledger

    ghost predicate Valid()
      reads this
    {
      Linked(next, prev, lru) && Recency(lru) && Coherent(buf, g, disk)
    }

    /** binit: every buffer zeroed and on the list. */
    constructor (d: Disk)
      ensures Valid()
      ensures disk == d && g == Ledger(seq(NBUF, _ => 0), {}, {}, d, [])
      ensures forall i :: 0 <= i < NBUF ==> buf[i] == Buf(false, 0, 0, 0, 0, Zeroes())
    {
      buf := seq(NBUF, _ => Buf(false, 0, 0, 0, 0, Zeroes()));
      disk := d;
      g := Ledger(seq(NBUF, _ => 0), {}, {}, d, []);
      lru := InitialLru();
      var n, v := seq(NBUF + 1, _ => HEAD), seq(NBUF + 1, _ => HEAD);
      var b := 0;
      while b < NBUF
        invariant 0 <= b <= NBUF && |n| == |v| == NBUF + 1
        invariant n[HEAD] == if b == 0 then HEAD else b - 1
        invariant v[HEAD] == if b == 0 then HEAD else 0
        invariant forall i :: 0 <= i < b ==> n[i] == if i == 0 then HEAD else i - 1
        invariant forall i :: 0 <= i < b ==> v[i] == if i + 1 < b then i + 1 else HEAD
      {
        n := n[b := n[HEAD]];
        v := v[b := HEAD];
        v := v[n[HEAD] := b];
        n := n[HEAD := b];
        b := b + 1;
      }
      InitialLinks(n, v);
      next, prev := n, v;
    }

    /** bget, up to the release of bcache.lock. A cached block's buffer gains a reference;
        otherwise the least recently released unused buffer is recycled. */
    method Bget(b: nat) returns (r: nat)
      requires Valid() && b < |disk|
      requires Unused(buf) || exists i :: 0 <= i < NBUF && buf[i].Is(b)
      modifies this`buf, this`g
      ensures Valid() && r < NBUF && buf[r].Is(b)
      ensures buf == old(buf)[r := buf[r]]
      ensures old(buf[r].Is(b)) ==> buf[r] == old(buf[r]).(refcnt := old(buf[r].refcnt) + 1)
      ensures !old(buf[r].Is(b)) ==>
                && (forall i :: 0 <= i < NBUF ==> !old(buf[i].Is(b)))
                && old(buf[r].refcnt) == 0 && buf[r].refcnt == 1 && !buf[r].valid && buf[r].holder == 0
                && forall i :: 0 <= i < NBUF && old(buf[i].refcnt) == 0 ==> lru.stamp[r] <= lru.stamp[i]
      ensures g == (if old(buf[r].Is(b)) then old(g) else Evicted(old(g), old(buf[r]), disk)).(
                     users := old(g).users[r := old(g).users[r] + 1])
    {
      hide Coherent, Recency, Linked;
      CoherentSize(buf, g, disk);
      r := Lookup(b);
      if r != HEAD {
        TakeReference(buf, g, disk, r);
        buf := buf[r := buf[r].(refcnt := buf[r].refcnt + 1)];
        g := g.(users := g.users[r := g.users[r] + 1]);
      } else {
        r := FindUnused();
        IdleBuffer(buf, g, disk, r);
        Recycle(buf, g, disk, r, b);
        buf := buf[r := buf[r].(dev := ROOTDEV, blockno := b, valid := false, refcnt := 1)];
        g := Evicted(g, old(buf[r]), disk).(users := g.users[r := 1]);
      }
    }

    /** bget's first loop: from the most recently released buffer back. */
    method Lookup(b: nat) returns (r: nat)
      requires Valid()
      ensures r <= HEAD
      ensures r < HEAD ==> buf[r].Is(b)
      ensures r == HEAD ==> forall i :: 0 <= i < NBUF ==> !buf[i].Is(b)
    {
      ghost var p := 1;
      r := next[HEAD];
      while r != HEAD && !(buf[r].dev == ROOTDEV && buf[r].blockno == b)
        invariant 1 <= p <= NBUF + 1 && r == lru.ring[if p <= NBUF then p else 0]
        invariant forall q :: 1 <= q < p ==> !buf[lru.ring[q]].Is(b)
        decreases NBUF - p
      {
        assert lru.pos[lru.ring[p]] == p;
        r := next[r];
        p := p + 1;
      }
      forall i | r == HEAD && 0 <= i < NBUF ensures !buf[i].Is(b) {
        assert lru.ring[lru.pos[i]] == i;
      }
    }

    /** bget's second loop: the least recently released buffer with no references. */
    method FindUnused() returns (r: nat)
      requires Valid() && Unused(buf)
      ensures r < NBUF && buf[r].refcnt == 0
      ensures forall i :: 0 <= i < NBUF && buf[i].refcnt == 0 ==> lru.stamp[r] <= lru.stamp[i]
    {
      hide Coherent, Recency, Linked;
      assert |buf| == NBUF by { CoherentSize(buf, g, disk); }
      ghost var p := NBUF;
      BackOne(next, prev, lru, 0);
      r := prev[HEAD];
      while r != HEAD && buf[r].refcnt != 0
        invariant 0 <= p <= NBUF && r <= HEAD && |lru.ring| == NBUF + 1 && r == lru.ring[p]
        invariant forall q :: p < q <= NBUF ==> lru.ring[q] < NBUF && buf[lru.ring[q]].refcnt != 0
        decreases p
      {
        BackOne(next, prev, lru, p);
        r := prev[r];
        p := p - 1;
      }
      BackOne(next, prev, lru, p);
      OldestUnused(next, prev, lru, buf, p);
    }

    /** bread by process me: the buffer comes back locked, and holds the latest contents of
        block b, logged or on disk. The call completes when nobody else holds the buffer. */
    method Bread(b: nat, me: nat) returns (r: nat)
      requires Valid() && b < |disk| && me != 0
      requires Unused(buf) || exists i :: 0 <= i < NBUF && buf[i].Is(b)
      requires Unlocked(buf, b)
      modifies this`buf, this`g
      ensures Valid() && r < NBUF && buf[r].Is(b) && buf[r].valid && buf[r].holder == me
      ensures buf[r].data == g.view[b] && buf[r].refcnt > 0
      ensures buf == old(buf)[r := buf[r]]
      ensures old(buf[r].Is(b)) || ((forall i :: 0 <= i < NBUF ==> !old(buf[i].Is(b))) && old(buf[r].refcnt) == 0)
      ensures g == (if old(buf[r].Is(b)) then old(g) else Evicted(old(g), old(buf[r]), disk)).(
                     users := old(g).users[r := old(g).users[r] + 1])
      ensures old(g).dirty == {} ==> g == old(g).(users := old(g).users[r := old(g).users[r] + 1])
    {
      r := Bget(b);
      assert Slot(buf[r], g.users[r], g, disk);
      LockAndFill(r, me);
    }

    /** The rest of bread: acquiresleep, and the disk read if the contents are not there yet. */
    method LockAndFill(r: nat, me: nat)
      requires Valid() && r < NBUF && buf[r].dev == ROOTDEV && g.users[r] > 0 && buf[r].holder == 0 && me != 0
      modifies this`buf
      ensures Valid()
      ensures buf[r].dev == ROOTDEV && buf[r].blockno == old(buf[r].blockno) && buf[r].refcnt == old(buf[r].refcnt)
      ensures buf[r].valid && buf[r].holder == me
      ensures buf[r].blockno < |g.view| && buf[r].data == g.view[buf[r].blockno]
      ensures buf == old(buf)[r := buf[r]]
    {
      Fill(buf, g, disk, r, me);
      var x := buf[r].(holder := me);
      if !x.valid {
        x := x.(data := disk[x.blockno], valid := true);
      }
      buf := buf[r := x];
    }

    /** A memmove or a store into the data of a held buffer. */
    method Modify(r: nat, data: Block, me: nat)
      requires Valid() && r < NBUF && buf[r].valid && buf[r].holder == me && me != 0
      modifies this`buf, this`g
      ensures Valid() && buf == old(buf)[r := old(buf[r]).(data := data)]
      ensures buf[r].blockno < |old(g).view|
      ensures g == old(g).(view := old(g).view[buf[r].blockno := data], dirty := old(g).dirty + {buf[r].blockno})
    {
      Change(buf, g, disk, r, data);
      g := g.(view := g.view[buf[r].blockno := data], dirty := g.dirty + {buf[r].blockno});
      buf := buf[r := buf[r].(data := data)];
    }

    method Bwrite(r: nat, me: nat)
      requires Valid() && r < NBUF && buf[r].valid && buf[r].holder == me && me != 0
      modifies this`disk, this`g
      ensures Valid() && buf[r].blockno < |old(disk)|
      ensures disk == old(disk)[buf[r].blockno := buf[r].data]
      ensures g == old(g).(dirty := old(g).dirty - {buf[r].blockno},
                           trace := old(g).trace + [Write(buf[r].blockno, buf[r].data)])
    {
      WriteBack(buf, g, disk, r);
      g := g.(dirty := g.dirty - {buf[r].blockno}, trace := g.trace + [Write(buf[r].blockno, buf[r].data)]);
      disk := disk[buf[r].blockno := buf[r].data];
    }

    /** A buffer whose last reference goes becomes the most recently released. */
    method Brelse(r: nat, me: nat)
      requires Valid() && r < NBUF && buf[r].holder == me && me != 0
      modifies this`buf, this`next, this`prev, this`lru, this`g
      ensures Valid() && old(buf[r].refcnt) > 0 && old(g).users[r] > 0
      ensures buf == old(buf)[r := old(buf[r]).(holder := 0, refcnt := old(buf[r].refcnt) - 1)]
      ensures lru == if buf[r].refcnt == 0 then Released(old(lru), r) else old(lru)
      ensures g == old(g).(users := old(g).users[r := old(g).users[r] - 1])
    {
      hide Linked, Recency, Coherent;
      DropReference(buf, g, disk, r);
      buf := buf[r := buf[r].(holder := 0)];
      buf := buf[r := buf[r].(refcnt := buf[r].refcnt - 1)];
      assert buf == old(buf)[r := old(buf[r]).(holder := 0, refcnt := old(buf[r].refcnt) - 1)];
      g := g.(users := g.users[r := g.users[r] - 1]);
      if buf[r].refcnt == 0 {
        MoveToFront(r);
      }
    }

    method MoveToFront(r: nat)
      requires Linked(next, prev, lru) && Recency(lru) && r < NBUF
      modifies this`next, this`prev, this`lru
      ensures Linked(next, prev, lru) && Recency(lru) && lru == Released(old(lru), r)
    {
      RelinkMoves(next, prev, lru, r);
      ReleasedPermutes(lru, r);
      prev := prev[next[r] := prev[r]];
      next := next[prev[r] := next[r]];
      next := next[r := next[HEAD]];
      prev := prev[r := HEAD];
      prev := prev[next[HEAD] := r];
      next := next[HEAD := r];
      lru := Released(lru, r);
    }

    method Bpin(r: nat, me: nat)
      requires Valid() && r < NBUF && buf[r].valid && buf[r].holder == me && buf[r].blockno !in g.pinned
      modifies this`buf, this`g
      ensures Valid() && buf == old(buf)[r := old(buf[r]).(refcnt := old(buf[r].refcnt) + 1)]
      ensures g == old(g).(pinned := old(g).pinned + {buf[r].blockno}, dirty := old(g).dirty - {buf[r].blockno})
    {
      Pin(buf, g, disk, r);
      g := g.(pinned := g.pinned + {buf[r].blockno}, dirty := g.dirty - {buf[r].blockno});
      buf := buf[r := buf[r].(refcnt := buf[r].refcnt + 1)];
    }

    method Bunpin(r: nat)
      requires Valid() && r < NBUF && buf[r].valid && buf[r].blockno in g.pinned
      requires buf[r].blockno < |disk| && disk[buf[r].blockno] == g.view[buf[r].blockno]
      modifies this`buf, this`g
      ensures Valid() && old(buf[r].refcnt) > 0 && buf == old(buf)[r := old(buf[r]).(refcnt := old(buf[r].refcnt) - 1)]
      ensures g == old(g).(pinned := old(g).pinned - {buf[r].blockno})
    {
      Unpin(buf, g, disk, r);
      g := g.(pinned := g.pinned - {buf[r].blockno});
      buf := buf[r := buf[r].(refcnt := buf[r].refcnt - 1)];
    }

    /** log_write of a block that is already logged: the pin it has is enough. */
    ghost method Absorb(r: nat)
      requires Valid() && r < NBUF && buf[r].valid && buf[r].blockno in g.pinned
      modifies this`g
      ensures Valid() && g == old(g).(dirty := old(g).dirty - {buf[r].blockno})
    {
      g := g.(dirty := g.dirty - {buf[r].blockno});
      assert forall i :: 0 <= i < NBUF ==> Slot(buf[i], g.users[i], old(g), disk);
    }
  }
}
