/** The logging layer on top of the buffer cache: commit and recovery issue exactly the
    block writes that CrashSafety reasons about, and the file system's view of the home
    blocks never changes under its feet. */
module Log {
  import opened Collections
  import opened Params
  import opened DiskBlock
  import opened CrashSafety
  import opened BufferCache
  import R = Reservation

  function BlockSet(s: seq<nat>): (r: set<nat>) { set b | b in s }

  /** The contents of the logged blocks, as the holders of the buffers see them. */
  function Contents(v: Disk, blocks: seq<nat>): (r: seq<Block>)
    requires forall i :: 0 <= i < |blocks| ==> blocks[i] < |v|
    ensures |r| == |blocks|
  {
    seq(|blocks|, i requires 0 <= i < |blocks| => v[blocks[i]])
  }

  /** Nobody else uses the log's own blocks or holds a logged block, and a buffer is free. Home blocks may hold changes
      nobody logged. */
  ghost predicate Quiet(buf: seq<Buf>, g: Ledger, l: Layout) {
    && |buf| == NBUF && |g.users| == NBUF
    && Unused(buf) && (forall b :: b in g.pinned || b in g.dirty ==> !l.InLog(b))
    && forall i :: 0 <= i < NBUF && buf[i].dev == ROOTDEV ==>
         && (l.InLog(buf[i].blockno) ==> g.users[i] == 0)
         && (buf[i].blockno in g.pinned ==> buf[i].holder == 0)
  }

  /** Nobody uses any buffer. */
  ghost predicate Resting(g: Ledger) {
    |g.users| == NBUF && (forall i :: 0 <= i < NBUF ==> g.users[i] == 0) && g.dirty == {}
  }

  /** ... and nothing is logged, as at boot. */
  ghost predicate Untouched(g: Ledger) { Resting(g) && g.pinned == {} }

  /** From g0 to g the contents of logged blocks stay, and changes nobody logged stay or are lost. */
  ghost predicate Steady(g0: Ledger, g: Ledger) {
    && |g.view| == |g0.view| && g.dirty <= g0.dirty
    && forall b :: 0 <= b < |g.view| && (b in g.pinned || b in g.dirty) ==> g.view[b] == g0.view[b]
  }

  /** The home blocks after a commit: on disk, those logged are as their holders last saw them, and the others as
      before; a change nobody logged is still seen by holders, or lost. */
  ghost predicate Committed(l: Layout, g0: Ledger, d0: Disk, g: Ledger, d: Disk) {
    && |g0.view| == |d0| == |d| == |g.view| && g.dirty <= g0.dirty - g0.pinned
    && forall b :: 0 <= b < |d| && !l.InLog(b) ==>
         && d[b] == (if b in g0.pinned then g0.view[b] else d0[b])
         && g.view[b] == if b in g.dirty then g0.view[b] else d[b]
  }

  class Log {
    const cache: BCache
    const l: Layout
    var n: nat
    var block: seq<nat>
    var outstanding: nat
    var committing: bool
    ghost var ops: seq<set<nat>>   // per outstanding operation, the blocks it has logged

    ghost predicate Shape()
      reads this, cache
    {
      && cache.Valid()
      && l.Fits(cache.disk) && |cache.g.view| == |cache.disk| < 0x1_0000_0000
      && |block| == LOGSIZE && n <= LOGSIZE && n < l.size
      && forall i :: 0 <= i < n ==> block[i] < |cache.disk| && !l.InLog(block[i])
    }

    ghost predicate Valid()
      reads this, cache
    {
      && Shape()
      && LogEmpty(l, cache.disk)
      && Distinct(block[..n])
      && cache.g.pinned == BlockSet(block[..n])
      && outstanding == |ops| && (committing ==> ops == [])
    }

    /** The log as Reservation sees it. */
    ghost function Abs(): (s: R.State)
      requires n <= |block|
      reads this
    {
      R.State(BlockSet(block[..n]), ops, committing)
    }

    /** initlog: recovery runs before anything else uses the cache. */
    constructor (c: BCache, layout: Layout, me: nat)
      requires c.Valid() && Untouched(c.g) && me != 0
      requires LogOk(layout, c.disk) && |c.disk| < 0x1_0000_0000
      modifies c
      ensures cache == c && l == layout && Valid() && Abs() == R.Idle && Untouched(c.g)
      ensures c.disk == CrashSafety.Recover(layout, old(c.disk))
      ensures c.g.trace == old(c.g).trace + RecoveryWrites(layout, old(c.disk))
    {
      cache := c;
      l := layout;
      n := 0;
      block := seq(LOGSIZE, _ => 0);
      outstanding := 0;
      committing := false;
      ops := [];
      new;
      RecoverFromLog(me);
    }

    /** With nobody using a buffer commit has what it needs: the log cannot pin every buffer. */
    lemma QuietAtRest()
      requires Valid() && Resting(cache.g) && l.size <= LOGSIZE
      ensures Quiet(cache.buf, cache.g, l)
    {
      hide Linked, Recency, GetWord;
      DistinctSize(block[..n]);
      assert forall b :: b in cache.g.pinned ==> exists i :: 0 <= i < n && block[i] == b;
      RestingQuiet(cache.buf, cache.g, cache.disk, l);
    }

    /** recover_from_log: replays a committed transaction and clears the log. */
    method RecoverFromLog(me: nat)
      requires cache.Valid() && Untouched(cache.g) && me != 0 && |block| == LOGSIZE
      requires LogOk(l, cache.disk) && |cache.disk| < 0x1_0000_0000
      requires outstanding == |ops| && (committing ==> ops == [])
      modifies cache, this`n, this`block
      ensures Valid() && n == 0 && Quiet(cache.buf, cache.g, l) && Untouched(cache.g)
      ensures cache.disk == CrashSafety.Recover(l, old(cache.disk))
      ensures cache.g.trace == old(cache.g).trace + RecoveryWrites(l, old(cache.disk))
    {
      hide Linked, Recency, Coherent, GetWord, PutWord, PutHeader, Apply, Put, InstallWrites, Installed,
           RecoveryWrites, CrashSafety.Recover;
      ghost var g0, d0 := cache.g, cache.disk;
      UntouchedQuiet(cache.buf, g0, d0, l);
      OnDisk(cache.buf, g0, d0, l.start);
      LoggedFits(l, d0);
      RecoveryChain(l, d0, g0.trace);
      ReadHead(me);
      assert Logged(l, d0) == Txn(block[..n], d0[l.start + 1..l.start + 1 + n]);
      InstallTrans(true, me);
      n := 0;
      assert block[..n] == [];
      WriteHead(me);
    }

    /** One pass of begin_op under log.lock; false means it goes to sleep. */
    method BeginOp() returns (admitted: bool)
      requires Valid()
      modifies this`outstanding, this`ops
      ensures Valid()
      ensures admitted == R.Enabled(old(Abs()), l.size, R.Begin)
      ensures Abs() == if admitted then R.Next(old(Abs()), R.Begin) else old(Abs())
    {
      DistinctSize(block[..n]);
      if committing {
        admitted := false;
      } else if n + (outstanding + 1) * MAXOPBLOCKS > LOGSIZE {
        admitted := false;
      } else {
        outstanding := outstanding + 1;
        ops := ops + [{}];
        admitted := true;
      }
    }

    /** end_op by outstanding operation op: the last one out commits. */
    method EndOp(ghost op: nat, me: nat)
      requires Valid() && op < |ops| && me != 0
      requires |ops| == 1 ==> Quiet(cache.buf, cache.g, l)
      modifies this`outstanding, this`committing, this`ops, this`n, cache
      ensures Valid()
      ensures |old(ops)| > 1 ==> Abs() == R.Next(old(Abs()), R.End(op)) && cache.g == old(cache.g) &&
                                 cache.disk == old(cache.disk)
      ensures |old(ops)| == 1 ==>
                var t := Txn(old(block[..n]), Contents(old(cache.g).view, old(block[..n])));
                && Abs() == R.Next(R.Next(old(Abs()), R.End(op)), R.Finish)
                && GoodTxn(l, old(cache.disk), t)
                && cache.g.trace == old(cache.g.trace) + CommitWrites(l, old(cache.disk), t)
                && cache.disk == Apply(old(cache.disk), CommitWrites(l, old(cache.disk), t))
                && Quiet(cache.buf, cache.g, l) && cache.g.users == old(cache.g).users
                && Committed(l, old(cache.g), old(cache.disk), cache.g, cache.disk)
    {
      hide Linked, Recency, Coherent, GetWord, PutWord, CommitWrites;
      outstanding := outstanding - 1;
      ops := ops[..op] + ops[op + 1..];
      if outstanding == 0 {
        committing := true;
        Commit(me);
        committing := false;
      }
    }

    /** log_write by outstanding operation op on the buffer r it holds. */
    method LogWrite(r: nat, ghost op: nat, me: nat) returns (panicked: bool)
      requires Valid() && me != 0 && r < |cache.buf| == NBUF
      requires cache.buf[r].dev == ROOTDEV && cache.buf[r].valid && cache.buf[r].holder == me
      requires cache.buf[r].blockno < |cache.disk| && !l.InLog(cache.buf[r].blockno)
      requires ops != [] ==> op < |ops|
      modifies this`n, this`block, this`ops, cache
      ensures Valid()
      ensures cache.disk == old(cache.disk) &&
              cache.buf == old(cache.buf)[r := old(cache.buf[r]).(refcnt := cache.buf[r].refcnt)]
      ensures panicked == (R.Full(old(Abs()), l.size) || old(outstanding) < 1)
      ensures panicked ==> Abs() == old(Abs()) && cache.g == old(cache.g)
      ensures !panicked ==>
                var b := old(cache.buf[r].blockno);
                && Abs() == R.Next(old(Abs()), R.Log(op, b))
                && cache.g == old(cache.g).(pinned := old(cache.g).pinned + {b}, dirty := old(cache.g).dirty - {b})
    {
      hide Linked, Recency, Coherent, GetWord, PutWord;
      DistinctSize(block[..n]);
      if n >= LOGSIZE || n >= l.size - 1 {
        return true;
      }
      if outstanding < 1 {
        return true;
      }
      ops := ops[op := ops[op] + {cache.buf[r].blockno}];
      Record(r, me);
      panicked := false;
    }

    /** The rest of log_write: absorb a block already in the header, pin a new one. */
    method Record(r: nat, me: nat)
      requires Valid() && me != 0 && r < |cache.buf| == NBUF && n < LOGSIZE && n < l.size - 1
      requires cache.buf[r].dev == ROOTDEV && cache.buf[r].valid && cache.buf[r].holder == me
      requires cache.buf[r].blockno < |cache.disk| && !l.InLog(cache.buf[r].blockno)
      modifies this`n, this`block, cache
      ensures Valid()
      ensures cache.disk == old(cache.disk) &&
              cache.buf == old(cache.buf)[r := old(cache.buf[r]).(refcnt := cache.buf[r].refcnt)]
      ensures var b := old(cache.buf[r].blockno);
              && BlockSet(block[..n]) == old(BlockSet(block[..n])) + {b}
              && cache.g == old(cache.g).(pinned := old(cache.g).pinned + {b}, dirty := old(cache.g).dirty - {b})
    {
      hide Linked, Recency, Coherent, GetWord, PutWord, BlockSet, Distinct, LogEmpty;
      var b := cache.buf[r].blockno;
      var i := FindInHeader(b);
      ghost var was := block[..n];
      block := block[i := b];
      if i == n {
        NewEntry(was, b);
        cache.Bpin(r, me);
        n := n + 1;
        assert block[..n] == was + [b];
      } else {
        assert block[..n] == was;
        cache.Absorb(r);
        assert BlockSet(was) + {b} == BlockSet(was);
        assert cache.g.pinned + {b} == cache.g.pinned;
      }
    }

    /** log_write's loop: the entry of block b, or n. */
    method FindInHeader(b: nat) returns (i: nat)
      requires n <= |block|
      ensures i <= n && (i < n ==> block[i] == b)
      ensures i == n <==> b !in BlockSet(block[..n])
    {
      i := 0;
      while i < n && block[i] != b
        invariant 0 <= i <= n
        invariant b !in block[..i]
      {
        assert block[..i + 1] == block[..i] + [block[i]];
        i := i + 1;
      }
      if i < n { assert block[..n][i] == b; }
    }

    method WriteLog(me: nat)
      requires Valid() && Quiet(cache.buf, cache.g, l) && me != 0
      modifies cache
      ensures Shape() && Quiet(cache.buf, cache.g, l)
      ensures var t := Txn(block[..n], Contents(old(cache.g).view, block[..n]));
              && cache.g.trace == old(cache.g.trace) + LogWrites(l, t)
              && cache.disk == Apply(old(cache.disk), LogWrites(l, t))
      ensures cache.g.users == old(cache.g).users && cache.g.pinned == old(cache.g).pinned
      ensures Steady(old(cache.g), cache.g)
    {
      hide Linked, Recency, Coherent, GetWord, PutWord, Apply, Put;
      ghost var g0, d0 := cache.g, cache.disk;
      ghost var t := Txn(block[..n], Contents(g0.view, block[..n]));
      ghost var ws := LogWrites(l, t);
      var tail := 0;
      NoneYet(g0.trace, d0, ws);
      while tail < n
        invariant 0 <= tail <= n && Shape() && Quiet(cache.buf, cache.g, l)
        invariant cache.g.users == g0.users && cache.g.pinned == g0.pinned && Steady(g0, cache.g)
        invariant cache.g.trace == g0.trace + ws[..tail] && cache.disk == Apply(d0, ws[..tail])
      {
        assert block[tail] in block[..n];
        ghost var g1 := cache.g;
        CopyToLog(tail, me);
        SteadyOn(g0, g1, cache.g);
        OneMore(g0.trace, d0, ws, tail);
        tail := tail + 1;
      }
      assert ws[..n] == ws;
    }

    /** One turn of write_log's loop. */
    method CopyToLog(tail: nat, me: nat)
      requires Shape() && Quiet(cache.buf, cache.g, l) && me != 0 && tail < n
      requires block[tail] in cache.g.pinned
      modifies cache
      ensures Shape() && Quiet(cache.buf, cache.g, l)
      ensures var w := Write(l.start + 1 + tail, old(cache.g).view[block[tail]]);
              cache.g.trace == old(cache.g).trace + [w] && cache.disk == Put(old(cache.disk), w)
      ensures cache.g.users == old(cache.g).users && cache.g.pinned == old(cache.g).pinned
      ensures Steady(old(cache.g), cache.g)
    {
      hide Linked, Recency, Coherent, GetWord, PutWord, Quiet, Steady;
      ghost var b0, g0, d0 := cache.buf, cache.g, cache.disk;
      QuietHome(b0, g0, l);
      var to, from := ReadPair(l.start + tail + 1, block[tail], me);
      ghost var g1 := cache.g;
      cache.Modify(to, cache.buf[from].data, me);
      cache.Bwrite(to, me);
      cache.Brelse(from, me);
      cache.Brelse(to, me);
      WriteSteady(g0, g1, cache.g, l.start + tail + 1, cache.buf[from].data);
      DirtyLess(g0, cache.g);
      assert cache.g.users == g0.users;
      StillQuiet(b0, g0, cache.buf, cache.g, cache.disk, l, to, from);
    }

    /** One turn of install_trans's loop: the log block goes home, and its pin goes. */
    method InstallOne(tail: nat, recovering: bool, me: nat)
      requires Shape() && Quiet(cache.buf, cache.g, l) && me != 0 && tail < n
      requires if recovering then Untouched(cache.g) else block[tail] in cache.g.pinned
      modifies cache
      ensures Shape() && Quiet(cache.buf, cache.g, l)
      ensures var w := Write(block[tail], old(cache.disk)[l.start + 1 + tail]);
              cache.g.trace == old(cache.g).trace + [w] && cache.disk == Put(old(cache.disk), w)
      ensures cache.g.users == old(cache.g).users
      ensures cache.g.pinned == if recovering then {} else old(cache.g).pinned - {block[tail]}
      ensures Steady(old(cache.g), cache.g) && block[tail] !in cache.g.dirty && (recovering ==> Untouched(cache.g))
    {
      hide Linked, Recency, Coherent, GetWord, PutWord, Quiet, Steady;
      ghost var b0, g0, d0 := cache.buf, cache.g, cache.disk;
      QuietHome(b0, g0, l);
      var lbuf, dbuf := ReadPair(l.start + tail + 1, block[tail], me);
      ghost var g1 := cache.g;
      cache.Modify(dbuf, cache.buf[lbuf].data, me);
      cache.Bwrite(dbuf, me);
      if !recovering {
        cache.Bunpin(dbuf);
      }
      cache.Brelse(lbuf, me);
      cache.Brelse(dbuf, me);
      WriteSteady(g0, g1, cache.g, block[tail], cache.buf[lbuf].data);
      DirtyLess(g0, cache.g);
      assert cache.g.users == g0.users;
      StillQuiet(b0, g0, cache.buf, cache.g, cache.disk, l, lbuf, dbuf);
    }

    method InstallTrans(recovering: bool, me: nat)
      requires Shape() && Quiet(cache.buf, cache.g, l) && me != 0
      requires if recovering then Untouched(cache.g) else Distinct(block[..n]) && cache.g.pinned == BlockSet(block[..n])
      modifies cache
      ensures Shape() && Quiet(cache.buf, cache.g, l)
      ensures var t := Txn(block[..n], old(cache.disk)[l.start + 1..l.start + 1 + n]);
              cache.g.trace == old(cache.g).trace + InstallWrites(t) && cache.disk == Installed(old(cache.disk), t)
      ensures cache.g.users == old(cache.g).users && cache.g.pinned == {} && Steady(old(cache.g), cache.g)
      ensures forall i :: 0 <= i < n ==> block[i] !in cache.g.dirty
    {
      hide Linked, Recency, Coherent, GetWord, PutWord, Apply, Put, Steady, Quiet, BlockSet, Untouched;
      ghost var g0, d0 := cache.g, cache.disk;
      ghost var t := Txn(block[..n], d0[l.start + 1..l.start + 1 + n]);
      ghost var ws := InstallWrites(t);
      var tail := 0;
      NoneYet(g0.trace, d0, ws);
      SteadySelf(g0);
      while tail < n
        invariant 0 <= tail <= n && Shape() && Quiet(cache.buf, cache.g, l)
        invariant cache.g.trace == g0.trace + ws[..tail] && cache.disk == Apply(d0, ws[..tail])
        invariant cache.g.users == g0.users && Steady(g0, cache.g)
        invariant forall i :: 0 <= i < tail ==> block[i] !in cache.g.dirty
        invariant if recovering then Untouched(cache.g) else cache.g.pinned == BlockSet(block[..n][tail..])
      {
        LogUnchanged(l, t, d0, tail, l.start + 1 + tail);
        PinsLeft(block[..n], tail);
        ghost var g1 := cache.g;
        InstallOne(tail, recovering, me);
        SteadyOn(g0, g1, cache.g);
        DirtyLess(g1, cache.g);
        OneMore(g0.trace, d0, ws, tail);
        tail := tail + 1;
      }
      assert ws[..n] == ws;
      NoPins(cache.g, block[..n]);
    }

    /** write_head: the header block gets n and the block numbers, and nothing else changes. */
    method WriteHead(me: nat)
      requires Shape() && Quiet(cache.buf, cache.g, l) && me != 0
      modifies cache
      ensures Shape() && Quiet(cache.buf, cache.g, l)
      ensures var w := Write(l.start, PutHeader(old(cache.disk)[l.start], block[..n]));
              cache.g.trace == old(cache.g).trace + [w] && cache.disk == Put(old(cache.disk), w)
      ensures cache.g.users == old(cache.g).users && cache.g.pinned == old(cache.g).pinned
      ensures Steady(old(cache.g), cache.g)
    {
      hide Linked, Recency, Coherent, GetWord, PutWord, PutHeader, PutWords;
      ghost var b0, g0 := cache.buf, cache.g;
      QuietUnlocked(b0, g0, cache.disk, l, l.start);
      var x := cache.Bread(l.start, me);
      ReadSteady(b0, g0, cache.buf, cache.g, cache.disk, x, l.start);
      HeaderSlot(b0, g0, cache.buf, cache.g, cache.disk, l, x);
      OnDisk(cache.buf, cache.g, cache.disk, l.start);
      ghost var g1 := cache.g;
      var hb := HeaderFor(cache.buf[x].data);
      cache.Modify(x, hb, me);
      cache.Bwrite(x, me);
      cache.Brelse(x, me);
      WriteSteady(g0, g1, cache.g, l.start, hb);
      assert cache.g.users == g0.users;
      StillQuietOne(b0, g0, cache.buf, cache.g, cache.disk, l, x);
    }

    /** The stores into the header buffer: hb->n, then the loop over hb->block[i]. */
    method HeaderFor(old_: Block) returns (hb: Block)
      requires n <= LOGSIZE == |block| && forall i :: 0 <= i < n ==> block[i] < 0x1_0000_0000
      ensures hb == PutHeader(old_, block[..n])
    {
      hb := PutWord(old_, 0, n);
      ghost var h0 := hb;
      assert block[..0] == [];
      for i := 0 to n
        invariant hb == PutWords(h0, 1, block[..i])
      {
        assert block[..i + 1][..i] == block[..i];
        hb := PutWord(hb, i + 1, block[i]);
      }
    }

    /** read_head: the in-memory header becomes the one on disk. */
    method ReadHead(me: nat)
      requires cache.Valid() && Quiet(cache.buf, cache.g, l) && me != 0 && |block| == LOGSIZE && Untouched(cache.g)
      requires l.Fits(cache.disk) && |cache.g.view| == |cache.disk| && GetWord(cache.g.view[l.start], 0) <= LOGSIZE
      modifies cache, this`n, this`block
      ensures cache.Valid() && Quiet(cache.buf, cache.g, l) && |block| == LOGSIZE
      ensures n <= LOGSIZE && block[..n] == HeaderBlocks(old(cache.g).view[l.start])
      ensures cache.g == old(cache.g) && cache.disk == old(cache.disk)
    {
      hide Linked, Recency, Coherent, GetWord;
      ghost var b0, g0 := cache.buf, cache.g;
      QuietUnlocked(b0, g0, cache.disk, l, l.start);
      var x := cache.Bread(l.start, me);
      HeaderSlot(b0, g0, cache.buf, cache.g, cache.disk, l, x);
      var lh := cache.buf[x].data;
      n := GetWord(lh, 0);
      for i := 0 to n
        invariant |block| == LOGSIZE
        invariant forall k :: 0 <= k < i ==> block[k] == GetWord(lh, k + 1)
        modifies this`block
      {
        block := block[i := GetWord(lh, i + 1)];
      }
      cache.Brelse(x, me);
      assert cache.g.users == g0.users;
      StillQuietOne(b0, g0, cache.buf, cache.g, cache.disk, l, x);
    }

    /** commit: writes the block sequence CommitWrites, so that a crash anywhere inside it is
        one of its prefixes; afterwards the log is empty and everything is home. */
    method Commit(me: nat)
      requires Valid() && Quiet(cache.buf, cache.g, l) && me != 0
      modifies cache, this`n
      ensures Valid() && Quiet(cache.buf, cache.g, l) && n == 0
      ensures var t := Txn(old(block[..n]), Contents(old(cache.g).view, old(block[..n])));
              && GoodTxn(l, old(cache.disk), t)
              && cache.g.trace == old(cache.g.trace) + CommitWrites(l, old(cache.disk), t)
              && cache.disk == Apply(old(cache.disk), CommitWrites(l, old(cache.disk), t))
      ensures Committed(l, old(cache.g), old(cache.disk), cache.g, cache.disk)
      ensures cache.g.users == old(cache.g).users
    {
      hide Linked, Recency, Coherent, GetWord, PutWord, PutHeader, Apply, Put, InstallWrites, LogWrites, Installed,
           Contents, CommitWrites;
      ghost var g0, d0 := cache.g, cache.disk;
      ghost var t := Txn(block[..n], Contents(g0.view, block[..n]));
      if n > 0 {
        DiskChain(l, d0, t);
        CommitChain(l, d0, t, g0.trace);
        WriteLog(me);
        ghost var g1 := cache.g;
        WriteHead(me);
        SteadyOn(g0, g1, cache.g);
        ghost var g2 := cache.g;
        InstallTrans(false, me);
        SteadyOn(g0, g2, cache.g);
        ghost var g3 := cache.g;
        n := 0;
        assert block[..n] == [];
        WriteHead(me);
        SteadyOn(g0, g3, cache.g);
      } else {
        CommitNothing(l, d0, t);
      }
      CommitHome(l, g0, d0, t, cache.buf, cache.g, cache.disk);
    }

    /** The two breads of one turn of write_log or install_trans: log block lb, home block hb. */
    method ReadPair(lb: nat, hb: nat, me: nat) returns (x: nat, y: nat)
      requires cache.Valid() && Quiet(cache.buf, cache.g, l) && me != 0
      requires lb < |cache.disk| && l.InLog(lb) && hb < |cache.disk| && !l.InLog(hb)
      requires hb in cache.g.pinned || Untouched(cache.g)
      modifies cache`buf, cache`g
      ensures cache.Valid() && x < NBUF && y < NBUF && x != y
      ensures Pair(old(cache.buf), cache.buf, x, y)
      ensures cache.buf[x].Is(lb) && cache.buf[x].valid && cache.buf[x].holder == me &&
              cache.buf[x].data == cache.disk[lb]
      ensures cache.buf[y].Is(hb) && cache.buf[y].valid && cache.buf[y].holder == me &&
              cache.buf[y].data == cache.g.view[hb]
      ensures old(cache.g).users[x] == 0
      ensures cache.g.users == old(cache.g).users[x := 1][y := old(cache.g).users[y] + 1]
      ensures cache.g.pinned == old(cache.g).pinned && cache.g.trace == old(cache.g).trace
      ensures Steady(old(cache.g), cache.g)
    {
      hide Linked, Recency, Coherent, GetWord, PutWord;
      ghost var b0, g0 := cache.buf, cache.g;
      QuietUnlocked(b0, g0, cache.disk, l, lb);
      x := cache.Bread(lb, me);
      ghost var b1, g1 := cache.buf, cache.g;
      ReadSteady(b0, g0, b1, g1, cache.disk, x, lb);
      OnDisk(b1, g1, cache.disk, lb);
      SecondRead(b0, g0, b1, g1, cache.disk, l, x, hb);
      y := cache.Bread(hb, me);
      ReadSteady(b1, g1, cache.buf, cache.g, cache.disk, y, hb);
      SteadyOn(g0, g1, cache.g);
    }
  }

  /** Only the buffers x and y differ. */
  ghost predicate Pair(old_: seq<Buf>, new_: seq<Buf>, x: nat, y: nat) {
    |old_| == |new_| && forall i :: 0 <= i < |new_| && i != x && i != y ==> new_[i] == old_[i]
  }

  lemma QuietHome(buf: seq<Buf>, g: Ledger, l: Layout)
    requires Quiet(buf, g, l)
    ensures |buf| == |g.users| == NBUF && forall b :: b in g.pinned || b in g.dirty ==> !l.InLog(b)
  {
  }

  lemma QuietUnlocked(buf: seq<Buf>, g: Ledger, d: Disk, l: Layout, b: nat)
    requires Coherent(buf, g, d) && Quiet(buf, g, l)
    ensures l.InLog(b) || b in g.pinned || Untouched(g) ==> Unlocked(buf, b)
  {
    forall i | 0 <= i < |buf| && buf[i].Is(b) && (l.InLog(b) || b in g.pinned || Untouched(g))
      ensures buf[i].holder == 0 {
      assert Slot(buf[i], g.users[i], g, d);
    }
  }

  lemma SecondRead(b0: seq<Buf>, g0: Ledger, buf: seq<Buf>, g: Ledger, d: Disk, l: Layout, x: nat, hb: nat)
    requires Coherent(b0, g0, d) && Quiet(b0, g0, l) && Coherent(buf, g, d)
    requires x < NBUF && buf == b0[x := buf[x]] && g.users == g0.users[x := g0.users[x] + 1] && g.pinned == g0.pinned
    requires b0[x].Is(buf[x].blockno) || b0[x].refcnt == 0
    requires buf[x].dev == ROOTDEV && l.InLog(buf[x].blockno) && !l.InLog(hb)
    requires hb in g0.pinned || Untouched(g0)
    ensures g0.users[x] == 0 && Unlocked(buf, hb)
    ensures Unused(buf) || exists i :: 0 <= i < NBUF && buf[i].Is(hb)
  {
    QuietUnlocked(b0, g0, d, l, hb);
    assert Slot(b0[x], g0.users[x], g0, d);
    if hb in g0.pinned {
      assert Cached(buf, hb);
    } else {
      var z := if x == 0 then 1 else 0;
      assert Slot(buf[z], g.users[z], g, d);
      assert buf[z].refcnt == 0;
    }
  }

  /** When both buffers are released again, the cache is as quiet as before. */
  lemma StillQuiet(b0: seq<Buf>, g0: Ledger, buf: seq<Buf>, g: Ledger, d: Disk, l: Layout, x: nat, y: nat)
    requires Quiet(b0, g0, l) && Coherent(buf, g, d) && Pair(b0, buf, x, y) && x < NBUF && y < NBUF
    requires g.users == g0.users && g.dirty <= g0.dirty && g.pinned <= g0.pinned
    requires g0.users[x] == 0 && buf[x].holder == 0 && buf[y].holder == 0
    requires buf[x].dev == ROOTDEV && l.InLog(buf[x].blockno) && buf[x].blockno !in g.pinned
    requires buf[y].dev == ROOTDEV && !l.InLog(buf[y].blockno)
    ensures Quiet(buf, g, l)
  {
    assert Slot(buf[x], g.users[x], g, d);
    assert buf[x].refcnt == 0;
  }

  /** bread changes no logged contents; it may recycle a buffer with a change nobody logged. */
  lemma ReadSteady(b0: seq<Buf>, g0: Ledger, buf: seq<Buf>, g: Ledger, d: Disk, r: nat, b: nat)
    requires Coherent(b0, g0, d) && Coherent(buf, g, d) && r < NBUF && (b0[r].Is(b) || b0[r].refcnt == 0)
    requires g == (if b0[r].Is(b) then g0 else Evicted(g0, b0[r], d)).(users := g0.users[r := g0.users[r] + 1])
    ensures g.users == g0.users[r := g0.users[r] + 1] && g.pinned == g0.pinned && g.trace == g0.trace && Steady(g0, g)
  {
    assert Slot(b0[r], g0.users[r], g0, d);
  }

  lemma NoPins(g: Ledger, s: seq<nat>)
    requires Untouched(g) || g.pinned == BlockSet(s[|s|..])
    ensures g.pinned == {}
  {
  }

  lemma SteadySelf(g: Ledger)
    ensures Steady(g, g)
  {
  }

  lemma DirtyLess(g0: Ledger, g: Ledger)
    requires Steady(g0, g)
    ensures g.dirty <= g0.dirty
  {
  }

  lemma SteadyOn(g0: Ledger, g1: Ledger, g2: Ledger)
    requires Steady(g0, g1) && Steady(g1, g2) && g2.pinned <= g1.pinned
    ensures Steady(g0, g2)
  {
  }

  /** So does writing a block out. */
  lemma WriteSteady(g0: Ledger, g1: Ledger, g2: Ledger, b: nat, data: Block)
    requires Steady(g0, g1) && b < |g1.view| && g2.view == g1.view[b := data] && g2.dirty == g1.dirty + {b} - {b}
    requires g2.pinned <= g1.pinned && b !in g2.pinned
    ensures Steady(g0, g2) && b !in g2.dirty
  {
  }

  lemma OneMore(trace: seq<Write>, d: Disk, ws: seq<Write>, k: nat)
    requires k < |ws|
    ensures trace + ws[..k] + [ws[k]] == trace + ws[..k + 1]
    ensures Apply(d, ws[..k + 1]) == Put(Apply(d, ws[..k]), ws[k])
  {
    assert ws[..k + 1][..k] == ws[..k];
  }

  lemma LogUnchanged(l: Layout, t: Txn, d: Disk, k: nat, b: nat)
    requires |t.blocks| == |t.data| && k <= |t.data| && b < |d| && l.InLog(b)
    requires forall i :: 0 <= i < |t.blocks| ==> !l.InLog(t.blocks[i])
    ensures Apply(d, InstallWrites(t)[..k])[b] == d[b]
  {
    var ws := InstallWrites(t)[..k];
    ApplyIsFinal(d, ws, b);
    assert !Touches(ws, b);
    FinalValue(ws, b, d[b], d[b]);
  }

  /** Unpinning the first of distinct pinned blocks leaves the rest pinned. */
  lemma PinsLeft(s: seq<nat>, k: nat)
    requires k < |s|
    ensures s[k] in BlockSet(s[k..])
    ensures Distinct(s) ==> BlockSet(s[k..]) - {s[k]} == BlockSet(s[k + 1..])
  {
    assert s[k..] == [s[k]] + s[k + 1..];
  }

  lemma NoneYet(trace: seq<Write>, d: Disk, ws: seq<Write>)
    ensures trace + ws[..0] == trace && Apply(d, ws[..0]) == d
  {
  }

  lemma HeaderSlot(b0: seq<Buf>, g0: Ledger, buf: seq<Buf>, g: Ledger, d: Disk, l: Layout, x: nat)
    requires Coherent(b0, g0, d) && Quiet(b0, g0, l) && Coherent(buf, g, d)
    requires x < NBUF && buf == b0[x := buf[x]] && g.users == g0.users[x := g0.users[x] + 1] && g.pinned == g0.pinned
    requires b0[x].Is(buf[x].blockno) || b0[x].refcnt == 0
    requires buf[x].dev == ROOTDEV && l.InLog(buf[x].blockno)
    ensures g0.users[x] == 0
  {
    assert Slot(b0[x], g0.users[x], g0, d);
  }

  lemma StillQuietOne(b0: seq<Buf>, g0: Ledger, buf: seq<Buf>, g: Ledger, d: Disk, l: Layout, x: nat)
    requires Quiet(b0, g0, l) && Coherent(buf, g, d) && Pair(b0, buf, x, x) && x < NBUF
    requires g.users == g0.users && g.dirty <= g0.dirty && g.pinned == g0.pinned
    requires g0.users[x] == 0 && buf[x].holder == 0
    requires buf[x].dev == ROOTDEV && l.InLog(buf[x].blockno)
    ensures Quiet(buf, g, l)
  {
    assert Slot(buf[x], g.users[x], g, d);
    assert buf[x].refcnt == 0;
  }

  /** Installing contents that are already there changes nothing. */
  lemma {:induction false} InstallSame(d: Disk, t: Txn, k: nat)
    requires |t.blocks| == |t.data| && k <= |t.data|
    requires forall i :: 0 <= i < |t.data| ==> t.blocks[i] < |d| && d[t.blocks[i]] == t.data[i]
    ensures Apply(d, InstallWrites(t)[..k]) == d
  {
    if k > 0 {
      InstallSame(d, t, k - 1);
      OneMore([], d, InstallWrites(t), k - 1);
    }
  }

  /** A block that is neither pinned nor dirty is on disk as the holders see it. */
  lemma OnDisk(buf: seq<Buf>, g: Ledger, d: Disk, b: nat)
    requires Coherent(buf, g, d) && b < |d| && b !in g.pinned && b !in g.dirty
    ensures |g.view| == |d| && g.view[b] == d[b]
  {
  }

  /** Installing the holders' contents puts them on disk, and nothing else. */
  lemma InstalledView(d: Disk, v: Disk, t: Txn, b: nat)
    requires |t.blocks| == |t.data| && b < |d| == |v|
    requires forall i :: 0 <= i < |t.data| ==> t.blocks[i] < |v| && v[t.blocks[i]] == t.data[i]
    ensures Installed(d, t)[b] == if b in t.blocks then v[b] else d[b]
  {
    var ws := InstallWrites(t);
    hide Apply;
    InstallSame(v, t, |t.data|);
    assert ws[..|t.data|] == ws;
    ApplyIsFinal(d, ws, b);
    ApplyIsFinal(v, ws, b);
    FinalValue(ws, b, d[b], v[b]);
    if b in t.blocks {
      var i :| 0 <= i < |t.blocks| && t.blocks[i] == b;
      assert ws[i].bno == b;
    } else {
      assert !Touches(ws, b);
    }
  }

  lemma CommitHome(l: Layout, g0: Ledger, d0: Disk, t: Txn, buf: seq<Buf>, g: Ledger, d: Disk)
    requires LogEmpty(l, d0) && GoodTxn(l, d0, t) && |g0.view| == |d0| && d == Apply(d0, CommitWrites(l, d0, t))
    requires g0.pinned == BlockSet(t.blocks) && t.data == Contents(g0.view, t.blocks)
    requires Coherent(buf, g, d) && g.pinned == {} && Steady(g0, g)
    requires forall i :: 0 <= i < |t.blocks| ==> t.blocks[i] !in g.dirty
    ensures Committed(l, g0, d0, g, d)
  {
    hide GetWord, Apply, InstallWrites, LogWrites, CommitWrites;
    CommitSameHome(l, d0, t);
    forall b | 0 <= b < |d| && !l.InLog(b)
      ensures d[b] == (if b in g0.pinned then g0.view[b] else d0[b])
      ensures g.view[b] == if b in g.dirty then g0.view[b] else d[b]
    {
      InstalledView(d0, g0.view, t, b);
    }
  }

  lemma CommitSameHome(l: Layout, d: Disk, t: Txn)
    requires LogEmpty(l, d) && GoodTxn(l, d, t)
    ensures SameHome(l, Apply(d, CommitWrites(l, d, t)), Installed(d, t))
  {
    hide GetWord, PutHeader, Apply, InstallWrites, LogWrites;
    if |t.blocks| == 0 { CommitNothing(l, d, t); } else { CommitDone(l, d, t); }
  }

  lemma LogView(l: Layout, v: Disk, t: Txn, b: nat)
    requires b < |v|
    ensures Apply(v, LogWrites(l, t))[b] == if l.start < b <= l.start + |t.data| then t.data[b - l.start - 1] else v[b]
  {
    assert LogWrites(l, t)[..|t.data|] == LogWrites(l, t);
    ApplyIsFinal(v, LogWrites(l, t), b);
    LogWritesLand(l, t, |t.data|, b, v[b]);
  }

  /** The disk through a commit: each read of a log block returns what CommitWrites says. */
  lemma DiskChain(l: Layout, d: Disk, t: Txn)
    requires l.Fits(d) && GoodTxn(l, d, t)
    ensures var h := PutHeader(d[l.start], t.blocks);
            var d1 := Apply(d, LogWrites(l, t));
            var d2 := Put(d1, Write(l.start, h));
            && d1[l.start] == d[l.start]
            && d2[l.start + 1..l.start + 1 + |t.data|] == t.data
            && Installed(d2, t)[l.start] == h
  {
    hide GetWord, PutWord, PutHeader, PutWords, Apply, InstallWrites, LogWrites;
    var n := |t.data|;
    var d1 := Apply(d, LogWrites(l, t));
    var d2 := Put(d1, Write(l.start, PutHeader(d[l.start], t.blocks)));
    forall b | 0 <= b < |d| ensures d1[b] == if l.start < b <= l.start + n then t.data[b - l.start - 1] else d[b] {
      LogView(l, d, t, b);
    }
    LogUnchanged(l, t, d2, n, l.start);
    assert InstallWrites(t)[..n] == InstallWrites(t);
  }

  lemma CommitChain(l: Layout, d: Disk, t: Txn, trace: seq<Write>)
    requires LogEmpty(l, d) && GoodTxn(l, d, t) && 0 < |t.blocks|
    ensures var h := PutHeader(d[l.start], t.blocks);
            var w, clear := Write(l.start, h), Write(l.start, PutHeader(h, []));
            var e := Put(Installed(Put(Apply(d, LogWrites(l, t)), w), t), clear);
            && Apply(d, CommitWrites(l, d, t)) == e && LogEmpty(l, e)
            && trace + LogWrites(l, t) + [w] + InstallWrites(t) + [clear] == trace + CommitWrites(l, d, t)
  {
    hide GetWord, PutWord, PutHeader, PutWords, Apply, InstallWrites, LogWrites;
    var h := PutHeader(d[l.start], t.blocks);
    var w, clear := Write(l.start, h), Write(l.start, PutHeader(h, []));
    CommitDone(l, d, t);
    ApplyConcat(d, LogWrites(l, t), [w]);
    ApplyConcat(d, LogWrites(l, t) + [w], InstallWrites(t));
    ApplyConcat(d, LogWrites(l, t) + [w] + InstallWrites(t), [clear]);
    ApplyOne(Apply(d, LogWrites(l, t)), w);
    ApplyOne(Apply(d, LogWrites(l, t) + [w] + InstallWrites(t)), clear);
  }

  lemma {:induction false} DistinctSize(s: seq<nat>)
    requires Distinct(s)
    ensures |BlockSet(s)| == |s|
    decreases |s|
  {
    if s != [] {
      var k := |s| - 1;
      DistinctSize(s[..k]);
      assert BlockSet(s) == BlockSet(s[..k]) + {s[k]};
    }
  }

  lemma UntouchedQuiet(buf: seq<Buf>, g: Ledger, d: Disk, l: Layout)
    requires Coherent(buf, g, d) && Untouched(g)
    ensures Quiet(buf, g, l)
  {
    assert Slot(buf[0], g.users[0], g, d);
    assert buf[0].refcnt == 0;
  }

  /** The blocks of the first k buffers. */
  ghost function Blocks(buf: seq<Buf>, k: nat): (s: set<nat>)
    requires k <= |buf|
  {
    if k == 0 then {} else Blocks(buf, k - 1) + {buf[k - 1].blockno}
  }

  lemma {:induction false} BlockAmong(buf: seq<Buf>, k: nat, b: nat)
    requires k <= |buf| && b in Blocks(buf, k)
    ensures exists i :: 0 <= i < k && buf[i].blockno == b
  {
    if buf[k - 1].blockno != b { BlockAmong(buf, k - 1, b); }
  }

  lemma {:induction false} BlocksApart(buf: seq<Buf>, k: nat, pinned: set<nat>)
    requires k <= |buf| && forall i, j :: 0 <= i < j < |buf| ==> buf[i].blockno != buf[j].blockno
    requires forall i :: 0 <= i < |buf| ==> buf[i].blockno in pinned
    ensures |Blocks(buf, k)| == k && Blocks(buf, k) <= pinned
  {
    if k > 0 {
      BlocksApart(buf, k - 1, pinned);
      if buf[k - 1].blockno in Blocks(buf, k - 1) { BlockAmong(buf, k - 1, buf[k - 1].blockno); }
    }
  }

  /** With nobody using a buffer and fewer blocks logged than there are buffers, one is free to be recycled. */
  lemma SpareBuffer(buf: seq<Buf>, g: Ledger, d: Disk)
    requires Coherent(buf, g, d) && Resting(g) && |g.pinned| < NBUF
    ensures |buf| == NBUF && Unused(buf) && forall i :: 0 <= i < NBUF ==> buf[i].holder == 0
  {
    assert forall i :: 0 <= i < NBUF ==> Slot(buf[i], g.users[i], g, d);
    if !Unused(buf) {
      BlocksApart(buf, NBUF, g.pinned);
      SubsetSize(Blocks(buf, NBUF), g.pinned);
    }
  }

  lemma RestingQuiet(buf: seq<Buf>, g: Ledger, d: Disk, l: Layout)
    requires Coherent(buf, g, d) && Resting(g) && |g.pinned| < NBUF && forall b :: b in g.pinned ==> !l.InLog(b)
    ensures Quiet(buf, g, l)
  {
    SpareBuffer(buf, g, d);
  }

  lemma LoggedFits(l: Layout, d: Disk)
    requires LogOk(l, d)
    ensures GetWord(d[l.start], 0) <= LOGSIZE && |HeaderBlocks(d[l.start])| < l.size
    ensures Logged(l, d).blocks == HeaderBlocks(d[l.start])
  {
  }

  lemma RecoveryChain(l: Layout, d: Disk, trace: seq<Write>)
    requires LogOk(l, d)
    ensures var t := Logged(l, d);
            var clear := Write(l.start, PutHeader(d[l.start], []));
            && Installed(d, t)[l.start] == d[l.start]
            && CrashSafety.Recover(l, d) == Put(Installed(d, t), clear)
            && LogEmpty(l, Put(Installed(d, t), clear))
            && trace + InstallWrites(t) + [clear] == trace + RecoveryWrites(l, d)
  {
    hide GetWord, PutWord, PutHeader, PutWords, Apply, InstallWrites;
    var t := Logged(l, d);
    var clear := Write(l.start, PutHeader(d[l.start], []));
    RecoverHolds(l, d, t);
    ApplyConcat(d, InstallWrites(t), [clear]);
    ApplyOne(Installed(d, t), clear);
    LogUnchanged(l, t, d, |t.data|, l.start);
    assert InstallWrites(t)[..|t.data|] == InstallWrites(t);
  }

  lemma NewEntry(s: seq<nat>, b: nat)
    requires Distinct(s) && b !in BlockSet(s)
    ensures Distinct(s + [b]) && BlockSet(s + [b]) == BlockSet(s) + {b}
  {
  }
}
