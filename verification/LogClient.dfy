/** How the file system uses the log: begin_op, then bread, change, log_write and brelse for each block, then end_op. */
module LogClient {
  import opened Collections
  import opened Params
  import opened DiskBlock
  import opened CrashSafety
  import opened BufferCache
  import L = Log
  import R = Reservation

  /** The blocks a list of updates names. */
  ghost function Named(ws: seq<Write>): (s: set<nat>) { set i | 0 <= i < |ws| :: ws[i].bno }

  /** One open operation that has logged exactly these blocks, and nobody using a buffer. */
  ghost predicate Open(log: L.Log, blocks: set<nat>)
    reads log, log.cache
  {
    log.Valid() && L.Resting(log.cache.g) && log.Abs() == R.State(blocks, [blocks], false)
  }

  /** Bread, change, log_write, brelse. */
  method Update(log: L.Log, w: Write, ghost blocks: set<nat>, me: nat)
    requires Open(log, blocks) && me != 0 && log.l.size <= LOGSIZE
    requires w.bno < |log.cache.disk| && !log.l.InLog(w.bno) && |blocks| < log.l.size - 1
    modifies log`n, log`block, log`ops, log.cache
    ensures Open(log, blocks + {w.bno}) && log.cache.disk == old(log.cache.disk)
    ensures log.cache.g == old(log.cache.g).(view := Put(old(log.cache.g).view, w), pinned := blocks + {w.bno})
  {
    hide Linked, Recency, Coherent, GetWord;
    var c := log.cache;
    L.DistinctSize(log.block[..log.n]);
    L.SpareBuffer(c.buf, c.g, c.disk);
    ghost var g0 := c.g;
    var r := c.Bread(w.bno, me);
    c.Modify(r, w.data, me);
    var panicked := log.LogWrite(r, 0, me);
    c.Brelse(r, me);
    assert c.g.users == g0.users;
    assert c.g.dirty == g0.dirty;
  }

  /** t commits the updates ws of v: each block they name once, with its last contents. */
  ghost predicate Records(t: Txn, v: Disk, ws: seq<Write>) {
    && |t.blocks| == |t.data| && Distinct(t.blocks) && L.BlockSet(t.blocks) == Named(ws)
    && forall i :: 0 <= i < |t.blocks| ==> t.blocks[i] < |v| && t.data[i] == Apply(v, ws)[t.blocks[i]]
  }

  ghost predicate HomeWrites(ws: seq<Write>, l: Layout, d: Disk) {
    forall i :: 0 <= i < |ws| ==> ws[i].bno < |d| && !l.InLog(ws[i].bno)
  }

  lemma NamedMore(ws: seq<Write>, k: nat)
    requires k < |ws|
    ensures Named(ws[..k + 1]) == Named(ws[..k]) + {ws[k].bno} && Named(ws[..k + 1]) <= Named(ws)
  {
    forall b ensures b in Named(ws[..k + 1]) <==> b in Named(ws[..k]) + {ws[k].bno} {
      if b in Named(ws[..k]) {
        var i :| 0 <= i < k && ws[..k][i].bno == b;
        assert ws[..k + 1][i].bno == b;
      }
      if b == ws[k].bno { assert ws[..k + 1][k].bno == b; }
    }
    forall b | b in Named(ws[..k + 1]) ensures b in Named(ws) {
      var i :| 0 <= i < k + 1 && ws[..k + 1][i].bno == b;
      assert ws[i].bno == b;
    }
  }

  /** A whole operation, alone in the log: its updates are committed as one transaction, with the write sequence of a
      commit, and afterwards the home blocks on disk are the updated ones. */
  method Transact(log: L.Log, ws: seq<Write>, me: nat) returns (ghost t: Txn)
    requires log.Valid() && L.Untouched(log.cache.g) && log.Abs() == R.Idle && me != 0 && log.l.size <= LOGSIZE
    requires HomeWrites(ws, log.l, log.cache.disk) && |Named(ws)| < log.l.size - 1
    modifies log`n, log`block, log`ops, log`outstanding, log`committing, log.cache
    ensures log.Valid() && L.Untouched(log.cache.g) && log.Abs() == R.Idle
    ensures Records(t, old(log.cache.g).view, ws) && GoodTxn(log.l, old(log.cache.disk), t)
    ensures log.cache.g.trace == old(log.cache.g).trace + CommitWrites(log.l, old(log.cache.disk), t)
    ensures log.cache.disk == Apply(old(log.cache.disk), CommitWrites(log.l, old(log.cache.disk), t))
    ensures forall b :: 0 <= b < |log.cache.disk| && !log.l.InLog(b) ==>
              log.cache.disk[b] == log.cache.g.view[b] == Apply(old(log.cache.g).view, ws)[b]
  {
    hide Linked, Recency, Coherent, GetWord, Apply, Put, CommitWrites, Named;
    var c := log.cache;
    ghost var g0 := c.g;
    var admitted := log.BeginOp();
    assert Named(ws[..0]) == {} by { assert ws[..0] == []; NamedNone(); }
    assert Apply(g0.view, ws[..0]) == g0.view by { L.NoneYet(g0.trace, g0.view, ws); }
    for i := 0 to |ws|
      invariant Open(log, Named(ws[..i])) && c.disk == old(c.disk)
      invariant c.g == g0.(view := Apply(g0.view, ws[..i]), pinned := Named(ws[..i]))
    {
      NamedMore(ws, i);
      SubsetSize(Named(ws[..i + 1]), Named(ws));
      SubsetSize(Named(ws[..i]), Named(ws[..i + 1]));
      L.OneMore([], g0.view, ws, i);
      Update(log, ws[i], Named(ws[..i]), me);
    }
    assert ws[..|ws|] == ws;
    log.QuietAtRest();
    t := Txn(log.block[..log.n], L.Contents(c.g.view, log.block[..log.n]));
    ghost var g1, d1 := c.g, c.disk;
    LoggedOrOnDisk(c);
    log.EndOp(0, me);
    CommittedAll(log.l, g1, d1, c.g, c.disk);
  }

  lemma LoggedOrOnDisk(c: BCache)
    requires c.Valid() && c.g.dirty == {}
    ensures |c.g.view| == |c.disk|
    ensures forall b :: 0 <= b < |c.disk| && b !in c.g.pinned ==> c.g.view[b] == c.disk[b]
  {
  }

  /** With every change logged, a commit puts every change on disk. */
  lemma CommittedAll(l: Layout, g0: Ledger, d0: Disk, g: Ledger, d: Disk)
    requires L.Committed(l, g0, d0, g, d) && g0.dirty == {}
    requires forall b :: 0 <= b < |d0| && b !in g0.pinned ==> g0.view[b] == d0[b]
    ensures g.dirty == {} && |d| == |g0.view| == |g.view|
    ensures forall b :: 0 <= b < |d| && !l.InLog(b) ==> d[b] == g.view[b] == g0.view[b]
  {
  }

  lemma NamedNone()
    ensures Named([]) == {}
  {
  }

  lemma UntouchedView(c: BCache)
    requires c.Valid() && L.Untouched(c.g)
    ensures c.g.view == c.disk
  {
  }

  /** From boot, whatever a crash left behind: recovery, then one operation, committed. */
  method FirstTransaction(d: Disk, l: Layout, ws: seq<Write>, me: nat) returns (log: L.Log, ghost t: Txn)
    requires LogOk(l, d) && l.size <= LOGSIZE && |d| < 0x1_0000_0000 && me != 0
    requires HomeWrites(ws, l, d) && |Named(ws)| < l.size - 1
    ensures fresh(log) && log.Valid() && log.Abs() == R.Idle && L.Untouched(log.cache.g)
    ensures Records(t, Recover(l, d), ws) && GoodTxn(l, Recover(l, d), t)
    ensures log.cache.g.trace == RecoveryWrites(l, d) + CommitWrites(l, Recover(l, d), t)
    ensures |log.cache.disk| == |d| && forall b :: 0 <= b < |d| && !l.InLog(b) ==>
                                                     log.cache.disk[b] == Apply(Recover(l, d), ws)[b]
  {
    hide Linked, Recency, Coherent, GetWord, Apply, Put, CommitWrites, Named, LogOk, Recover, RecoveryWrites, LogEmpty,
         Records;
    var c := new BCache(d);
    log := new L.Log(c, l, me);
    UntouchedView(c);
    assert |c.disk| == |d| by { RecoverSize(l, d); }
    t := Transact(log, ws, me);
    CommitSize(l, Recover(l, d), t);
  }

  lemma CommitSize(l: Layout, d: Disk, t: Txn)
    requires l.Fits(d) && GoodTxn(l, d, t)
    ensures |Apply(d, CommitWrites(l, d, t))| == |d|
  {
  }
}
