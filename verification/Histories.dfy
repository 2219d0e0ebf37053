/** Whole lives of a file system: file writes and truncations, panics, and crashes in any commit or recovery. */
module Histories {
  import opened Collections
  import opened Params
  import opened DiskBlock
  import opened CrashSafety
  import opened FsSpec
  import opened Fs
  import opened Footprint
  import opened Consistency

  /** A crash in the commit of transaction i of an operation, after `at` block writes, and then during recovery. */
  datatype Cut = Cut(i: nat, at: nat, retries: seq<nat>)

  /** An operation's part of a transaction: begin_op to end_op, but for the commit. */
  datatype Update =
    | Put(inum: nat, off: nat, src: seq<Byte>, good: nat, leak: nat)
    | Empty(inum: nat)
    | Drop(b: nat) // the cache recycles a buffer

  datatype Op =
    | Store(inum: nat, off: nat, src: seq<Byte>, good: nat, leak: nat, cut: Option<Cut>)
    | Group(updates: seq<Update>, cut: Option<Cut>) // in as few transactions as begin_op allows

  lemma SoundTable(d: Disk, sb: Super, owner: Owner)
    requires SoundWith(d, sb, owner)
    ensures Ownership(d, sb, TableOf(d, sb), owner) && Matches(d, sb, TableOf(d, sb))
    ensures forall k :: 0 <= k < |TableOf(d, sb)| ==> NoHoles(d, TableOf(d, sb)[k], TableOf(d, sb)[k].size)
  {
    hide GetInode, Ref, Used, GetWord;
  }

  /** Mounting a sound disk: the inodes in memory are those on disk. */
  method Mount(sb: Super, d: Disk) returns (fs: FileSystem)
    requires Sound(d, sb)
    ensures fresh(fs) && fs.sb == sb && fs.home == fs.view == d && fs.leaked == {} && Ready(fs)
  {
    hide Ownership, NoHoles, Matches, TableOf, Changed, Harmless, InMaps;
    ghost var owner :| SoundWith(d, sb, owner);
    SoundTable(d, sb, owner);
    fs := new FileSystem(sb, d, TableOf(d, sb), owner);
  }

  /** Between operations. */
  ghost predicate Ready(fs: FileSystem)
    reads fs
  {
    fs.Whole() && fs.Synced() && fs.Settled() && fs.logged == {}
  }

  /** Truncation keeps to its reservation on this file system (see Footprint.TruncFitsIff). */
  predicate Roomy(sb: Super) { 0 < sb.datastart <= sb.size && DataMaps(sb) < MAXOPBLOCKS }

  /** An update, or a panic for want of blocks; arguments that are rejected do nothing. It keeps to its reservation but
      for truncations of file systems that are not Roomy. */
  method Enact(fs: FileSystem, u: Update) returns (ok: bool)
    requires fs.Whole() && fs.Synced() && fs.Settled()
    modifies fs
    ensures fs.home == old(fs.home)
    ensures ok ==> fs.Whole() && fs.Synced() && fs.Settled()
    ensures ok && Roomy(fs.sb) ==> |fs.logged| <= |old(fs.logged)| + MAXOPBLOCKS
    ensures !ok ==> AllUsed(fs.view, fs.sb)
  {
    hide Sound, Ownership, NoHoles, Changed, Harmless, GetInode, Patched, MapBlocks, DataMaps, AllUsed, Released;
    ok := true;
    match u
    case Put(inum, off, src, good, leak) =>
      if inum < |fs.inode| && off < 0x1_0000_0000 && |src| <= 3 * BSIZE {
        var r;
        r, ok := fs.WriteOp(inum, off, src, good, leak);
      }
    case Empty(inum) =>
      if inum < |fs.inode| {
        TruncBound(fs.view, fs.sb, fs.inode, fs.owner, inum);
        ok := fs.Itrunc(inum);
        assert fs.logged == old(fs.logged) + Trunc(old(fs.owner), fs.sb, inum);
      }
    case Drop(b) =>
      if b < |fs.view| && b !in fs.logged { fs.Evict(b); }
  }

  /** Updates of several operations. One joins the open transaction if begin_op finds room for it, and otherwise waits
      for the commit. An update that overfills the log meets log_write's panic; begin_op's reservation keeps every
      transaction to LOGSIZE blocks if truncations keep to theirs. */
  method Gather(fs: FileSystem, updates: seq<Update>, room: nat) returns (ok: bool, steps: seq<Step>)
    requires Ready(fs)
    modifies fs
    ensures Transactions(old(fs.home), steps, fs.home, fs.sb) && Small(steps, room) && (ok ==> Ready(fs))
    ensures !ok ==> AllUsed(fs.view, fs.sb) || |fs.logged| > room
    ensures !ok && Roomy(fs.sb) && room >= LOGSIZE ==> AllUsed(fs.view, fs.sb)
  {
    hide Sound, Transactions, Changed, AllUsed, FileSystem.Whole, FileSystem.Synced, FileSystem.Settled;
    steps := [];
    fs.HomeSound();
    NoTransactions(fs.home, fs.sb);
    for i := 0 to |updates|
      invariant fs.Whole() && fs.Synced() && fs.Settled() && |fs.logged| <= room
      invariant Transactions(old(fs.home), steps, fs.home, fs.sb) && Small(steps, room)
    {
      if |fs.logged| + MAXOPBLOCKS > LOGSIZE {
        var step := fs.EndTxn();
        OneTransaction(old(fs.home), steps, step, fs.sb);
        steps := steps + [step];
      }
      ok := Enact(fs, updates[i]);
      if !ok || |fs.logged| > room { return false, steps; }
    }
    var step := fs.EndTxn();
    OneTransaction(old(fs.home), steps, step, fs.sb);
    ok, steps := true, steps + [step];
  }

  /** An operation run to its end, or to a panic. */
  method Perform(fs: FileSystem, op: Op, room: nat) returns (ok: bool, steps: seq<Step>)
    requires Ready(fs) && room >= MAXOPBLOCKS
    modifies fs
    ensures Transactions(old(fs.home), steps, fs.home, fs.sb) && Small(steps, room) && (ok ==> Ready(fs))
  {
    hide Sound, Ownership, NoHoles, Transactions, Changed, Harmless, GetInode, Patched, AllUsed;
    ok, steps := true, [];
    fs.HomeSound();
    NoTransactions(fs.home, fs.sb);
    match op
    case Store(inum, off, src, good, leak, _) =>
      if inum < |fs.inode| && off < 0x1_0000_0000 && |src| < 0x8000_0000 {
        var ret, off';
        ret, off', ok, steps := fs.Filewrite(inum, off, src, |src|, good, leak);
      }
    case Group(updates, _) =>
      ok, steps := Gather(fs, updates, room);
  }

  /** The order in which end_op's header lists each transaction's blocks. */
  ghost predicate Picks(pick: Step -> Txn) {
    forall s: Step :: Named(s) ==> IsTxn(pick(s), s)
  }

  ghost function Picked(pick: Step -> Txn, steps: seq<Step>): (ts: seq<Txn>)
    ensures |ts| == |steps| && forall i :: 0 <= i < |ts| ==> ts[i] == pick(steps[i])
  {
    seq(|steps|, i requires 0 <= i < |steps| => pick(steps[i]))
  }

  /** The elements of a set, in some order. */
  ghost function Listing(s: set<nat>): (r: seq<nat>)
    ensures Distinct(r) && forall b :: b in r <==> b in s
  {
    if s == {} then [] else var b :| b in s; Listing(s - {b}) + [b]
  }

  ghost function SomeTxn(s: Step): (t: Txn)
    ensures Named(s) ==> IsTxn(t, s)
  {
    var r := Listing(s.logged);
    assert forall i :: 0 <= i < |r| ==> r[i] in r;
    if Named(s) then Txn(r, seq(|r|, i requires 0 <= i < |r| => s.after[r[i]])) else Txn([], [])
  }

  lemma PicksExist()
    ensures Picks(s => SomeTxn(s))
  {
  }

  lemma PickedTxns(pick: Step -> Txn, d: Disk, steps: seq<Step>, e: Disk, sb: Super)
    requires Picks(pick) && Transactions(d, steps, e, sb)
    ensures AreTxns(Picked(pick, steps), steps)
  {
    hide IsTxn, Sound, Transactions;
    forall i | 0 <= i < |steps| ensures IsTxn(pick(steps[i]), steps[i]) {
      Prefix(d, steps, e, sb, i);
      assert Named(steps[i]);
    }
  }

  /** Whether a cut commit took effect can be told from the blocks it logged. */
  lemma DurableLogged(t: Txn, s: Step, at: nat)
    requires IsTxn(t, s)
    ensures Durable(t, at) <==> |s.logged| > 0 && at > |s.logged|
  {
    DistinctCount(t.blocks, s.logged);
  }

  /** One operation and what becomes of it: it ends, it panics and the machine is restarted, or the power fails. */
  method Live(fs: FileSystem, op: Op, room: nat, ghost pick: Step -> Txn, ghost d: Disk, ghost steps: seq<Step>,
              ghost events: seq<Event>)
    returns (fs': FileSystem, ghost steps': seq<Step>, ghost events': seq<Event>)
    requires Ready(fs) && room >= MAXOPBLOCKS && Picks(pick) && History(d, steps, events, fs.home, fs.sb, room)
    modifies fs
    ensures fs' == fs || fresh(fs')
    ensures Ready(fs') && fs'.sb == fs.sb && History(d, steps', events', fs'.home, fs.sb, room)
  {
    hide Sound, Transactions, History, Picks, IsTxn, AreTxns, Ready, Small, Durable;
    ghost var h := fs.home;
    var ok, more := Perform(fs, op, room);
    ghost var ts := Picked(pick, more);
    PickedTxns(pick, h, more, fs.home, fs.sb);
    if op.cut.Some? && op.cut.value.i < |more| {
      var c := op.cut.value;
      CrashNext(d, steps, events, h, more, ts, fs.home, fs.sb, room, c.i, c.at, c.retries);
      steps', events' := steps + more[..c.i + 1], events + (Commits(ts[..c.i]) + [Crash(ts[c.i], c.at, c.retries)]);
      var took := |more[c.i].logged| > 0 && c.at > |more[c.i].logged|;
      OneTxn(ts, more, c.i);
      DurableLogged(ts[c.i], more[c.i], c.at);
      var left := if took then more[c.i].after else more[c.i].before;
      HistoryEnds(d, steps', events', left, fs.sb, room);
      fs' := Mount(fs.sb, left);
    } else {
      CommitAll(d, steps, events, h, more, ts, fs.home, fs.sb, room);
      steps', events' := steps + more, events + Commits(ts);
      fs' := fs;
      if !ok {
        HistoryEnds(d, steps', events', fs.home, fs.sb, room);
        fs' := Mount(fs.sb, fs.home);
      }
    }
  }

  lemma OneTxn(ts: seq<Txn>, steps: seq<Step>, i: nat)
    requires AreTxns(ts, steps) && i < |ts|
    ensures IsTxn(ts[i], steps[i])
  {
  }

  /** Any sequence of operations with any crashes: what is on disk after the last recovery is sound, and its home blocks
      are those of exactly the transactions that took effect. */
  method Lives(l: Layout, sb: Super, d: Disk, ops: seq<Op>, ghost pick: Step -> Txn)
    returns (e: Disk, ghost steps: seq<Step>, ghost events: seq<Event>)
    requires Sound(d, sb) && Picks(pick) && Placed(l, sb, d) && LogEmpty(l, d)
    ensures History(d, steps, events, e, sb, Room(l)) && RecoversSoundly(l, sb, d, events, e)
  {
    hide Sound, Picks, IsTxn, LogEmpty, RecoversSoundly;
    var fs := Mount(sb, d);
    steps, events := [], [];
    assert History(d, [], [], d, sb, Room(l));
    hide History, Ready;
    for i := 0 to |ops|
      invariant fresh(fs) && Ready(fs) && fs.sb == sb && History(d, steps, events, fs.home, sb, Room(l))
    {
      fs, steps, events := Live(fs, ops[i], Room(l), pick, d, steps, events);
    }
    e := fs.home;
    HistorySound(l, sb, d, steps, events, e, Room(l));
  }
}
