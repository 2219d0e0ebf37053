/** File-system consistency across crashes: the log's atomicity (CrashSafety) put together with
    what file-system transactions keep (Fs). */
module Consistency {
  import opened Collections
  import opened Params
  import opened DiskBlock
  import opened CrashSafety
  import opened FsSpec
  import opened Fs
  import B = BufferCache
  import L = Log
  import C = LogClient

  /** The log lies before the inode blocks, and its header can name every block. */
  ghost predicate Placed(l: Layout, sb: Super, d: Disk) {
    l.Fits(d) && l.start + l.size <= sb.inodestart && l.size > MAXOPBLOCKS && |d| < 0x1_0000_0000
  }

  /** How many blocks a transaction can hold before log_write panics. */
  function Room(l: Layout): (n: nat)
    requires l.size > 0
  {
    if l.size <= LOGSIZE then l.size - 1 else LOGSIZE
  }

  // Soundness depends on home blocks only

  lemma SameInode(l: Layout, sb: Super, d: Disk, e: Disk, k: nat)
    requires SameHome(l, d, e) && Placed(l, sb, d) && sb.Ok(d) && k < sb.ninodes
    ensures sb.Ok(e) && GetInode(e, sb, k) == GetInode(d, sb, k)
  {
    assert k / IPB <= sb.ninodes / IPB;
    assert sb.IBlock(k) < |d| && !l.InLog(sb.IBlock(k));
    hide GetWord;
  }

  lemma SameTable(l: Layout, sb: Super, d: Disk, e: Disk)
    requires SameHome(l, d, e) && Placed(l, sb, d) && sb.Ok(d)
    ensures sb.Ok(e) && TableOf(e, sb) == TableOf(d, sb)
  {
    hide GetInode;
    assert sb.Ok(e);
    forall k | 0 <= k < sb.ninodes ensures TableOf(e, sb)[k] == TableOf(d, sb)[k] { SameInode(l, sb, d, e, k); }
  }

  lemma SameRefs(l: Layout, sb: Super, d: Disk, e: Disk, t: seq<Inode>, owner: Owner, k: nat, s: nat)
    requires SameHome(l, d, e) && Placed(l, sb, d) && Ownership(d, sb, t, owner) && k < |t| && s < SLOTS
    ensures Ref(e, t[k], s) == Ref(d, t[k], s)
  {
    if t[k].addrs[NDIRECT] != 0 { IndirectOwned(d, sb, t, owner, k); }
    assert sb.inodestart <= sb.datastart && sb.size <= |d| by { AfterInodes(d, sb, 0); }
    hide GetWord, Ownership, Super.Ok;
  }

  lemma SameUsed(l: Layout, sb: Super, d: Disk, e: Disk, b: nat)
    requires SameHome(l, d, e) && Placed(l, sb, d) && sb.Ok(d) && b < sb.size
    ensures sb.Ok(e) && Used(e, sb, b) == Used(d, sb, b)
  {
    AfterInodes(d, sb, b);
    MapLayout(d, sb, b, b);
    hide TestBit, Super.BBlock;
  }

  lemma RefsHome(l: Layout, sb: Super, d: Disk, e: Disk, t: seq<Inode>, owner: Owner)
    requires SameHome(l, d, e) && Placed(l, sb, d) && Ownership(d, sb, t, owner)
    ensures forall k, s :: 0 <= k < |t| && 0 <= s < SLOTS ==> Ref(e, t[k], s) == Ref(d, t[k], s)
  {
    hide Ownership, Ref, SameHome;
    forall k, s | 0 <= k < |t| && 0 <= s < SLOTS
      ensures Ref(e, t[k], s) == Ref(d, t[k], s) { SameRefs(l, sb, d, e, t, owner, k, s); }
  }

  lemma UsedHome(l: Layout, sb: Super, d: Disk, e: Disk)
    requires SameHome(l, d, e) && Placed(l, sb, d) && sb.Ok(d)
    ensures sb.Ok(e) && forall b :: 0 <= b < sb.size ==> Used(e, sb, b) == Used(d, sb, b)
  {
    assert sb.Ok(e);
    hide Used, SameHome, Super.Ok;
    forall b | 0 <= b < sb.size ensures Used(e, sb, b) == Used(d, sb, b) { SameUsed(l, sb, d, e, b); }
  }

  lemma OwnershipHome(sb: Super, d: Disk, e: Disk, t: seq<Inode>, owner: Owner)
    requires Ownership(d, sb, t, owner) && sb.Ok(e)
    requires forall k, s :: 0 <= k < |t| && 0 <= s < SLOTS ==> Ref(e, t[k], s) == Ref(d, t[k], s)
    requires forall b :: 0 <= b < sb.size ==> Used(e, sb, b) == Used(d, sb, b)
    ensures Ownership(e, sb, t, owner)
  {
    assert sb.datastart <= sb.size;
    hide Ref, Used, Super.Ok;
    forall k, s | 0 <= k < |t| && 0 <= s < SLOTS && Ref(e, t[k], s) != 0
      ensures Ref(e, t[k], s) in owner && owner[Ref(e, t[k], s)] == (k, s)
    {
      assert Ref(e, t[k], s) == Ref(d, t[k], s);
    }
    forall b | b in owner
      ensures sb.datastart <= b < sb.size && Used(e, sb, b) && owner[b].0 < |t| && owner[b].1 < SLOTS &&
              Ref(e, t[owner[b].0], owner[b].1) == b
    {
      assert Used(d, sb, b) && Ref(d, t[owner[b].0], owner[b].1) == b;
      assert Used(e, sb, b) == Used(d, sb, b);
    }
    forall b | 0 <= b < sb.size && Used(e, sb, b) ensures b < sb.datastart || b in owner { assert Used(d, sb, b); }
    forall b | 0 <= b < sb.datastart ensures Used(e, sb, b) { assert Used(d, sb, b); }
    assert RefsOwned(e, t, owner) && OwnedUsed(e, sb, t, owner);
  }

  lemma SoundHome(l: Layout, sb: Super, d: Disk, e: Disk)
    requires SameHome(l, d, e) && Placed(l, sb, d) && Sound(d, sb)
    ensures Sound(e, sb)
  {
    hide Ref, Used, Super.Ok, SameHome, Ownership, GetInode;
    var owner :| SoundWith(d, sb, owner);
    var t := TableOf(d, sb);
    SameTable(l, sb, d, e);
    RefsHome(l, sb, d, e, t, owner);
    UsedHome(l, sb, d, e);
    OwnershipHome(sb, d, e, t, owner);
    hide TableOf;
    forall k | 0 <= k < sb.ninodes ensures NoHoles(e, t[k], t[k].size) { assert NoHoles(d, t[k], t[k].size); }
    assert SoundWith(e, sb, owner);
  }

  // A logged change as a transaction

  ghost predicate Named(s: Step) {
    forall b :: b in s.logged ==> b < |s.after|
  }

  /** t commits the step: it lists the logged blocks, in any order, with what they hold afterwards. */
  ghost predicate IsTxn(t: Txn, s: Step) {
    && |t.blocks| == |t.data| && Distinct(t.blocks) && (forall b :: b in t.blocks <==> b in s.logged)
    && forall i :: 0 <= i < |t.blocks| ==> t.blocks[i] < |s.after| && t.data[i] == s.after[t.blocks[i]]
  }

  lemma {:induction false} FinalOfSame(ws: seq<Write>, b: nat, x: Block, y: Block)
    requires (forall i :: 0 <= i < |ws| && ws[i].bno == b ==> ws[i].data == y) && Touches(ws, b)
    ensures Final(ws, b, x) == y
    decreases |ws|
  {
    var last := ws[|ws| - 1];
    if last.bno != b {
      var i :| 0 <= i < |ws| && ws[i].bno == b;
      assert ws[..|ws| - 1][i].bno == b;
      FinalOfSame(ws[..|ws| - 1], b, x, y);
    }
  }

  lemma {:induction false} DistinctCount(blocks: seq<nat>, s: set<nat>)
    requires Distinct(blocks) && forall b :: b in blocks <==> b in s
    ensures |blocks| == |s|
    decreases |blocks|
  {
    if blocks == [] {
      assert s == {};
    } else {
      var k := |blocks| - 1;
      assert blocks == blocks[..k] + [blocks[k]];
      DistinctCount(blocks[..k], s - {blocks[k]});
    }
  }

  lemma {:induction false} TxnGood(l: Layout, sb: Super, s: Step, t: Txn)
    requires Placed(l, sb, s.before) && Changed(s.before, s.after, s.logged, sb) && |s.logged| <= Room(l) && IsTxn(t, s)
    ensures GoodTxn(l, s.before, t)
  {
    DistinctCount(t.blocks, s.logged);
    assert forall i :: 0 <= i < |t.blocks| ==> t.blocks[i] in t.blocks;
  }

  /** Installing any transaction that commits a logged change makes exactly that change. */
  lemma {:induction false} TxnInstalls(sb: Super, s: Step, t: Txn)
    requires Changed(s.before, s.after, s.logged, sb) && IsTxn(t, s)
    ensures Installed(s.before, t) == s.after
  {
    hide Apply;
    var ws := InstallWrites(t);
    forall b | 0 <= b < |s.before| ensures Installed(s.before, t)[b] == s.after[b] {
      ApplyIsFinal(s.before, ws, b);
      FinalOfTxn(s, t, b);
    }
  }

  lemma {:induction false} FinalOfTxn(s: Step, t: Txn, b: nat)
    requires IsTxn(t, s) && b < |s.before| == |s.after| && (b !in s.logged ==> s.after[b] == s.before[b])
    ensures Final(InstallWrites(t), b, s.before[b]) == s.after[b]
  {
    var ws := InstallWrites(t);
    hide InstallWrites;
    assert |ws| == |t.blocks| && forall i :: 0 <= i < |ws| ==>
                                               ws[i] == Write(t.blocks[i], t.data[i]) by { WritesOf(t); }
    if b in s.logged {
      assert b in t.blocks;
      var i :| 0 <= i < |t.blocks| && t.blocks[i] == b;
      assert ws[i].bno == b;
      FinalOfSame(ws, b, s.before[b], s.after[b]);
    } else {
      assert forall i :: 0 <= i < |ws| ==> t.blocks[i] in t.blocks;
      FinalValue(ws, b, s.before[b], s.before[b]);
    }
  }

  lemma WritesOf(t: Txn)
    requires |t.blocks| == |t.data|
    ensures |InstallWrites(t)| == |t.blocks|
    ensures forall i :: 0 <= i < |InstallWrites(t)| ==> InstallWrites(t)[i] == Write(t.blocks[i], t.data[i])
  {
  }

  // Runs

  /** Each transaction that takes effect leaves the file system sound, if its predecessors did. */
  ghost predicate KeepsSound(d: Disk, events: seq<Event>, sb: Super)
    requires forall i :: 0 <= i < |events| ==> |events[i].t.blocks| == |events[i].t.data|
    decreases |events|
  {
    events == [] ||
    (var next := if Survives(events[0]) then Installed(d, events[0].t) else d;
     Sound(next, sb) && KeepsSound(next, events[1..], sb))
  }

  lemma {:induction false} IdealSound(d: Disk, events: seq<Event>, sb: Super)
    requires forall i :: 0 <= i < |events| ==> |events[i].t.blocks| == |events[i].t.data|
    requires Sound(d, sb) && KeepsSound(d, events, sb)
    ensures Sound(Ideal(d, events), sb)
    decreases |events|
  {
    hide Sound, Installed;
    if events != [] { IdealSound(if Survives(events[0]) then Installed(d, events[0].t) else d, events[1..], sb); }
  }

  /** Whatever crashes happen, between any block writes and during recovery too: if every transaction takes a sound
      file system to a sound one, the disk found after recovery is sound. */
  lemma {:induction false} SoundAfterCrashes(l: Layout, sb: Super, d: Disk, events: seq<Event>)
    requires LogEmpty(l, d) && GoodRun(l, d, events) && Placed(l, sb, d)
    requires Sound(d, sb) && KeepsSound(d, events, sb)
    ensures Sound(Run(l, d, events), sb)
  {
    hide Sound, GetWord, KeepsSound, Run, Ideal;
    RunsAreAtomic(l, d, events);
    IdealSound(d, events, sb);
    HomeSymmetric(l, Run(l, d, events), Ideal(d, events));
    SoundHome(l, sb, Ideal(d, events), Run(l, d, events));
  }

  lemma HomeSymmetric(l: Layout, d: Disk, e: Disk)
    requires SameHome(l, d, e)
    ensures SameHome(l, e, d)
  {
  }

  // Histories: transactions of file-system operations, committed or cut short

  /** steps and events lead from d to e: event i commits step i, or crashes doing so, and the next step starts from what
      that left. No transaction holds more than cap blocks. */
  ghost predicate History(d: Disk, steps: seq<Step>, events: seq<Event>, e: Disk, sb: Super, cap: nat)
    decreases |steps|
  {
    |steps| == |events| &&
    if steps == [] then d == e && Sound(d, sb)
    else
      var k := |steps| - 1;
      var s, v := steps[k], events[k];
      && IsTxn(v.t, s) && Changed(s.before, s.after, s.logged, sb) && |s.logged| <= cap && Sound(s.after, sb)
      && e == (if Survives(v) then s.after else s.before)
      && History(d, steps[..k], events[..k], s.before, sb, cap)
  }

  lemma {:induction false} HistoryMore(d: Disk, steps: seq<Step>, events: seq<Event>, sb: Super, cap: nat, s: Step,
                                       v: Event)
    requires History(d, steps, events, s.before, sb, cap) && IsTxn(v.t, s)
    requires Changed(s.before, s.after, s.logged, sb) && |s.logged| <= cap && Sound(s.after, sb)
    ensures History(d, steps + [s], events + [v], if Survives(v) then s.after else s.before, sb, cap)
  {
    hide Sound, IsTxn, Changed;
    assert (steps + [s])[..|steps|] == steps && (events + [v])[..|events|] == events;
  }

  /** A history ends in a sound disk, of the size it started with. */
  lemma {:induction false} HistoryEnds(d: Disk, steps: seq<Step>, events: seq<Event>, e: Disk, sb: Super, cap: nat)
    requires History(d, steps, events, e, sb, cap)
    ensures Sound(e, sb) && |e| == |d|
    decreases |steps|
  {
    hide Sound, IsTxn;
    if steps != [] {
      var k := |steps| - 1;
      HistoryEnds(d, steps[..k], events[..k], steps[k].before, sb, cap);
    }
  }

  lemma {:induction false} GoodMore(l: Layout, d: Disk, events: seq<Event>, e: Event)
    requires GoodRun(l, d, events) && GoodTxn(l, d, e.t)
    ensures GoodRun(l, d, events + [e])
  {
    hide GoodTxn;
  }

  lemma {:induction false} IdealMore(d: Disk, events: seq<Event>, e: Event)
    requires forall i :: 0 <= i < |events| ==> |events[i].t.blocks| == |events[i].t.data|
    requires |e.t.blocks| == |e.t.data|
    ensures Ideal(d, events + [e]) == if Survives(e) then Installed(Ideal(d, events), e.t) else Ideal(d, events)
    decreases |events|
  {
    hide Installed;
    if events == [] {
      assert ([] + [e])[1..] == [];
    } else {
      var next := if Survives(events[0]) then Installed(d, events[0].t) else d;
      assert (events + [e])[1..] == events[1..] + [e];
      IdealMore(next, events[1..], e);
    }
  }

  lemma IdealNone(l: Layout, d: Disk)
    ensures GoodRun(l, d, []) && Ideal(d, []) == d
  {
  }

  lemma {:induction false} Balanced(l: Layout, d: Disk, events: seq<Event>)
    requires GoodRun(l, d, events)
    ensures forall i :: 0 <= i < |events| ==> |events[i].t.blocks| == |events[i].t.data|
  {
  }

  /** What CrashSafety calls the ideal result of a history is its end. */
  lemma {:induction false} HistoryIdeal(l: Layout, sb: Super, d: Disk, steps: seq<Step>, events: seq<Event>, e: Disk,
                                        cap: nat)
    requires History(d, steps, events, e, sb, cap) && Placed(l, sb, d) && cap <= Room(l)
    ensures GoodRun(l, d, events)
    ensures (forall i :: 0 <= i < |events| ==> |events[i].t.blocks| == |events[i].t.data|) && Ideal(d, events) == e
    decreases |steps|
  {
    hide Sound, Installed, Changed, GoodTxn, IsTxn, Ideal, GoodRun, Named;
    if steps == [] {
      IdealNone(l, d);
    } else {
      var k := |steps| - 1;
      var s, v := steps[k], events[k];
      HistoryIdeal(l, sb, d, steps[..k], events[..k], s.before, cap);
      HistoryEnds(d, steps[..k], events[..k], s.before, sb, cap);
      assert Placed(l, sb, s.before);
      TxnGood(l, sb, s, v.t);
      GoodSized(l, s.before, d, v.t);
      TxnInstalls(sb, s, v.t);
      GoodMore(l, d, events[..k], v);
      IdealMore(d, events[..k], v);
      assert events[..k] + [v] == events;
      Balanced(l, d, events);
    }
  }

  lemma GoodSized(l: Layout, d: Disk, e: Disk, t: Txn)
    requires GoodTxn(l, d, t) && |d| == |e|
    ensures GoodTxn(l, e, t) && |t.blocks| == |t.data|
  {
  }

  /** The run ends with these home blocks, and a sound file system. */
  ghost predicate RecoversSoundly(l: Layout, sb: Super, d: Disk, events: seq<Event>, home: Disk) {
    LogEmpty(l, d) && GoodRun(l, d, events) && SameHome(l, Run(l, d, events), home) && Sound(Run(l, d, events), sb)
  }

  /** Any history of transactions and crashes, in commits and in recoveries, leaves the disk sound and holding exactly
      the transactions that took effect. */
  lemma {:induction false} HistorySound(l: Layout, sb: Super, d: Disk, steps: seq<Step>, events: seq<Event>, e: Disk,
                                        cap: nat)
    requires History(d, steps, events, e, sb, cap) && Placed(l, sb, d) && LogEmpty(l, d) && cap <= Room(l)
    ensures RecoversSoundly(l, sb, d, events, e)
  {
    hide Sound, Run, LogEmpty, Ideal, GoodTxn, GetWord, History;
    HistoryIdeal(l, sb, d, steps, events, e, cap);
    HistoryEnds(d, steps, events, e, sb, cap);
    RunsAreAtomic(l, d, events);
    HomeSymmetric(l, Run(l, d, events), e);
    SoundHome(l, sb, e, Run(l, d, events));
  }

  // A file write that a crash interrupts

  ghost predicate Small(steps: seq<Step>, cap: nat) {
    forall i :: 0 <= i < |steps| ==> |steps[i].logged| <= cap
  }

  ghost predicate AreTxns(ts: seq<Txn>, steps: seq<Step>) {
    |ts| <= |steps| && forall i :: 0 <= i < |ts| ==> IsTxn(ts[i], steps[i])
  }

  ghost function Commits(ts: seq<Txn>): (events: seq<Event>)
    ensures |events| == |ts| && forall i :: 0 <= i < |ts| ==> events[i] == Commit(ts[i])
  {
    seq(|ts|, i requires 0 <= i < |ts| => Commit(ts[i]))
  }

  /** Any prefix of an operation's transactions is one too. */
  lemma {:induction false} Prefix(d: Disk, steps: seq<Step>, e: Disk, sb: Super, i: nat)
    requires Transactions(d, steps, e, sb) && i < |steps|
    ensures Transactions(d, steps[..i], steps[i].before, sb)
    ensures Changed(steps[i].before, steps[i].after, steps[i].logged, sb) && Sound(steps[i].after, sb)
    ensures (if i + 1 < |steps| then steps[i + 1].before else e) == steps[i].after
    decreases |steps|
  {
    hide Sound, Changed;
    var k := |steps| - 1;
    if i < k {
      Prefix(d, steps[..k], steps[k].before, sb, i);
      assert steps[..k][..i] == steps[..i];
    }
  }

  /** Transactions committed one after the other, on top of a history, extend it. */
  lemma {:induction false} CommitAll(d: Disk, steps: seq<Step>, events: seq<Event>, h: Disk, more: seq<Step>,
                                     ts: seq<Txn>, e: Disk, sb: Super, cap: nat)
    requires History(d, steps, events, h, sb, cap) && Transactions(h, more, e, sb) && Small(more, cap)
    requires |ts| == |more| && AreTxns(ts, more)
    ensures History(d, steps + more, events + Commits(ts), e, sb, cap)
    decreases |more|
  {
    hide Sound, Changed, IsTxn, History;
    if more == [] {
      assert steps + more == steps && events + Commits(ts) == events;
    } else {
      var k := |more| - 1;
      CommitAll(d, steps, events, h, more[..k], ts[..k], more[k].before, sb, cap);
      HistoryMore(d, steps + more[..k], events + Commits(ts[..k]), sb, cap, more[k], Commit(ts[k]));
      assert steps + more[..k] + [more[k]] == steps + more;
      assert events + Commits(ts[..k]) + [Commit(ts[k])] == events + Commits(ts);
    }
  }

  /** ... and so do the first few of them and a crash in the next. */
  lemma {:induction false} CrashNext(d: Disk, steps: seq<Step>, events: seq<Event>, h: Disk, more: seq<Step>,
                                     ts: seq<Txn>, e: Disk, sb: Super, cap: nat, i: nat, at: nat, retries: seq<nat>)
    requires History(d, steps, events, h, sb, cap) && Transactions(h, more, e, sb) && Small(more, cap) && i < |more|
    requires |ts| == |more| && AreTxns(ts, more)
    ensures var v := Crash(ts[i], at, retries);
            History(d, steps + more[..i + 1], events + (Commits(ts[..i]) + [v]),
                    if Survives(v) then more[i].after else more[i].before, sb, cap)
  {
    hide Sound, Changed, IsTxn, History, Transactions;
    var v := Crash(ts[i], at, retries);
    Prefix(h, more, e, sb, i);
    CommitAll(d, steps, events, h, more[..i], ts[..i], more[i].before, sb, cap);
    HistoryMore(d, steps + more[..i], events + Commits(ts[..i]), sb, cap, more[i], v);
    assert steps + more[..i] + [more[i]] == steps + more[..i + 1];
    assert events + Commits(ts[..i]) + [v] == events + (Commits(ts[..i]) + [v]);
  }

  /** A crash while a file write commits any of its transactions, after any number of block writes, and any crashes
      during recovery: the disk is sound, holds the transactions before it, and holds that one whole or not at all. */
  lemma {:induction false} CrashInFilewrite(l: Layout, sb: Super, d: Disk, steps: seq<Step>, e: Disk, ts: seq<Txn>,
                                            i: nat, at: nat, retries: seq<nat>)
    requires Transactions(d, steps, e, sb) && Small(steps, MAXOPBLOCKS) && Placed(l, sb, d) && LogEmpty(l, d)
    requires i < |steps| == |ts| && AreTxns(ts, steps)
    ensures RecoversSoundly(l, sb, d, Commits(ts[..i]) + [Crash(ts[i], at, retries)],
                            if Durable(ts[i], at) then steps[i].after else steps[i].before)
  {
    hide Sound, Transactions, Small, AreTxns, LogEmpty, RecoversSoundly;
    assert Sound(d, sb) by { StartSound(d, steps, e, sb); }
    assert History(d, [], [], d, sb, MAXOPBLOCKS);
    hide History;
    CrashNext(d, [], [], d, steps, ts, e, sb, MAXOPBLOCKS, i, at, retries);
    assert [] + steps[..i + 1] == steps[..i + 1];
    var events := Commits(ts[..i]) + [Crash(ts[i], at, retries)];
    assert [] + events == events;
    HistorySound(l, sb, d, steps[..i + 1], events, if Durable(ts[i], at) then steps[i].after else steps[i].before,
                 MAXOPBLOCKS);
  }

  lemma {:induction false} StartSound(d: Disk, steps: seq<Step>, e: Disk, sb: Super)
    requires Transactions(d, steps, e, sb)
    ensures Sound(d, sb)
    decreases |steps|
  {
    hide Sound;
    if steps != [] { StartSound(d, steps[..|steps| - 1], steps[|steps| - 1].before, sb); }
  }

  // What end_op commits

  /** end_op's transaction commits the step whose blocks are in the header and whose result the buffers hold. */
  lemma EndOpCommits(view: Disk, blocks: seq<nat>, s: Step)
    requires Distinct(blocks) && L.BlockSet(blocks) == s.logged && |view| == |s.after|
    requires forall b :: b in s.logged ==> b < |view| && view[b] == s.after[b]
    ensures (forall i :: 0 <= i < |blocks| ==> blocks[i] < |view|) && IsTxn(Txn(blocks, L.Contents(view, blocks)), s)
  {
    assert forall i :: 0 <= i < |blocks| ==> blocks[i] in L.BlockSet(blocks);
  }

  /** What Log.EndOp leaves is what the file system's Commit says, whatever unlogged changes the cache holds: on disk
      the logged blocks are overlaid, and the holders see what they saw but for the unlogged changes that were lost,
      which read as on disk, as after Evict. */
  lemma LogCommits(l: Layout, buf: seq<B.Buf>, g0: B.Ledger, d0: Disk, g: B.Ledger, d: Disk, home: Disk, view: Disk)
    requires L.Committed(l, g0, d0, g, d) && B.Coherent(buf, g0, d0)
    requires SameHome(l, home, d0) && SameHome(l, view, g0.view)
    ensures var after := Overlay(home, g0.pinned, view);
            SameHome(l, after, d) && SameHome(l, Overlay(view, g0.dirty - g.dirty, after), g.view)
  {
    hide B.Slot, B.Cached;
    var after := Overlay(home, g0.pinned, view);
    assert SameHome(l, after, d);
    forall b | 0 <= b < |d| && !l.InLog(b) ensures Overlay(view, g0.dirty - g.dirty, after)[b] == g.view[b] {
      if b in g.dirty {
        assert b !in g0.dirty - g.dirty;
      } else if b !in g0.dirty && b !in g0.pinned {
        assert g0.view[b] == d0[b];
      }
    }
  }

  /** So does that of a client that makes the step's changes through the cache. */
  lemma RecordsCommit(t: Txn, ws: seq<Write>, s: Step)
    requires C.Records(t, s.before, ws) && C.Named(ws) == s.logged && Apply(s.before, ws) == s.after
    ensures IsTxn(t, s)
  {
    assert forall b :: b in t.blocks <==> b in L.BlockSet(t.blocks);
  }
}
