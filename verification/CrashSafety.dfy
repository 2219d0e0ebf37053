/** The redo log as a sequence of block writes, and what a crash between any two
    of them leaves behind. A crash keeps the disk and nothing else. */
module CrashSafety {
  import opened Params
  import opened DiskBlock

  type Disk = seq<Block>
  datatype Write = Write(bno: nat, data: Block)

  /** Where the log lives: a header block at start, then size - 1 log blocks. */
  datatype Layout = Layout(start: nat, size: nat) {
    predicate InLog(b: nat) { start <= b < start + size }

    predicate Fits(d: Disk) { 0 < size && start + size <= |d| }
  }

  /** One transaction: the logged block numbers, in log order, and their contents. */
  datatype Txn = Txn(blocks: seq<nat>, data: seq<Block>)

  ghost predicate GoodTxn(l: Layout, d: Disk, t: Txn) {
    && |t.blocks| == |t.data| <= LOGSIZE
    && |t.blocks| < l.size
    && forall i :: 0 <= i < |t.blocks| ==> t.blocks[i] < |d| && t.blocks[i] < 0x1_0000_0000 && !l.InLog(t.blocks[i])
  }

  // Effects of writes

  function Put(d: Disk, w: Write): (r: Disk)
    ensures |r| == |d|
  {
    if w.bno < |d| then d[w.bno := w.data] else d
  }

  function Apply(d: Disk, ws: seq<Write>): (r: Disk)
    ensures |r| == |d|
    decreases |ws|
  {
    if ws == [] then d else Put(Apply(d, ws[..|ws| - 1]), ws[|ws| - 1])
  }

  lemma {:induction false} ApplyConcat(d: Disk, a: seq<Write>, b: seq<Write>)
    ensures Apply(d, a + b) == Apply(Apply(d, a), b)
    decreases |b|
  {
    if b == [] {
      assert a + b == a;
    } else {
      assert (a + b)[..|a + b| - 1] == a + b[..|b| - 1];
      ApplyConcat(d, a, b[..|b| - 1]);
    }
  }

  lemma ApplyNone(d: Disk, ws: seq<Write>)
    ensures Apply(d, []) == d && Apply(d, ws[..0]) == d
  {
  }

  lemma ApplyOne(d: Disk, w: Write)
    ensures Apply(d, [w]) == Put(d, w)
  {
    assert [w][..0] == [];
  }

  // The on-disk header: word 0 is n, word i + 1 is block[i]

  function PutHeader(b: Block, blocks: seq<nat>): (r: Block)
    requires |blocks| <= LOGSIZE && forall i :: 0 <= i < |blocks| ==> blocks[i] < 0x1_0000_0000
    ensures GetWord(r, 0) == |blocks|
    ensures forall i :: 0 <= i < |blocks| ==> GetWord(r, i + 1) == blocks[i]
  {
    var r := PutWords(PutWord(b, 0, |blocks|), 1, blocks);
    assert forall i :: 0 <= i < |blocks| ==> GetWord(r, 1 + i) == blocks[i];
    r
  }

  function HeaderBlocks(b: Block): (s: seq<nat>)
    requires GetWord(b, 0) <= LOGSIZE
    ensures |s| == GetWord(b, 0)
    ensures forall i :: 0 <= i < |s| ==> s[i] == GetWord(b, i + 1)
  {
    seq(GetWord(b, 0), i requires 0 <= i < GetWord(b, 0) => GetWord(b, i + 1))
  }

  /** The transaction a disk's log holds; empty when the header count is zero. */
  function Logged(l: Layout, d: Disk): (t: Txn)
    requires l.Fits(d) && GetWord(d[l.start], 0) <= LOGSIZE && GetWord(d[l.start], 0) < l.size
    ensures |t.blocks| == |t.data| == GetWord(d[l.start], 0)
  {
    var bs := HeaderBlocks(d[l.start]);
    Txn(bs, d[l.start + 1..l.start + 1 + |bs|])
  }

  /** The log on this disk can be recovered: it holds a well-formed, maybe empty, transaction. */
  ghost predicate LogOk(l: Layout, d: Disk) {
    && l.Fits(d)
    && GetWord(d[l.start], 0) <= LOGSIZE && GetWord(d[l.start], 0) < l.size
    && GoodTxn(l, d, Logged(l, d))
  }

  ghost predicate LogEmpty(l: Layout, d: Disk) {
    l.Fits(d) && GetWord(d[l.start], 0) == 0
  }

  // The writes of write_log, install_trans, commit and recover_from_log

  function LogWrites(l: Layout, t: Txn): (ws: seq<Write>)
    ensures |ws| == |t.data|
  {
    seq(|t.data|, i requires 0 <= i < |t.data| => Write(l.start + 1 + i, t.data[i]))
  }

  function InstallWrites(t: Txn): (ws: seq<Write>)
    requires |t.blocks| == |t.data|
    ensures |ws| == |t.data|
  {
    seq(|t.data|, i requires 0 <= i < |t.data| => Write(t.blocks[i], t.data[i]))
  }

  ghost function CommitWrites(l: Layout, d: Disk, t: Txn): (ws: seq<Write>)
    requires l.Fits(d) && GoodTxn(l, d, t)
    ensures |ws| == if |t.blocks| == 0 then 0 else 2 * |t.blocks| + 2
  {
    if |t.blocks| == 0 then []
    else
      var h := PutHeader(d[l.start], t.blocks);
      LogWrites(l, t) + [Write(l.start, h)] + InstallWrites(t) + [Write(l.start, PutHeader(h, []))]
  }

  ghost function RecoveryWrites(l: Layout, d: Disk): (ws: seq<Write>)
    requires LogOk(l, d)
  {
    InstallWrites(Logged(l, d)) + [Write(l.start, PutHeader(d[l.start], []))]
  }

  ghost function Recover(l: Layout, d: Disk): (r: Disk)
    requires LogOk(l, d)
    ensures |r| == |d|
  {
    Apply(d, RecoveryWrites(l, d))
  }

  // Home blocks

  /** d and e agree on every block outside the log. */
  ghost predicate SameHome(l: Layout, d: Disk, e: Disk) {
    |d| == |e| && forall b :: 0 <= b < |d| && !l.InLog(b) ==> d[b] == e[b]
  }

  /** The home blocks of d after transaction t. */
  function Installed(d: Disk, t: Txn): (r: Disk)
    requires |t.blocks| == |t.data|
    ensures |r| == |d|
  {
    Apply(d, InstallWrites(t))
  }

  // Block by block: only the last write to a block matters

  /** What block b holds after ws, if it held x before. */
  function Final(ws: seq<Write>, b: nat, x: Block): (r: Block)
    decreases |ws|
  {
    if ws == [] then x
    else if ws[|ws| - 1].bno == b then ws[|ws| - 1].data
    else Final(ws[..|ws| - 1], b, x)
  }

  predicate Touches(ws: seq<Write>, b: nat) {
    exists i :: 0 <= i < |ws| && ws[i].bno == b
  }

  lemma {:induction false} ApplyIsFinal(d: Disk, ws: seq<Write>, b: nat)
    requires b < |d|
    ensures Apply(d, ws)[b] == Final(ws, b, d[b])
    decreases |ws|
  {
    if ws != [] { ApplyIsFinal(d, ws[..|ws| - 1], b); }
  }

  lemma {:induction false} FinalValue(ws: seq<Write>, b: nat, x: Block, y: Block)
    ensures !Touches(ws, b) ==> Final(ws, b, x) == x
    ensures Touches(ws, b) ==> Final(ws, b, x) == Final(ws, b, y)
    decreases |ws|
  {
    if ws != [] {
      var rest := ws[..|ws| - 1];
      FinalValue(rest, b, x, y);
      if Touches(ws, b) && ws[|ws| - 1].bno != b {
        var i :| 0 <= i < |ws| && ws[i].bno == b;
        assert rest[i].bno == b;
      }
      if Touches(rest, b) {
        var i :| 0 <= i < |rest| && rest[i].bno == b;
        assert ws[i].bno == b;
      }
    }
  }

  /** Redoing all of ws after any prefix of it is the same as doing all of it. */
  lemma RedoAbsorbsPrefix(ws: seq<Write>, k: nat, b: nat, x: Block)
    requires k <= |ws|
    ensures Final(ws, b, Final(ws[..k], b, x)) == Final(ws, b, x)
  {
    FinalValue(ws, b, Final(ws[..k], b, x), x);
    if !Touches(ws, b) {
      assert !Touches(ws[..k], b);
      FinalValue(ws[..k], b, x, x);
    }
  }

  lemma {:induction false} LogWritesLand(l: Layout, t: Txn, k: nat, b: nat, x: Block)
    requires k <= |t.data|
    ensures Final(LogWrites(l, t)[..k], b, x) == if l.start < b <= l.start + k then t.data[b - l.start - 1] else x
  {
    var ws := LogWrites(l, t)[..k];
    if k > 0 {
      assert ws[..k - 1] == LogWrites(l, t)[..k - 1];
      LogWritesLand(l, t, k - 1, b, x);
    }
  }

  // The two situations the disk can be in

  /** d's log holds the committed transaction t. */
  ghost predicate Holds(l: Layout, d: Disk, t: Txn) {
    LogOk(l, d) && Logged(l, d) == t
  }

  lemma EmptyLogRecovers(l: Layout, d: Disk)
    requires LogEmpty(l, d)
    ensures LogOk(l, d) && SameHome(l, Recover(l, d), d) && LogEmpty(l, Recover(l, d))
  {
    assert InstallWrites(Logged(l, d)) == [];
    var w := Write(l.start, PutHeader(d[l.start], []));
    assert RecoveryWrites(l, d) == [w];
    assert [w][..0] == [];
    assert Recover(l, d) == Put(Apply(d, []), w);
  }

  lemma PrefixBlocks(l: Layout, d: Disk, t: Txn, k: nat, b: nat)
    requires GoodTxn(l, d, t) && k <= |t.blocks| && b < |d|
    ensures Apply(d, InstallWrites(t)[..k])[b] == Final(InstallWrites(t)[..k], b, d[b])
    ensures l.InLog(b) ==> Apply(d, InstallWrites(t)[..k])[b] == d[b]
  {
    var ws := InstallWrites(t)[..k];
    ApplyIsFinal(d, ws, b);
    FinalValue(ws, b, d[b], d[b]);
    if l.InLog(b) { assert !Touches(ws, b); }
  }

  /** The install writes leave the log alone. */
  lemma PrefixHolds(l: Layout, d: Disk, t: Txn, k: nat)
    requires Holds(l, d, t) && k <= |t.blocks|
    ensures Holds(l, Apply(d, InstallWrites(t)[..k]), t)
  {
    var e := Apply(d, InstallWrites(t)[..k]);
    forall b | 0 <= b < |d| && l.InLog(b) ensures e[b] == d[b] { PrefixBlocks(l, d, t, k, b); }
    assert HeaderBlocks(e[l.start]) == t.blocks;
    assert Logged(l, e).data == t.data;
  }

  lemma RecoverHolds(l: Layout, d: Disk, t: Txn)
    requires Holds(l, d, t)
    ensures LogEmpty(l, Recover(l, d)) && SameHome(l, Recover(l, d), Installed(d, t))
  {
    var clear := Write(l.start, PutHeader(d[l.start], []));
    ApplyConcat(d, InstallWrites(t), [clear]);
    assert [clear][..0] == [];
    assert Recover(l, d) == Put(Installed(d, t), clear);
  }

  lemma InstallAgain(l: Layout, d: Disk, t: Txn, k: nat)
    requires GoodTxn(l, d, t) && k <= |t.blocks|
    ensures SameHome(l, Installed(Apply(d, InstallWrites(t)[..k]), t), Installed(d, t))
  {
    var ws := InstallWrites(t);
    var e := Apply(d, ws[..k]);
    forall b | 0 <= b < |d| && !l.InLog(b) ensures Installed(e, t)[b] == Installed(d, t)[b] {
      PrefixBlocks(l, d, t, k, b);
      ApplyIsFinal(e, ws, b);
      ApplyIsFinal(d, ws, b);
      RedoAbsorbsPrefix(ws, k, b, d[b]);
    }
  }

  /** Crash after k of the install writes: the log is intact, and recovery from there
      ends with the same home blocks and an empty log. */
  lemma InstallPrefix(l: Layout, d: Disk, t: Txn, k: nat)
    requires Holds(l, d, t) && k <= |t.blocks|
    ensures var e := Apply(d, InstallWrites(t)[..k]);
            && Holds(l, e, t)
            && LogEmpty(l, Recover(l, e))
            && SameHome(l, Recover(l, e), Installed(d, t))
  {
    PrefixHolds(l, d, t, k);
    RecoverHolds(l, Apply(d, InstallWrites(t)[..k]), t);
    InstallAgain(l, d, t, k);
  }

  // Crash atomicity of one commit and of one recovery

  /** The header write of a commit is its write number |t.blocks|; the transaction is
      durable exactly when that write has finished. */
  predicate Durable(t: Txn, k: nat) { |t.blocks| > 0 && k > |t.blocks| }

  lemma CommitPrefixes(l: Layout, d: Disk, t: Txn, k: nat)
    requires LogEmpty(l, d) && GoodTxn(l, d, t) && 0 < |t.blocks|
    requires k <= |CommitWrites(l, d, t)|
    ensures var n := |t.blocks|;
            var h := PutHeader(d[l.start], t.blocks);
            var start := LogWrites(l, t) + [Write(l.start, h)];
            CommitWrites(l, d, t)[..k] ==
              if k <= n then LogWrites(l, t)[..k]
              else if k <= 2 * n + 1 then start + InstallWrites(t)[..k - n - 1]
              else start + InstallWrites(t) + [Write(l.start, PutHeader(h, []))]
  {
  }

  /** Block by block, the disk after write_log and write_head. */
  lemma AfterHeader(l: Layout, d: Disk, t: Txn, h: Block, b: nat)
    requires l.Fits(d) && |t.data| < l.size && b < |d|
    ensures Apply(d, LogWrites(l, t) + [Write(l.start, h)])[b] ==
              if b == l.start then h else if l.start < b <= l.start + |t.data| then t.data[b - l.start - 1] else d[b]
  {
    hide Apply, GetWord;
    var ws := LogWrites(l, t);
    var w := Write(l.start, h);
    ApplyConcat(d, ws, [w]);
    ApplyOne(Apply(d, ws), w);
    assert ws[..|ws|] == ws;
    ApplyIsFinal(d, ws, b);
    LogWritesLand(l, t, |ws|, b, d[b]);
  }

  /** After write_log and write_head the log holds t and the home blocks are still those of d. */
  lemma HeaderCommits(l: Layout, d: Disk, t: Txn)
    requires LogEmpty(l, d) && GoodTxn(l, d, t)
    ensures var e := Apply(d, LogWrites(l, t) + [Write(l.start, PutHeader(d[l.start], t.blocks))]);
            Holds(l, e, t) && SameHome(l, e, d)
  {
    hide GetWord, PutWord, PutWords, PutHeader, Apply, LogWrites;
    var h := PutHeader(d[l.start], t.blocks);
    var e := Apply(d, LogWrites(l, t) + [Write(l.start, h)]);
    forall b | 0 <= b < |d|
      ensures e[b] == if b == l.start then h else if l.start < b <= l.start + |t.data| then t.data[b - l.start - 1]
                                                    else d[b]
    {
      AfterHeader(l, d, t, h, b);
    }
    assert HeaderBlocks(e[l.start]) == t.blocks;
    assert e[l.start + 1..l.start + 1 + |t.data|] == t.data;
  }

  /** What a crash must leave: recovery works, empties the log and yields these home blocks. */
  ghost predicate RecoversTo(l: Layout, e: Disk, home: Disk) {
    LogOk(l, e) && LogEmpty(l, Recover(l, e)) && SameHome(l, Recover(l, e), home)
  }

  lemma CrashBeforeHeader(l: Layout, d: Disk, t: Txn, k: nat)
    requires LogEmpty(l, d) && GoodTxn(l, d, t) && k <= |t.blocks|
    ensures RecoversTo(l, Apply(d, LogWrites(l, t)[..k]), d)
  {
    var ws := LogWrites(l, t)[..k];
    var e := Apply(d, ws);
    forall b | 0 <= b < |d| ensures e[b] == if l.start < b <= l.start + k then t.data[b - l.start - 1] else d[b] {
      ApplyIsFinal(d, ws, b);
      LogWritesLand(l, t, k, b, d[b]);
    }
    EmptyLogRecovers(l, e);
  }

  lemma CrashWhileInstalling(l: Layout, d: Disk, t: Txn, j: nat)
    requires LogEmpty(l, d) && GoodTxn(l, d, t) && j <= |t.blocks|
    ensures var s := LogWrites(l, t) + [Write(l.start, PutHeader(d[l.start], t.blocks))];
            RecoversTo(l, Apply(d, s + InstallWrites(t)[..j]), Installed(d, t))
  {
    hide GetWord, PutWord, PutWords, PutHeader, Apply, LogWrites, InstallWrites;
    var s := LogWrites(l, t) + [Write(l.start, PutHeader(d[l.start], t.blocks))];
    HeaderCommits(l, d, t);
    SameHomeInstalls(l, Apply(d, s), d, t);
    ApplyConcat(d, s, InstallWrites(t)[..j]);
    InstallPrefix(l, Apply(d, s), t, j);
  }

  lemma CommitDone(l: Layout, d: Disk, t: Txn)
    requires LogEmpty(l, d) && GoodTxn(l, d, t)
    ensures var h := PutHeader(d[l.start], t.blocks);
            var e := Apply(d, LogWrites(l, t) + [Write(l.start, h)] + InstallWrites(t) +
                           [Write(l.start, PutHeader(h, []))]);
            LogEmpty(l, e) && SameHome(l, e, Installed(d, t))
  {
    hide GetWord, PutWord, PutWords, PutHeader, Apply, LogWrites, InstallWrites;
    var h := PutHeader(d[l.start], t.blocks);
    var s := LogWrites(l, t) + [Write(l.start, h)];
    var clear := Write(l.start, PutHeader(h, []));
    HeaderCommits(l, d, t);
    SameHomeInstalls(l, Apply(d, s), d, t);
    ApplyConcat(d, s, InstallWrites(t));
    ApplyConcat(d, s + InstallWrites(t), [clear]);
    ApplyOne(Installed(Apply(d, s), t), clear);
  }

  lemma CommitNothing(l: Layout, d: Disk, t: Txn)
    requires LogEmpty(l, d) && GoodTxn(l, d, t) && |t.blocks| == 0
    ensures CommitWrites(l, d, t) == [] && Apply(d, []) == d && Installed(d, t) == d
  {
    assert InstallWrites(t) == [];
  }

  /** Crash after any k writes of a commit: recovery gives the old home blocks or all of
      the new ones, and which of the two depends only on the header write. */
  lemma CommitCrash(l: Layout, d: Disk, t: Txn, k: nat)
    requires LogEmpty(l, d) && GoodTxn(l, d, t)
    requires k <= |CommitWrites(l, d, t)|
    ensures var e := Apply(d, CommitWrites(l, d, t)[..k]);
            && RecoversTo(l, e, if Durable(t, k) then Installed(d, t) else d)
            && (k == |CommitWrites(l, d, t)| ==> LogEmpty(l, e) && SameHome(l, e, Installed(d, t)))
  {
    hide GetWord, PutWord, PutWords, PutHeader, Apply, LogWrites, InstallWrites, LogOk;
    var n := |t.blocks|;
    if n == 0 {
      CommitNothing(l, d, t);
      EmptyLogRecovers(l, d);
    } else {
      CommitPrefixes(l, d, t, k);
      if k <= n {
        CrashBeforeHeader(l, d, t, k);
      } else if k <= 2 * n + 1 {
        CrashWhileInstalling(l, d, t, k - n - 1);
      } else {
        CommitDone(l, d, t);
        EmptyLogRecovers(l, Apply(d, CommitWrites(l, d, t)[..k]));
      }
    }
  }

  lemma SameHomeInstalls(l: Layout, d: Disk, e: Disk, t: Txn)
    requires SameHome(l, d, e) && |t.blocks| == |t.data|
    ensures SameHome(l, Installed(d, t), Installed(e, t))
  {
    forall b | 0 <= b < |d| && !l.InLog(b) ensures Installed(d, t)[b] == Installed(e, t)[b] {
      ApplyIsFinal(d, InstallWrites(t), b);
      ApplyIsFinal(e, InstallWrites(t), b);
    }
  }

  /** Crash after any k writes of recovery itself: recovering again ends the same way. */
  lemma RecoveryCrash(l: Layout, d: Disk, k: nat)
    requires LogOk(l, d) && k <= |RecoveryWrites(l, d)|
    ensures RecoversTo(l, Apply(d, RecoveryWrites(l, d)[..k]), Recover(l, d))
  {
    hide GetWord, PutWord, PutWords, PutHeader, Apply;
    var t := Logged(l, d);
    var ws := RecoveryWrites(l, d);
    ApplyNone(d, InstallWrites(t));
    InstallPrefix(l, d, t, 0);
    if k <= |t.blocks| {
      assert ws[..k] == InstallWrites(t)[..k];
      InstallPrefix(l, d, t, k);
    } else {
      assert ws[..k] == ws;
      EmptyLogRecovers(l, Recover(l, d));
    }
  }

  // Whole runs

  /** A run is a sequence of commits. A commit either completes, or the machine crashes
      after `at` of its writes; recovery is then itself interrupted once per entry of
      `retries`, after that many of its own writes, before one recovery completes. */
  datatype Event = Commit(t: Txn) | Crash(t: Txn, at: nat, retries: seq<nat>)

  ghost predicate GoodRun(l: Layout, d: Disk, events: seq<Event>) {
    forall i :: 0 <= i < |events| ==> GoodTxn(l, d, events[i].t)
  }

  function Take<T>(s: seq<T>, k: nat): (r: seq<T>) {
    if k <= |s| then s[..k] else s
  }

  /** Wherever a recovery is cut short, the log on disk can be recovered from. */
  lemma RetryPoint(l: Layout, d: Disk, k: nat)
    requires LogOk(l, d)
    ensures var e := Apply(d, Take(RecoveryWrites(l, d), k)); |e| == |d| && LogOk(l, e)
    ensures |Recover(l, d)| == |d|
  {
    hide Apply, RecoveryWrites, LogOk, Recover;
    var ws := RecoveryWrites(l, d);
    RecoveryCrash(l, d, |Take(ws, k)|);
    assert Take(ws, k) == ws[..|Take(ws, k)|];
    ApplySize(d, Take(ws, k));
    RecoverSize(l, d);
  }

  lemma RecoverSize(l: Layout, d: Disk)
    requires LogOk(l, d)
    ensures |Recover(l, d)| == |d|
  {
  }

  ghost function RecoverWithRetries(l: Layout, d: Disk, retries: seq<nat>): (r: Disk)
    requires LogOk(l, d)
    ensures |r| == |d|
    decreases |retries|
  {
    if retries == [] then RetryPoint(l, d, 0); Recover(l, d)
    else
      RetryPoint(l, d, retries[0]);
      RecoverWithRetries(l, Apply(d, Take(RecoveryWrites(l, d), retries[0])), retries[1..])
  }

  /** Wherever a commit is cut short, the log on disk can be recovered from. */
  lemma CrashPoint(l: Layout, d: Disk, t: Txn, at: nat)
    requires LogEmpty(l, d) && GoodTxn(l, d, t)
    ensures var e := Apply(d, Take(CommitWrites(l, d, t), at)); |e| == |d| && LogOk(l, e)
    ensures |Apply(d, CommitWrites(l, d, t))| == |d|
  {
    hide Apply, CommitWrites, PutHeader, GetWord, LogOk;
    var ws := CommitWrites(l, d, t);
    CommitCrash(l, d, t, |Take(ws, at)|);
    assert Take(ws, at) == ws[..|Take(ws, at)|];
    ApplySize(d, Take(ws, at));
    ApplySize(d, ws);
  }

  lemma ApplySize(d: Disk, ws: seq<Write>)
    ensures |Apply(d, ws)| == |d|
  {
  }

  ghost function Step(l: Layout, d: Disk, e: Event): (r: Disk)
    requires LogEmpty(l, d) && GoodTxn(l, d, e.t)
    ensures |r| == |d|
  {
    var ws := CommitWrites(l, d, e.t);
    match e
    case Commit(_) => Apply(d, ws)
    case Crash(_, at, retries) =>
      CrashPoint(l, d, e.t, at);
      RecoverWithRetries(l, Apply(d, Take(ws, at)), retries)
  }

  lemma {:induction false} RetriesConverge(l: Layout, d: Disk, retries: seq<nat>)
    requires LogOk(l, d) && LogEmpty(l, Recover(l, d))
    ensures LogEmpty(l, RecoverWithRetries(l, d, retries))
    ensures SameHome(l, RecoverWithRetries(l, d, retries), Recover(l, d))
    decreases |retries|
  {
    if retries != [] {
      var ws := RecoveryWrites(l, d);
      var p := Take(ws, retries[0]);
      assert p == ws[..|p|];
      RecoveryCrash(l, d, |p|);
      RetriesConverge(l, Apply(d, p), retries[1..]);
    }
  }

  /** The event left its transaction in effect. */
  predicate Survives(e: Event) { e.Commit? || Durable(e.t, e.at) }

  lemma StepIsAtomic(l: Layout, d: Disk, e: Event)
    requires LogEmpty(l, d) && GoodTxn(l, d, e.t)
    ensures LogEmpty(l, Step(l, d, e))
    ensures SameHome(l, Step(l, d, e), if Survives(e) then Installed(d, e.t) else d)
  {
    hide GetWord, PutWord, PutWords, PutHeader, Apply, CommitWrites, LogOk;
    var ws := CommitWrites(l, d, e.t);
    match e
    case Commit(_) =>
      assert ws[..|ws|] == ws;
      CommitCrash(l, d, e.t, |ws|);
    case Crash(_, at, retries) =>
      var p := Take(ws, at);
      assert p == ws[..|p|];
      CommitCrash(l, d, e.t, |p|);
      RetriesConverge(l, Apply(d, p), retries);
  }

  ghost function Run(l: Layout, d: Disk, events: seq<Event>): (r: Disk)
    requires LogEmpty(l, d) && GoodRun(l, d, events)
    ensures |r| == |d|
    decreases |events|
  {
    if events == [] then d
    else
      StepIsAtomic(l, d, events[0]);
      Run(l, Step(l, d, events[0]), events[1..])
  }

  /** The reference: install the surviving transactions, whole and in order. */
  function Ideal(d: Disk, events: seq<Event>): (r: Disk)
    requires forall i :: 0 <= i < |events| ==> |events[i].t.blocks| == |events[i].t.data|
    ensures |r| == |d|
    decreases |events|
  {
    if events == [] then d
    else Ideal(if Survives(events[0]) then Installed(d, events[0].t) else d, events[1..])
  }

  lemma {:induction false} IdealIgnoresLog(l: Layout, d: Disk, e: Disk, events: seq<Event>)
    requires SameHome(l, d, e)
    requires forall i :: 0 <= i < |events| ==> |events[i].t.blocks| == |events[i].t.data|
    ensures SameHome(l, Ideal(d, events), Ideal(e, events))
    decreases |events|
  {
    if events != [] {
      var v := events[0];
      SameHomeInstalls(l, d, e, v.t);
      if Survives(v) {
        IdealIgnoresLog(l, Installed(d, v.t), Installed(e, v.t), events[1..]);
      } else {
        IdealIgnoresLog(l, d, e, events[1..]);
      }
    }
  }

  /** Over any run with any crashes, the home blocks are exactly those of the
      transactions whose header write finished, each applied whole, in order. */
  lemma {:induction false} RunsAreAtomic(l: Layout, d: Disk, events: seq<Event>)
    requires LogEmpty(l, d) && GoodRun(l, d, events)
    ensures LogEmpty(l, Run(l, d, events))
    ensures SameHome(l, Run(l, d, events), Ideal(d, events))
    decreases |events|
  {
    hide GetWord, PutWord, PutWords, PutHeader, Apply;
    if events != [] {
      var e := events[0];
      StepIsAtomic(l, d, e);
      var next := if Survives(e) then Installed(d, e.t) else d;
      RunsAreAtomic(l, Step(l, d, e), events[1..]);
      IdealIgnoresLog(l, Step(l, d, e), next, events[1..]);
    }
  }
}
