/** How operations share the log: begin_op reserves space, log_write spends it, and the
    last end_op commits. One action is one critical section of log.lock. */
module Reservation {
  import opened Params

  /** blocks is lh.block[0..n) as a set; ops holds, for each outstanding operation, the
      distinct blocks it has passed to log_write. */
  datatype State = State(blocks: set<nat>, ops: seq<set<nat>>, committing: bool)

  datatype Action = Begin | Log(op: nat, b: nat) | End(op: nat) | Finish

  const Idle := State({}, [], false)

  /** log_write panics here, whatever the block. */
  predicate Full(s: State, size: nat) {
    |s.blocks| >= LOGSIZE || |s.blocks| >= size - 1
  }

  predicate Enabled(s: State, size: nat, a: Action) {
    match a
    case Begin => !s.committing && |s.blocks| + (|s.ops| + 1) * MAXOPBLOCKS <= LOGSIZE
    case Log(op, b) => op < |s.ops| && !Full(s, size)
    case End(op) => op < |s.ops|
    case Finish => s.committing
  }

  function Next(s: State, a: Action): (r: State)
    requires a.Log? || a.End? ==> a.op < |s.ops|
  {
    match a
    case Begin => s.(ops := s.ops + [{}])
    case Log(op, b) => s.(blocks := s.blocks + {b}, ops := s.ops[op := s.ops[op] + {b}])
    case End(op) => s.(ops := s.ops[..op] + s.ops[op + 1..], committing := |s.ops| == 1)
    case Finish => State({}, s.ops, false)
  }

  /** Every operation keeps to its budget of distinct blocks. */
  ghost predicate Within(s: State, budget: nat) {
    forall i :: 0 <= i < |s.ops| ==> |s.ops[i]| <= budget
  }

  /** The actions lead from s to t, and no operation exceeds its budget on the way. */
  ghost predicate Run(s: State, size: nat, budget: nat, actions: seq<Action>, t: State)
    decreases |actions|
  {
    if actions == [] then s == t
    else
      && Enabled(s, size, actions[0])
      && Within(Next(s, actions[0]), budget)
      && Run(Next(s, actions[0]), size, budget, actions[1..], t)
  }

  ghost predicate Reachable(size: nat, budget: nat, t: State) {
    exists actions :: Run(Idle, size, budget, actions, t)
  }

  /** Blocks the outstanding operations may still add, out of `budget` each. */
  function Unspent(ops: seq<set<nat>>, budget: nat): (n: int)
    decreases |ops|
  {
    if ops == [] then 0 else Unspent(ops[..|ops| - 1], budget) + budget - |ops[|ops| - 1]|
  }

  lemma {:induction false} UnspentUpdate(ops: seq<set<nat>>, budget: nat, i: nat, x: set<nat>)
    requires i < |ops|
    ensures Unspent(ops[i := x], budget) == Unspent(ops, budget) + |ops[i]| - |x|
    decreases |ops|
  {
    var k := |ops| - 1;
    if i < k {
      assert ops[i := x][..k] == ops[..k][i := x];
      UnspentUpdate(ops[..k], budget, i, x);
    } else {
      assert ops[i := x][..k] == ops[..k];
    }
  }

  lemma {:induction false} UnspentRemove(ops: seq<set<nat>>, budget: nat, i: nat)
    requires i < |ops|
    ensures Unspent(ops[..i] + ops[i + 1..], budget) == Unspent(ops, budget) - budget + |ops[i]|
    decreases |ops|
  {
    var k := |ops| - 1;
    var r := ops[..i] + ops[i + 1..];
    if i < k {
      assert r[..k - 1] == ops[..k][..i] + ops[..k][i + 1..];
      UnspentRemove(ops[..k], budget, i);
    } else {
      assert r == ops[..k];
    }
  }

  lemma {:induction false} UnspentBounds(ops: seq<set<nat>>, budget: nat)
    requires forall i :: 0 <= i < |ops| ==> |ops[i]| <= budget
    ensures 0 <= Unspent(ops, budget) <= |ops| * budget
    ensures forall i :: 0 <= i < |ops| ==> budget - |ops[i]| <= Unspent(ops, budget)
    decreases |ops|
  {
    if ops != [] {
      UnspentBounds(ops[..|ops| - 1], budget);
    }
  }

  lemma UnspentMore(ops: seq<set<nat>>, budget: nat)
    ensures Unspent(ops + [{}], budget) == Unspent(ops, budget) + budget
  {
    assert (ops + [{}])[..|ops|] == ops;
  }

  ghost predicate Inv(s: State, size: nat, budget: nat) {
    && (s.committing ==> s.ops == [])
    && (s.ops == [] && !s.committing ==> s.blocks == {})
    && (forall i :: 0 <= i < |s.ops| ==> s.ops[i] <= s.blocks)
    && Within(s, budget)
    && |s.blocks| + Unspent(s.ops, MAXOPBLOCKS) <= LOGSIZE
    && (|s.blocks| == 0 || |s.blocks| <= size - 1)
    && (budget < MAXOPBLOCKS ==> |s.blocks| + Unspent(s.ops, MAXOPBLOCKS - 1) <= LOGSIZE - 2)
  }

  lemma BeginKeepsInv(s: State, size: nat, budget: nat)
    requires Inv(s, size, budget) && budget <= MAXOPBLOCKS && Enabled(s, size, Begin)
    ensures Inv(Next(s, Begin), size, budget)
  {
    hide Unspent;
    UnspentMore(s.ops, MAXOPBLOCKS);
    UnspentMore(s.ops, MAXOPBLOCKS - 1);
    UnspentBounds(s.ops, MAXOPBLOCKS);
    if budget < MAXOPBLOCKS { UnspentBounds(s.ops, MAXOPBLOCKS - 1); }
  }

  lemma LogKeepsInv(s: State, size: nat, budget: nat, op: nat, b: nat)
    requires Inv(s, size, budget) && Enabled(s, size, Log(op, b)) && Within(Next(s, Log(op, b)), budget)
    ensures Inv(Next(s, Log(op, b)), size, budget)
  {
    var x := s.ops[op] + {b};
    UnspentUpdate(s.ops, MAXOPBLOCKS, op, x);
    UnspentUpdate(s.ops, MAXOPBLOCKS - 1, op, x);
    if b in s.blocks {
      assert s.blocks + {b} == s.blocks;
    } else {
      assert |s.blocks + {b}| == |s.blocks| + 1 && |x| == |s.ops[op]| + 1;
    }
    assert s.ops[op] <= x && |x| >= |s.ops[op]| by {
      if b in s.ops[op] { assert x == s.ops[op]; }
    }
  }

  lemma EndKeepsInv(s: State, size: nat, budget: nat, op: nat)
    requires Inv(s, size, budget) && budget <= MAXOPBLOCKS && Enabled(s, size, End(op))
    ensures Inv(Next(s, End(op)), size, budget)
  {
    UnspentRemove(s.ops, MAXOPBLOCKS, op);
    UnspentRemove(s.ops, MAXOPBLOCKS - 1, op);
    assert |s.ops[op]| <= budget;
  }

  lemma StepKeepsInv(s: State, size: nat, budget: nat, a: Action)
    requires Inv(s, size, budget) && budget <= MAXOPBLOCKS && Enabled(s, size, a) && Within(Next(s, a), budget)
    ensures Inv(Next(s, a), size, budget)
  {
    match a
    case Begin => BeginKeepsInv(s, size, budget);
    case Log(op, b) => LogKeepsInv(s, size, budget, op, b);
    case End(op) => EndKeepsInv(s, size, budget, op);
    case Finish =>
  }

  lemma {:induction false} RunKeepsInv(s: State, size: nat, budget: nat, actions: seq<Action>, t: State)
    requires Inv(s, size, budget) && budget <= MAXOPBLOCKS && Run(s, size, budget, actions, t)
    ensures Inv(t, size, budget)
    decreases |actions|
  {
    if actions != [] {
      StepKeepsInv(s, size, budget, actions[0]);
      RunKeepsInv(Next(s, actions[0]), size, budget, actions[1..], t);
    }
  }

  /** In every reachable state the log can still take everything the outstanding operations
      were promised, a commit holds no half-finished operation, and an idle log is empty. */
  lemma ReservationHolds(size: nat, budget: nat, s: State)
    requires budget <= MAXOPBLOCKS && Reachable(size, budget, s)
    ensures |s.blocks| + Unspent(s.ops, MAXOPBLOCKS) <= LOGSIZE
    ensures |s.blocks| == 0 || |s.blocks| <= size - 1
    ensures s.committing ==> s.ops == []
    ensures s.ops == [] && !s.committing ==> s.blocks == {}
  {
    var actions :| Run(Idle, size, budget, actions, s);
    RunKeepsInv(Idle, size, budget, actions, s);
  }

  // The budget the log really supports. mkfs gives the log LOGSIZE blocks, one of them the
  // header, so log_write refuses at LOGSIZE - 1 blocks although begin_op admits LOGSIZE.

  /** Some run of operations, each within its budget, meets log_write's panic: the state is
      reachable, an operation is inside a transaction, and it may still log the block b. */
  ghost predicate CanPanic(size: nat, budget: nat) {
    exists s, op, b :: Reachable(size, budget, s) && Refused(s, size, budget, op, b)
  }

  ghost predicate Refused(s: State, size: nat, budget: nat, op: nat, b: nat) {
    op < |s.ops| && |s.ops[op] + {b}| <= budget && Full(s, size)
  }

  predicate Inside(x: nat, lo: nat, hi: nat) { lo <= x < hi }

  function Between(lo: nat, hi: nat): (r: set<nat>) {
    set x: nat | x < hi && Inside(x, lo, hi)
  }

  lemma {:induction false} BetweenSize(lo: nat, hi: nat)
    requires lo <= hi
    ensures |Between(lo, hi)| == hi - lo
    decreases hi - lo
  {
    if lo < hi {
      BetweenSize(lo, hi - 1);
      assert Between(lo, hi) == Between(lo, hi - 1) + {hi - 1};
    }
  }

  lemma {:induction false} RunConcat(s: State, size: nat, budget: nat, a: seq<Action>, t: State, b: seq<Action>,
                                     u: State)
    requires Run(s, size, budget, a, t) && Run(t, size, budget, b, u)
    ensures Run(s, size, budget, a + b, u)
    decreases |a|
  {
    if a == [] {
      assert a + b == b;
    } else {
      assert (a + b)[1..] == a[1..] + b;
      RunConcat(Next(s, a[0]), size, budget, a[1..], t, b, u);
    }
  }

  lemma ReachOne(size: nat, budget: nat, s: State, a: Action)
    requires Reachable(size, budget, s) && Enabled(s, size, a) && Within(Next(s, a), budget)
    ensures Reachable(size, budget, Next(s, a))
  {
    var actions :| Run(Idle, size, budget, actions, s);
    assert [a][1..] == [];
    assert Run(s, size, budget, [a], Next(s, a));
    RunConcat(Idle, size, budget, actions, s, [a], Next(s, a));
  }

  /** Of the blocks 0, ..., n - 1, the ten that operation i logs. */
  function Share(n: nat, i: nat): (r: set<nat>) {
    Between(MAXOPBLOCKS * i, if n <= MAXOPBLOCKS * (i + 1) then n else MAXOPBLOCKS * (i + 1))
  }

  /** Three operations fill the log with n fresh blocks, ten by each in turn. */
  function Filled(n: nat): (s: State) {
    State(Between(0, n), [Share(n, 0), Share(n, 1), Share(n, 2)], false)
  }

  lemma ShareSize(n: nat, i: nat)
    ensures |Share(n, i)| <= MAXOPBLOCKS
  {
    var hi := if n <= MAXOPBLOCKS * (i + 1) then n else MAXOPBLOCKS * (i + 1);
    if MAXOPBLOCKS * i <= hi {
      BetweenSize(MAXOPBLOCKS * i, hi);
    } else {
      assert Share(n, i) == {};
    }
  }

  lemma FillOne(n: nat, op: nat)
    requires op < 3 && n / MAXOPBLOCKS == op
    ensures Next(Filled(n), Log(op, n)) == Filled(n + 1)
  {
    var s := Filled(n);
    var ops := s.ops[op := s.ops[op] + {n}];
    forall i | 0 <= i < 3 ensures ops[i] == Share(n + 1, i) {}
    assert ops == Filled(n + 1).ops;
    assert Between(0, n + 1) == Between(0, n) + {n};
  }

  lemma ThreeBegin()
    ensures Reachable(LOGSIZE, MAXOPBLOCKS, Filled(0))
  {
    var a, b, c := State({}, [{}], false), State({}, [{}, {}], false), State({}, [{}, {}, {}], false);
    assert Next(Idle, Begin) == a && Next(a, Begin) == b && Next(b, Begin) == c;
    assert Run(Idle, LOGSIZE, MAXOPBLOCKS, [], Idle);
    ReachOne(LOGSIZE, MAXOPBLOCKS, Idle, Begin);
    ReachOne(LOGSIZE, MAXOPBLOCKS, a, Begin);
    ReachOne(LOGSIZE, MAXOPBLOCKS, b, Begin);
    assert Share(0, 0) == {} && Share(0, 1) == {} && Share(0, 2) == {} && Between(0, 0) == {};
    assert c == Filled(0);
  }

  lemma FilledWithin(n: nat)
    ensures Within(Filled(n), MAXOPBLOCKS)
  {
    ShareSize(n, 0);
    ShareSize(n, 1);
    ShareSize(n, 2);
  }

  lemma {:induction false} FilledReachable(n: nat)
    requires n < LOGSIZE
    ensures Reachable(LOGSIZE, MAXOPBLOCKS, Filled(n))
  {
    if n == 0 {
      ThreeBegin();
    } else {
      var op := (n - 1) / MAXOPBLOCKS;
      FilledReachable(n - 1);
      FillOne(n - 1, op);
      FilledWithin(n);
      var s := Filled(n - 1);
      BetweenSize(0, n - 1);
      ReachOne(LOGSIZE, MAXOPBLOCKS, s, Log(op, n - 1));
    }
  }

  /** Budget MAXOPBLOCKS is one too many: three operations of ten fresh blocks each panic at the last one. */
  lemma FullBudgetPanics()
    ensures CanPanic(LOGSIZE, MAXOPBLOCKS)
  {
    var s := Filled(LOGSIZE - 1);
    FilledReachable(LOGSIZE - 1);
    assert s.ops[2] + {LOGSIZE - 1} == Between(20, LOGSIZE);
    BetweenSize(20, LOGSIZE);
    BetweenSize(0, LOGSIZE - 1);
    assert Refused(s, LOGSIZE, MAXOPBLOCKS, 2, LOGSIZE - 1);
  }

  /** With mkfs's log, operations of at most `budget` distinct blocks can meet the "too big
      a transaction" panic exactly when the budget is the advertised MAXOPBLOCKS. */
  lemma PanicIffFullBudget(budget: nat)
    requires budget <= MAXOPBLOCKS
    ensures CanPanic(LOGSIZE, budget) <==> budget == MAXOPBLOCKS
  {
    if budget == MAXOPBLOCKS {
      FullBudgetPanics();
    } else {
      forall s, op: nat, b: nat | Reachable(LOGSIZE, budget, s) ensures !Refused(s, LOGSIZE, budget, op, b) {
        var actions :| Run(Idle, LOGSIZE, budget, actions, s);
        RunKeepsInv(Idle, LOGSIZE, budget, actions, s);
        if op < |s.ops| { UnspentBounds(s.ops, MAXOPBLOCKS - 1); }
      }
    }
  }
}
