/** The prime sieve: a chain of processes joined by pipes, as interleaved steps. Every process
    reads and writes whole ints: a pipe's capacity is a multiple of sizeof(int), so neither side
    of it ever stops inside one. */
module Primes {
  import opened Collections

  // What the chain computes

  /** What a stage that printed p passes on of s. */
  function Filter(p: int, s: seq<int>): (r: seq<int>)
    requires p > 0
  {
    if s == [] then []
    else if s[|s| - 1] % p != 0 then Filter(p, s[..|s| - 1]) + [s[|s| - 1]]
    else Filter(p, s[..|s| - 1])
  }

  ghost predicate Positive(s: seq<int>) {
    forall i :: 0 <= i < |s| ==> s[i] > 0
  }

  lemma {:induction false} FilterIn(p: int, s: seq<int>, x: int)
    requires p > 0
    ensures x in Filter(p, s) <==> x in s && x % p != 0
  {
    if s != [] {
      var t := s[..|s| - 1];
      FilterIn(p, t, x);
      assert s == t + [s[|s| - 1]];
    }
  }

  lemma {:induction false} FilterShorter(p: int, s: seq<int>)
    requires p > 0
    ensures |Filter(p, s)| <= |s|
  {
    if s != [] { FilterShorter(p, s[..|s| - 1]); }
  }

  ghost predicate Increasing(s: seq<int>) {
    forall i, j :: 0 <= i < j < |s| ==> s[i] < s[j]
  }

  lemma {:induction false} FilterIncreasing(p: int, s: seq<int>)
    requires p > 0 && Increasing(s)
    ensures Increasing(Filter(p, s))
  {
    if s != [] {
      var t, x := s[..|s| - 1], s[|s| - 1];
      FilterIncreasing(p, t);
      forall i | 0 <= i < |Filter(p, t)| ensures Filter(p, t)[i] < x { FilterIn(p, t, Filter(p, t)[i]); }
    }
  }

  /** The primes printed by the stages fed s. */
  ghost function Sieve(s: seq<int>): (r: seq<int>)
    requires Positive(s)
    decreases |s|
  {
    if s == [] then []
    else
      FilterShorter(s[0], s[1..]);
      FilterPositive(s[0], s[1..]);
      [s[0]] + Sieve(Filter(s[0], s[1..]))
  }

  lemma FilterPositive(p: int, s: seq<int>)
    requires p > 0 && Positive(s)
    ensures Positive(Filter(p, s))
  {
    forall i | 0 <= i < |Filter(p, s)| ensures Filter(p, s)[i] > 0 { FilterIn(p, s, Filter(p, s)[i]); }
  }

  ghost predicate Prime(x: int) {
    x >= 2 && forall d :: 2 <= d < x ==> x % d != 0
  }

  ghost predicate NoneDivides(earlier: seq<int>, x: int) {
    forall i :: 0 <= i < |earlier| ==> earlier[i] > 0 && x % earlier[i] != 0
  }

  /** s is the numbers 2 .. n that none of the earlier primes divides, in order. */
  ghost predicate Survivors(s: seq<int>, n: int, earlier: seq<int>) {
    && Increasing(s)
    && (forall i :: 0 <= i < |earlier| ==> earlier[i] >= 2)
    && forall x :: x in s <==> 2 <= x <= n && NoneDivides(earlier, x)
  }

  lemma DividesThrough(p: int, d: int, x: int)
    requires p > 0 && d > 0 && d % p == 0 && x % d == 0
    ensures x % p == 0
  {
    var a, b := d / p, x / d;
    assert x == p * (a * b) by { assert d == p * a && x == d * b; assert (p * a) * b == p * (a * b); }
    MultipleMod(p, a * b);
  }

  lemma MultipleMod(p: int, k: int)
    requires p > 0
    ensures (p * k) % p == 0
  {
    var q, r := (p * k) / p, (p * k) % p;
    var e := k - q;
    assert r == p * e;
    if e >= 1 { Scale(p, e); } else if e <= -1 { Scale(p, -e); }
  }

  lemma Scale(p: int, e: int)
    requires p > 0 && e >= 1
    ensures p * e >= p
  {
  }

  /** The first survivor is prime: a smaller divisor would have been struck out, and the number with it. */
  lemma FirstIsPrime(s: seq<int>, n: int, earlier: seq<int>)
    requires Survivors(s, n, earlier) && s != []
    ensures Prime(s[0])
  {
    var x := s[0];
    assert x in s;
    forall d | 2 <= d < x ensures x % d != 0 {
      assert d !in s;
      var i :| 0 <= i < |earlier| && d % earlier[i] == 0;
      if x % d == 0 { DividesThrough(earlier[i], d, x); }
    }
  }

  lemma NextSurvivors(s: seq<int>, n: int, earlier: seq<int>)
    requires Survivors(s, n, earlier) && s != []
    ensures s[0] >= 2 && Survivors(Filter(s[0], s[1..]), n, earlier + [s[0]])
  {
    var p, t, next := s[0], s[1..], earlier + [s[0]];
    assert p in s && s == [p] + t;
    FilterIncreasing(p, t);
    forall x ensures x in Filter(p, t) <==> 2 <= x <= n && NoneDivides(next, x) {
      FilterIn(p, t, x);
      MultipleMod(p, 1);
      assert NoneDivides(next, x) <==> NoneDivides(earlier, x) && x % p != 0 by {
        if NoneDivides(next, x) {
          assert next[|earlier|] == p;
          forall i | 0 <= i < |earlier| ensures earlier[i] > 0 && x % earlier[i] != 0 { assert next[i] == earlier[i]; }
        }
      }
    }
  }

  /** The sieve yields exactly the primes among the survivors, in increasing order. */
  lemma {:induction false} SieveIsPrimes(s: seq<int>, n: int, earlier: seq<int>)
    requires Positive(s) && Survivors(s, n, earlier)
    ensures Increasing(Sieve(s)) && forall x :: x in Sieve(s) <==> x in s && Prime(x)
    decreases |s|
  {
    if s != [] {
      var p, t := s[0], s[1..];
      FirstIsPrime(s, n, earlier);
      NextSurvivors(s, n, earlier);
      FilterShorter(p, t);
      FilterPositive(p, t);
      var f := Filter(p, t);
      SieveIsPrimes(f, n, earlier + [p]);
      assert s == [p] + t && Sieve(s) == [p] + Sieve(f);
      forall x ensures x in Sieve(s) <==> x in s && Prime(x) {
        FilterIn(p, t, x);
        if x in t && Prime(x) { assert p < x; assert x % p != 0; }
      }
      forall i | 0 <= i < |Sieve(f)| ensures p < Sieve(f)[i] {
        assert Sieve(f)[i] in Sieve(f);
        FilterIn(p, t, Sieve(f)[i]);
      }
    }
  }

  /** 2, 3, ..., n. */
  function From2(n: int): (s: seq<int>)
    decreases n
  {
    if n < 2 then [] else From2(n - 1) + [n]
  }

  lemma {:induction false} From2Is(n: int)
    ensures |From2(n)| == (if n < 2 then 0 else n - 1) && forall i :: 0 <= i < |From2(n)| ==> From2(n)[i] == i + 2
    decreases n
  {
    if n >= 2 { From2Is(n - 1); }
  }

  /** For every n: the chain's specification is the primes up to n, in order. */
  lemma SieveOfAll(n: int)
    ensures Positive(From2(n)) && Increasing(Sieve(From2(n))) &&
            forall x :: x in Sieve(From2(n)) <==> Prime(x) && x <= n
  {
    From2Is(n);
    var s := From2(n);
    forall x ensures x in s <==> 2 <= x <= n && NoneDivides([], x) {
      if 2 <= x <= n { assert s[x - 2] == x; }
    }
    SieveIsPrimes(s, n, []);
  }

  // The chain of processes

  /** Ints a pipe can hold. */
  const CAPACITY := 128

  /** Waiting is wait(0): both pipes are closed, the child may still be running. */
  datatype Phase = Reading | Filtering(prime: int) | Waiting | Done

  predicate Over(p: Phase) { p.Waiting? || p.Done? }

  /** A sieve process: what it has read, what waits in its left pipe, whether that pipe's writer has closed it, and
      a number it is about to write to the right. */
  datatype Stage = Stage(phase: Phase, got: seq<int>, input: seq<int>, eof: bool, held: Option<int>)

  /** next is main's loop counter; closed says main has closed its pipe, exited that its wait(0) has returned; out is
      what was printed. */
  datatype State = State(n: int, next: int, closed: bool, exited: bool, stages: seq<Stage>, out: seq<int>)

  datatype Action = Feed | Close | Exit | Step(k: nat)

  const FRESH := Stage(Reading, [], [], false, None)

  predicate Enabled(s: State, a: Action) {
    match a
    case Feed => s.stages != [] && s.next <= s.n && !s.closed && |s.stages[0].input| < CAPACITY
    case Close => s.stages != [] && s.next > s.n && !s.closed
    case Exit => s.stages != [] && s.closed && !s.exited && s.stages[0].phase.Done?
    case Step(k) =>
      && k < |s.stages|
      && var g := s.stages[k];
         match g.phase
         case Reading => g.input != [] || g.eof
         case Filtering(p) => k + 1 < |s.stages| && p > 0 &&
         (if g.held.Some? then |s.stages[k + 1].input| < CAPACITY else g.input != [] || g.eof)
         case Waiting => k + 1 < |s.stages| && s.stages[k + 1].phase.Done?
         case Done => false
  }

  function Next(s: State, a: Action): (t: State)
    requires Enabled(s, a)
  {
    match a
    case Feed => s.(stages := s.stages[0 := s.stages[0].(input := s.stages[0].input + [s.next])], next := s.next + 1)
    case Close => s.(stages := s.stages[0 := s.stages[0].(eof := true)], closed := true)
    case Exit => s.(exited := true)
    case Step(k) =>
      var g := s.stages[k];
      match g.phase
      case Reading =>
        if g.input != [] then
          var p := g.input[0];
          s.(stages := s.stages[k := Stage(Filtering(p), [p], g.input[1..], g.eof, None)] + [FRESH], out := s.out + [p])
        else s.(stages := s.stages[k := g.(phase := Done)])
      case Filtering(p) =>
        if g.held.Some? then
          var r := s.stages[k + 1];
          s.(stages := s.stages[k := g.(held := None)][k + 1 := r.(input := r.input + [g.held.value])])
        else if g.input != [] then
          var x := g.input[0];
          s.(stages := s.stages[k := g.(got := g.got + [x], input := g.input[1..],
                                        held := if x % p != 0 then Some(x) else None)])
        else
          s.(stages := s.stages[k := g.(phase := Waiting)][k + 1 := s.stages[k + 1].(eof := true)])
      case Waiting => s.(stages := s.stages[k := g.(phase := Done)])
      case Done => s
  }

  /** Everything written so far into the stage's left pipe. */
  function Fed(g: Stage): (s: seq<int>) { g.got + g.input }

  function Held(g: Stage): (s: seq<int>) { if g.held.Some? then [g.held.value] else [] }

  /** What a stage and its pipes look like on their own. */
  ghost predicate StageOk(g: Stage, last: bool) {
    && Positive(Fed(g))
    && (last <==> g.got == [])
    && (g.phase.Reading? ==> g.got == [] && g.held.None?)
    && (g.phase.Filtering? ==> g.got != [] && g.phase.prime == g.got[0])
    && (Over(g.phase) ==> g.eof && g.input == [] && g.held.None?)
    && (g.phase.Waiting? ==> g.got != [])
  }

  /** What a stage has passed on, and still holds, is its filter of what it read after the prime. */
  ghost predicate Passes(g: Stage, r: Stage) {
    && g.got != [] && g.got[0] > 0
    && Fed(r) + Held(g) == Filter(g.got[0], g.got[1..])
    && (r.eof <==> Over(g.phase))
  }

  ghost predicate PassesAt(s: State, k: nat)
    requires k + 1 < |s.stages|
  {
    Passes(s.stages[k], s.stages[k + 1])
  }

  /** A process exits after its child. */
  ghost predicate DoneInOrder(s: State, k: nat)
    requires k + 1 < |s.stages|
  {
    s.stages[k].phase.Done? ==> s.stages[k + 1].phase.Done?
  }

  ghost predicate Inv(s: State) {
    && s.stages != [] && 2 <= s.next && (s.next <= s.n + 1 || s.next == 2)
    && Fed(s.stages[0]) == From2(s.next - 1) && s.stages[0].eof == s.closed && (s.closed ==> s.next > s.n)
    && (forall k :: 0 <= k < |s.stages| ==> StageOk(s.stages[k], k == |s.stages| - 1))
    && (forall k :: 0 <= k < |s.stages| - 1 ==> PassesAt(s, k))
    && (forall k :: 0 <= k < |s.stages| - 1 ==> DoneInOrder(s, k)) && (s.exited ==> s.closed && s.stages[0].phase.Done?)
    && |s.out| == |s.stages| - 1 && forall k :: 0 <= k < |s.out| ==>
                                                  s.stages[k].got != [] && s.out[k] == s.stages[k].got[0]
  }

  lemma MainKeepsInv(s: State, a: Action)
    requires Inv(s) && Enabled(s, a) && !a.Step?
    ensures Inv(Next(s, a))
  {
    hide Filter;
    var t := Next(s, a);
    assert StageOk(s.stages[0], |s.stages| == 1);
    assert a.Feed? ==> Fed(t.stages[0]) == Fed(s.stages[0]) + [s.next];
    forall k | 0 <= k < |t.stages| ensures StageOk(t.stages[k], k == |t.stages| - 1) {
      assert StageOk(s.stages[k], k == |s.stages| - 1);
    }
    forall k | 0 <= k < |t.stages| - 1 ensures PassesAt(t, k) &&
      DoneInOrder(t, k) { assert PassesAt(s, k) && DoneInOrder(s, k); }
  }

  /** A stage that reads its prime, or finds its input ended. */
  lemma StartLocal(g: Stage, g': Stage)
    requires StageOk(g, true) && g.phase.Reading? && (g.input != [] || g.eof)
    requires g' == if g.input != [] then Stage(Filtering(g.input[0]), [g.input[0]], g.input[1..], g.eof, None)
                     else g.(phase := Done)
    ensures Fed(g') == Fed(g) && g'.eof == g.eof && StageOk(g', g.input == []) && StageOk(FRESH, true)
    ensures g.input != [] ==> Passes(g', FRESH)
  {
    if g.input != [] {
      assert Fed(g)[0] == g.input[0] && g'.got[1..] == [];
      assert Fed(g') == Fed(g);
    }
  }

  lemma StartInPlace(s: State, t: State, k: nat, g': Stage, grow: bool)
    requires Inv(s) && k == |s.stages| - 1 && StageOk(g', !grow) && Fed(g') == Fed(s.stages[k]) &&
             g'.eof == s.stages[k].eof
    requires (grow ==> g'.got != [] && !g'.phase.Done?) && s.stages[k].phase.Reading?
    requires if grow then t == s.(stages := s.stages[k := g'] + [FRESH], out := s.out + [g'.got[0]]) &&
                          Passes(g', FRESH) && StageOk(FRESH, true)
             else t == s.(stages := s.stages[k := g'])
    ensures Inv(t)
  {
    hide From2, Filter, Fed, Passes, StageOk;
    assert grow ==> g'.got != [] by { NotLast(g'); }
    forall j | 0 <= j < |t.stages| ensures StageOk(t.stages[j], j == |t.stages| - 1) {
      if j < k { assert StageOk(s.stages[j], j == |s.stages| - 1); }
    }
    forall j | 0 <= j < |t.stages| - 1 ensures PassesAt(t, j) && DoneInOrder(t, j) {
      if j < k {
        assert PassesAt(s, j) && DoneInOrder(s, j);
        if j + 1 == k { LeftStays(s.stages[j], s.stages[k], g'); }
      }
    }
  }

  lemma NotLast(g: Stage)
    ensures StageOk(g, false) ==> g.got != []
  {
  }

  lemma StartKeepsInv(s: State, k: nat)
    requires Inv(s) && Enabled(s, Step(k)) && s.stages[k].phase.Reading?
    ensures Inv(Next(s, Step(k)))
  {
    var t, g := Next(s, Step(k)), s.stages[k];
    var g' := t.stages[k];
    assert StageOk(g, k == |s.stages| - 1);
    assert k == |s.stages| - 1;
    hide Inv, From2, Filter, Fed, Passes, StageOk;
    StartLocal(g, g');
    StartInPlace(s, t, k, g', g.input != []);
  }

  lemma FilterMore(p: int, s: seq<int>, x: int)
    requires p > 0
    ensures Filter(p, s + [x]) == Filter(p, s) + if x % p != 0 then [x] else []
  {
    assert (s + [x])[..|s|] == s;
  }

  lemma FilterKeepsInv(s: State, k: nat)
    requires Inv(s) && Enabled(s, Step(k)) && s.stages[k].phase.Filtering?
    ensures Inv(Next(s, Step(k)))
  {
    var t, g, r := Next(s, Step(k)), s.stages[k], s.stages[k + 1];
    var g', r' := t.stages[k], t.stages[k + 1];
    assert StageOk(g, false) && StageOk(r, k + 1 == |s.stages| - 1) && PassesAt(s, k);
    hide Inv, Filter, From2, Fed, StageOk, Passes;
    PairKeeps(g, r, g', r', k + 1 == |s.stages| - 1);
    PairInPlace(s, t, k, g', r');
  }

  lemma PairInPlace(s: State, t: State, k: nat, g': Stage, r': Stage)
    requires Inv(s) && k + 1 < |s.stages| && t == s.(stages := s.stages[k := g'][k + 1 := r'])
    requires var g, r, last := s.stages[k], s.stages[k + 1], k + 1 == |s.stages| - 1;
      && StageOk(g', false) && StageOk(r', last) && Passes(g', r') && Fed(g') == Fed(g) && g'.eof == g.eof &&
         g.got != [] && g'.got != [] && g'.got[0] == g.got[0]
      && r'.got == r.got && r'.phase == r.phase && r'.held == r.held && !g.phase.Done? && !g'.phase.Done?
    ensures Inv(t)
  {
    hide Filter, From2, Fed, StageOk, Passes;
    forall j | 0 <= j < |t.stages| ensures StageOk(t.stages[j], j == |t.stages| - 1) {
      assert StageOk(s.stages[j], j == |s.stages| - 1);
    }
    forall j | 0 <= j < |t.stages| - 1 ensures PassesAt(t, j) && DoneInOrder(t, j) {
      assert PassesAt(s, j) && DoneInOrder(s, j);
      if j + 1 == k { LeftStays(s.stages[j], s.stages[k], g'); }
      if j == k + 1 { RightStays(s.stages[j], r', s.stages[j + 1]); }
    }
    forall j | 0 <= j < |t.out| ensures t.stages[j].got != [] && t.out[j] == t.stages[j].got[0] {
      assert s.stages[j].got != [] && s.out[j] == s.stages[j].got[0];
    }
  }

  /** One filtering step, seen by the stage that takes it and the one to its right. */
  lemma PairKeeps(g: Stage, r: Stage, g': Stage, r': Stage, last: bool)
    requires StageOk(g, false) && StageOk(r, last) && Passes(g, r) && g.phase.Filtering?
    requires g' == (if g.held.Some? then g.(held := None) else if g.input != []
                    then g.(got := g.got + [g.input[0]], input := g.input[1..],
                            held := if g.input[0] % g.phase.prime != 0 then Some(g.input[0]) else None)
                    else g.(phase := Waiting))
    requires g.held.None? && g.input == [] ==> g.eof
    requires r' == if g.held.Some? then r.(input := r.input + [g.held.value])
                     else if g.input != [] then r else r.(eof := true)
    ensures StageOk(g', false) && StageOk(r', last) && Passes(g', r') && Fed(g') == Fed(g) && r'.got == r.got &&
            r'.phase == r.phase && r'.held == r.held
    ensures g'.eof == g.eof && g'.got != [] && g'.got[0] == g.got[0] && !g'.phase.Done?
  {
    hide Filter;
    var p, tail := g.got[0], g.got[1..];
    assert Positive(tail) by { assert forall i :: 0 <= i < |tail| ==> tail[i] == Fed(g)[i + 1]; }
    FilterPositive(p, tail);
    if g.held.Some? {
      assert Fed(r') == Fed(r) + Held(g) && Fed(r') + Held(g') == Fed(r');
    } else if g.input != [] {
      assert g'.got[1..] == tail + [g.input[0]] && Fed(g') == Fed(g);
      FilterMore(p, tail, g.input[0]);
    } else {
      assert Fed(r') == Fed(r);
    }
  }

  lemma LeftStays(l: Stage, g: Stage, g': Stage)
    requires Passes(l, g) && Fed(g') == Fed(g) && g'.eof == g.eof
    ensures Passes(l, g')
  {
  }

  lemma RightStays(r: Stage, r': Stage, q: Stage)
    requires Passes(r, q) && r'.got == r.got && r'.held == r.held && Over(r'.phase) == Over(r.phase)
    ensures Passes(r', q)
  {
  }

  /** wait(0) returns. */
  lemma WaitKeepsInv(s: State, k: nat)
    requires Inv(s) && Enabled(s, Step(k)) && s.stages[k].phase.Waiting?
    ensures Inv(Next(s, Step(k)))
  {
    hide From2, Filter, Fed, Passes;
    var t := Next(s, Step(k));
    assert StageOk(s.stages[k], k == |s.stages| - 1);
    WaitedOk(s.stages[k], t.stages[k]);
    hide StageOk;
    forall j | 0 <= j < |t.stages| ensures StageOk(t.stages[j], j == |t.stages| - 1) {
      assert StageOk(s.stages[j], j == |s.stages| - 1);
    }
    forall j | 0 <= j < |t.stages| - 1 ensures PassesAt(t, j) && DoneInOrder(t, j) {
      assert PassesAt(s, j) && DoneInOrder(s, j);
      if j + 1 == k { LeftStays(s.stages[j], s.stages[k], t.stages[k]); }
      if j == k { RightStays(s.stages[k], t.stages[k], s.stages[k + 1]); }
    }
    forall j | 0 <= j < |t.out| ensures t.stages[j].got != [] && t.out[j] == t.stages[j].got[0] {
      assert s.stages[j].got != [] && s.out[j] == s.stages[j].got[0];
    }
  }

  lemma WaitedOk(g: Stage, g': Stage)
    requires StageOk(g, false) && g.phase.Waiting? && g' == g.(phase := Done)
    ensures StageOk(g', false) && Fed(g') == Fed(g)
  {
  }

  lemma StepKeepsInv(s: State, a: Action)
    requires Inv(s) && Enabled(s, a)
    ensures Inv(Next(s, a)) && Next(s, a).n == s.n
  {
    if !a.Step? { MainKeepsInv(s, a); }
    else if s.stages[a.k].phase.Waiting? { WaitKeepsInv(s, a.k); }
    else if s.stages[a.k].phase.Reading? { StartKeepsInv(s, a.k); }
    else { FilterKeepsInv(s, a.k); }
  }

  ghost predicate Run(s: State, actions: seq<Action>, t: State)
    decreases |actions|
  {
    if actions == [] then s == t
    else Enabled(s, actions[0]) && Run(Next(s, actions[0]), actions[1..], t)
  }

  lemma {:induction false} RunKeepsInv(s: State, actions: seq<Action>, t: State)
    requires Inv(s) && Run(s, actions, t)
    ensures Inv(t) && t.n == s.n
    decreases |actions|
  {
    if actions != [] {
      StepKeepsInv(s, actions[0]);
      RunKeepsInv(Next(s, actions[0]), actions[1..], t);
    }
  }

  function Start(n: int): (s: State) {
    State(n, 2, false, false, [FRESH], [])
  }

  /** Every process has exited. */
  ghost predicate Finished(s: State) {
    s.closed && s.exited && forall k :: 0 <= k < |s.stages| ==> s.stages[k].phase.Done?
  }

  lemma {:induction false} FilterPrefix(p: int, s: seq<int>, t: seq<int>)
    requires p > 0 && s <= t
    ensures Filter(p, s) <= Filter(p, t)
    decreases |t|
  {
    if |s| < |t| {
      FilterPrefix(p, s, t[..|t| - 1]);
    } else {
      assert s == t;
    }
  }

  /** What the stages from k on have printed is a prefix of what they should print given all of s as input. */
  lemma {:induction false} PrintedFrom(st: State, k: nat, s: seq<int>)
    requires Inv(st) && k < |st.stages| && Positive(s) && Fed(st.stages[k]) <= s
    ensures st.out[k..] <= Sieve(s)
    ensures Finished(st) && Fed(st.stages[k]) == s ==> st.out[k..] == Sieve(s)
    decreases |st.stages| - k
  {
    var g := st.stages[k];
    assert StageOk(g, k == |st.stages| - 1);
    if k == |st.stages| - 1 {
      assert st.out[k..] == [];
    } else {
      assert PassesAt(st, k) && g.got != [];
      var p, tail := g.got[0], g.got[1..];
      assert Fed(g)[0] == p == s[0];
      assert tail <= s[1..];
      FilterPrefix(p, tail, s[1..]);
      FilterPositive(p, s[1..]);
      var r := st.stages[k + 1];
      assert Fed(r) <= Filter(p, tail);
      if Finished(st) && Fed(g) == s {
        assert g.phase.Done? && g.got == s && Held(g) == [];
        assert tail == s[1..] && Fed(r) == Filter(p, tail);
      }
      PrintedFrom(st, k + 1, Filter(p, s[1..]));
      assert st.out[k..] == [p] + st.out[k + 1..];
    }
  }

  /** In every interleaving, what has been printed is a prefix of the primes up to n in increasing order; and it is all
      of them once every process has exited. */
  lemma PrintsPrimes(n: int, actions: seq<Action>, t: State)
    requires Run(Start(n), actions, t)
    ensures Positive(From2(n)) && t.out <= Sieve(From2(n))
    ensures Increasing(t.out) && forall x :: x in t.out ==> Prime(x) && x <= n
    ensures Finished(t) ==> forall x :: Prime(x) && x <= n ==> x in t.out
  {
    hide Inv, Sieve, Prime, Finished, From2;
    StartHolds(n);
    RunKeepsInv(Start(n), actions, t);
    SieveOfAll(n);
    PrintedAll(t);
  }

  lemma StartHolds(n: int)
    ensures Inv(Start(n))
  {
    From2Is(1);
    assert StageOk(FRESH, true);
  }

  lemma PrintedAll(t: State)
    requires Inv(t) && Positive(From2(t.n))
    ensures t.out <= Sieve(From2(t.n)) && (Finished(t) ==> t.out == Sieve(From2(t.n)))
  {
    hide Sieve;
    From2Prefix(t.next - 1, t.n);
    From2Is(t.n);
    PrintedFrom(t, 0, From2(t.n));
    assert t.out[0..] == t.out;
    assert StageOk(t.stages[0], 0 == |t.stages| - 1);
  }

  lemma {:induction false} From2Prefix(m: int, n: int)
    ensures m <= n ==> From2(m) <= From2(n)
    decreases n - m
  {
    if m < n && n >= 2 { From2Prefix(m, n - 1); }
  }

  /** A stage with something to read, or at end of file, can move, or a stage to its right can. */
  lemma {:induction false} SomeStageMoves(s: State, k: nat) returns (a: Action)
    requires Inv(s) && k < |s.stages| && !Over(s.stages[k].phase) && (s.stages[k].input != [] || s.stages[k].eof)
    ensures Enabled(s, a)
    decreases |s.stages| - k
  {
    var g := s.stages[k];
    assert StageOk(g, k == |s.stages| - 1);
    a := Step(k);
    if g.phase.Filtering? {
      assert PassesAt(s, k);
      if g.held.Some? && |s.stages[k + 1].input| >= CAPACITY {
        assert StageOk(s.stages[k + 1], k + 1 == |s.stages| - 1);
        a := SomeStageMoves(s, k + 1);
      }
    }
  }

  /** The chain never gets stuck: until every process has exited, some process can take a step. */
  lemma NoDeadlock(s: State) returns (a: Action)
    requires Inv(s) && !Finished(s)
    ensures Enabled(s, a)
  {
    assert StageOk(s.stages[0], |s.stages| == 1);
    if !s.closed {
      if s.next > s.n { a := Close; }
      else if |s.stages[0].input| < CAPACITY { a := Feed; }
      else { a := SomeStageMoves(s, 0); }
    } else {
      var k := 0;
      while k < |s.stages| && Over(s.stages[k].phase)
        invariant 0 <= k <= |s.stages| && forall j :: 0 <= j < k ==> Over(s.stages[j].phase)
      {
        k := k + 1;
      }
      if k < |s.stages| {
        if k > 0 { assert PassesAt(s, k - 1); }
        a := SomeStageMoves(s, k);
      } else {
        a := SomeWaitReturns(s);
      }
    }
  }

  /** With every pipe closed, the last process that has not exited can. */
  lemma SomeWaitReturns(s: State) returns (a: Action)
    requires Inv(s) && s.closed && !Finished(s) && forall j :: 0 <= j < |s.stages| ==> Over(s.stages[j].phase)
    ensures Enabled(s, a)
  {
    hide From2, Filter, PassesAt;
    var k := |s.stages|;
    while k > 0 && s.stages[k - 1].phase.Done?
      invariant 0 <= k <= |s.stages| && forall j :: k <= j < |s.stages| ==> s.stages[j].phase.Done?
    {
      k := k - 1;
    }
    if k == 0 {
      a := Exit;
    } else {
      assert StageOk(s.stages[k - 1], k - 1 == |s.stages| - 1);
      a := Step(k - 1);
    }
  }

  /** What stage k was given in all: exactly the numbers up to n that none of the primes printed before it divides. */
  lemma {:induction false} StageInput(s: State, k: nat)
    requires Inv(s) && Finished(s) && k < |s.stages|
    ensures Survivors(Fed(s.stages[k]), s.n, s.out[..k])
  {
    hide Survivors, Filter, From2;
    if k == 0 {
      FirstInput(s);
      assert s.out[..0] == [];
    } else {
      StageInput(s, k - 1);
      var g, r := s.stages[k - 1], s.stages[k];
      assert PassesAt(s, k - 1) && StageOk(g, false) && g.phase.Done?;
      hide Inv;
      assert Fed(g) == g.got && Fed(r) + Held(g) == Fed(r);
      NextSurvivors(g.got, s.n, s.out[..k - 1]);
      assert s.out[..k] == s.out[..k - 1] + [s.out[k - 1]];
    }
  }

  lemma FirstInput(s: State)
    requires Inv(s) && s.closed
    ensures Survivors(Fed(s.stages[0]), s.n, [])
  {
    hide StageOk, PassesAt;
    From2Is(s.next - 1);
    var f := Fed(s.stages[0]);
    forall x ensures x in f <==> 2 <= x <= s.n && NoneDivides([], x) {
      if 2 <= x <= s.n { assert f[x - 2] == x; }
    }
  }

  // Every run ends

  /** Steps that a number waiting before stage k can still cause, when there are no stages beyond b. */
  function Cost(k: nat, b: nat): (c: nat) { if k <= b then 5 * (b + 1 - k) else 0 }

  function PhaseWork(p: Phase): (w: nat) {
    match p case Reading => 3 case Filtering(_) => 2 case Waiting => 1 case Done => 0
  }

  function Weigh(items: nat, c: nat): (w: nat) { items * c }

  lemma OneLess(items: nat, c: nat)
    ensures Weigh(items + 1, c) == Weigh(items, c) + c
  {
  }

  function StageWork(g: Stage, k: nat, b: nat): (w: nat) {
    Weigh(|g.input|, Cost(k, b)) + (if g.held.Some? && Cost(k, b) > 0 then Cost(k, b) - 1 else 0) + PhaseWork(g.phase)
  }

  function Work(stages: seq<Stage>, b: nat): (w: nat) {
    if stages == [] then 0 else Work(stages[..|stages| - 1], b) + StageWork(stages[|stages| - 1], |stages| - 1, b)
  }

  lemma {:induction false} WorkUpdate(stages: seq<Stage>, i: nat, g: Stage, b: nat)
    requires i < |stages|
    ensures Work(stages[i := g], b) + StageWork(stages[i], i, b) == Work(stages, b) + StageWork(g, i, b)
    decreases |stages|
  {
    hide StageWork;
    var k := |stages| - 1;
    if i == k {
      assert stages[i := g][..k] == stages[..k];
    } else {
      assert stages[i := g][..k] == stages[..k][i := g];
      WorkUpdate(stages[..k], i, g, b);
    }
  }

  lemma WorkAppend(stages: seq<Stage>, g: Stage, b: nat)
    ensures Work(stages + [g], b) == Work(stages, b) + StageWork(g, |stages|, b)
  {
    assert (stages + [g])[..|stages|] == stages;
  }

  function Most(n: int): (b: nat) { if n > 0 then n else 0 }

  function ToFeed(s: State): (m: nat) { if s.next <= s.n then s.n - s.next + 1 else 0 }

  /** An upper bound for the steps still to come. */
  function Measure(s: State): (m: nat) {
    Weigh(ToFeed(s), Cost(0, Most(s.n)) + 1) + (if s.closed then 0 else 1) + (if s.exited then 0 else 1) +
    Work(s.stages, Most(s.n))
  }

  /** Each stage keeps a number for itself, so the chain is no longer than its input. */
  lemma {:induction false} Shorter(s: State, k: nat)
    requires Inv(s) && k < |s.stages|
    ensures |Fed(s.stages[k])| + k <= |Fed(s.stages[0])|
  {
    if k > 0 {
      Shorter(s, k - 1);
      assert PassesAt(s, k - 1) && StageOk(s.stages[k - 1], false);
      var g := s.stages[k - 1];
      FilterShorter(g.got[0], g.got[1..]);
    }
  }

  lemma DepthBound(s: State, k: nat)
    requires Inv(s) && k < |s.stages|
    ensures k <= Most(s.n)
  {
    Shorter(s, k);
    From2Is(s.next - 1);
  }

  lemma MainShrinks(s: State, a: Action)
    requires Inv(s) && Enabled(s, a) && !a.Step?
    ensures Measure(Next(s, a)) < Measure(s)
  {
    hide Inv, Work, Cost, Weigh, From2;
    var t, b := Next(s, a), Most(s.n);
    if a.Feed? {
      OneLess(ToFeed(t), Cost(0, b) + 1);
      OneLess(|s.stages[0].input|, Cost(0, b));
    }
    if !a.Exit? { WorkUpdate(s.stages, 0, t.stages[0], b); }
  }

  lemma ReaderIsLast(s: State, k: nat)
    requires Inv(s) && k < |s.stages| && s.stages[k].phase.Reading?
    ensures k == |s.stages| - 1 && s.stages[k].held.None? && k <= Most(s.n)
  {
    assert StageOk(s.stages[k], k == |s.stages| - 1);
    DepthBound(s, k);
  }

  lemma FreshWork(k: nat, b: nat)
    ensures StageWork(FRESH, k, b) == 3
  {
  }

  lemma StartShrinks(s: State, k: nat)
    requires Inv(s) && Enabled(s, Step(k)) && s.stages[k].phase.Reading?
    ensures Measure(Next(s, Step(k))) < Measure(s)
  {
    hide Inv, Work, Weigh;
    var t, b, g := Next(s, Step(k)), Most(s.n), s.stages[k];
    ReaderIsLast(s, k);
    assert Cost(k, b) >= 5;
    hide Cost;
    WorkUpdate(s.stages, k, t.stages[k], b);
    if g.input != [] {
      OneLess(|g.input| - 1, Cost(k, b));
      WorkAppend(s.stages[k := t.stages[k]], FRESH, b);
      FreshWork(k + 1, b);
    }
  }

  lemma PairShrinks(g: Stage, r: Stage, g': Stage, r': Stage, k: nat, b: nat)
    requires g.phase.Filtering? && Cost(k, b) == Cost(k + 1, b) + 5
    requires if g.held.Some? then g' == g.(held := None) && r' == r.(input := r.input + [g.held.value])
             else if g.input != [] then
               r' == r && g' == g.(got := g'.got, input := g.input[1..], held := g'.held)
             else g' == g.(phase := Waiting) && r' == r.(eof := true)
    ensures StageWork(g', k, b) + StageWork(r', k + 1, b) < StageWork(g, k, b) + StageWork(r, k + 1, b)
  {
    hide Weigh, Cost;
    if g.held.Some? {
      OneLess(|r.input|, Cost(k + 1, b));
    } else if g.input != [] {
      OneLess(|g.input| - 1, Cost(k, b));
    }
  }

  lemma FilterShrinks(s: State, k: nat)
    requires Inv(s) && Enabled(s, Step(k)) && s.stages[k].phase.Filtering?
    ensures Measure(Next(s, Step(k))) < Measure(s)
  {
    hide Inv, Work, Weigh, StageWork;
    var t, b, g, r := Next(s, Step(k)), Most(s.n), s.stages[k], s.stages[k + 1];
    DepthBound(s, k + 1);
    assert Cost(k, b) == Cost(k + 1, b) + 5;
    hide Cost;
    var mid := s.stages[k := t.stages[k]];
    WorkUpdate(s.stages, k, t.stages[k], b);
    WorkUpdate(mid, k + 1, t.stages[k + 1], b);
    assert mid[k + 1] == r && t.stages == mid[k + 1 := t.stages[k + 1]];
    PairShrinks(g, r, t.stages[k], t.stages[k + 1], k, b);
  }

  lemma StepShrinks(s: State, a: Action)
    requires Inv(s) && Enabled(s, a)
    ensures Measure(Next(s, a)) < Measure(s)
  {
    hide Inv, Work, Weigh, Cost;
    if !a.Step? { MainShrinks(s, a); }
    else if s.stages[a.k].phase.Reading? { StartShrinks(s, a.k); }
    else if s.stages[a.k].phase.Filtering? { FilterShrinks(s, a.k); }
    else { WorkUpdate(s.stages, a.k, Next(s, a).stages[a.k], Most(s.n)); }
  }

  /** No run goes on for ever: together with NoDeadlock, whatever the schedule, every process exits. */
  lemma {:induction false} RunsEnd(s: State, actions: seq<Action>, t: State)
    requires Inv(s) && Run(s, actions, t)
    ensures |actions| + Measure(t) <= Measure(s)
    decreases |actions|
  {
    hide Inv, Measure;
    if actions != [] {
      StepShrinks(s, actions[0]);
      StepKeepsInv(s, actions[0]);
      RunsEnd(Next(s, actions[0]), actions[1..], t);
    }
  }
}
