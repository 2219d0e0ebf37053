/** fork, exit, wait, reparent, sleep, wakeup, kill and the scheduler as interleaved atomic steps
    of a table of any size. wait_lock is explicit. A p->lock is explicit wherever it is held
    across steps; a section that takes and gives back one p->lock is a single step, enabled
    only while that lock is free. Every parent and ZOMBIE write is a step of its own. */
module ExitWait {
  import opened Collections

  datatype ProcState = Unused | Used | Sleeping | Runnable | Running | Zombie

  /** Where a process stands. */
  datatype Pc =
    | Empty                      // slot not in use
    | Embryo(maker: nat)         // allocated by maker's fork
    | User                       // in none of the operations below
    | ForkCopy(np: nat)          // np->lock held, copying
    | ForkLink(np: nat)          // about to set np->parent under wait_lock
    | ForkRun(np: nat)           // about to make np RUNNABLE
    | Reparent(i: nat)           // exit, wait_lock held: reparent's loop at proc[i]
    | ReparentWake(i: nat, j: nat) // ... calling wakeup(initproc), at proc[j]
    | ExitWake(j: nat)           // exit: wakeup(p->parent), at proc[j]
    | Dying                      // ZOMBIE and still on its stack, p->lock held
    | Dead                       // ZOMBIE, switched away for good
    | WaitScan(i: nat, kids: bool) // wait, wait_lock held: the scan at proc[i]
    | WaitSleep                  // wait: about to call sleep(p, &wait_lock)
    | Mark                       // sleep: p->lock held, wait_lock released
    | Switch                     // SLEEPING, about to switch to the scheduler
    | Asleep
    | Resume                     // back on the CPU, p->lock held
    | Reacquire                  // about to acquire wait_lock again

  /** locked: some process has p->lock across steps. chan is the process slept on;
      status is the argument of the exit call it is in. */
  datatype Proc = Proc(pc: Pc, state: ProcState, pid: nat, parent: Option<nat>, chan: Option<nat>,
                       killed: bool, status: int, xstate: int, locked: bool)

  /** What wait hands its caller. */
  datatype Reaped = Reaped(pid: nat, status: int, reaper: nat)

  /** waitLock is the holder of wait_lock. exits and reaps record history: which pid
      called exit with which status, and what the waits returned. */
  datatype State = State(procs: seq<Proc>, waitLock: Option<nat>, init: nat, nextPid: nat,
                         exits: map<nat, int>, reaps: seq<Reaped>)

  datatype Action =
    | Fork(p: nat, slot: nat)
    | Exit(p: nat, status: int)
    | Wait(p: nat)
    | Kill(p: nat, victim: nat)
    | Schedule(p: nat)
    | Yield(p: nat)
    | Go(p: nat, good: bool)     // next step; good: copying memory succeeds

  const FREE := Proc(Empty, Unused, 0, None, None, false, 0, 0, false)

  predicate Free(s: State, x: nat) {
    x < |s.procs| ==> !s.procs[x].locked
  }

  predicate Enabled(s: State, a: Action) {
    && a.p < |s.procs|
    && var me := s.procs[a.p];
       match a
       case Fork(p, x) => me.pc.User? && me.state == Running && x < |s.procs| && s.procs[x].state == Unused &&
       Free(s, x)
       case Exit(p, _) => me.pc.User? && me.state == Running && p != s.init && s.waitLock.None?
       case Wait(p) => me.pc.User? && me.state == Running && s.waitLock.None?
       case Kill(p, v) => me.pc.User? && me.state == Running && v < |s.procs| && Free(s, v)
       case Schedule(p) => (me.pc.User? || me.pc.Asleep?) && me.state == Runnable && Free(s, p)
       case Yield(p) => me.pc.User? && me.state == Running && Free(s, p)
       case Go(p, _) =>
         match me.pc
         case ForkCopy(x) => x < |s.procs|
         case ForkLink(x) => x < |s.procs| && s.waitLock.None?
         case ForkRun(x) => x < |s.procs| && !s.procs[x].locked
         case Reparent(i) => true
         case ReparentWake(i, j) => j >= |s.procs| || j == p || Free(s, j)
         case ExitWake(j) => if j < |s.procs| then j == p || Free(s, j) else Free(s, p)
         case Dying => true
         case WaitScan(i, _) => i >= |s.procs| || s.procs[i].parent != Some(p) || Free(s, i)
         case WaitSleep => Free(s, p)
         case Mark => true
         case Switch => true
         case Resume => true
         case Reacquire => s.waitLock.None?
         case _ => false
  }

  datatype LockOp = Keep | Take | Give

  datatype Note = Quiet | Born | Leaves(status: int) | Reaps(what: Reaped)

  /** One step of a process: its own new slot, the new slot of x (x is the process itself if it
      writes no other), what happens to wait_lock, and what history records. */
  datatype Effect = Effect(me: Proc, x: nat, other: Proc, lock: LockOp, note: Note)

  /** One turn of wakeup's loop. */
  function Rouse(q: Proc, chan: Option<nat>): (r: Proc) {
    if q.state == Sleeping && q.chan == chan then q.(state := Runnable) else q
  }

  function Begin(s: State, a: Action): (e: Effect)
    requires Enabled(s, a) && !a.Go?
  {
    var p := a.p;
    var me := s.procs[p];
    match a
    case Fork(_, x) =>
      Effect(me.(pc := ForkCopy(x)), x, FREE.(pc := Embryo(p), state := Used, pid := s.nextPid, locked := true), Keep,
             Born)
    case Exit(_, status) => Effect(me.(pc := Reparent(0), status := status), p, me, Take, Leaves(status))
    case Wait(_) => Effect(me.(pc := WaitScan(0, false)), p, me, Take, Quiet)
    case Kill(_, v) =>
      var q := s.procs[v].(killed := true);
      var q' := if q.state == Sleeping then q.(state := Runnable) else q;
      Effect(if v == p then q' else me, v, q', Keep, Quiet)
    case Schedule(_) =>
      Effect(if me.pc.Asleep? then me.(pc := Resume, state := Running, locked := true) else me.(state := Running), p,
             me, Keep, Quiet)
    case Yield(_) => Effect(me.(state := Runnable), p, me, Keep, Quiet)
  }

  function Continue(s: State, p: nat, good: bool): (e: Effect)
    requires Enabled(s, Go(p, good))
  {
    var me := s.procs[p];
    var n := |s.procs|;
    match me.pc
    case ForkCopy(x) =>
      if good then Effect(me.(pc := ForkLink(x)), x, s.procs[x].(locked := false), Keep, Quiet)
      else Effect(me.(pc := User), x, FREE, Keep, Quiet)
    case ForkLink(x) => Effect(me.(pc := ForkRun(x)), x, s.procs[x].(parent := Some(p)), Keep, Quiet)
    case ForkRun(x) => Effect(me.(pc := User), x, s.procs[x].(pc := User, state := Runnable), Keep, Quiet)
    case Reparent(i) =>
      if i >= n then Effect(me.(pc := ExitWake(0)), p, me, Keep, Quiet)
      else if s.procs[i].parent == Some(p)
      then Effect(me.(pc := ReparentWake(i, 0)), i, s.procs[i].(parent := Some(s.init)), Keep, Quiet)
      else Effect(me.(pc := Reparent(i + 1)), p, me, Keep, Quiet)
    case ReparentWake(i, j) =>
      if j >= n then Effect(me.(pc := Reparent(i + 1)), p, me, Keep, Quiet)
      else Effect(me.(pc := ReparentWake(i, j + 1)), j, Rouse(s.procs[j], Some(s.init)), Keep, Quiet)
    case ExitWake(j) =>
      if j >= n then Effect(me.(pc := Dying, state := Zombie, xstate := me.status, locked := true), p, me, Give, Quiet)
      else Effect(me.(pc := ExitWake(j + 1)), j, Rouse(s.procs[j], me.parent), Keep, Quiet)
    case Dying => Effect(me.(pc := Dead, locked := false), p, me, Keep, Quiet)
    case WaitScan(i, kids) =>
      if i >= n then
        if !kids || me.killed then Effect(me.(pc := User), p, me, Give, Quiet)
        else Effect(me.(pc := WaitSleep), p, me, Keep, Quiet)
      else if s.procs[i].parent != Some(p) then Effect(me.(pc := WaitScan(i + 1, kids)), p, me, Keep, Quiet)
      else if s.procs[i].state != Zombie then Effect(me.(pc := WaitScan(i + 1, true)), p, me, Keep, Quiet)
      else if !good then Effect(me.(pc := User), p, me, Give, Quiet)
      else Effect(me.(pc := User), i, FREE, Give, Reaps(Reaped(s.procs[i].pid, s.procs[i].xstate, p)))
    case WaitSleep => Effect(me.(pc := Mark, locked := true), p, me, Give, Quiet)
    case Mark => Effect(me.(pc := Switch, state := Sleeping, chan := Some(p)), p, me, Keep, Quiet)
    case Switch => Effect(me.(pc := Asleep, locked := false), p, me, Keep, Quiet)
    case Resume => Effect(me.(pc := Reacquire, chan := None, locked := false), p, me, Keep, Quiet)
    case Reacquire => Effect(me.(pc := WaitScan(0, false)), p, me, Take, Quiet)
  }

  function Act(s: State, a: Action): (e: Effect)
    requires Enabled(s, a)
  {
    if a.Go? then Continue(s, a.p, a.good) else Begin(s, a)
  }

  function Apply(s: State, p: nat, e: Effect): (t: State)
    requires p < |s.procs|
    ensures |t.procs| == |s.procs| && t.init == s.init
  {
    var procs := if e.x < |s.procs| then s.procs[e.x := e.other][p := e.me] else s.procs[p := e.me];
    State(procs,
          match e.lock case Keep => s.waitLock case Take => Some(p) case Give => None,
          s.init,
          if e.note.Born? then s.nextPid + 1 else s.nextPid,
          if e.note.Leaves? then s.exits[s.procs[p].pid := e.note.status] else s.exits,
          if e.note.Reaps? then s.reaps + [e.note.what] else s.reaps)
  }

  function Next(s: State, a: Action): (t: State)
    requires Enabled(s, a)
    ensures |t.procs| == |s.procs| && t.init == s.init
  {
    Apply(s, a.p, Act(s, a))
  }

  // The invariant

  predicate HoldsWait(pc: Pc) {
    pc.Reparent? || pc.ReparentWake? || pc.ExitWake? || pc.WaitScan? || pc.WaitSleep?
  }

  predicate HoldsOwn(pc: Pc) {
    pc.Mark? || pc.Switch? || pc.Resume? || pc.Dying?
  }

  predicate Exiting(pc: Pc) {
    pc.Reparent? || pc.ReparentWake? || pc.ExitWake? || pc.Dying? || pc.Dead?
  }

  predicate Forking(pc: Pc) {
    pc.ForkCopy? || pc.ForkLink? || pc.ForkRun?
  }

  predicate Live(q: Proc) {
    q.state == Sleeping || q.state == Runnable || q.state == Running
  }

  /** Asleep in wait, or past the point of no return. */
  predicate Stuck(q: Proc) {
    q.pc.Mark? || q.pc.Switch? || (q.pc.Asleep? && q.state == Sleeping)
  }

  /** Program counter, state and p->lock of slot p agree. */
  ghost predicate SlotOk(q: Proc, p: nat) {
    && (HoldsOwn(q.pc) ==> q.locked)
    && (q.state == Unused <==> q.pc.Empty?)
    && (q.state == Used <==> q.pc.Embryo?)
    && (q.state == Zombie <==> q.pc.Dying? || q.pc.Dead?)
    && (q.state == Sleeping ==> q.pc.Switch? || q.pc.Asleep?)
    && (q.state == Runnable ==> q.pc.Asleep? || q.pc.User?)
    && (q.pc.Switch? ==> q.state == Sleeping)
    && (q.pc.Asleep? ==> q.state != Running)
    && (q.pc.Switch? || q.pc.Asleep? ==> q.chan == Some(p))
    && (q.pc.Empty? ==> q.parent.None?)
    && (q.pc.Embryo? && q.parent.Some? ==> q.parent.value == q.pc.maker)
  }

  ghost predicate PcOk(s: State, p: nat)
    requires p < |s.procs|
  {
    SlotOk(s.procs[p], p) && (HoldsWait(s.procs[p].pc) <==> s.waitLock == Some(p))
  }

  ghost predicate ForkerOk(s: State, p: nat)
    requires p < |s.procs|
  {
    var pc := s.procs[p].pc;
    Forking(pc) ==>
      && pc.np < |s.procs| && s.procs[pc.np].pc == Embryo(p)
      && (pc.ForkCopy? ==> s.procs[pc.np].locked)
      && (if pc.ForkRun? then s.procs[pc.np].parent == Some(p) else s.procs[pc.np].parent.None?)
  }

  ghost predicate EmbryoOk(s: State, p: nat)
    requires p < |s.procs|
  {
    var pc := s.procs[p].pc;
    pc.Embryo? ==> pc.maker < |s.procs| && Forking(s.procs[pc.maker].pc) && s.procs[pc.maker].pc.np == p
  }

  ghost predicate ParentOk(s: State, p: nat)
    requires p < |s.procs|
  {
    var q := s.procs[p];
    && (q.parent.Some? ==> q.parent.value < |s.procs| && q.parent.value != p && Live(s.procs[q.parent.value]))
    && (p == s.init ==> Live(q) && q.parent.None? && !Exiting(q.pc))
    && (p != s.init && !q.pc.Empty? && !q.pc.Embryo? ==> q.parent.Some?)
  }

  /** None of the slots before k is a child of p. */
  ghost predicate NoChild(s: State, p: nat, k: nat) {
    forall z :: 0 <= z < |s.procs| && z < k ==> s.procs[z].parent != Some(p)
  }

  /** None of the slots before k is a ZOMBIE child of p. */
  ghost predicate NoZombie(s: State, p: nat, k: nat) {
    forall z :: 0 <= z < |s.procs| && z < k && s.procs[z].parent == Some(p) ==> s.procs[z].state != Zombie
  }

  ghost predicate ExitOk(s: State, p: nat)
    requires p < |s.procs|
  {
    var q := s.procs[p];
    && (q.pc.Reparent? ==> NoChild(s, p, q.pc.i))
    && (q.pc.ReparentWake? ==> NoChild(s, p, q.pc.i + 1))
    && (q.pc.ExitWake? || q.pc.Dying? || q.pc.Dead? ==> NoChild(s, p, |s.procs|))
    && (q.pc.ExitWake? && q.parent.Some? && q.parent.value < |s.procs| && q.parent.value < q.pc.j
        ==> !Stuck(s.procs[q.parent.value]))
  }

  ghost predicate WaitOk(s: State, p: nat)
    requires p < |s.procs|
  {
    var q := s.procs[p];
    && (q.pc.WaitScan? ==> NoZombie(s, p, q.pc.i) && (q.pc.kids <==> !NoChild(s, p, q.pc.i)))
    && (q.pc.WaitSleep? ==> NoZombie(s, p, |s.procs|))
  }

  /** init is about to be told: an exit still inside wakeup(initproc) has not reached it. */
  ghost predicate Pending(s: State) {
    && s.waitLock.Some? && s.waitLock.value < |s.procs|
    && var pc := s.procs[s.waitLock.value].pc; pc.ReparentWake? && pc.j <= s.init
  }

  /** No lost wakeup for wait. */
  ghost predicate ZombieOk(s: State, z: nat)
    requires z < |s.procs|
  {
    var q := s.procs[z];
    (q.state == Zombie && q.parent.Some? && q.parent.value < |s.procs| && Stuck(s.procs[q.parent.value]))
    ==> (q.parent.value == s.init && Pending(s))
  }

  ghost predicate Basic(s: State, p: nat) {
    p < |s.procs| ==> PcOk(s, p) && ForkerOk(s, p) && EmbryoOk(s, p) && ParentOk(s, p)
  }

  ghost predicate Table(s: State) {
    && s.init < |s.procs|
    && (s.waitLock.Some? ==> s.waitLock.value < |s.procs|)
    && (forall p :: 0 <= p < |s.procs| ==> Basic(s, p))
  }

  ghost predicate WasReaped(s: State, pid: nat) {
    exists k :: 0 <= k < |s.reaps| && s.reaps[k].pid == pid
  }

  ghost predicate Left(s: State, pid: nat) {
    exists p :: 0 <= p < |s.procs| && Exiting(s.procs[p].pc) && s.procs[p].pid == pid
  }

  /** The slot's pid is in use, is on record as having called exit exactly if it has, and was not reaped. */
  ghost predicate Recorded(s: State, p: nat)
    requires p < |s.procs|
  {
    var q := s.procs[p];
    !q.pc.Empty? ==>
      && q.pid < s.nextPid && !WasReaped(s, q.pid)
      && (q.pid in s.exits <==> Exiting(q.pc))
      && (Exiting(q.pc) ==> s.exits[q.pid] == if q.state == Zombie then q.xstate else q.status)
  }

  ghost predicate PidsDiffer(s: State) {
    forall p, q :: 0 <= p < q < |s.procs| && !s.procs[p].pc.Empty? && !s.procs[q].pc.Empty? ==>
                     s.procs[p].pid != s.procs[q].pid
  }

  /** Each reaped pid exited with the status that was handed out, and no pid was reaped twice. */
  ghost predicate ReapsOk(s: State) {
    && (forall k :: 0 <= k < |s.reaps| ==> s.reaps[k].pid in s.exits && s.exits[s.reaps[k].pid] == s.reaps[k].status)
    && (forall k, l :: 0 <= k < l < |s.reaps| ==> s.reaps[k].pid != s.reaps[l].pid)
  }

  /** Each pid that called exit was reaped, or still holds its slot. */
  ghost predicate ExitsKept(s: State) {
    forall pid :: pid in s.exits ==> pid < s.nextPid && (WasReaped(s, pid) || Left(s, pid))
  }

  ghost predicate History(s: State) {
    (forall p :: 0 <= p < |s.procs| ==> Recorded(s, p)) && PidsDiffer(s) && ReapsOk(s) && ExitsKept(s)
  }

  ghost predicate Inv(s: State) {
    && Table(s)
    && (forall p :: 0 <= p < |s.procs| ==> ExitOk(s, p) && WaitOk(s, p) && ZombieOk(s, p))
    && History(s)
  }

  // Every step keeps it

  /** What a step does to the slot of the process that takes it. */
  ghost predicate ActorFacts(s: State, p: nat, e: Effect)
    requires p < |s.procs|
  {
    var me := s.procs[p];
    && SlotOk(e.me, p) && e.me.parent == me.parent
    && !me.pc.Empty? && !me.pc.Embryo? && !e.me.pc.Empty? && !e.me.pc.Embryo?
    && (e.lock.Keep? ==> HoldsWait(e.me.pc) == HoldsWait(me.pc))
    && (e.lock.Take? ==> HoldsWait(e.me.pc) && s.waitLock.None?)
    && (e.lock.Give? ==> HoldsWait(me.pc) && !HoldsWait(e.me.pc))
    && (Live(me) && !me.pc.ExitWake? ==> Live(e.me)) && (!Exiting(me.pc) ==> Live(e.me))
    && (p == s.init ==> Exiting(e.me.pc) == Exiting(me.pc))
    && e.x < |s.procs| && (e.x == p ==> !Forking(me.pc) && !Forking(e.me.pc))
    && (e.me.state == Zombie ==> me.state == Zombie || (me.pc.ExitWake? && me.pc.j >= |s.procs| && e.x == p))
    && (Stuck(e.me) && !Stuck(me) ==> me.pc.WaitSleep?)
  }

  lemma BeginFacts(s: State, a: Action)
    requires Enabled(s, a) && !a.Go? && Basic(s, a.p)
    ensures ActorFacts(s, a.p, Act(s, a))
  {
  }

  lemma ForkFacts(s: State, a: Action)
    requires Enabled(s, a) && a.Go? && Basic(s, a.p) && Forking(s.procs[a.p].pc)
    ensures ActorFacts(s, a.p, Act(s, a))
  {
  }

  lemma ExitFacts(s: State, a: Action)
    requires Enabled(s, a) && a.Go? && Basic(s, a.p) && Exiting(s.procs[a.p].pc)
    ensures ActorFacts(s, a.p, Act(s, a))
  {
    hide ForkerOk, EmbryoOk;
  }

  lemma WaitFacts(s: State, a: Action)
    requires Enabled(s, a) && a.Go? && Basic(s, a.p) && !Forking(s.procs[a.p].pc) && !Exiting(s.procs[a.p].pc)
    ensures ActorFacts(s, a.p, Act(s, a))
  {
    hide ForkerOk, EmbryoOk;
  }

  /** What a step does to another slot. */
  ghost predicate OtherFacts(s: State, p: nat, e: Effect)
    requires p < |s.procs| && e.x < |s.procs|
  {
    var me, o, o' := s.procs[p], s.procs[e.x], e.other;
    && SlotOk(o', e.x) && HoldsWait(o'.pc) == HoldsWait(o.pc)
    && (Live(o) ==> Live(o') && o'.pc == o.pc && (Stuck(o') ==> Stuck(o)))
    && (o'.pc == o.pc || o'.pc.Empty? || o'.pc.Embryo? || o'.pc.User?)
    && (o.pc.Embryo? && o.pc.maker != p ==> o' == o || o' == o.(killed := true))
    && (o'.pc.Empty? || o'.pc.Embryo? || o'.parent == o.parent || (o'.parent == Some(s.init) && o.parent == Some(p)))
    && (o'.parent.Some? && o'.parent != o.parent ==>
          if me.pc.Reparent? then o'.parent == Some(s.init) &&
                                  o.parent == Some(p) else o'.parent == Some(p) && me.pc.ForkLink?)
    && (!o'.pc.Empty? && !o'.pc.Embryo? && o.parent.None? ==> o'.pc == o.pc)
    && (o'.parent != o.parent && o.parent.Some? ==> HoldsWait(me.pc))
    && (o'.state == Zombie ==> o.state == Zombie)
    && (o'.pc.Embryo? && o'.pc != o.pc ==> Forking(e.me.pc))
  }

  /** The child of a fork step is the slot it writes. */
  ghost predicate ChildFacts(s: State, p: nat, e: Effect)
    requires p < |s.procs|
  {
    && (Forking(s.procs[p].pc) ==> e.x == s.procs[p].pc.np && (e.other.pc.Embryo? ==> Forking(e.me.pc)))
    && (Forking(e.me.pc) ==>
          && e.me.pc.np == e.x && e.x != p && e.other.pc == Embryo(p)
          && (e.me.pc.ForkCopy? ==> e.other.locked)
          && (if e.me.pc.ForkRun? then e.other.parent == Some(p) else e.other.parent.None?))
  }

  lemma BeginOtherFacts(s: State, a: Action)
    requires Enabled(s, a) && !a.Go? && Basic(s, a.p)
    requires var x := Act(s, a).x; x != a.p && x < |s.procs| && Basic(s, x)
    ensures OtherFacts(s, a.p, Act(s, a)) && ChildFacts(s, a.p, Act(s, a))
  {
  }

  lemma ForkOtherFacts(s: State, a: Action)
    requires Enabled(s, a) && a.Go? && Basic(s, a.p) && Forking(s.procs[a.p].pc)
    requires var x := Act(s, a).x; x != a.p && x < |s.procs| && Basic(s, x)
    ensures OtherFacts(s, a.p, Act(s, a)) && ChildFacts(s, a.p, Act(s, a))
  {
  }

  lemma RestOtherFacts(s: State, a: Action)
    requires Enabled(s, a) && a.Go? && Basic(s, a.p) && !Forking(s.procs[a.p].pc)
    requires var x := Act(s, a).x; x != a.p && x < |s.procs| && Basic(s, x)
    ensures OtherFacts(s, a.p, Act(s, a)) && ChildFacts(s, a.p, Act(s, a))
  {
  }

  ghost predicate Facts(s: State, p: nat, e: Effect) {
    p < |s.procs| && ActorFacts(s, p, e) && ChildFacts(s, p, e) && (e.x != p ==> OtherFacts(s, p, e))
  }

  lemma StepFacts(s: State, a: Action)
    requires a.p < |s.procs| && Enabled(s, a) && Basic(s, a.p) && Basic(s, Act(s, a).x)
    ensures Facts(s, a.p, Act(s, a))
  {
    hide SlotOk, OtherFacts, PcOk, ParentOk, ForkerOk, EmbryoOk, Basic, Enabled, Act;
    var pc := s.procs[a.p].pc;
    if !a.Go? { BeginFacts(s, a); }
    else if Forking(pc) { ForkFacts(s, a); }
    else if Exiting(pc) { ExitFacts(s, a); }
    else { WaitFacts(s, a); }
    if Act(s, a).x != a.p {
      if !a.Go? { BeginOtherFacts(s, a); }
      else if Forking(pc) { ForkOtherFacts(s, a); }
      else { RestOtherFacts(s, a); }
    }
  }

  ghost predicate Moved(s: State, t: State, p: nat, e: Effect) {
    && p < |s.procs| && |t.procs| == |s.procs| && t.init == s.init
    && t.waitLock == (match e.lock case Keep => s.waitLock case Take => Some(p) case Give => None)
    && forall z :: 0 <= z < |s.procs| ==>
                     t.procs[z] == if z == p then e.me else if z == e.x then e.other else s.procs[z]
  }

  lemma AllSlots(s: State, a: Action)
    requires Enabled(s, a)
    ensures Moved(s, Next(s, a), a.p, Act(s, a))
  {
    hide Act;
  }

  lemma StepKeepsPc(s: State, t: State, a: nat, e: Effect, p: nat)
    requires Moved(s, t, a, e) && Table(s) && Facts(s, a, e) && p < |s.procs|
    ensures PcOk(t, p)
  {
    hide SlotOk, ParentOk, ForkerOk, EmbryoOk;
    assert Basic(s, p) && Basic(s, a);
  }

  lemma StepKeepsForker(s: State, t: State, a: nat, e: Effect, p: nat)
    requires Moved(s, t, a, e) && Table(s) && Facts(s, a, e) && p < |s.procs|
    ensures ForkerOk(t, p)
  {
    hide SlotOk, ParentOk, PcOk, Live, Stuck, HoldsWait, Exiting;
    assert Basic(s, p) && Basic(s, a) && Basic(s, e.x);
  }

  lemma StepKeepsEmbryo(s: State, t: State, a: nat, e: Effect, p: nat)
    requires Moved(s, t, a, e) && Table(s) && Facts(s, a, e) && p < |s.procs|
    ensures EmbryoOk(t, p)
  {
    hide ParentOk, Stuck, HoldsWait, Exiting;
    assert Basic(s, p) && Basic(s, a) && Basic(s, e.x);
  }

  lemma ActorKeepsParent(s: State, t: State, a: nat, e: Effect)
    requires Moved(s, t, a, e) && Facts(s, a, e) && s.init < |s.procs|
    requires Basic(s, a) && Basic(s, e.x) && Basic(s, s.init)
    requires s.procs[e.x].state == Zombie ==> s.procs[a].parent != Some(e.x)
    ensures ParentOk(t, a)
  {
    hide ForkerOk, EmbryoOk, Stuck, HoldsWait, ChildFacts;
  }

  lemma OtherKeepsParent(s: State, t: State, a: nat, e: Effect, p: nat)
    requires Moved(s, t, a, e) && Facts(s, a, e) && s.init < |s.procs| && p < |s.procs| && p != a
    requires Basic(s, p) && Basic(s, a) && Basic(s, e.x) && Basic(s, s.init)
    requires s.procs[a].pc.ExitWake? ==> s.procs[p].parent != Some(a)
    requires s.procs[e.x].state == Zombie ==> s.procs[p].parent != Some(e.x)
    ensures ParentOk(t, p)
  {
    hide ForkerOk, EmbryoOk, Stuck, HoldsWait, ChildFacts;
  }

  lemma StepKeepsParent(s: State, t: State, a: nat, e: Effect, p: nat)
    requires Moved(s, t, a, e) && Table(s) && Facts(s, a, e) && p < |s.procs|
    requires s.procs[a].pc.ExitWake? ==> s.procs[p].parent != Some(a)
    requires s.procs[e.x].state == Zombie ==> s.procs[p].parent != Some(e.x)
    ensures ParentOk(t, p)
  {
    hide Basic, OtherFacts, ChildFacts, SlotOk, ParentOk;
    if p == a { ActorKeepsParent(s, t, a, e); } else { OtherKeepsParent(s, t, a, e, p); }
  }

  // wait's and reparent's scans

  lemma OthersKeepScan(s: State, t: State, a: nat, e: Effect, p: nat)
    requires Moved(s, t, a, e) && Facts(s, a, e) && p < |s.procs| && p != a && WaitOk(s, p)
    requires Basic(s, p) && Basic(s, a) && Basic(s, e.x) && t.procs[p].pc.WaitScan?
    ensures WaitOk(t, p)
  {
    hide SlotOk, ForkerOk, EmbryoOk;
  }

  lemma OthersKeepSleep(s: State, t: State, a: nat, e: Effect, p: nat)
    requires Moved(s, t, a, e) && Facts(s, a, e) && p < |s.procs| && p != a && WaitOk(s, p)
    requires Basic(s, p) && Basic(s, a) && Basic(s, e.x) && t.procs[p].pc.WaitSleep?
    ensures WaitOk(t, p)
  {
    hide SlotOk, ForkerOk, EmbryoOk, NoChild;
  }

  lemma OthersKeepWait(s: State, t: State, a: nat, e: Effect, p: nat)
    requires Moved(s, t, a, e) && Table(s) && Facts(s, a, e) && p < |s.procs|
    requires p != a && WaitOk(s, p)
    ensures WaitOk(t, p)
  {
    assert Basic(s, p) && Basic(s, a) && Basic(s, e.x);
    hide Basic, Facts, NoZombie, NoChild;
    if t.procs[p].pc.WaitScan? { OthersKeepScan(s, t, a, e, p); }
    else if t.procs[p].pc.WaitSleep? { OthersKeepSleep(s, t, a, e, p); }
  }

  lemma OthersKeepExit(s: State, t: State, a: nat, e: Effect, p: nat)
    requires Moved(s, t, a, e) && Table(s) && Facts(s, a, e) && p < |s.procs|
    requires p != a && ExitOk(s, p)
    ensures ExitOk(t, p)
  {
    hide SlotOk, ForkerOk, EmbryoOk;
    assert Basic(s, p) && Basic(s, a) && Basic(s, e.x);
  }

  lemma BeginKeepsExit(s: State, a: Action)
    requires Enabled(s, a) && !a.Go? && Basic(s, a.p) && ExitOk(s, a.p)
    ensures ExitOk(Next(s, a), a.p)
  {
    hide ForkerOk, EmbryoOk;
    AllSlots(s, a);
    hide Apply, Next;
    assert Act(s, a).me.pc == Reparent(0) || !Exiting(Act(s, a).me.pc);
  }

  /** reparent's loop: every slot it has passed is no child of the exiting process. */
  lemma ActorKeepsExit(s: State, a: Action)
    requires Enabled(s, a) && Table(s) && Facts(s, a.p, Act(s, a)) && ExitOk(s, a.p)
    ensures ExitOk(Next(s, a), a.p)
  {
    hide Apply, Next, ForkerOk, EmbryoOk, ChildFacts;
    AllSlots(s, a);
    assert Basic(s, a.p) && Basic(s, Act(s, a).x);
    if !a.Go? { BeginKeepsExit(s, a); } else { ContinueKeepsExit(s, a); }
    hide Act, ExitOk, Facts;
  }

  lemma ContinueKeepsExit(s: State, a: Action)
    requires Enabled(s, a) && a.Go? && Facts(s, a.p, Act(s, a)) && ExitOk(s, a.p)
    requires Basic(s, a.p) && Basic(s, Act(s, a).x)
    ensures ExitOk(Next(s, a), a.p)
  {
    hide Act, Next, ExitOk, Facts, Basic;
    var pc := s.procs[a.p].pc;
    if pc.Reparent? || pc.ReparentWake? { ReparentKeepsExit(s, a); }
    else if pc.ExitWake? { LeaveKeepsExit(s, a); }
    else { RestKeepsExit(s, a); }
  }

  lemma ReparentKeepsExit(s: State, a: Action)
    requires Enabled(s, a) && a.Go? && ExitOk(s, a.p) && (s.procs[a.p].pc.Reparent? || s.procs[a.p].pc.ReparentWake?)
    requires Facts(s, a.p, Act(s, a)) && Basic(s, a.p)
    ensures ExitOk(Next(s, a), a.p)
  {
    hide Apply, Next, ForkerOk, EmbryoOk, ChildFacts, SlotOk;
    AllSlots(s, a);
  }

  lemma LeaveKeepsExit(s: State, a: Action)
    requires Enabled(s, a) && a.Go? && ExitOk(s, a.p) && s.procs[a.p].pc.ExitWake?
    requires Facts(s, a.p, Act(s, a)) && Basic(s, a.p) && Basic(s, Act(s, a).x)
    ensures ExitOk(Next(s, a), a.p)
  {
    hide Apply, Next, ForkerOk, EmbryoOk, ChildFacts;
    AllSlots(s, a);
  }

  lemma RestKeepsExit(s: State, a: Action)
    requires Enabled(s, a) && a.Go? && ExitOk(s, a.p)
    requires var pc := s.procs[a.p].pc; !pc.Reparent? && !pc.ReparentWake? && !pc.ExitWake?
    ensures ExitOk(Next(s, a), a.p)
  {
    hide Apply, Next;
    AllSlots(s, a);
    assert Exiting(Act(s, a).me.pc) ==> Act(s, a).me.pc == Dead && s.procs[a.p].pc == Dying && Act(s, a).x == a.p;
    hide Act;
  }

  /** wait's loop: when it has passed every slot, the process has no ZOMBIE child. */
  lemma ScanKeepsWait(s: State, a: Action)
    requires Enabled(s, a) && Facts(s, a.p, Act(s, a)) && WaitOk(s, a.p) && a.Go? && s.procs[a.p].pc.WaitScan?
    ensures WaitOk(Next(s, a), a.p)
  {
    AllSlots(s, a);
    hide Apply, Next;
  }

  lemma ActorKeepsWait(s: State, a: Action)
    requires Enabled(s, a) && Facts(s, a.p, Act(s, a)) && WaitOk(s, a.p)
    ensures WaitOk(Next(s, a), a.p)
  {
    hide Apply, Next;
    AllSlots(s, a);
    if a.Go? && s.procs[a.p].pc.WaitScan? { ScanKeepsWait(s, a); }
  }

  // No lost wakeup

  lemma NewZombieSeen(s: State, t: State, a: nat, e: Effect)
    requires Moved(s, t, a, e) && Table(s) && Facts(s, a, e) && ExitOk(s, a)
    requires t.procs[a].state == Zombie && s.procs[a].state != Zombie
    ensures ZombieOk(t, a)
  {
    assert Basic(s, a);
  }

  /** A parent that commits to sleeping has just found no ZOMBIE child, and has kept wait_lock since. */
  lemma NewSleeper(s: State, t: State, a: nat, e: Effect, z: nat)
    requires Moved(s, t, a, e) && Table(s) && Facts(s, a, e) && WaitOk(s, a) && z < |s.procs|
    requires Stuck(t.procs[a]) && !Stuck(s.procs[a]) && s.procs[z].state == Zombie
    ensures t.procs[z].parent != Some(a)
  {
    assert Basic(s, a);
    hide SlotOk, ForkerOk, EmbryoOk;
  }

  /** wakeup(initproc) keeps going until it has dealt with init. */
  lemma PendingStays(s: State, a: Action)
    requires Enabled(s, a) && Table(s) && Facts(s, a.p, Act(s, a)) && Pending(s) && Stuck(Next(s, a).procs[s.init])
    ensures Pending(Next(s, a))
  {
    AllSlots(s, a);
    assert Basic(s, a.p) && Basic(s, s.waitLock.value) && Basic(s, s.init);
    hide Apply, Next, ForkerOk, EmbryoOk, ParentOk;
  }

  lemma Handed(s: State, a: Action)
    requires Enabled(s, a) && Table(s) && Facts(s, a.p, Act(s, a))
    requires var e := Act(s, a); e.x != a.p && e.other.parent == Some(s.init) && s.procs[e.x].parent != Some(s.init) &&
                                 s.procs[e.x].state == Zombie
    ensures Pending(Next(s, a))
  {
    AllSlots(s, a);
    assert Basic(s, a.p) && Basic(s, Act(s, a).x);
    hide Apply, Next, EmbryoOk, ParentOk;
  }

  lemma StepLosesNoWakeup(s: State, a: Action, z: nat)
    requires Enabled(s, a) && Table(s) && Facts(s, a.p, Act(s, a)) && z < |s.procs|
    requires ExitOk(s, a.p) && WaitOk(s, a.p) && ZombieOk(s, z)
    ensures ZombieOk(Next(s, a), z)
  {
    hide Act, Apply, Next, Enabled, ForkerOk, EmbryoOk, NoChild, NoZombie, Pending, ChildFacts;
    var e, t := Act(s, a), Next(s, a);
    AllSlots(s, a);
    assert Basic(s, a.p) && Basic(s, e.x) && Basic(s, z);
    if z == a.p && s.procs[z].state != Zombie && t.procs[z].state == Zombie { NewZombieSeen(s, t, a.p, e); }
    else if t.procs[z].state == Zombie {
      if Stuck(t.procs[a.p]) && !Stuck(s.procs[a.p]) { NewSleeper(s, t, a.p, e, z); }
      if Pending(s) && Stuck(t.procs[s.init]) { PendingStays(s, a); }
      if z == e.x && z != a.p && e.other.parent == Some(s.init) && s.procs[z].parent != Some(s.init) { Handed(s, a); }
    }
  }

  // History

  ghost predicate HistoryFacts(s: State, p: nat, e: Effect)
    requires p < |s.procs| && e.x < |s.procs|
  {
    var me, o, o' := s.procs[p], s.procs[e.x], e.other;
    && !me.pc.Empty? && e.me.pid == me.pid && !e.me.pc.Empty?
    && (Exiting(e.me.pc) <==> Exiting(me.pc) || e.note.Leaves?)
    && (if e.note.Leaves? then !Exiting(me.pc) && e.me.status == e.note.status else e.me.status == me.status)
    && (if e.me.state == Zombie && me.state != Zombie then e.me.xstate == me.status && !e.note.Leaves?
        else e.me.xstate == me.xstate)
    && (me.state == Zombie ==> e.me.state == Zombie) && (e.note.Leaves? ==> e.me.state != Zombie)
    && (e.note.Born? || e.note.Reaps? ==> e.x != p)
    && (e.x != p ==>
          if e.note.Born? then o.pc.Empty? && o'.pc.Embryo? && o'.pid == s.nextPid
          else if o'.pc.Empty? then
            (if Exiting(o.pc) then e.note == Reaps(Reaped(o.pid, o.xstate, p)) && o.state == Zombie
             else !e.note.Reaps?)
          else !e.note.Reaps? && !o.pc.Empty? && o'.pid == o.pid && Exiting(o'.pc) == Exiting(o.pc)
               && o'.status == o.status && o'.xstate == o.xstate && (o'.state == Zombie <==> o.state == Zombie))
  }

  lemma BeginHistory(s: State, a: Action)
    requires Enabled(s, a) && !a.Go? && Basic(s, a.p) && Basic(s, Act(s, a).x) && Act(s, a).x < |s.procs|
    ensures HistoryFacts(s, a.p, Act(s, a))
  {
    hide EmbryoOk, ParentOk;
  }

  lemma ForkHistory(s: State, a: Action)
    requires Enabled(s, a) && a.Go? && Basic(s, a.p) && Basic(s, Act(s, a).x) && Act(s, a).x < |s.procs| &&
             Forking(s.procs[a.p].pc)
    ensures HistoryFacts(s, a.p, Act(s, a))
  {
    hide EmbryoOk, ParentOk;
  }

  lemma ExitHistory(s: State, a: Action)
    requires Enabled(s, a) && a.Go? && Basic(s, a.p) && Basic(s, Act(s, a).x) && Act(s, a).x < |s.procs| &&
             Exiting(s.procs[a.p].pc)
    ensures HistoryFacts(s, a.p, Act(s, a))
  {
    hide ForkerOk, EmbryoOk, ParentOk;
  }

  lemma WaitHistory(s: State, a: Action)
    requires Enabled(s, a) && a.Go? && Basic(s, a.p) && Basic(s, Act(s, a).x) && Act(s, a).x < |s.procs|
    requires !Forking(s.procs[a.p].pc) && !Exiting(s.procs[a.p].pc)
    ensures HistoryFacts(s, a.p, Act(s, a))
  {
    hide ForkerOk, EmbryoOk, ParentOk;
  }

  lemma ContinueHistory(s: State, a: Action)
    requires Enabled(s, a) && a.Go? && Basic(s, a.p) && Basic(s, Act(s, a).x) && Act(s, a).x < |s.procs|
    ensures HistoryFacts(s, a.p, Act(s, a))
  {
    hide Basic, HistoryFacts, Act;
    var pc := s.procs[a.p].pc;
    if Forking(pc) { ForkHistory(s, a); } else if Exiting(pc) { ExitHistory(s, a); } else { WaitHistory(s, a); }
  }

  /** What the history fields of t are. */
  ghost predicate Noted(s: State, t: State, p: nat, e: Effect)
    requires p < |s.procs|
  {
    && t.nextPid == (if e.note.Born? then s.nextPid + 1 else s.nextPid)
    && t.exits == (if e.note.Leaves? then s.exits[s.procs[p].pid := e.note.status] else s.exits)
    && t.reaps == (if e.note.Reaps? then s.reaps + [e.note.what] else s.reaps)
  }

  lemma ReapedNow(s: State, t: State, p: nat, e: Effect, pid: nat)
    requires p < |s.procs| && Noted(s, t, p, e)
    ensures WasReaped(t, pid) <==> WasReaped(s, pid) || (e.note.Reaps? && e.note.what.pid == pid)
  {
    if WasReaped(s, pid) {
      var k :| 0 <= k < |s.reaps| && s.reaps[k].pid == pid;
      assert t.reaps[k].pid == pid;
    }
    if e.note.Reaps? { assert t.reaps[|s.reaps|] == e.note.what; }
  }

  lemma StepKeepsRecord(s: State, t: State, a: nat, e: Effect, p: nat)
    requires Moved(s, t, a, e) && Noted(s, t, a, e) && e.x < |s.procs| && HistoryFacts(s, a, e) && History(s) &&
             p < |s.procs|
    ensures Recorded(t, p)
  {
    assert Recorded(s, p) && Recorded(s, a) && Recorded(s, e.x);
    ReapedNow(s, t, a, e, t.procs[p].pid);
    hide Exiting;
  }

  lemma StepKeepsPidsApart(s: State, t: State, a: nat, e: Effect)
    requires Moved(s, t, a, e) && Noted(s, t, a, e) && e.x < |s.procs| && HistoryFacts(s, a, e) && History(s)
    ensures PidsDiffer(t)
  {
    hide Exiting;
    forall p, q | 0 <= p < q < |t.procs| && !t.procs[p].pc.Empty? && !t.procs[q].pc.Empty?
      ensures t.procs[p].pid != t.procs[q].pid {
      assert Recorded(s, p) && Recorded(s, q);
    }
  }

  /** A reaped slot held a pid never reaped before, with the status it had left there. */
  lemma StepKeepsReaps(s: State, t: State, a: nat, e: Effect)
    requires Moved(s, t, a, e) && Noted(s, t, a, e) && e.x < |s.procs| && HistoryFacts(s, a, e) && History(s)
    ensures ReapsOk(t)
  {
    hide PidsDiffer, ExitsKept;
    assert Recorded(s, e.x) && Recorded(s, a);
    assert e.note.Leaves? ==> !WasReaped(s, s.procs[a].pid);
    assert e.note.Reaps? ==> !WasReaped(s, e.note.what.pid);
  }

  lemma StepKeepsExits(s: State, t: State, a: nat, e: Effect)
    requires Moved(s, t, a, e) && Noted(s, t, a, e) && e.x < |s.procs| && HistoryFacts(s, a, e) && History(s)
    ensures ExitsKept(t)
  {
    hide PidsDiffer, ReapsOk;
    assert Recorded(s, e.x) && Recorded(s, a);
    forall pid | pid in t.exits ensures pid < t.nextPid && (WasReaped(t, pid) || Left(t, pid)) {
      ReapedNow(s, t, a, e, pid);
      if pid == s.procs[a].pid && Exiting(t.procs[a].pc) { assert Left(t, pid); }
      else if !WasReaped(t, pid) {
        var p :| 0 <= p < |s.procs| && Exiting(s.procs[p].pc) && s.procs[p].pid == pid;
        assert Exiting(t.procs[p].pc) && t.procs[p].pid == pid;
      }
    }
  }

  // The whole step, and whole runs

  lemma StepKeepsTable(s: State, a: Action)
    requires Inv(s) && Enabled(s, a) && Facts(s, a.p, Act(s, a))
    ensures Table(Next(s, a))
  {
    var e, t := Act(s, a), Next(s, a);
    AllSlots(s, a);
    hide Act, Apply, Next, Enabled, Facts, SlotOk, History;
    assert Basic(s, a.p) && ExitOk(s, a.p);
    assert e.x < |s.procs| ==> Basic(s, e.x) && ExitOk(s, e.x);
    forall p | 0 <= p < |t.procs| ensures Basic(t, p) {
      StepKeepsPc(s, t, a.p, e, p);
      StepKeepsForker(s, t, a.p, e, p);
      StepKeepsEmbryo(s, t, a.p, e, p);
      StepKeepsParent(s, t, a.p, e, p);
    }
  }

  lemma StepKeepsHistory(s: State, a: Action)
    requires Inv(s) && Enabled(s, a) && Act(s, a).x < |s.procs|
    ensures History(Next(s, a))
  {
    var e, t := Act(s, a), Next(s, a);
    AllSlots(s, a);
    assert Noted(s, t, a.p, e);
    hide Act, Apply, Next, Enabled, HistoryFacts, Recorded, PidsDiffer, ReapsOk, ExitsKept, Basic, ExitOk, WaitOk,
         ZombieOk;
    if a.Go? { ContinueHistory(s, a); } else { BeginHistory(s, a); }
    forall p | 0 <= p < |t.procs| ensures Recorded(t, p) { StepKeepsRecord(s, t, a.p, e, p); }
    StepKeepsPidsApart(s, t, a.p, e);
    StepKeepsReaps(s, t, a.p, e);
    StepKeepsExits(s, t, a.p, e);
  }

  lemma StepKeepsInv(s: State, a: Action)
    requires Inv(s) && Enabled(s, a) && a.p < |s.procs|
    ensures Inv(Next(s, a))
  {
    hide Act, Apply, Next, Enabled, PcOk, ForkerOk, EmbryoOk, ParentOk, ExitOk, WaitOk, ZombieOk, History, OtherFacts;
    var e, t := Act(s, a), Next(s, a);
    assert Basic(s, a.p) && ExitOk(s, a.p) && WaitOk(s, a.p);
    StepFacts(s, a);
    AllSlots(s, a);
    StepKeepsTable(s, a);
    StepKeepsHistory(s, a);
    forall p | 0 <= p < |t.procs| ensures ExitOk(t, p) && WaitOk(t, p) && ZombieOk(t, p) {
      assert ExitOk(s, p) && WaitOk(s, p) && ZombieOk(s, p);
      if p == a.p { ActorKeepsExit(s, a); ActorKeepsWait(s, a); }
      else { OthersKeepExit(s, t, a.p, e, p); OthersKeepWait(s, t, a.p, e, p); }
      StepLosesNoWakeup(s, a, p);
    }
  }

  ghost predicate Init(s: State) {
    && s.init < |s.procs| && s.waitLock.None? && s.nextPid == 2 && s.exits == map[] && s.reaps == []
    && s.procs[s.init] == FREE.(pc := User, state := Runnable, pid := 1)
    && forall p :: 0 <= p < |s.procs| && p != s.init ==> s.procs[p] == FREE
  }

  lemma InitHolds(s: State)
    requires Init(s)
    ensures Inv(s)
  {
    forall p | 0 <= p < |s.procs| ensures Basic(s, p) && ExitOk(s, p) && WaitOk(s, p) && ZombieOk(s, p) &&
      Recorded(s, p) {
      assert s.procs[p] == FREE || p == s.init;
    }
  }

  ghost predicate Run(s: State, actions: seq<Action>, t: State)
    decreases |actions|
  {
    if actions == [] then s == t
    else Enabled(s, actions[0]) && Run(Next(s, actions[0]), actions[1..], t)
  }

  lemma {:induction false} RunKeepsInv(s: State, actions: seq<Action>, t: State)
    requires Inv(s) && Run(s, actions, t)
    ensures Inv(t)
    decreases |actions|
  {
    hide Inv;
    if actions != [] {
      assert actions[0].p < |s.procs|;
      StepKeepsInv(s, actions[0]);
      RunKeepsInv(Next(s, actions[0]), actions[1..], t);
    }
  }

  /** Whenever wait_lock is free nobody is asleep in wait, or committed to it, with a ZOMBIE
      child; a parent pointer always names a live process; and a ZOMBIE always has a parent. */
  lemma WaitSafe(s: State, actions: seq<Action>, t: State)
    requires Init(s) && Run(s, actions, t)
    ensures t.waitLock.None? ==> forall z, q :: 0 <= z < |t.procs| && 0 <= q < |t.procs| ==>
              t.procs[z].state == Zombie && t.procs[z].parent == Some(q) ==> !Stuck(t.procs[q])
    ensures forall p :: 0 <= p < |t.procs| && t.procs[p].parent.Some? ==>
              t.procs[p].parent.value < |t.procs| && Live(t.procs[t.procs[p].parent.value])
    ensures forall p :: 0 <= p < |t.procs| && t.procs[p].state == Zombie ==> t.procs[p].parent.Some?
  {
    hide ExitOk, WaitOk, History, ForkerOk, EmbryoOk, Init, Run;
    InitHolds(s);
    RunKeepsInv(s, actions, t);
    forall z, q | 0 <= z < |t.procs| && 0 <= q < |t.procs| && t.procs[z].state == Zombie && t.procs[z].parent == Some(q)
      ensures t.waitLock.None? ==> !Stuck(t.procs[q])
    {
      assert ZombieOk(t, z);
    }
    forall p | 0 <= p < |t.procs|
      ensures t.procs[p].parent.Some? ==> t.procs[p].parent.value < |t.procs| && Live(t.procs[t.procs[p].parent.value])
      ensures t.procs[p].state == Zombie ==> t.procs[p].parent.Some?
    {
      assert Basic(t, p);
    }
  }

  /** Every exit status is delivered at most once, as it was given to exit; until then its pid
      still holds a slot. */
  lemma StatusesDeliveredOnce(s: State, actions: seq<Action>, t: State)
    requires Init(s) && Run(s, actions, t)
    ensures forall k :: 0 <= k < |t.reaps| ==> t.reaps[k].pid in t.exits && t.exits[t.reaps[k].pid] == t.reaps[k].status
    ensures forall k, l :: 0 <= k < l < |t.reaps| ==> t.reaps[k].pid != t.reaps[l].pid
    ensures forall pid :: pid in t.exits ==> (Left(t, pid) <==> !WasReaped(t, pid))
  {
    InitHolds(s);
    RunKeepsInv(s, actions, t);
    forall pid | pid in t.exits && Left(t, pid) ensures !WasReaped(t, pid) {
      var p :| 0 <= p < |t.procs| && Exiting(t.procs[p].pc) && t.procs[p].pid == pid;
      assert Recorded(t, p);
    }
  }

  /** wait reaps only the caller's own child, and only once that child has left its stack. */
  lemma ReapsOwnChild(s: State, p: nat, good: bool)
    requires Inv(s) && p < |s.procs| && Enabled(s, Go(p, good))
    requires Act(s, Go(p, good)).note.Reaps?
    ensures var x := Act(s, Go(p, good)).x;
      x < |s.procs| && s.procs[x].parent == Some(p) && s.procs[x].pc == Dead &&
      Next(s, Go(p, good)).procs[x].state == Unused
  {
    assert Basic(s, p);
    assert Basic(s, Act(s, Go(p, good)).x);
    AllSlots(s, Go(p, good));
    hide Apply, Next, ForkerOk, EmbryoOk, History, ExitOk, WaitOk;
  }

  /** wait gives up without a reaped child only if it was killed, if copying the status out
      failed, or if it has no child at all. */
  lemma WaitGivesUp(s: State, p: nat, good: bool)
    requires Inv(s) && p < |s.procs| && s.procs[p].pc.WaitScan? && Enabled(s, Go(p, good)) && !s.procs[p].killed && good
    requires var e := Act(s, Go(p, good)); e.me.pc.User? && !e.note.Reaps?
    ensures forall z :: 0 <= z < |s.procs| ==> s.procs[z].parent != Some(p)
  {
    assert WaitOk(s, p);
  }
}
