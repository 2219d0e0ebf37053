/** acquiresleep, releasesleep, sleep, wakeup and kill as interleaved atomic steps of any
    number of processes. Each p->lock, the sleep lock's inner spinlock and the gap between
    "released lk" and "asleep" are explicit. A process that is not running takes no step. */
module SleepLock {
  import opened Collections

  datatype RunState = Running | Sleeping | Runnable

  /** Where a process stands. */
  datatype Pc =
    | Outside            // not using the lock
    | Test               // in acquiresleep, lk held: about to test lk->locked
    | Commit             // sleep: about to acquire p->lock, lk held
    | Handover           // p->lock held too: about to release lk
    | Mark               // p->lock held: about to set chan and SLEEPING
    | Switch             // about to switch to the scheduler, which releases p->lock
    | Asleep             // off the CPU until wakeup or kill, and then the scheduler
    | Resume             // back on the CPU, p->lock held
    | Reacquire          // about to acquire lk again
    | Got                // lk->locked set by this process, lk still held
    | Holding            // owns the sleep lock
    | Drop               // in releasesleep, lk held: about to clear lk->locked
    | Scan(i: nat)       // wakeup's loop, lk held
    | Wake(i: nat)       // ... with proc[i].lock held
    | Killing(i: nat, back: Pc) // kill, proc[i].lock held; afterwards continue at back

  /** lock is the holder of p->lock; onLock says p->chan is this sleep lock. */
  datatype Proc = Proc(pc: Pc, state: RunState, onLock: bool, lock: Option<nat>)

  /** spin is the holder of lk->lk. */
  datatype State = State(procs: seq<Proc>, spin: Option<nat>, locked: bool)

  datatype Action = Acquire(p: nat) | Release(p: nat) | Kill(p: nat, victim: nat) | Go(p: nat) | Schedule(p: nat)

  function SetPc(s: State, p: nat, pc: Pc): (r: State)
    requires p < |s.procs|
  {
    s.(procs := s.procs[p := s.procs[p].(pc := pc)])
  }

  /** wakeup's and kill's check of one process, whose lock is held. */
  function Rouse(q: Proc, onlyThisLock: bool): (r: Proc) {
    if q.state == Sleeping && (q.onLock || !onlyThisLock) then q.(state := Runnable, lock := None) else q.(lock := None)
  }

  predicate Enabled(s: State, a: Action) {
    && a.p < |s.procs|
    && var me := s.procs[a.p];
       match a
       case Acquire(p) => me.pc.Outside? && s.spin.None?
       case Release(p) => me.pc.Holding? && s.spin.None?
       case Kill(p, v) => (me.pc.Outside? || me.pc.Holding?) && v < |s.procs| && s.procs[v].lock.None?
       case Schedule(p) => me.pc.Asleep? && me.state == Runnable && me.lock.None?
       case Go(p) =>
         match me.pc
         case Outside | Asleep | Holding => false
         case Commit => me.lock.None?
         case Reacquire => s.spin.None?
         case Scan(i) => i >= |s.procs| || i == p || s.procs[i].lock.None?
         case _ => true
  }

  function Next(s: State, a: Action): (r: State)
    requires Enabled(s, a)
    ensures |r.procs| == |s.procs|
  {
    var p := a.p;
    var me := s.procs[p];
    match a
    case Acquire(_) => SetPc(s, p, Test).(spin := Some(p))
    case Release(_) => SetPc(s, p, Drop).(spin := Some(p))
    case Kill(_, v) =>
      var t := SetPc(s, p, Killing(v, me.pc));
      t.(procs := t.procs[v := t.procs[v].(lock := Some(p))])
    case Schedule(_) => s.(procs := s.procs[p := me.(pc := Resume, state := Running, lock := Some(p))])
    case Go(_) =>
      match me.pc
      case Test => if s.locked then SetPc(s, p, Commit) else SetPc(s, p, Got).(locked := true)
      case Commit => s.(procs := s.procs[p := me.(pc := Handover, lock := Some(p))])
      case Handover => SetPc(s, p, Mark).(spin := None)
      case Mark => s.(procs := s.procs[p := me.(pc := Switch, state := Sleeping, onLock := true)])
      case Switch => s.(procs := s.procs[p := me.(pc := Asleep, lock := None)])
      case Resume => s.(procs := s.procs[p := me.(pc := Reacquire, onLock := false, lock := None)])
      case Reacquire => SetPc(s, p, Test).(spin := Some(p))
      case Got => SetPc(s, p, Holding).(spin := None)
      case Drop => SetPc(s, p, Scan(0)).(locked := false)
      case Scan(i) =>
        if i >= |s.procs| then SetPc(s, p, Outside).(spin := None)
        else if i == p then SetPc(s, p, Scan(i + 1))
        else
          var t := SetPc(s, p, Wake(i));
          t.(procs := t.procs[i := t.procs[i].(lock := Some(p))])
      case Wake(i) =>
        if i >= |s.procs| then s
        else SetPc(s.(procs := s.procs[i := Rouse(s.procs[i], true)]), p, Scan(i + 1))
      case Killing(i, back) =>
        if i >= |s.procs| then s
        else SetPc(s.(procs := s.procs[i := Rouse(s.procs[i], false)]), p, back)
      case _ => s
  }

  // The invariant

  predicate HoldsSpin(pc: Pc) {
    pc.Test? || pc.Commit? || pc.Handover? || pc.Got? || pc.Drop? || pc.Scan? || pc.Wake?
  }

  predicate HoldsOwnLock(pc: Pc) {
    pc.Handover? || pc.Mark? || pc.Switch? || pc.Resume?
  }

  predicate Owns(pc: Pc) {
    pc.Got? || pc.Holding? || pc.Drop? || (pc.Killing? && pc.back.Holding?)
  }

  /** Asleep on the lock, or past the point of no return. */
  predicate Stuck(q: Proc) {
    q.pc.Mark? || q.pc.Switch? || (q.pc.Asleep? && q.state == Sleeping)
  }

  ghost predicate PcOk(s: State, p: nat)
    requires p < |s.procs|
  {
    var q := s.procs[p];
    && (HoldsSpin(q.pc) <==> s.spin == Some(p))
    && (q.state == Sleeping ==> q.pc.Switch? || q.pc.Asleep?)
    && (q.pc.Switch? ==> q.state == Sleeping)
    && (q.pc.Asleep? ==> q.onLock && q.state != Running)
    && (q.pc.Switch? || q.pc.Resume? ==> q.onLock)
    && (q.pc.Commit? || q.pc.Handover? ==> s.locked)
    && (Owns(q.pc) ==> s.locked)
    && (q.pc.Killing? ==> q.pc.back.Outside? || q.pc.back.Holding?)
  }

  ghost predicate LockOk(s: State, p: nat)
    requires p < |s.procs|
  {
    var q := s.procs[p];
    && (HoldsOwnLock(q.pc) ==> q.lock == Some(p))
    && (q.pc.Killing? || q.pc.Wake? ==> q.pc.i < |s.procs| && s.procs[q.pc.i].lock == Some(p))
    && (q.pc.Wake? ==> q.pc.i != p)
    && (q.lock.Some? ==> LockedBy(s, p, q.lock.value))
  }

  ghost predicate LocalOk(s: State, p: nat)
    requires p < |s.procs|
  {
    PcOk(s, p) && LockOk(s, p)
  }

  /** o has proc[p].lock: p itself going to sleep or coming back, or a wakeup or kill looking at p. */
  ghost predicate LockedBy(s: State, p: nat, o: nat)
    requires p < |s.procs|
  {
    && o < |s.procs|
    && var pc := s.procs[o].pc;
       (o == p && HoldsOwnLock(pc)) || ((pc.Wake? || pc.Killing?) && pc.i == p)
  }

  ghost predicate Local(s: State) {
    && (s.spin.Some? ==> s.spin.value < |s.procs|)
    && forall p :: 0 <= p < |s.procs| ==> LocalOk(s, p)
  }

  ghost predicate AtMostOneOwner(s: State) {
    forall p, q :: 0 <= p < q < |s.procs| ==> !(Owns(s.procs[p].pc) && Owns(s.procs[q].pc))
  }

  ghost predicate SomeOwner(s: State) {
    exists p :: 0 <= p < |s.procs| && Owns(s.procs[p].pc)
  }

  /** Some releasesleep has the spinlock and its wakeup loop has yet to deal with q. */
  ghost predicate BeingWoken(s: State, q: nat) {
    s.spin.Some? && s.spin.value < |s.procs| &&
    var pc := s.procs[s.spin.value].pc; (pc.Scan? || pc.Wake?) && pc.i <= q
  }

  ghost predicate NoLostWakeup(s: State) {
    !s.locked ==> forall q :: 0 <= q < |s.procs| && Stuck(s.procs[q]) ==> BeingWoken(s, q)
  }

  ghost predicate Inv(s: State) {
    Local(s) && AtMostOneOwner(s) && (s.locked ==> SomeOwner(s)) && NoLostWakeup(s)
  }

  ghost predicate Init(s: State) {
    s.spin.None? && !s.locked && forall p :: 0 <= p < |s.procs| ==> s.procs[p] == Proc(Outside, Running, false, None)
  }

  // Four kinds of step

  /** Takes or gives back the spinlock, or works under it. */
  predicate SpinStep(s: State, a: Action)
    requires a.p < |s.procs|
  {
    var pc := s.procs[a.p].pc;
    a.Acquire? || a.Release? || (a.Go? && (pc.Test? || pc.Handover? || pc.Reacquire? || pc.Got? || pc.Drop?
      || (pc.Scan? && (pc.i >= |s.procs| || pc.i == a.p))))
  }

  /** Works under its own p->lock. */
  predicate OwnStep(s: State, a: Action)
    requires a.p < |s.procs|
  {
    var pc := s.procs[a.p].pc;
    a.Schedule? || (a.Go? && (pc.Commit? || pc.Mark? || pc.Switch? || pc.Resume?))
  }

  /** Takes another process's lock. */
  predicate GrabStep(s: State, a: Action)
    requires a.p < |s.procs|
  {
    var pc := s.procs[a.p].pc;
    a.Kill? || (a.Go? && pc.Scan? && pc.i < |s.procs| && pc.i != a.p)
  }

  /** Looks at the process it has locked, and lets it go. */
  predicate RouseStep(s: State, a: Action)
    requires a.p < |s.procs|
  {
    a.Go? && (s.procs[a.p].pc.Wake? || s.procs[a.p].pc.Killing?)
  }

  /** All of the invariant that a step of a.p can need to keep LocalOk of p. */
  ghost predicate Near(s: State, a: Action, p: nat) {
    && Enabled(s, a) && p < |s.procs| && LocalOk(s, p) && LocalOk(s, a.p)
    && (s.procs[p].lock.Some? ==> s.procs[p].lock.value < |s.procs| && LocalOk(s, s.procs[p].lock.value))
    && (p != a.p && Owns(s.procs[p].pc) ==> !Owns(s.procs[a.p].pc))
  }

  lemma TakeKeepsLocal(s: State, a: Action, p: nat)
    requires Near(s, a, p) && SpinStep(s, a) && (!a.Go? || s.procs[a.p].pc.Test? || s.procs[a.p].pc.Reacquire?)
    ensures LocalOk(Next(s, a), p)
  {
  }

  lemma SpinKeepsPc(s: State, a: Action, p: nat)
    requires Near(s, a, p) && SpinStep(s, a) && a.Go? && !s.procs[a.p].pc.Test? && !s.procs[a.p].pc.Reacquire?
    ensures PcOk(Next(s, a), p)
  {
    hide LockOk;
  }

  /** A step that moves only a program counter, neither to nor from looking at another process. */
  lemma PcOnlyKeepsLock(s: State, t: State, a: nat, p: nat)
    requires a < |s.procs| && |t.procs| == |s.procs| && p < |s.procs| && LockOk(s, p)
    requires t.procs == s.procs[a := s.procs[a].(pc := t.procs[a].pc)]
    requires var was, now := s.procs[a].pc, t.procs[a].pc;
      HoldsOwnLock(was) == HoldsOwnLock(now) && !was.Wake? && !was.Killing? && !now.Wake? && !now.Killing?
    ensures LockOk(t, p)
  {
  }

  lemma SpinMovesPc(s: State, a: Action)
    requires Enabled(s, a) && SpinStep(s, a) && a.Go? && !s.procs[a.p].pc.Test? && !s.procs[a.p].pc.Reacquire?
    ensures var t := Next(s, a); var was, now := s.procs[a.p].pc, t.procs[a.p].pc;
      && t.procs == s.procs[a.p := s.procs[a.p].(pc := now)]
      && HoldsOwnLock(was) == HoldsOwnLock(now) && !was.Wake? && !was.Killing? && !now.Wake? && !now.Killing?
  {
  }

  lemma SpinKeepsLock(s: State, a: Action, p: nat)
    requires Near(s, a, p) && SpinStep(s, a) && a.Go? && !s.procs[a.p].pc.Test? && !s.procs[a.p].pc.Reacquire?
    ensures LockOk(Next(s, a), p)
  {
    hide PcOk, LockOk, Next, HoldsOwnLock;
    SpinMovesPc(s, a);
    PcOnlyKeepsLock(s, Next(s, a), a.p, p);
  }

  lemma SpinKeepsLocal(s: State, a: Action, p: nat)
    requires Near(s, a, p) && SpinStep(s, a) && a.Go? && !s.procs[a.p].pc.Test? && !s.procs[a.p].pc.Reacquire?
    ensures LocalOk(Next(s, a), p)
  {
    hide PcOk, LockOk, Next, Near;
    SpinKeepsPc(s, a, p);
    SpinKeepsLock(s, a, p);
  }

  lemma OwnKeepsLocal(s: State, a: Action, p: nat)
    requires Near(s, a, p) && OwnStep(s, a)
    ensures LocalOk(Next(s, a), p)
  {
  }

  lemma GrabKeepsPc(s: State, a: Action, p: nat)
    requires Near(s, a, p) && GrabStep(s, a)
    ensures PcOk(Next(s, a), p)
  {
    hide LockOk;
  }

  lemma KillGrabKeepsLock(s: State, a: Action, p: nat)
    requires Near(s, a, p) && a.Kill?
    ensures LockOk(Next(s, a), p)
  {
    hide PcOk;
  }

  lemma ScanGrabKeepsLock(s: State, a: Action, p: nat)
    requires Near(s, a, p) && GrabStep(s, a) && a.Go?
    ensures LockOk(Next(s, a), p)
  {
    hide PcOk;
  }

  lemma GrabKeepsLock(s: State, a: Action, p: nat)
    requires Near(s, a, p) && GrabStep(s, a)
    ensures LockOk(Next(s, a), p)
  {
    hide LockOk, Next;
    if a.Kill? { KillGrabKeepsLock(s, a, p); } else { ScanGrabKeepsLock(s, a, p); }
  }

  lemma GrabKeepsLocal(s: State, a: Action, p: nat)
    requires Near(s, a, p) && GrabStep(s, a)
    ensures LocalOk(Next(s, a), p)
  {
    hide PcOk, LockOk, Next, Near;
    GrabKeepsPc(s, a, p);
    GrabKeepsLock(s, a, p);
  }

  lemma WakeKeepsLocal(s: State, a: Action, p: nat)
    requires Near(s, a, p) && RouseStep(s, a) && s.procs[a.p].pc.Wake?
    ensures LocalOk(Next(s, a), p)
  {
  }

  lemma KillerKeepsLocal(s: State, a: Action)
    requires Near(s, a, a.p) && RouseStep(s, a) && s.procs[a.p].pc.Killing?
    ensures LocalOk(Next(s, a), a.p)
  {
  }

  lemma KillKeepsOthers(s: State, a: Action, p: nat)
    requires Near(s, a, p) && RouseStep(s, a) && s.procs[a.p].pc.Killing? && p != a.p
    ensures LocalOk(Next(s, a), p)
  {
  }

  lemma KillKeepsLocal(s: State, a: Action, p: nat)
    requires Near(s, a, p) && RouseStep(s, a) && s.procs[a.p].pc.Killing?
    ensures LocalOk(Next(s, a), p)
  {
    hide LocalOk, Next, Near;
    if p == a.p { KillerKeepsLocal(s, a); } else { KillKeepsOthers(s, a, p); }
  }

  /** Only a.p's program counter moves, and ownership moves with lk->locked. */
  lemma OwnershipMoves(s: State, a: Action)
    requires Enabled(s, a) && LocalOk(s, a.p)
    ensures var t := Next(s, a);
            && (forall p :: 0 <= p < |s.procs| && p != a.p ==> t.procs[p].pc == s.procs[p].pc)
            && (Owns(t.procs[a.p].pc) && !Owns(s.procs[a.p].pc) ==> !s.locked && t.locked)
            && (Owns(s.procs[a.p].pc) && !Owns(t.procs[a.p].pc) ==> !t.locked)
            && (t.locked && !s.locked ==> Owns(t.procs[a.p].pc))
  {
    OthersStay(s, a);
    OwnerStep(s, a);
    hide Next, LocalOk;
  }

  lemma OthersStay(s: State, a: Action)
    requires Enabled(s, a)
    ensures forall p :: 0 <= p < |s.procs| && p != a.p ==> Next(s, a).procs[p].pc == s.procs[p].pc
  {
  }

  lemma OwnerStep(s: State, a: Action)
    requires Enabled(s, a) && LocalOk(s, a.p)
    ensures var me, t := s.procs[a.p].pc, Next(s, a);
            && (Owns(t.procs[a.p].pc) && !Owns(me) ==> !s.locked && t.locked)
            && (Owns(me) && !Owns(t.procs[a.p].pc) ==> !t.locked)
            && (t.locked && !s.locked ==> Owns(t.procs[a.p].pc))
  {
    hide LockedBy, LockOk;
  }

  lemma StepKeepsOwner(s: State, a: Action)
    requires Inv(s) && Enabled(s, a)
    ensures AtMostOneOwner(Next(s, a))
    ensures Next(s, a).locked ==> SomeOwner(Next(s, a))
  {
    hide LockedBy, Next;
    var t := Next(s, a);
    assert LocalOk(s, a.p);
    OwnershipMoves(s, a);
    forall p, q | 0 <= p < q < |t.procs| ensures !(Owns(t.procs[p].pc) && Owns(t.procs[q].pc)) {
      assert LocalOk(s, p) && LocalOk(s, q);
    }
    if t.locked {
      var p := if s.locked then var o :| 0 <= o < |s.procs| && Owns(s.procs[o].pc); o else a.p;
      assert Owns(t.procs[p].pc);
    }
  }

  /** The heart of it: a process that releases lk to sleep keeps its own lock until it is
      asleep, so a wakeup that starts later must wait for it and then finds it. */
  lemma StepLosesNoWakeup(s: State, a: Action)
    requires Inv(s) && Enabled(s, a)
    ensures NoLostWakeup(Next(s, a))
  {
    hide Next, LocalOk, Stuck, BeingWoken;
    var t := Next(s, a);
    assert LocalOk(s, a.p);
    if !t.locked {
      forall q | 0 <= q < |t.procs| && Stuck(t.procs[q]) ensures BeingWoken(t, q) {
        assert LocalOk(s, q);
        StaysWoken(s, a, q);
      }
    }
  }

  lemma StaysWoken(s: State, a: Action, q: nat)
    requires Enabled(s, a) && q < |s.procs| && LocalOk(s, a.p) && LocalOk(s, q)
    requires !s.locked && Stuck(s.procs[q]) ==> BeingWoken(s, q)
    ensures !Next(s, a).locked && Stuck(Next(s, a).procs[q]) ==> BeingWoken(Next(s, a), q)
  {
    hide LockedBy;
  }

  lemma StepKeepsInv(s: State, a: Action)
    requires Inv(s) && Enabled(s, a)
    ensures Inv(Next(s, a))
  {
    var t := Next(s, a);
    forall p | 0 <= p < |t.procs| ensures LocalOk(t, p) {
      assert LocalOk(s, p) && LocalOk(s, a.p);
      assert Near(s, a, p);
      if SpinStep(s, a) {
        if !a.Go? || s.procs[a.p].pc.Test? ||
          s.procs[a.p].pc.Reacquire? { TakeKeepsLocal(s, a, p); } else { SpinKeepsLocal(s, a, p); }
      }
      else if OwnStep(s, a) { OwnKeepsLocal(s, a, p); }
      else if GrabStep(s, a) { GrabKeepsLocal(s, a, p); }
      else if s.procs[a.p].pc.Wake? { WakeKeepsLocal(s, a, p); }
      else { KillKeepsLocal(s, a, p); }
    }
    StepKeepsOwner(s, a);
    StepLosesNoWakeup(s, a);
  }

  // Whole runs

  ghost predicate Run(s: State, actions: seq<Action>, t: State)
    decreases |actions|
  {
    if actions == [] then s == t
    else Enabled(s, actions[0]) && Run(Next(s, actions[0]), actions[1..], t)
  }

  lemma {:induction false} RunKeepsInv(s: State, actions: seq<Action>, t: State)
    requires Inv(s) && Run(s, actions, t)
    ensures Inv(t)
    decreases |actions|
  {
    if actions != [] {
      StepKeepsInv(s, actions[0]);
      RunKeepsInv(Next(s, actions[0]), actions[1..], t);
    }
  }

  /** In every interleaving: at most one process owns the sleep lock; and when its spinlock is
      free and it is not locked, nobody is asleep on it or committed to going to sleep. */
  lemma SleepLockSafe(s: State, actions: seq<Action>, t: State)
    requires Init(s) && Run(s, actions, t)
    ensures forall p, q :: 0 <= p < |t.procs| && 0 <= q < |t.procs| && Owns(t.procs[p].pc) && Owns(t.procs[q].pc) ==>
                             p == q
    ensures t.locked <==> exists p :: 0 <= p < |t.procs| && Owns(t.procs[p].pc)
    ensures t.spin.None? && !t.locked ==> forall q :: 0 <= q < |t.procs| ==> !Stuck(t.procs[q])
  {
    RunKeepsInv(s, actions, t);
    forall p | 0 <= p < |t.procs| ensures Owns(t.procs[p].pc) ==> t.locked {
      assert LocalOk(t, p);
    }
  }
}
