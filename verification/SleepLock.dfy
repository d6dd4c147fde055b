/** Sleep locks (sleeplock.c) over sleep and wakeup (proc.c), as a state machine: any number
    of processes, on any number of CPUs, interleaved at every acquire and release of the two
    spinlocks involved. */
module SleepLock {

  // Where a process is in acquiresleep, sleep or releasesleep. The comment says which
  // spinlocks it holds there.
  datatype Pc =
    | Outside
    | Acquire       //            about to acquire lk->lk
    | Check         // lk         at the test of lk->locked
    | SleepEnter    // lk         in sleep(), about to acquire ptable.lock
    | SleepDrop     // lk ptable  about to release lk->lk
    | SleepMark     //    ptable  about to set SLEEPING and switch away
    | Asleep        //            SLEEPING on lk
    | Woken         //            RUNNABLE again
    | Tidy          //    ptable  back from sched(), about to release ptable.lock
    | Reacquire     //            about to acquire lk->lk again
    | Inside        //            between acquiresleep and releasesleep
    | Release       //            in releasesleep, about to acquire lk->lk
    | Unlock        // lk         about to clear lk->locked
    | WakeEnter     // lk         in wakeup(), about to acquire ptable.lock
    | Wake          // lk ptable  about to run wakeup1
    | WakeLeave     // lk ptable  about to release ptable.lock
    | Leave         // lk         about to release lk->lk

  // Who holds a spinlock. Others are the scheduler, processes that do not use this lock,
  // and kill.
  datatype Holder = Free | Held(p: nat) | ByOthers

  datatype State = State(
    lk: Holder,
    ptable: Holder,
    locked: bool,
    pid: nat,          // lk->pid; process p has pid p + 1
    pc: seq<Pc>)

  datatype Action =
    | Move(p: nat)        // the next step of process p
    | OthersAcquire       // the rest of the kernel takes ptable.lock ...
    | OthersRelease       // ... and gives it back
    | Kill(p: nat)        // kill(): makes a sleeping process runnable, under ptable.lock

  function Init(n: nat): State {
    State(Free, Free, false, 0, seq(n, _ => Outside))
  }

  predicate HoldsLk(c: Pc) {
    c.Check? || c.SleepEnter? || c.SleepDrop? || c.Unlock? || c.WakeEnter? || c.Wake? || c.WakeLeave? || c.Leave?
  }

  predicate HoldsPtable(c: Pc) {
    c.SleepDrop? || c.SleepMark? || c.Tidy? || c.Wake? || c.WakeLeave?
  }

  // Holds the sleep lock.
  predicate Owns(c: Pc) {
    c.Inside? || c.Release? || c.Unlock?
  }

  predicate Enabled(s: State, a: Action) {
    match a
    case OthersAcquire => s.ptable.Free?
    case OthersRelease => s.ptable.ByOthers?
    case Kill(p) => s.ptable.ByOthers? && p < |s.pc| && s.pc[p].Asleep?
    case Move(p) =>
      && p < |s.pc|
      && match s.pc[p]
         case Acquire => s.lk.Free?
         case Reacquire => s.lk.Free?
         case Release => s.lk.Free?
         case SleepEnter => s.ptable.Free?
         case WakeEnter => s.ptable.Free?
         case Woken => s.ptable.Free?
         case Asleep => false
         case _ => true
  }

  function To(s: State, p: nat, c: Pc): State
    requires p < |s.pc|
  {
    s.(pc := s.pc[p := c])
  }

  // wakeup1: every process asleep on the lock becomes runnable.
  function Wakeup1(pc: seq<Pc>): (r: seq<Pc>)
    ensures |r| == |pc|
  {
    seq(|pc|, i requires 0 <= i < |pc| => if pc[i].Asleep? then Woken else pc[i])
  }

  function Step(s: State, a: Action): State
    requires Enabled(s, a)
  {
    match a
    case OthersAcquire => s.(ptable := ByOthers)
    case OthersRelease => s.(ptable := Free)
    case Kill(p) => To(s, p, Woken)
    case Move(p) =>
      match s.pc[p]
      case Outside => To(s, p, Acquire)
      case Acquire => To(s.(lk := Held(p)), p, Check)
      case Check =>
        if s.locked then To(s, p, SleepEnter)
        else To(s.(locked := true, pid := p + 1, lk := Free), p, Inside)
      case SleepEnter => To(s.(ptable := Held(p)), p, SleepDrop)
      case SleepDrop => To(s.(lk := Free), p, SleepMark)
      case SleepMark => To(s.(ptable := ByOthers), p, Asleep)
      case Woken => To(s.(ptable := Held(p)), p, Tidy)
      case Tidy => To(s.(ptable := Free), p, Reacquire)
      case Reacquire => To(s.(lk := Held(p)), p, Check)
      case Inside => To(s, p, Release)
      case Release => To(s.(lk := Held(p)), p, Unlock)
      case Unlock => To(s.(locked := false, pid := 0), p, WakeEnter)
      case WakeEnter => To(s.(ptable := Held(p)), p, Wake)
      case Wake => To(s.(pc := Wakeup1(s.pc)), p, WakeLeave)
      case WakeLeave => To(s.(ptable := Free), p, Leave)
      case Leave => To(s.(lk := Free), p, Outside)
  }

  ghost predicate Run(s: State, actions: seq<Action>, t: State)
    decreases |actions|
  {
    if actions == [] then s == t
    else
      var prefix, a := actions[..|actions| - 1], actions[|actions| - 1];
      exists u :: Run(s, prefix, u) && Enabled(u, a) && t == Step(u, a)
  }

  // ----- The invariant

  // A spinlock is held by exactly the process whose position says so.
  ghost predicate LkOk(s: State) {
    && (forall p :: 0 <= p < |s.pc| && HoldsLk(s.pc[p]) ==> s.lk == Held(p))
    && !s.lk.ByOthers?
    && (s.lk.Held? ==> s.lk.p < |s.pc| && HoldsLk(s.pc[s.lk.p]))
  }

  ghost predicate PtableOk(s: State) {
    && (forall p :: 0 <= p < |s.pc| && HoldsPtable(s.pc[p]) ==> s.ptable == Held(p))
    && (s.ptable.Held? ==> s.ptable.p < |s.pc| && HoldsPtable(s.pc[s.ptable.p]))
  }

  // locked and pid name the one owner.
  ghost predicate OwnerOk(s: State) {
    && (forall p :: 0 <= p < |s.pc| && Owns(s.pc[p]) ==> s.locked && s.pid == p + 1)
    && (s.locked ==> 0 < s.pid <= |s.pc| && Owns(s.pc[s.pid - 1]))
    && (!s.locked ==> s.pid == 0)
  }

  // On its way to sleep, or asleep.
  predicate Sleepy(c: Pc) {
    c.SleepEnter? || c.SleepDrop? || c.SleepMark? || c.Asleep?
  }

  // Between clearing locked and waking the sleepers.
  ghost predicate WakeComing(s: State) {
    s.lk.Held? && s.lk.p < |s.pc| && (s.pc[s.lk.p].WakeEnter? || s.pc[s.lk.p].Wake?)
  }

  ghost predicate SleepersOk(s: State) {
    forall p :: 0 <= p < |s.pc| && Sleepy(s.pc[p]) ==> s.locked || WakeComing(s)
  }

  ghost predicate Inv(s: State) {
    LkOk(s) && PtableOk(s) && OwnerOk(s) && SleepersOk(s)
  }

  // The steps that touch only p's own position and the locks.
  predicate Plain(s: State, a: Action) {
    a.Move? && a.p < |s.pc| && !s.pc[a.p].Wake?
  }

  // A step takes a spinlock only when it is free, and gives back only its own.
  lemma LkMoves(s: State, a: Action)
    requires Enabled(s, a) && Plain(s, a) && (HoldsLk(s.pc[a.p]) ==> s.lk == Held(a.p))
    ensures var p, t := a.p, Step(s, a);
            && |t.pc| == |s.pc| && (forall q :: 0 <= q < |s.pc| && q != p ==> t.pc[q] == s.pc[q])
            && if HoldsLk(t.pc[p]) then t.lk == Held(p) && (s.lk.Free? || s.lk == Held(p))
               else t.lk == if HoldsLk(s.pc[p]) then Free else s.lk
  {
  }

  lemma LkKept(s: State, a: Action)
    requires LkOk(s) && Enabled(s, a) && Plain(s, a)
    ensures LkOk(Step(s, a))
  {
    LkMoves(s, a);
  }

  lemma PtableMoves(s: State, a: Action)
    requires Enabled(s, a) && Plain(s, a) && (HoldsPtable(s.pc[a.p]) ==> s.ptable == Held(a.p))
    ensures var p, t := a.p, Step(s, a);
            && |t.pc| == |s.pc| && (forall q :: 0 <= q < |s.pc| && q != p ==> t.pc[q] == s.pc[q])
            && if HoldsPtable(t.pc[p]) then t.ptable == Held(p) && (s.ptable.Free? || s.ptable == Held(p))
               else if HoldsPtable(s.pc[p]) then !t.ptable.Held?
               else t.ptable == s.ptable
  {
  }

  lemma PtableKept(s: State, a: Action)
    requires PtableOk(s) && Enabled(s, a) && Plain(s, a)
    ensures PtableOk(Step(s, a))
  {
    PtableMoves(s, a);
  }

  // Only the test in acquiresleep and the clearing of locked change the owner.
  lemma OwnerUnmoved(s: State, a: Action)
    requires Enabled(s, a) && Plain(s, a) && !s.pc[a.p].Check? && !s.pc[a.p].Unlock?
    ensures var t := Step(s, a);
            t.locked == s.locked && t.pid == s.pid && Owns(t.pc[a.p]) == Owns(s.pc[a.p])
  {
  }

  lemma OwnerKept(s: State, a: Action)
    requires LkOk(s) && OwnerOk(s) && Enabled(s, a) && Plain(s, a)
    ensures OwnerOk(Step(s, a))
  {
    var p, t := a.p, Step(s, a);
    assert forall q :: 0 <= q < |s.pc| && q != p ==> t.pc[q] == s.pc[q];
    if s.pc[p].Check? {
    } else if s.pc[p].Unlock? {
      assert Owns(s.pc[p]);
    } else {
      OwnerUnmoved(s, a);
    }
  }

  lemma SleepersKept(s: State, a: Action)
    requires Inv(s) && Enabled(s, a) && Plain(s, a)
    ensures SleepersOk(Step(s, a))
  {
    var p, t := a.p, Step(s, a);
    assert forall q :: 0 <= q < |s.pc| && q != p ==> t.pc[q] == s.pc[q];
    assert HoldsLk(s.pc[p]) ==> s.lk == Held(p);
    assert HoldsPtable(s.pc[p]) ==> s.ptable == Held(p);
    assert Sleepy(s.pc[p]) ==> s.locked || WakeComing(s);
  }

  lemma WakeKeeps(s: State, p: nat)
    requires Inv(s) && p < |s.pc| && s.pc[p].Wake?
    ensures Inv(Step(s, Move(p)))
  {
    var t := Step(s, Move(p));
    assert forall q :: 0 <= q < |s.pc| ==>
             t.pc[q] == if q == p then WakeLeave else if s.pc[q].Asleep? then Woken else s.pc[q];
  }

  lemma OthersKeep(s: State, a: Action)
    requires Inv(s) && Enabled(s, a) && !a.Move?
    ensures Inv(Step(s, a))
  {
  }

  lemma StepKeeps(s: State, a: Action)
    requires Inv(s) && Enabled(s, a)
    ensures Inv(Step(s, a)) && |Step(s, a).pc| == |s.pc|
  {
    if Plain(s, a) {
      LkKept(s, a);
      PtableKept(s, a);
      OwnerKept(s, a);
      SleepersKept(s, a);
    } else if a.Move? {
      WakeKeeps(s, a.p);
    } else {
      OthersKeep(s, a);
    }
  }

  lemma {:induction false} RunKeeps(s: State, actions: seq<Action>, t: State)
    requires Inv(s) && Run(s, actions, t)
    ensures Inv(t) && |t.pc| == |s.pc|
    decreases |actions|
  {
    if actions != [] {
      var prefix, a := actions[..|actions| - 1], actions[|actions| - 1];
      var u :| Run(s, prefix, u) && Enabled(u, a) && t == Step(u, a);
      RunKeeps(s, prefix, u);
      StepKeeps(u, a);
    }
  }

  // ----- What follows in every run

  // At most one process is between acquiresleep and releasesleep, and holdingsleep (locked
  // and pid) is true of exactly that one.
  lemma MutualExclusion(n: nat, actions: seq<Action>, t: State, p: nat, q: nat)
    requires Run(Init(n), actions, t) && p < |t.pc| && q < |t.pc|
    requires Owns(t.pc[p])
    ensures Owns(t.pc[q]) ==> p == q
    ensures (t.locked && t.pid == q + 1) <==> p == q
  {
    RunKeeps(Init(n), actions, t);
  }

  // No wakeup is lost: when lk->lk is free and a process sleeps on the lock, the lock is
  // held by a process that has yet to release it.
  lemma NoLostWakeup(n: nat, actions: seq<Action>, t: State, p: nat)
    requires Run(Init(n), actions, t) && p < |t.pc|
    requires t.lk.Free? && t.pc[p].Asleep?
    ensures t.locked && exists q :: 0 <= q < |t.pc| && (t.pc[q].Inside? || t.pc[q].Release?)
  {
    RunKeeps(Init(n), actions, t);
    var q := t.pid - 1;
    assert Owns(t.pc[q]) && !HoldsLk(t.pc[q]);
  }

  ghost predicate SomeMove(t: State) {
    exists q :: 0 <= q < |t.pc| && !t.pc[q].Outside? && Enabled(t, Move(q))
  }

  lemma MoveOrWait(t: State, p: nat)
    requires Inv(t) && p < |t.pc| && !t.pc[p].Outside? && !t.ptable.ByOthers?
    ensures SomeMove(t)
  {
    if t.ptable.Held? {
      assert Enabled(t, Move(t.ptable.p));
    } else if t.lk.Held? {
      assert Enabled(t, Move(t.lk.p));
    } else if t.pc[p].Asleep? {
      assert Owns(t.pc[t.pid - 1]) && Enabled(t, Move(t.pid - 1));
    } else {
      assert Enabled(t, Move(p));
    }
  }

  // No deadlock between lk->lk and ptable.lock: while some process is using the lock, the next
  // step of some such process is enabled, if need be once the rest of the kernel has released
  // ptable.lock, as it can.
  lemma NoDeadlock(n: nat, actions: seq<Action>, t: State, p: nat)
    requires Run(Init(n), actions, t) && p < |t.pc| && !t.pc[p].Outside?
    ensures if t.ptable.ByOthers? then Enabled(t, OthersRelease) && SomeMove(Step(t, OthersRelease)) else SomeMove(t)
  {
    RunKeeps(Init(n), actions, t);
    if t.ptable.ByOthers? {
      StepKeeps(t, OthersRelease);
      MoveOrWait(Step(t, OthersRelease), p);
    } else {
      MoveOrWait(t, p);
    }
  }
}
