/** What acquiresleep is for: over every run, a process that has entered it comes out with the
    lock, and from every reachable state each process on its way in can still get the lock. */
module SleepLockRuns {
  import opened SleepLock

  // ----- The order of events for one process

  predicate Entering(c: Pc) {
    c.Acquire? || c.Check? || c.SleepEnter? || c.SleepDrop? || c.SleepMark? || c.Asleep? || c.Woken? || c.Tidy? || c.Reacquire?
  }

  predicate Leaving(c: Pc) {
    c.Release? || c.Unlock? || c.WakeEnter? || c.Wake? || c.WakeLeave? || c.Leave?
  }

  // Outside, in acquiresleep, inside, in releasesleep, outside: never skipping one.
  predicate InOrder(c: Pc, d: Pc) {
    || (c.Outside? && (d.Outside? || Entering(d)))
    || (Entering(c) && (Entering(d) || d.Inside?))
    || (c.Inside? && (d.Inside? || Leaving(d)))
    || (Leaving(c) && (Leaving(d) || d.Outside?))
  }

  lemma StepInOrder(s: State, a: Action, p: nat)
    requires Enabled(s, a) && p < |s.pc|
    ensures |Step(s, a).pc| == |s.pc| && InOrder(s.pc[p], Step(s, a).pc[p])
    ensures a == Kill(p) ==> Enabled(Step(Step(s, a), OthersRelease), Move(p))
  {
  }

  // u lies on the run from s to t.
  ghost predicate Passes(s: State, actions: seq<Action>, t: State, i: nat, u: State) {
    i <= |actions| && Run(s, actions[..i], u) && Run(u, actions[i..], t)
  }

  lemma RunExtend(s: State, actions: seq<Action>, u: State, a: Action)
    requires Run(s, actions, u) && Enabled(u, a)
    ensures Run(s, actions + [a], Step(u, a))
  {
    var all := actions + [a];
    assert all[..|all| - 1] == actions && all[|all| - 1] == a;
  }

  lemma {:induction false} RunJoin(s: State, xs: seq<Action>, u: State, ys: seq<Action>, t: State)
    requires Run(s, xs, u) && Run(u, ys, t)
    ensures Run(s, xs + ys, t)
    decreases |ys|
  {
    if ys == [] {
      assert xs + ys == xs;
    } else {
      var prefix, a := ys[..|ys| - 1], ys[|ys| - 1];
      var v :| Run(u, prefix, v) && Enabled(v, a) && t == Step(v, a);
      RunJoin(s, xs, u, prefix, v);
      RunExtend(s, xs + prefix, v, a);
      assert xs + ys == (xs + prefix) + [a];
    }
  }

  lemma PassesExtend(s: State, actions: seq<Action>, u: State, a: Action, i: nat, v: State)
    requires Passes(s, actions, u, i, v) && Enabled(u, a)
    ensures Passes(s, actions + [a], Step(u, a), i, v)
  {
    var all := actions + [a];
    RunExtend(v, actions[i..], u, a);
    assert all[..i] == actions[..i] && all[i..] == actions[i..] + [a];
  }

  lemma PassesLast(s: State, actions: seq<Action>, t: State)
    requires Run(s, actions, t)
    ensures Passes(s, actions, t, |actions|, t)
  {
    assert actions[..|actions|] == actions && actions[|actions|..] == [];
  }

  // In every run: a process that was in acquiresleep and is not any more has been inside.
  lemma {:induction false} OnlyThroughInside(s: State, actions: seq<Action>, t: State, p: nat) returns (i: nat, u: State)
    requires Run(s, actions, t) && p < |s.pc| && Entering(s.pc[p])
    ensures |t.pc| == |s.pc|
    ensures !Entering(t.pc[p]) ==> Passes(s, actions, t, i, u) && p < |u.pc| && u.pc[p].Inside?
    decreases |actions|
  {
    if actions == [] {
      i, u := 0, s;
    } else {
      var prefix, a := actions[..|actions| - 1], actions[|actions| - 1];
      var v :| Run(s, prefix, v) && Enabled(v, a) && t == Step(v, a);
      i, u := OnlyThroughInside(s, prefix, v, p);
      StepInOrder(v, a, p);
      assert actions == prefix + [a];
      if !Entering(v.pc[p]) {
        PassesExtend(s, prefix, v, a, i, u);
      } else if !Entering(t.pc[p]) {
        PassesLast(s, actions, t);
        i, u := |actions|, t;
      }
    }
  }

  // ----- Everybody can get in

  // How far a process other than the one that is helped is from being out of the way, when it
  // is moved only while it has one of the locks.
  function Distance(c: Pc): nat {
    match c
    case Check => 60
    case Inside => 24
    case Release => 23
    case Unlock => 22
    case WakeEnter => 21
    case Wake => 20
    case WakeLeave => 4
    case Leave => 3
    case SleepEnter => 4
    case SleepDrop => 3
    case SleepMark => 2
    case Tidy => 1
    case _ => 0
  }

  // How far the one that is helped is from being inside.
  function OwnDistance(c: Pc, locked: bool): nat {
    match c
    case Acquire => if locked then 15 else 2
    case Reacquire => if locked then 15 else 2
    case Check => if locked then 14 else 1
    case SleepEnter => 13
    case SleepDrop => 12
    case SleepMark => 11
    case Asleep => 9
    case Woken => if locked then 17 else 4
    case Tidy => if locked then 16 else 3
    case _ => 0
  }

  function Others(pc: seq<Pc>, p: nat): nat {
    if pc == [] then 0
    else
      var q := |pc| - 1;
      Others(pc[..q], p) + if q == p then 0 else Distance(pc[q])
  }

  function Measure(s: State, p: nat): nat
    requires p < |s.pc|
  {
    Others(s.pc, p) + OwnDistance(s.pc[p], s.locked) + if s.ptable.ByOthers? then 1 else 0
  }

  lemma {:induction false} OthersUpdate(pc: seq<Pc>, p: nat, q: nat, c: Pc)
    requires q < |pc|
    ensures Others(pc[q := c], p) == Others(pc, p) + if q == p then 0 else Distance(c) - Distance(pc[q])
    decreases |pc|
  {
    var n := |pc| - 1;
    if q < n {
      OthersUpdate(pc[..n], p, q, c);
      assert pc[q := c][..n] == pc[..n][q := c];
    } else {
      assert pc[q := c][..n] == pc[..n];
    }
  }

  lemma {:induction false} OthersWoken(pc: seq<Pc>, p: nat)
    ensures Others(Wakeup1(pc), p) == Others(pc, p)
    decreases |pc|
  {
    if pc != [] {
      var n := |pc| - 1;
      OthersWoken(pc[..n], p);
      assert Wakeup1(pc)[..n] == Wakeup1(pc[..n]);
    }
  }

  // Who should move so that p gets in: whoever has ptable.lock, else whoever has lk->lk, else
  // the owner, else p.
  function Help(s: State, p: nat): Action {
    if s.ptable.ByOthers? then OthersRelease
    else if s.ptable.Held? then Move(s.ptable.p)
    else if s.lk.Held? then Move(s.lk.p)
    else if s.locked && s.pid > 0 then Move(s.pid - 1)
    else Move(p)
  }

  lemma HelpEnabled(s: State, p: nat)
    requires Inv(s) && p < |s.pc| && Entering(s.pc[p])
    ensures Enabled(s, Help(s, p))
    ensures var a := Help(s, p); a.Move? && a.p != p ==> HoldsPtable(s.pc[a.p]) || HoldsLk(s.pc[a.p]) || Owns(s.pc[a.p])
  {
    if s.ptable.Free? && s.lk.Free? && !s.locked {
      assert !HoldsLk(s.pc[p]) && !HoldsPtable(s.pc[p]);
      assert !Sleepy(s.pc[p]);
    }
  }

  lemma PlainOthers(s: State, p: nat, q: nat)
    requires p < |s.pc| && Enabled(s, Move(q)) && !s.pc[q].Wake?
    ensures var t := Step(s, Move(q));
            |t.pc| == |s.pc| && t.pc == s.pc[q := t.pc[q]]
            && Others(t.pc, p) == Others(s.pc, p) + if q == p then 0 else Distance(t.pc[q]) - Distance(s.pc[q])
  {
    OthersUpdate(s.pc, p, q, Step(s, Move(q)).pc[q]);
  }

  lemma WakeOthers(s: State, p: nat, q: nat)
    requires p < |s.pc| && Enabled(s, Move(q)) && s.pc[q].Wake? && q != p
    ensures var t := Step(s, Move(q));
            |t.pc| == |s.pc| && Others(t.pc, p) == Others(s.pc, p) - 16
            && t.pc[p] == (if s.pc[p].Asleep? then Woken else s.pc[p])
            && t.locked == s.locked && t.ptable == s.ptable
  {
    var woken := Wakeup1(s.pc);
    OthersWoken(s.pc, p);
    OthersUpdate(woken, p, q, WakeLeave);
  }

  predicate Closer(s: State, t: State, p: nat) {
    p < |s.pc| == |t.pc| && (t.pc[p].Inside? || (Entering(t.pc[p]) && Measure(t, p) < Measure(s, p)))
  }

  lemma OwnMove(s: State, p: nat)
    requires Enabled(s, Move(p)) && Entering(s.pc[p]) && s.ptable != ByOthers
    requires s.locked ==> HoldsLk(s.pc[p]) || HoldsPtable(s.pc[p])
    ensures Closer(s, Step(s, Move(p)), p)
  {
    PlainOthers(s, p, p);
  }

  lemma OtherMove(s: State, p: nat, q: nat)
    requires p < |s.pc| && q != p && Enabled(s, Move(q)) && !s.pc[q].Wake? && Entering(s.pc[p]) && s.ptable != ByOthers
    requires HoldsPtable(s.pc[q]) || HoldsLk(s.pc[q]) || Owns(s.pc[q])
    ensures Closer(s, Step(s, Move(q)), p)
  {
    PlainOthers(s, p, q);
  }

  lemma HelpCloser(s: State, p: nat)
    requires Inv(s) && p < |s.pc| && Entering(s.pc[p]) && Enabled(s, Help(s, p))
    ensures Closer(s, Step(s, Help(s, p)), p)
  {
    HelpEnabled(s, p);
    var a := Help(s, p);
    if a.Move? {
      if a.p == p {
        OwnMove(s, p);
      } else if s.pc[a.p].Wake? {
        WakeOthers(s, p, a.p);
      } else {
        OtherMove(s, p, a.p);
      }
    }
  }

  // From every state of the invariant, so from every reachable one, there is a way for each
  // process in acquiresleep to come out with the lock.
  lemma {:induction false} CanEnter(s: State, p: nat) returns (actions: seq<Action>, t: State)
    requires Inv(s) && p < |s.pc| && Entering(s.pc[p])
    ensures Run(s, actions, t) && |t.pc| == |s.pc| && t.pc[p].Inside? && t.locked && t.pid == p + 1
    decreases Measure(s, p)
  {
    var a := Help(s, p);
    HelpEnabled(s, p);
    HelpCloser(s, p);
    StepKeeps(s, a);
    t := Step(s, a);
    RunExtend(s, [], s, a);
    if t.pc[p].Inside? {
      actions := [a];
      assert Owns(t.pc[p]);
    } else {
      var rest;
      var u := t;
      rest, t := CanEnter(u, p);
      RunJoin(s, [a], u, rest, t);
      actions := [a] + rest;
    }
  }

  // ... in every run.
  lemma NobodyShutOut(n: nat, before: seq<Action>, s: State, p: nat) returns (actions: seq<Action>, t: State)
    requires Run(Init(n), before, s) && p < |s.pc| && Entering(s.pc[p])
    ensures Run(s, actions, t) && |t.pc| == |s.pc| && t.pc[p].Inside? && t.locked && t.pid == p + 1
  {
    RunKeeps(Init(n), before, s);
    actions, t := CanEnter(s, p);
  }

  // ----- A hand-over

  lemma Go(n: nat, actions: seq<Action>, s: State, p: nat) returns (more: seq<Action>, t: State)
    requires Run(Init(n), actions, s) && Enabled(s, Move(p))
    ensures t == Step(s, Move(p)) && Run(Init(n), more, t)
  {
    RunExtend(Init(n), actions, s, Move(p));
    more, t := actions + [Move(p)], Step(s, Move(p));
  }

  // Two processes: the second sleeps while the first is inside, and then has the lock itself.
  lemma HandOver() returns (before: seq<Action>, s: State, after: seq<Action>, t: State)
    ensures Run(Init(2), before, s) && s.pc == [Inside, Asleep] && s.locked && s.pid == 1
    ensures Run(s, after, t) && |t.pc| == 2 && t.pc[1].Inside? && t.locked && t.pid == 2
  {
    before, s := Go(2, [], Init(2), 0);
    before, s := Go(2, before, s, 0);
    before, s := Go(2, before, s, 0);
    before, s := Go(2, before, s, 1);
    before, s := Go(2, before, s, 1);
    before, s := Go(2, before, s, 1);
    before, s := Go(2, before, s, 1);
    before, s := Go(2, before, s, 1);
    before, s := Go(2, before, s, 1);
    after, t := NobodyShutOut(2, before, s, 1);
  }
}
