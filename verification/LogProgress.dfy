/** The log never gets stuck: from every reachable state that has not panicked, with no crash,
    the open operations can end and be committed, after which begin_op admits the next one. */
module LogProgress {
  import opened Log
  import opened LogDevice
  import opened GroupCommit

  ghost predicate NoCrash(actions: seq<Action>) {
    forall i :: 0 <= i < |actions| ==> !actions[i].Crash?
  }

  lemma Extend(s: State, actions: seq<Action>, u: State, a: Action)
    requires Run(s, actions, u) && Enabled(u, a) && NoCrash(actions) && !a.Crash?
    ensures Run(s, actions + [a], Step(u, a)) && NoCrash(actions + [a])
  {
    var all := actions + [a];
    assert all[..|all| - 1] == actions && all[|all| - 1] == a;
  }

  // The next step towards an idle log.
  function Onwards(s: State): Action
    requires Sane(s)
  {
    if s.phase.Running? then End(0)
    else if s.phase.done < |Script(s)| then DiskWrite
    else if s.phase.Committing? then CommitDone
    else RecoverDone
  }

  ghost predicate Settled(s: State) {
    s.phase.Running? && s.ops == []
  }

  lemma OnwardsEnabled(s: State, init: Disk)
    requires Inv(s, init) && s.failure.NoFailure? && !Settled(s)
    ensures Enabled(s, Onwards(s))
    ensures var t := Step(s, Onwards(s)); t.failure.NoFailure? && t.events == s.events
  {
  }

  function Rank(s: State): nat {
    if s.phase.Running? then 0 else 1
  }

  ghost function Left(s: State): int
    requires Sane(s)
  {
    |Script(s)| - Done(s)
  }

  lemma OnwardsCloser(s: State, init: Disk)
    requires Inv(s, init) && !Settled(s) && Enabled(s, Onwards(s))
    ensures var t := Step(s, Onwards(s));
            && Inv(t, init)
            && (|t.ops| < |s.ops| || (t.ops == s.ops && (Rank(t) < Rank(s) || (Rank(t) == Rank(s) && 0 <= Left(t) < Left(s)))))
  {
    StepKeeps(s, init, Onwards(s));
  }

  lemma SettledOk(s: State, init: Disk)
    requires Inv(s, init) && s.failure.NoFailure? && Settled(s)
    ensures s.lh == [] && s.durable == |s.events| && Enabled(s, Begin)
  {
  }

  lemma {:induction false} CanSettle(s: State, init: Disk, before: seq<Action>, u: State)
    returns (actions: seq<Action>, t: State)
    requires Run(s, before, u) && Inv(u, init) && u.failure.NoFailure? && NoCrash(before)
    ensures Run(s, actions, t) && Inv(t, init) && t.failure.NoFailure? && Settled(t) && NoCrash(actions)
    ensures t.events == u.events
    decreases |u.ops|, Rank(u), Left(u)
  {
    if Settled(u) {
      actions, t := before, u;
    } else {
      var a := Onwards(u);
      OnwardsEnabled(u, init);
      OnwardsCloser(u, init);
      Extend(s, before, u, a);
      actions, t := CanSettle(s, init, before + [a], Step(u, a));
    }
  }

  // In every run: whatever is open or half written now can be finished, after which everything
  // logged so far is durable and the next operation is admitted.
  lemma AlwaysFinishes(g: Geometry, d: Disk, before: seq<Action>, s: State) returns (actions: seq<Action>, t: State)
    requires ValidDisk(g, d) && Run(Boot(g, d), before, s) && s.failure.NoFailure?
    ensures Run(s, actions, t) && NoCrash(actions)
    ensures t.phase.Running? && t.ops == [] && t.lh == [] && t.failure.NoFailure?
    ensures t.events == s.events && t.durable == |t.events| && Enabled(t, Begin)
  {
    BootOk(g, d);
    RunKeeps(Boot(g, d), Recover(g, d), before, s);
    assert Run(s, [], s);
    actions, t := CanSettle(s, Recover(g, d), [], s);
    SettledOk(t, Recover(g, d));
  }
}
