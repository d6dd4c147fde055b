/** begin_op's reservation against the guard in log_write. An operation may be held to
    MAXOPBLOCKS distinct blocks or to MAXOPBLOCKS calls of log_write. Either way the listed
    blocks and the unused budgets always fit in LOGSIZE. The guard looks at the length of
    the list before it looks for the block in it, so it agrees with the reservation only
    for the budget that counts calls, and only on a log of more than LOGSIZE blocks. */
module Reservation {
  import opened Params
  import opened Log
  import opened LogDevice
  import opened GroupCommit

  // ----- Budgets

  // What an operation may log MAXOPBLOCKS of.
  datatype Budget = Blocks | Calls

  function Spent(k: Budget, op: Op): nat {
    match k
    case Blocks => |op.blocks|
    case Calls => op.calls
  }

  // What the running operations may still log.
  function Unused(k: Budget, ops: seq<Op>): int {
    if ops == [] then 0 else MAXOPBLOCKS - Spent(k, ops[0]) + Unused(k, ops[1..])
  }

  // The caller's side: no operation exceeds its budget.
  predicate Budgeted(k: Budget, s: State, a: Action) {
    a.LogWrite? && a.i < |s.ops| ==> Spent(k, Charged(s.ops[a.i], a.b)) <= MAXOPBLOCKS
  }

  ghost predicate BudgetedRun(k: Budget, s: State, actions: seq<Action>, t: State)
    decreases |actions|
  {
    if actions == [] then s == t
    else
      var prefix, a := actions[..|actions| - 1], actions[|actions| - 1];
      exists u :: BudgetedRun(k, s, prefix, u) && Budgeted(k, u, a) && Next(u, a, t)
  }

  ghost predicate WithinBudget(k: Budget, s: State) {
    forall i :: 0 <= i < |s.ops| ==> Spent(k, s.ops[i]) <= MAXOPBLOCKS && OwnListed(s.lh, s.ops[i])
  }

  ghost predicate OwnListed(lh: seq<nat>, op: Op) {
    forall b :: b in op.blocks ==> b in lh
  }

  ghost predicate Reserved(k: Budget, s: State) {
    |s.lh| + Unused(k, s.ops) <= LOGSIZE && WithinBudget(k, s)
  }

  // ----- Sums of unused budgets

  lemma {:induction false} UnusedConcat(k: Budget, a: seq<Op>, b: seq<Op>)
    ensures Unused(k, a + b) == Unused(k, a) + Unused(k, b)
  {
    if a == [] {
      assert a + b == b;
    } else {
      assert (a + b)[1..] == a[1..] + b;
      UnusedConcat(k, a[1..], b);
    }
  }

  lemma UnusedOne(k: Budget, op: Op)
    ensures Unused(k, [op]) == MAXOPBLOCKS - Spent(k, op)
  {
    assert [op][1..] == [];
  }

  lemma UnusedAt(k: Budget, ops: seq<Op>, i: nat, op: Op)
    requires i < |ops|
    ensures Unused(k, ops) == Unused(k, ops[..i]) + MAXOPBLOCKS - Spent(k, ops[i]) + Unused(k, ops[i + 1..])
    ensures Unused(k, ops[..i] + ops[i + 1..]) == Unused(k, ops) - MAXOPBLOCKS + Spent(k, ops[i])
    ensures Unused(k, ops[i := op]) == Unused(k, ops) + Spent(k, ops[i]) - Spent(k, op)
  {
    assert ops == ops[..i] + ops[i..] && ops[i..][1..] == ops[i + 1..];
    UnusedConcat(k, ops[..i], ops[i..]);
    UnusedConcat(k, ops[..i], ops[i + 1..]);
    var tail := [op] + ops[i + 1..];
    assert ops[i := op] == ops[..i] + tail && tail[1..] == ops[i + 1..];
    UnusedConcat(k, ops[..i], tail);
  }

  lemma {:induction false} UnusedBound(k: Budget, ops: seq<Op>)
    ensures Unused(k, ops) <= |ops| * MAXOPBLOCKS
  {
    if ops != [] {
      UnusedBound(k, ops[1..]);
    }
  }

  lemma {:induction false} UnusedNonNegative(k: Budget, ops: seq<Op>)
    requires forall i :: 0 <= i < |ops| ==> Spent(k, ops[i]) <= MAXOPBLOCKS
    ensures Unused(k, ops) >= 0
  {
    if ops != [] {
      UnusedNonNegative(k, ops[1..]);
    }
  }

  lemma UnusedPositive(k: Budget, ops: seq<Op>, i: nat)
    requires i < |ops| && Spent(k, ops[i]) < MAXOPBLOCKS
    requires forall j :: 0 <= j < |ops| ==> Spent(k, ops[j]) <= MAXOPBLOCKS
    ensures Unused(k, ops) >= 1
  {
    UnusedAt(k, ops, i, ops[i]);
    UnusedNonNegative(k, ops[..i]);
    UnusedNonNegative(k, ops[i + 1..]);
  }

  // ----- Every step keeps the reservation

  // Logging b costs the operation at least as much as it lengthens the list.
  lemma ChargedCost(k: Budget, s: State, op: Op, b: nat)
    requires OwnListed(s.lh, op)
    ensures Spent(k, Charged(op, b)) >= Spent(k, op) + |Absorb(s.lh, b)| - |s.lh|
    ensures OwnListed(Absorb(s.lh, b), Charged(op, b))
  {
    if b in op.blocks {
      assert op.blocks + {b} == op.blocks;
    }
  }

  lemma ReservedLogWrite(k: Budget, s: State, i: nat, b: nat, data: Block)
    requires Reserved(k, s) && i < |s.ops| && b < |s.cache|
    requires Spent(k, Charged(s.ops[i], b)) <= MAXOPBLOCKS
    ensures Reserved(k, LogWriteStep(s, i, b, data))
  {
    var t := LogWriteStep(s, i, b, data);
    if t.failure == s.failure && t != s {
      ChargedCost(k, s, s.ops[i], b);
      UnusedAt(k, s.ops, i, Charged(s.ops[i], b));
      forall j | 0 <= j < |t.ops| ensures Spent(k, t.ops[j]) <= MAXOPBLOCKS && OwnListed(t.lh, t.ops[j]) {
        assert j != i ==> t.ops[j] == s.ops[j];
      }
    }
  }

  lemma ReservedBegin(k: Budget, s: State)
    requires Reserved(k, s) && Enabled(s, Begin) && s.outstanding == |s.ops|
    ensures Reserved(k, Step(s, Begin))
  {
    var op := Op(s.nextOp, {}, 0);
    UnusedBound(k, s.ops);
    UnusedConcat(k, s.ops, [op]);
    UnusedOne(k, op);
  }

  lemma ReservedEnd(k: Budget, s: State, i: nat)
    requires Reserved(k, s) && i < |s.ops|
    ensures Reserved(k, EndStep(s, i))
  {
    var t := EndStep(s, i);
    UnusedAt(k, s.ops, i, s.ops[i]);
    if !s.phase.Committing? {
      assert forall j :: 0 <= j < |t.ops| ==> t.ops[j] == s.ops[if j < i then j else j + 1];
    }
  }

  lemma ReservedStep(k: Budget, s: State, a: Action)
    requires OpsOk(s) && Reserved(k, s) && Enabled(s, a) && Budgeted(k, s, a)
    ensures Reserved(k, Step(s, a))
  {
    match a
    case Begin => ReservedBegin(k, s);
    case LogWrite(i, b, data) => ReservedLogWrite(k, s, i, b, data);
    case End(i) => ReservedEnd(k, s, i);
    case DiskWrite =>
    case CommitDone => UnusedNonNegative(k, s.ops);
    case Crash =>
    case RecoverDone =>
  }

  lemma {:induction false} BudgetedRunKeeps(k: Budget, s: State, init: Disk, actions: seq<Action>, t: State)
    requires Inv(s, init) && Reserved(k, s) && BudgetedRun(k, s, actions, t)
    ensures Inv(t, init) && Reserved(k, t) && t.g == s.g
    decreases |actions|
  {
    if actions != [] {
      var prefix, a := actions[..|actions| - 1], actions[|actions| - 1];
      var u :| BudgetedRun(k, s, prefix, u) && Budgeted(k, u, a) && Next(u, a, t);
      BudgetedRunKeeps(k, s, init, prefix, u);
      StepKeeps(u, init, a);
      ReservedStep(k, u, a);
    }
  }

  // The reservation, in every reachable state and for either budget: the listed blocks and
  // all unused budgets fit, so a block that an operation still may log has a place.
  lemma ReservationHolds(k: Budget, g: Geometry, d: Disk, actions: seq<Action>, t: State)
    requires ValidDisk(g, d) && BudgetedRun(k, Boot(g, d), actions, t)
    ensures 0 <= Unused(k, t.ops) <= LOGSIZE - |t.lh|
    ensures forall i, b :: 0 <= i < |t.ops| && b !in t.lh && Spent(k, Charged(t.ops[i], b)) <= MAXOPBLOCKS ==> |t.lh| < LOGSIZE
  {
    BootOk(g, d);
    BudgetedRunKeeps(k, Boot(g, d), Recover(g, d), actions, t);
    UnusedNonNegative(k, t.ops);
    forall i, b | 0 <= i < |t.ops| && b !in t.lh && Spent(k, Charged(t.ops[i], b)) <= MAXOPBLOCKS ensures |t.lh| < LOGSIZE {
      ChargedCost(k, t, t.ops[i], b);
      UnusedPositive(k, t.ops, i);
    }
  }

  // ----- When the guard stops a write

  // Within a budget of distinct blocks, on a log of more than LOGSIZE blocks: exactly the
  // rewriting of a listed block while the list is full.
  lemma GuardStops(g: Geometry, d: Disk, actions: seq<Action>, t: State, i: nat, b: nat, data: Block)
    requires ValidDisk(g, d) && g.size > LOGSIZE && BudgetedRun(Blocks, Boot(g, d), actions, t)
    requires Enabled(t, LogWrite(i, b, data)) && Budgeted(Blocks, t, LogWrite(i, b, data))
    ensures Step(t, LogWrite(i, b, data)).failure.TooBig? <==> |t.lh| == LOGSIZE && b in t.lh
  {
    RunInv(Blocks, g, d, actions, t);
    ReservationHolds(Blocks, g, d, actions, t);
  }

  lemma CallsLeft(g: Geometry, d: Disk, actions: seq<Action>, t: State, i: nat)
    requires ValidDisk(g, d) && BudgetedRun(Calls, Boot(g, d), actions, t)
    requires i < |t.ops| && t.ops[i].calls < MAXOPBLOCKS
    ensures |t.lh| < LOGSIZE
  {
    BootOk(g, d);
    BudgetedRunKeeps(Calls, Boot(g, d), Recover(g, d), actions, t);
    UnusedPositive(Calls, t.ops, i);
  }

  // Within a budget of calls, on such a log: never.
  lemma CallsNeverStopped(g: Geometry, d: Disk, actions: seq<Action>, t: State)
    requires ValidDisk(g, d) && g.size > LOGSIZE && BudgetedRun(Calls, Boot(g, d), actions, t)
    ensures !t.failure.TooBig?
    decreases |actions|
  {
    if actions != [] {
      var prefix, a := actions[..|actions| - 1], actions[|actions| - 1];
      var u :| BudgetedRun(Calls, Boot(g, d), prefix, u) && Budgeted(Calls, u, a) && Next(u, a, t);
      CallsNeverStopped(g, d, prefix, u);
      RunInv(Calls, g, d, prefix, u);
      TooBigBy(u, a);
      if a.LogWrite? {
        CallsLeft(g, d, prefix, u, a.i);
      }
    }
  }

  // How many blocks the guard lets the list hold, and how many home blocks there are.
  function Room(g: Geometry): int {
    if g.size - 1 < LOGSIZE then g.size - 1 else LOGSIZE
  }

  function HomeCount(g: Geometry, d: Disk): int {
    |d| - g.size
  }

  // The guard can fire at all only with enough blocks to fill the list, and one to write.
  predicate CanFill(g: Geometry, d: Disk) {
    HomeCount(g, d) >= Room(g) && HomeCount(g, d) > 0
  }

  lemma {:induction false} DistinctBelow(xs: seq<nat>, n: nat)
    requires Distinct(xs) && forall i :: 0 <= i < |xs| ==> xs[i] < n
    ensures |xs| <= n
    decreases n
  {
    if |xs| > 0 {
      assert xs[0] < n;
      if i :| 0 <= i < |xs| && xs[i] == n - 1 {
        DistinctBelow(xs[..i] + xs[i + 1..], n - 1);
      } else {
        DistinctBelow(xs, n - 1);
      }
    }
  }

  lemma HomesBound(g: Geometry, d: Disk, lh: seq<nat>)
    requires g.start + g.size <= |d| && Homes(g, d, lh) && Distinct(lh)
    ensures |lh| <= HomeCount(g, d)
  {
    var xs: seq<nat> := seq(|lh|, i requires 0 <= i < |lh| && Home(g, d, lh[i]) => if lh[i] < g.start then lh[i] else lh[i] - g.size);
    DistinctBelow(xs, HomeCount(g, d));
  }

  lemma RunInv(k: Budget, g: Geometry, d: Disk, actions: seq<Action>, t: State)
    requires ValidDisk(g, d) && BudgetedRun(k, Boot(g, d), actions, t)
    ensures Inv(t, Recover(g, d)) && t.g == g && |t.disk| == |d|
  {
    BootOk(g, d);
    BudgetedRunKeeps(k, Boot(g, d), Recover(g, d), actions, t);
  }

  // Only a log_write with a full list panics like this.
  lemma TooBigBy(s: State, a: Action)
    requires Enabled(s, a) && !s.failure.TooBig?
    ensures Step(s, a).failure.TooBig? <==> a.LogWrite? && LogFull(s.g, s.lh)
  {
  }

  lemma NotFull(g: Geometry, d: Disk, lh: seq<nat>, b: nat)
    requires g.start + g.size <= |d| && !CanFill(g, d)
    requires Homes(g, d, lh) && Distinct(lh) && Home(g, d, b)
    ensures !LogFull(g, lh)
  {
    HomesBound(g, d, lh);
    HomesBound(g, d, [b]);
  }

  // Too few home blocks: no run meets the guard, whatever the operations do.
  lemma NeverFilled(k: Budget, g: Geometry, d: Disk, actions: seq<Action>, t: State)
    requires ValidDisk(g, d) && !CanFill(g, d) && BudgetedRun(k, Boot(g, d), actions, t)
    ensures !t.failure.TooBig?
    decreases |actions|
  {
    if actions != [] {
      var prefix, a := actions[..|actions| - 1], actions[|actions| - 1];
      var u :| BudgetedRun(k, Boot(g, d), prefix, u) && Budgeted(k, u, a) && Next(u, a, t);
      NeverFilled(k, g, d, prefix, u);
      RunInv(k, g, d, prefix, u);
      TooBigBy(u, a);
      if a.LogWrite? {
        NotFull(g, u.disk, u.lh, a.b);
      }
    }
  }

  // ----- A run that fills the list

  lemma Extend(k: Budget, s: State, actions: seq<Action>, u: State, a: Action, t: State)
    requires BudgetedRun(k, s, actions, u) && Budgeted(k, u, a) && Next(u, a, t)
    ensures BudgetedRun(k, s, actions + [a], t)
  {
    var all := actions + [a];
    assert all[..|all| - 1] == actions && all[|all| - 1] == a;
  }

  lemma {:induction false} FinishRecovery(k: Budget, s: State, init: Disk, before: seq<Action>, u: State) returns (actions: seq<Action>, t: State)
    requires BudgetedRun(k, s, before, u) && Inv(u, init) && u.phase.Recovering? && u.failure.NoFailure?
    ensures BudgetedRun(k, s, actions, t) && Inv(t, init) && t.g == u.g && |t.disk| == |u.disk|
    ensures t.phase.Running? && t.ops == [] && t.lh == [] && t.failure.NoFailure?
    decreases |Script(u)| - u.phase.done
  {
    var a := if u.phase.done < |Script(u)| then DiskWrite else RecoverDone;
    StepKeeps(u, init, a);
    t := Step(u, a);
    Extend(k, s, before, u, a, t);
    actions := before + [a];
    if a.DiskWrite? {
      actions, t := FinishRecovery(k, s, init, actions, t);
    }
  }

  // The i-th block outside the log.
  function HomeBlock(g: Geometry, i: nat): nat {
    if i < g.start then i else i + g.size
  }

  // What operation j has logged when several together have logged n blocks, ten each.
  function Share(n: nat, j: nat): nat {
    if n < 10 * j then 0 else if n < 10 * j + 10 then n - 10 * j else 10
  }

  // m operations together have logged the first n home blocks, each of them once.
  ghost predicate Filled(s: State, m: nat, n: nat) {
    && s.phase.Running? && s.failure.NoFailure?
    && s.lh == seq(n, i requires 0 <= i => HomeBlock(s.g, i))
    && |s.ops| == m
    && (forall j :: 0 <= j < m ==> |s.ops[j].blocks| <= s.ops[j].calls == Share(n, j))
    && (n > 0 && m > 0 ==> HomeBlock(s.g, 0) in s.ops[0].blocks)
  }

  ghost predicate Idle(s: State, n: nat) {
    && s.phase.Running? && s.failure.NoFailure? && s.lh == [] && |s.ops| == n
    && forall j :: 0 <= j < n ==> s.ops[j].blocks == {} && s.ops[j].calls == 0
  }

  lemma OneBegin(k: Budget, s: State, init: Disk, before: seq<Action>, u: State) returns (actions: seq<Action>, t: State)
    requires BudgetedRun(k, s, before, u) && Inv(u, init) && |u.ops| < 3 && Idle(u, |u.ops|)
    ensures BudgetedRun(k, s, actions, t) && Inv(t, init) && Idle(t, |u.ops| + 1) && t.g == u.g && t.disk == u.disk
  {
    StepKeeps(u, init, Begin);
    t := Step(u, Begin);
    Extend(k, s, before, u, Begin, t);
    actions := before + [Begin];
  }

  lemma IdleFilled(s: State, m: nat)
    requires Idle(s, m)
    ensures Filled(s, m, 0)
  {
  }

  lemma Begins(k: Budget, s: State, init: Disk, m: nat, before: seq<Action>, u: State) returns (actions: seq<Action>, t: State)
    requires BudgetedRun(k, s, before, u) && m <= 3
    requires Inv(u, init) && u.phase.Running? && u.ops == [] && u.lh == [] && u.failure.NoFailure?
    ensures BudgetedRun(k, s, actions, t) && Inv(t, init) && Filled(t, m, 0) && t.g == u.g && t.disk == u.disk
  {
    actions, t := before, u;
    for i := 0 to m
      invariant BudgetedRun(k, s, actions, t) && Inv(t, init) && Idle(t, i) && t.g == u.g && t.disk == u.disk
    {
      actions, t := OneBegin(k, s, init, actions, t);
    }
    IdleFilled(t, m);
  }

  lemma Fill(k: Budget, s: State, init: Disk, data: Block, m: nat, n: nat, before: seq<Action>, u: State) returns (actions: seq<Action>, t: State)
    requires BudgetedRun(k, s, before, u) && Inv(u, init) && Filled(u, m, 0)
    requires n <= 10 * m && n <= Room(u.g) && n <= HomeCount(u.g, u.disk)
    ensures BudgetedRun(k, s, actions, t) && Inv(t, init) && Filled(t, m, n) && t.g == u.g && t.disk == u.disk
  {
    actions, t := before, u;
    for i := 0 to n
      invariant BudgetedRun(k, s, actions, t) && Inv(t, init)
      invariant Filled(t, m, i) && t.g == u.g && t.disk == u.disk
    {
      var a := LogWrite(i / 10, HomeBlock(t.g, i), data);
      FillOne(k, t, init, data, m, i);
      Extend(k, s, actions, t, a, Step(t, a));
      actions, t := actions + [a], Step(t, a);
    }
  }

  lemma FillOne(k: Budget, s: State, init: Disk, data: Block, m: nat, n: nat)
    requires Inv(s, init) && Filled(s, m, n) && n < 10 * m && n < Room(s.g) && n < HomeCount(s.g, s.disk)
    ensures var a := LogWrite(n / 10, HomeBlock(s.g, n), data);
            && Enabled(s, a) && Budgeted(k, s, a)
            && Inv(Step(s, a), init) && Filled(Step(s, a), m, n + 1)
            && Step(s, a).g == s.g && Step(s, a).disk == s.disk
  {
    var i, b := n / 10, HomeBlock(s.g, n);
    assert s.ops[i].calls == Share(n, i) < 10;
    StepKeeps(s, init, LogWrite(i, b, data));
    FilledNext(s, data, m, n);
  }

  lemma FilledNext(s: State, data: Block, m: nat, n: nat)
    requires Filled(s, m, n) && s.outstanding == m && n < 10 * m
    requires n < LOGSIZE && n < s.g.size - 1 && HomeBlock(s.g, n) < |s.cache|
    ensures Filled(LogWriteStep(s, n / 10, HomeBlock(s.g, n), data), m, n + 1)
  {
    var i, b := n / 10, HomeBlock(s.g, n);
    var t := LogWriteStep(s, i, b, data);
    assert b !in s.lh;
    assert t.lh == seq(n + 1, x requires 0 <= x => HomeBlock(s.g, x));
  }

  // The list is full and somebody has budget left for the first home block again.
  lemma FullStops(k: Budget, s: State, init: Disk, data: Block)
    requires Inv(s, init) && Room(s.g) >= 0 && Filled(s, 3, Room(s.g))
    requires HomeCount(s.g, s.disk) > 0 && (k.Calls? ==> s.g.size <= LOGSIZE)
    ensures var i := if k.Blocks? then 0 else Room(s.g) / 10;
            var a := LogWrite(i, HomeBlock(s.g, 0), data);
            Enabled(s, a) && Budgeted(k, s, a) && Step(s, a).failure.TooBig?
  {
    var n, b := Room(s.g), HomeBlock(s.g, 0);
    match k
    case Blocks =>
      if n > 0 {
        assert s.ops[0].blocks + {b} == s.ops[0].blocks;
      }
    case Calls =>
      assert s.ops[n / 10].calls == Share(n, n / 10) < 10;
  }

  // Three operations fill the list and one of them goes on: with a budget of distinct
  // blocks on a log of any size, with a budget of calls on a log of at most LOGSIZE blocks.
  lemma GuardFires(k: Budget, g: Geometry, d: Disk) returns (actions: seq<Action>, t: State)
    requires ValidDisk(g, d) && CanFill(g, d) && (k.Calls? ==> g.size <= LOGSIZE)
    ensures BudgetedRun(k, Boot(g, d), actions, t) && t.failure.TooBig?
  {
    var s, init, data := Boot(g, d), Recover(g, d), d[0];
    BootOk(g, d);
    actions, t := FinishRecovery(k, s, init, [], s);
    actions, t := Begins(k, s, init, 3, actions, t);
    actions, t := Fill(k, s, init, data, 3, Room(g), actions, t);
    FullStops(k, t, init, data);
    var a := LogWrite(if k.Blocks? then 0 else Room(g) / 10, HomeBlock(g, 0), data);
    Extend(k, s, actions, t, a, Step(t, a));
    actions, t := actions + [a], Step(t, a);
  }

  // ----- begin_op refuses only what might not fit

  ghost predicate AllWithin(k: Budget, ops: seq<Op>) {
    forall i :: 0 <= i < |ops| ==> Spent(k, ops[i]) <= MAXOPBLOCKS
  }

  // Whatever within their budgets the running operations have logged, one more fits.
  ghost predicate OneMoreFits(k: Budget, lh: seq<nat>, running: nat) {
    forall ops, id :: |ops| == running && AllWithin(k, ops) ==> |lh| + Unused(k, ops + [Op(id, {}, 0)]) <= LOGSIZE
  }

  function NewOps(n: nat): (ops: seq<Op>)
    ensures |ops| == n
  {
    seq(n, _ => Op(0, {}, 0))
  }

  lemma {:induction false} UnusedNew(k: Budget, n: nat)
    ensures Unused(k, NewOps(n)) == n * MAXOPBLOCKS && AllWithin(k, NewOps(n))
  {
    if n > 0 {
      UnusedNew(k, n - 1);
      assert NewOps(n)[1..] == NewOps(n - 1);
    }
  }

  // begin_op admits an operation if and only if all that it and the running ones may still log
  // is sure to have a place.
  lemma AdmitsExactly(k: Budget, lh: seq<nat>, running: nat)
    ensures Admits(lh, running) <==> OneMoreFits(k, lh, running)
  {
    forall ops, id | |ops| == running && AllWithin(k, ops)
      ensures Unused(k, ops + [Op(id, {}, 0)]) <= (running + 1) * MAXOPBLOCKS
    {
      UnusedBound(k, ops + [Op(id, {}, 0)]);
    }
    var worst := NewOps(running);
    UnusedNew(k, running);
    UnusedConcat(k, worst, [Op(0, {}, 0)]);
    UnusedOne(k, Op(0, {}, 0));
    if OneMoreFits(k, lh, running) {
      assert |lh| + Unused(k, worst + [Op(0, {}, 0)]) <= LOGSIZE;
    }
  }

  // With one operation open and n blocks listed, a second one is admitted up to ten and no
  // further; all of that happens.
  lemma BeginReached(k: Budget, g: Geometry, d: Disk, n: nat) returns (actions: seq<Action>, t: State)
    requires ValidDisk(g, d) && n <= 20 && n <= Room(g) && n <= HomeCount(g, d)
    ensures BudgetedRun(k, Boot(g, d), actions, t) && t.phase.Running? && |t.ops| == 1 && |t.lh| == n
    ensures Enabled(t, Begin) <==> n <= 10
  {
    var s, init, data := Boot(g, d), Recover(g, d), d[0];
    BootOk(g, d);
    actions, t := FinishRecovery(k, s, init, [], s);
    actions, t := Begins(k, s, init, 2, actions, t);
    actions, t := Fill(k, s, init, data, 2, n, actions, t);
    StepKeeps(t, init, End(1));
    Extend(k, s, actions, t, End(1), Step(t, End(1)));
    actions, t := actions + [End(1)], Step(t, End(1));
  }

  // ----- The guard against the reservation

  // No run within budget ever meets "too big a transaction".
  ghost predicate NeverTooBig(k: Budget, g: Geometry, d: Disk) {
    forall actions, t :: BudgetedRun(k, Boot(g, d), actions, t) ==> !t.failure.TooBig?
  }

  // log.c:218 against log.c:132, for distinct blocks. The log's size does not help: the
  // panic is out of reach only where there are too few home blocks to fill the list.
  lemma BlocksMeetGuard(g: Geometry, d: Disk)
    requires ValidDisk(g, d)
    ensures NeverTooBig(Blocks, g, d) <==> !CanFill(g, d)
  {
    if CanFill(g, d) {
      var actions, t := GuardFires(Blocks, g, d);
    } else {
      forall actions, t | BudgetedRun(Blocks, Boot(g, d), actions, t) ensures !t.failure.TooBig? {
        NeverFilled(Blocks, g, d, actions, t);
      }
    }
  }

  // The same for calls: a log of more than LOGSIZE blocks is enough. (mkfs makes it LOGSIZE.)
  lemma CallsMeetGuard(g: Geometry, d: Disk)
    requires ValidDisk(g, d)
    ensures NeverTooBig(Calls, g, d) <==> g.size > LOGSIZE || !CanFill(g, d)
  {
    if g.size <= LOGSIZE && CanFill(g, d) {
      var actions, t := GuardFires(Calls, g, d);
    } else {
      forall actions, t | BudgetedRun(Calls, Boot(g, d), actions, t) ensures !t.failure.TooBig? {
        if g.size > LOGSIZE {
          CallsNeverStopped(g, d, actions, t);
        } else {
          NeverFilled(Calls, g, d, actions, t);
        }
      }
    }
  }
}
