/** The real-time scheduler of proc.c and the timer tick of trap.c: admission, dispatch by
    smallest key, and the execution budget. */
module Scheduler {
  import RateMonotonic

  datatype ProcState = Unused | Embryo | Sleeping | Runnable | Running | Zombie

  datatype Proc = Proc(
    state: ProcState,
    pid: int,
    killed: bool,
    priority: int,
    deadline: int,
    policy: int,       // sched_policy: 0 earliest deadline first, 1 rate monotonic, -1 neither
    execTime: int,
    elapsed: int,
    arrival: int,
    rate: int)

  type Table = seq<Proc>

  // ----- Dispatch

  // What policy compares; ties go to the smaller pid.
  function Key(policy: int, p: Proc): int {
    if policy == 0 then p.deadline else p.priority
  }

  predicate Less(policy: int, a: Proc, b: Proc) {
    Key(policy, a) < Key(policy, b) || (Key(policy, a) == Key(policy, b) && a.pid < b.pid)
  }

  // No runnable process, of whatever policy, comes before h.
  ghost predicate IsHighest(t: Table, policy: int, h: nat) {
    && h < |t| && t[h].state == Runnable
    && forall i :: 0 <= i < |t| && t[i].state == Runnable ==> !Less(policy, t[i], t[h])
  }

  ghost predicate IsFirstRunnable(t: Table, from: nat, p: nat) {
    && from <= p < |t| && t[p].state == Runnable
    && forall i :: from <= i < p ==> t[i].state != Runnable
  }

  predicate RealTime(policy: int) {
    policy == 0 || policy == 1
  }

  // The scan from place from meets p and switches to h.
  ghost predicate Dispatches(t: Table, from: nat, p: nat, h: nat) {
    && IsFirstRunnable(t, from, p)
    && if RealTime(t[p].policy) then IsHighest(t, t[p].policy, h) else h == p
  }

  function Dispatched(q: Proc, policy: int): Proc {
    q.(state := Running, elapsed := if RealTime(policy) then q.elapsed + 1 else q.elapsed)
  }

  // The timer tick, in user mode: a killed process exits, one that has used up its budget
  // exits, any other yields.
  function Ticked(q: Proc): Proc {
    if q.killed || (q.policy >= 0 && q.elapsed >= q.execTime) then q.(state := Zombie)
    else q.(state := Runnable)
  }

  // ----- Admission

  // C's division, which drops the fraction.
  function CDiv(a: int, b: int): int
    requires b != 0
  {
    if (a >= 0) == (b > 0) then Abs(a) / Abs(b) else -(Abs(a) / Abs(b))
  }

  function Abs(a: int): nat {
    if a >= 0 then a else -a
  }

  predicate EdfAdmits(utf: int, p: Proc)
    requires p.deadline != 0
  {
    utf + CDiv(p.execTime * 100, p.deadline) < 100
  }

  predicate RmAdmits(utf: int, p: Proc, pid: int) {
    utf + p.execTime * p.rate * 10 <= RateMonotonic.Bound(pid - 2)
  }

  // The priority that rate() gives.
  function RatePriority(rate: int): int {
    var level := CDiv(90 - 3 * rate + 28, 29);
    if level < 1 then 1 else level
  }

  function Rejected(p: Proc): Proc {
    p.(killed := true, state := Zombie)
  }

  // What sched_policy returns: 0, -22, or a divide trap in the kernel.
  datatype Verdict = Fine | Refused | DivideError

  class PTable {
    var proc: Table
    var utfEdf: int
    var utfRm: int
    var ticks: int

    // The inner scan of scheduler().
    method Highest(policy: int, p: nat) returns (h: nat)
      requires p < |proc| && proc[p].state == Runnable
      ensures IsHighest(proc, policy, h)
      ensures h == p || Less(policy, proc[h], proc[p])
    {
      h := p;
      for p1 := 0 to |proc|
        invariant h < |proc| && proc[h].state == Runnable
        invariant h == p || Less(policy, proc[h], proc[p])
        invariant forall i :: 0 <= i < p1 && proc[i].state == Runnable ==> !Less(policy, proc[i], proc[h])
      {
        if proc[p1].state != Runnable {
          continue;
        }
        if Key(policy, proc[p1]) <= Key(policy, proc[h]) {
          if Key(policy, proc[p1]) == Key(policy, proc[h]) {
            if proc[p1].pid < proc[h].pid {
              h := p1;
            }
          } else {
            h := p1;
          }
        }
      }
    }

    // One turn of scheduler()'s outer scan, up to the switch; |proc| when it runs off the end.
    method Dispatch(from: nat) returns (h: nat, ghost p: nat)
      requires from <= |proc|
      modifies this`proc
      ensures h == |proc| ==> proc == old(proc) && forall i :: from <= i < |proc| ==> proc[i].state != Runnable
      ensures h != |proc| ==>
              && Dispatches(old(proc), from, p, h)
              && proc == old(proc)[h := Dispatched(old(proc)[h], old(proc)[p].policy)]
    {
      p := from;
      for i := from to |proc|
        invariant proc == old(proc) && p == i
        invariant forall j :: from <= j < i ==> proc[j].state != Runnable
      {
        if proc[i].state == Runnable {
          var policy := proc[i].policy;
          h := i;
          if policy == 0 || policy == 1 {
            h := Highest(policy, i);
            proc := proc[h := proc[h].(elapsed := proc[h].elapsed + 1)];
          }
          proc := proc[h := proc[h].(state := Running)];
          return;
        }
        p := i + 1;
      }
      h := |proc|;
    }

    // The first process with this pid; |proc| if there is none.
    method Find(pid: int) returns (i: nat)
      ensures i <= |proc| && (forall j :: 0 <= j < i ==> proc[j].pid != pid)
      ensures i < |proc| ==> proc[i].pid == pid
    {
      i := 0;
      while i < |proc| && proc[i].pid != pid
        invariant i <= |proc| && forall j :: 0 <= j < i ==> proc[j].pid != pid
      {
        i := i + 1;
      }
    }

    method SchedPolicy(pid: int, policy: int) returns (v: Verdict, ghost i: nat)
      modifies this`proc, this`utfEdf, this`utfRm
      ensures i <= |old(proc)| == |proc| && (forall j :: 0 <= j < i ==> old(proc)[j].pid != pid)
      ensures i == |proc| || (policy != 0 && policy != 1) ==>
              v.Fine? && proc == old(proc) && utfEdf == old(utfEdf) && utfRm == old(utfRm)
      ensures i < |proc| && policy == 0 ==>
              var p := old(proc)[i];
              && p.pid == pid && utfRm == old(utfRm)
              && (v.DivideError? <==> p.deadline == 0)
              && (if p.deadline != 0 && EdfAdmits(old(utfEdf), p) then
                    && v.Fine? && proc == old(proc)[i := p.(policy := 0)]
                    && utfEdf == old(utfEdf) + CDiv(p.execTime * 100, p.deadline)
                  else
                    && !v.Fine? && utfEdf == old(utfEdf)
                    && proc == if p.deadline == 0 then old(proc) else old(proc)[i := Rejected(p)])
      ensures i < |proc| && policy == 1 ==>
              var p := old(proc)[i];
              && p.pid == pid && utfEdf == old(utfEdf)
              && (if RmAdmits(old(utfRm), p, pid) then
                    && v.Fine? && utfRm == old(utfRm) + p.execTime * p.rate * 10
                    && proc == old(proc)[i := p.(policy := 1, arrival := ticks)]
                  else v.Refused? && utfRm == old(utfRm) && proc == old(proc)[i := Rejected(p)])
    {
      v := Fine;
      var k := Find(pid);
      i := k;
      if k == |proc| {
        return;
      }
      var p := proc[k];
      if policy == 0 {
        if p.deadline == 0 {
          v := DivideError;
          return;
        }
        utfEdf := utfEdf + CDiv(p.execTime * 100, p.deadline);
        if utfEdf >= 100 {
          utfEdf := utfEdf - CDiv(p.execTime * 100, p.deadline);
          proc := proc[k := p.(killed := true, state := Zombie)];
          v := Refused;
        } else {
          proc := proc[k := p.(policy := policy)];
        }
      }
      if policy == 1 {
        var current := p.execTime * p.rate * 10;
        if utfRm + current <= RateMonotonic.Bound(pid - 2) {
          utfRm := utfRm + current;
          proc := proc[k := p.(arrival := ticks, policy := policy)];
        } else {
          proc := proc[k := p.(killed := true, state := Zombie)];
          v := Refused;
        }
      }
    }

    // rate(); it fails if there is no such process.
    method Rate(pid: int, rate: int) returns (found: bool, ghost i: nat)
      modifies this`proc
      ensures i <= |old(proc)| == |proc| && (forall j :: 0 <= j < i ==> old(proc)[j].pid != pid)
      ensures found <==> i < |proc|
      ensures !found ==> proc == old(proc)
      ensures found ==> old(proc)[i].pid == pid && proc == old(proc)[i := old(proc)[i].(rate := rate, priority := RatePriority(rate))]
    {
      var k := Find(pid);
      i := k;
      found := k < |proc|;
      if found {
        var level := CDiv(90 - 3 * rate + 28, 29);
        proc := proc[k := proc[k].(rate := rate, priority := if level < 1 then 1 else level)];
      }
    }

    // The timer branch of trap() for the running process, interrupted in user mode.
    method TimerTick(p: nat)
      requires p < |proc| && proc[p].state == Running
      modifies this`proc, this`ticks
      ensures proc == old(proc)[p := Ticked(old(proc)[p])] && ticks == old(ticks) + 1
    {
      ticks := ticks + 1;
      if proc[p].killed {
        proc := proc[p := proc[p].(state := Zombie)];
      } else if proc[p].policy >= 0 && proc[p].elapsed >= proc[p].execTime {
        proc := proc[p := proc[p].(state := Zombie)];
      } else {
        proc := proc[p := proc[p].(state := Runnable)];
      }
    }
  }

  // ----- Runs of one CPU: dispatch, one tick, dispatch, one tick ...

  // From t, a scan that starts somewhere switches to h, which then runs for one tick.
  ghost predicate Round(t: Table, h: nat, u: Table) {
    exists from: nat, p: nat ::
      Dispatches(t, from, p, h) && u == t[h := Ticked(Dispatched(t[h], t[p].policy))]
  }

  // The processes hs, in this order, each run for one tick.
  ghost predicate Rounds(t: Table, hs: seq<nat>, u: Table)
    decreases |hs|
  {
    if hs == [] then t == u
    else
      var before, h := hs[..|hs| - 1], hs[|hs| - 1];
      exists v :: Rounds(t, before, v) && Round(v, h, u)
  }

  // ----- A closed set of processes of one real-time policy

  ghost predicate Closed(policy: int, t: Table) {
    && RealTime(policy)
    && (forall i :: 0 <= i < |t| && t[i].state == Runnable ==>
          t[i].policy == policy && !t[i].killed && t[i].execTime >= 1 && t[i].elapsed >= 0)
    && (forall i, j :: 0 <= i < j < |t| && t[i].state == Runnable && t[j].state == Runnable ==> t[i].pid != t[j].pid)
  }

  // order lists the runnable processes.
  ghost predicate Lists(t: Table, order: seq<nat>) {
    && (forall i :: 0 <= i < |order| ==> order[i] < |t| && t[order[i]].state == Runnable)
    && (forall h: nat :: h < |t| && t[h].state == Runnable ==> h in order)
  }

  ghost predicate Sorted(policy: int, t: Table, order: seq<nat>) {
    Lists(t, order) && forall i, j :: 0 <= i < j < |order| ==> Less(policy, t[order[i]], t[order[j]])
  }

  // The ticks a process still needs: at least one, since the budget is tested after running.
  function Remaining(p: Proc): nat {
    if p.execTime - p.elapsed > 1 then p.execTime - p.elapsed else 1
  }

  function After(p: Proc, n: nat): Proc {
    p.(elapsed := p.elapsed + n, state := if n < Remaining(p) then p.state else Zombie)
  }

  // The first k of order have used up their budgets and exited; the others are untouched.
  function Completed(t: Table, order: seq<nat>, k: nat): (u: Table)
    requires k <= |order| && forall i :: 0 <= i < |order| ==> order[i] < |t|
    ensures |u| == |t|
  {
    if k == 0 then t
    else
      var o := order[k - 1];
      Completed(t, order, k - 1)[o := After(t[o], Remaining(t[o]))]
  }

  // The dispatches up to the exit of the first k of order: each in turn, and exactly as
  // often as it has ticks left.
  function Schedule(t: Table, order: seq<nat>, k: nat): (hs: seq<nat>)
    requires k <= |order| && forall i :: 0 <= i < |order| ==> order[i] < |t|
    ensures |hs| == FinishTick(t, order, k)
  {
    if k == 0 then []
    else Schedule(t, order, k - 1) + seq(Remaining(t[order[k - 1]]), _ => order[k - 1])
  }

  function FinishTick(t: Table, order: seq<nat>, k: nat): nat
    requires k <= |order| && forall i :: 0 <= i < |order| ==> order[i] < |t|
  {
    if k == 0 then 0 else FinishTick(t, order, k - 1) + Remaining(t[order[k - 1]])
  }

  lemma {:induction false} CompletedAt(policy: int, t: Table, order: seq<nat>, k: nat, h: nat)
    requires Sorted(policy, t, order) && k <= |order| && h < |t|
    ensures Completed(t, order, k)[h] == if h in order[..k] then After(t[h], Remaining(t[h])) else t[h]
  {
    if k > 0 {
      CompletedAt(policy, t, order, k - 1, h);
      assert order[..k] == order[..k - 1] + [order[k - 1]];
    }
  }

  // Whatever place the scan starts from, the first of the order runs.
  lemma RoundRunsFirst(policy: int, t: Table, order: seq<nat>, h: nat, u: Table)
    requires Closed(policy, t) && Sorted(policy, t, order) && Round(t, h, u)
    ensures order != [] && h == order[0] && u == t[h := After(t[h], 1)]
  {
  }

  lemma RoundExists(policy: int, t: Table, order: seq<nat>)
    requires Closed(policy, t) && Sorted(policy, t, order) && order != []
    ensures Round(t, order[0], t[order[0] := After(t[order[0]], 1)])
  {
    var h := order[0];
    var p := FirstRunnable(t, h);
    forall i | 0 <= i < |t| && t[i].state == Runnable ensures !Less(policy, t[i], t[h]) {
      assert i in order;
      var j :| 0 <= j < |order| && order[j] == i;
      assert j > 0 ==> Less(policy, t[order[0]], t[order[j]]);
    }
    assert Dispatches(t, 0, p, h);
  }

  lemma FirstRunnable(t: Table, h: nat) returns (p: nat)
    requires h < |t| && t[h].state == Runnable
    ensures IsFirstRunnable(t, 0, p)
  {
    p := 0;
    while t[p].state != Runnable
      invariant p <= h && forall i :: 0 <= i < p ==> t[i].state != Runnable
      decreases h - p
    {
      p := p + 1;
    }
  }

  predicate SameKeys(p: Proc, q: Proc) {
    p.deadline == q.deadline && p.priority == q.priority && p.pid == q.pid
  }

  // What is left when the first k have exited and the next has run for n ticks.
  function Midway(t: Table, order: seq<nat>, k: nat, n: nat): (u: Table)
    requires k < |order| && forall i :: 0 <= i < |order| ==> order[i] < |t|
    ensures |u| == |t|
  {
    Completed(t, order, k)[order[k] := After(t[order[k]], n)]
  }

  lemma LaterNotEarlier(policy: int, t: Table, order: seq<nat>, k: nat, i: nat)
    requires Sorted(policy, t, order) && k <= i < |order|
    ensures order[i] !in order[..k]
  {
  }

  lemma MidwayAt(policy: int, t: Table, order: seq<nat>, k: nat, n: nat, h: nat)
    requires Sorted(policy, t, order) && k < |order| && h < |t|
    ensures var u := Midway(t, order, k, n);
            && SameKeys(u[h], t[h])
            && (h == order[k] ==> u[h] == After(t[h], n))
            && (h != order[k] && h in order[..k] ==> u[h].state == Zombie)
            && (h != order[k] && h !in order[..k] ==> u[h] == t[h])
  {
    CompletedAt(policy, t, order, k, h);
  }

  // Who is still runnable, and that only its elapsed time may have changed.
  lemma MidwayRunnable(policy: int, t: Table, order: seq<nat>, k: nat, n: nat, h: nat)
    requires Sorted(policy, t, order) && k < |order| && h < |t|
    requires Midway(t, order, k, n)[h].state == Runnable
    ensures var u := Midway(t, order, k, n);
            t[h].state == Runnable && u[h] == t[h].(elapsed := u[h].elapsed) && t[h].elapsed <= u[h].elapsed
    ensures h in order[k..]
  {
    MidwayAt(policy, t, order, k, n, h);
    assert h in order && order == order[..k] + order[k..];
  }

  lemma MidwayRest(policy: int, t: Table, order: seq<nat>, k: nat, n: nat, i: nat)
    requires Sorted(policy, t, order) && k <= i < |order| && n < Remaining(t[order[k]])
    ensures var u, o := Midway(t, order, k, n), order[i];
            u[o].state == Runnable && SameKeys(u[o], t[o])
  {
    LaterNotEarlier(policy, t, order, k, i);
    MidwayAt(policy, t, order, k, n, order[i]);
  }

  lemma MidwayOrder(policy: int, t: Table, order: seq<nat>, k: nat, n: nat)
    requires Sorted(policy, t, order) && k < |order| && n < Remaining(t[order[k]])
    ensures Sorted(policy, Midway(t, order, k, n), order[k..])
  {
    var u, rest := Midway(t, order, k, n), order[k..];
    forall i | 0 <= i < |rest| ensures rest[i] < |u| && u[rest[i]].state == Runnable {
      MidwayRest(policy, t, order, k, n, k + i);
    }
    forall i, j | 0 <= i < j < |rest| ensures Less(policy, u[rest[i]], u[rest[j]]) {
      MidwayRest(policy, t, order, k, n, k + i);
      MidwayRest(policy, t, order, k, n, k + j);
      assert Less(policy, t[order[k + i]], t[order[k + j]]);
    }
    forall h: nat | h < |u| && u[h].state == Runnable ensures h in rest {
      MidwayRunnable(policy, t, order, k, n, h);
    }
  }

  lemma MidwayClosed(policy: int, t: Table, order: seq<nat>, k: nat, n: nat)
    requires Closed(policy, t) && Sorted(policy, t, order) && k < |order|
    ensures Closed(policy, Midway(t, order, k, n))
  {
    var u := Midway(t, order, k, n);
    forall h: nat | h < |t| && u[h].state == Runnable
      ensures t[h].state == Runnable && u[h] == t[h].(elapsed := u[h].elapsed) && t[h].elapsed <= u[h].elapsed
    {
      MidwayRunnable(policy, t, order, k, n, h);
    }
  }

  lemma MidwayNext(policy: int, t: Table, order: seq<nat>, k: nat)
    requires Sorted(policy, t, order) && k + 1 < |order|
    ensures Midway(t, order, k, Remaining(t[order[k]])) == Midway(t, order, k + 1, 0)
  {
    var o := order[k + 1];
    var u := Completed(t, order, k + 1);
    assert u[o] == t[o] by {
      LaterNotEarlier(policy, t, order, k + 1, k + 1);
      CompletedAt(policy, t, order, k + 1, o);
    }
    assert After(t[o], 0) == t[o];
  }

  lemma AfterOneMore(policy: int, t: Table, order: seq<nat>, k: nat, n: nat)
    requires Sorted(policy, t, order) && k < |order| && n < Remaining(t[order[k]])
    ensures var o, v := order[k], Midway(t, order, k, n);
            v[o := After(v[o], 1)] == Midway(t, order, k, n + 1)
  {
  }

  function DispatchLog(t: Table, order: seq<nat>, k: nat, n: nat): (hs: seq<nat>)
    requires k < |order| && forall i :: 0 <= i < |order| ==> order[i] < |t|
    ensures |hs| == FinishTick(t, order, k) + n
  {
    Schedule(t, order, k) + seq(n, _ => order[k])
  }

  lemma DispatchedNext(t: Table, order: seq<nat>, k: nat, n: nat)
    requires k < |order| && forall i :: 0 <= i < |order| ==> order[i] < |t|
    ensures DispatchLog(t, order, k, n + 1) == DispatchLog(t, order, k, n) + [order[k]]
    ensures k + 1 < |order| ==> DispatchLog(t, order, k, Remaining(t[order[k]])) == DispatchLog(t, order, k + 1, 0)
  {
  }

  lemma OneMoreRound(policy: int, t: Table, order: seq<nat>, k: nat, n: nat, h: nat, u: Table)
    requires Closed(policy, t) && Sorted(policy, t, order) && k < |order| && n < Remaining(t[order[k]])
    requires Round(Midway(t, order, k, n), h, u)
    ensures h == order[k] && u == Midway(t, order, k, n + 1)
  {
    MidwayClosed(policy, t, order, k, n);
    MidwayOrder(policy, t, order, k, n);
    RoundRunsFirst(policy, Midway(t, order, k, n), order[k..], h, u);
    AfterOneMore(policy, t, order, k, n);
  }

  // The run. Wherever the outer scan resumes, the schedule is: the processes one after the
  // other in order, each for exactly the ticks it has left, and then it exits.
  lemma {:induction false} OneRun(policy: int, t: Table, order: seq<nat>, k: nat, n: nat, hs: seq<nat>, u: Table)
    requires Closed(policy, t) && Sorted(policy, t, order) && Rounds(t, hs, u)
    requires k < |order| && n <= Remaining(t[order[k]]) && |hs| == FinishTick(t, order, k) + n
    ensures hs == DispatchLog(t, order, k, n)
    ensures u == Midway(t, order, k, n)
    decreases |hs|, k
  {
    if n > 0 {
      var before, h := hs[..|hs| - 1], hs[|hs| - 1];
      var v :| Rounds(t, before, v) && Round(v, h, u);
      OneRun(policy, t, order, k, n - 1, before, v);
      OneMoreRound(policy, t, order, k, n - 1, h, u);
      DispatchedNext(t, order, k, n - 1);
      assert hs == before + [h];
    } else if k > 0 {
      Boundary(policy, t, order, k);
      OneRun(policy, t, order, k - 1, Remaining(t[order[k - 1]]), hs, u);
    } else {
      Beginning(policy, t, order);
    }
  }

  lemma Boundary(policy: int, t: Table, order: seq<nat>, k: nat)
    requires Sorted(policy, t, order) && 0 < k < |order|
    ensures var m := Remaining(t[order[k - 1]]);
            && FinishTick(t, order, k) == FinishTick(t, order, k - 1) + m
            && Midway(t, order, k - 1, m) == Midway(t, order, k, 0)
            && DispatchLog(t, order, k - 1, m) == DispatchLog(t, order, k, 0)
  {
    MidwayNext(policy, t, order, k - 1);
    DispatchedNext(t, order, k - 1, 0);
  }

  lemma Beginning(policy: int, t: Table, order: seq<nat>)
    requires Sorted(policy, t, order) && order != []
    ensures Midway(t, order, 0, 0) == t && DispatchLog(t, order, 0, 0) == []
  {
  }

  // Such a run exists, up to the exit of every process.
  lemma {:induction false} RunExists(policy: int, t: Table, order: seq<nat>, k: nat, n: nat)
    requires Closed(policy, t) && Sorted(policy, t, order)
    requires k < |order| && n <= Remaining(t[order[k]])
    ensures Rounds(t, DispatchLog(t, order, k, n), Midway(t, order, k, n))
    decreases k, n
  {
    if n > 0 {
      RunExists(policy, t, order, k, n - 1);
      NextRound(policy, t, order, k, n - 1);
      DispatchedNext(t, order, k, n - 1);
      ExtendRounds(t, DispatchLog(t, order, k, n - 1), Midway(t, order, k, n - 1), order[k], Midway(t, order, k, n));
    } else if k > 0 {
      Boundary(policy, t, order, k);
      RunExists(policy, t, order, k - 1, Remaining(t[order[k - 1]]));
    } else {
      Beginning(policy, t, order);
    }
  }

  lemma NextRound(policy: int, t: Table, order: seq<nat>, k: nat, n: nat)
    requires Closed(policy, t) && Sorted(policy, t, order) && k < |order| && n < Remaining(t[order[k]])
    ensures Round(Midway(t, order, k, n), order[k], Midway(t, order, k, n + 1))
  {
    MidwayClosed(policy, t, order, k, n);
    MidwayOrder(policy, t, order, k, n);
    RoundExists(policy, Midway(t, order, k, n), order[k..]);
    AfterOneMore(policy, t, order, k, n);
  }

  lemma ExtendRounds(t: Table, hs: seq<nat>, v: Table, h: nat, u: Table)
    requires Rounds(t, hs, v) && Round(v, h, u)
    ensures Rounds(t, hs + [h], u)
  {
    var all := hs + [h];
    assert all[..|all| - 1] == hs && all[|all| - 1] == h;
  }

  // ----- Earliest deadline first

  ghost predicate ClosedEdf(t: Table) {
    Closed(0, t) && forall i :: 0 <= i < |t| && t[i].state == Runnable ==> t[i].deadline > 0
  }

  // order lists the runnable processes by (deadline, pid).
  ghost predicate EdfOrder(t: Table, order: seq<nat>) {
    && Lists(t, order)
    && forall i, j :: 0 <= i < j < |order| ==> EdfBefore(t[order[i]], t[order[j]])
  }

  predicate EdfBefore(a: Proc, b: Proc) {
    a.deadline < b.deadline || (a.deadline == b.deadline && a.pid < b.pid)
  }

  lemma EdfSorted(t: Table, order: seq<nat>)
    requires EdfOrder(t, order)
    ensures Sorted(0, t, order)
  {
  }

  // The processes run one after the other by (deadline, pid), each for exactly the ticks it
  // has left, and then it exits.
  lemma EdfRun(t: Table, order: seq<nat>, k: nat, n: nat, hs: seq<nat>, u: Table)
    requires Closed(0, t) && EdfOrder(t, order) && Rounds(t, hs, u)
    requires k < |order| && n <= Remaining(t[order[k]]) && |hs| == FinishTick(t, order, k) + n
    ensures hs == DispatchLog(t, order, k, n) && u == Midway(t, order, k, n)
  {
    EdfSorted(t, order);
    OneRun(0, t, order, k, n, hs, u);
  }

  lemma EdfRunExists(t: Table, order: seq<nat>, k: nat, n: nat)
    requires Closed(0, t) && EdfOrder(t, order)
    requires k < |order| && n <= Remaining(t[order[k]])
    ensures Rounds(t, DispatchLog(t, order, k, n), Midway(t, order, k, n))
  {
    EdfSorted(t, order);
    RunExists(0, t, order, k, n);
  }

  // ----- Rate monotonic

  // order lists the runnable processes by (priority, pid).
  ghost predicate RmOrder(t: Table, order: seq<nat>) {
    && Lists(t, order)
    && forall i, j :: 0 <= i < j < |order| ==> RmBefore(t[order[i]], t[order[j]])
  }

  predicate RmBefore(a: Proc, b: Proc) {
    a.priority < b.priority || (a.priority == b.priority && a.pid < b.pid)
  }

  lemma RmSorted(t: Table, order: seq<nat>)
    requires RmOrder(t, order)
    ensures Sorted(1, t, order)
  {
  }

  // The processes run one after the other by (priority, pid), each for exactly the ticks it
  // has left, and then it exits.
  lemma RmRun(t: Table, order: seq<nat>, k: nat, n: nat, hs: seq<nat>, u: Table)
    requires Closed(1, t) && RmOrder(t, order) && Rounds(t, hs, u)
    requires k < |order| && n <= Remaining(t[order[k]]) && |hs| == FinishTick(t, order, k) + n
    ensures hs == DispatchLog(t, order, k, n) && u == Midway(t, order, k, n)
  {
    RmSorted(t, order);
    OneRun(1, t, order, k, n, hs, u);
  }

  lemma RmRunExists(t: Table, order: seq<nat>, k: nat, n: nat)
    requires Closed(1, t) && RmOrder(t, order)
    requires k < |order| && n <= Remaining(t[order[k]])
    ensures Rounds(t, DispatchLog(t, order, k, n), Midway(t, order, k, n))
  {
    RmSorted(t, order);
    RunExists(1, t, order, k, n);
  }

  // With the policies mixed: the policy of the process that the scan meets decides, and it
  // chooses among the runnable processes of all policies.
  lemma DispatchPicks(t: Table, from: nat, p: nat, h: nat, i: nat)
    requires Dispatches(t, from, p, h) && i < |t| && t[i].state == Runnable && t[i].pid != t[h].pid
    ensures t[p].policy == 0 ==> EdfBefore(t[h], t[i])
    ensures t[p].policy == 1 ==> RmBefore(t[h], t[i])
    ensures t[p].policy != 0 && t[p].policy != 1 ==> h == p && (from <= i ==> p < i)
  {
  }

  // The priority is 3 (30 - rate) / 29 rounded up, and at least 1: three levels for rates from 1 on.
  lemma RateLevel(rate: int)
    ensures RatePriority(rate) >= 1
    ensures 29 * RatePriority(rate) >= 3 * (30 - rate)
    ensures RatePriority(rate) > 1 ==> 29 * (RatePriority(rate) - 1) < 3 * (30 - rate)
    ensures RatePriority(rate) == 1 <==> rate >= 21
    ensures rate >= 11 <==> RatePriority(rate) <= 2
    ensures rate >= 1 <==> RatePriority(rate) <= 3
  {
  }

  // Rate-monotonic order between processes whose priorities come from their rates: the higher
  // rate goes first if and only if its level is another one or its pid is smaller.
  lemma HigherRateFirst(a: Proc, b: Proc)
    requires a.priority == RatePriority(a.rate) && b.priority == RatePriority(b.rate) && a.rate > b.rate
    ensures RmBefore(a, b) <==> RatePriority(a.rate) != RatePriority(b.rate) || a.pid < b.pid
  {
    assert RatePriority(a.rate) <= RatePriority(b.rate);
  }

  // ----- Neither policy

  // The scan goes on from where it stopped, and starts again when nothing is left.
  ghost predicate Resumes(t: Table, from: nat, start: nat) {
    start == from || (start == 0 && forall i :: from <= i < |t| ==> t[i].state != Runnable)
  }

  ghost predicate Turn(t: Table, from: nat, h: nat, u: Table) {
    exists start: nat, p: nat ::
      Resumes(t, from, start) && Dispatches(t, start, p, h) && u == t[h := Ticked(Dispatched(t[h], t[p].policy))]
  }

  function Resume(hs: seq<nat>): nat {
    if hs == [] then 0 else hs[|hs| - 1] + 1
  }

  ghost predicate Turns(t: Table, hs: seq<nat>, u: Table)
    decreases |hs|
  {
    if hs == [] then t == u
    else
      var before, h := hs[..|hs| - 1], hs[|hs| - 1];
      exists v :: Turns(t, before, v) && Turn(v, Resume(before), h, u)
  }

  // order lists the runnable processes, none of which has a policy, by place in the table.
  ghost predicate Unscheduled(t: Table, order: seq<nat>) {
    && Lists(t, order) && (forall i, j :: 0 <= i < j < |order| ==> order[i] < order[j])
    && forall i :: 0 <= i < |t| && t[i].state == Runnable ==> t[i].policy == -1 && !t[i].killed
  }

  lemma NextInTurn(t: Table, order: seq<nat>, j: nat, h: nat, u: Table)
    requires Unscheduled(t, order) && j < |order|
    requires Turn(t, if j == 0 then 0 else order[j - 1] + 1, h, u) || (j == 0 && Turn(t, order[|order| - 1] + 1, h, u))
    ensures h == order[j] && u == t
  {
    assert h in order;
    var m :| 0 <= m < |order| && order[m] == h;
    assert t[order[j]].state == Runnable;
    assert u == t[h := t[h]];
  }

  // Counting to n again and again.
  function Cycle(n: nat, i: nat): (j: nat)
    requires 0 < n
    ensures j < n
  {
    if i == 0 then 0
    else
      var j := Cycle(n, i - 1);
      if j == n - 1 then 0 else j + 1
  }

  ghost predicate InTurn(order: seq<nat>, hs: seq<nat>)
    requires order != []
  {
    forall i :: 0 <= i < |hs| ==> hs[i] == order[Cycle(|order|, i)]
  }

  lemma ResumesAfter(order: seq<nat>, hs: seq<nat>)
    requires order != [] && InTurn(order, hs)
    ensures var j := Cycle(|order|, |hs|);
            Resume(hs) == if j > 0 then order[j - 1] + 1 else if hs == [] then 0 else order[|order| - 1] + 1
  {
    if hs != [] {
      assert hs[|hs| - 1] == order[Cycle(|order|, |hs| - 1)];
    }
  }

  lemma LastTurn(t: Table, hs: seq<nat>, u: Table) returns (before: seq<nat>, h: nat, v: Table)
    requires hs != [] && Turns(t, hs, u)
    ensures hs == before + [h] && Turns(t, before, v) && Turn(v, Resume(before), h, u)
  {
    before, h := hs[..|hs| - 1], hs[|hs| - 1];
    v :| Turns(t, before, v) && Turn(v, Resume(before), h, u);
  }

  lemma OneTurn(t: Table, order: seq<nat>, hs: seq<nat>, h: nat, u: Table)
    requires Unscheduled(t, order) && order != [] && InTurn(order, hs) && Turn(t, Resume(hs), h, u)
    ensures u == t && InTurn(order, hs + [h])
  {
    ResumesAfter(order, hs);
    NextInTurn(t, order, Cycle(|order|, |hs|), h, u);
  }

  // Round robin: in every run the runnable processes have their turns in table order, again
  // and again.
  lemma {:induction false} RoundRobin(t: Table, order: seq<nat>, hs: seq<nat>, u: Table)
    requires Unscheduled(t, order) && order != [] && Turns(t, hs, u)
    ensures u == t && InTurn(order, hs)
    decreases |hs|
  {
    if hs != [] {
      var before, h, v := LastTurn(t, hs, u);
      RoundRobin(t, order, before, v);
      OneTurn(t, order, before, h, u);
    }
  }

  // ----- Lateness of the admitted processes

  datatype Job = Job(pid: int, execTime: int, deadline: int)

  function JobOf(p: Proc): Job {
    Job(p.pid, p.execTime, p.deadline)
  }

  function Percent(j: Job): int {
    if j.deadline > 0 then j.execTime * 100 / j.deadline else 0
  }

  function EdfTotal(jobs: seq<Job>): int {
    if jobs == [] then 0 else EdfTotal(jobs[..|jobs| - 1]) + Percent(jobs[|jobs| - 1])
  }

  // Accepted jobs, oldest first, with positive parameters.
  ghost predicate EdfAccepted(jobs: seq<Job>) {
    jobs != [] ==>
      var j := jobs[|jobs| - 1];
      EdfAccepted(jobs[..|jobs| - 1]) && j.execTime >= 1 && j.deadline > 0 && EdfTotal(jobs) < 100
  }

  // sched_policy accepts a job just when the accepted ones and it stay within the bound, and
  // the total it keeps is theirs.
  lemma EdfAcceptance(jobs: seq<Job>, utf: int, p: Proc)
    requires EdfAccepted(jobs) && utf == EdfTotal(jobs)
    requires p.execTime >= 1 && p.deadline > 0
    ensures EdfAdmits(utf, p) <==> EdfAccepted(jobs + [JobOf(p)])
    ensures utf + CDiv(p.execTime * 100, p.deadline) == EdfTotal(jobs + [JobOf(p)])
  {
  }

  lemma RmAcceptance(ts: seq<RateMonotonic.Task>, utf: int, p: Proc)
    requires RateMonotonic.Accepted(ts) && utf == 10 * RateMonotonic.Total(ts)
    requires p.pid >= 3 && (ts != [] ==> ts[|ts| - 1].pid < p.pid) && p.execTime * p.rate >= 0
    ensures var more := ts + [RateMonotonic.Task(p.pid, p.execTime * p.rate)];
            && (RmAdmits(utf, p, p.pid) <==> RateMonotonic.Accepted(more))
            && utf + p.execTime * p.rate * 10 == 10 * RateMonotonic.Total(more)
  {
    var more := ts + [RateMonotonic.Task(p.pid, p.execTime * p.rate)];
    assert more[..|ts|] == ts;
  }

  lemma {:induction false} AcceptedJob(jobs: seq<Job>, i: nat)
    requires EdfAccepted(jobs) && i < |jobs|
    ensures jobs[i].execTime >= 1 && jobs[i].deadline > 0 && Percent(jobs[i]) >= 0
  {
    if i < |jobs| - 1 {
      AcceptedJob(jobs[..|jobs| - 1], i);
    }
  }

  lemma {:induction false} EdfTotalConcat(a: seq<Job>, b: seq<Job>)
    ensures EdfTotal(a + b) == EdfTotal(a) + EdfTotal(b)
  {
    if b == [] {
      assert a + b == a;
    } else {
      assert (a + b)[..|a + b| - 1] == a + b[..|b| - 1];
      EdfTotalConcat(a, b[..|b| - 1]);
    }
  }

  // Distinct jobs among jobs weigh at most all of them.
  lemma {:induction false} SubTotal(sub: seq<Job>, jobs: seq<Job>)
    requires forall j :: j in sub ==> j in jobs
    requires forall i, k :: 0 <= i < k < |sub| ==> sub[i] != sub[k]
    requires forall j :: j in jobs ==> Percent(j) >= 0
    ensures EdfTotal(sub) <= EdfTotal(jobs)
    decreases |sub|
  {
    if sub == [] {
      TotalNonNegative(jobs);
    } else {
      var init, last := sub[..|sub| - 1], sub[|sub| - 1];
      assert last in sub;
      var i :| 0 <= i < |jobs| && jobs[i] == last;
      var rest := jobs[..i] + jobs[i + 1..];
      assert jobs == jobs[..i] + [last] + jobs[i + 1..];
      EdfTotalConcat(jobs[..i] + [last], jobs[i + 1..]);
      EdfTotalConcat(jobs[..i], [last]);
      EdfTotalConcat(jobs[..i], jobs[i + 1..]);
      assert EdfTotal([last]) == EdfTotal([]) + Percent(last);
      forall j | j in init ensures j in rest {
        assert j in sub;
      }
      SubTotal(init, rest);
    }
  }

  lemma {:induction false} TotalNonNegative(jobs: seq<Job>)
    requires forall j :: j in jobs ==> Percent(j) >= 0
    ensures EdfTotal(jobs) >= 0
  {
    if jobs != [] {
      TotalNonNegative(jobs[..|jobs| - 1]);
    }
  }

  function Jobs(t: Table, order: seq<nat>, k: nat): (js: seq<Job>)
    requires k <= |order| && forall i :: 0 <= i < |order| ==> order[i] < |t|
    ensures |js| == k && forall i :: 0 <= i < k ==> js[i] == JobOf(t[order[i]])
  {
    if k == 0 then [] else Jobs(t, order, k - 1) + [JobOf(t[order[k - 1]])]
  }

  // Each job costs less than (its percent + 1) hundredths of any later deadline.
  lemma {:induction false} FinishBound(t: Table, order: seq<nat>, k: nat, d: int)
    requires ClosedEdf(t) && EdfOrder(t, order) && k <= |order|
    requires forall i :: 0 <= i < k ==> t[order[i]].deadline <= d
    ensures k > 0 ==> 100 * FinishTick(t, order, k) < (EdfTotal(Jobs(t, order, k)) + k) * d
  {
    if k > 0 {
      FinishBound(t, order, k - 1, d);
      var p := t[order[k - 1]];
      var js := Jobs(t, order, k);
      assert js[..k - 1] == Jobs(t, order, k - 1);
      PercentCovers(p.execTime, p.deadline, d);
      assert EdfTotal(js) == EdfTotal(js[..k - 1]) + Percent(JobOf(p));
      var a, b := EdfTotal(js[..k - 1]) + (k - 1), Percent(JobOf(p)) + 1;
      assert (a + b) * d == a * d + b * d;
    }
  }

  lemma PercentCovers(e: int, deadline: int, d: int)
    requires e >= 1 && 0 < deadline <= d
    ensures 100 * e < (e * 100 / deadline + 1) * d
  {
  }

  lemma JobsWeigh(jobs: seq<Job>, t: Table, order: seq<nat>, k: nat)
    requires EdfAccepted(jobs) && EdfOrder(t, order) && 0 < k <= |order|
    requires forall i :: 0 <= i < k ==> JobOf(t[order[i]]) in jobs
    ensures EdfTotal(Jobs(t, order, k)) <= 99
  {
    var js := Jobs(t, order, k);
    assert JobOf(t[order[0]]) in jobs;
    forall j | j in jobs ensures Percent(j) >= 0 {
      var i :| 0 <= i < |jobs| && jobs[i] == j;
      AcceptedJob(jobs, i);
    }
    forall a, b | 0 <= a < b < k ensures js[a] != js[b] {
      assert Less(0, t[order[a]], t[order[b]]);
    }
    SubTotal(js, jobs);
  }

  lemma EarlierDeadlines(t: Table, order: seq<nat>, i: nat, k: nat)
    requires EdfOrder(t, order) && i <= k < |order|
    ensures t[order[i]].deadline <= t[order[k]].deadline
  {
  }

  // The k-th process to finish (counting from 1) does so at a tick C with
  // 100 C < (99 + k) deadline, if all runnable processes are accepted jobs.
  lemma EdfLateness(jobs: seq<Job>, t: Table, order: seq<nat>, k: nat)
    requires EdfAccepted(jobs) && ClosedEdf(t) && EdfOrder(t, order) && 0 < k <= |order|
    requires forall i :: 0 <= i < |order| ==> JobOf(t[order[i]]) in jobs
    ensures 100 * FinishTick(t, order, k) < (99 + k) * t[order[k - 1]].deadline
  {
    var d := t[order[k - 1]].deadline;
    forall i | 0 <= i < k ensures t[order[i]].deadline <= d {
      EarlierDeadlines(t, order, i, k - 1);
    }
    FinishBound(t, order, k, d);
    JobsWeigh(jobs, t, order, k);
    ScaleLe(EdfTotal(Jobs(t, order, k)) + k, 99 + k, d);
  }

  // Lateness over runs: whenever the dispatches so far are those that the first k processes take,
  // exactly these have exited, and the k-th is at most that late.
  lemma EdfDeadlines(jobs: seq<Job>, t: Table, order: seq<nat>, k: nat, hs: seq<nat>, u: Table)
    requires EdfAccepted(jobs) && ClosedEdf(t) && EdfOrder(t, order) && 0 < k <= |order|
    requires forall i :: 0 <= i < |order| ==> JobOf(t[order[i]]) in jobs
    requires Rounds(t, hs, u) && |hs| == FinishTick(t, order, k)
    ensures u == Completed(t, order, k)
    ensures 100 * |hs| < (99 + k) * t[order[k - 1]].deadline
  {
    var m := Remaining(t[order[k - 1]]);
    EdfRun(t, order, k - 1, m, hs, u);
    EdfLateness(jobs, t, order, k);
  }

  lemma ScaleLe(a: int, b: int, d: int)
    requires a <= b && d >= 0
    ensures a * d <= b * d
  {
  }
}
