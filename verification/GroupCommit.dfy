/** Every interleaving of begin_op, log_write, end_op, the disk writes of commit, crashes
    and recoveries, as a state machine. What a recovery would yield is always the effect
    of whole operations, all of which had ended. */
module GroupCommit {
  import opened Log
  import opened LogDevice

  // ----- States

  // A running operation, the blocks it has logged and how often it has called log_write.
  datatype Op = Op(id: nat, blocks: set<nat>, calls: nat)
  datatype Event = Event(op: nat, bno: nat, data: Block)  // one log_write

  datatype Phase =
    | Running
    | Committing(base: Disk, done: nat)  // commit() started on disk base and has done so many writes
    | Recovering(base: Disk, done: nat)  // recover_from_log(), likewise

  datatype Failure = NoFailure | TooBig | OutsideTrans | EndWhileCommitting

  datatype State = State(
    g: Geometry,
    disk: Disk,
    cache: Disk,
    lh: seq<nat>,
    ops: seq<Op>,
    outstanding: int,
    phase: Phase,
    failure: Failure,
    // what happened, for the statements only
    nextOp: nat,
    ended: set<nat>,
    events: seq<Event>,
    durable: nat)      // events before this one were in the log when its header was written

  datatype Action =
    | Begin
    | LogWrite(i: nat, b: nat, data: Block)
    | End(i: nat)
    | DiskWrite
    | CommitDone
    | Crash
    | RecoverDone

  // The machine boots by recovering whatever the disk holds.
  function Boot(g: Geometry, d: Disk): State {
    State(g, d, d, [], [], 0, Recovering(d, 0), NoFailure, 0, {}, [], 0)
  }

  // ----- Steps

  // All the writes of the commit or recovery in progress.
  function Script(s: State): seq<Write>
    requires Sane(s)
  {
    match s.phase
    case Running => []
    case Committing(base, _) => CommitWrites(s.g, base[s.g.start], s.lh, NewData(s.lh, s.cache))
    case Recovering(base, _) => RecoverWrites(s.g, base)
  }

  function Done(s: State): nat {
    if s.phase.Running? then 0 else s.phase.done
  }

  predicate Sane(s: State) {
    && |s.cache| == |s.disk|
    && Loggable(s.g, s.disk, s.lh)
    && s.g.start < |s.disk|
    && (s.phase.Recovering? ==> ValidDisk(s.g, s.phase.base))
    && (s.phase.Committing? ==> |s.phase.base| == |s.disk|)
  }

  predicate Enabled(s: State, a: Action) {
    && Sane(s)
    && match a
       case Crash => true
       case Begin => s.failure.NoFailure? && s.phase.Running? && Admits(s.lh, s.outstanding)
       case LogWrite(i, b, _) => s.failure.NoFailure? && i < |s.ops| && Home(s.g, s.disk, b)
       case End(i) => s.failure.NoFailure? && i < |s.ops|
       case DiskWrite => s.failure.NoFailure? && !s.phase.Running? && s.phase.done < |Script(s)|
       case CommitDone => s.failure.NoFailure? && s.phase.Committing? && s.phase.done == |Script(s)|
       case RecoverDone => s.failure.NoFailure? && s.phase.Recovering? && s.phase.done == |Script(s)|
  }

  function Step(s: State, a: Action): State
    requires Enabled(s, a)
  {
    match a
    case Begin =>
      s.(outstanding := s.outstanding + 1, ops := s.ops + [Op(s.nextOp, {}, 0)], nextOp := s.nextOp + 1)
    case LogWrite(i, b, data) => LogWriteStep(s, i, b, data)
    case End(i) => EndStep(s, i)
    case DiskWrite => DiskStep(s)
    case CommitDone => s.(lh := [], phase := Running)
    case Crash =>
      State(s.g, s.disk, s.disk, [], [], 0, Recovering(s.disk, 0), NoFailure, s.nextOp, s.ended,
            if s.durable <= |s.events| then s.events[..s.durable] else s.events, s.durable)
    case RecoverDone => s.(cache := s.disk, phase := Running)
  }

  function Charged(op: Op, b: nat): Op {
    op.(blocks := op.blocks + {b}, calls := op.calls + 1)
  }

  function LogWriteStep(s: State, i: nat, b: nat, data: Block): State
    requires i < |s.ops| && b < |s.cache|
  {
    if LogFull(s.g, s.lh) then s.(failure := TooBig)
    else if s.outstanding < 1 then s.(failure := OutsideTrans)
    else
      var op := s.ops[i];
      s.(cache := s.cache[b := data],
         lh := Absorb(s.lh, b),
         ops := s.ops[i := Charged(op, b)],
         events := s.events + [Event(op.id, b, data)])
  }

  function EndStep(s: State, i: nat): State
    requires i < |s.ops|
  {
    if s.phase.Committing? then s.(failure := EndWhileCommitting)
    else
      var left := s.(outstanding := s.outstanding - 1,
                     ops := s.ops[..i] + s.ops[i + 1..],
                     ended := s.ended + {s.ops[i].id});
      if left.outstanding == 0 then left.(phase := Committing(s.disk, 0)) else left
  }

  // One block written. The header write of a non-empty commit is the commit point.
  function DiskStep(s: State): State
    requires Sane(s) && !s.phase.Running? && s.phase.done < |Script(s)|
  {
    var w := Script(s)[s.phase.done];
    s.(disk := Put(s.disk, w),
       phase := s.phase.(done := s.phase.done + 1),
       durable := if s.phase.Committing? && s.phase.done == |s.lh| then |s.events| else s.durable)
  }

  ghost predicate Next(s: State, a: Action, t: State) {
    Enabled(s, a) && t == Step(s, a)
  }

  // The actions lead from s to t.
  ghost predicate Run(s: State, actions: seq<Action>, t: State)
    decreases |actions|
  {
    if actions == [] then s == t
    else
      var prefix, a := actions[..|actions| - 1], actions[|actions| - 1];
      exists u :: Run(s, prefix, u) && Next(u, a, t)
  }

  // ----- What the disk should hold

  function Replay(d: Disk, es: seq<Event>): (r: Disk)
    ensures |r| == |d|
    decreases |es|
  {
    if es == [] then d
    else
      var e := es[|es| - 1];
      Put(Replay(d, es[..|es| - 1]), Write(e.bno, e.data))
  }

  lemma ReplaySnoc(d: Disk, es: seq<Event>, e: Event)
    ensures Replay(d, es + [e]) == Put(Replay(d, es), Write(e.bno, e.data))
  {
    assert (es + [e])[..|es|] == es;
  }

  // Operations are atomic in the first k events: whoever is in there has ended and is
  // nowhere later.
  ghost predicate WholeOps(s: State, k: nat)
    requires k <= |s.events|
  {
    && (forall i :: 0 <= i < k ==> s.events[i].op in s.ended)
    && (forall i, j :: 0 <= i < k <= j < |s.events| ==> s.events[i].op != s.events[j].op)
  }

  // ----- The invariant

  ghost predicate OpsOk(s: State) {
    && s.outstanding == |s.ops|
    && (!s.phase.Running? ==> s.ops == [])
    && (s.ops == [] && !s.phase.Committing? ==> s.lh == [])
    && (forall i :: 0 <= i < |s.ops| ==> s.ops[i].id < s.nextOp && s.ops[i].id !in s.ended)
    && (forall i, j :: 0 <= i < j < |s.ops| ==> s.ops[i].id != s.ops[j].id)
    && (forall id :: id in s.ended ==> id < s.nextOp)
  }

  ghost predicate InProgress(s: State, id: nat) {
    exists i :: 0 <= i < |s.ops| && s.ops[i].id == id
  }

  ghost predicate EventsOk(s: State) {
    && s.durable <= |s.events|
    && WholeOps(s, s.durable)
    && (forall j :: s.durable <= j < |s.events| ==>
          s.events[j].bno in s.lh && (s.events[j].op in s.ended || InProgress(s, s.events[j].op)))
  }

  // Outside lh, the disk (or the disk a commit started from) is what the cache holds.
  ghost predicate CleanOutside(g: Geometry, lh: seq<nat>, cache: Disk, d: Disk) {
    |cache| == |d| && forall b :: Home(g, d, b) && b !in lh ==> cache[b] == d[b]
  }

  ghost predicate PhaseOk(s: State, init: Disk)
    requires Sane(s) && s.durable <= |s.events|
  {
    var kept := Replay(init, s.events[..s.durable]);
    && (!s.phase.Recovering? ==> SameHomes(s.g, Replay(init, s.events), s.cache))
    && Done(s) <= |Script(s)|
    && match s.phase
       case Running =>
         Empty(s.g, s.disk) && SameHomes(s.g, kept, s.disk) && CleanOutside(s.g, s.lh, s.cache, s.disk)
       case Committing(base, done) =>
         && Empty(s.g, base)
         && CleanOutside(s.g, s.lh, s.cache, base)
         && s.disk == Apply(base, Script(s)[..done])
         && (if done <= |s.lh| then SameHomes(s.g, kept, base) else s.durable == |s.events|)
       case Recovering(base, done) =>
         && s.disk == Apply(base, Script(s)[..done])
         && s.durable == |s.events|
         && SameHomes(s.g, kept, Recover(s.g, base))
  }

  ghost predicate Inv(s: State, init: Disk) {
    && Sane(s)
    && |init| == |s.disk|
    && OpsOk(s)
    && EventsOk(s)
    && PhaseOk(s, init)
    && (s.failure.NoFailure? || s.failure.TooBig?)
  }

  // Whatever the phase, a recovery from here yields exactly the durable events.
  lemma Recoverable(s: State, init: Disk)
    requires Inv(s, init)
    ensures ValidDisk(s.g, s.disk)
    ensures SameHomes(s.g, Replay(init, s.events[..s.durable]), Recover(s.g, s.disk))
  {
    match s.phase
    case Running => RecoverEmpty(s.g, s.disk);
    case Recovering(base, done) => RecoverPrefix(s.g, base, done);
    case Committing(base, done) =>
      if s.lh == [] {
        RecoverEmpty(s.g, s.disk);
      } else {
        var data := NewData(s.lh, s.cache);
        CommitPrefix(s.g, base, s.lh, data, done);
        if done > |s.lh| {
          CommittedIsCache(s.g, base, s.lh, s.cache, Recover(s.g, s.disk));
          assert s.events[..s.durable] == s.events;
        }
      }
  }

  // Replacing the logged blocks by their cached contents gives the cache.
  lemma CommittedIsCache(g: Geometry, base: Disk, lh: seq<nat>, cache: Disk, e: Disk)
    requires Homes(g, base, lh) && CleanOutside(g, lh, cache, base)
    requires HomesUpdated(g, base, lh, NewData(lh, cache), e)
    ensures SameHomes(g, cache, e)
  {
    forall b | Home(g, cache, b) ensures e[b] == cache[b] {
      if i :| 0 <= i < |lh| && lh[i] == b {
        assert e[lh[i]] == NewData(lh, cache)[i];
      }
    }
  }

  // ----- Every step keeps it

  lemma BeginKeeps(s: State, init: Disk)
    requires Inv(s, init) && Enabled(s, Begin)
    ensures Inv(Step(s, Begin), init)
  {
    var t := Step(s, Begin);
    forall j | s.durable <= j < |s.events| && InProgress(s, s.events[j].op) ensures InProgress(t, s.events[j].op) {
      var i :| 0 <= i < |s.ops| && s.ops[i].id == s.events[j].op;
      assert t.ops[i].id == s.events[j].op;
    }
  }

  lemma LogWriteEvents(s: State, init: Disk, i: nat, b: nat, data: Block)
    requires Inv(s, init) && Enabled(s, LogWrite(i, b, data)) && !LogFull(s.g, s.lh)
    ensures EventsOk(LogWriteStep(s, i, b, data))
  {
    var t := LogWriteStep(s, i, b, data);
    assert t.ops[i].id == s.ops[i].id;
    forall j | t.durable <= j < |t.events|
      ensures t.events[j].bno in t.lh && (t.events[j].op in t.ended || InProgress(t, t.events[j].op))
    {
      if j < |s.events| && InProgress(s, s.events[j].op) {
        var k :| 0 <= k < |s.ops| && s.ops[k].id == s.events[j].op;
        assert t.ops[k].id == s.events[j].op;
      }
    }
  }

  lemma LogWriteSane(s: State, init: Disk, i: nat, b: nat, data: Block)
    requires Inv(s, init) && Enabled(s, LogWrite(i, b, data)) && !LogFull(s.g, s.lh)
    ensures Sane(LogWriteStep(s, i, b, data)) && OpsOk(LogWriteStep(s, i, b, data))
  {
    var t := LogWriteStep(s, i, b, data);
    assert |t.lh| > 0;
    assert forall k :: 0 <= k < |t.ops| ==> t.ops[k].id == s.ops[k].id;
  }

  lemma LogWriteKeeps(s: State, init: Disk, i: nat, b: nat, data: Block)
    requires Inv(s, init) && Enabled(s, LogWrite(i, b, data))
    ensures Inv(Step(s, LogWrite(i, b, data)), init)
  {
    if !LogFull(s.g, s.lh) {
      var t := LogWriteStep(s, i, b, data);
      LogWriteSane(s, init, i, b, data);
      LogWriteEvents(s, init, i, b, data);
      ReplaySnoc(init, s.events, Event(s.ops[i].id, b, data));
      assert t.events[..t.durable] == s.events[..s.durable];
    }
  }

  lemma EndOps(s: State, init: Disk, i: nat)
    requires Inv(s, init) && Enabled(s, End(i))
    ensures OpsOk(EndStep(s, i))
  {
    var t := EndStep(s, i);
    assert forall k :: 0 <= k < |t.ops| ==> t.ops[k] == s.ops[if k < i then k else k + 1];
  }

  // An operation in progress still is, or has just ended.
  lemma EndStill(s: State, i: nat, id: nat)
    requires i < |s.ops| && !s.phase.Committing? && InProgress(s, id)
    ensures id in EndStep(s, i).ended || InProgress(EndStep(s, i), id)
  {
    var t := EndStep(s, i);
    var k :| 0 <= k < |s.ops| && s.ops[k].id == id;
    if k != i {
      assert t.ops[if k < i then k else k - 1] == s.ops[k];
    }
  }

  lemma EndEvents(s: State, init: Disk, i: nat)
    requires Inv(s, init) && Enabled(s, End(i))
    ensures EventsOk(EndStep(s, i))
  {
    var t := EndStep(s, i);
    forall j | s.durable <= j < |s.events| && InProgress(s, s.events[j].op)
      ensures t.events[j].op in t.ended || InProgress(t, s.events[j].op)
    {
      EndStill(s, i, s.events[j].op);
    }
  }

  lemma EndKeeps(s: State, init: Disk, i: nat)
    requires Inv(s, init) && Enabled(s, End(i))
    ensures Inv(Step(s, End(i)), init)
  {
    var t := EndStep(s, i);
    EndOps(s, init, i);
    EndEvents(s, init, i);
    if t.phase.Committing? {
      assert Script(t)[..0] == [];
    }
  }

  lemma DiskEvents(s: State, init: Disk)
    requires Inv(s, init) && Enabled(s, DiskWrite)
    ensures Sane(DiskStep(s)) && OpsOk(DiskStep(s)) && EventsOk(DiskStep(s))
  {
    var t := DiskStep(s);
    assert forall j :: s.durable <= j < |s.events| ==> s.events[j].op in s.ended;
  }

  lemma DiskApplied(s: State, init: Disk)
    requires Inv(s, init) && Enabled(s, DiskWrite) && Sane(DiskStep(s))
    ensures var t := DiskStep(s);
            Script(t) == Script(s) && t.phase.done == s.phase.done + 1
            && t.disk == Apply(s.phase.base, Script(s)[..t.phase.done])
  {
    var base, ws, k := s.phase.base, Script(s), s.phase.done;
    assert s.disk == Apply(base, ws[..k]);
    ApplySnoc(base, ws, k);
    assert DiskStep(s).disk == Put(s.disk, ws[k]);
  }

  lemma DiskPhase(s: State, init: Disk)
    requires Inv(s, init) && Enabled(s, DiskWrite)
    requires Sane(DiskStep(s)) && EventsOk(DiskStep(s))
    ensures PhaseOk(DiskStep(s), init)
  {
    DiskApplied(s, init);
  }

  lemma DiskKeeps(s: State, init: Disk)
    requires Inv(s, init) && Enabled(s, DiskWrite)
    ensures Inv(Step(s, DiskWrite), init)
  {
    DiskEvents(s, init);
    DiskPhase(s, init);
  }

  lemma CommitDoneKeeps(s: State, init: Disk)
    requires Inv(s, init) && Enabled(s, CommitDone)
    ensures Inv(Step(s, CommitDone), init)
  {
    var base, ws := s.phase.base, Script(s);
    assert ws[..s.phase.done] == ws;
    assert s.events[..|s.events|] == s.events;
    if s.lh != [] {
      CommitEffect(s.g, base, s.lh, NewData(s.lh, s.cache));
      CommittedIsCache(s.g, base, s.lh, s.cache, s.disk);
    } else {
      assert s.durable == |s.events|;
    }
  }

  lemma CrashKeeps(s: State, init: Disk)
    requires Inv(s, init)
    ensures Inv(Step(s, Crash), init)
  {
    Recoverable(s, init);
    var t := Step(s, Crash);
    assert t.events[..t.durable] == t.events == s.events[..s.durable];
    assert Script(t)[..0] == [];
  }

  lemma RecoverDoneKeeps(s: State, init: Disk)
    requires Inv(s, init) && Enabled(s, RecoverDone)
    ensures Inv(Step(s, RecoverDone), init)
  {
    assert Script(s)[..s.phase.done] == Script(s);
    assert s.events[..|s.events|] == s.events;
    RecoverClears(s.g, s.phase.base);
  }

  lemma StepKeeps(s: State, init: Disk, a: Action)
    requires Inv(s, init) && Enabled(s, a)
    ensures Inv(Step(s, a), init) && Step(s, a).g == s.g
  {
    match a
    case Begin => BeginKeeps(s, init);
    case LogWrite(i, b, data) => LogWriteKeeps(s, init, i, b, data);
    case End(i) => EndKeeps(s, init, i);
    case DiskWrite => DiskKeeps(s, init);
    case CommitDone => CommitDoneKeeps(s, init);
    case Crash => CrashKeeps(s, init);
    case RecoverDone => RecoverDoneKeeps(s, init);
  }

  lemma {:induction false} RunKeeps(s: State, init: Disk, actions: seq<Action>, t: State)
    requires Inv(s, init) && Run(s, actions, t)
    ensures Inv(t, init) && t.g == s.g
    decreases |actions|
  {
    if actions != [] {
      var prefix, a := actions[..|actions| - 1], actions[|actions| - 1];
      var u :| Run(s, prefix, u) && Next(u, a, t);
      RunKeeps(s, init, prefix, u);
      StepKeeps(u, init, a);
    }
  }

  lemma BootOk(g: Geometry, d: Disk)
    requires ValidDisk(g, d)
    ensures Inv(Boot(g, d), Recover(g, d))
  {
    var s := Boot(g, d);
    assert Script(s)[..0] == [];
    assert s.events[..0] == [];
  }

  // Group commit, over every run from boot.
  lemma GroupCommitSafe(g: Geometry, d: Disk, actions: seq<Action>, t: State)
    requires ValidDisk(g, d) && Run(Boot(g, d), actions, t)
    ensures t.g == g && ValidDisk(g, t.disk) && t.durable <= |t.events|
    ensures SameHomes(g, Replay(Recover(g, d), t.events[..t.durable]), Recover(g, t.disk))
    ensures WholeOps(t, t.durable)
    ensures t.phase.Running? && t.ops == [] ==> t.durable == |t.events|
    ensures t.phase.Committing? ==> t.outstanding == 0
    ensures t.failure.NoFailure? || t.failure.TooBig?
  {
    BootOk(g, d);
    RunKeeps(Boot(g, d), Recover(g, d), actions, t);
    Recoverable(t, Recover(g, d));
  }

  lemma StepDurable(s: State, init: Disk, a: Action)
    requires Inv(s, init) && Enabled(s, a)
    ensures var t := Step(s, a);
            && s.durable <= t.durable <= |t.events|
            && s.events[..s.durable] <= t.events[..t.durable]
  {
  }

  // A write that is durable stays so, through any further steps and crashes: later recoveries
  // apply the same writes first.
  lemma {:induction false} DurableForGood(s: State, init: Disk, actions: seq<Action>, t: State)
    requires Inv(s, init) && Run(s, actions, t)
    ensures s.durable <= |s.events| && t.durable <= |t.events|
    ensures s.events[..s.durable] <= t.events[..t.durable]
    decreases |actions|
  {
    if actions != [] {
      var prefix, a := actions[..|actions| - 1], actions[|actions| - 1];
      var u :| Run(s, prefix, u) && Next(u, a, t);
      DurableForGood(s, init, prefix, u);
      assert Inv(u, init) by {
        RunKeeps(s, init, prefix, u);
      }
      StepDurable(u, init, a);
      PrefixThen(s.events[..s.durable], u.events[..u.durable], t.events[..t.durable]);
    }
  }

  lemma PrefixThen(a: seq<Event>, b: seq<Event>, c: seq<Event>)
    requires a <= b <= c
    ensures a <= c
  {
  }
}
