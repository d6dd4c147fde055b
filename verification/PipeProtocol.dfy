/** Readers and writers of one pipe: any number of them, each running from one sleep to the
    next while it holds the pipe's lock. Bytes come out in the order they went in, and
    exactly when a sleeper can be left behind. */
module PipeProtocol {
  import opened Params
  import opened Pipe

  datatype Proc =
    | Idle
    | Writing(addr: seq<Byte>, i: nat, asleep: bool)  // in pipewrite, bytes before i stored
    | Reading(n: nat, asleep: bool)                   // in piperead

  datatype State = State(
    queue: seq<Byte>,
    readopen: bool,
    writeopen: bool,
    procs: seq<Proc>,
    killed: seq<bool>,
    result: seq<int>,     // what each process's last read or write has returned
    stored: seq<Byte>,    // by all writes so far
    returned: seq<Byte>)  // by all reads so far

  datatype Action =
    | StartWrite(p: nat, addr: seq<Byte>)
    | StartRead(p: nat, n: nat)
    | RunWrite(p: nat)
    | RunRead(p: nat)
    | Close(writable: bool)
    | Kill(p: nat)

  function Init(n: nat): State {
    State([], true, true, seq(n, _ => Idle), seq(n, _ => false), seq(n, _ => 0), [], [])
  }

  function Awake(q: Proc): Proc {
    match q
    case Idle => Idle
    case Writing(addr, i, _) => Writing(addr, i, false)
    case Reading(n, _) => Reading(n, false)
  }

  function WakeReaders(ps: seq<Proc>): (r: seq<Proc>)
    ensures |r| == |ps|
  {
    seq(|ps|, i requires 0 <= i < |ps| => if ps[i].Reading? then Awake(ps[i]) else ps[i])
  }

  function WakeWriters(ps: seq<Proc>): (r: seq<Proc>)
    ensures |r| == |ps|
  {
    seq(|ps|, i requires 0 <= i < |ps| => if ps[i].Writing? then Awake(ps[i]) else ps[i])
  }

  predicate Sane(s: State) {
    && |s.killed| == |s.procs| == |s.result|
    && |s.queue| <= PIPESIZE
    && forall p :: 0 <= p < |s.procs| && s.procs[p].Writing? ==> s.procs[p].i <= |s.procs[p].addr|
  }

  // A process in a read or a write keeps its end of the pipe open, so an end is closed
  // only when no one is using it.
  predicate Enabled(s: State, a: Action) {
    && Sane(s)
    && match a
       case StartWrite(p, _) => p < |s.procs| && s.procs[p].Idle? && s.writeopen
       case StartRead(p, _) => p < |s.procs| && s.procs[p].Idle? && s.readopen
       case RunWrite(p) => p < |s.procs| && s.procs[p].Writing? && !s.procs[p].asleep
       case RunRead(p) => p < |s.procs| && s.procs[p].Reading? && !s.procs[p].asleep
       case Kill(p) => p < |s.procs|
       case Close(writable) =>
         if writable then s.writeopen && forall p :: 0 <= p < |s.procs| ==> !s.procs[p].Writing?
         else s.readopen && forall p :: 0 <= p < |s.procs| ==> !s.procs[p].Reading?
  }

  function Step(s: State, a: Action): State
    requires Enabled(s, a)
  {
    match a
    case StartWrite(p, addr) => s.(procs := s.procs[p := Writing(addr, 0, false)])
    case StartRead(p, n) => s.(procs := s.procs[p := Reading(n, false)])
    case RunWrite(p) => WriteStep(s, p)
    case RunRead(p) => ReadStep(s, p)
    case Close(writable) =>
      if writable then s.(writeopen := false, procs := WakeReaders(s.procs))
      else s.(readopen := false, procs := WakeWriters(s.procs))
    case Kill(p) =>
      s.(killed := s.killed[p := true], procs := s.procs[p := Awake(s.procs[p])])
  }

  function WriteStep(s: State, p: nat): State
    requires Sane(s) && p < |s.procs| && s.procs[p].Writing?
  {
    var Writing(addr, start, _) := s.procs[p];
    var i := WriteStop(s.queue, addr, start);
    var t := s.(queue := s.queue + addr[start..i], stored := s.stored + addr[start..i]);
    match WriteOutcome(addr, i, s.readopen, s.killed[p])
    case Done => t.(procs := WakeReaders(s.procs)[p := Idle], result := s.result[p := |addr|])
    case Fail => t.(procs := s.procs[p := Idle], result := s.result[p := -1])
    case Sleep => t.(procs := WakeReaders(s.procs)[p := Writing(addr, i, true)])
  }

  function ReadStep(s: State, p: nat): State
    requires Sane(s) && p < |s.procs| && s.procs[p].Reading?
  {
    var n := s.procs[p].n;
    match ReadOutcome(s.queue, s.writeopen, s.killed[p])
    case Done =>
      var m := Min(n, |s.queue|);
      s.(queue := s.queue[m..], returned := s.returned + s.queue[..m], procs := WakeWriters(s.procs)[p := Idle], result := s.result[p := m])
    case Fail => s.(procs := s.procs[p := Idle], result := s.result[p := -1])
    case Sleep => s.(procs := s.procs[p := Reading(n, true)])
  }

  ghost predicate Run(s: State, actions: seq<Action>, t: State)
    decreases |actions|
  {
    if actions == [] then s == t
    else
      var prefix, a := actions[..|actions| - 1], actions[|actions| - 1];
      exists u :: Run(s, prefix, u) && Enabled(u, a) && t == Step(u, a)
  }

  // ----- What always holds, kills or not

  ghost predicate Inv(s: State) {
    && Sane(s)
    && s.stored == s.returned + s.queue
    && (!s.readopen ==> forall p :: 0 <= p < |s.procs| ==> !s.procs[p].Reading?)
    && (!s.writeopen ==> forall p :: 0 <= p < |s.procs| ==> !s.procs[p].Writing?)
  }

  lemma WriteKeeps(s: State, p: nat)
    requires Inv(s) && Enabled(s, RunWrite(p))
    ensures Inv(WriteStep(s, p))
  {
    var t := WriteStep(s, p);
    var Writing(addr, start, _) := s.procs[p];
    var more := addr[start..WriteStop(s.queue, addr, start)];
    assert s.returned + s.queue + more == s.returned + (s.queue + more);
    assert forall q :: 0 <= q < |t.procs| && q != p ==> Awake(t.procs[q]) == Awake(s.procs[q]);
  }

  lemma ReadKeeps(s: State, p: nat)
    requires Inv(s) && Enabled(s, RunRead(p))
    ensures Inv(ReadStep(s, p))
  {
    var t := ReadStep(s, p);
    var m := Min(s.procs[p].n, |s.queue|);
    assert s.returned + s.queue == s.returned + s.queue[..m] + s.queue[m..];
    assert forall q :: 0 <= q < |t.procs| && q != p ==> Awake(t.procs[q]) == Awake(s.procs[q]);
  }

  lemma StepKeeps(s: State, a: Action)
    requires Inv(s) && Enabled(s, a)
    ensures Inv(Step(s, a))
  {
    match a
    case RunWrite(p) => WriteKeeps(s, p);
    case RunRead(p) => ReadKeeps(s, p);
    case _ =>
  }

  // ----- Sleepers

  predicate SleepingReader(s: State, p: nat) {
    p < |s.procs| && s.procs[p].Reading? && s.procs[p].asleep
  }

  predicate SleepingWriter(s: State, p: nat) {
    p < |s.procs| && s.procs[p].Writing? && s.procs[p].asleep
  }

  // A reader sleeps only on an empty pipe that may still be written, a writer only on a
  // full pipe that may still be read.
  ghost predicate SleepersOk(s: State) {
    && (forall p :: SleepingReader(s, p) ==> s.queue == [] && s.writeopen)
    && (forall p :: SleepingWriter(s, p) ==> |s.queue| == PIPESIZE && s.readopen)
  }

  // The one way to strand a reader: a killed writer fills an empty pipe on which a reader
  // sleeps, with bytes to spare, and returns without waking it.
  ghost predicate Strands(s: State, a: Action) {
    && a.RunWrite? && a.p < |s.procs| && s.procs[a.p].Writing? && a.p < |s.killed|
    && s.killed[a.p]
    && s.queue == []
    && |s.procs[a.p].addr| - s.procs[a.p].i > PIPESIZE
    && exists q :: SleepingReader(s, q)
  }

  lemma WriteSleepers(s: State, p: nat)
    requires Inv(s) && SleepersOk(s) && Enabled(s, RunWrite(p))
    ensures SleepersOk(WriteStep(s, p)) <==> !Strands(s, RunWrite(p))
  {
    var t := WriteStep(s, p);
    var Writing(addr, start, _) := s.procs[p];
    var i := WriteStop(s.queue, addr, start);
    forall q | SleepingWriter(t, q) && q != p ensures SleepingWriter(s, q) {
    }
    if q :| SleepingReader(t, q) {
      assert SleepingReader(s, q) && WriteOutcome(addr, i, s.readopen, s.killed[p]).Fail?;
    }
    if Strands(s, RunWrite(p)) {
      var q :| SleepingReader(s, q);
      assert SleepingReader(t, q) && t.queue != [];
    }
  }

  lemma ReadSleepers(s: State, p: nat)
    requires Inv(s) && SleepersOk(s) && Enabled(s, RunRead(p))
    ensures SleepersOk(ReadStep(s, p))
  {
    var t := ReadStep(s, p);
    forall q | SleepingReader(t, q) ensures t.queue == [] && t.writeopen {
      assert q != p ==> SleepingReader(s, q);
    }
    assert forall q :: SleepingWriter(t, q) ==> SleepingWriter(s, q);
  }

  lemma OtherSleepers(s: State, a: Action)
    requires Inv(s) && SleepersOk(s) && Enabled(s, a) && !a.RunWrite? && !a.RunRead?
    ensures SleepersOk(Step(s, a))
  {
    var t := Step(s, a);
    forall q | SleepingReader(t, q) ensures t.queue == [] && t.writeopen {
      assert SleepingReader(s, q);
    }
    forall q | SleepingWriter(t, q) ensures |t.queue| == PIPESIZE && t.readopen {
      assert SleepingWriter(s, q);
    }
  }

  // A step keeps the sleepers right if and only if it is not that one.
  lemma SleepersKept(s: State, a: Action)
    requires Inv(s) && SleepersOk(s) && Enabled(s, a)
    ensures SleepersOk(Step(s, a)) <==> !Strands(s, a)
  {
    match a
    case RunWrite(p) => WriteSleepers(s, p);
    case RunRead(p) => ReadSleepers(s, p);
    case _ => OtherSleepers(s, a);
  }

  // ----- Whole runs

  // First in, first out: what has been read is a prefix of what has been written.
  lemma {:induction false} Fifo(n: nat, actions: seq<Action>, t: State)
    requires Run(Init(n), actions, t)
    ensures Inv(t) && t.returned <= t.stored
    decreases |actions|
  {
    if actions != [] {
      var prefix, a := actions[..|actions| - 1], actions[|actions| - 1];
      var u :| Run(Init(n), prefix, u) && Enabled(u, a) && t == Step(u, a);
      Fifo(n, prefix, u);
      StepKeeps(u, a);
    }
  }

  lemma StepEnds(s: State, a: Action)
    requires Enabled(s, a)
    ensures Step(s, a).writeopen <==> s.writeopen && a != Close(true)
    ensures Step(s, a).readopen <==> s.readopen && a != Close(false)
  {
  }

  // An end is open until it is closed, and then never again.
  lemma {:induction false} OpenEnds(n: nat, actions: seq<Action>, t: State)
    requires Run(Init(n), actions, t)
    ensures t.writeopen <==> Close(true) !in actions
    ensures t.readopen <==> Close(false) !in actions
    decreases |actions|
  {
    if actions != [] {
      var prefix, a := actions[..|actions| - 1], actions[|actions| - 1];
      var u :| Run(Init(n), prefix, u) && Enabled(u, a) && t == Step(u, a);
      OpenEnds(n, prefix, u);
      StepEnds(u, a);
      assert actions == prefix + [a];
    }
  }

  // What a read comes to, in every run: it returns the next bytes as soon as there are any; with
  // none left, 0 if the write end is closed, else -1 if the caller is killed, else it sleeps.
  lemma ReadReturns(n: nat, actions: seq<Action>, s: State, p: nat)
    requires Run(Init(n), actions, s) && Enabled(s, RunRead(p))
    ensures var t, m, left := Step(s, RunRead(p)), s.procs[p].n, |s.stored| - |s.returned|;
            && t.stored == s.stored && left >= 0
            && (left > 0 ==> t.procs[p].Idle? && t.result[p] == (if m <= left then m else left)
                             && t.returned == s.stored[..|s.returned| + t.result[p]])
            && (left == 0 ==> t.returned == s.returned)
            && (left == 0 && !s.writeopen ==> t.procs[p].Idle? && t.result[p] == 0)
            && (left == 0 && s.writeopen && s.killed[p] ==> t.procs[p].Idle? && t.result[p] == -1)
            && (left == 0 && s.writeopen && !s.killed[p] ==> SleepingReader(t, p))
  {
    Fifo(n, actions, s);
    assert s.stored[|s.returned|..] == s.queue;
  }

  // And a write: it returns all of its bytes as soon as the rest of them fit; otherwise it fills
  // the pipe, and then fails if nobody reads or the caller is killed, else it sleeps.
  lemma WriteReturns(n: nat, actions: seq<Action>, s: State, p: nat)
    requires Run(Init(n), actions, s) && Enabled(s, RunWrite(p))
    ensures var t, addr, i := Step(s, RunWrite(p)), s.procs[p].addr, s.procs[p].i;
            var room := 512 - (|s.stored| - |s.returned|);
            && i <= |addr| && room >= 0 && t.returned == s.returned
            && (|addr| - i <= room ==> t.procs[p].Idle? && t.result[p] == |addr| && t.stored == s.stored + addr[i..])
            && (|addr| - i > room ==>
                  && t.stored == s.stored + addr[i..i + room]
                  && if !s.readopen || s.killed[p] then t.procs[p].Idle? && t.result[p] == -1
                     else t.procs[p] == Writing(addr, i + room, true))
  {
    Fifo(n, actions, s);
  }

  // A killed process does not sleep here, nor goes to sleep.
  ghost predicate KilledAwake(s: State) {
    Sane(s) && forall p: nat :: SleepingReader(s, p) || SleepingWriter(s, p) ==> !s.killed[p]
  }

  lemma KilledStep(s: State, a: Action)
    requires KilledAwake(s) && Enabled(s, a) && Sane(Step(s, a))
    ensures KilledAwake(Step(s, a))
  {
    var t := Step(s, a);
    forall p: nat | SleepingReader(t, p) || SleepingWriter(t, p) ensures !t.killed[p] {
      if SleepingReader(s, p) || SleepingWriter(s, p) {
        assert !s.killed[p];
      }
    }
  }

  lemma {:induction false} KilledReturns(n: nat, actions: seq<Action>, t: State)
    requires Run(Init(n), actions, t)
    ensures KilledAwake(t)
    decreases |actions|
  {
    if actions != [] {
      var prefix, a := actions[..|actions| - 1], actions[|actions| - 1];
      var u :| Run(Init(n), prefix, u) && Enabled(u, a) && t == Step(u, a);
      KilledReturns(n, prefix, u);
      Fifo(n, actions, t);
      KilledStep(u, a);
    }
  }

  // Without kills no sleeper is ever left behind.
  lemma {:induction false} NoLostWakeup(n: nat, actions: seq<Action>, t: State)
    requires Run(Init(n), actions, t)
    requires forall i :: 0 <= i < |actions| ==> !actions[i].Kill?
    ensures SleepersOk(t) && forall p :: 0 <= p < |t.killed| ==> !t.killed[p]
    decreases |actions|
  {
    if actions != [] {
      var prefix, a := actions[..|actions| - 1], actions[|actions| - 1];
      var u :| Run(Init(n), prefix, u) && Enabled(u, a) && t == Step(u, a);
      NoLostWakeup(n, prefix, u);
      Fifo(n, prefix, u);
      SleepersKept(u, a);
    }
  }

  // So readers and writers never all wait for each other.
  lemma NoDeadlock(n: nat, actions: seq<Action>, t: State, p: nat, q: nat)
    requires Run(Init(n), actions, t) && forall i :: 0 <= i < |actions| ==> !actions[i].Kill?
    ensures !(SleepingReader(t, p) && SleepingWriter(t, q))
  {
    NoLostWakeup(n, actions, t);
  }

  lemma Extend(s: State, actions: seq<Action>, u: State, a: Action)
    requires Run(s, actions, u) && Enabled(u, a)
    ensures Run(s, actions + [a], Step(u, a))
  {
    var all := actions + [a];
    assert all[..|all| - 1] == actions && all[|all| - 1] == a;
  }

  // A reader asleep on the empty pipe.
  lemma Sleeper() returns (actions: seq<Action>, t: State)
    ensures Run(Init(2), actions, t) && t == Init(2).(procs := [Reading(1, true), Idle])
  {
    var s := Init(2).(procs := [Reading(1, false), Idle]);
    Extend(Init(2), [], Init(2), StartRead(0, 1));
    Extend(Init(2), [] + [StartRead(0, 1)], s, RunRead(0));
    actions, t := [] + [StartRead(0, 1)] + [RunRead(0)], Init(2).(procs := [Reading(1, true), Idle]);
  }

  // The same, and a writer just started.
  lemma SleeperAndWriter(addr: seq<Byte>) returns (actions: seq<Action>, t: State)
    ensures Run(Init(2), actions, t)
    ensures t == Init(2).(procs := [Reading(1, true), Writing(addr, 0, false)])
  {
    actions, t := Sleeper();
    Extend(Init(2), actions, t, StartWrite(1, addr));
    actions, t := actions + [StartWrite(1, addr)], t.(procs := [Reading(1, true), Writing(addr, 0, false)]);
  }

  // With a kill it happens: the writer has one byte more than the pipe takes.
  lemma StrandedReader() returns (actions: seq<Action>, t: State)
    ensures Run(Init(2), actions, t)
    ensures SleepingReader(t, 0) && |t.queue| == PIPESIZE && !SleepersOk(t)
  {
    var addr: seq<Byte> := seq(PIPESIZE + 1, _ => 0);
    actions, t := SleeperAndWriter(addr);
    Extend(Init(2), actions, t, Kill(1));
    actions, t := actions + [Kill(1)], t.(killed := t.killed[1 := true], procs := t.procs[1 := Awake(t.procs[1])]);
    Extend(Init(2), actions, t, RunWrite(1));
    actions, t := actions + [RunWrite(1)], WriteStep(t, 1);
    assert SleepingReader(t, 0);
  }
}
