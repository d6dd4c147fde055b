/** Crash consistency of the file system: at every moment of every run the disk holds, after
    recovery, a file system with exact ownership and no holes, the one after some finished call. */
module CrashConsistency {
  import opened Params
  import opened Log
  import opened LogDevice
  import opened GroupCommit
  import opened FileBlocks
  import opened FileWrites
  import opened WriteLog
  import opened DiskLayout
  import opened FileCalls
  import opened FileLog

  // ----- Every step keeps the invariant

  // A step of the log that adds no event, drops none and makes none durable.
  lemma QuietStep(l: Layout, g: Geometry, f: Filing, init: Disk, s: State)
    requires FilesOk(l, g, f, init)
    requires Played(s, init) == Played(f.s, init) && Kept(s, init) == Kept(f.s, init)
    requires f.call.Some? ==> InProgress(s, f.call.value.op)
    ensures FilesOk(l, g, f.(s := s), init)
  {
  }

  // The operation of a call goes on through a step that is not its end.
  lemma StillCalling(f: Filing, init: Disk, a: Action)
    requires Inv(f.s, init) && Enabled(f.s, a) && !a.LogWrite? && !a.Crash? && (a.End? ==> !CallBy(f, a.i))
    requires f.call.Some? && InProgress(f.s, f.call.value.op)
    ensures InProgress(Step(f.s, a), f.call.value.op)
  {
    var t, id := Step(f.s, a), f.call.value.op;
    var k :| 0 <= k < |f.s.ops| && f.s.ops[k].id == id;
    if a.End? {
      assert t.ops[if k < a.i then k else k - 1].id == id;
    } else {
      assert t.ops[k].id == id;
    }
  }

  lemma SameEvents(s: State, init: Disk, a: Action)
    requires Enabled(s, a) && !a.LogWrite? && !a.Crash? && !CommitPoint(s, a)
    ensures Played(Step(s, a), init) == Played(s, init) && Kept(Step(s, a), init) == Kept(s, init)
  {
  }

  lemma CommitDurable(s: State, init: Disk)
    requires Inv(s, init) && Enabled(s, DiskWrite) && CommitPoint(s, DiskWrite)
    ensures var t := Step(s, DiskWrite); s.ops == [] && t.durable == |t.events| && Played(t, init) == Played(s, init)
  {
  }

  lemma KeptAll(s: State, init: Disk)
    requires s.durable == |s.events|
    ensures Kept(s, init) == Played(s, init)
  {
    assert s.events[..s.durable] == s.events;
  }

  // The commit point: no operation is open, so the last finished call becomes durable.
  lemma HeldLatest(l: Layout, g: Geometry, hist: seq<Fs>, mark: nat, kept: Disk, played: Disk)
    requires Held(l, g, hist, mark, None, kept, played)
    ensures Held(l, g, hist, |hist| - 1, None, played, played)
  {
  }

  lemma CommitKeeps(l: Layout, g: Geometry, f: Filing, init: Disk, s: State)
    requires FilesOk(l, g, f, init) && f.s.ops == [] && s.durable == |s.events| && Played(s, init) == Played(f.s, init)
    ensures f.call.None? && FilesOk(l, g, Filing(s, f.hist, |f.hist| - 1, None), init)
  {
    KeptAll(s, init);
    HeldLatest(l, g, f.hist, f.mark, Kept(f.s, init), Played(f.s, init));
  }

  lemma CommitStep(l: Layout, f: Filing)
    requires FileEnabled(l, f, Other(DiskWrite)) && CommitPoint(f.s, DiskWrite) && f.hist != [] && f.call.None?
    ensures FileStep(l, f, Other(DiskWrite)) == Filing(Step(f.s, DiskWrite), f.hist, |f.hist| - 1, None)
  {
  }

  lemma CrashEvents(s: State, init: Disk)
    requires Enabled(s, Crash) && s.durable <= |s.events|
    ensures var t := Step(s, Crash); t.durable == |t.events| && Played(t, init) == Kept(s, init)
  {
  }

  lemma HeldMark(l: Layout, g: Geometry, hist: seq<Fs>, mark: nat, call: Option<Calling>, kept: Disk, played: Disk)
    requires Held(l, g, hist, mark, call, kept, played) && |kept| == |played|
    ensures Held(l, g, hist[..mark + 1], mark, None, kept, kept)
  {
  }

  lemma CrashKeepsFiles(l: Layout, g: Geometry, f: Filing, init: Disk, s: State)
    requires FilesOk(l, g, f, init) && s.durable == |s.events| && Played(s, init) == Kept(f.s, init)
    ensures FilesOk(l, g, Filing(s, f.hist[..f.mark + 1], f.mark, None), init)
  {
    KeptAll(s, init);
    HeldMark(l, g, f.hist, f.mark, f.call, Kept(f.s, init), Played(f.s, init));
  }

  lemma CrashStep(l: Layout, f: Filing)
    requires FileEnabled(l, f, Other(Crash)) && f.mark < |f.hist|
    ensures FileStep(l, f, Other(Crash)) == Filing(Step(f.s, Crash), f.hist[..f.mark + 1], f.mark, None)
  {
  }

  lemma OtherStep(l: Layout, f: Filing, a: Action)
    requires FileEnabled(l, f, Other(a)) && !a.Crash? && !CommitPoint(f.s, a)
    ensures FileStep(l, f, Other(a)) == f.(s := Step(f.s, a))
  {
  }

  lemma OtherKeeps(l: Layout, g: Geometry, f: Filing, init: Disk, a: Action)
    requires FileOk(l, g, f, init) && FileEnabled(l, f, Other(a))
    ensures FilesOk(l, g, FileStep(l, f, Other(a)), init)
  {
    var t := Step(f.s, a);
    if a.Crash? {
      CrashEvents(f.s, init);
      CrashKeepsFiles(l, g, f, init, t);
      CrashStep(l, f);
    } else if CommitPoint(f.s, a) {
      CommitDurable(f.s, init);
      CommitKeeps(l, g, f, init, t);
      CommitStep(l, f);
    } else {
      SameEvents(f.s, init, a);
      if f.call.Some? {
        StillCalling(f, init, a);
      }
      QuietStep(l, g, f, init, t);
      OtherStep(l, f, a);
    }
  }

  // Before its first log_write a call differs from what is there only in blocks that it will log.
  lemma StartPartly(l: Layout, g: Geometry, a: Fs, n: Fs, todo: seq<nat>, d: Disk)
    requires OnDisk(l, g, a, d) && Call(l, a, n, Elements(todo))
    ensures Partly(l, g, d, n, todo)
  {
    forall b | b in Differing(l, g, n, d) ensures b in Elements(todo) {
      OnDiskAt(l, g, a, d, b);
      if b !in Elements(todo) {
        UnloggedSame(l, a, n, Elements(todo), b);
      }
    }
  }

  lemma CallGood(l: Layout, g: Geometry, a: Fs, n: Fs, log: set<nat>, size: nat)
    requires GoodFs(l, g, a, size) && Call(l, a, n, log)
    ensures GoodFs(l, g, n, size)
  {
    CallPlaced(l, g, a, n, log);
  }

  lemma HeldCall(l: Layout, g: Geometry, hist: seq<Fs>, mark: nat, c: Calling, kept: Disk, played: Disk)
    requires Held(l, g, hist, mark, None, kept, played) && Call(l, hist[|hist| - 1], c.next, Elements(c.todo))
    ensures Held(l, g, hist, mark, Some(c), kept, played)
  {
    StartPartly(l, g, hist[|hist| - 1], c.next, c.todo, played);
    CallGood(l, g, hist[|hist| - 1], c.next, Elements(c.todo), |played|);
  }

  lemma StartKeeps(l: Layout, g: Geometry, f: Filing, init: Disk, i: nat, n: Fs, todo: seq<nat>)
    requires FilesOk(l, g, f, init) && FileEnabled(l, f, StartCall(i, n, todo))
    ensures FilesOk(l, g, FileStep(l, f, StartCall(i, n, todo)), init)
  {
    HeldCall(l, g, f.hist, f.mark, Calling(f.s.ops[i].id, n, todo), Kept(f.s, init), Played(f.s, init));
  }

  // One log_write of the call: what it writes, and what it leaves.
  lemma LoggedEvent(s: State, init: Disk, i: nat, b: nat, data: Log.Block, id: nat)
    requires Inv(s, init) && Enabled(s, LogWrite(i, b, data)) && InProgress(s, id)
    ensures var t := Step(s, LogWrite(i, b, data));
            && Kept(t, init) == Kept(s, init)
            && InProgress(t, id)
            && Played(t, init) == if t.failure.NoFailure? then Put(Played(s, init), Write(b, data)) else Played(s, init)
  {
    var t := Step(s, LogWrite(i, b, data));
    var k :| 0 <= k < |s.ops| && s.ops[k].id == id;
    assert t.ops[k].id == id;
    assert t.events[..t.durable] == s.events[..s.durable];
    if !LogFull(s.g, s.lh) {
      ReplaySnoc(init, s.events, Event(s.ops[i].id, b, data));
    }
  }

  lemma DraftPartly(l: Layout, g: Geometry, d: Disk, next: Fs, todo: seq<nat>, b: nat, data: Log.Block)
    requires Partly(l, g, d, next, todo) && b in todo
    ensures Partly(l, g, Put(d, Write(b, data)), next, todo)
  {
    var e := Put(d, Write(b, data));
    forall x | x in Differing(l, g, next, e) ensures x in Elements(todo) {
      assert x == b || x in Differing(l, g, next, d);
    }
  }

  // The call is under way in s too, with rest still to log.
  lemma CallGoesOn(l: Layout, g: Geometry, f: Filing, init: Disk, s: State, rest: seq<nat>)
    requires FilesOk(l, g, f, init) && f.call.Some? && Kept(s, init) == Kept(f.s, init) && |Played(s, init)| == |init|
    requires InProgress(s, f.call.value.op) && Partly(l, g, Played(s, init), f.call.value.next, rest)
    ensures FilesOk(l, g, f.(s := s, call := Some(f.call.value.(todo := rest))), init)
  {
  }

  lemma DraftKeeps(l: Layout, g: Geometry, f: Filing, init: Disk, i: nat, b: nat, data: Log.Block)
    requires FileOk(l, g, f, init) && FileEnabled(l, f, LogDraft(i, b, data))
    ensures FilesOk(l, g, FileStep(l, f, LogDraft(i, b, data)), init)
  {
    var c, t := f.call.value, Step(f.s, LogWrite(i, b, data));
    LoggedEvent(f.s, init, i, b, data, c.op);
    DraftPartly(l, g, Played(f.s, init), c.next, c.todo, b, data);
    CallGoesOn(l, g, f, init, t, c.todo);
  }

  lemma FinalPartly(l: Layout, g: Geometry, d: Disk, next: Fs, todo: seq<nat>)
    requires Partly(l, g, d, next, todo) && todo != []
    ensures Partly(l, g, Put(d, Write(todo[0], BlockOnDisk(l, next, todo[0]))), next, todo[1..])
  {
    var e := Put(d, Write(todo[0], BlockOnDisk(l, next, todo[0])));
    forall b | b in Differing(l, g, next, e) ensures b in Elements(todo[1..]) {
      assert b != todo[0] && b in Differing(l, g, next, d);
      assert b in Elements(todo);
    }
  }

  lemma FinalKeeps(l: Layout, g: Geometry, f: Filing, init: Disk, i: nat)
    requires FileOk(l, g, f, init) && FileEnabled(l, f, LogFinal(i))
    ensures FilesOk(l, g, FileStep(l, f, LogFinal(i)), init)
  {
    var a, c := FinalWrite(l, f, i), f.call.value;
    var t := Step(f.s, a);
    LoggedEvent(f.s, init, i, a.b, a.data, c.op);
    FinalPartly(l, g, Played(f.s, init), c.next, c.todo);
    CallGoesOn(l, g, f, init, t, if t.failure.NoFailure? then c.todo[1..] else c.todo);
  }

  lemma FinishKeepsFiles(l: Layout, g: Geometry, f: Filing, init: Disk)
    requires FilesOk(l, g, f, init) && FileEnabled(l, f, FinishCall)
    ensures FilesOk(l, g, FileStep(l, f, FinishCall), init)
  {
  }

  lemma FilesStep(l: Layout, g: Geometry, f: Filing, init: Disk, x: FileAction)
    requires FileOk(l, g, f, init) && FileEnabled(l, f, x)
    ensures FilesOk(l, g, FileStep(l, f, x), init)
  {
    match x
    case Other(a) => OtherKeeps(l, g, f, init, a);
    case StartCall(i, n, todo) => StartKeeps(l, g, f, init, i, n, todo);
    case LogDraft(i, b, data) => DraftKeeps(l, g, f, init, i, b, data);
    case LogFinal(i) => FinalKeeps(l, g, f, init, i);
    case FinishCall => FinishKeepsFiles(l, g, f, init);
  }

  // The log's part of a step.
  lemma LogPart(l: Layout, f: Filing, init: Disk, x: FileAction)
    requires Inv(f.s, init) && FileEnabled(l, f, x)
    ensures Inv(FileStep(l, f, x).s, init) && FileStep(l, f, x).s.g == f.s.g
  {
    match x
    case Other(a) => StepKeeps(f.s, init, a);
    case StartCall(i, n, todo) =>
    case LogDraft(i, b, data) => StepKeeps(f.s, init, LogWrite(i, b, data));
    case LogFinal(i) => StepKeeps(f.s, init, FinalWrite(l, f, i));
    case FinishCall =>
  }

  lemma FileStepKeeps(l: Layout, g: Geometry, f: Filing, init: Disk, x: FileAction)
    requires FileOk(l, g, f, init) && FileEnabled(l, f, x)
    ensures FileOk(l, g, FileStep(l, f, x), init)
  {
    LogPart(l, f, init, x);
    FilesStep(l, g, f, init, x);
  }

  lemma {:induction false} FileRunKeeps(l: Layout, g: Geometry, s: Filing, init: Disk, xs: seq<FileAction>, f: Filing)
    requires FileOk(l, g, s, init) && FileRun(l, s, xs, f)
    ensures FileOk(l, g, f, init)
    decreases |xs|
  {
    if xs != [] {
      var prefix, x := xs[..|xs| - 1], xs[|xs| - 1];
      var u :| FileRun(l, s, prefix, u) && FileEnabled(l, u, x) && f == FileStep(l, u, x);
      FileRunKeeps(l, g, s, init, prefix, u);
      FileStepKeeps(l, g, u, init, x);
    }
  }

  // ----- What recovery gives

  // Boot on a disk that holds fs after recovery.
  function Boots(g: Geometry, d: Disk, fs: Fs): Filing {
    Filing(Boot(g, d), [fs], 0, None)
  }

  lemma BootsOk(l: Layout, g: Geometry, d: Disk, fs: Fs)
    requires ValidDisk(g, d) && GoodFs(l, g, fs, |d|) && OnDisk(l, g, fs, Recover(g, d))
    ensures FileOk(l, g, Boots(g, d, fs), Recover(g, d))
  {
    BootOk(g, d);
    assert Boot(g, d).events[..0] == [];
  }

  lemma OnDiskToo(l: Layout, g: Geometry, fs: Fs, d: Disk, e: Disk)
    requires OnDisk(l, g, fs, d) && SameHomes(g, d, e)
    ensures OnDisk(l, g, fs, e)
  {
    assert Differing(l, g, fs, e) == Differing(l, g, fs, d);
  }

  lemma KeptHolds(l: Layout, g: Geometry, f: Filing, init: Disk)
    requires FileOk(l, g, f, init)
    ensures ValidDisk(g, f.s.disk) && f.mark < |f.hist| && OnDisk(l, g, f.hist[f.mark], Recover(g, f.s.disk))
  {
    Recoverable(f.s, init);
    OnDiskToo(l, g, f.hist[f.mark], Kept(f.s, init), Recover(g, f.s.disk));
  }

  lemma AllDurable(s: State, init: Disk)
    requires Inv(s, init) && s.phase.Running? && s.ops == []
    ensures s.durable == |s.events|
  {
  }

  lemma NoCall(l: Layout, g: Geometry, f: Filing, init: Disk)
    requires FilesOk(l, g, f, init) && f.s.ops == []
    ensures f.hist != [] && OnDisk(l, g, Latest(f), Played(f.s, init))
  {
  }

  lemma SettledHolds(l: Layout, g: Geometry, f: Filing, init: Disk)
    requires FileOk(l, g, f, init) && f.s.phase.Running? && f.s.ops == []
    ensures f.hist != [] && ValidDisk(g, f.s.disk) && OnDisk(l, g, Latest(f), Recover(g, f.s.disk))
  {
    NoCall(l, g, f, init);
    assert Played(f.s, init) == Kept(f.s, init) by {
      AllDurable(f.s, init);
      KeptAll(f.s, init);
    }
    Recoverable(f.s, init);
    OnDiskToo(l, g, Latest(f), Kept(f.s, init), Recover(g, f.s.disk));
  }

  lemma HistGood(l: Layout, g: Geometry, f: Filing, init: Disk, m: nat)
    requires FilesOk(l, g, f, init) && m < |f.hist|
    ensures Owned(f.hist[m]) && NoHoles(f.hist[m]) && Clean(f.hist[m])
  {
  }

  // In every run, at every moment, whatever has crashed: recovery gives the file system after the
  // calls up to mark, with exact ownership, no holes and no old data past the end of a file; and
  // after the last finished call, when no operation is open and no commit is running.
  lemma CrashConsistent(l: Layout, g: Geometry, d: Disk, fs: Fs, xs: seq<FileAction>, f: Filing)
    requires ValidDisk(g, d) && GoodFs(l, g, fs, |d|) && OnDisk(l, g, fs, Recover(g, d))
    requires FileRun(l, Boots(g, d, fs), xs, f)
    ensures f.s.g == g && ValidDisk(g, f.s.disk) && f.mark < |f.hist|
    ensures var kept := f.hist[f.mark];
            Owned(kept) && NoHoles(kept) && Clean(kept) && OnDisk(l, g, kept, Recover(g, f.s.disk))
    ensures f.s.phase.Running? && f.s.ops == [] ==> OnDisk(l, g, Latest(f), Recover(g, f.s.disk))
  {
    var init := Recover(g, d);
    BootsOk(l, g, d, fs);
    FileRunKeeps(l, g, Boots(g, d, fs), init, xs, f);
    KeptHolds(l, g, f, init);
    HistGood(l, g, f, init, f.mark);
    if f.s.phase.Running? && f.s.ops == [] {
      SettledHolds(l, g, f, init);
    }
  }

  lemma StepKept(l: Layout, f: Filing, x: FileAction)
    requires f.mark < |f.hist| && FileEnabled(l, f, x)
    ensures var t := FileStep(l, f, x);
            f.mark <= t.mark < |t.hist| && f.hist[..f.mark + 1] <= t.hist[..t.mark + 1]
  {
  }

  // Calls that recovery would give stay so, through any further steps and crashes.
  lemma {:induction false} KeptForGood(l: Layout, s: Filing, xs: seq<FileAction>, f: Filing)
    requires s.mark < |s.hist| && FileRun(l, s, xs, f)
    ensures s.mark <= f.mark < |f.hist| && s.hist[..s.mark + 1] <= f.hist[..f.mark + 1]
    decreases |xs|
  {
    if xs != [] {
      var prefix, x := xs[..|xs| - 1], xs[|xs| - 1];
      var u :| FileRun(l, s, prefix, u) && FileEnabled(l, u, x) && f == FileStep(l, u, x);
      KeptForGood(l, s, prefix, u);
      StepKept(l, u, x);
      KeptThen(s.hist[..s.mark + 1], u.hist[..u.mark + 1], f.hist[..f.mark + 1]);
    }
  }

  lemma KeptThen(a: seq<Fs>, b: seq<Fs>, c: seq<Fs>)
    requires a <= b <= c
    ensures a <= c
  {
  }
}
