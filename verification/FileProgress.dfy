/** Every call can be carried through: from any settled state there is a run in which the call
    logs its blocks, its operation ends, the commit finishes, and recovery gives its result. */
module FileProgress {
  import opened Params
  import opened Log
  import opened LogDevice
  import opened GroupCommit
  import opened Reservation
  import opened FileBlocks
  import opened WriteLog
  import opened DiskLayout
  import opened FileCalls
  import opened FileLog
  import opened CrashConsistency
  import P = LogProgress

  lemma Extend(l: Layout, g: Geometry, s: Filing, init: Disk, xs: seq<FileAction>, f: Filing, x: FileAction, t: Filing)
    requires FileRun(l, s, xs, f) && FileOk(l, g, f, init) && FileEnabled(l, f, x) && t == FileStep(l, f, x)
    ensures FileRun(l, s, xs + [x], t) && FileOk(l, g, t, init)
  {
    var all := xs + [x];
    assert all[..|all| - 1] == xs && all[|all| - 1] == x;
    FileStepKeeps(l, g, f, init, x);
  }

  // ----- From no call under way to an idle log

  lemma SettleStep(l: Layout, g: Geometry, f: Filing, init: Disk) returns (x: FileAction, t: Filing)
    requires FileOk(l, g, f, init) && f.call.None? && f.s.failure.NoFailure? && !P.Settled(f.s)
    ensures FileEnabled(l, f, x) && t == FileStep(l, f, x) && t.hist == f.hist && t.call.None?
    ensures t.s.failure.NoFailure? && t.s == Step(f.s, P.Onwards(f.s)) && Enabled(f.s, P.Onwards(f.s))
  {
    P.OnwardsEnabled(f.s, init);
    x := Other(P.Onwards(f.s));
    t := FileStep(l, f, x);
  }

  lemma {:induction false} Settles(l: Layout, g: Geometry, s: Filing, init: Disk, before: seq<FileAction>, f: Filing)
    returns (xs: seq<FileAction>, t: Filing)
    requires FileRun(l, s, before, f) && FileOk(l, g, f, init) && f.call.None? && f.s.failure.NoFailure?
    ensures FileRun(l, s, xs, t) && FileOk(l, g, t, init) && P.Settled(t.s) && t.hist == f.hist
    decreases |f.s.ops|, P.Rank(f.s), P.Left(f.s)
  {
    if P.Settled(f.s) {
      xs, t := before, f;
    } else {
      var x, u := SettleStep(l, g, f, init);
      P.OnwardsCloser(f.s, init);
      Extend(l, g, s, init, before, f, x, u);
      xs, t := Settles(l, g, s, init, before + [x], u);
    }
  }

  // ----- The call's log_writes

  // One operation is open; its call has still to log rest, for which there is room.
  ghost predicate Going(g: Geometry, f: Filing, n: Fs, rest: seq<nat>) {
    && f.s.phase.Running? && f.s.failure.NoFailure? && |f.s.ops| == 1 && f.s.outstanding == 1
    && f.call == Some(Calling(f.s.ops[0].id, n, rest))
    && |f.s.lh| + |rest| <= Room(g)
    && forall b :: b in rest ==> Home(g, f.s.disk, b)
  }

  lemma LogOne(l: Layout, g: Geometry, f: Filing, n: Fs, rest: seq<nat>) returns (t: Filing)
    requires Sane(f.s) && f.s.g == g && Going(g, f, n, rest) && rest != []
    ensures FileEnabled(l, f, LogFinal(0)) && t == FileStep(l, f, LogFinal(0))
    ensures Going(g, t, n, rest[1..]) && t.hist == f.hist
  {
    assert rest[0] in rest;
    assert forall b :: b in rest[1..] ==> b in rest;
    t := FileStep(l, f, LogFinal(0));
  }

  lemma {:induction false} LogAll(l: Layout, g: Geometry, s: Filing, init: Disk, before: seq<FileAction>, f: Filing, n: Fs, rest: seq<nat>)
    returns (xs: seq<FileAction>, t: Filing)
    requires FileRun(l, s, before, f) && FileOk(l, g, f, init) && Going(g, f, n, rest)
    ensures FileRun(l, s, xs, t) && FileOk(l, g, t, init) && Going(g, t, n, []) && t.hist == f.hist
    decreases |rest|
  {
    if rest == [] {
      xs, t := before, f;
    } else {
      var u := LogOne(l, g, f, n, rest);
      Extend(l, g, s, init, before, f, LogFinal(0), u);
      xs, t := LogAll(l, g, s, init, before + [LogFinal(0)], u, n, rest[1..]);
    }
  }

  // ----- The whole call

  lemma BeginOne(l: Layout, g: Geometry, f: Filing, init: Disk) returns (t: Filing)
    requires FileOk(l, g, f, init) && f.s.failure.NoFailure? && P.Settled(f.s)
    ensures FileEnabled(l, f, Other(Begin)) && t == FileStep(l, f, Other(Begin))
    ensures t.s.phase.Running? && t.s.failure.NoFailure? && |t.s.ops| == 1 && t.s.outstanding == 1 && t.s.lh == []
    ensures t.s.disk == f.s.disk && t.hist == f.hist && t.call == f.call
  {
    P.SettledOk(f.s, init);
    t := FileStep(l, f, Other(Begin));
  }

  lemma Begun(l: Layout, g: Geometry, f: Filing, init: Disk) returns (xs: seq<FileAction>, t: Filing)
    requires FileOk(l, g, f, init) && f.s.failure.NoFailure? && P.Settled(f.s)
    ensures FileRun(l, f, xs, t) && FileOk(l, g, t, init)
    ensures t.s.phase.Running? && t.s.failure.NoFailure? && |t.s.ops| == 1 && t.s.outstanding == 1 && t.s.lh == []
    ensures t.hist == f.hist && t.call.None?
  {
    assert f.call.None?;
    assert FileRun(l, f, [], f);
    t := BeginOne(l, g, f, init);
    Extend(l, g, f, init, [], f, Other(Begin), t);
    xs := [] + [Other(Begin)];
  }

  lemma StartOne(l: Layout, g: Geometry, f: Filing, n: Fs, todo: seq<nat>) returns (t: Filing)
    requires f.s.phase.Running? && f.s.failure.NoFailure? && |f.s.ops| == 1 && f.s.outstanding == 1 && f.s.lh == []
    requires f.call.None? && f.hist != [] && Call(l, Latest(f), n, Elements(todo)) && |todo| <= Room(g)
    requires forall b :: b in todo ==> Home(g, f.s.disk, b)
    ensures FileEnabled(l, f, StartCall(0, n, todo)) && t == FileStep(l, f, StartCall(0, n, todo))
    ensures Going(g, t, n, todo) && t.hist == f.hist
  {
    t := FileStep(l, f, StartCall(0, n, todo));
  }

  lemma CallHomes(l: Layout, g: Geometry, f: Filing, init: Disk, n: Fs, todo: seq<nat>)
    requires FileOk(l, g, f, init) && Call(l, Latest(f), n, Elements(todo))
    ensures forall b :: b in todo ==> Home(g, f.s.disk, b)
  {
    CallPlaced(l, g, Latest(f), n, Elements(todo));
    forall b | b in todo ensures Home(g, f.s.disk, b) {
      assert b in Elements(todo);
    }
  }

  lemma Started(l: Layout, g: Geometry, s: Filing, init: Disk, before: seq<FileAction>, f: Filing, n: Fs, todo: seq<nat>)
    returns (xs: seq<FileAction>, t: Filing)
    requires FileRun(l, s, before, f) && FileOk(l, g, f, init)
    requires f.s.phase.Running? && f.s.failure.NoFailure? && |f.s.ops| == 1 && f.s.outstanding == 1 && f.s.lh == []
    requires f.call.None? && f.hist != [] && Call(l, Latest(f), n, Elements(todo)) && |todo| <= Room(g)
    ensures FileRun(l, s, xs, t) && FileOk(l, g, t, init) && Going(g, t, n, todo) && t.hist == f.hist
  {
    CallHomes(l, g, f, init, n, todo);
    t := StartOne(l, g, f, n, todo);
    Extend(l, g, s, init, before, f, StartCall(0, n, todo), t);
    xs := before + [StartCall(0, n, todo)];
  }

  lemma SameLatest(f: Filing, t: Filing)
    requires f.hist != [] && t.hist == f.hist
    ensures Latest(t) == Latest(f)
  {
  }

  // Any call whose blocks the log has room for: it gets done, and recovery gives its result.
  lemma CallCanRun(l: Layout, g: Geometry, f: Filing, init: Disk, n: Fs, todo: seq<nat>)
    returns (xs: seq<FileAction>, t: Filing)
    requires FileOk(l, g, f, init) && f.s.failure.NoFailure? && P.Settled(f.s)
    requires Call(l, Latest(f), n, Elements(todo)) && |todo| <= Room(g)
    ensures FileRun(l, f, xs, t) && FileOk(l, g, t, init) && t.hist == f.hist + [n] && P.Settled(t.s)
    ensures ValidDisk(g, t.s.disk) && OnDisk(l, g, n, Recover(g, t.s.disk))
  {
    xs, t := Begun(l, g, f, init);
    SameLatest(f, t);
    xs, t := Started(l, g, f, init, xs, t, n, todo);
    xs, t := LogAll(l, g, f, init, xs, t, n, todo);
    var u := t;
    t := FileStep(l, u, FinishCall);
    Extend(l, g, f, init, xs, u, FinishCall, t);
    xs, t := Settles(l, g, f, init, xs + [FinishCall], t);
    SettledHolds(l, g, t, init);
  }
}
