/** File-system calls as operations of the log: the blocks of each call are logged one by one,
    with commits, other operations' begins and ends, and crashes at any point between. */
module FileLog {
  import opened Params
  import opened Log
  import opened LogDevice
  import opened GroupCommit
  import opened FileBlocks
  import opened FileWrites
  import opened WriteLog
  import opened DiskLayout
  import opened FileCalls

  // ----- Calls and the log together

  // A call under way, by operation op, to the file system next: todo lists the blocks it will
  // still log, each for the last time with its final contents.
  datatype Calling = Calling(op: nat, next: Fs, todo: seq<nat>)

  // hist: what was recovered at boot, and the file system after each finished call since; the
  // calls up to number mark were in the log when its header was written.
  datatype Filing = Filing(s: State, hist: seq<Fs>, mark: nat, call: Option<Calling>)

  datatype FileAction =
    | Other(a: Action)                              // anything but a log_write
    | StartCall(i: nat, next: Fs, todo: seq<nat>)   // by the i-th running operation
    | LogDraft(i: nat, b: nat, data: Log.Block)     // a block that the call will log again
    | LogFinal(i: nat)                              // the next block of todo
    | FinishCall

  function Latest(f: Filing): Fs
    requires f.hist != []
  {
    f.hist[|f.hist| - 1]
  }

  function Elements(bs: seq<nat>): set<nat> {
    set b | b in bs
  }

  predicate CallBy(f: Filing, i: nat) {
    f.call.Some? && i < |f.s.ops| && f.s.ops[i].id == f.call.value.op
  }

  // The header write of a commit that logged something.
  predicate CommitPoint(s: State, a: Action) {
    a.DiskWrite? && s.phase.Committing? && s.phase.done == |s.lh|
  }

  function FinalWrite(l: Layout, f: Filing, i: nat): Action
    requires f.call.Some? && f.call.value.todo != []
  {
    var b := f.call.value.todo[0];
    LogWrite(i, b, BlockOnDisk(l, f.call.value.next, b))
  }

  ghost predicate FileEnabled(l: Layout, f: Filing, x: FileAction) {
    match x
    case Other(a) => Enabled(f.s, a) && !a.LogWrite? && (a.End? ==> !CallBy(f, a.i))
    case StartCall(i, n, todo) =>
      f.s.failure.NoFailure? && f.call.None? && i < |f.s.ops| && f.hist != [] && Call(l, Latest(f), n, Elements(todo))
    case LogDraft(i, b, data) => CallBy(f, i) && b in f.call.value.todo && Enabled(f.s, LogWrite(i, b, data))
    case LogFinal(i) => CallBy(f, i) && f.call.value.todo != [] && Enabled(f.s, FinalWrite(l, f, i))
    case FinishCall => f.s.failure.NoFailure? && f.call.Some? && f.call.value.todo == []
  }

  ghost function FileStep(l: Layout, f: Filing, x: FileAction): Filing
    requires FileEnabled(l, f, x)
  {
    match x
    case Other(a) =>
      var s := Step(f.s, a);
      if a.Crash? then Filing(s, if f.mark < |f.hist| then f.hist[..f.mark + 1] else f.hist, f.mark, None)
      else f.(s := s, mark := if CommitPoint(f.s, a) && f.hist != [] then |f.hist| - 1 else f.mark)
    case StartCall(i, n, todo) => f.(call := Some(Calling(f.s.ops[i].id, n, todo)))
    case LogDraft(i, b, data) => f.(s := Step(f.s, LogWrite(i, b, data)))
    case LogFinal(i) =>
      var s, c := Step(f.s, FinalWrite(l, f, i)), f.call.value;
      f.(s := s, call := Some(if s.failure.NoFailure? then c.(todo := c.todo[1..]) else c))
    case FinishCall => f.(hist := f.hist + [f.call.value.next], call := None)
  }

  ghost predicate FileRun(l: Layout, s: Filing, xs: seq<FileAction>, f: Filing)
    decreases |xs|
  {
    if xs == [] then s == f
    else
      var prefix, x := xs[..|xs| - 1], xs[|xs| - 1];
      exists u :: FileRun(l, s, prefix, u) && FileEnabled(l, u, x) && f == FileStep(l, u, x)
  }

  // ----- The invariant

  ghost predicate GoodFs(l: Layout, g: Geometry, fs: Fs, size: nat) {
    Owned(fs) && NoHoles(fs) && Clean(fs) && Placed(l, g, fs) && Fielded(fs) && |fs.blocks| == size
  }

  ghost predicate GoodHist(l: Layout, g: Geometry, hist: seq<Fs>, size: nat) {
    hist != [] && forall m :: 0 <= m < |hist| ==> GoodFs(l, g, hist[m], size)
  }

  // Outside todo, d holds what next asks for.
  predicate Partly(l: Layout, g: Geometry, d: Disk, next: Fs, todo: seq<nat>) {
    |d| == |next.blocks| && Differing(l, g, next, d) <= Elements(todo)
  }

  // What a recovery would give.
  function Kept(s: State, init: Disk): Disk {
    if s.durable <= |s.events| then Replay(init, s.events[..s.durable]) else init
  }

  // The same with everything logged so far.
  function Played(s: State, init: Disk): Disk {
    Replay(init, s.events)
  }

  // The disks a recovery would give, now and with everything logged so far, against the calls.
  ghost predicate Held(l: Layout, g: Geometry, hist: seq<Fs>, mark: nat, call: Option<Calling>, kept: Disk, played: Disk) {
    && GoodHist(l, g, hist, |played|) && mark < |hist| && OnDisk(l, g, hist[mark], kept)
    && match call {
         case None => OnDisk(l, g, hist[|hist| - 1], played)
         case Some(c) => GoodFs(l, g, c.next, |played|) && Partly(l, g, played, c.next, c.todo)
       }
  }

  ghost predicate FilesOk(l: Layout, g: Geometry, f: Filing, init: Disk) {
    && (f.call.Some? ==> InProgress(f.s, f.call.value.op))
    && Held(l, g, f.hist, f.mark, f.call, Kept(f.s, init), Played(f.s, init))
  }

  ghost predicate FileOk(l: Layout, g: Geometry, f: Filing, init: Disk) {
    Inv(f.s, init) && f.s.g == g && FilesOk(l, g, f, init)
  }
}
