/** Every step of the log and the buffer cache together keeps their invariant. */
module CacheSteps {
  import opened Params
  import opened Log
  import opened LogDevice
  import opened GroupCommit
  import opened Bio
  import opened CacheLog

  lemma PendingHomes(t: State, init: Disk)
    requires Inv(t, init)
    ensures Distinct(Pending(t)) && Homes(t.g, t.disk, Pending(t)) && |Pending(t)| <= |t.lh|
  {
  }

  // The dirty buffers are exactly those of the pending blocks, and the buffer commit holds is
  // not one of them.
  lemma HeldIsClean(j: Joint, init: Disk)
    requires JointOk(j, init) && j.held.Some?
    ensures !j.cs[j.held.value].dirty
  {
    FirstReadInLog(j.t, init);
    assert CellOk(j.t, j.cs[j.held.value], true);
  }

  // ----- Updates of one buffer

  lemma GotOne(cs: seq<Cell>, k: nat, n: nat)
    requires OneBufferPerBlock(cs) && Chosen(cs, k, ROOTDEV, n)
    ensures OneBufferPerBlock(cs[k := Got(cs[k], ROOTDEV, n)])
  {
  }

  lemma SameOne(cs: seq<Cell>, k: nat, c: Cell)
    requires OneBufferPerBlock(cs) && k < |cs| && c.dev == cs[k].dev && c.blockno == cs[k].blockno
    ensures OneBufferPerBlock(cs[k := c])
  {
  }

  // The blocks bs stay pinned if the changed buffer keeps its block and mark, or held none of them.
  lemma PinnedUpdate(cs: seq<Cell>, k: nat, c: Cell, bs: seq<nat>)
    requires Pinned(cs, bs) && k < |cs|
    requires cs[k].dirty && cs[k].blockno in bs ==> c.dirty && c.blockno == cs[k].blockno
    ensures Pinned(cs[k := c], bs)
  {
    var after := cs[k := c];
    forall m | 0 <= m < |bs| ensures PinnedBlock(after, bs[m]) {
      assert PinnedBlock(cs, bs[m]);
      var i :| 0 <= i < |cs| && DirtyFor(cs[i], bs[m]);
      assert DirtyFor(after[i], bs[m]);
    }
  }

  lemma CellsUpdate(t: State, cs: seq<Cell>, held: Option<nat>, k: nat, c: Cell, h2: Option<nat>)
    requires Sane(t) && CellsOk(t, cs, held) && k < |cs| && CellOk(t, c, h2 == Some(k))
    requires h2 == held || ((held.None? || held == Some(k)) && (h2.None? || h2 == Some(k)))
    ensures CellsOk(t, cs[k := c], h2)
  {
  }

  // ----- Every step keeps it

  // The log moves on and nothing changes for the buffers.
  lemma PendingSame(j: Joint, init: Disk, t: State)
    requires JointOk(j, init) && Inv(t, init) && j.held.None?
    requires Pending(t) == Pending(j.t) && t.g == j.t.g && |t.disk| == |j.t.disk|
    requires t.phase.Recovering? ==> j.t.phase.Recovering?
    ensures JointOk(j.(t := t), init)
  {
    forall i | 0 <= i < |j.cs| ensures CellOk(t, j.cs[i], false) {
      assert CellOk(j.t, j.cs[i], false);
    }
  }

  lemma LogStepPending(j: Joint, init: Disk, a: Action)
    requires JointOk(j, init) && Enabled(j.t, a) && !a.Crash? && !a.DiskWrite? && !a.LogWrite?
    ensures var t := Step(j.t, a);
            Pending(t) == Pending(j.t) && t.g == j.t.g && |t.disk| == |j.t.disk| && (t.phase.Recovering? ==> j.t.phase.Recovering?)
  {
  }

  lemma LogWritePins(j: Joint, init: Disk, i: nat, b: nat, data: Block, k: nat)
    requires JointOk(j, init) && j.held.None? && Enabled(j.t, LogWrite(i, b, data)) && !LogFull(j.t.g, j.t.lh)
    requires k < |j.cs| && Holds(j.cs[k], ROOTDEV, b) && j.cs[k].refcnt > 0
    requires Inv(Step(j.t, LogWrite(i, b, data)), init)
    ensures JointOk(j.(t := Step(j.t, LogWrite(i, b, data)), cs := j.cs[k := j.cs[k].(dirty := true)]), init)
  {
    var t, c := Step(j.t, LogWrite(i, b, data)), j.cs[k].(dirty := true);
    var cs := j.cs[k := c];
    SameOne(j.cs, k, c);
    forall m | 0 <= m < |cs| ensures CellOk(t, cs[m], false) {
      assert CellOk(j.t, j.cs[m], false);
    }
    PinnedUpdate(j.cs, k, c, j.t.lh);
    forall m | 0 <= m < |t.lh| ensures PinnedBlock(cs, t.lh[m]) {
      if m == |j.t.lh| {
        assert DirtyFor(cs[k], b);
      } else {
        assert PinnedBlock(cs, j.t.lh[m]);
      }
    }
  }

  lemma LogStepKeeps(j: Joint, init: Disk, a: Action, k: nat)
    requires JointOk(j, init) && JointEnabled(j, LogStep(a, k))
    ensures JointOk(JointStep(j, LogStep(a, k)), init)
  {
    var t := Step(j.t, a);
    StepKeeps(j.t, init, a);
    if a.LogWrite? {
      if LogFull(j.t.g, j.t.lh) {
        PendingSame(j, init, t);
      } else {
        LogWritePins(j, init, a.i, a.b, a.data, k);
      }
    } else {
      LogStepPending(j, init, a);
      PendingSame(j, init, t);
    }
  }

  lemma RestartKeeps(j: Joint, init: Disk, cs: seq<Cell>)
    requires JointOk(j, init) && JointEnabled(j, Restart(cs))
    ensures JointOk(JointStep(j, Restart(cs)), init)
  {
    StepKeeps(j.t, init, Crash);
  }

  lemma GetKeeps(j: Joint, init: Disk, n: nat, k: nat)
    requires JointOk(j, init) && JointEnabled(j, Get(n, k))
    ensures JointOk(JointStep(j, Get(n, k)), init)
  {
    var c := Got(j.cs[k], ROOTDEV, n);
    assert CellOk(j.t, j.cs[k], j.held == Some(k));
    if j.held == Some(k) {
      FirstReadInLog(j.t, init);
    }
    GotOne(j.cs, k, n);
    CellsUpdate(j.t, j.cs, j.held, k, c, j.held);
    PinnedUpdate(j.cs, k, c, Pending(j.t));
  }

  // A release changes no block and no mark.
  lemma DropSame(cs: seq<Cell>, k: nat, clock: nat, bs: seq<nat>)
    requires k < |cs| && OneBufferPerBlock(cs) && Pinned(cs, bs)
    ensures OneBufferPerBlock(Drop(cs, k, clock)) && Pinned(Drop(cs, k, clock), bs)
  {
    var c := Drop(cs, k, clock)[k];
    SameOne(cs, k, c);
    PinnedUpdate(cs, k, c, bs);
  }

  lemma ReleaseKeeps(j: Joint, init: Disk, k: nat)
    requires JointOk(j, init) && JointEnabled(j, Release(k))
    ensures JointOk(JointStep(j, Release(k)), init)
  {
    assert CellOk(j.t, j.cs[k], false);
    DropSame(j.cs, k, j.clock, Pending(j.t));
    CellsUpdate(j.t, j.cs, j.held, k, Drop(j.cs, k, j.clock)[k], j.held);
  }

  // A buffer taken for a log block is clean and nobody else's.
  lemma FirstCell(t: State, init: Disk, c: Cell, n: nat)
    requires Inv(t, init) && CellOk(t, c, false) && InLog(t.g, n) && n == FirstRead(t)
    requires Recyclable(c) || Holds(c, ROOTDEV, n)
    ensures !c.dirty && CellOk(t, Got(c, ROOTDEV, n), true)
  {
    PendingHomes(t, init);
  }

  lemma ReadKeeps(j: Joint, init: Disk, k: nat)
    requires JointOk(j, init) && JointEnabled(j, Read(k))
    ensures JointOk(JointStep(j, Read(k)), init)
  {
    var n := FirstRead(j.t);
    if !NoChoice(j.cs, ROOTDEV, n) {
      var c := Got(j.cs[k], ROOTDEV, n);
      FirstReadInLog(j.t, init);
      assert CellOk(j.t, j.cs[k], false);
      FirstCell(j.t, init, j.cs[k], n);
      GotOne(j.cs, k, n);
      CellsUpdate(j.t, j.cs, j.held, k, c, Some(k));
      PinnedUpdate(j.cs, k, c, Pending(j.t));
    }
  }

  // ----- The rest of a turn

  // What is pending after the write.
  function StillPending(t: State): seq<nat>
    requires Sane(t)
  {
    if Installing(t) && Turn(t).Some? && Pending(t) != [] then Pending(t)[1..] else Pending(t)
  }

  lemma WritePending(t: State, init: Disk)
    requires Inv(t, init) && Enabled(t, DiskWrite)
    ensures Pending(Step(t, DiskWrite)) == StillPending(t)
  {
  }

  // The block being installed is the first of those pending.
  lemma TurnPending(t: State, init: Disk)
    requires Inv(t, init) && Enabled(t, DiskWrite)
    ensures Installing(t) && Turn(t).Some? && t.phase.Committing? ==> Pending(t) != [] && Pending(t)[0] == SecondRead(t).value
    ensures Distinct(Pending(t)) && Homes(t.g, t.disk, Pending(t))
  {
    PendingHomes(t, init);
  }

  // Nothing dirty but what is still pending: the buffers suit the next state too.
  lemma NextCells(t: State, init: Disk, cs: seq<Cell>)
    requires Inv(t, init) && Enabled(t, DiskWrite) && CellsOk(t, cs, None)
    requires forall i :: 0 <= i < |cs| && cs[i].dirty ==> cs[i].blockno in StillPending(t)
    ensures Sane(Step(t, DiskWrite)) && CellsOk(Step(t, DiskWrite), cs, None)
  {
    StepKeeps(t, init, DiskWrite);
    WritePending(t, init);
    var t2 := Step(t, DiskWrite);
    forall i | 0 <= i < |cs| ensures CellOk(t2, cs[i], false) {
      assert CellOk(t, cs[i], false);
    }
  }

  lemma SecondOne(t: State, cs: seq<Cell>, k: nat, b: nat)
    requires OneBufferPerBlock(cs) && Chosen(cs, k, ROOTDEV, b)
    ensures OneBufferPerBlock(cs[k := Second(t, cs[k], b)])
  {
    GotOne(cs, k, b);
    SameOne(cs[k := Got(cs[k], ROOTDEV, b)], k, Second(t, cs[k], b));
    assert cs[k := Second(t, cs[k], b)] == cs[k := Got(cs[k], ROOTDEV, b)][k := Second(t, cs[k], b)];
  }

  lemma SecondOther(j: Joint, init: Disk, k: nat, b: nat)
    requires JointOk(j, init) && CanRead(j) && j.held.Some? && SecondRead(j.t) == Some(b) && Chosen(j.cs, k, ROOTDEV, b)
    ensures k != j.held.value && CellOk(j.t, j.cs[k], false)
  {
    FirstReadInLog(j.t, init);
    assert CellOk(j.t, j.cs[k], j.held == Some(k)) && CellOk(j.t, j.cs[j.held.value], true);
  }

  // The dirty buffers are those of the blocks in bs, one each.
  ghost predicate Marked(cs: seq<Cell>, bs: seq<nat>) {
    && OneBufferPerBlock(cs) && Pinned(cs, bs)
    && forall i :: 0 <= i < |cs| && cs[i].dirty ==> cs[i].blockno in bs
  }

  lemma SecondPending(j: Joint, init: Disk, k: nat, b: nat)
    requires JointOk(j, init) && CanRead(j) && j.held.Some? && SecondRead(j.t) == Some(b) && Chosen(j.cs, k, ROOTDEV, b)
    ensures Marked(j.cs[k := Second(j.t, j.cs[k], b)], StillPending(j.t))
  {
    var c := Second(j.t, j.cs[k], b);
    var mid := j.cs[k := c];
    SecondOne(j.t, j.cs, k, b);
    SecondOther(j, init, k, b);
    TurnPending(j.t, init);
    PinnedUpdate(j.cs, k, c, StillPending(j.t));
    forall i | 0 <= i < |mid| && mid[i].dirty ensures mid[i].blockno in StillPending(j.t) {
      assert CellOk(j.t, j.cs[i], j.held == Some(i));
      if i != k && Installing(j.t) {
        OneHolder(mid, i, k);
      }
    }
  }

  // After the turn both buffers are as free as they were before it.
  lemma CopyCell(t: State, c: Cell, b: nat, clock: nat)
    requires Sane(t) && CellOk(t, c, false) && (Recyclable(c) || Holds(c, ROOTDEV, b))
    ensures CellOk(t, Dropped(Second(t, c, b), clock), false)
  {
  }

  lemma CopyCells(j: Joint, init: Disk, k: nat, b: nat)
    requires JointOk(j, init) && CanRead(j) && j.held.Some? && SecondRead(j.t) == Some(b) && Chosen(j.cs, k, ROOTDEV, b)
    ensures CellsOk(j.t, Copy(j.t, j.cs, j.held.value, k, b, j.clock), None)
  {
    var h, late := j.held.value, if Installing(j.t) then 1 else 0;
    SecondOther(j, init, k, b);
    HeldIsClean(j, init);
    CopyCell(j.t, j.cs[k], b, j.clock + late);
    var c, d := Dropped(j.cs[h], j.clock + 1 - late), Dropped(Second(j.t, j.cs[k], b), j.clock + late);
    CellsUpdate(j.t, j.cs, j.held, h, c, None);
    CellsUpdate(j.t, j.cs[h := c], None, k, d, None);
  }

  predicate SameMark(c: Cell, d: Cell) {
    c.dev == d.dev && c.blockno == d.blockno && c.dirty == d.dirty
  }

  lemma SameMarks(cs: seq<Cell>, cs2: seq<Cell>, bs: seq<nat>)
    requires |cs| == |cs2| && (forall i :: 0 <= i < |cs| ==> SameMark(cs[i], cs2[i])) && Marked(cs, bs)
    ensures Marked(cs2, bs)
  {
    forall m | 0 <= m < |bs| ensures PinnedBlock(cs2, bs[m]) {
      assert PinnedBlock(cs, bs[m]);
      var i :| 0 <= i < |cs| && DirtyFor(cs[i], bs[m]);
      assert SameMark(cs[i], cs2[i]) && DirtyFor(cs2[i], bs[m]);
    }
    forall i, j | 0 <= i < j < |cs2| && cs2[i].dev != 0 ensures !Holds(cs2[j], cs2[i].dev, cs2[i].blockno) {
      assert SameMark(cs[i], cs2[i]) && SameMark(cs[j], cs2[j]);
    }
    forall i | 0 <= i < |cs2| && cs2[i].dirty ensures cs2[i].blockno in bs {
      assert SameMark(cs[i], cs2[i]);
    }
  }

  lemma CopyMarks(t: State, cs: seq<Cell>, h: nat, k: nat, b: nat, clock: nat, bs: seq<nat>)
    requires h < |cs| && k < |cs| && h != k && Marked(cs[k := Second(t, cs[k], b)], bs)
    ensures Marked(Copy(t, cs, h, k, b, clock), bs)
  {
    SameMarks(cs[k := Second(t, cs[k], b)], Copy(t, cs, h, k, b, clock), bs);
  }

  lemma CopyPending(j: Joint, init: Disk, k: nat, b: nat)
    requires JointOk(j, init) && CanRead(j) && j.held.Some? && SecondRead(j.t) == Some(b) && Chosen(j.cs, k, ROOTDEV, b)
    ensures Marked(Copy(j.t, j.cs, j.held.value, k, b, j.clock), StillPending(j.t))
  {
    SecondOther(j, init, k, b);
    SecondPending(j, init, k, b);
    CopyMarks(j.t, j.cs, j.held.value, k, b, j.clock, StillPending(j.t));
  }

  lemma CopyStamped(t: State, cs: seq<Cell>, h: nat, k: nat, b: nat, clock: nat)
    requires h < |cs| && k < |cs| && Stamped(cs, clock)
    ensures Stamped(Copy(t, cs, h, k, b, clock), clock + 2)
  {
  }

  lemma CopyKeeps(j: Joint, init: Disk, k: nat, b: nat)
    requires JointOk(j, init) && JointEnabled(j, Finish(k)) && SecondRead(j.t) == Some(b) && Chosen(j.cs, k, ROOTDEV, b)
    ensures !NoChoice(j.cs, ROOTDEV, b) && JointOk(JointStep(j, Finish(k)), init)
  {
    var cs := Copy(j.t, j.cs, j.held.value, k, b, j.clock);
    StepKeeps(j.t, init, DiskWrite);
    CopyCells(j, init, k, b);
    CopyPending(j, init, k, b);
    CopyStamped(j.t, j.cs, j.held.value, k, b, j.clock);
    CopyDone(j, init, k, b, cs);
  }

  lemma CopyStep(j: Joint, k: nat, b: nat)
    requires JointEnabled(j, Finish(k)) && SecondRead(j.t) == Some(b) && !NoChoice(j.cs, ROOTDEV, b) && k < |j.cs|
    ensures JointStep(j, Finish(k))
            == Joint(Step(j.t, DiskWrite), Copy(j.t, j.cs, j.held.value, k, b, j.clock), j.clock + 2, None, false)
  {
  }

  lemma ChosenThere(cs: seq<Cell>, k: nat, b: nat)
    requires Chosen(cs, k, ROOTDEV, b)
    ensures !NoChoice(cs, ROOTDEV, b)
  {
  }

  lemma CopyDone(j: Joint, init: Disk, k: nat, b: nat, cs: seq<Cell>)
    requires JointOk(j, init) && JointEnabled(j, Finish(k)) && SecondRead(j.t) == Some(b) && Chosen(j.cs, k, ROOTDEV, b)
    requires cs == Copy(j.t, j.cs, j.held.value, k, b, j.clock) && Inv(Step(j.t, DiskWrite), init)
    requires CellsOk(j.t, cs, None) && Marked(cs, StillPending(j.t)) && Stamped(cs, j.clock + 2)
    ensures !NoChoice(j.cs, ROOTDEV, b) && JointOk(JointStep(j, Finish(k)), init)
  {
    ChosenThere(j.cs, k, b);
    CopyStep(j, k, b);
    var t := Step(j.t, DiskWrite);
    assert CellsOk(t, cs, None) && Pinned(cs, Pending(t)) by {
      WritePending(j.t, init);
      NextCells(j.t, init, cs);
    }
    FreeHands(t, cs, j.clock + 2, init);
  }

  lemma FreeHands(t: State, cs: seq<Cell>, clock: nat, init: Disk)
    requires Inv(t, init) && OneBufferPerBlock(cs) && Stamped(cs, clock) && CellsOk(t, cs, None) && Pinned(cs, Pending(t))
    ensures JointOk(Joint(t, cs, clock, None, false), init)
  {
  }

  // ----- The order of release

  // A buffer released for the last time is the most recently released one.
  lemma LastReleased(j: Joint, init: Disk, k: nat, i: nat)
    requires JointOk(j, init) && JointEnabled(j, Release(k)) && j.cs[k].refcnt == 1 && i < |j.cs| && i != k
    ensures var cs := JointStep(j, Release(k)).cs; cs[k].refcnt == 0 && cs[i].stamp < cs[k].stamp
  {
  }

  // After a turn the two buffers are the most recently released ones: the log's before the
  // other where a block is installed, after it where it is logged.
  lemma CopyOrder(j: Joint, init: Disk, k: nat, b: nat, i: nat)
    requires JointOk(j, init) && JointEnabled(j, Finish(k)) && SecondRead(j.t) == Some(b) && Chosen(j.cs, k, ROOTDEV, b)
    requires i < |j.cs| && i != k && i != j.held.value
    ensures var cs, h := Copy(j.t, j.cs, j.held.value, k, b, j.clock), j.held.value;
            && cs[h].refcnt == 0 && cs[i].stamp < cs[h].stamp
            && (cs[k].refcnt == 0 ==>
                  cs[i].stamp < cs[k].stamp && if Installing(j.t) then cs[h].stamp < cs[k].stamp else cs[k].stamp < cs[h].stamp)
  {
    SecondOther(j, init, k, b);
  }

  // A header write: one buffer only.
  lemma HeadKeeps(j: Joint, init: Disk, k: nat)
    requires JointOk(j, init) && JointEnabled(j, Finish(k)) && SecondRead(j.t).None?
    ensures JointOk(JointStep(j, Finish(k)), init)
  {
    var h := j.held.value;
    var cs := Drop(j.cs, h, j.clock);
    StepKeeps(j.t, init, DiskWrite);
    WritePending(j.t, init);
    HeldIsClean(j, init);
    DropSame(j.cs, h, j.clock, Pending(j.t));
    forall i | 0 <= i < |cs| ensures CellOk(j.t, cs[i], false) {
      assert CellOk(j.t, j.cs[i], j.held == Some(i));
    }
    NextCells(j.t, init, cs);
  }

  lemma FinishKeeps(j: Joint, init: Disk, k: nat)
    requires JointOk(j, init) && JointEnabled(j, Finish(k))
    ensures JointOk(JointStep(j, Finish(k)), init)
  {
    var b := SecondRead(j.t);
    if b.None? {
      HeadKeeps(j, init, k);
    } else if !NoChoice(j.cs, ROOTDEV, b.value) {
      CopyKeeps(j, init, k, b.value);
    }
  }

  lemma JointStepKeeps(j: Joint, init: Disk, x: JointAction)
    requires JointOk(j, init) && JointEnabled(j, x)
    ensures JointOk(JointStep(j, x), init)
  {
    match x
    case LogStep(a, k) => LogStepKeeps(j, init, a, k);
    case Restart(cs) => RestartKeeps(j, init, cs);
    case Get(n, k) => GetKeeps(j, init, n, k);
    case Release(k) => ReleaseKeeps(j, init, k);
    case Read(k) => ReadKeeps(j, init, k);
    case Finish(k) => FinishKeeps(j, init, k);
  }

  lemma JointGeometry(j: Joint, init: Disk, x: JointAction)
    requires JointOk(j, init) && JointEnabled(j, x)
    ensures JointStep(j, x).t.g == j.t.g
  {
    match x
    case LogStep(a, k) => StepKeeps(j.t, init, a);
    case Restart(cs) => StepKeeps(j.t, init, Crash);
    case Get(n, k) =>
    case Release(k) =>
    case Read(k) =>
    case Finish(k) => StepKeeps(j.t, init, DiskWrite);
  }
}
