/** The log and the buffer cache at work together. Operations and readers get buffers, log_write
    pins them, and commit and recovery read two blocks for most of their writes: the first stays
    held while the second is read. The invariant says which buffers are dirty, and who holds one,
    at every step of every run. */
module CacheLog {
  import opened Params
  import opened Log
  import opened LogDevice
  import opened GroupCommit
  import opened Bio

  // ----- What commit and recovery read before their next write

  function Progress(t: State): nat {
    if t.phase.Running? then 0 else t.phase.done
  }

  // The blocks that are copied, and how many writes precede their installation.
  function Copied(t: State): seq<nat>
    requires Sane(t)
  {
    match t.phase
    case Running => []
    case Committing(_, _) => t.lh
    case Recovering(base, _) => Entries(t.g, base)
  }

  // Which block the next write copies, if it copies one: into the log, then out of it.
  function Turn(t: State): Option<nat>
    requires Sane(t)
  {
    var n, w := |Copied(t)|, Progress(t);
    if w < n then Some(w)
    else if t.phase.Committing? && n < w <= 2 * n then Some(w - n - 1)
    else None
  }

  predicate Installing(t: State) {
    t.phase.Recovering? || (t.phase.Committing? && t.phase.done > |t.lh|)
  }

  // The log block of that turn, or the header.
  function FirstRead(t: State): nat
    requires Sane(t)
  {
    var j := Turn(t);
    if j.Some? then t.g.start + 1 + j.value else t.g.start
  }

  // Its home block.
  function SecondRead(t: State): (b: Option<nat>)
    requires Sane(t)
  {
    var j := Turn(t);
    if j.Some? then Some(Copied(t)[j.value]) else None
  }

  // The blocks that are logged and not yet installed: their buffers are dirty.
  function Pending(t: State): seq<nat> {
    match t.phase
    case Running => t.lh
    case Recovering(_, _) => []
    case Committing(_, w) =>
      var n := |t.lh|;
      if w <= n then t.lh else if w <= 2 * n then t.lh[w - n - 1..] else []
  }

  // The next write goes to one of the two blocks that were read for it.
  lemma WritesWhatIsRead(t: State)
    requires Sane(t) && !t.phase.Running? && t.phase.done < |Script(t)|
    ensures var w := Script(t)[t.phase.done];
            w.bno == if SecondRead(t).Some? && Installing(t) then SecondRead(t).value else FirstRead(t)
  {
  }

  lemma FirstReadInLog(t: State, init: Disk)
    requires Inv(t, init) && !t.phase.Running? && t.phase.done < |Script(t)|
    ensures InLog(t.g, FirstRead(t))
    ensures SecondRead(t).Some? ==> Home(t.g, t.disk, SecondRead(t).value)
    ensures t.phase.Committing? && SecondRead(t).Some? ==> SecondRead(t).value in Pending(t)
  {
    Recoverable(t, init);
  }

  // ----- Steps

  // t, the buffers, and the buffer that commit or recovery holds between its two reads. stuck:
  // one of its breads has found no buffer.
  datatype Joint = Joint(t: State, cs: seq<Cell>, clock: nat, held: Option<nat>, stuck: bool)

  datatype JointAction =
    | LogStep(a: Action, k: nat)  // a step of the log; log_write is passed buffer k
    | Restart(cs: seq<Cell>)      // a crash; the buffers after it
    | Get(n: nat, k: nat)         // a bread of home block n by some process gives buffer k
    | Release(k: nat)
    | Read(k: nat)                // the first bread for the next write
    | Finish(k: nat)              // the second one, the write and the releases

  // Buffers that nobody uses and that need no writing.
  ghost predicate Quiet(cs: seq<Cell>) {
    && |cs| == NBUF && OneBufferPerBlock(cs)
    && forall i :: 0 <= i < |cs| ==> cs[i].refcnt == 0 && !cs[i].dirty
  }

  // The latest release among cs.
  function Newest(cs: seq<Cell>): (n: nat)
    ensures Stamped(cs, n)
  {
    if cs == [] then 0
    else
      var n, c := Newest(cs[..|cs| - 1]), cs[|cs| - 1];
      assert forall i :: 0 <= i < |cs| - 1 ==> cs[i] == cs[..|cs| - 1][i];
      if c.stamp > n then c.stamp else n
  }

  predicate Stamped(cs: seq<Cell>, clock: nat) {
    forall i :: 0 <= i < |cs| ==> cs[i].stamp <= clock
  }

  // brelse: the last reference puts the buffer at the front of the ring.
  function Dropped(c: Cell, clock: nat): Cell {
    var n := if c.refcnt > 0 then c.refcnt - 1 else 0;
    c.(refcnt := n, stamp := if n == 0 then clock + 1 else c.stamp)
  }

  function Drop(cs: seq<Cell>, k: nat, clock: nat): seq<Cell>
    requires k < |cs|
  {
    cs[k := Dropped(cs[k], clock)]
  }

  // The second buffer of a turn, while both are held.
  function Second(t: State, c: Cell, b: nat): Cell {
    var got := Got(c, ROOTDEV, b);
    if Installing(t) then got.(dirty := false) else got
  }

  // The second buffer is read, written if it is the destination, and both are released: the
  // log's first where a block is installed, the other way round where it is logged.
  function Copy(t: State, cs: seq<Cell>, held: nat, k: nat, b: nat, clock: nat): seq<Cell>
    requires held < |cs| && k < |cs|
  {
    var late := if Installing(t) then 1 else 0;
    cs[held := Dropped(cs[held], clock + 1 - late)][k := Dropped(Second(t, cs[k], b), clock + late)]
  }

  predicate Going(j: Joint) {
    !j.stuck && j.t.failure.NoFailure?
  }

  predicate CanRead(j: Joint) {
    Going(j) && Enabled(j.t, DiskWrite)
  }

  ghost predicate JointEnabled(j: Joint, x: JointAction) {
    match x
    case LogStep(a, k) =>
      && Going(j) && j.held.None? && !a.Crash? && !a.DiskWrite? && Enabled(j.t, a)
      && (a.LogWrite? ==> k < |j.cs| && Holds(j.cs[k], ROOTDEV, a.b) && j.cs[k].refcnt > 0)
    case Restart(cs) => Enabled(j.t, Crash) && Quiet(cs)
    case Get(n, k) =>
      && Going(j) && !j.t.phase.Recovering? && Home(j.t.g, j.t.disk, n) && Chosen(j.cs, k, ROOTDEV, n)
    case Release(k) => Going(j) && k < |j.cs| && j.cs[k].refcnt > 0 && j.held != Some(k)
    case Read(k) =>
      && CanRead(j) && j.held.None?
      && (NoChoice(j.cs, ROOTDEV, FirstRead(j.t)) || Chosen(j.cs, k, ROOTDEV, FirstRead(j.t)))
    case Finish(k) =>
      && CanRead(j) && j.held.Some? && j.held.value < |j.cs|
      && var b := SecondRead(j.t);
         b.Some? ==> NoChoice(j.cs, ROOTDEV, b.value) || Chosen(j.cs, k, ROOTDEV, b.value)
  }

  ghost function JointStep(j: Joint, x: JointAction): Joint
    requires JointEnabled(j, x)
  {
    match x
    case LogStep(a, k) =>
      var t := Step(j.t, a);
      j.(t := t, cs := if a.LogWrite? && t.failure.NoFailure? then j.cs[k := j.cs[k].(dirty := true)] else j.cs)
    case Restart(cs) => Joint(Step(j.t, Crash), cs, Newest(cs), None, false)
    case Get(n, k) => j.(cs := j.cs[k := Got(j.cs[k], ROOTDEV, n)])
    case Release(k) => j.(cs := Drop(j.cs, k, j.clock), clock := j.clock + 1)
    case Read(k) =>
      var n := FirstRead(j.t);
      if NoChoice(j.cs, ROOTDEV, n) then j.(stuck := true)
      else j.(cs := j.cs[k := Got(j.cs[k], ROOTDEV, n)], held := Some(k))
    case Finish(k) =>
      var b, t := SecondRead(j.t), Step(j.t, DiskWrite);
      if b.None? then Joint(t, Drop(j.cs, j.held.value, j.clock), j.clock + 1, None, false)
      else if NoChoice(j.cs, ROOTDEV, b.value) then j.(stuck := true)
      else Joint(t, Copy(j.t, j.cs, j.held.value, k, b.value, j.clock), j.clock + 2, None, false)
  }

  // ----- The invariant

  predicate CellOk(t: State, c: Cell, held: bool)
    requires Sane(t)
  {
    && (c.dirty ==> c.dev == ROOTDEV && c.blockno in Pending(t))
    && (held ==> c.refcnt == 1 && Holds(c, ROOTDEV, FirstRead(t)))
    && (!held && c.refcnt > 0 ==> !t.phase.Recovering? && c.dev == ROOTDEV && Home(t.g, t.disk, c.blockno))
  }

  ghost predicate CellsOk(t: State, cs: seq<Cell>, held: Option<nat>)
    requires Sane(t)
  {
    |cs| == NBUF && forall i :: 0 <= i < |cs| ==> CellOk(t, cs[i], held == Some(i))
  }

  ghost predicate PinnedBlock(cs: seq<Cell>, b: nat) {
    exists i :: 0 <= i < |cs| && DirtyFor(cs[i], b)
  }

  ghost predicate Pinned(cs: seq<Cell>, bs: seq<nat>) {
    forall k :: 0 <= k < |bs| ==> PinnedBlock(cs, bs[k])
  }

  ghost predicate HeldOk(t: State, held: Option<nat>)
    requires Sane(t)
  {
    held.Some? ==> held.value < NBUF && !t.phase.Running? && t.phase.done < |Script(t)|
  }

  ghost predicate JointOk(j: Joint, init: Disk) {
    && Inv(j.t, init)
    && OneBufferPerBlock(j.cs) && Stamped(j.cs, j.clock)
    && CellsOk(j.t, j.cs, j.held)
    && Pinned(j.cs, Pending(j.t))
    && HeldOk(j.t, j.held)
  }
}
