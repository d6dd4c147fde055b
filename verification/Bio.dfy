/** The buffer cache of bio.c: a fixed number of buffers on a doubly linked ring, recycled
    least recently released first, over the disk of memide.c. The cache refines a plain
    array of block contents. */
module Bio {

  const ROOTDEV: nat := 1

  type Data = seq<int>

  // A buffer without its links. The last two fields record facts for the statements:
  // the holder has changed data but not yet written or logged it; and when the buffer was
  // last put at the front of the ring.
  datatype Cell = Cell(
    dev: nat,
    blockno: nat,
    valid: bool,   // B_VALID
    dirty: bool,   // B_DIRTY
    owner: nat,    // the sleep-lock: pid of its holder, 0 when free
    refcnt: nat,
    data: Data,
    changed: bool,
    stamp: nat)

  const Fresh := Cell(0, 0, false, false, 0, 0, [], false, 0)

  predicate Holds(c: Cell, dev: nat, blockno: nat) {
    c.dev == dev && c.blockno == blockno
  }

  // bget may give such a buffer to another block.
  predicate Recyclable(c: Cell) {
    c.refcnt == 0 && !c.dirty
  }

  // ----- What the buffers, in ring order, mean

  // No block of a real device sits in two buffers.
  ghost predicate OneBufferPerBlock(cs: seq<Cell>) {
    forall i, j :: 0 <= i < j < |cs| && cs[i].dev != 0 ==> !Holds(cs[j], cs[i].dev, cs[i].blockno)
  }

  ghost predicate Sound(c: Cell, latest: seq<Data>) {
    && (c.valid ==> c.dev == ROOTDEV && c.blockno < |latest|)
    && (c.dirty ==> c.valid)
    && (c.owner != 0 ==> c.refcnt > 0)
    && (c.changed ==> c.owner != 0 && c.valid)
    && (c.valid && !c.changed ==> c.data == latest[c.blockno])
  }

  predicate DirtyFor(c: Cell, n: nat) {
    c.dirty && c.blockno == n
  }

  // Only a dirty buffer can be ahead of the disk.
  ghost predicate DiskBehindDirtyOnly(cs: seq<Cell>, disk: seq<Data>, latest: seq<Data>) {
    && |latest| == |disk|
    && forall n :: 0 <= n < |disk| && latest[n] != disk[n] ==> exists i :: 0 <= i < |cs| && DirtyFor(cs[i], n)
  }

  // The ring lists every buffer exactly once, most recently released first.
  ghost predicate ByRelease(ring: seq<nat>, cs: seq<Cell>, clock: nat) {
    && |ring| == |cs|
    && (forall i :: 0 <= i < |ring| ==> ring[i] < |cs|)
    && (forall b: nat :: b < |cs| ==> b in ring)
    && (forall i, j :: 0 <= i < j < |ring| ==> cs[ring[i]].stamp > cs[ring[j]].stamp)
    && (forall b :: 0 <= b < |cs| ==> cs[b].stamp <= clock)
  }

  // The buffers cs over disk stand for the block contents latest.
  ghost predicate Refines(cs: seq<Cell>, disk: seq<Data>, latest: seq<Data>) {
    && OneBufferPerBlock(cs)
    && (forall i :: 0 <= i < |cs| ==> Sound(cs[i], latest))
    && DiskBehindDirtyOnly(cs, disk, latest)
  }

  // ----- What each operation does to its buffer

  function Got(c: Cell, dev: nat, blockno: nat): Cell {
    if Holds(c, dev, blockno) then c.(refcnt := c.refcnt + 1)
    else c.(dev := dev, blockno := blockno, valid := false, dirty := false, refcnt := 1)
  }

  // bget's choice: the buffer holding the block, else the recyclable one released longest ago.
  ghost predicate Chosen(cs: seq<Cell>, k: nat, dev: nat, blockno: nat) {
    && k < |cs|
    && (|| Holds(cs[k], dev, blockno)
        || (&& (forall i :: 0 <= i < |cs| ==> !Holds(cs[i], dev, blockno))
            && Recyclable(cs[k])
            && forall i :: 0 <= i < |cs| && Recyclable(cs[i]) ==> cs[k].stamp <= cs[i].stamp))
  }

  ghost predicate NoChoice(cs: seq<Cell>, dev: nat, blockno: nat) {
    forall i :: 0 <= i < |cs| ==> !Holds(cs[i], dev, blockno) && !Recyclable(cs[i])
  }

  // iderw on a buffer that needs reading, or writing.
  function Loaded(c: Cell, d: Data): Cell {
    c.(data := d, valid := true)
  }

  predicate IderwPanics(c: Cell, pid: nat, disksize: nat) {
    c.owner != pid || (c.valid && !c.dirty) || c.dev != ROOTDEV || c.blockno >= disksize
  }

  function Synced(c: Cell): Cell {
    c.(dirty := false, valid := true, changed := false)
  }

  function Released(c: Cell): Cell {
    c.(owner := 0, refcnt := if c.refcnt > 0 then c.refcnt - 1 else 0)
  }

  // A process that gets a cached buffer, locks it and releases it leaves it as it was.
  lemma GetThenRelease(c: Cell, dev: nat, blockno: nat, pid: nat)
    requires c.owner == 0
    ensures var r := Released(Got(c, dev, blockno).(owner := pid));
            && (Holds(c, dev, blockno) ==> r == c)
            && (!Holds(c, dev, blockno) ==> r.refcnt == 0 && r.owner == 0 && Holds(r, dev, blockno))
  {
  }

  function MoveToFront(ring: seq<nat>, k: nat): seq<nat>
    requires k < |ring|
  {
    [ring[k]] + ring[..k] + ring[k + 1..]
  }

  // ----- Every operation keeps the refinement

  lemma GotKeeps(cs: seq<Cell>, disk: seq<Data>, latest: seq<Data>, k: nat, dev: nat, blockno: nat)
    requires Refines(cs, disk, latest) && Chosen(cs, k, dev, blockno)
    ensures Refines(cs[k := Got(cs[k], dev, blockno)], disk, latest)
    // no dirty buffer loses its block, its contents or its mark
    ensures forall i :: 0 <= i < |cs| && cs[i].dirty ==>
              cs[k := Got(cs[k], dev, blockno)][i].(refcnt := 0) == cs[i].(refcnt := 0)
  {
    var after := cs[k := Got(cs[k], dev, blockno)];
    forall n | 0 <= n < |disk| && latest[n] != disk[n] ensures exists i :: 0 <= i < |after| && DirtyFor(after[i], n) {
      var i :| 0 <= i < |cs| && DirtyFor(cs[i], n);
      assert DirtyFor(after[i], n);
    }
  }

  // An update of one buffer that leaves its block alone.
  lemma UpdateKeeps(cs: seq<Cell>, disk: seq<Data>, latest: seq<Data>, k: nat, c: Cell)
    requires Refines(cs, disk, latest) && k < |cs|
    requires c.dev == cs[k].dev && c.blockno == cs[k].blockno && c.dirty == cs[k].dirty && Sound(c, latest)
    ensures Refines(cs[k := c], disk, latest)
  {
    var after := cs[k := c];
    forall n | 0 <= n < |disk| && latest[n] != disk[n] ensures exists i :: 0 <= i < |after| && DirtyFor(after[i], n) {
      var i :| 0 <= i < |cs| && DirtyFor(cs[i], n);
      assert DirtyFor(after[i], n);
    }
  }

  // An invalid buffer has no dirty rival, so the disk copy is the latest.
  lemma LoadIsLatest(cs: seq<Cell>, disk: seq<Data>, latest: seq<Data>, k: nat)
    requires Refines(cs, disk, latest) && k < |cs|
    requires !cs[k].valid && cs[k].dev == ROOTDEV && cs[k].blockno < |disk|
    ensures disk[cs[k].blockno] == latest[cs[k].blockno]
  {
    var n := cs[k].blockno;
    if latest[n] != disk[n] {
      var i :| 0 <= i < |cs| && DirtyFor(cs[i], n);
      assert Holds(cs[i], ROOTDEV, n) && Holds(cs[k], ROOTDEV, n);
    }
  }

  lemma SyncKeeps(cs: seq<Cell>, disk: seq<Data>, latest: seq<Data>, k: nat)
    requires Refines(cs, disk, latest) && k < |cs|
    requires cs[k].valid
    ensures var n, d := cs[k].blockno, cs[k].data;
            Refines(cs[k := Synced(cs[k])], disk[n := d], latest[n := d])
  {
    var n, d := cs[k].blockno, cs[k].data;
    var after := cs[k := Synced(cs[k])];
    forall i | 0 <= i < |cs| && i != k ensures Sound(after[i], latest[n := d]) {
      if after[i].valid {
        OneHolder(cs, i, k);
      }
    }
    var disk2, latest2 := disk[n := d], latest[n := d];
    forall m | 0 <= m < |disk| && latest2[m] != disk2[m] ensures exists i :: 0 <= i < |after| && DirtyFor(after[i], m) {
      var i :| 0 <= i < |cs| && DirtyFor(cs[i], m);
      assert DirtyFor(after[i], m);
    }
  }

  lemma OneHolder(cs: seq<Cell>, i: nat, k: nat)
    requires OneBufferPerBlock(cs) && i < |cs| && k < |cs| && i != k
    requires cs[i].dev == cs[k].dev != 0
    ensures cs[i].blockno != cs[k].blockno
  {
    var a, b := if i < k then i else k, if i < k then k else i;
    assert !Holds(cs[b], cs[a].dev, cs[a].blockno);
  }

  lemma PinKeeps(cs: seq<Cell>, disk: seq<Data>, latest: seq<Data>, k: nat)
    requires Refines(cs, disk, latest) && k < |cs| && cs[k].valid
    ensures Refines(cs[k := cs[k].(dirty := true, changed := false)], disk, latest[cs[k].blockno := cs[k].data])
  {
    var n, d := cs[k].blockno, cs[k].data;
    var after := cs[k := cs[k].(dirty := true, changed := false)];
    forall i | 0 <= i < |cs| && i != k ensures Sound(after[i], latest[n := d]) {
      if after[i].valid {
        OneHolder(cs, i, k);
      }
    }
    forall m | 0 <= m < |disk| && latest[n := d][m] != disk[m] ensures exists i :: 0 <= i < |after| && DirtyFor(after[i], m) {
      if m == n {
        assert DirtyFor(after[k], n);
      } else {
        var i :| 0 <= i < |cs| && DirtyFor(cs[i], m);
        assert DirtyFor(after[i], m);
      }
    }
  }

  lemma StampKept(ring: seq<nat>, cs: seq<Cell>, clock: nat, b: nat, c: Cell)
    requires ByRelease(ring, cs, clock) && b < |cs| && c.stamp == cs[b].stamp
    ensures ByRelease(ring, cs[b := c], clock)
  {
    var after := cs[b := c];
    assert forall x :: 0 <= x < |cs| ==> after[x].stamp == cs[x].stamp;
  }

  lemma BgetKeeps(cs: seq<Cell>, disk: seq<Data>, latest: seq<Data>, ring: seq<nat>, clock: nat, k: nat, dev: nat, blockno: nat)
    requires Refines(cs, disk, latest) && ByRelease(ring, cs, clock) && Chosen(cs, k, dev, blockno)
    ensures var after := cs[k := Got(cs[k], dev, blockno)];
            Refines(after, disk, latest) && ByRelease(ring, after, clock)
  {
    GotKeeps(cs, disk, latest, k, dev, blockno);
    StampKept(ring, cs, clock, k, Got(cs[k], dev, blockno));
  }

  lemma MoveMembers(ring: seq<nat>, k: nat, b: nat)
    requires k < |ring| && b in ring
    ensures b in MoveToFront(ring, k)
  {
    var i :| 0 <= i < |ring| && ring[i] == b;
    var at := if i == k then 0 else if i < k then i + 1 else i;
    assert MoveToFront(ring, k)[at] == b;
  }

  // Where the buffer at place j of the moved ring used to be.
  lemma MovedFrom(ring: seq<nat>, k: nat, j: nat) returns (y: nat)
    requires k < |ring| && 0 < j < |ring|
    ensures y < |ring| && y != k && MoveToFront(ring, k)[j] == ring[y]
    ensures y == if j <= k then j - 1 else j
  {
    y := if j <= k then j - 1 else j;
  }

  lemma MoveSorted(ring: seq<nat>, cs: seq<Cell>, clock: nat, k: nat, c: Cell)
    requires ByRelease(ring, cs, clock) && k < |ring| && c.stamp == clock + 1
    ensures ByRelease(MoveToFront(ring, k), cs[ring[k] := c], clock + 1)
  {
    var after, moved := cs[ring[k] := c], MoveToFront(ring, k);
    forall b: nat | b < |cs| ensures b in moved {
      MoveMembers(ring, k, b);
    }
    forall j | 0 < j < |moved| ensures moved[j] < |cs| && after[moved[j]] == cs[moved[j]] {
      var y := MovedFrom(ring, k, j);
      assert if y < k then cs[ring[y]].stamp > cs[ring[k]].stamp else cs[ring[k]].stamp > cs[ring[y]].stamp;
    }
    forall i, j | 0 <= i < j < |moved| ensures after[moved[i]].stamp > after[moved[j]].stamp {
      var y := MovedFrom(ring, k, j);
      if i > 0 {
        var x := MovedFrom(ring, k, i);
      }
    }
  }

  lemma BrelseKeeps(cs: seq<Cell>, disk: seq<Data>, latest: seq<Data>, ring: seq<nat>, clock: nat, k: nat)
    requires Refines(cs, disk, latest) && ByRelease(ring, cs, clock) && k < |ring| && !cs[ring[k]].changed
    ensures var after := cs[ring[k] := Released(cs[ring[k]]).(stamp := clock + 1)];
            Refines(after, disk, latest) && ByRelease(MoveToFront(ring, k), after, clock + 1)
  {
    var c := Released(cs[ring[k]]).(stamp := clock + 1);
    assert Sound(cs[ring[k]], latest);
    UpdateKeeps(cs, disk, latest, ring[k], c);
    MoveSorted(ring, cs, clock, k, c);
  }

  lemma BwriteKeeps(cs: seq<Cell>, disk: seq<Data>, latest: seq<Data>, ring: seq<nat>, clock: nat, b: nat)
    requires Refines(cs, disk, latest) && ByRelease(ring, cs, clock) && b < |cs| && cs[b].valid
    ensures var n, d, after := cs[b].blockno, cs[b].data, cs[b := Synced(cs[b])];
            Refines(after, disk[n := d], latest[n := d]) && ByRelease(ring, after, clock)
  {
    SyncKeeps(cs, disk, latest, b);
    StampKept(ring, cs, clock, b, Synced(cs[b]));
  }
}
