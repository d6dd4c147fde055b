/** The code of bio.c. The buffers are the static array bcache.buf; a pointer to one is its
    index there, and HEAD is bcache.head. Spinlocks are not modelled: each method runs as
    one step. */
module BufferCache {
  import opened Params
  import opened Bio

  const HEAD: nat := NBUF

  // ----- Rings of links

  function Succ(i: nat, n: nat): nat {
    if i + 1 == n then 0 else i + 1
  }

  function Pred(i: nat, n: nat): nat
    requires n > 0
  {
    if i == 0 then n - 1 else i - 1
  }

  // Distinct nodes, chained in order by one kind of link.
  ghost predicate NextRing(next: seq<nat>, nodes: seq<nat>) {
    && |next| == NBUF + 1
    && (forall i :: 0 <= i < |nodes| ==> nodes[i] <= NBUF)
    && (forall i, j :: 0 <= i < j < |nodes| ==> nodes[i] != nodes[j])
    && (forall i {:trigger next[nodes[i]]} :: 0 <= i < |nodes| ==> next[nodes[i]] == nodes[Succ(i, |nodes|)])
  }

  ghost predicate PrevRing(prev: seq<nat>, nodes: seq<nat>) {
    && |prev| == NBUF + 1
    && (forall i :: 0 <= i < |nodes| ==> nodes[i] <= NBUF)
    && (forall i, j :: 0 <= i < j < |nodes| ==> nodes[i] != nodes[j])
    && (forall i {:trigger prev[nodes[i]]} :: 0 <= i < |nodes| ==> prev[nodes[i]] == nodes[Pred(i, |nodes|)])
  }

  function Skip(i: nat, k: nat): nat {
    if i < k then i else i + 1
  }

  function Without(nodes: seq<nat>, k: nat): (rest: seq<nat>)
    requires k < |nodes|
    ensures |rest| == |nodes| - 1
    ensures forall i :: 0 <= i < |rest| ==> rest[i] == nodes[Skip(i, k)]
  {
    nodes[..k] + nodes[k + 1..]
  }

  // b->prev->next = b->next, for b at place k.
  lemma UnlinkNext(next: seq<nat>, nodes: seq<nat>, k: nat)
    requires NextRing(next, nodes) && 0 < k < |nodes|
    ensures next[nodes[k]] == nodes[Succ(k, |nodes|)]
    ensures NextRing(next[nodes[k - 1] := next[nodes[k]]], Without(nodes, k))
  {
    var n, rest, after := |nodes|, Without(nodes, k), next[nodes[k - 1] := next[nodes[k]]];
    forall i | 0 <= i < |rest| ensures after[rest[i]] == rest[Succ(i, |rest|)] {
      var j := Skip(i, k);
      assert next[nodes[j]] == nodes[Succ(j, n)];
      assert j != k - 1 ==> after[nodes[j]] == next[nodes[j]];
      assert Skip(Succ(i, n - 1), k) == Succ(if j == k - 1 then k else j, n);
    }
  }

  // b->next->prev = b->prev.
  lemma UnlinkPrev(prev: seq<nat>, nodes: seq<nat>, k: nat)
    requires PrevRing(prev, nodes) && 0 < k < |nodes|
    ensures prev[nodes[k]] == nodes[k - 1]
    ensures PrevRing(prev[nodes[Succ(k, |nodes|)] := prev[nodes[k]]], Without(nodes, k))
  {
    var n, rest, after := |nodes|, Without(nodes, k), prev[nodes[Succ(k, |nodes|)] := prev[nodes[k]]];
    forall i | 0 <= i < |rest| ensures after[rest[i]] == rest[Pred(i, |rest|)] {
      var j := Skip(i, k);
      assert prev[nodes[j]] == nodes[Pred(j, n)];
      assert j != Succ(k, n) ==> after[nodes[j]] == prev[nodes[j]];
      assert Skip(Pred(i, n - 1), k) == Pred(if j == Succ(k, n) then k else j, n);
    }
  }

  // b->next = head.next; head.next = b.
  lemma InsertNext(next: seq<nat>, nodes: seq<nat>, b: nat)
    requires NextRing(next, nodes) && nodes != [] && nodes[0] == HEAD && b !in nodes && b < NBUF
    ensures next[HEAD] == nodes[Succ(0, |nodes|)]
    ensures NextRing(next[b := next[HEAD]][HEAD := b], [HEAD, b] + nodes[1..])
  {
  }

  // b->prev = &head; head.next->prev = b.
  lemma InsertPrev(prev: seq<nat>, nodes: seq<nat>, b: nat)
    requires PrevRing(prev, nodes) && nodes != [] && nodes[0] == HEAD && b !in nodes && b < NBUF
    ensures PrevRing(prev[b := HEAD][nodes[Succ(0, |nodes|)] := b], [HEAD, b] + nodes[1..])
  {
  }

  lemma RequeueNodes(ring: seq<nat>, k: nat)
    requires k < |ring|
    ensures [HEAD, ring[k]] + Without([HEAD] + ring, k + 1)[1..] == [HEAD] + MoveToFront(ring, k)
  {
  }

  // brelse's updates of next, for the buffer at place k.
  lemma RequeueNext(next: seq<nat>, ring: seq<nat>, k: nat)
    requires NextRing(next, [HEAD] + ring) && k < |ring| && ring[k] < NBUF
    ensures var b := ring[k];
            var next1 := next[([HEAD] + ring)[k] := next[b]];
            NextRing(next1[b := next1[HEAD]][HEAD := b], [HEAD] + MoveToFront(ring, k))
  {
    var nodes, b := [HEAD] + ring, ring[k];
    assert nodes[k + 1] == b;
    UnlinkNext(next, nodes, k + 1);
    var rest, next1 := Without(nodes, k + 1), next[nodes[k] := next[b]];
    assert b !in rest;
    InsertNext(next1, rest, b);
    RequeueNodes(ring, k);
  }

  lemma RequeuePrev(next: seq<nat>, prev: seq<nat>, ring: seq<nat>, k: nat)
    requires NextRing(next, [HEAD] + ring) && PrevRing(prev, [HEAD] + ring) && k < |ring| && ring[k] < NBUF
    ensures var b := ring[k];
            && next[b] <= NBUF && prev[b] == ([HEAD] + ring)[k]
            && var prev1, next1 := prev[next[b] := prev[b]], next[prev[b] := next[b]];
               && prev1[b] == prev[b] && next1[HEAD] <= NBUF
               && PrevRing(prev1[b := HEAD][next1[HEAD] := b], [HEAD] + MoveToFront(ring, k))
  {
    var nodes, b := [HEAD] + ring, ring[k];
    assert nodes[k + 1] == b;
    UnlinkNext(next, nodes, k + 1);
    UnlinkPrev(prev, nodes, k + 1);
    var rest, prev1, next1 := Without(nodes, k + 1), prev[next[b] := prev[b]], next[prev[b] := next[b]];
    assert b !in rest;
    InsertNext(next1, rest, b);
    InsertPrev(prev1, rest, b);
    RequeueNodes(ring, k);
  }

  ghost function Descending(n: nat): (r: seq<nat>)
    ensures |r| == n && forall i :: 0 <= i < n ==> r[i] == n - 1 - i
  {
    if n == 0 then [] else [n - 1] + Descending(n - 1)
  }

  // binit: buffer after buffer, each put at the front.
  method Binit() returns (next: seq<nat>, prev: seq<nat>)
    ensures NextRing(next, [HEAD] + Descending(NBUF)) && PrevRing(prev, [HEAD] + Descending(NBUF))
  {
    next, prev := seq(NBUF + 1, _ => HEAD), seq(NBUF + 1, _ => HEAD);
    for b := 0 to NBUF
      invariant NextRing(next, [HEAD] + Descending(b)) && PrevRing(prev, [HEAD] + Descending(b))
    {
      ghost var nodes := [HEAD] + Descending(b);
      InsertNext(next, nodes, b);
      InsertPrev(prev, nodes, b);
      assert [HEAD, b] + nodes[1..] == [HEAD] + Descending(b + 1);
      next := next[b := next[HEAD]];
      prev := prev[b := HEAD];
      prev := prev[next[HEAD] := b];
      next := next[HEAD := b];
    }
  }

  // ----- The cache

  datatype Outcome = Done | Panic

  // bread: the locked buffer; asleep until another holder releases it; or a panic of bget or iderw.
  datatype ReadOutcome = Read(b: nat) | Waits(b: nat) | NoBuffers | NoSuchBlock(b: nat)

  class BCache {
    var bufs: seq<Cell>     // bcache.buf
    var next: seq<nat>
    var prev: seq<nat>
    var disk: seq<Data>     // the blocks of ROOTDEV
    var clock: nat          // counts releases, for the statements
    ghost var ring: seq<nat>    // the buffers from head.next on
    ghost var latest: seq<Data> // the latest contents of each block

    ghost predicate Linked()
      reads this
    {
      |bufs| == |ring| == NBUF && NextRing(next, [HEAD] + ring) && PrevRing(prev, [HEAD] + ring)
    }

    ghost predicate Valid()
      reads this
    {
      && Linked()
      && Refines(bufs, disk, latest)
      && ByRelease(ring, bufs, clock)
    }

    constructor (image: seq<Data>)
      ensures Valid() && disk == image == latest
      ensures forall i :: 0 <= i < NBUF ==> bufs[i].(stamp := 0) == Fresh
    {
      disk, latest := image, image;
      bufs := seq(NBUF, i requires 0 <= i => Fresh.(stamp := i));
      var nx, pv := Binit();
      next, prev := nx, pv;
      ring, clock := Descending(NBUF), NBUF;
      forall b: nat | b < NBUF ensures b in Descending(NBUF) {
        assert Descending(NBUF)[NBUF - 1 - b] == b;
      }
    }

    // bget's first scan: the buffer that already holds the block; HEAD if there is none.
    method FindCached(dev: nat, blockno: nat) returns (b: nat)
      requires Valid()
      ensures b <= HEAD
      ensures b == HEAD <==> forall i :: 0 <= i < NBUF ==> !Holds(bufs[i], dev, blockno)
      ensures b != HEAD ==> Holds(bufs[b], dev, blockno)
    {
      ghost var nodes := [HEAD] + ring;
      b := next[HEAD];
      ghost var k := 0;
      assert next[nodes[0]] == nodes[Succ(0, |nodes|)];
      while b != HEAD
        invariant 0 <= k <= |ring| && b == nodes[Succ(k, |nodes|)]
        invariant forall i :: 0 <= i < k ==> !Holds(bufs[ring[i]], dev, blockno)
        decreases |ring| - k
      {
        assert b == ring[k] == nodes[k + 1];
        if bufs[b].dev == dev && bufs[b].blockno == blockno {
          return;
        }
        assert next[nodes[k + 1]] == nodes[Succ(k + 1, |nodes|)];
        b := next[b];
        k := k + 1;
      }
      forall i: nat | i < NBUF ensures !Holds(bufs[i], dev, blockno) {
        assert i in ring;
      }
    }

    // bget's second scan, from the other end.
    method FindRecyclable() returns (b: nat)
      requires Valid()
      ensures b <= HEAD
      ensures b == HEAD <==> forall i :: 0 <= i < NBUF ==> !Recyclable(bufs[i])
      ensures b != HEAD ==> Recyclable(bufs[b])
      ensures b != HEAD ==> forall i :: 0 <= i < NBUF && Recyclable(bufs[i]) ==> bufs[b].stamp <= bufs[i].stamp
    {
      ghost var nodes := [HEAD] + ring;
      b := prev[HEAD];
      ghost var k := |ring|;
      assert prev[nodes[0]] == nodes[|ring|];
      while b != HEAD
        invariant 0 <= k <= |ring| && b == nodes[k]
        invariant forall i :: k <= i < |ring| ==> !Recyclable(bufs[ring[i]])
        decreases k
      {
        assert b == ring[k - 1] == nodes[k];
        if bufs[b].refcnt == 0 && !bufs[b].dirty {
          forall i: nat | i < NBUF && Recyclable(bufs[i]) ensures bufs[b].stamp <= bufs[i].stamp {
            assert i in ring;
            var j :| 0 <= j < |ring| && ring[j] == i;
          }
          return;
        }
        assert prev[nodes[k]] == nodes[Pred(k, |nodes|)];
        b := prev[b];
        k := k - 1;
      }
      forall i: nat | i < NBUF ensures !Recyclable(bufs[i]) {
        assert i in ring;
      }
    }

    // HEAD is the panic "bget: no buffers". The caller next waits for the buffer's
    // sleep-lock (Lock).
    method Bget(dev: nat, blockno: nat) returns (b: nat)
      requires Valid()
      modifies this`bufs
      ensures Valid()
      ensures b == HEAD <==> NoChoice(old(bufs), dev, blockno)
      ensures b == HEAD ==> bufs == old(bufs)
      ensures b != HEAD ==>
              && b < NBUF && Chosen(old(bufs), b, dev, blockno)
              && bufs == old(bufs)[b := Got(old(bufs)[b], dev, blockno)]
    {
      b := FindCached(dev, blockno);
      if b != HEAD {
        var c := bufs[b].(refcnt := bufs[b].refcnt + 1);
        assert c == Got(bufs[b], dev, blockno);
        BgetKeeps(bufs, disk, latest, ring, clock, b, dev, blockno);
        bufs := bufs[b := c];
        return;
      }
      b := FindRecyclable();
      if b != HEAD {
        var c := bufs[b].(dev := dev, blockno := blockno, valid := false, dirty := false, refcnt := 1);
        assert c == Got(bufs[b], dev, blockno);
        BgetKeeps(bufs, disk, latest, ring, clock, b, dev, blockno);
        bufs := bufs[b := c];
      }
    }

    // Store to a buffer without changing its block, its mark or its place.
    method Set(b: nat, c: Cell)
      requires Valid() && b < NBUF && Sound(c, latest)
      requires c.dev == bufs[b].dev && c.blockno == bufs[b].blockno
      requires c.dirty == bufs[b].dirty && c.stamp == bufs[b].stamp
      modifies this`bufs
      ensures Valid() && bufs == old(bufs)[b := c]
    {
      UpdateKeeps(bufs, disk, latest, b, c);
      StampKept(ring, bufs, clock, b, c);
      bufs := bufs[b := c];
    }

    // acquiresleep on a buffer whose lock is free, by a process that bget gave it to.
    method Lock(b: nat, pid: nat)
      requires Valid() && b < NBUF
      requires pid != 0 && bufs[b].owner == 0 && bufs[b].refcnt > 0
      modifies this`bufs
      ensures Valid() && bufs == old(bufs)[b := old(bufs)[b].(owner := pid)]
    {
      Set(b, bufs[b].(owner := pid));
    }

    // memide.c's iderw.
    method Iderw(b: nat, pid: nat) returns (outcome: Outcome)
      requires b < NBUF == |bufs|
      modifies this`bufs, this`disk
      ensures outcome.Panic? <==> IderwPanics(old(bufs)[b], pid, |old(disk)|)
      ensures outcome.Panic? ==> disk == old(disk) && bufs == old(bufs)
      ensures outcome.Done? ==>
              var c := old(bufs)[b];
              if c.dirty then
                && disk == old(disk)[c.blockno := c.data]
                && bufs == old(bufs)[b := c.(dirty := false, valid := true)]
              else
                disk == old(disk) && bufs == old(bufs)[b := Loaded(c, disk[c.blockno])]
    {
      var c := bufs[b];
      if c.owner != pid || (c.valid && !c.dirty) || c.dev != ROOTDEV || c.blockno >= |disk| {
        return Panic;
      }
      if c.dirty {
        disk := disk[c.blockno := c.data];
        c := c.(dirty := false);
      } else {
        c := c.(data := disk[c.blockno]);
      }
      bufs := bufs[b := c.(valid := true)];
      return Done;
    }

    // bread's last lines: with the lock held, make the contents good.
    method Fill(b: nat, pid: nat) returns (outcome: Outcome)
      requires Valid() && b < NBUF
      requires pid != 0 && bufs[b].owner == pid && !bufs[b].changed
      modifies this`bufs, this`disk
      ensures Valid() && disk == old(disk)
      ensures outcome.Done? <==> old(bufs)[b].dev == ROOTDEV && old(bufs)[b].blockno < |disk|
      ensures bufs == if outcome.Done? then old(bufs)[b := Loaded(old(bufs)[b], latest[old(bufs)[b].blockno])] else old(bufs)
    {
      ghost var c := bufs[b];
      assert Sound(c, latest);
      if bufs[b].valid {
        assert Loaded(c, latest[c.blockno]) == c;
        return Done;
      }
      if c.dev == ROOTDEV && c.blockno < |disk| {
        LoadIsLatest(bufs, disk, latest, b);
        UpdateKeeps(bufs, disk, latest, b, Loaded(c, disk[c.blockno]));
        StampKept(ring, bufs, clock, b, Loaded(c, disk[c.blockno]));
      }
      outcome := Iderw(b, pid);
    }

    // bread. Where the buffer is locked already, the caller has its reference and sleeps; it
    // goes on with Lock and Fill.
    method Bread(dev: nat, blockno: nat, pid: nat) returns (r: ReadOutcome)
      requires Valid() && pid != 0
      modifies this`bufs, this`disk
      ensures Valid() && disk == old(disk)
      ensures r.NoBuffers? <==> NoChoice(old(bufs), dev, blockno)
      ensures r.NoBuffers? ==> bufs == old(bufs)
      ensures !r.NoBuffers? ==> r.b < NBUF && Chosen(old(bufs), r.b, dev, blockno)
      ensures !r.NoBuffers? ==> (r.Waits? <==> old(bufs)[r.b].owner != 0)
      ensures r.Read? ==> dev == ROOTDEV && blockno < |disk|
      ensures r.Read? ==> bufs[r.b].valid && bufs[r.b].data == latest[blockno] && bufs[r.b].owner == pid && bufs[r.b].refcnt > 0
      ensures r.NoSuchBlock? ==> dev != ROOTDEV || blockno >= |disk|
      ensures !r.NoBuffers? ==>
                var c := Got(old(bufs)[r.b], dev, blockno);
                bufs == old(bufs)[r.b := if r.Waits? then c
                                         else if r.Read? then Loaded(c.(owner := pid), latest[blockno])
                                         else c.(owner := pid)]
    {
      ghost var cs := bufs;
      assert forall i :: 0 <= i < NBUF ==> Sound(cs[i], latest);
      var b := Bget(dev, blockno);
      if b == HEAD {
        return NoBuffers;
      }
      if bufs[b].owner != 0 {
        return Waits(b);
      }
      Lock(b, pid);
      var outcome := Fill(b, pid);
      return if outcome.Done? then Read(b) else NoSuchBlock(b);
    }

    // The holder changes the contents of its buffer.
    method Change(b: nat, pid: nat, d: Data)
      requires Valid() && b < NBUF
      requires pid != 0 && bufs[b].owner == pid && bufs[b].valid
      modifies this`bufs
      ensures Valid() && bufs == old(bufs)[b := old(bufs)[b].(data := d, changed := true)]
    {
      assert Sound(bufs[b], latest);
      Set(b, bufs[b].(data := d, changed := true));
    }

    // bwrite: the contents become the latest, on the disk too.
    method Bwrite(b: nat, pid: nat) returns (outcome: Outcome)
      requires Valid() && b < NBUF && bufs[b].valid
      modifies this`bufs, this`disk, this`latest
      ensures Valid()
      ensures outcome.Panic? <==> old(bufs)[b].owner != pid
      ensures outcome.Panic? ==> bufs == old(bufs) && disk == old(disk) && latest == old(latest)
      ensures outcome.Done? ==>
              var c := old(bufs)[b];
              && c.blockno < |old(disk)| == |old(latest)|
              && bufs == old(bufs)[b := Synced(c)] && bufs[b].valid && !bufs[b].dirty && bufs[b].data == c.data
              && disk == old(disk)[c.blockno := c.data]
              && latest == old(latest)[c.blockno := c.data]
    {
      ghost var c := bufs[b];
      assert Sound(c, latest);
      if bufs[b].owner != pid {
        return Panic;
      }
      ghost var cs := bufs;
      bufs := bufs[b := bufs[b].(dirty := true, changed := false)];
      outcome := Iderw(b, pid);
      assert bufs == cs[b := Synced(c)];
      BwriteKeeps(cs, old(disk), latest, ring, clock, b);
      latest := latest[c.blockno := c.data];
    }

    // log_write's last line (log.c:231): the contents become the latest and are pinned in
    // the cache until a bwrite installs them.
    method Pin(b: nat)
      requires Valid() && b < NBUF && bufs[b].valid
      modifies this`bufs, this`latest
      ensures Valid()
      ensures var c := old(bufs)[b];
              && bufs == old(bufs)[b := c.(dirty := true, changed := false)]
              && c.blockno < |old(latest)|
              && latest == old(latest)[c.blockno := c.data]
    {
      ghost var c := bufs[b];
      assert Sound(c, latest);
      PinKeeps(bufs, disk, latest, b);
      StampKept(ring, bufs, clock, b, c.(dirty := true, changed := false));
      bufs := bufs[b := bufs[b].(dirty := true, changed := false)];
      latest := latest[c.blockno := c.data];
    }

    // brelse's relinking: b, at place k, to the front.
    method Requeue(b: nat, ghost k: nat)
      requires Linked() && k < |ring| && ring[k] == b
      modifies this`next, this`prev, this`ring
      ensures Linked() && ring == MoveToFront(old(ring), k)
    {
      assert ([HEAD] + ring)[0] != ([HEAD] + ring)[k + 1] == b;
      RequeueNext(next, ring, k);
      RequeuePrev(next, prev, ring, k);
      prev := prev[next[b] := prev[b]];
      next := next[prev[b] := next[b]];
      next := next[b := next[HEAD]];
      prev := prev[b := HEAD];
      prev := prev[next[HEAD] := b];
      next := next[HEAD := b];
      ring := MoveToFront(ring, k);
    }

    // brelse, by a holder that has written or logged what it changed.
    method Brelse(b: nat, pid: nat) returns (outcome: Outcome)
      requires Valid() && b < NBUF
      requires pid != 0 && !bufs[b].changed
      modifies this`bufs, this`next, this`prev, this`ring, this`clock
      ensures Valid()
      ensures outcome.Panic? <==> old(bufs)[b].owner != pid
      ensures outcome.Panic? ==> bufs == old(bufs) && ring == old(ring)
      ensures outcome.Done? ==> bufs[b].refcnt == old(bufs)[b].refcnt - 1 && bufs[b].owner == 0
      ensures outcome.Done? ==>
              var c := Released(old(bufs)[b]);
              if c.refcnt > 0 then bufs == old(bufs)[b := c] && ring == old(ring)
              else
                && clock == old(clock) + 1
                && bufs == old(bufs)[b := c.(stamp := clock)]
                && exists k :: 0 <= k < NBUF && old(ring)[k] == b && ring == MoveToFront(old(ring), k)
    {
      assert Sound(bufs[b], latest);
      if bufs[b].owner != pid {
        return Panic;
      }
      var c := bufs[b].(owner := 0, refcnt := bufs[b].refcnt - 1);
      if c.refcnt > 0 {
        Set(b, c);
      } else {
        assert b in ring;
        ghost var k :| 0 <= k < |ring| && ring[k] == b;
        BrelseKeeps(bufs, disk, latest, ring, clock, k);
        Requeue(b, k);
        clock := clock + 1;
        bufs := bufs[b := c.(stamp := clock)];
      }
      return Done;
    }
  }
}
