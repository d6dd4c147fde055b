/** What malloc and free keep: the ring of free blocks, the allocated blocks beside it, and the
    number of units. */
module HeapInvariant {
  import opened Umalloc

  // Allocated blocks: disjoint from one another and from the free ones, each with its
  // size in its header.
  ghost predicate AllocOk(mem: Memory, base: int, free: seq<Block>, alloc: seq<Block>) {
    && (forall a :: 0 <= a < |alloc| ==> alloc[a].size > 0 && base < alloc[a].addr)
    && (forall a :: 0 <= a < |alloc| ==> alloc[a].addr in mem && mem[alloc[a].addr].size == alloc[a].size)
    && (forall a, b :: 0 <= a < b < |alloc| ==> Apart(alloc[a], alloc[b]))
    && (forall a, i :: 0 <= a < |alloc| && 0 <= i < |free| ==> Apart(free[i], alloc[a]))
  }

  ghost predicate Below(bs: seq<Block>, top: int) {
    forall i :: 0 <= i < |bs| ==> End(bs[i]) <= top
  }

  function Without(bs: seq<Block>, a: nat): seq<Block>
    requires a < |bs|
  {
    bs[..a] + bs[a + 1..]
  }

  // Everything that malloc and free keep.
  ghost predicate HeapOk(mem: Memory, base: int, free: seq<Block>, alloc: seq<Block>, obtained: int, top: int) {
    && base < top
    && Ring(mem, base, free)
    && FreeOk(base, free)
    && AllocOk(mem, base, free, alloc)
    && Below(free, top) && Below(alloc, top)
    && Units(free) + Units(alloc) == obtained
  }

  lemma AllocNotNode(mem: Memory, base: int, free: seq<Block>, alloc: seq<Block>, a: nat, i: nat)
    requires FreeOk(base, free) && AllocOk(mem, base, free, alloc) && a < |alloc| && i <= |free|
    ensures alloc[a].addr != Node(base, free, i)
  {
  }

  // The headers of the other allocated blocks stay.
  lemma FreeAlloc(mem: Memory, base: int, free: seq<Block>, alloc: seq<Block>, a: nat, k: nat)
    requires Ring(mem, base, free) && FreeOk(base, free) && AllocOk(mem, base, free, alloc)
    requires a < |alloc| && Place(free, alloc[a], k)
    ensures var p := Node(base, free, k);
            && p in mem && mem[p].ptr in mem
            && AllocOk(Relink(mem, p, alloc[a]), base, Inserted(free, alloc[a], k), Without(alloc, a))
  {
    RelinkHeaders(mem, base, free, alloc[a], k);
    var rest, p := Without(alloc, a), Node(base, free, k);
    var mem2 := Relink(mem, p, alloc[a]);
    assert forall c :: 0 <= c < |rest| ==> rest[c] == alloc[if c < a then c else c + 1];
    forall c | 0 <= c < |rest|
      ensures rest[c].addr in mem2 && mem2[rest[c].addr].size == rest[c].size && Apart(alloc[a], rest[c])
    {
      var d := if c < a then c else c + 1;
      AllocNotNode(mem, base, free, alloc, d, k);
      assert c < a ==> Apart(alloc[d], alloc[a]);
      assert c >= a ==> Apart(alloc[a], alloc[d]);
    }
    forall c, i | 0 <= c < |rest| && 0 <= i < |Inserted(free, alloc[a], k)| ensures Apart(Inserted(free, alloc[a], k)[i], rest[c]) {
      InsertedApart(free, alloc[a], k, rest[c]);
    }
  }

  lemma InsertedBelow(base: int, free: seq<Block>, b: Block, k: nat, top: int)
    requires k <= |free| && Below(free, top) && End(b) <= top
    ensures Below(Inserted(free, b, k), top)
  {
  }

  lemma FreeKeeps(mem: Memory, base: int, free: seq<Block>, alloc: seq<Block>, obtained: int, top: int, a: nat, k: nat)
    requires HeapOk(mem, base, free, alloc, obtained, top) && a < |alloc| && Place(free, alloc[a], k)
    ensures var p := Node(base, free, k);
            && p in mem && mem[p].ptr in mem
            && HeapOk(Relink(mem, p, alloc[a]), base, Inserted(free, alloc[a], k), Without(alloc, a), obtained, top)
  {
    var b := alloc[a];
    RelinkRing(mem, base, free, b, k);
    InsertedOk(base, free, b, k);
    FreeAlloc(mem, base, free, alloc, a, k);
    InsertedBelow(base, free, b, k, top);
    InsertedUnits(free, b, k);
    UnitsAt(alloc, a);
    UnitsConcat(alloc[..a], alloc[a + 1..]);
  }

  lemma CutAlloc(mem: Memory, base: int, free: seq<Block>, alloc: seq<Block>, k: nat, n: int)
    requires Ring(mem, base, free) && FreeOk(base, free) && AllocOk(mem, base, free, alloc)
    requires k < |free| && 0 < n <= free[k].size
    ensures var prevp, p := Node(base, free, k), free[k].addr;
            && prevp in mem && p in mem
            && AllocOk(Cut(mem, prevp, p, n), base, Shrunk(free, k, n), alloc + [Tail(free[k], n)])
  {
    CutRing(mem, base, free, k, n);
    ShrunkOk(base, free, k, n);
    var prevp, p, t := Node(base, free, k), free[k].addr, Tail(free[k], n);
    var mem2, more, r := Cut(mem, prevp, p, n), alloc + [t], Shrunk(free, k, n);
    forall a | 0 <= a < |alloc|
      ensures alloc[a].addr in mem2 && mem2[alloc[a].addr].size == alloc[a].size && Apart(alloc[a], t)
      ensures forall i :: 0 <= i < |r| ==> Apart(r[i], alloc[a])
    {
      AllocNotNode(mem, base, free, alloc, a, k);
      AllocNotNode(mem, base, free, alloc, a, k + 1);
      ShrunkApart(free, k, n, alloc[a]);
    }
  }

  lemma CutKeeps(mem: Memory, base: int, free: seq<Block>, alloc: seq<Block>, obtained: int, top: int, k: nat, n: int)
    requires HeapOk(mem, base, free, alloc, obtained, top) && k < |free| && 0 < n <= free[k].size
    ensures var prevp, p := Node(base, free, k), free[k].addr;
            && prevp in mem && p in mem
            && HeapOk(Cut(mem, prevp, p, n), base, Shrunk(free, k, n), alloc + [Tail(free[k], n)], obtained, top)
  {
    var t := Tail(free[k], n);
    CutRing(mem, base, free, k, n);
    ShrunkOk(base, free, k, n);
    CutAlloc(mem, base, free, alloc, k, n);
    ShrunkUnits(free, k, n);
    UnitsConcat(alloc, [t]);
    UnitsOne(t);
    var r := Shrunk(free, k, n);
    forall i | 0 <= i < |r| ensures End(r[i]) <= top {
      if free[k].size == n {
        assert r[i] == free[if i < k then i else i + 1];
      }
    }
  }

  // A fresh region above everything, as if it had been allocated.
  lemma GrowKeeps(mem: Memory, base: int, free: seq<Block>, alloc: seq<Block>, obtained: int, top: int, b: Block)
    requires HeapOk(mem, base, free, alloc, obtained, top) && b.addr >= top && b.size > 0
    ensures HeapOk(mem[b.addr := Header(if b.addr in mem then mem[b.addr].ptr else 0, b.size)], base, free, alloc + [b], obtained + b.size, End(b))
  {
    var mem2 := mem[b.addr := Header(if b.addr in mem then mem[b.addr].ptr else 0, b.size)];
    forall i | 0 <= i < |free| ensures HeaderOk(mem2, base, free, i) {
      assert HeaderOk(mem, base, free, i) && End(free[i]) <= top;
    }
    forall a | 0 <= a < |alloc| ensures alloc[a].addr in mem2 && mem2[alloc[a].addr].size == alloc[a].size {
      assert End(alloc[a]) <= top;
    }
    UnitsConcat(alloc, [b]);
    UnitsOne(b);
  }

  ghost predicate IsNode(base: int, free: seq<Block>, p: int) {
    exists f :: 0 <= f <= |free| && Node(base, free, f) == p
  }

  // Some free block holds n units.
  ghost predicate Fits(free: seq<Block>, n: int) {
    exists i :: 0 <= i < |free| && free[i].size >= n
  }

  // On the way round from the node p, which is the f-th, block k is the first with n units.
  ghost predicate NextFit(base: int, p: int, free: seq<Block>, n: int, f: nat, k: nat) {
    f <= |free| && Node(base, free, f) == p && k < |free| && free[k].size >= n && PassedSmall(free, f, k + 1, n)
  }

  // n units were given out, off the end of the first block from p on that had them; the node
  // before that block is where the next search starts.
  ghost predicate GaveOut(base: int, p: int, free: seq<Block>, alloc: seq<Block>, n: int,
                          p2: int, free2: seq<Block>, alloc2: seq<Block>, header: int) {
    exists f: nat, k: nat :: NextFit(base, p, free, n, f, k)
                             && p2 == Node(base, free, k)
                             && free2 == Shrunk(free, k, n)
                             && alloc2 == alloc + [Tail(free[k], n)]
                             && header == Tail(free[k], n).addr
  }

  // free with the region b added to it; the node below b is where the next search starts.
  ghost predicate Grown(base: int, free: seq<Block>, b: Block, p2: int, free2: seq<Block>) {
    exists k :: Place(free, b, k) && p2 == Node(base, free, k) && free2 == Inserted(free, b, k)
  }

  // ----- What the program has stored

  predicate Within(b: Block, u: int) {
    b.addr <= u < End(b)
  }

  predicate SameUnit(mem: Memory, mem2: Memory, u: int) {
    if u in mem then u in mem2 && mem2[u] == mem[u] else u !in mem2
  }

  // No unit of an allocated block has changed.
  ghost predicate Kept(mem: Memory, mem2: Memory, alloc: seq<Block>) {
    forall a, u :: 0 <= a < |alloc| && Within(alloc[a], u) ==> SameUnit(mem, mem2, u)
  }

  lemma KeptThen(mem: Memory, mem2: Memory, mem3: Memory, alloc: seq<Block>)
    requires Kept(mem, mem2, alloc) && Kept(mem2, mem3, alloc)
    ensures Kept(mem, mem3, alloc)
  {
    forall a, u | 0 <= a < |alloc| && Within(alloc[a], u) ensures SameUnit(mem, mem3, u) {
      assert SameUnit(mem, mem2, u) && SameUnit(mem2, mem3, u);
    }
  }

  lemma NodeOutside(mem: Memory, base: int, free: seq<Block>, alloc: seq<Block>, a: nat, i: nat)
    requires FreeOk(base, free) && AllocOk(mem, base, free, alloc) && a < |alloc| && i <= |free|
    ensures !Within(alloc[a], Node(base, free, i))
  {
    if i > 0 {
      assert Apart(free[i - 1], alloc[a]);
    }
  }

  lemma CutKept(mem: Memory, base: int, free: seq<Block>, alloc: seq<Block>, k: nat, n: int)
    requires FreeOk(base, free) && AllocOk(mem, base, free, alloc)
    requires k < |free| && 0 < n <= free[k].size && HeaderOk(mem, base, free, k) && Node(base, free, k) in mem
    ensures Kept(mem, Cut(mem, Node(base, free, k), free[k].addr, n), alloc)
  {
    var mem2 := Cut(mem, Node(base, free, k), free[k].addr, n);
    forall a, u | 0 <= a < |alloc| && Within(alloc[a], u) ensures SameUnit(mem, mem2, u) {
      NodeOutside(mem, base, free, alloc, a, k);
      assert Apart(free[k], alloc[a]);
    }
  }

  lemma GrowKept(mem: Memory, alloc: seq<Block>, top: int, u: int, h: Header)
    requires Below(alloc, top) && u >= top
    ensures Kept(mem, mem[u := h], alloc)
  {
    forall a, v | 0 <= a < |alloc| && Within(alloc[a], v) ensures SameUnit(mem, mem[u := h], v) {
      assert End(alloc[a]) <= top;
    }
  }

  lemma RelinkKept(mem: Memory, base: int, free: seq<Block>, alloc: seq<Block>, a: nat, k: nat)
    requires FreeOk(base, free) && AllocOk(mem, base, free, alloc) && a < |alloc| && k <= |free|
    requires Node(base, free, k) in mem && mem[Node(base, free, k)].ptr in mem
    ensures Kept(mem, Relink(mem, Node(base, free, k), alloc[a]), Without(alloc, a))
  {
    var mem2, rest := Relink(mem, Node(base, free, k), alloc[a]), Without(alloc, a);
    forall c, u | 0 <= c < |rest| && Within(rest[c], u) ensures SameUnit(mem, mem2, u) {
      var d := if c < a then c else c + 1;
      assert rest[c] == alloc[d];
      NodeOutside(mem, base, free, alloc, d, k);
      assert Apart(alloc[a], alloc[d]) || Apart(alloc[d], alloc[a]);
    }
  }

  lemma GrownFits(free: seq<Block>, b: Block, k: nat, base: int, n: int)
    requires FreeOk(base, free) && k <= |free| && n <= b.size
    ensures Fits(Inserted(free, b, k), n)
  {
    InsertedShape(free, b, k);
    assert Inserted(free, b, k)[Low(free, b, k)].size >= b.size;
  }

  lemma ShrunkNode(base: int, free: seq<Block>, k: nat, n: int)
    requires k < |free|
    ensures IsNode(base, Shrunk(free, k, n), Node(base, free, k))
  {
    assert Node(base, Shrunk(free, k, n), k) == Node(base, free, k);
  }

  lemma PassedOneMore(free: seq<Block>, f: nat, i: nat, n: int)
    requires f <= |free| && i <= |free| && i != f && PassedSmall(free, f, i, n) && SizeAt(free, i) < n
    ensures PassedSmall(free, f, if i == |free| then 0 else i + 1, n)
  {
  }

  // A full turn has seen every block.
  lemma NoneFits(free: seq<Block>, f: nat, n: int)
    requires f <= |free| && PassedSmall(free, f, f, n) && SizeAt(free, f) < n
    ensures !Fits(free, n)
  {
    forall i | 0 <= i < |free| ensures free[i].size < n {
      assert SizeAt(free, i + 1) < n;
    }
  }

  lemma BelowBlock(base: int, free: seq<Block>, b: Block, k: nat)
    requires FreeOk(base, free) && Place(free, b, k) && base < b.addr
    ensures Node(base, free, k) < b.addr
  {
  }

  // The node below b is still on the ring after b has been inserted.
  lemma StillNode(base: int, free: seq<Block>, b: Block, k: nat)
    requires k <= |free|
    ensures IsNode(base, Inserted(free, b, k), Node(base, free, k))
  {
    InsertedShape(free, b, k);
    var r := Inserted(free, b, k);
    if TouchesLeft(free, b, k) {
      assert Node(base, r, k) == free[k - 1].addr;
    } else {
      assert Node(base, r, k) == Node(base, free, k);
    }
  }
}
