/** malloc, free and morecore of umalloc.c, on the headers in memory. */
module UserHeap {
  import opened Params
  import opened Umalloc
  import opened HeapInvariant

  const HEADER: nat := 8       // sizeof(Header)
  const MINCORE: int := 4096   // morecore asks for at least this many units

  // Units for nbytes of storage and the header before it.
  function UnitsFor(nbytes: nat): int {
    (nbytes + HEADER - 1) / HEADER + 1
  }

  // The units suffice, and one fewer would not.
  lemma UnitsForEnough(nbytes: nat)
    ensures (UnitsFor(nbytes) - 1) * HEADER >= nbytes
    ensures nbytes > 0 ==> (UnitsFor(nbytes) - 2) * HEADER < nbytes
  {
  }

  class Heap {
    const base: int
    var mem: Memory
    var freep: Option<int>
    ghost var free: seq<Block>
    ghost var alloc: seq<Block>
    ghost var obtained: int   // units got from sbrk
    ghost var top: int        // sbrk gives regions from here on

    ghost predicate Valid()
      reads this
    {
      match freep
      case None => free == [] && alloc == [] && obtained == 0 && base < top
      case Some(p) => HeapOk(mem, base, free, alloc, obtained, top) && IsNode(base, free, p)
    }

    constructor (base: int, top: int)
      requires base < top
      ensures Valid() && free == [] && alloc == [] && obtained == 0 && this.base == base && this.top == top
    {
      this.base, mem, freep := base, map[], None;
      free, alloc, obtained, this.top := [], [], 0, top;
    }

    // free()'s search, from freep round the ring: the node below the block.
    method Predecessor(bp: int, ghost b: Block) returns (p: int, ghost k: nat)
      requires Valid() && freep.Some? && b.addr == bp && b.size > 0 && base < bp
      requires forall i :: 0 <= i < |free| ==> Apart(free[i], b)
      ensures Place(free, b, k) && p == Node(base, free, k)
    {
      k := FindPlace(base, free, b);
      p := freep.value;
      ghost var f :| 0 <= f <= |free| && Node(base, free, f) == p;
      StopsAtPlace(mem, base, free, b, k, f);
      while !(bp > p && bp < mem[p].ptr)
        invariant 0 <= f <= |free| && Node(base, free, f) == p && p in mem
        invariant Stops(mem, p, bp) <==> f == k
        decreases if f <= k then k - f else |free| + 1 - f + k
      {
        if p >= mem[p].ptr && (bp > p || bp < mem[p].ptr) {
          break;
        }
        RingAt(mem, base, free, f);
        p := mem[p].ptr;
        f := if f == |free| then 0 else f + 1;
        StopsAtPlace(mem, base, free, b, k, f);
      }
    }

    // free(ap) for the allocated block with header bp, the a-th; k free blocks lie below it.
    method Free(bp: int, ghost a: nat) returns (ghost k: nat)
      requires Valid() && freep.Some? && a < |alloc| && alloc[a].addr == bp
      modifies this`mem, this`freep, this`free, this`alloc
      ensures Valid() && freep.Some? && alloc == Without(old(alloc), a)
      ensures Place(old(free), old(alloc)[a], k) && free == Inserted(old(free), old(alloc)[a], k)
      ensures freep == Some(Node(base, old(free), k)) && Kept(old(mem), mem, alloc)
    {
      ghost var b := alloc[a];
      var p;
      p, k := Predecessor(bp, b);
      StillNode(base, free, b, k);
      var mem2 := Joined(mem, p, bp, base, free, alloc, obtained, top, a, k);
      mem, freep := mem2, Some(p);
      free, alloc := Inserted(free, b, k), Without(alloc, a);
    }

    // morecore's end: the new region's header is stored, and the region freed.
    method FreeRegion(hp: int, h: Header, ghost b: Block) returns (ghost k: nat)
      requires freep.Some? && IsNode(base, free, freep.value) && b.addr == hp && Kept(mem, mem[hp := h], alloc)
      requires HeapOk(mem[hp := h], base, free, alloc + [b], obtained + b.size, End(b))
      modifies this`mem, this`freep, this`free, this`alloc, this`obtained, this`top
      ensures Valid() && freep.Some? && alloc == old(alloc) && obtained == old(obtained) + b.size && top == End(b)
      ensures Place(old(free), b, k) && free == Inserted(old(free), b, k)
      ensures freep == Some(Node(base, old(free), k)) && Kept(old(mem), mem, alloc)
    {
      ghost var was := alloc;
      mem := mem[hp := h];
      ghost var grown := mem;
      alloc, obtained, top := alloc + [b], obtained + b.size, End(b);
      k := Free(hp, |alloc| - 1);
      assert alloc == was;
      KeptThen(old(mem), grown, mem, alloc);
    }

    // morecore(nu), where sbrk gives the region at address more, or fails.
    method MoreCore(nu: int, more: Option<int>) returns (p: Option<int>, ghost k: nat)
      requires Valid() && freep.Some? && nu > 0 && (more.Some? ==> more.value >= top)
      modifies this`mem, this`freep, this`free, this`alloc, this`obtained, this`top
      ensures Valid() && freep.Some? && alloc == old(alloc)
      ensures more.None? ==> p.None? && free == old(free) && obtained == old(obtained) && top == old(top) && freep == old(freep)
      ensures more.Some? ==>
              var b := Block(more.value, Core(nu));
              && p == freep && obtained == old(obtained) + b.size && top == End(b)
              && Place(old(free), b, k) && free == Inserted(old(free), b, k)
              && freep == Some(Node(base, old(free), k)) && Kept(old(mem), mem, alloc)
    {
      var n := nu;
      if n < MINCORE {
        n := MINCORE;
      }
      if more.None? {
        return None, 0;
      }
      var hp := more.value;
      ghost var b := Block(hp, n);
      GrowKeeps(mem, base, free, alloc, obtained, top, b);
      var h := Header(if hp in mem then mem[hp].ptr else 0, n);
      GrowKept(mem, alloc, top, hp, h);
      k := FreeRegion(hp, h, b);
      p := freep;
    }

    // One turn of malloc's loop: round the ring from freep, and take the first fit.
    method TakeFirstFit(n: int) returns (header: Option<int>)
      requires Valid() && freep.Some? && n > 0
      modifies this`mem, this`freep, this`free, this`alloc
      ensures Valid() && freep.Some?
      ensures header.None? <==> !Fits(old(free), n)
      ensures header.None? ==> free == old(free) && alloc == old(alloc) && freep == old(freep)
      ensures header.Some? ==>
                GaveOut(base, old(freep).value, old(free), old(alloc), n, freep.value, free, alloc, header.value)
      ensures Kept(old(mem), mem, old(alloc))
    {
      var found, prevp, p, f, k := FirstFit(mem, freep.value, n, base, free);
      if !found {
        return None;
      }
      ghost var free2, alloc2 := Shrunk(free, k, n), alloc + [Tail(free[k], n)];
      ShrunkNode(base, free, k, n);
      assert IsNode(base, free2, prevp);
      var mem2, h := CutOut(mem, prevp, p, n, base, free, alloc, obtained, top, k);
      assert HeapOk(mem2, base, free2, alloc2, obtained, top);
      assert NextFit(base, freep.value, free, n, f, k);
      assert GaveOut(base, freep.value, free, alloc, n, prevp, free2, alloc2, h);
      mem, freep := mem2, Some(prevp);
      free, alloc := free2, alloc2;
      return Some(h);
    }

    // malloc's first lines: an empty ring through base.
    method Start()
      requires Valid()
      modifies this`mem, this`freep
      ensures Valid() && freep == Some(if old(freep).Some? then old(freep).value else base)
      ensures Kept(old(mem), mem, alloc)
    {
      if freep.None? {
        mem := mem[base := Header(base, 0)];
        freep := Some(base);
        assert Node(base, free, 0) == base;
      }
    }

    // The rest of malloc's loop when nothing fits. After morecore the search cannot fail, so
    // morecore runs at most once.
    method GrowAndTake(n: int, more: Option<int>) returns (header: Option<int>, ghost fp: int, ghost from: seq<Block>)
      requires Valid() && freep.Some? && n > 0 && (more.Some? ==> more.value >= top)
      modifies this
      ensures Valid()
      ensures header.None? <==> more.None?
      ensures header.None? ==> free == old(free) && alloc == old(alloc) && obtained == old(obtained) && freep == old(freep)
      ensures header.Some? ==>
              && obtained == old(obtained) + Core(n) && freep.Some?
              && Grown(base, old(free), Block(more.value, Core(n)), fp, from)
              && GaveOut(base, fp, from, old(alloc), n, freep.value, free, alloc, header.value)
      ensures header.Some? ==> Kept(old(mem), mem, old(alloc))
    {
      fp, from := freep.value, free;
      var p, k := MoreCore(n, more);
      if p.None? {
        return None, fp, from;
      }
      GrownFits(from, Block(more.value, Core(n)), k, base, n);
      fp, from := freep.value, free;
      ghost var grown := mem;
      header := TakeFirstFit(n);
      KeptThen(old(mem), grown, mem, old(alloc));
    }

    // malloc's search for n units, once the list exists.
    method TakeOrGrow(n: int, more: Option<int>)
      returns (header: Option<int>, ghost grew: bool, ghost fp: int, ghost from: seq<Block>)
      requires Valid() && freep.Some? && n > 0 && (more.Some? ==> more.value >= top)
      modifies this
      ensures Valid()
      ensures header.None? <==> !Fits(old(free), n) && more.None?
      ensures grew <==> !Fits(old(free), n) && more.Some?
      ensures obtained == old(obtained) + if grew then Core(n) else 0
      ensures !grew ==> fp == old(freep).value && from == old(free)
      ensures grew ==> Grown(base, old(free), Block(more.value, Core(n)), fp, from)
      ensures header.None? ==> free == old(free) && alloc == old(alloc)
      ensures header.Some? ==>
                freep.Some? && GaveOut(base, fp, from, old(alloc), n, freep.value, free, alloc, header.value)
      ensures header.Some? ==> Kept(old(mem), mem, old(alloc))
    {
      grew, fp, from := false, freep.value, free;
      header := TakeFirstFit(n);
      if header.None? {
        ghost var fp2, from2;
        ghost var was := mem;
        header, fp2, from2 := GrowAndTake(n, more);
        grew := header.Some?;
        if grew {
          fp, from := fp2, from2;
          KeptThen(old(mem), was, mem, old(alloc));
        }
      }
    }

    // malloc(nbytes); sbrk, if it is called, gives the region at address more, or fails.
    // from is the free list that the storage came from, searched from node fp on.
    method Malloc(nbytes: nat, more: Option<int>)
      returns (r: Option<int>, ghost grew: bool, ghost fp: int, ghost from: seq<Block>)
      requires Valid() && (more.Some? ==> more.value >= top)
      modifies this
      ensures Valid()
      ensures r.None? <==> !Fits(old(free), UnitsFor(nbytes)) && more.None?
      ensures grew <==> !Fits(old(free), UnitsFor(nbytes)) && more.Some?
      ensures obtained == old(obtained) + if grew then Core(UnitsFor(nbytes)) else 0
      ensures !grew ==> from == old(free) && fp == if old(freep).Some? then old(freep).value else base
      ensures grew ==> Grown(base, old(free), Block(more.value, Core(UnitsFor(nbytes))), fp, from)
      ensures r.None? ==> free == old(free) && alloc == old(alloc)
      ensures r.Some? ==>
                freep.Some? && GaveOut(base, fp, from, old(alloc), UnitsFor(nbytes), freep.value, free, alloc, r.value - 1)
      ensures r.Some? ==> Kept(old(mem), mem, old(alloc))
    {
      var nunits := (nbytes + HEADER - 1) / HEADER + 1;
      Start();
      ghost var was := mem;
      var header;
      assert nunits == UnitsFor(nbytes);
      header, grew, fp, from := TakeOrGrow(nunits, more);
      if header.None? {
        return None, grew, fp, from;
      }
      KeptThen(old(mem), was, mem, old(alloc));
      r := Some(header.value + 1);
      assert r.value - 1 == header.value;
    }
  }

  // malloc's two ways to cut n units out of the block at p, which follows prevp.
  method CutLinks(mem: Memory, prevp: int, p: int, n: int) returns (mem2: Memory, header: int)
    requires p in mem && prevp in mem && 0 < n <= mem[p].size
    ensures mem2 == Cut(mem, prevp, p, n) && header == p + mem[p].size - n
  {
    mem2, header := mem, p;
    if mem[p].size == n {
      mem2 := mem[prevp := mem[prevp].(ptr := mem[p].ptr)];
    } else {
      mem2 := mem[p := mem[p].(size := mem[p].size - n)];
      header := p + mem2[p].size;
      mem2 := mem2[header := Header(if header in mem2 then mem2[header].ptr else 0, n)];
    }
  }

  // The same for block k of the heap.
  method CutOut(mem: Memory, prevp: int, p: int, n: int, ghost base: int, ghost free: seq<Block>, ghost alloc: seq<Block>,
                ghost obtained: int, ghost top: int, ghost k: nat) returns (mem2: Memory, header: int)
    requires HeapOk(mem, base, free, alloc, obtained, top)
    requires k < |free| && 0 < n <= free[k].size && p == free[k].addr && prevp == Node(base, free, k)
    ensures HeapOk(mem2, base, Shrunk(free, k, n), alloc + [Tail(free[k], n)], obtained, top)
    ensures header == Tail(free[k], n).addr && Kept(mem, mem2, alloc)
  {
    CutKeeps(mem, base, free, alloc, obtained, top, k, n);
    CutRing(mem, base, free, k, n);
    CutKept(mem, base, free, alloc, k, n);
    mem2, header := CutLinks(mem, prevp, p, n);
  }

  // malloc's search, from the node after freep (the f-th) round to freep itself: the first
  // that is large enough, block k, follows prevp.
  method FirstFit(mem: Memory, freep: int, n: int, ghost base: int, ghost free: seq<Block>)
    returns (found: bool, prevp: int, p: int, ghost f: nat, ghost k: nat)
    requires Ring(mem, base, free) && FreeOk(base, free) && IsNode(base, free, freep) && n > 0
    ensures f <= |free| && Node(base, free, f) == freep
    ensures found <==> Fits(free, n)
    ensures found ==>
            && k < |free| && free[k].size >= n && PassedSmall(free, f, k + 1, n)
            && p == free[k].addr && prevp == Node(base, free, k)
  {
    prevp := freep;
    f :| 0 <= f <= |free| && Node(base, free, f) == prevp;
    RingAt(mem, base, free, f);
    p := mem[prevp].ptr;
    ghost var i := if f == |free| then 0 else f + 1;
    assert PassedSmall(free, f, i, n);
    while true
      invariant i <= |free| && p == Node(base, free, i)
      invariant i > 0 ==> prevp == Node(base, free, i - 1)
      invariant PassedSmall(free, f, i, n)
      decreases if i > f then |free| + 1 - i + f else f - i
    {
      RingAt(mem, base, free, i);
      if mem[p].size >= n {
        return true, prevp, p, f, i - 1;
      }
      NodesDistinct(base, free, i, f);
      if p == freep {
        NoneFits(free, f, n);
        return false, prevp, p, f, 0;
      }
      PassedOneMore(free, f, i, n);
      prevp, p := p, mem[p].ptr;
      i := if i == |free| then 0 else i + 1;
    }
  }

  function Core(nu: int): int {
    if nu < MINCORE then MINCORE else nu
  }

  // The two tests of free() and what they store, p being the node below the block.
  method Joined(mem: Memory, p: int, bp: int, ghost base: int, ghost free: seq<Block>, ghost alloc: seq<Block>,
                ghost obtained: int, ghost top: int, ghost a: nat, ghost k: nat) returns (mem2: Memory)
    requires HeapOk(mem, base, free, alloc, obtained, top)
    requires a < |alloc| && alloc[a].addr == bp && Place(free, alloc[a], k) && p == Node(base, free, k)
    ensures HeapOk(mem2, base, Inserted(free, alloc[a], k), Without(alloc, a), obtained, top)
    ensures Kept(mem, mem2, Without(alloc, a))
  {
    FreeKeeps(mem, base, free, alloc, obtained, top, a, k);
    RelinkKept(mem, base, free, alloc, a, k);
    BelowBlock(base, free, alloc[a], k);
    mem2 := mem;
    var q := mem[p].ptr;
    if bp + mem2[bp].size == q {
      mem2 := mem2[bp := Header(mem2[q].ptr, mem2[bp].size + mem2[q].size)];
    } else {
      mem2 := mem2[bp := mem2[bp].(ptr := q)];
    }
    if p + mem2[p].size == bp {
      mem2 := mem2[p := Header(mem2[bp].ptr, mem2[p].size + mem2[bp].size)];
    } else {
      mem2 := mem2[p := mem2[p].(ptr := bp)];
    }
    assert mem2 == Relink(mem, p, alloc[a]);
  }
}
