/** The storage allocator of umalloc.c: an address-ordered circular list of free blocks,
    first fit, with neighbours coalesced. Addresses and sizes are in units of one header. */
module Umalloc {

  datatype Header = Header(ptr: int, size: int)
  datatype Block = Block(addr: int, size: int)

  type Memory = map<int, Header>

  function End(b: Block): int {
    b.addr + b.size
  }

  predicate Apart(x: Block, y: Block) {
    End(x) <= y.addr || End(y) <= x.addr
  }

  function Units(bs: seq<Block>): int {
    if bs == [] then 0 else Units(bs[..|bs| - 1]) + bs[|bs| - 1].size
  }

  // ----- The free list

  // The blocks after base, in address order, with a gap between any two.
  ghost predicate FreeOk(base: int, free: seq<Block>) {
    && (forall i :: 0 <= i < |free| ==> free[i].size > 0 && base < free[i].addr)
    && (forall i, j :: 0 <= i < j < |free| ==> End(free[i]) < free[j].addr)
  }

  // The ring's nodes: base, then the free blocks; after the last comes base again.
  function Node(base: int, free: seq<Block>, i: nat): int
    requires i <= |free|
  {
    if i == 0 then base else free[i - 1].addr
  }

  function NextNode(base: int, free: seq<Block>, i: nat): int
    requires i <= |free|
  {
    if i == |free| then base else free[i].addr
  }

  ghost predicate HeaderOk(mem: Memory, base: int, free: seq<Block>, i: nat)
    requires i < |free|
  {
    free[i].addr in mem && mem[free[i].addr] == Header(NextNode(base, free, i + 1), free[i].size)
  }

  ghost predicate Ring(mem: Memory, base: int, free: seq<Block>) {
    && base in mem && mem[base] == Header(NextNode(base, free, 0), 0)
    && (forall i :: 0 <= i < |free| ==> HeaderOk(mem, base, free, i))
  }

  // k blocks lie below b.
  ghost predicate Place(free: seq<Block>, b: Block, k: nat) {
    && k <= |free|
    && (forall i :: 0 <= i < k ==> End(free[i]) <= b.addr)
    && (forall i :: k <= i < |free| ==> End(b) <= free[i].addr)
  }

  predicate TouchesLeft(free: seq<Block>, b: Block, k: nat)
    requires k <= |free|
  {
    k > 0 && End(free[k - 1]) == b.addr
  }

  predicate TouchesRight(free: seq<Block>, b: Block, k: nat)
    requires k <= |free|
  {
    k < |free| && End(b) == free[k].addr
  }

  // b joined with the free blocks that it touches.
  function Merged(free: seq<Block>, b: Block, k: nat): Block
    requires k <= |free|
  {
    var right := if TouchesRight(free, b, k) then free[k].size else 0;
    if TouchesLeft(free, b, k) then Block(free[k - 1].addr, free[k - 1].size + b.size + right)
    else Block(b.addr, b.size + right)
  }

  function Low(free: seq<Block>, b: Block, k: nat): nat
    requires k <= |free|
  {
    if TouchesLeft(free, b, k) then k - 1 else k
  }

  function High(free: seq<Block>, b: Block, k: nat): (h: nat)
    requires k <= |free|
    ensures k <= h <= |free|
  {
    if TouchesRight(free, b, k) then k + 1 else k
  }

  function Inserted(free: seq<Block>, b: Block, k: nat): seq<Block>
    requires k <= |free|
  {
    free[..Low(free, b, k)] + [Merged(free, b, k)] + free[High(free, b, k)..]
  }

  lemma InsertedShape(free: seq<Block>, b: Block, k: nat)
    requires k <= |free|
    ensures var r, lo, hi := Inserted(free, b, k), Low(free, b, k), High(free, b, k);
            && |r| == lo + 1 + |free| - hi
            && (forall i :: 0 <= i < lo ==> r[i] == free[i])
            && r[lo] == Merged(free, b, k)
            && (forall i :: lo < i < |r| ==> r[i] == free[i - lo - 1 + hi])
  {
  }

  // What free() does to the headers, with p the node below b.
  function Relink(mem: Memory, p: int, b: Block): Memory
    requires p in mem && mem[p].ptr in mem
  {
    var q := mem[p].ptr;
    var h := if End(b) == q then Header(mem[q].ptr, b.size + mem[q].size) else Header(q, b.size);
    var mem1 := mem[b.addr := h];
    if p + mem1[p].size == b.addr then mem1[p := Header(h.ptr, mem1[p].size + h.size)]
    else mem1[p := mem1[p].(ptr := b.addr)]
  }

  // ----- Freeing keeps the list right

  lemma {:induction false} UnitsConcat(a: seq<Block>, b: seq<Block>)
    ensures Units(a + b) == Units(a) + Units(b)
  {
    if b == [] {
      assert a + b == a;
    } else {
      assert (a + b)[..|a + b| - 1] == a + b[..|b| - 1];
      UnitsConcat(a, b[..|b| - 1]);
    }
  }

  lemma UnitsReplace(a: seq<Block>, mid: seq<Block>, mid2: seq<Block>, c: seq<Block>)
    ensures Units(a + mid2 + c) - Units(a + mid + c) == Units(mid2) - Units(mid)
  {
    UnitsConcat(a + mid, c);
    UnitsConcat(a, mid);
    UnitsConcat(a + mid2, c);
    UnitsConcat(a, mid2);
  }

  lemma UnitsOne(b: Block)
    ensures Units([b]) == b.size
  {
  }

  // The free blocks that b touches, and that the merged block replaces.
  function Touched(free: seq<Block>, b: Block, k: nat): seq<Block>
    requires k <= |free|
  {
    (if TouchesLeft(free, b, k) then [free[k - 1]] else []) + (if TouchesRight(free, b, k) then [free[k]] else [])
  }

  lemma InsertedSplit(free: seq<Block>, b: Block, k: nat)
    requires k <= |free|
    ensures free == free[..Low(free, b, k)] + Touched(free, b, k) + free[High(free, b, k)..]
  {
  }

  lemma MergedUnits(free: seq<Block>, b: Block, k: nat)
    requires k <= |free|
    ensures Merged(free, b, k).size == Units(Touched(free, b, k)) + b.size
  {
    var left := if TouchesLeft(free, b, k) then [free[k - 1]] else [];
    var right := if TouchesRight(free, b, k) then [free[k]] else [];
    UnitsConcat(left, right);
    if left != [] {
      UnitsOne(free[k - 1]);
    }
    if right != [] {
      UnitsOne(free[k]);
    }
  }

  lemma InsertedUnits(free: seq<Block>, b: Block, k: nat)
    requires k <= |free|
    ensures Units(Inserted(free, b, k)) == Units(free) + b.size
  {
    var a, c := free[..Low(free, b, k)], free[High(free, b, k)..];
    var m := Merged(free, b, k);
    InsertedSplit(free, b, k);
    UnitsReplace(a, Touched(free, b, k), [m], c);
    UnitsOne(m);
    MergedUnits(free, b, k);
  }

  lemma JoinOk(base: int, a: seq<Block>, m: Block, c: seq<Block>)
    requires FreeOk(base, a) && FreeOk(base, c) && m.size > 0 && base < m.addr
    requires forall i :: 0 <= i < |a| ==> End(a[i]) < m.addr
    requires forall i :: 0 <= i < |c| ==> End(m) < c[i].addr
    ensures FreeOk(base, a + [m] + c)
  {
  }

  lemma InsertedOk(base: int, free: seq<Block>, b: Block, k: nat)
    requires FreeOk(base, free) && Place(free, b, k) && b.size > 0 && base < b.addr
    ensures FreeOk(base, Inserted(free, b, k))
  {
    var lo, hi := Low(free, b, k), High(free, b, k);
    var m := Merged(free, b, k);
    forall i | 0 <= i < lo ensures End(free[i]) < m.addr {
      assert lo < k ==> End(free[i]) < free[lo].addr;
    }
    forall i | 0 <= i < |free[hi..]| ensures End(m) < free[hi..][i].addr {
      assert k < hi ==> End(free[k]) < free[hi + i].addr;
    }
    JoinOk(base, free[..lo], m, free[hi..]);
  }

  // The new block takes up what b and the free blocks did.
  lemma InsertedApart(free: seq<Block>, b: Block, k: nat, x: Block)
    requires k <= |free| && Apart(b, x) && x.size > 0
    requires forall i :: 0 <= i < |free| ==> free[i].size > 0 && Apart(free[i], x)
    requires b.size > 0
    ensures forall i :: 0 <= i < |Inserted(free, b, k)| ==> Apart(Inserted(free, b, k)[i], x)
  {
  }

  // Where the ring leads after the merged block.
  lemma AfterMerged(base: int, free: seq<Block>, b: Block, k: nat)
    requires k <= |free|
    ensures var r, lo := Inserted(free, b, k), Low(free, b, k);
            lo < |r| && NextNode(base, r, lo + 1) == NextNode(base, free, High(free, b, k))
  {
  }

  // The headers that Relink writes, in terms of the list.
  lemma RelinkHeaders(mem: Memory, base: int, free: seq<Block>, b: Block, k: nat)
    requires Ring(mem, base, free) && FreeOk(base, free) && Place(free, b, k) && b.size > 0 && base < b.addr
    ensures var p := Node(base, free, k);
            && p in mem && p < b.addr && mem[p].ptr == NextNode(base, free, k) && mem[p].ptr in mem
            && var mem2, m, next := Relink(mem, p, b), Merged(free, b, k), NextNode(base, free, High(free, b, k));
               && m.addr in mem2 && mem2[m.addr] == Header(next, m.size)
               && (!TouchesLeft(free, b, k) ==> p in mem2 && mem2[p] == Header(m.addr, mem[p].size))
               && (forall x :: x in mem && x != p && x != b.addr ==> x in mem2 && mem2[x] == mem[x])
  {
    var p := Node(base, free, k);
    if k > 0 {
      assert HeaderOk(mem, base, free, k - 1);
    }
    if k < |free| {
      assert HeaderOk(mem, base, free, k);
    }
  }

  // A header before the merged block, and one after it.
  lemma RelinkBefore(mem: Memory, base: int, free: seq<Block>, b: Block, k: nat, i: nat)
    requires Ring(mem, base, free) && FreeOk(base, free) && Place(free, b, k) && b.size > 0 && base < b.addr
    requires i < Low(free, b, k) && Node(base, free, k) in mem && mem[Node(base, free, k)].ptr in mem
    ensures i < |Inserted(free, b, k)| && HeaderOk(Relink(mem, Node(base, free, k), b), base, Inserted(free, b, k), i)
  {
    RelinkHeaders(mem, base, free, b, k);
    AfterMerged(base, free, b, k);
    InsertedShape(free, b, k);
    var r, lo := Inserted(free, b, k), Low(free, b, k);
    assert r[i] == free[i] && HeaderOk(mem, base, free, i);
    assert i + 1 < lo ==> r[i + 1] == free[i + 1];
    assert i + 1 < k ==> End(free[i]) < free[k - 1].addr;
  }

  lemma RelinkAfter(mem: Memory, base: int, free: seq<Block>, b: Block, k: nat, i: nat)
    requires Ring(mem, base, free) && FreeOk(base, free) && Place(free, b, k) && b.size > 0 && base < b.addr
    requires Low(free, b, k) < i < |Inserted(free, b, k)| && Node(base, free, k) in mem && mem[Node(base, free, k)].ptr in mem
    ensures HeaderOk(Relink(mem, Node(base, free, k), b), base, Inserted(free, b, k), i)
  {
    RelinkHeaders(mem, base, free, b, k);
    AfterMerged(base, free, b, k);
    InsertedShape(free, b, k);
    var r, lo, hi := Inserted(free, b, k), Low(free, b, k), High(free, b, k);
    var j := i - lo - 1 + hi;
    assert r[i] == free[j] && HeaderOk(mem, base, free, j);
    assert k > 0 ==> End(free[k - 1]) < free[j].addr;
    if i + 1 < |r| {
      assert r[i + 1] == free[i + 1 - lo - 1 + hi];
    }
  }

  lemma RelinkRing(mem: Memory, base: int, free: seq<Block>, b: Block, k: nat)
    requires Ring(mem, base, free) && FreeOk(base, free) && Place(free, b, k) && b.size > 0 && base < b.addr
    ensures var p := Node(base, free, k);
            && p in mem && mem[p].ptr in mem
            && Ring(Relink(mem, p, b), base, Inserted(free, b, k))
  {
    RelinkHeaders(mem, base, free, b, k);
    AfterMerged(base, free, b, k);
    InsertedShape(free, b, k);
    var p, r, lo := Node(base, free, k), Inserted(free, b, k), Low(free, b, k);
    var mem2 := Relink(mem, p, b);
    assert NextNode(base, r, 0) == if lo == 0 then r[0].addr else NextNode(base, free, 0);
    forall i | 0 <= i < |r| ensures HeaderOk(mem2, base, r, i) {
      if i < lo {
        RelinkBefore(mem, base, free, b, k, i);
      } else if i > lo {
        RelinkAfter(mem, base, free, b, k, i);
      }
    }
  }

  // ----- Taking from a free block

  // The list without the last n units of block k.
  function Shrunk(free: seq<Block>, k: nat, n: int): (r: seq<Block>)
    requires k < |free|
  {
    if free[k].size == n then free[..k] + free[k + 1..]
    else free[k := Block(free[k].addr, free[k].size - n)]
  }

  function Tail(b: Block, n: int): Block {
    Block(End(b) - n, n)
  }

  lemma ShrunkUnits(free: seq<Block>, k: nat, n: int)
    requires k < |free|
    ensures Units(Shrunk(free, k, n)) == Units(free) - n
  {
    UnitsAt(free, k);
    if free[k].size == n {
      UnitsConcat(free[..k], free[k + 1..]);
    } else {
      var r := Shrunk(free, k, n);
      UnitsAt(r, k);
      assert r[..k] == free[..k] && r[k + 1..] == free[k + 1..];
    }
  }

  lemma UnitsAt(bs: seq<Block>, k: nat)
    requires k < |bs|
    ensures Units(bs) == Units(bs[..k]) + bs[k].size + Units(bs[k + 1..])
  {
    var upTo := bs[..k + 1];
    assert bs == upTo + bs[k + 1..];
    UnitsConcat(upTo, bs[k + 1..]);
    assert upTo[..k] == bs[..k];
  }

  lemma ShrunkOk(base: int, free: seq<Block>, k: nat, n: int)
    requires FreeOk(base, free) && k < |free| && 0 < n <= free[k].size
    ensures FreeOk(base, Shrunk(free, k, n))
    ensures base < Tail(free[k], n).addr
    ensures forall i :: 0 <= i < |Shrunk(free, k, n)| ==> Apart(Shrunk(free, k, n)[i], Tail(free[k], n))
  {
    var r := Shrunk(free, k, n);
    forall i | 0 <= i < |r| ensures r[i].size > 0 && base < r[i].addr && Apart(r[i], Tail(free[k], n)) {
      if free[k].size == n {
        assert r[i] == free[if i < k then i else i + 1];
      }
    }
    forall i, j | 0 <= i < j < |r| ensures End(r[i]) < r[j].addr {
      if free[k].size == n {
        assert r[i] == free[if i < k then i else i + 1];
        assert r[j] == free[if j < k then j else j + 1];
      }
    }
  }

  lemma ShrunkApart(free: seq<Block>, k: nat, n: int, x: Block)
    requires k < |free| && 0 < n <= free[k].size
    requires forall i :: 0 <= i < |free| ==> free[i].size > 0 && Apart(free[i], x)
    ensures forall i :: 0 <= i < |Shrunk(free, k, n)| ==> Apart(Shrunk(free, k, n)[i], x)
    ensures Apart(Tail(free[k], n), x)
  {
  }

  // What malloc does to the headers once it has found p, after prevp, large enough.
  function Cut(mem: Memory, prevp: int, p: int, n: int): Memory
    requires p in mem && prevp in mem
  {
    if mem[p].size == n then mem[prevp := mem[prevp].(ptr := mem[p].ptr)]
    else
      var q := p + mem[p].size - n;
      mem[p := mem[p].(size := mem[p].size - n)][q := Header(if q in mem then mem[q].ptr else 0, n)]
  }

  // Without block k: the ring's nodes and where they lead.
  lemma RemovedNodes(base: int, free: seq<Block>, k: nat, i: nat)
    requires k < |free| && i < |free| - 1
    ensures var r, j := free[..k] + free[k + 1..], if i < k then i else i + 1;
            && r[i] == free[j]
            && NextNode(base, r, i + 1) == NextNode(base, free, if j == k - 1 then k + 1 else j + 1)
  {
  }

  lemma CutExact(mem: Memory, base: int, free: seq<Block>, k: nat)
    requires Ring(mem, base, free) && FreeOk(base, free) && k < |free|
    ensures var prevp, p := Node(base, free, k), free[k].addr;
            && prevp in mem && p in mem && mem[p].size == free[k].size
            && Ring(Cut(mem, prevp, p, free[k].size), base, free[..k] + free[k + 1..])
  {
    var prevp, p, r := Node(base, free, k), free[k].addr, free[..k] + free[k + 1..];
    RingAt(mem, base, free, k);
    RingAt(mem, base, free, k + 1);
    var mem2 := mem[prevp := mem[prevp].(ptr := mem[p].ptr)];
    forall i | 0 <= i < |r| ensures HeaderOk(mem2, base, r, i) {
      var j := if i < k then i else i + 1;
      RemovedNodes(base, free, k, i);
      RingAt(mem, base, free, j + 1);
      NodesDistinct(base, free, j + 1, k);
    }
    assert mem2[base] == Header(NextNode(base, r, 0), 0) by {
      NodesDistinct(base, free, 0, k);
    }
  }

  lemma CutSplit(mem: Memory, base: int, free: seq<Block>, k: nat, n: int)
    requires Ring(mem, base, free) && FreeOk(base, free) && k < |free| && 0 < n < free[k].size
    ensures var prevp, p := Node(base, free, k), free[k].addr;
            && prevp in mem && p in mem && mem[p].size == free[k].size
            && Ring(Cut(mem, prevp, p, n), base, free[k := Block(p, free[k].size - n)])
  {
    var prevp, p := Node(base, free, k), free[k].addr;
    var r := free[k := Block(p, free[k].size - n)];
    RingAt(mem, base, free, k);
    RingAt(mem, base, free, k + 1);
    var mem2 := Cut(mem, prevp, p, n);
    forall i | 0 <= i < |r| ensures HeaderOk(mem2, base, r, i) {
      RingAt(mem, base, free, i + 1);
      NodesDistinct(base, free, i + 1, k + 1);
      OutsideTail(base, free, k, n, i);
      assert NextNode(base, r, i + 1) == NextNode(base, free, i + 1);
    }
  }

  lemma OutsideTail(base: int, free: seq<Block>, k: nat, n: int, i: nat)
    requires FreeOk(base, free) && k < |free| && 0 < n < free[k].size && i < |free|
    ensures free[i].addr != Tail(free[k], n).addr
  {
  }

  lemma CutRing(mem: Memory, base: int, free: seq<Block>, k: nat, n: int)
    requires Ring(mem, base, free) && FreeOk(base, free) && k < |free| && 0 < n <= free[k].size
    ensures var prevp, p := Node(base, free, k), free[k].addr;
            && prevp in mem && p in mem && mem[p].size == free[k].size
            && Ring(Cut(mem, prevp, p, n), base, Shrunk(free, k, n))
            && var t := Tail(free[k], n); t.addr in Cut(mem, prevp, p, n) && Cut(mem, prevp, p, n)[t.addr].size == n
  {
    if free[k].size == n {
      CutExact(mem, base, free, k);
      NodesDistinct(base, free, k, k + 1);
    } else {
      CutSplit(mem, base, free, k, n);
    }
  }

  // ----- Going round the ring

  function SizeAt(free: seq<Block>, i: nat): int
    requires i <= |free|
  {
    if i == 0 then 0 else free[i - 1].size
  }

  // Going from node f round the ring, the nodes before node i hold fewer than n units.
  ghost predicate PassedSmall(free: seq<Block>, f: nat, i: nat, n: int)
    requires f <= |free| && i <= |free|
  {
    if f < i then forall j :: f < j < i ==> SizeAt(free, j) < n
    else (forall j :: f < j <= |free| ==> SizeAt(free, j) < n) && (forall j :: 0 <= j < i ==> SizeAt(free, j) < n)
  }

  lemma RingAt(mem: Memory, base: int, free: seq<Block>, i: nat)
    requires Ring(mem, base, free) && i <= |free|
    ensures var p := Node(base, free, i);
            p in mem && mem[p] == Header(NextNode(base, free, i), SizeAt(free, i))
    ensures NextNode(base, free, i) == Node(base, free, if i == |free| then 0 else i + 1)
  {
    if i > 0 {
      assert HeaderOk(mem, base, free, i - 1);
    }
  }

  lemma NodesDistinct(base: int, free: seq<Block>, i: nat, j: nat)
    requires FreeOk(base, free) && i <= |free| && j <= |free|
    ensures Node(base, free, i) == Node(base, free, j) <==> i == j
    ensures i < j ==> Node(base, free, i) < Node(base, free, j)
  {
  }

  lemma FindPlace(base: int, free: seq<Block>, b: Block) returns (k: nat)
    requires FreeOk(base, free) && b.size > 0 && forall i :: 0 <= i < |free| ==> Apart(free[i], b)
    ensures Place(free, b, k)
  {
    k := 0;
    while k < |free| && End(free[k]) <= b.addr
      invariant k <= |free| && forall i :: 0 <= i < k ==> End(free[i]) <= b.addr
    {
      k := k + 1;
    }
    forall i | k <= i < |free| ensures End(b) <= free[i].addr {
      assert Apart(free[k], b) && Apart(free[i], b);
      assert i > k ==> End(free[k]) < free[i].addr;
    }
  }

  // free()'s search stops at node i: either branch of its test.
  predicate Stops(mem: Memory, p: int, bp: int)
    requires p in mem
  {
    (bp > p && bp < mem[p].ptr) || (p >= mem[p].ptr && (bp > p || bp < mem[p].ptr))
  }

  // It stops exactly at the node below the block.
  lemma StopsAtPlace(mem: Memory, base: int, free: seq<Block>, b: Block, k: nat, i: nat)
    requires Ring(mem, base, free) && FreeOk(base, free) && Place(free, b, k) && b.size > 0 && base < b.addr
    requires i <= |free|
    ensures Node(base, free, i) in mem && (Stops(mem, Node(base, free, i), b.addr) <==> i == k)
  {
    RingAt(mem, base, free, i);
    if i < |free| {
      NodesDistinct(base, free, i, i + 1);
    } else {
      NodesDistinct(base, free, 0, i);
    }
    if i < k {
      assert End(free[i]) <= b.addr;
    } else if i > k {
      assert End(b) <= free[i - 1].addr;
    }
    if i == k && 0 < k {
      assert End(free[k - 1]) <= b.addr;
    }
    if i == k < |free| {
      assert End(b) <= free[k].addr;
    }
  }
}
