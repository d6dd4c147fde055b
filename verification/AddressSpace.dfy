/** What growing, shrinking, copying and freeing an address space (vm.c, kalloc.c) does to the
    entries and the frames, as relations between memories. */
module AddressSpace {
  import opened Vm

  const PGSIZE: nat := 4096
  const KERNBASE: nat := 0x8000_0000
  const USERPAGES: nat := 524288   // KERNBASE / PGSIZE

  // The memories in which entries and owners agree.
  type Sound = m: Memory | Inv(m) witness Memory([], map[], map[], map[])

  // A page by its number, address / PGSIZE; its directory and table index.
  function Dx(v: nat): nat {
    v / ENTRIES
  }

  function Tx(v: nat): (j: nat)
    ensures j < ENTRIES
  {
    v % ENTRIES
  }

  // PGROUNDUP(sz) / PGSIZE
  function Pages(sz: nat): nat {
    (sz + PGSIZE - 1) / PGSIZE
  }

  function At(m: Memory, d: nat, v: nat): Entry {
    Lookup(m, d, Dx(v), Tx(v))
  }

  predicate SamePage(m: Memory, n: Memory, f: nat) {
    f in m.pages ==> f in n.pages && n.pages[f] == m.pages[f]
  }

  // ----- Unmapping page by page, the plain way

  function UnmappedAt(m: Sound, d: nat, v: nat): Sound
    requires IsDir(m, d) && v < USERPAGES
  {
    if At(m, d, v).Absent? then m
    else
      UnmappedKeeps(m, d, Dx(v), Tx(v));
      Unmapped(m, d, Dx(v), Tx(v))
  }

  predicate InRange(i: nat, j: nat, lo: nat, hi: nat) {
    j < ENTRIES && lo <= i * ENTRIES + j < hi
  }

  lemma PageNumber(v: nat, i: nat, j: nat)
    ensures InRange(i, j, v, v + 1) <==> i == Dx(v) && j == Tx(v)
  {
  }

  // What unmapping the pages lo .. hi of d does to one entry and to one frame.
  predicate SlotCleared(m: Memory, n: Memory, d: nat, lo: nat, hi: nat, d2: nat, i: nat, j: nat) {
    && (IsDir(n, d2) <==> IsDir(m, d2))
    && (IsDir(m, d2) ==>
          && Pde(n, d2, i) == Pde(m, d2, i)
          && Lookup(n, d2, i, j) == if d2 == d && InRange(i, j, lo, hi) then Absent else Lookup(m, d2, i, j))
  }

  predicate FrameCleared(m: Memory, n: Memory, d: nat, lo: nat, hi: nat, f: nat) {
    var o := OwnerOf(m, f);
    if o.User? && o.dir == d && InRange(o.pdx, o.ptx, lo, hi) then OwnerOf(n, f) == OnFreeList
    else OwnerOf(n, f) == o && SamePage(m, n, f)
  }

  // n is m with the pages lo .. hi of d unmapped and their frames freed, and nothing else.
  ghost predicate Cleared(m: Memory, n: Memory, d: nat, lo: nat, hi: nat) {
    && n.owner.Keys == m.owner.Keys
    && (forall d2, i, j :: SlotCleared(m, n, d, lo, hi, d2, i, j))
    && (forall f :: FrameCleared(m, n, d, lo, hi, f))
  }

  lemma SlotClearedOne(m: Sound, d: nat, v: nat, d2: nat, i: nat, j: nat)
    requires IsDir(m, d) && v < USERPAGES
    ensures SlotCleared(m, UnmappedAt(m, d, v), d, v, v + 1, d2, i, j)
  {
    PageNumber(v, i, j);
    if At(m, d, v).Present? {
      UnmappedKeeps(m, d, Dx(v), Tx(v));
      DetachedKeeps(m, d, Dx(v), Tx(v));
      WithEntryLookup(m, d, Dx(v), Tx(v), Absent, d2, i, j);
      var f, n, r := At(m, d, v).frame, WithEntry(m, d, Dx(v), Tx(v), Absent), Detached(m, d, Dx(v), Tx(v));
      assert OwnerOf(m, f) == User(d, Dx(v), Tx(v));
      assert Lookup(r, d2, i, j) == Lookup(n, d2, i, j);
      SameLookup(r, Given(r, f), f, d2, i, j);
    }
  }

  lemma FrameClearedOne(m: Sound, d: nat, v: nat, f: nat)
    requires IsDir(m, d) && v < USERPAGES
    ensures FrameCleared(m, UnmappedAt(m, d, v), d, v, v + 1, f)
    ensures UnmappedAt(m, d, v).owner.Keys == m.owner.Keys
  {
    var o := OwnerOf(m, f);
    if o.User? {
      PageNumber(v, o.pdx, o.ptx);
    }
    if At(m, d, v).Present? {
      UnmappedKeeps(m, d, Dx(v), Tx(v));
      assert OwnerOf(m, At(m, d, v).frame) == User(d, Dx(v), Tx(v));
      PageNumber(v, Dx(v), Tx(v));
    }
  }

  lemma ClearedOne(m: Sound, d: nat, v: nat)
    requires IsDir(m, d) && v < USERPAGES
    ensures Cleared(m, UnmappedAt(m, d, v), d, v, v + 1)
  {
    var n, w := UnmappedAt(m, d, v), v + 1;
    forall d2, i, j ensures SlotCleared(m, n, d, v, w, d2, i, j) {
      SlotClearedOne(m, d, v, d2, i, j);
    }
    forall f ensures FrameCleared(m, n, d, v, w, f) {
      FrameClearedOne(m, d, v, f);
    }
    FrameClearedOne(m, d, v, 0);
  }

  lemma ClearedThen(a: Memory, b: Memory, c: Memory, d: nat, lo: nat, mid: nat, hi: nat)
    requires Cleared(a, b, d, lo, mid) && Cleared(b, c, d, mid, hi) && lo <= mid <= hi
    ensures Cleared(a, c, d, lo, hi)
  {
    forall d2, i, j ensures SlotCleared(a, c, d, lo, hi, d2, i, j) {
      assert SlotCleared(a, b, d, lo, mid, d2, i, j) && SlotCleared(b, c, d, mid, hi, d2, i, j);
    }
    forall f ensures FrameCleared(a, c, d, lo, hi, f) {
      assert FrameCleared(a, b, d, lo, mid, f) && FrameCleared(b, c, d, mid, hi, f);
    }
  }

  // deallocuvm the plain way: one page at a time.
  function UnmapRange(m: Sound, d: nat, lo: nat, hi: nat): (n: Sound)
    requires IsDir(m, d) && lo <= hi <= USERPAGES
    decreases hi - lo
  {
    if lo == hi then m
    else
      var a := UnmappedAt(m, d, lo);
      ClearedOne(m, d, lo);
      assert SlotCleared(m, a, d, lo, lo + 1, d, 0, 0);
      UnmapRange(a, d, lo + 1, hi)
  }

  lemma {:induction false} UnmapRangeClears(m: Sound, d: nat, lo: nat, hi: nat)
    requires IsDir(m, d) && lo <= hi <= USERPAGES
    ensures Cleared(m, UnmapRange(m, d, lo, hi), d, lo, hi)
    decreases hi - lo
  {
    if lo < hi {
      var a := UnmappedAt(m, d, lo);
      ClearedOne(m, d, lo);
      assert SlotCleared(m, a, d, lo, lo + 1, d, 0, 0);
      UnmapRangeClears(a, d, lo + 1, hi);
      ClearedThen(m, a, UnmapRange(a, d, lo + 1, hi), d, lo, lo + 1, hi);
    }
  }

  // Where no page is mapped, nothing happens.
  lemma UnmapSkip(m: Sound, d: nat, v: nat, next: nat, hi: nat)
    requires IsDir(m, d) && v < hi <= USERPAGES && next == v + 1 && At(m, d, v).Absent?
    ensures UnmapRange(m, d, v, hi) == UnmapRange(m, d, next, hi)
  {
  }

  lemma UnmapSkips(m: Sound, d: nat, lo: nat, mid: nat, hi: nat)
    requires IsDir(m, d) && lo <= mid <= hi <= USERPAGES
    requires forall v :: lo <= v < mid ==> At(m, d, v).Absent?
    ensures UnmapRange(m, d, lo, hi) == UnmapRange(m, d, mid, hi)
  {
    var v := mid;
    while v > lo
      invariant lo <= v <= mid && UnmapRange(m, d, v, hi) == UnmapRange(m, d, mid, hi)
    {
      UnmapSkip(m, d, v - 1, v, hi);
      v := v - 1;
    }
  }

  // ----- Adding pages

  // What mapping the pages lo .. hi of d does to one entry and to one frame.
  predicate SlotAdded(m: Memory, n: Memory, d: nat, lo: nat, hi: nat, d2: nat, i: nat, j: nat) {
    && (IsDir(n, d2) <==> IsDir(m, d2))
    && (IsDir(m, d2) ==>
          if d2 == d && InRange(i, j, lo, hi) then Lookup(m, d2, i, j).Absent? && Lookup(n, d2, i, j).Present?
          else Lookup(n, d2, i, j) == Lookup(m, d2, i, j))
  }

  predicate FrameAdded(m: Memory, n: Memory, d: nat, lo: nat, hi: nat, f: nat) {
    var o, p := OwnerOf(m, f), OwnerOf(n, f);
    if o == OnFreeList then
      || p == OnFreeList
      || (p.Table? && p.dir == d)
      || (p.User? && p.dir == d && InRange(p.pdx, p.ptx, lo, hi))
    else p == o && SamePage(m, n, f)
  }

  // The pages lo .. hi of d were absent and are mapped now, with frames from the free list.
  ghost predicate Added(m: Memory, n: Memory, d: nat, lo: nat, hi: nat) {
    && n.owner.Keys == m.owner.Keys
    && (forall d2, i, j :: SlotAdded(m, n, d, lo, hi, d2, i, j))
    && (forall f :: FrameAdded(m, n, d, lo, hi, f))
  }

  lemma AddedThen(a: Memory, b: Memory, c: Memory, d: nat, lo: nat, mid: nat, hi: nat)
    requires Added(a, b, d, lo, mid) && Added(b, c, d, mid, hi) && lo <= mid <= hi
    ensures Added(a, c, d, lo, hi)
  {
    forall d2, i, j ensures SlotAdded(a, c, d, lo, hi, d2, i, j) {
      assert SlotAdded(a, b, d, lo, mid, d2, i, j) && SlotAdded(b, c, d, mid, hi, d2, i, j);
    }
    forall f ensures FrameAdded(a, c, d, lo, hi, f) {
      assert FrameAdded(a, b, d, lo, mid, f) && FrameAdded(b, c, d, mid, hi, f);
    }
  }

  // Page v of d is mapped with these flags and holds these bytes.
  predicate Holds(m: Memory, d: nat, v: nat, flags: nat, p: Page) {
    var e := At(m, d, v);
    e.Present? && e.flags == flags && e.frame in m.pages && m.pages[e.frame] == p
  }

  lemma VInRange(v: nat, lo: nat, hi: nat)
    ensures InRange(Dx(v), Tx(v), lo, hi) <==> lo <= v < hi
  {
  }

  lemma AddedHolds(m: Sound, n: Memory, c: nat, lo: nat, hi: nat, d: nat, v: nat, flags: nat, p: Page)
    requires Added(m, n, c, lo, hi) && IsDir(m, d) && v < USERPAGES && Holds(m, d, v, flags, p)
    ensures Holds(n, d, v, flags, p)
  {
    assert SlotAdded(m, n, c, lo, hi, d, Dx(v), Tx(v));
    assert FrameAdded(m, n, c, lo, hi, At(m, d, v).frame);
  }

  // ----- One page: kalloc and fill, walkpgdir, store

  function Filled(m: Memory, p: Page): Memory
    requires m.freelist != []
  {
    var n := Taken(m);
    n.(pages := n.pages[m.freelist[0] := p])
  }

  lemma FilledKeeps(m: Memory, p: Page)
    requires Inv(m) && m.freelist != []
    ensures Inv(Filled(m, p)) && OwnerOf(m, m.freelist[0]) == OnFreeList
    ensures m.freelist[0] in m.owner && OwnerOf(Filled(m, p), m.freelist[0]) == Elsewhere
  {
    TakenKeeps(m);
    var f := m.freelist[0];
    assert Filled(m, p).tables - {f} == Taken(m).tables - {f};
    assert Filled(m, p).pages - {f} == Taken(m).pages - {f};
    SameTables(Taken(m), Filled(m, p), f);
  }

  lemma FilledLookup(m: Memory, p: Page, d: nat, i: nat, j: nat)
    requires Inv(m) && m.freelist != []
    ensures IsDir(Filled(m, p), d) <==> IsDir(m, d)
    ensures Pde(Filled(m, p), d, i) == Pde(m, d, i) && Lookup(Filled(m, p), d, i, j) == Lookup(m, d, i, j)
  {
  }

  predicate CanWalk(m: Memory, d: nat, i: nat) {
    Pde(m, d, i).Present? || m.freelist != []
  }

  // walkpgdir with alloc: a page table for directory entry i, from the free list if need be.
  function Walked(m: Sound, d: nat, i: nat): Sound
    requires IsDir(m, d) && i < ENTRIES && CanWalk(m, d, i)
  {
    if Pde(m, d, i).Present? then m
    else
      TakenKeeps(m);
      WithTableKeeps(Taken(m), d, i, m.freelist[0]);
      WithTable(Taken(m), d, i, m.freelist[0])
  }

  lemma WalkedLookup(m: Sound, d: nat, i: nat, d2: nat, i2: nat, j2: nat)
    requires IsDir(m, d) && i < ENTRIES && CanWalk(m, d, i)
    ensures var n := Walked(m, d, i);
            && (IsDir(n, d2) <==> IsDir(m, d2))
            && (IsDir(m, d2) ==> Lookup(n, d2, i2, j2) == Lookup(m, d2, i2, j2))
            && (IsDir(m, d2) ==> (Pde(n, d2, i2).Present? <==> Pde(m, d2, i2).Present? || (d2 == d && i2 == i)))
            && (IsDir(m, d2) && Pde(m, d2, i2).Present? ==> Pde(n, d2, i2) == Pde(m, d2, i2))
  {
    if Pde(m, d, i).Absent? {
      TakenKeeps(m);
      WithTableLookup(Taken(m), d, i, m.freelist[0], d2, i2, j2);
    }
  }

  lemma WalkedFrame(m: Sound, d: nat, i: nat, f: nat)
    requires IsDir(m, d) && i < ENTRIES && CanWalk(m, d, i)
    ensures var n := Walked(m, d, i);
            && n.owner.Keys == m.owner.Keys && SamePage(m, n, f)
            && (OwnerOf(m, f) == OnFreeList ==> OwnerOf(n, f) == OnFreeList || OwnerOf(n, f) == Table(d, i))
            && (OwnerOf(m, f) != OnFreeList ==> OwnerOf(n, f) == OwnerOf(m, f))
            && n.freelist == if Pde(m, d, i).Present? then m.freelist else m.freelist[1..]
  {
    if Pde(m, d, i).Absent? {
      TakenKeeps(m);
    }
  }

  // The page v of d on a frame from the free list that holds p.
  function WithPage(m: Sound, d: nat, v: nat, p: Page, flags: nat): Sound
    requires IsDir(m, d) && v < USERPAGES && At(m, d, v).Absent?
    requires m.freelist != [] && CanWalk(Filled(m, p), d, Dx(v))
  {
    var f := m.freelist[0];
    FilledKeeps(m, p);
    FilledLookup(m, p, d, Dx(v), Tx(v));
    var a: Sound := Filled(m, p);
    WalkedLookup(a, d, Dx(v), d, Dx(v), Tx(v));
    WalkedFrame(a, d, Dx(v), f);
    MappedKeeps(Walked(a, d, Dx(v)), d, Dx(v), Tx(v), f, flags);
    Mapped(Walked(a, d, Dx(v)), d, Dx(v), Tx(v), f, flags)
  }

  lemma WithPageSlot(m: Sound, d: nat, v: nat, p: Page, flags: nat, d2: nat, i: nat, j: nat)
    requires IsDir(m, d) && v < USERPAGES && At(m, d, v).Absent?
    requires m.freelist != [] && CanWalk(Filled(m, p), d, Dx(v))
    ensures SlotAdded(m, WithPage(m, d, v, p, flags), d, v, v + 1, d2, i, j)
    ensures At(WithPage(m, d, v, p, flags), d, v) == Present(m.freelist[0], flags)
  {
    FilledKeeps(m, p);
    var a: Sound := Filled(m, p);
    var e, n := Present(m.freelist[0], flags), WithPage(m, d, v, p, flags);
    FilledLookup(m, p, d2, i, j);
    FilledLookup(m, p, d, Dx(v), Tx(v));
    WalkedLookup(a, d, Dx(v), d2, i, j);
    WalkedLookup(a, d, Dx(v), d, Dx(v), Tx(v));
    WalkedFrame(a, d, Dx(v), m.freelist[0]);
    var b := Walked(a, d, Dx(v));
    PageNumber(v, i, j);
    StoredLookup(b, d, Dx(v), Tx(v), e, n, d2, i, j);
    StoredLookup(b, d, Dx(v), Tx(v), e, n, d, Dx(v), Tx(v));
  }

  // A stored entry seen through a change of owner that touches no directory.
  lemma StoredLookup(b: Sound, d: nat, i: nat, j: nat, e: Entry, n: Memory, d2: nat, i2: nat, j2: nat)
    requires IsDir(b, d) && Pde(b, d, i).Present? && j < ENTRIES
    requires e.Present? && OwnerOf(b, e.frame) == Elsewhere && e.frame in b.owner
    requires n == Mapped(b, d, i, j, e.frame, e.flags)
    ensures IsDir(n, d2) <==> IsDir(b, d2)
    ensures IsDir(b, d2) ==>
              && Pde(n, d2, i2) == Pde(b, d2, i2)
              && Lookup(n, d2, i2, j2) == if d2 == d && i2 == i && j2 == j then e else Lookup(b, d2, i2, j2)
  {
    WithEntryLookup(b, d, i, j, e, d2, i2, j2);
    assert Lookup(n, d2, i2, j2) == Lookup(WithEntry(b, d, i, j, e), d2, i2, j2);
  }

  lemma WithPageFrame(m: Sound, d: nat, v: nat, p: Page, flags: nat, f: nat)
    requires IsDir(m, d) && v < USERPAGES && At(m, d, v).Absent?
    requires m.freelist != [] && CanWalk(Filled(m, p), d, Dx(v))
    ensures FrameAdded(m, WithPage(m, d, v, p, flags), d, v, v + 1, f)
  {
    FilledKeeps(m, p);
    var a: Sound := Filled(m, p);
    WalkedFrame(a, d, Dx(v), f);
    WalkedFrame(a, d, Dx(v), m.freelist[0]);
    PageNumber(v, Dx(v), Tx(v));
  }

  lemma WithPageTakes(m: Sound, d: nat, v: nat, p: Page, flags: nat)
    requires IsDir(m, d) && v < USERPAGES && At(m, d, v).Absent?
    requires m.freelist != [] && CanWalk(Filled(m, p), d, Dx(v))
    ensures var n := WithPage(m, d, v, p, flags);
            && n.owner.Keys == m.owner.Keys
            && m.freelist[0] in n.pages && n.pages[m.freelist[0]] == p
            && |n.freelist| == |m.freelist| - if Pde(m, d, Dx(v)).Present? then 1 else 2
  {
    FilledKeeps(m, p);
    FilledLookup(m, p, d, Dx(v), Tx(v));
    var a: Sound := Filled(m, p);
    WalkedFrame(a, d, Dx(v), m.freelist[0]);
    var b := Walked(a, d, Dx(v));
    assert WithPage(m, d, v, p, flags).freelist == b.freelist;
  }

  lemma WithPageAdds(m: Sound, d: nat, v: nat, p: Page, flags: nat)
    requires IsDir(m, d) && v < USERPAGES && At(m, d, v).Absent?
    requires m.freelist != [] && CanWalk(Filled(m, p), d, Dx(v))
    ensures Added(m, WithPage(m, d, v, p, flags), d, v, v + 1)
    ensures Holds(WithPage(m, d, v, p, flags), d, v, flags, p)
  {
    var n, w := WithPage(m, d, v, p, flags), v + 1;
    forall d2, i, j ensures SlotAdded(m, n, d, v, w, d2, i, j) {
      WithPageSlot(m, d, v, p, flags, d2, i, j);
    }
    forall f ensures FrameAdded(m, n, d, v, w, f) {
      WithPageFrame(m, d, v, p, flags, f);
    }
    WithPageTakes(m, d, v, p, flags);
    WithPageSlot(m, d, v, p, flags, d, 0, 0);
  }

  // ----- How many page tables mapping lo .. hi takes

  // Page v is the first of lo .. to use its page table.
  predicate OpensTable(v: nat, lo: nat) {
    v == lo || Tx(v) == 0
  }

  function Tables(m: Memory, d: nat, lo: nat, hi: nat): nat
    requires lo <= hi
  {
    if lo == hi then 0
    else Tables(m, d, lo, hi - 1) + if OpensTable(hi - 1, lo) && Pde(m, d, Dx(hi - 1)).Absent? then 1 else 0
  }

  lemma {:induction false} TablesGrow(m: Memory, d: nat, lo: nat, mid: nat, hi: nat)
    requires lo <= mid <= hi
    ensures Tables(m, d, lo, mid) <= Tables(m, d, lo, hi)
    decreases hi - mid
  {
    if mid < hi {
      TablesGrow(m, d, lo, mid, hi - 1);
    }
  }

  predicate InTables(i: nat, lo: nat, v: nat) {
    lo < v && Dx(lo) <= i <= Dx(v - 1)
  }

  // n has the page tables of m and those of the pages lo .. v, and spent the free list on them
  // and on one frame for each page.
  ghost predicate Spent(m: Memory, n: Memory, d: nat, lo: nat, v: nat, pages: nat) {
    && lo <= v
    && (forall i :: Pde(n, d, i).Present? <==> Pde(m, d, i).Present? || InTables(i, lo, v))
    && |n.freelist| + pages + Tables(m, d, lo, v) == |m.freelist|
  }

  lemma SpentNext(m: Memory, n: Memory, r: Memory, d: nat, lo: nat, v: nat, pages: nat, k: nat)
    requires Spent(m, n, d, lo, v, pages)
    requires forall i :: Pde(r, d, i).Present? <==> Pde(n, d, i).Present? || i == Dx(v)
    requires |r.freelist| == |n.freelist| - k - if Pde(n, d, Dx(v)).Present? then 0 else 1
    ensures Spent(m, r, d, lo, v + 1, pages + k)
  {
  }

  // WithPage opens at most the page table of v.
  lemma WithPageTables(m: Sound, d: nat, v: nat, p: Page, flags: nat, i: nat)
    requires IsDir(m, d) && v < USERPAGES && At(m, d, v).Absent?
    requires m.freelist != [] && CanWalk(Filled(m, p), d, Dx(v))
    ensures Pde(WithPage(m, d, v, p, flags), d, i).Present? <==> Pde(m, d, i).Present? || i == Dx(v)
  {
    FilledKeeps(m, p);
    FilledLookup(m, p, d, i, 0);
    FilledLookup(m, p, d, Dx(v), Tx(v));
    var a: Sound := Filled(m, p);
    WalkedLookup(a, d, Dx(v), d, i, 0);
    WalkedLookup(a, d, Dx(v), d, Dx(v), Tx(v));
    WalkedFrame(a, d, Dx(v), m.freelist[0]);
    StoredLookup(Walked(a, d, Dx(v)), d, Dx(v), Tx(v), Present(m.freelist[0], flags), WithPage(m, d, v, p, flags), d, i, 0);
  }

  // ----- Undoing an addition

  predicate SlotSame(m: Memory, n: Memory, d2: nat, i: nat, j: nat) {
    && (IsDir(n, d2) <==> IsDir(m, d2))
    && (IsDir(m, d2) ==> Lookup(n, d2, i, j) == Lookup(m, d2, i, j))
  }

  predicate FrameRolledBack(m: Memory, n: Memory, d: nat, f: nat) {
    var o, p := OwnerOf(m, f), OwnerOf(n, f);
    if o == OnFreeList then p == OnFreeList || (p.Table? && p.dir == d)
    else p == o && SamePage(m, n, f)
  }

  // Every page of every address space is as in m; only empty page tables of d were added.
  ghost predicate RolledBack(m: Memory, n: Memory, d: nat) {
    && n.owner.Keys == m.owner.Keys
    && (forall d2, i, j :: SlotSame(m, n, d2, i, j))
    && (forall f :: FrameRolledBack(m, n, d, f))
  }

  ghost predicate AbsentFrom(m: Memory, d: nat, lo: nat, hi: nat) {
    forall v :: lo <= v < hi ==> At(m, d, v).Absent?
  }

  lemma RangeAt(i: nat, j: nat, lo: nat, hi: nat)
    requires InRange(i, j, lo, hi)
    ensures lo <= i * ENTRIES + j < hi && Dx(i * ENTRIES + j) == i && Tx(i * ENTRIES + j) == j
  {
  }

  lemma NoPageThere(a: Memory, d: nat, lo: nat, hi: nat, f: nat)
    requires Inv(a) && AbsentFrom(a, d, lo, hi)
    ensures var o := OwnerOf(a, f); !(o.User? && o.dir == d && InRange(o.pdx, o.ptx, lo, hi))
  {
    var o := OwnerOf(a, f);
    if o.User? && o.dir == d && InRange(o.pdx, o.ptx, lo, hi) {
      RangeAt(o.pdx, o.ptx, lo, hi);
      var e := At(a, d, o.pdx * ENTRIES + o.ptx);
    }
  }

  lemma AddedThenCleared(a: Memory, b: Memory, c: Memory, d: nat, lo: nat, mid: nat, hi: nat)
    requires Added(a, b, d, lo, mid) && Cleared(b, c, d, lo, hi) && lo <= mid <= hi
    requires AbsentFrom(a, d, lo, hi)
    requires Inv(a)
    ensures RolledBack(a, c, d)
  {
    forall d2, i: nat, j: nat ensures SlotSame(a, c, d2, i, j) {
      assert SlotAdded(a, b, d, lo, mid, d2, i, j) && SlotCleared(b, c, d, lo, hi, d2, i, j);
      if d2 == d && InRange(i, j, lo, hi) {
        RangeAt(i, j, lo, hi);
        assert At(a, d, i * ENTRIES + j).Absent?;
      }
    }
    forall f ensures FrameRolledBack(a, c, d, f) {
      assert FrameAdded(a, b, d, lo, mid, f) && FrameCleared(b, c, d, lo, hi, f);
      NoPageThere(a, d, lo, hi, f);
    }
  }

  lemma GivenDiffers(m: Memory, f: nat)
    requires f in m.owner && m.owner[f] == Elsewhere
    ensures DifferAt(m, Given(m, f), f)
  {
  }

  // The same, with one more frame allocated when the failure came.
  lemma FilledThenClearedSlot(a: Sound, b: Sound, p: Page, y: Sound, d: nat, lo: nat, mid: nat, hi: nat,
                              d2: nat, i: nat, j: nat)
    requires Added(a, b, d, lo, mid) && b.freelist != [] && Cleared(Filled(b, p), y, d, lo, hi) && lo <= mid <= hi
    requires AbsentFrom(a, d, lo, hi) && OwnerOf(y, b.freelist[0]) == Elsewhere && b.freelist[0] in y.owner
    ensures SlotSame(a, Given(y, b.freelist[0]), d2, i, j)
  {
    var f := b.freelist[0];
    assert SlotAdded(a, b, d, lo, mid, d2, i, j) && SlotCleared(Filled(b, p), y, d, lo, hi, d2, i, j);
    FilledLookup(b, p, d2, i, j);
    GivenDiffers(y, f);
    SameLookup(y, Given(y, f), f, d2, i, j);
    if d2 == d && InRange(i, j, lo, hi) {
      RangeAt(i, j, lo, hi);
      assert At(a, d, i * ENTRIES + j).Absent?;
    }
  }

  lemma FilledThenClearedFrame(a: Sound, b: Sound, p: Page, y: Sound, d: nat, lo: nat, mid: nat, hi: nat, g: nat)
    requires Added(a, b, d, lo, mid) && b.freelist != [] && Cleared(Filled(b, p), y, d, lo, hi) && lo <= mid <= hi
    requires AbsentFrom(a, d, lo, hi) && b.freelist[0] in y.owner && y.owner[b.freelist[0]] == Elsewhere
    ensures FrameRolledBack(a, Given(y, b.freelist[0]), d, g)
  {
    var f, x := b.freelist[0], Filled(b, p);
    assert FrameAdded(a, b, d, lo, mid, g) && FrameCleared(x, y, d, lo, hi, g);
    assert OwnerOf(x, g) == if g == f then Elsewhere else OwnerOf(b, g);
    NoPageThere(a, d, lo, hi, g);
  }

  lemma FilledThenCleared(a: Sound, b: Sound, p: Page, y: Sound, d: nat, lo: nat, mid: nat, hi: nat)
    requires Added(a, b, d, lo, mid) && b.freelist != [] && Cleared(Filled(b, p), y, d, lo, hi) && lo <= mid <= hi
    requires AbsentFrom(a, d, lo, hi)
    ensures b.freelist[0] in y.owner && y.owner[b.freelist[0]] == Elsewhere
    ensures RolledBack(a, Given(y, b.freelist[0]), d)
  {
    var f := b.freelist[0];
    var x, z := Filled(b, p), Given(y, f);
    FilledKeeps(b, p);
    assert FrameCleared(x, y, d, lo, hi, f);
    forall d2, i, j ensures SlotSame(a, z, d2, i, j) {
      FilledThenClearedSlot(a, b, p, y, d, lo, mid, hi, d2, i, j);
    }
    forall g ensures FrameRolledBack(a, z, d, g) {
      FilledThenClearedFrame(a, b, p, y, d, lo, mid, hi, g);
    }
  }

  // ----- A whole new address space, and its end

  predicate SlotBuilt(m: Memory, n: Memory, c: nat, d2: nat, i: nat, j: nat) {
    && (IsDir(n, d2) <==> IsDir(m, d2) || d2 == c)
    && (IsDir(m, d2) ==> d2 != c && Lookup(n, d2, i, j) == Lookup(m, d2, i, j))
  }

  predicate FrameBuilt(m: Memory, n: Memory, c: nat, f: nat) {
    var o, p := OwnerOf(m, f), OwnerOf(n, f);
    if o == OnFreeList then p == OnFreeList || (f == c && p == Directory) || Of(p, c)
    else f != c && p == o && SamePage(m, n, f)
  }

  // n is m with one more directory, c, made of frames from the free list.
  ghost predicate Built(m: Memory, n: Memory, c: nat) {
    && n.owner.Keys == m.owner.Keys
    && (forall d2, i, j :: SlotBuilt(m, n, c, d2, i, j))
    && (forall f :: FrameBuilt(m, n, c, f))
  }

  lemma BuiltThenAdded(a: Memory, b: Memory, r: Memory, c: nat, lo: nat, hi: nat)
    requires Built(a, b, c) && Added(b, r, c, lo, hi)
    ensures Built(a, r, c)
  {
    forall d2, i, j ensures SlotBuilt(a, r, c, d2, i, j) {
      assert SlotBuilt(a, b, c, d2, i, j) && SlotAdded(b, r, c, lo, hi, d2, i, j);
    }
    forall f ensures FrameBuilt(a, r, c, f) {
      assert FrameBuilt(a, b, c, f) && FrameAdded(b, r, c, lo, hi, f);
    }
  }

  predicate SlotFreed(m: Memory, n: Memory, c: nat, d2: nat, i: nat, j: nat) {
    && (IsDir(n, d2) <==> IsDir(m, d2) && d2 != c)
    && (IsDir(n, d2) ==> Lookup(n, d2, i, j) == Lookup(m, d2, i, j))
  }

  predicate FrameFreed(m: Memory, n: Memory, c: nat, f: nat) {
    var o, p := OwnerOf(m, f), OwnerOf(n, f);
    if f == c || Of(o, c) then p == OnFreeList else p == o && SamePage(m, n, f)
  }

  // The frames of c, and no others, have gone back to the free list.
  ghost predicate Freed(m: Memory, n: Memory, c: nat) {
    && n.owner.Keys == m.owner.Keys
    && (forall d2, i, j :: SlotFreed(m, n, c, d2, i, j))
    && (forall f :: FrameFreed(m, n, c, f))
  }

  predicate FrameSame(m: Memory, n: Memory, f: nat) {
    OwnerOf(n, f) == OwnerOf(m, f) && (OwnerOf(m, f) != OnFreeList ==> SamePage(m, n, f))
  }

  // Nothing changed, but perhaps the order of the free list.
  ghost predicate Restored(m: Memory, n: Memory) {
    && n.owner.Keys == m.owner.Keys
    && (forall d2, i, j :: SlotSame(m, n, d2, i, j))
    && (forall f :: FrameSame(m, n, f))
  }

  lemma BuiltThenFreed(a: Sound, b: Memory, r: Memory, c: nat)
    requires Built(a, b, c) && Freed(b, r, c)
    ensures Restored(a, r)
  {
    assert FrameBuilt(a, b, c, c);
    forall d2, i, j ensures SlotSame(a, r, d2, i, j) {
      assert SlotBuilt(a, b, c, d2, i, j) && SlotFreed(b, r, c, d2, i, j);
    }
    forall f ensures FrameSame(a, r, f) {
      assert FrameBuilt(a, b, c, f) && FrameFreed(b, r, c, f);
      assert SlotBuilt(a, b, c, c, 0, 0);
      BuiltNotOf(a, c, f);
    }
  }

  // Only a directory owns page tables and pages.
  lemma BuiltNotOf(a: Sound, c: nat, f: nat)
    requires !IsDir(a, c)
    ensures !Of(OwnerOf(a, f), c)
  {
  }

  // ----- A run of new pages

  type Wanted = seq<(nat, Page)>   // flags and bytes, page by page

  // From m to n, the pages lo .. v of d were added as wanted, at the price that Spent states.
  ghost predicate Grew(m: Memory, n: Memory, d: nat, lo: nat, v: nat, want: Wanted) {
    && lo <= v <= |want|
    && Added(m, n, d, lo, v) && Spent(m, n, d, lo, v, v - lo)
    && (forall u :: lo <= u < v ==> Holds(n, d, u, want[u].0, want[u].1))
  }

  lemma GrewNone(m: Memory, d: nat, lo: nat, want: Wanted)
    requires lo <= |want|
    ensures Grew(m, m, d, lo, lo, want)
  {
  }

  lemma NextAbsent(m: Memory, n: Memory, d: nat, lo: nat, v: nat, hi: nat)
    requires Added(m, n, d, lo, v) && AbsentFrom(m, d, lo, hi) && IsDir(m, d) && lo <= v < hi
    ensures IsDir(n, d) && At(n, d, v).Absent?
  {
    assert SlotAdded(m, n, d, lo, v, d, Dx(v), Tx(v));
    VInRange(v, lo, v);
    assert At(m, d, v).Absent?;
  }

  lemma GrewSpent(m: Memory, n: Sound, d: nat, lo: nat, v: nat, p: Page, flags: nat)
    requires lo <= v && Spent(m, n, d, lo, v, v - lo)
    requires IsDir(n, d) && v < USERPAGES && At(n, d, v).Absent?
    requires n.freelist != [] && CanWalk(Filled(n, p), d, Dx(v))
    ensures Spent(m, WithPage(n, d, v, p, flags), d, lo, v + 1, v + 1 - lo)
  {
    var r := WithPage(n, d, v, p, flags);
    forall i ensures Pde(r, d, i).Present? <==> Pde(n, d, i).Present? || i == Dx(v) {
      WithPageTables(n, d, v, p, flags, i);
    }
    WithPageTakes(n, d, v, p, flags);
    SpentNext(m, n, r, d, lo, v, v - lo, 1);
  }

  lemma GrewExtend(m: Memory, n: Sound, r: Memory, d: nat, lo: nat, v: nat, want: Wanted)
    requires Grew(m, n, d, lo, v, want) && v < |want| && v < USERPAGES && IsDir(n, d)
    requires Added(n, r, d, v, v + 1) && Spent(m, r, d, lo, v + 1, v + 1 - lo)
    requires Holds(r, d, v, want[v].0, want[v].1)
    ensures Grew(m, r, d, lo, v + 1, want)
  {
    AddedThen(m, n, r, d, lo, v, v + 1);
    forall u | lo <= u < v ensures Holds(r, d, u, want[u].0, want[u].1) {
      AddedHolds(n, r, d, v, v + 1, d, u, want[u].0, want[u].1);
    }
  }

  lemma GrewNext(m: Memory, n: Sound, d: nat, lo: nat, v: nat, want: Wanted)
    requires Grew(m, n, d, lo, v, want) && v < |want|
    requires IsDir(n, d) && v < USERPAGES && At(n, d, v).Absent?
    requires n.freelist != [] && CanWalk(Filled(n, want[v].1), d, Dx(v))
    ensures Grew(m, WithPage(n, d, v, want[v].1, want[v].0), d, lo, v + 1, want)
  {
    var flags, p := want[v].0, want[v].1;
    var r := WithPage(n, d, v, p, flags);
    WithPageAdds(n, d, v, p, flags);
    GrewSpent(m, n, d, lo, v, p, flags);
    GrewExtend(m, n, r, d, lo, v, want);
  }

  // Running out part way means that the free list was too short for the whole.
  lemma TooShort(m: Memory, n: Memory, d: nat, lo: nat, v: nat, hi: nat)
    requires lo <= v < hi && Spent(m, n, d, lo, v, v - lo)
    requires n.freelist == [] || (|n.freelist| == 1 && Pde(n, d, Dx(v)).Absent?)
    ensures |m.freelist| < hi - lo + Tables(m, d, lo, hi)
  {
  }

  // ----- freevm

  // The user half is empty; of the page tables of d those below i are freed, the rest are nobody's.
  predicate FrameReleased(m: Memory, n: Memory, d: nat, i: nat, f: nat) {
    var o, p := OwnerOf(m, f), OwnerOf(n, f);
    if o.Table? && o.dir == d && o.pdx < i then p == OnFreeList
    else if f == d || Of(o, d) then p == Elsewhere
    else p == o && SamePage(m, n, f)
  }

  ghost predicate Released(m: Memory, n: Memory, d: nat, i: nat) {
    && n.owner.Keys == m.owner.Keys
    && d in m.tables && d in n.tables && n.tables[d] == m.tables[d]
    && (forall d2, i2, j2 :: SlotFreed(m, n, d, d2, i2, j2))
    && (forall f :: FrameReleased(m, n, d, i, f))
  }

  ghost predicate NoUserPages(m: Memory, d: nat) {
    forall f :: f in m.owner && m.owner[f].User? ==> m.owner[f].dir != d
  }

  lemma DisownedReleased(m: Sound, d: nat)
    requires IsDir(m, d) && NoUserPages(m, d)
    ensures Inv(Disowned(m, d)) && Released(m, Disowned(m, d), d, 0)
  {
    DisownedKeeps(m, d);
    var n := Disowned(m, d);
    forall d2, i, j ensures SlotFreed(m, n, d, d2, i, j) {
      DisownedLookup(m, d, d2, i, j);
    }
    forall f ensures FrameReleased(m, n, d, 0, f) {
    }
  }

  lemma ReleaseNone(m: Sound, n: Sound, d: nat, i: nat)
    requires IsDir(m, d) && Released(m, n, d, i) && Pde(m, d, i).Absent?
    ensures Released(m, n, d, i + 1)
  {
    var k := i + 1;
    forall f ensures FrameReleased(m, n, d, k, f) {
      assert FrameReleased(m, n, d, i, f);
      assert OwnerOf(m, f) != Table(d, i);
    }
  }

  lemma ReleaseOne(m: Sound, n: Sound, d: nat, i: nat)
    requires IsDir(m, d) && Released(m, n, d, i) && Pde(m, d, i).Present?
    ensures var t := Pde(m, d, i).frame;
            t in n.owner && n.owner[t] == Elsewhere && Released(m, Given(n, t), d, i + 1)
  {
    var t := Pde(m, d, i).frame;
    assert OwnerOf(m, t) == Table(d, i) && OwnerOf(m, d) == Directory;
    assert FrameReleased(m, n, d, i, t);
    var r := Given(n, t);
    forall d2, i2, j2 ensures SlotFreed(m, r, d, d2, i2, j2) {
      assert SlotFreed(m, n, d, d2, i2, j2);
      GivenDiffers(n, t);
      SameLookup(n, r, t, d2, i2, j2);
    }
    var k := i + 1;
    forall f ensures FrameReleased(m, r, d, k, f) {
      assert FrameReleased(m, n, d, i, f);
      if OwnerOf(m, f) == Table(d, i) {
        OneTable(m, d, i, f);
      }
    }
  }

  lemma OneTable(m: Sound, d: nat, i: nat, f: nat)
    requires IsDir(m, d) && OwnerOf(m, f) == Table(d, i)
    ensures Pde(m, d, i).Present? && Pde(m, d, i).frame == f
  {
  }

  lemma ReleasedAll(m: Sound, n: Sound, d: nat)
    requires IsDir(m, d) && NoUserPages(m, d) && Released(m, n, d, ENTRIES)
    ensures d in n.owner && n.owner[d] == Elsewhere && Freed(m, Given(n, d), d)
  {
    assert FrameReleased(m, n, d, ENTRIES, d);
    var r := Given(n, d);
    forall d2, i, j ensures SlotFreed(m, r, d, d2, i, j) {
      assert SlotFreed(m, n, d, d2, i, j);
      GivenDiffers(n, d);
      SameLookup(n, r, d, d2, i, j);
    }
    forall f ensures FrameFreed(m, r, d, f) {
      assert FrameReleased(m, n, d, ENTRIES, f);
      TableBelow(m, f);
    }
  }

  lemma TableBelow(m: Sound, f: nat)
    ensures OwnerOf(m, f).Table? ==> OwnerOf(m, f).pdx < ENTRIES
  {
  }

  lemma UserBelow(m: Sound, f: nat)
    ensures var o := OwnerOf(m, f); o.User? ==> InRange(o.pdx, o.ptx, 0, USERPAGES)
  {
  }

  lemma ClearedAll(m: Sound, n: Memory, d: nat)
    requires IsDir(m, d) && Cleared(m, n, d, 0, USERPAGES)
    ensures IsDir(n, d) && NoUserPages(n, d)
  {
    assert SlotCleared(m, n, d, 0, USERPAGES, d, 0, 0);
    forall f | f in n.owner && n.owner[f].User? ensures n.owner[f].dir != d {
      assert FrameCleared(m, n, d, 0, USERPAGES, f);
      UserBelow(m, f);
    }
  }

  lemma ClearedThenFreed(a: Sound, b: Memory, c: Memory, d: nat)
    requires IsDir(a, d) && Cleared(a, b, d, 0, USERPAGES) && Freed(b, c, d)
    ensures Freed(a, c, d)
  {
    forall d2, i, j ensures SlotFreed(a, c, d, d2, i, j) {
      assert SlotCleared(a, b, d, 0, USERPAGES, d2, i, j) && SlotFreed(b, c, d, d2, i, j);
    }
    forall f ensures FrameFreed(a, c, d, f) {
      assert FrameCleared(a, b, d, 0, USERPAGES, f) && FrameFreed(b, c, d, f);
      UserBelow(a, f);
    }
  }

  // ----- Kernel mappings

  // mappages of one kernel page.
  function WithKernelPage(m: Sound, d: nat, v: nat, e: Entry): Sound
    requires IsDir(m, d) && USERPAGES <= v < ENTRIES * ENTRIES && CanWalk(m, d, Dx(v))
  {
    WalkedLookup(m, d, Dx(v), d, Dx(v), Tx(v));
    KernelEntryKeeps(Walked(m, d, Dx(v)), d, Dx(v), Tx(v), e);
    WithEntry(Walked(m, d, Dx(v)), d, Dx(v), Tx(v), e)
  }

  lemma WithKernelPageSlot(m: Sound, d: nat, v: nat, e: Entry, d2: nat, i: nat, j: nat)
    requires IsDir(m, d) && USERPAGES <= v < ENTRIES * ENTRIES && CanWalk(m, d, Dx(v))
    requires At(m, d, v).Absent? && e.Present?
    ensures SlotAdded(m, WithKernelPage(m, d, v, e), d, v, v + 1, d2, i, j)
    ensures At(WithKernelPage(m, d, v, e), d, v) == e
    ensures Pde(WithKernelPage(m, d, v, e), d, i).Present? <==> Pde(m, d, i).Present? || i == Dx(v)
  {
    var b := Walked(m, d, Dx(v));
    WalkedLookup(m, d, Dx(v), d2, i, j);
    WalkedLookup(m, d, Dx(v), d, i, j);
    WalkedLookup(m, d, Dx(v), d, Dx(v), Tx(v));
    WithEntryLookup(b, d, Dx(v), Tx(v), e, d2, i, j);
    WithEntryLookup(b, d, Dx(v), Tx(v), e, d, i, j);
    WithEntryLookup(b, d, Dx(v), Tx(v), e, d, Dx(v), Tx(v));
    PageNumber(v, i, j);
  }

  lemma WithKernelPageFrame(m: Sound, d: nat, v: nat, w: nat, e: Entry, f: nat)
    requires IsDir(m, d) && USERPAGES <= v < ENTRIES * ENTRIES && CanWalk(m, d, Dx(v))
    requires At(m, d, v).Absent? && e.Present? && w == v + 1
    ensures FrameAdded(m, WithKernelPage(m, d, v, e), d, v, w, f)
  {
    WalkedFrame(m, d, Dx(v), f);
  }

  lemma WithKernelPageTakes(m: Sound, d: nat, v: nat, e: Entry)
    requires IsDir(m, d) && USERPAGES <= v < ENTRIES * ENTRIES && CanWalk(m, d, Dx(v))
    requires At(m, d, v).Absent? && e.Present?
    ensures var n := WithKernelPage(m, d, v, e);
            n.owner.Keys == m.owner.Keys && |n.freelist| == |m.freelist| - if Pde(m, d, Dx(v)).Present? then 0 else 1
  {
    WalkedFrame(m, d, Dx(v), 0);
  }

  lemma WithKernelPageAdds(m: Sound, d: nat, v: nat, e: Entry)
    requires IsDir(m, d) && USERPAGES <= v < ENTRIES * ENTRIES && CanWalk(m, d, Dx(v))
    requires At(m, d, v).Absent? && e.Present?
    ensures Added(m, WithKernelPage(m, d, v, e), d, v, v + 1)
    ensures |WithKernelPage(m, d, v, e).freelist| == |m.freelist| - if Pde(m, d, Dx(v)).Present? then 0 else 1
  {
    var n, w := WithKernelPage(m, d, v, e), v + 1;
    forall d2, i, j ensures SlotAdded(m, n, d, v, w, d2, i, j) {
      WithKernelPageSlot(m, d, v, e, d2, i, j);
    }
    forall f ensures FrameAdded(m, n, d, v, w, f) {
      WithKernelPageFrame(m, d, v, w, e, f);
    }
    WithKernelPageTakes(m, d, v, e);
  }

  // From m to n, the pages lo .. v of d were mapped to the frames from pa on.
  ghost predicate KGrew(m: Memory, n: Memory, d: nat, lo: nat, v: nat, pa: nat, perm: nat) {
    && lo <= v && Added(m, n, d, lo, v) && Spent(m, n, d, lo, v, 0)
    && (forall u :: lo <= u < v ==> At(n, d, u) == Present(pa + u - lo, perm))
  }

  lemma KGrewNone(m: Memory, d: nat, lo: nat, pa: nat, perm: nat)
    ensures KGrew(m, m, d, lo, lo, pa, perm)
  {
  }

  lemma KGrewAdds(m: Memory, n: Memory, d: nat, lo: nat, v: nat, pa: nat, perm: nat)
    requires KGrew(m, n, d, lo, v, pa, perm)
    ensures Added(m, n, d, lo, v)
  {
  }

  lemma KGrewEnough(m: Memory, n: Memory, d: nat, lo: nat, v: nat, pa: nat, perm: nat)
    requires KGrew(m, n, d, lo, v, pa, perm)
    ensures Tables(m, d, lo, v) <= |m.freelist|
  {
  }

  lemma KGrewExtend(m: Memory, n: Sound, r: Memory, d: nat, lo: nat, v: nat, pa: nat, perm: nat)
    requires KGrew(m, n, d, lo, v, pa, perm) && IsDir(n, d)
    requires Added(n, r, d, v, v + 1) && Spent(m, r, d, lo, v + 1, 0)
    requires At(r, d, v) == Present(pa + v - lo, perm)
    ensures KGrew(m, r, d, lo, v + 1, pa, perm)
  {
    AddedThen(m, n, r, d, lo, v, v + 1);
    forall u | lo <= u < v ensures At(r, d, u) == Present(pa + u - lo, perm) {
      assert At(n, d, u) == Present(pa + u - lo, perm);
      assert SlotAdded(n, r, d, v, v + 1, d, Dx(u), Tx(u));
      VInRange(u, v, v + 1);
    }
  }

  lemma KGrewNext(m: Memory, n: Sound, d: nat, lo: nat, v: nat, pa: nat, perm: nat)
    requires KGrew(m, n, d, lo, v, pa, perm)
    requires IsDir(n, d) && USERPAGES <= v < ENTRIES * ENTRIES && CanWalk(n, d, Dx(v)) && At(n, d, v).Absent?
    ensures KGrew(m, WithKernelPage(n, d, v, Present(pa + v - lo, perm)), d, lo, v + 1, pa, perm)
  {
    var e := Present(pa + v - lo, perm);
    var r := WithKernelPage(n, d, v, e);
    WithKernelPageAdds(n, d, v, e);
    WithKernelPageSlot(n, d, v, e, d, 0, 0);
    forall i ensures Pde(r, d, i).Present? <==> Pde(n, d, i).Present? || i == Dx(v) {
      WithKernelPageSlot(n, d, v, e, d, i, 0);
    }
    SpentNext(m, n, r, d, lo, v, 0, 0);
    KGrewExtend(m, n, r, d, lo, v, pa, perm);
  }

  lemma KTooShort(m: Memory, n: Memory, d: nat, lo: nat, v: nat, hi: nat)
    requires lo <= v < hi && Spent(m, n, d, lo, v, 0) && !CanWalk(n, d, Dx(v))
    ensures |m.freelist| < Tables(m, d, lo, hi)
  {
  }

  // How many tables it takes when all but perhaps the first are missing.
  lemma {:induction false} TablesSpan(m: Memory, d: nat, lo: nat, hi: nat)
    requires lo < hi && forall i :: Dx(lo) < i <= Dx(hi - 1) ==> Pde(m, d, i).Absent?
    ensures Tables(m, d, lo, hi) == Dx(hi - 1) - Dx(lo) + if Pde(m, d, Dx(lo)).Absent? then 1 else 0
    decreases hi
  {
    if lo + 1 < hi {
      assert Dx(hi - 1) == Dx(hi - 2) || (Dx(hi - 1) == Dx(hi - 2) + 1 && Tx(hi - 1) == 0);
      assert Dx(hi - 1) == Dx(hi - 2) ==> Tx(hi - 1) != 0;
      TablesSpan(m, d, lo, hi - 1);
    } else {
      assert Tables(m, d, lo, lo) == 0;
    }
  }
}
