/** The table kmap of vm.c: what every address space maps above KERNBASE. In pages. */
module KernelMap {
  import opened Vm
  import opened AddressSpace

  // One line of kmap: count pages from virt on are mapped to the frames from phys on.
  datatype Range = Range(virt: nat, count: nat, phys: nat, perm: nat)

  // Where the kernel's data begins, a page the linker chooses above KERNLINK and below PHYSTOP.
  type DataPage = n: nat | 0x80100 < n < 0x8E000 witness 0x80101

  function Kmap(data: DataPage): seq<Range> {
    [ Range(0x80000, 0x100, 0, PTE_W),                       // I/O space
      Range(0x80100, data - 0x80100, 0x100, 0),              // kernel text and read-only data
      Range(data, 0x8E000 - data, data - 0x80000, PTE_W),    // kernel data and memory
      Range(0xFE000, 0x2000, 0xFE000, PTE_W) ]               // more devices
  }

  predicate Covers(r: Range, v: nat) {
    r.virt <= v < r.virt + r.count
  }

  // The entry of page v that the ranges ask for.
  function KernelEntry(ranges: seq<Range>, v: nat): Entry {
    if ranges == [] then Absent
    else
      var r := ranges[|ranges| - 1];
      if Covers(r, v) then Present(r.phys + (v - r.virt), r.perm) else KernelEntry(ranges[..|ranges| - 1], v)
  }

  predicate OpenedBy(r: Range, i: nat) {
    InTables(i, r.virt, r.virt + r.count)
  }

  function Opened(ranges: seq<Range>, i: nat): bool {
    ranges != [] && (OpenedBy(ranges[|ranges| - 1], i) || Opened(ranges[..|ranges| - 1], i))
  }

  lemma {:induction false} NotCovered(ranges: seq<Range>, v: nat)
    requires forall r :: r in ranges ==> !Covers(r, v)
    ensures KernelEntry(ranges, v).Absent?
    decreases |ranges|
  {
    if ranges != [] {
      NotCovered(ranges[..|ranges| - 1], v);
    }
  }

  // No two lines of kmap overlap.
  lemma KmapDisjoint(data: DataPage, k: nat, v: nat)
    requires k < 4 && Covers(Kmap(data)[k], v)
    ensures KernelEntry(Kmap(data)[..k], v).Absent? && USERPAGES <= v < ENTRIES * ENTRIES
  {
    NotCovered(Kmap(data)[..k], v);
  }

  lemma KmapStep(data: DataPage, k: nat, v: nat)
    requires k < 4
    ensures var r := Kmap(data)[k];
            KernelEntry(Kmap(data)[..k + 1], v)
            == if Covers(r, v) then Present(r.phys + (v - r.virt), r.perm) else KernelEntry(Kmap(data)[..k], v)
    ensures Opened(Kmap(data)[..k + 1], v) <==> OpenedBy(Kmap(data)[k], v) || Opened(Kmap(data)[..k], v)
  {
    var rs := Kmap(data)[..k + 1];
    assert rs[..|rs| - 1] == Kmap(data)[..k];
  }

  // Page tables in use once the first k lines are mapped.
  function TablesFor(data: DataPage, k: nat): nat
    requires k <= 4
  {
    if k == 0 then 0 else if k == 1 then 1 else if k == 2 then Dx(data - 1) - 511 else if k == 3 then 56 else 64
  }

  lemma OpenedFirst(data: DataPage, i: nat)
    ensures !Opened(Kmap(data)[..0], i)
    ensures Opened(Kmap(data)[..1], i) <==> i == 512
    ensures Opened(Kmap(data)[..2], i) <==> 512 <= i <= Dx(data - 1)
    ensures Opened(Kmap(data)[..3], i) <==> 512 <= i <= 567
    ensures Opened(Kmap(data)[..4], i) <==> 512 <= i <= 567 || 1016 <= i <= 1023
  {
    KmapStep(data, 0, i);
    KmapStep(data, 1, i);
    KmapStep(data, 2, i);
    KmapStep(data, 3, i);
    assert Dx(data) == Dx(data - 1) || Dx(data) == Dx(data - 1) + 1;
  }

  lemma LineSpans(data: DataPage, k: nat, lo: nat, hi: nat)
    requires k < 4 && lo == Kmap(data)[k].virt && hi == lo + Kmap(data)[k].count
    ensures lo < hi
    ensures Dx(hi - 1) - Dx(lo) + (if Opened(Kmap(data)[..k], Dx(lo)) then 0 else 1) == TablesFor(data, k + 1) - TablesFor(data, k)
  {
    OpenedFirst(data, Dx(lo));
  }

  lemma LineOpens(data: DataPage, k: nat, lo: nat, hi: nat, i: nat)
    requires k < 4 && lo == Kmap(data)[k].virt && hi == lo + Kmap(data)[k].count && lo < hi
    ensures Dx(lo) < i <= Dx(hi - 1) ==> !Opened(Kmap(data)[..k], i)
  {
    OpenedFirst(data, i);
  }

  lemma TablesOfLine(m: Memory, c: nat, data: DataPage, k: nat)
    requires k < 4 && forall i :: Pde(m, c, i).Present? <==> Opened(Kmap(data)[..k], i)
    ensures var r := Kmap(data)[k];
            Tables(m, c, r.virt, r.virt + r.count) == TablesFor(data, k + 1) - TablesFor(data, k)
  {
    var lo := Kmap(data)[k].virt;
    var hi := lo + Kmap(data)[k].count;
    LineSpans(data, k, lo, hi);
    forall i: nat ensures Dx(lo) < i <= Dx(hi - 1) ==> Pde(m, c, i).Absent? {
      LineOpens(data, k, lo, hi, i);
      assert Pde(m, c, i).Present? <==> Opened(Kmap(data)[..k], i);
    }
    assert Pde(m, c, Dx(lo)).Present? <==> Opened(Kmap(data)[..k], Dx(lo));
    TablesSpan(m, c, lo, hi);
  }

  // ----- What the table maps, in numbers

  // Memory below PHYSTOP one to one from KERNBASE on, the devices at the top onto themselves.
  // Kernel text is read-only, the rest writable, and nothing is open to user code.
  predicate KernelPage(e: Entry, data: DataPage, v: nat) {
    if 0x80000 <= v < 0x8E000 then e == Present(v - 0x80000, if 0x80100 <= v < data then 0 else 2)
    else if 0xFE000 <= v < 0x100000 then e == Present(v, 2)
    else e.Absent?
  }

  lemma KmapPages(data: DataPage, v: nat)
    ensures KernelPage(KernelEntry(Kmap(data), v), data, v)
  {
    KmapStep(data, 0, v);
    KmapStep(data, 1, v);
    KmapStep(data, 2, v);
    KmapStep(data, 3, v);
    assert Kmap(data)[..4] == Kmap(data);
  }

  // The bits of the flags: 2 is PTE_W, 4 is PTE_U.
  lemma KernelFlags(e: Entry, data: DataPage, v: nat)
    requires KernelPage(e, data, v) && e.Present?
    ensures e.flags / 4 % 2 == 0
    ensures e.flags / 2 % 2 == 0 <==> 0x80100 <= v < data
    ensures e.frame == if v < 0xFE000 then v - 0x80000 else v
  {
  }

  // ----- A directory with the kernel half filled in up to line k

  ghost predicate KernelUpTo(m: Memory, n: Memory, c: nat, data: DataPage, k: nat) {
    && k <= 4 && Built(m, n, c)
    && (forall v: nat :: v < ENTRIES * ENTRIES ==> At(n, c, v) == KernelEntry(Kmap(data)[..k], v))
    && (forall i :: Pde(n, c, i).Present? <==> Opened(Kmap(data)[..k], i))
    && |n.freelist| + 1 + TablesFor(data, k) == |m.freelist|
  }

  // setupkvm's first step: an empty directory.
  function NewDirectory(m: Sound): Sound
    requires m.freelist != []
  {
    TakenKeeps(m);
    WithDirectoryKeeps(Taken(m), m.freelist[0]);
    WithDirectory(Taken(m), m.freelist[0])
  }

  lemma NewDirectoryBuilt(m: Sound)
    requires m.freelist != []
    ensures Built(m, NewDirectory(m), m.freelist[0])
  {
    TakenKeeps(m);
    var c, n := m.freelist[0], NewDirectory(m);
    forall d2, i, j ensures SlotBuilt(m, n, c, d2, i, j) {
      WithDirectoryLookup(Taken(m), c, d2, i, j);
    }
    forall f ensures FrameBuilt(m, n, c, f) {
    }
  }

  lemma NewDirectoryEmpty(m: Sound, data: DataPage)
    requires m.freelist != []
    ensures KernelUpTo(m, NewDirectory(m), m.freelist[0], data, 0)
  {
    NewDirectoryBuilt(m);
    var c, n := m.freelist[0], NewDirectory(m);
    forall i ensures Pde(n, c, i).Absent? {
    }
  }

  lemma LineAbsent(m: Memory, n: Memory, c: nat, data: DataPage, k: nat)
    requires k < 4 && KernelUpTo(m, n, c, data, k)
    ensures var r := Kmap(data)[k]; AbsentFrom(n, c, r.virt, r.virt + r.count)
  {
    var r := Kmap(data)[k];
    var hi := r.virt + r.count;
    forall v | r.virt <= v < hi ensures At(n, c, v).Absent? {
      KmapDisjoint(data, k, v);
    }
  }

  lemma LineDone(m: Memory, n: Memory, r: Memory, c: nat, data: DataPage, k: nat)
    requires k < 4 && KernelUpTo(m, n, c, data, k)
    requires var l := Kmap(data)[k]; KGrew(n, r, c, l.virt, l.virt + l.count, l.phys, l.perm)
    ensures KernelUpTo(m, r, c, data, k + 1)
  {
    var l := Kmap(data)[k];
    var lo, hi, done := l.virt, l.virt + l.count, Kmap(data)[..k + 1];
    BuiltThenAdded(m, n, r, c, lo, hi);
    assert SlotBuilt(m, n, c, c, 0, 0);
    forall v: nat | v < ENTRIES * ENTRIES ensures At(r, c, v) == KernelEntry(done, v) {
      KmapStep(data, k, v);
      assert SlotAdded(n, r, c, lo, hi, c, Dx(v), Tx(v));
      VInRange(v, lo, hi);
    }
    forall i ensures Pde(r, c, i).Present? <==> Opened(done, i) {
      KmapStep(data, k, i);
      assert OpenedBy(l, i) <==> InTables(i, lo, hi);
    }
    TablesOfLine(n, c, data, k);
  }

  // ----- copyuvm

  const SETUP_FRAMES: nat := 65    // the directory and 64 page tables for the kernel half

  function CopyFrames(pages: nat): nat {
    SETUP_FRAMES + pages + (pages + ENTRIES - 1) / ENTRIES
  }

  // In a fresh address space every page is missing, and so is every page table below KERNBASE.
  lemma FreshUser(m: Memory, n: Memory, c: nat, data: DataPage, pages: nat)
    requires KernelUpTo(m, n, c, data, 4) && pages <= USERPAGES
    ensures IsDir(n, c) && AbsentFrom(n, c, 0, pages)
    ensures |n.freelist| == |m.freelist| - SETUP_FRAMES
    ensures Tables(n, c, 0, pages) == (pages + ENTRIES - 1) / ENTRIES
  {
    assert SlotBuilt(m, n, c, c, 0, 0);
    forall i: nat | i < USERDIR ensures Pde(n, c, i).Absent? {
      OpenedFirst(data, i);
      assert Pde(n, c, i).Present? <==> Opened(Kmap(data)[..4], i);
    }
    if pages > 0 {
      TablesSpan(n, c, 0, pages);
    }
  }

  ghost predicate AllThere(m: Memory, d: nat, pages: nat) {
    forall v :: 0 <= v < pages ==> At(m, d, v).Present? && At(m, d, v).frame in m.pages
  }

  // The first pages of d, as the child must find them.
  ghost function Image(m: Memory, d: nat, pages: nat): Wanted
    requires AllThere(m, d, pages)
  {
    seq(pages, v requires 0 <= v < pages => (At(m, d, v).flags, m.pages[At(m, d, v).frame]))
  }

  lemma PagesThere(m: Sound, d: nat, pages: nat)
    requires IsDir(m, d) && pages <= USERPAGES && forall v :: 0 <= v < pages ==> At(m, d, v).Present?
    ensures AllThere(m, d, pages)
  {
  }

  // While the child is built, the parent's pages stay as they were.
  lemma ParentKept(m: Sound, n: Memory, c: nat, d: nat, v: nat)
    requires Built(m, n, c) && IsDir(m, d) && v < USERPAGES && At(m, d, v).Present?
    ensures At(n, d, v) == At(m, d, v) && At(m, d, v).frame in m.pages
    ensures At(m, d, v).frame in n.pages && n.pages[At(m, d, v).frame] == m.pages[At(m, d, v).frame]
  {
    assert SlotBuilt(m, n, c, d, Dx(v), Tx(v));
    assert FrameBuilt(m, n, c, At(m, d, v).frame);
  }

  // A frame allocated and given straight back leaves the child as it was.
  lemma BuiltThenSpare(m: Sound, n: Sound, p: Page, c: nat)
    requires Built(m, n, c) && n.freelist != []
    ensures var f := n.freelist[0];
            f in Filled(n, p).owner && Filled(n, p).owner[f] == Elsewhere && Built(m, Given(Filled(n, p), f), c)
  {
    var f := n.freelist[0];
    FilledKeeps(n, p);
    var x := Filled(n, p);
    var r := Given(x, f);
    forall d2, i, j ensures SlotBuilt(m, r, c, d2, i, j) {
      assert SlotBuilt(m, n, c, d2, i, j);
      FilledLookup(n, p, d2, i, j);
      GivenDiffers(x, f);
      SameLookup(x, r, f, d2, i, j);
    }
    forall g ensures FrameBuilt(m, r, c, g) {
      assert FrameBuilt(m, n, c, g);
      assert OwnerOf(r, g) == OwnerOf(n, g);
    }
  }
}
