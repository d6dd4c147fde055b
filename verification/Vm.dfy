/** Page tables as maps, and who owns each physical frame: the data of vm.c and kalloc.c.
    A page is named by its directory and table index, a frame by its number. */
module Vm {

  const ENTRIES: nat := 1024      // NPDENTRIES, NPTENTRIES
  const USERDIR: nat := 512       // PDX(KERNBASE): user pages lie below

  const PTE_W: nat := 2
  const PTE_U: nat := 4

  type Page = seq<int>

  // A page-directory or page-table entry. Present stands for PTE_P; flags are the other bits.
  // An entry without PTE_P is all zero.
  datatype Entry = Absent | Present(frame: nat, flags: nat)

  // What holds a frame. Elsewhere: a kernel stack, a pipe, or a frame just allocated.
  datatype Owner =
    | OnFreeList
    | Directory
    | Table(dir: nat, pdx: nat)             // the page table of one directory entry
    | User(dir: nat, pdx: nat, ptx: nat)    // the page of one user page-table entry
    | Elsewhere

  datatype Memory = Memory(
    freelist: seq<nat>,
    tables: map<nat, seq<Entry>>,   // frames used as page directories and page tables
    pages: map<nat, Page>,          // contents of the other frames; nothing for a frame once freed
    owner: map<nat, Owner>)         // of every frame that kalloc manages, for the statements

  function EmptyTable(): (t: seq<Entry>)
    ensures |t| == ENTRIES && forall i :: 0 <= i < ENTRIES ==> t[i].Absent?
  {
    seq(ENTRIES, _ => Absent)
  }

  predicate IsDir(m: Memory, d: nat) {
    d in m.owner && m.owner[d] == Directory && d in m.tables && |m.tables[d]| == ENTRIES
  }

  function Pde(m: Memory, d: nat, i: nat): Entry {
    if d in m.tables && i < |m.tables[d]| then m.tables[d][i] else Absent
  }

  // The entry that maps page (i, j), walking both levels.
  function Lookup(m: Memory, d: nat, i: nat, j: nat): Entry {
    var e := Pde(m, d, i);
    if e.Absent? then Absent else Pde(m, e.frame, j)
  }

  function OwnerOf(m: Memory, f: nat): Owner {
    if f in m.owner then m.owner[f] else Elsewhere
  }

  // ----- The invariant: entries and owners agree in both directions, and a page table leaves
  // it to its entries (6 is PTE_W with PTE_U) what is allowed

  ghost predicate FreeListOk(m: Memory) {
    && (forall a, b :: 0 <= a < b < |m.freelist| ==> m.freelist[a] != m.freelist[b])
    && (forall f :: f in m.freelist ==> f in m.owner)
    && (forall f :: f in m.owner ==> (m.owner[f] == OnFreeList <==> f in m.freelist))
  }

  ghost predicate DirectoriesOk(m: Memory) {
    && (forall d :: d in m.owner && m.owner[d] == Directory ==> IsDir(m, d))
    && (forall d, i: nat :: IsDir(m, d) && Pde(m, d, i).Present? ==>
          var t := Pde(m, d, i).frame;
          t in m.owner && m.owner[t] == Table(d, i) && t in m.tables && |m.tables[t]| == ENTRIES && Pde(m, d, i).flags == 6)
    && (forall t :: t in m.owner && m.owner[t].Table? ==>
          var o := m.owner[t];
          IsDir(m, o.dir) && Pde(m, o.dir, o.pdx).Present? && Pde(m, o.dir, o.pdx).frame == t)
  }

  ghost predicate UserPagesOk(m: Memory) {
    && (forall d, i: nat, j :: IsDir(m, d) && i < USERDIR && Lookup(m, d, i, j).Present? ==>
          var f := Lookup(m, d, i, j).frame;
          f in m.owner && m.owner[f] == User(d, i, j) && f in m.pages)
    && (forall f :: f in m.owner && m.owner[f].User? ==>
          var o := m.owner[f];
          && IsDir(m, o.dir) && o.pdx < USERDIR
          && Lookup(m, o.dir, o.pdx, o.ptx).Present? && Lookup(m, o.dir, o.pdx, o.ptx).frame == f)
  }

  ghost predicate Inv(m: Memory) {
    FreeListOk(m) && DirectoriesOk(m) && UserPagesOk(m)
  }

  // ----- kalloc and kfree

  // The head of the free list goes to the caller.
  function Taken(m: Memory): Memory
    requires m.freelist != []
  {
    m.(freelist := m.freelist[1..], owner := m.owner[m.freelist[0] := Elsewhere])
  }

  // kfree overwrites the frame, so its contents are gone.
  function Given(m: Memory, f: nat): Memory {
    Memory([f] + m.freelist, m.tables - {f}, m.pages - {f}, m.owner[f := OnFreeList])
  }

  lemma TakenKeeps(m: Memory)
    requires Inv(m) && m.freelist != []
    ensures Inv(Taken(m)) && m.freelist[0] in m.owner && m.owner[m.freelist[0]] == OnFreeList
  {
    var f, n := m.freelist[0], Taken(m);
    assert forall g :: g in m.freelist <==> g == f || g in m.freelist[1..];
    assert f !in m.freelist[1..];
    SameTables(m, n, f);
  }

  lemma GivenKeeps(m: Memory, f: nat)
    requires Inv(m) && f in m.owner && m.owner[f] == Elsewhere
    ensures Inv(Given(m, f))
  {
    SameTables(m, Given(m, f), f);
  }

  // A frame just freed is the next one allocated, without its old contents.
  lemma FreeThenAlloc(m: Memory, f: nat)
    requires f in m.owner && m.owner[f] == Elsewhere
    ensures var n := Given(m, f);
            && n.freelist != [] && n.freelist[0] == f && f !in n.pages && f !in n.tables
            && Taken(n).freelist == m.freelist && Taken(n).owner == m.owner
            && Taken(n).pages - {f} == m.pages - {f} && Taken(n).tables - {f} == m.tables - {f}
  {
  }

  predicate Loose(o: Owner) {
    o == OnFreeList || o == Elsewhere
  }

  lemma SameContents(m: Memory, n: Memory, f: nat)
    requires n.tables - {f} == m.tables - {f} && n.pages - {f} == m.pages - {f}
    ensures forall g :: g != f ==> (g in n.tables <==> g in m.tables) && (g in n.pages <==> g in m.pages)
    ensures forall g :: g != f && g in m.tables ==> n.tables[g] == m.tables[g]
    ensures forall g :: g != f && g in m.pages ==> n.pages[g] == m.pages[g]
  {
    forall g | g != f
      ensures g in n.tables <==> g in m.tables
      ensures g in n.pages <==> g in m.pages
      ensures g in m.tables ==> n.tables[g] == m.tables[g]
      ensures g in m.pages ==> n.pages[g] == m.pages[g]
    {
      assert g in n.tables - {f} <==> g in m.tables - {f};
      assert g in n.pages - {f} <==> g in m.pages - {f};
      if g in m.tables {
        assert (n.tables - {f})[g] == (m.tables - {f})[g];
      }
      if g in m.pages {
        assert (n.pages - {f})[g] == (m.pages - {f})[g];
      }
    }
  }

  // Only the contents and the owner of f, which is neither a directory, a table nor a user page, differ.
  ghost predicate DifferAt(m: Memory, n: Memory, f: nat) {
    && f in m.owner && Loose(m.owner[f])
    && n.tables - {f} == m.tables - {f} && n.pages - {f} == m.pages - {f}
    && f in n.owner && Loose(n.owner[f]) && n.owner == m.owner[f := n.owner[f]]
  }

  lemma SameLookup(m: Memory, n: Memory, f: nat, d: nat, i: nat, j: nat)
    requires DirectoriesOk(m) && DifferAt(m, n, f)
    ensures IsDir(n, d) <==> IsDir(m, d)
    ensures IsDir(m, d) ==> Pde(n, d, i) == Pde(m, d, i) && Lookup(n, d, i, j) == Lookup(m, d, i, j)
  {
    SameContents(m, n, f);
    if IsDir(m, d) && Pde(m, d, i).Present? {
      assert m.owner[Pde(m, d, i).frame] == Table(d, i);
    }
  }

  lemma SameDirectories(m: Memory, n: Memory, f: nat)
    requires DirectoriesOk(m) && DifferAt(m, n, f)
    ensures DirectoriesOk(n)
  {
    SameContents(m, n, f);
    forall d, i
      ensures IsDir(n, d) <==> IsDir(m, d)
      ensures IsDir(m, d) ==> Pde(n, d, i) == Pde(m, d, i)
    {
      SameLookup(m, n, f, d, i, 0);
    }
  }

  lemma SameTables(m: Memory, n: Memory, f: nat)
    requires DirectoriesOk(m) && UserPagesOk(m) && DifferAt(m, n, f)
    ensures DirectoriesOk(n) && UserPagesOk(n)
  {
    SameDirectories(m, n, f);
    SameContents(m, n, f);
    forall d, i, j
      ensures IsDir(n, d) <==> IsDir(m, d)
      ensures IsDir(m, d) ==> Lookup(n, d, i, j) == Lookup(m, d, i, j)
    {
      SameLookup(m, n, f, d, i, j);
    }
  }

  // ----- Changing one entry

  // walkpgdir's allocation: an empty page table for directory entry i.
  function WithTable(m: Memory, d: nat, i: nat, t: nat): Memory
    requires IsDir(m, d) && i < ENTRIES
  {
    var dir := m.tables[d][i := Present(t, PTE_W + PTE_U)];
    m.(tables := m.tables[t := EmptyTable()][d := dir], owner := m.owner[t := Table(d, i)])
  }

  lemma WithTableLookup(m: Memory, d: nat, i: nat, t: nat, d2: nat, i2: nat, j2: nat)
    requires Inv(m) && IsDir(m, d) && i < ENTRIES && Pde(m, d, i).Absent?
    requires t in m.owner && m.owner[t] == Elsewhere
    ensures var n := WithTable(m, d, i, t);
            && (IsDir(n, d2) <==> IsDir(m, d2))
            && (IsDir(m, d2) ==>
                  && Pde(n, d2, i2) == (if d2 == d && i2 == i then Present(t, PTE_W + PTE_U) else Pde(m, d2, i2))
                  && Lookup(n, d2, i2, j2) == Lookup(m, d2, i2, j2))
  {
    if IsDir(m, d2) && Pde(m, d2, i2).Present? {
      assert m.owner[Pde(m, d2, i2).frame] == Table(d2, i2);
    }
  }

  lemma WithTableDirectories(m: Memory, d: nat, i: nat, t: nat)
    requires Inv(m) && IsDir(m, d) && i < ENTRIES && Pde(m, d, i).Absent?
    requires t in m.owner && m.owner[t] == Elsewhere
    ensures DirectoriesOk(WithTable(m, d, i, t))
  {
    var n := WithTable(m, d, i, t);
    forall d2, i2: nat | IsDir(n, d2) && Pde(n, d2, i2).Present?
      ensures var t2 := Pde(n, d2, i2).frame;
              t2 in n.owner && n.owner[t2] == Table(d2, i2) && t2 in n.tables && |n.tables[t2]| == ENTRIES
    {
      WithTableLookup(m, d, i, t, d2, i2, 0);
    }
    forall t2 | t2 in n.owner && n.owner[t2].Table?
      ensures var o := n.owner[t2];
              IsDir(n, o.dir) && Pde(n, o.dir, o.pdx).Present? && Pde(n, o.dir, o.pdx).frame == t2
    {
      var o := n.owner[t2];
      WithTableLookup(m, d, i, t, o.dir, o.pdx, 0);
    }
    forall d2 | d2 in n.owner && n.owner[d2] == Directory ensures IsDir(n, d2) {
      WithTableLookup(m, d, i, t, d2, 0, 0);
    }
  }

  lemma WithTableKeeps(m: Memory, d: nat, i: nat, t: nat)
    requires Inv(m) && IsDir(m, d) && i < ENTRIES && Pde(m, d, i).Absent?
    requires t in m.owner && m.owner[t] == Elsewhere
    ensures Inv(WithTable(m, d, i, t))
  {
    var n := WithTable(m, d, i, t);
    WithTableDirectories(m, d, i, t);
    forall d2, i2, j2
      ensures IsDir(n, d2) <==> IsDir(m, d2)
      ensures IsDir(m, d2) ==> Lookup(n, d2, i2, j2) == Lookup(m, d2, i2, j2)
    {
      WithTableLookup(m, d, i, t, d2, i2, j2);
    }
  }

  // *pte = e
  function WithEntry(m: Memory, d: nat, i: nat, j: nat, e: Entry): Memory
    requires Pde(m, d, i).Present? && Pde(m, d, i).frame in m.tables && j < |m.tables[Pde(m, d, i).frame]|
  {
    var t := Pde(m, d, i).frame;
    m.(tables := m.tables[t := m.tables[t][j := e]])
  }

  lemma WithEntryLookup(m: Memory, d: nat, i: nat, j: nat, e: Entry, d2: nat, i2: nat, j2: nat)
    requires DirectoriesOk(m) && IsDir(m, d) && Pde(m, d, i).Present? && j < ENTRIES
    ensures var n := WithEntry(m, d, i, j, e);
            && (IsDir(n, d2) <==> IsDir(m, d2))
            && (IsDir(m, d2) ==>
                  && Pde(n, d2, i2) == Pde(m, d2, i2)
                  && Lookup(n, d2, i2, j2) == if d2 == d && i2 == i && j2 == j then e else Lookup(m, d2, i2, j2))
  {
  }

  // Entries that keep DirectoriesOk: the tables themselves and all owners stay.
  lemma WithEntryDirectories(m: Memory, d: nat, i: nat, j: nat, e: Entry, n: Memory)
    requires DirectoriesOk(m) && IsDir(m, d) && Pde(m, d, i).Present? && j < ENTRIES
    requires n.tables == WithEntry(m, d, i, j, e).tables
    requires forall f :: f in n.owner <==> f in m.owner
    requires forall f :: f in m.owner && (m.owner[f].Table? || m.owner[f].Directory?) ==> n.owner[f] == m.owner[f]
    requires forall f :: f in m.owner && (n.owner[f].Table? || n.owner[f].Directory?) ==> n.owner[f] == m.owner[f]
    ensures DirectoriesOk(n)
    ensures forall d2 :: IsDir(n, d2) <==> IsDir(m, d2)
  {
    forall d2, i2
      ensures IsDir(n, d2) <==> IsDir(m, d2)
      ensures IsDir(m, d2) ==> Pde(n, d2, i2) == Pde(m, d2, i2)
    {
      WithEntryLookup(m, d, i, j, e, d2, i2, 0);
    }
  }

  // mappages storing a user page: f, allocated before, becomes the page (i, j).
  function Mapped(m: Memory, d: nat, i: nat, j: nat, f: nat, flags: nat): Memory
    requires Pde(m, d, i).Present? && Pde(m, d, i).frame in m.tables && j < |m.tables[Pde(m, d, i).frame]|
  {
    WithEntry(m, d, i, j, Present(f, flags)).(owner := m.owner[f := User(d, i, j)])
  }

  lemma MappedKeeps(m: Memory, d: nat, i: nat, j: nat, f: nat, flags: nat)
    requires Inv(m) && IsDir(m, d) && i < USERDIR && j < ENTRIES && Pde(m, d, i).Present? && Lookup(m, d, i, j).Absent?
    requires f in m.owner && m.owner[f] == Elsewhere && f in m.pages
    ensures Inv(Mapped(m, d, i, j, f, flags))
  {
    var e, n := Present(f, flags), Mapped(m, d, i, j, f, flags);
    WithEntryDirectories(m, d, i, j, e, n);
    forall d2, i2, j2
      ensures IsDir(m, d2) ==> Lookup(n, d2, i2, j2) == if d2 == d && i2 == i && j2 == j then e else Lookup(m, d2, i2, j2)
    {
      WithEntryLookup(m, d, i, j, e, d2, i2, j2);
      assert Lookup(n, d2, i2, j2) == Lookup(WithEntry(m, d, i, j, e), d2, i2, j2);
    }
  }

  // The page (i, j) leaves the table; its frame is nobody's until it is freed.
  function Detached(m: Memory, d: nat, i: nat, j: nat): Memory
    requires Pde(m, d, i).Present? && Pde(m, d, i).frame in m.tables && j < |m.tables[Pde(m, d, i).frame]|
    requires Lookup(m, d, i, j).Present?
  {
    WithEntry(m, d, i, j, Absent).(owner := m.owner[Lookup(m, d, i, j).frame := Elsewhere])
  }

  lemma DetachedKeeps(m: Memory, d: nat, i: nat, j: nat)
    requires Inv(m) && IsDir(m, d) && i < USERDIR && j < ENTRIES && Lookup(m, d, i, j).Present?
    ensures Pde(m, d, i).Present? && Pde(m, d, i).frame in m.tables && j < |m.tables[Pde(m, d, i).frame]|
    ensures Inv(Detached(m, d, i, j))
  {
    var f, n := Lookup(m, d, i, j).frame, Detached(m, d, i, j);
    assert m.owner[f] == User(d, i, j);
    WithEntryDirectories(m, d, i, j, Absent, n);
    forall d2, i2, j2
      ensures IsDir(m, d2) ==> Lookup(n, d2, i2, j2) == if d2 == d && i2 == i && j2 == j then Absent else Lookup(m, d2, i2, j2)
    {
      WithEntryLookup(m, d, i, j, Absent, d2, i2, j2);
      assert Lookup(n, d2, i2, j2) == Lookup(WithEntry(m, d, i, j, Absent), d2, i2, j2);
    }
  }

  // deallocuvm on a present page: its frame goes back to the free list.
  function Unmapped(m: Memory, d: nat, i: nat, j: nat): Memory
    requires Pde(m, d, i).Present? && Pde(m, d, i).frame in m.tables && j < |m.tables[Pde(m, d, i).frame]|
    requires Lookup(m, d, i, j).Present?
  {
    Given(Detached(m, d, i, j), Lookup(m, d, i, j).frame)
  }

  lemma UnmappedKeeps(m: Memory, d: nat, i: nat, j: nat)
    requires Inv(m) && IsDir(m, d) && i < USERDIR && j < ENTRIES && Lookup(m, d, i, j).Present?
    ensures Pde(m, d, i).Present? && Pde(m, d, i).frame in m.tables && j < |m.tables[Pde(m, d, i).frame]|
    ensures Inv(Unmapped(m, d, i, j))
  {
    DetachedKeeps(m, d, i, j);
    GivenKeeps(Detached(m, d, i, j), Lookup(m, d, i, j).frame);
  }

  // ----- Kernel mappings, and directories coming and going

  // mappages in the kernel half: the frame stays with its owner, if it has one.
  lemma KernelEntryKeeps(m: Memory, d: nat, i: nat, j: nat, e: Entry)
    requires Inv(m) && IsDir(m, d) && USERDIR <= i < ENTRIES && j < ENTRIES && Pde(m, d, i).Present?
    ensures Inv(WithEntry(m, d, i, j, e))
  {
    var n := WithEntry(m, d, i, j, e);
    WithEntryDirectories(m, d, i, j, e, n);
    forall d2, i2: nat, j2
      ensures IsDir(m, d2) && i2 < USERDIR ==> Lookup(n, d2, i2, j2) == Lookup(m, d2, i2, j2)
    {
      WithEntryLookup(m, d, i, j, e, d2, i2, j2);
    }
  }

  function WithDirectory(m: Memory, c: nat): Memory {
    m.(tables := m.tables[c := EmptyTable()], owner := m.owner[c := Directory])
  }

  lemma WithDirectoryLookup(m: Memory, c: nat, d: nat, i: nat, j: nat)
    requires DirectoriesOk(m) && c in m.owner && m.owner[c] == Elsewhere
    ensures var n := WithDirectory(m, c);
            && (IsDir(n, d) <==> IsDir(m, d) || d == c)
            && (d == c ==> Pde(n, d, i).Absent?)
            && (IsDir(m, d) ==> d != c && Pde(n, d, i) == Pde(m, d, i) && Lookup(n, d, i, j) == Lookup(m, d, i, j))
  {
  }

  lemma WithDirectoryKeeps(m: Memory, c: nat)
    requires Inv(m) && c in m.owner && m.owner[c] == Elsewhere
    ensures Inv(WithDirectory(m, c))
  {
    var n := WithDirectory(m, c);
    forall d, i
      ensures IsDir(n, d) <==> IsDir(m, d) || d == c
      ensures d == c ==> Pde(n, d, i).Absent?
      ensures IsDir(m, d) ==> d != c && Pde(n, d, i) == Pde(m, d, i)
    {
      WithDirectoryLookup(m, c, d, i, 0);
    }
    assert DirectoriesOk(n);
    forall d, i, j
      ensures d == c ==> Lookup(n, d, i, j).Absent?
      ensures IsDir(m, d) ==> Lookup(n, d, i, j) == Lookup(m, d, i, j)
    {
      WithDirectoryLookup(m, c, d, i, j);
    }
  }

  predicate Of(o: Owner, d: nat) {
    (o.Table? || o.User?) && o.dir == d
  }

  // freevm takes directory d, its user pages gone, out of use before freeing its frames.
  function Disowned(m: Memory, d: nat): Memory {
    m.(owner := map f | f in m.owner :: if f == d || Of(m.owner[f], d) then Elsewhere else m.owner[f])
  }

  lemma DisownedLookup(m: Memory, d: nat, d2: nat, i: nat, j: nat)
    requires DirectoriesOk(m)
    ensures var n := Disowned(m, d);
            && (IsDir(n, d2) <==> IsDir(m, d2) && d2 != d)
            && Pde(n, d2, i) == Pde(m, d2, i) && Lookup(n, d2, i, j) == Lookup(m, d2, i, j)
  {
  }

  lemma DisownedKeeps(m: Memory, d: nat)
    requires Inv(m) && IsDir(m, d)
    requires forall f :: f in m.owner && m.owner[f].User? ==> m.owner[f].dir != d
    ensures Inv(Disowned(m, d))
  {
    var n := Disowned(m, d);
    forall d2, i
      ensures IsDir(n, d2) <==> IsDir(m, d2) && d2 != d
      ensures Pde(n, d2, i) == Pde(m, d2, i)
    {
      DisownedLookup(m, d, d2, i, 0);
    }
    assert DirectoriesOk(n);
    forall d2, i, j ensures Lookup(n, d2, i, j) == Lookup(m, d2, i, j) {
      DisownedLookup(m, d, d2, i, j);
    }
  }
}
