/** kalloc.c and vm.c as they run: the methods change one memory in place. */
module Paging {
  import opened Params
  import opened Vm
  import opened AddressSpace
  import opened KernelMap

  const ALLPAGES: nat := ENTRIES * ENTRIES   // of the 32-bit address space

  function ZeroPage(): Page {
    seq(PGSIZE, _ => 0)
  }

  // The loops run over page numbers: page v starts at address v * PGSIZE.
  lemma PageBelow(v: nat, sz: nat)
    ensures v * PGSIZE < sz <==> v < Pages(sz)
  {
  }

  lemma AllPages()
    ensures Pages(0) == 0 && Pages(KERNBASE) == USERPAGES
  {
  }

  lemma Indices(v: nat)
    ensures v < USERPAGES ==> Dx(v) < USERDIR
    ensures v < ALLPAGES ==> Dx(v) < ENTRIES
    ensures v >= USERPAGES ==> Dx(v) >= USERDIR
  {
  }

  class Machine {
    var mem: Sound

    // ----- kalloc.c

    method KAlloc() returns (f: Option<nat>)
      modifies this
      ensures f.None? ==> old(mem.freelist) == [] && mem == old(mem)
      ensures f.Some? ==> old(mem.freelist) != [] && f.value == old(mem.freelist[0]) && mem == Taken(old(mem))
    {
      if mem.freelist == [] {
        return None;
      }
      f := Some(mem.freelist[0]);
      TakenKeeps(mem);
      mem := Taken(mem);
    }

    method KFree(f: nat)
      requires f in mem.owner && mem.owner[f] == Elsewhere
      modifies this
      ensures mem == Given(old(mem), f) && mem.freelist == [f] + old(mem.freelist) && f !in mem.pages
    {
      GivenKeeps(mem, f);
      mem := Given(mem, f);
    }

    // ----- vm.c

    // walkpgdir: the page table that holds the entry of page v.
    method Walk(d: nat, v: nat, alloc: bool) returns (t: Option<nat>)
      requires IsDir(mem, d) && v < ALLPAGES
      modifies this
      ensures t.Some? <==> Pde(old(mem), d, Dx(v)).Present? || (alloc && old(mem.freelist) != [])
      ensures t.None? ==> mem == old(mem)
      ensures t.Some? ==> CanWalk(old(mem), d, Dx(v)) && mem == Walked(old(mem), d, Dx(v)) && IsDir(mem, d)
      ensures t.Some? ==> Pde(mem, d, Dx(v)).Present? && t.value == Pde(mem, d, Dx(v)).frame
    {
      Indices(v);
      if mem.tables[d][Dx(v)].Present? {
        return Some(mem.tables[d][Dx(v)].frame);
      }
      if !alloc || mem.freelist == [] {
        return None;
      }
      ghost var m := mem;
      WalkedLookup(m, d, Dx(v), d, Dx(v), 0);
      var table := KAlloc();
      WithTableKeeps(mem, d, Dx(v), table.value);
      mem := WithTable(mem, d, Dx(v), table.value);
      t := table;
    }

    // mappages for one page of user memory; f is a frame the caller holds.
    method MapUser(d: nat, v: nat, f: nat, perm: nat) returns (ok: bool)
      requires IsDir(mem, d) && v < USERPAGES && At(mem, d, v).Absent?
      requires f in mem.owner && mem.owner[f] == Elsewhere && f in mem.pages
      modifies this
      ensures ok <==> CanWalk(old(mem), d, Dx(v))
      ensures !ok ==> mem == old(mem)
      ensures ok ==> Dx(v) < ENTRIES && StoresPage(Walked(old(mem), d, Dx(v)), mem, d, v, f, perm)
    {
      Indices(v);
      ghost var m := mem;
      var t := Walk(d, v, true);
      if t.None? {
        return false;
      }
      WalkedLookup(m, d, Dx(v), d, Dx(v), Tx(v));
      WalkedFrame(m, d, Dx(v), f);
      MappedKeeps(mem, d, Dx(v), Tx(v), f, perm);
      mem := Mapped(mem, d, Dx(v), Tx(v), f, perm);
      return true;
    }

    // One page of deallocuvm: kfree the frame and clear the entry.
    method UnmapPage(d: nat, v: nat)
      requires IsDir(mem, d) && v < USERPAGES && At(mem, d, v).Present?
      modifies this
      ensures mem == UnmappedAt(old(mem), d, v)
    {
      Indices(v);
      DetachedKeeps(mem, d, Dx(v), Tx(v));
      UnmappedKeeps(mem, d, Dx(v), Tx(v));
      var f := At(mem, d, v).frame;
      mem := Detached(mem, d, Dx(v), Tx(v));
      KFree(f);
    }

    // One turn of deallocuvm's loop, at page v.
    method DeallocStep(d: nat, v: nat, ghost hi: nat) returns (next: nat)
      requires IsDir(mem, d) && v < hi <= USERPAGES
      modifies this
      ensures IsDir(mem, d) && v < next
      ensures StillToDo(mem, d, next, hi) == StillToDo(old(mem), d, v, hi)
    {
      if Pde(mem, d, Dx(v)).Absent? {
        Jump(mem, d, v, hi);
        next := (Dx(v) + 1) * ENTRIES - 1;
      } else {
        ghost var m := mem;
        Advance(m, d, v, hi);
        next := v;
        if At(mem, d, v).Present? {
          UnmapPage(d, v);
        }
        assert mem == UnmappedAt(m, d, v);
      }
      next := next + 1;
    }

    // Shrink to newsz, jumping over page tables that are not there.
    method DeallocUvm(d: nat, oldsz: nat, newsz: nat) returns (sz: nat)
      requires IsDir(mem, d) && oldsz <= KERNBASE
      modifies this
      ensures sz == if newsz >= oldsz then oldsz else newsz
      ensures newsz >= oldsz ==> mem == old(mem)
      ensures newsz < oldsz ==>
                && mem == UnmapRange(old(mem), d, Pages(newsz), Pages(oldsz))
                && Cleared(old(mem), mem, d, Pages(newsz), Pages(oldsz))
    {
      if newsz >= oldsz {
        return oldsz;
      }
      var v := Pages(newsz);
      ghost var hi := Pages(oldsz);
      while v * PGSIZE < oldsz
        invariant IsDir(mem, d) && StillToDo(mem, d, v, hi) == StillToDo(old(mem), d, Pages(newsz), hi)
        decreases hi - v
      {
        PageBelow(v, oldsz);
        v := DeallocStep(d, v, hi);
      }
      PageBelow(v, oldsz);
      UnmapRangeClears(old(mem), d, Pages(newsz), hi);
      return newsz;
    }

    // kalloc, fill with p and map at page v: the common step of allocuvm and copyuvm.
    // spare is the frame in hand when the page table could not be allocated.
    method NewPage(d: nat, v: nat, p: Page, perm: nat) returns (ok: bool, spare: Option<nat>)
      requires IsDir(mem, d) && v < USERPAGES && At(mem, d, v).Absent?
      modifies this
      ensures var m := old(mem);
              if m.freelist == [] then !ok && spare.None? && mem == m
              else if !CanWalk(Filled(m, p), d, Dx(v)) then !ok && spare == Some(m.freelist[0]) && mem == Filled(m, p)
              else ok && mem == WithPage(m, d, v, p, perm)
    {
      ghost var m := mem;
      var f := KAlloc();
      if f.None? {
        return false, None;
      }
      FilledKeeps(m, p);
      FilledLookup(m, p, d, Dx(v), Tx(v));
      mem := mem.(pages := mem.pages[f.value := p]);
      ok := MapUser(d, v, f.value, perm);
      spare := f;
    }

    // The same within a run of pages from lo to |want|, of which those below v are done.
    method GrowPage(ghost m: Sound, d: nat, ghost lo: nat, v: nat, ghost want: Wanted, p: Page, perm: nat)
      returns (ok: bool, spare: Option<nat>)
      requires IsDir(m, d) && AbsentFrom(m, d, lo, |want|) && Grew(m, mem, d, lo, v, want)
      requires v < |want| <= USERPAGES && want[v] == (perm, p)
      modifies this
      ensures ok ==> Grew(m, mem, d, lo, v + 1, want)
      ensures !ok ==> |m.freelist| < |want| - lo + Tables(m, d, lo, |want|)
      ensures !ok && spare.None? ==> mem == old(mem)
      ensures !ok && spare.Some? ==>
                old(mem).freelist != [] && spare.value == old(mem).freelist[0] && mem == Filled(old(mem), p)
    {
      ghost var n := mem;
      NextAbsent(m, n, d, lo, v, |want|);
      ok, spare := NewPage(d, v, p, perm);
      if ok {
        GrewNext(m, n, d, lo, v, want);
      } else {
        if spare.Some? {
          FilledLookup(n, p, d, Dx(v), Tx(v));
        }
        TooShort(m, n, d, lo, v, |want|);
      }
    }

    method AllocUvm(d: nat, oldsz: nat, newsz: nat) returns (sz: nat)
      requires IsDir(mem, d) && (newsz < KERNBASE ==> AbsentFrom(mem, d, Pages(oldsz), Pages(newsz)))
      modifies this
      ensures newsz >= KERNBASE ==> sz == 0 && mem == old(mem)
      ensures newsz < KERNBASE && newsz < oldsz ==> sz == oldsz && mem == old(mem)
      ensures oldsz <= newsz < KERNBASE ==>
                var lo, hi := Pages(oldsz), Pages(newsz);
                if hi - lo + Tables(old(mem), d, lo, hi) <= |old(mem).freelist|
                then sz == newsz && Grew(old(mem), mem, d, lo, hi, Zeroed(hi)) && forall v :: lo <= v < hi ==> Blank(mem, d, v)
                else sz == 0 && RolledBack(old(mem), mem, d)
    {
      if newsz >= KERNBASE {
        return 0;
      }
      if newsz < oldsz {
        return oldsz;
      }
      ghost var m, lo, hi := mem, Pages(oldsz), Pages(newsz);
      sz := Grow(d, oldsz, newsz);
      if hi - lo + Tables(m, d, lo, hi) <= |m.freelist| {
        assert SlotAdded(m, mem, d, lo, hi, d, 0, 0);
        GrewBlank(m, mem, d, lo, hi);
      }
    }

    // allocuvm's loop, past its guards.
    method Grow(d: nat, oldsz: nat, newsz: nat) returns (sz: nat)
      requires IsDir(mem, d) && oldsz <= newsz < KERNBASE && AbsentFrom(mem, d, Pages(oldsz), Pages(newsz))
      modifies this
      ensures var lo, hi := Pages(oldsz), Pages(newsz);
              if hi - lo + Tables(old(mem), d, lo, hi) <= |old(mem).freelist|
              then sz == newsz && Grew(old(mem), mem, d, lo, hi, Zeroed(hi))
              else sz == 0 && RolledBack(old(mem), mem, d)
    {
      var v := Pages(oldsz);
      ghost var m, lo, hi := mem, Pages(oldsz), Pages(newsz);
      GrewNone(m, d, lo, Zeroed(hi));
      while v * PGSIZE < newsz
        invariant lo <= v <= hi && Grew(m, mem, d, lo, v, Zeroed(hi))
      {
        PageBelow(v, newsz);
        ghost var n := mem;
        var ok, spare := GrowPage(m, d, lo, v, Zeroed(hi), ZeroPage(), PTE_W + PTE_U);
        if !ok {
          Undo(d, newsz, oldsz, spare, m, n, v);
          return 0;
        }
        v := v + 1;
      }
      PageBelow(v, newsz);
      return newsz;
    }

    // allocuvm's way out when memory runs out at page v.
    method Undo(d: nat, newsz: nat, oldsz: nat, spare: Option<nat>, ghost m: Sound, ghost n: Sound, ghost v: nat)
      requires IsDir(m, d) && oldsz < newsz < KERNBASE && Pages(oldsz) <= v < Pages(newsz)
      requires AbsentFrom(m, d, Pages(oldsz), Pages(newsz))
      requires Added(m, n, d, Pages(oldsz), v)
      requires spare.None? ==> mem == n
      requires spare.Some? ==> n.freelist != [] && spare.value == n.freelist[0] && mem == Filled(n, ZeroPage())
      modifies this
      ensures RolledBack(m, mem, d)
    {
      ghost var x, lo, hi := mem, Pages(oldsz), Pages(newsz);
      assert SlotAdded(m, n, d, lo, v, d, 0, 0);
      if spare.Some? {
        FilledLookup(n, ZeroPage(), d, 0, 0);
      }
      var sz := DeallocUvm(d, newsz, oldsz);
      if spare.Some? {
        FilledThenCleared(m, n, ZeroPage(), mem, d, lo, v, hi);
        KFree(spare.value);
      } else {
        AddedThenCleared(m, n, mem, d, lo, v, hi);
      }
    }

    // freevm past deallocuvm: the page tables, then the directory.
    method FreeTables(d: nat)
      requires IsDir(mem, d) && NoUserPages(mem, d)
      modifies this
      ensures Freed(old(mem), mem, d)
    {
      ghost var m := mem;
      DisownedReleased(m, d);
      mem := Disowned(mem, d);
      for i := 0 to ENTRIES
        invariant Released(m, mem, d, i)
      {
        if mem.tables[d][i].Present? {
          ReleaseOne(m, mem, d, i);
          KFree(mem.tables[d][i].frame);
        } else {
          ReleaseNone(m, mem, d, i);
        }
      }
      ReleasedAll(m, mem, d);
      KFree(d);
    }

    // deallocuvm of the whole user half.
    method ClearUser(d: nat)
      requires IsDir(mem, d)
      modifies this
      ensures Cleared(old(mem), mem, d, 0, USERPAGES)
    {
      AllPages();
      var sz := DeallocUvm(d, KERNBASE, 0);
    }

    // Every frame of the address space goes back, each once.
    method FreeVm(d: nat)
      requires IsDir(mem, d)
      modifies this
      ensures Freed(old(mem), mem, d)
    {
      ghost var m := mem;
      ClearUser(d);
      ClearedAll(m, mem, d);
      ghost var a := mem;
      FreeTables(d);
      ClearedThenFreed(m, a, mem, d);
    }

    // mappages of one kernel page.
    method MapKernelPage(d: nat, v: nat, e: Entry) returns (ok: bool)
      requires IsDir(mem, d) && USERPAGES <= v < ALLPAGES && At(mem, d, v).Absent? && e.Present?
      modifies this
      ensures ok <==> CanWalk(old(mem), d, Dx(v))
      ensures !ok ==> mem == old(mem)
      ensures ok ==> mem == WithKernelPage(old(mem), d, v, e)
    {
      Indices(v);
      ghost var m := mem;
      var t := Walk(d, v, true);
      if t.None? {
        return false;
      }
      KernelEntryKeeps(mem, d, Dx(v), Tx(v), e);
      mem := WithEntry(mem, d, Dx(v), Tx(v), e);
      return true;
    }

    // The same within a line of kmap from lo to hi, of which the pages below v are done.
    method GrowKernel(ghost m: Sound, d: nat, lo: nat, v: nat, ghost hi: nat, pa: nat, perm: nat)
      returns (ok: bool, next: nat)
      requires IsDir(m, d) && AbsentFrom(m, d, lo, hi) && KGrew(m, mem, d, lo, v, pa, perm)
      requires USERPAGES <= lo <= v < hi <= ALLPAGES
      modifies this
      ensures next == v + 1
      ensures ok ==> KGrew(m, mem, d, lo, next, pa, perm)
      ensures !ok ==> mem == old(mem) && |m.freelist| < Tables(m, d, lo, hi)
    {
      ghost var n := mem;
      next := v + 1;
      NextAbsent(m, n, d, lo, v, hi);
      ok := MapKernelPage(d, v, Present(pa + v - lo, perm));
      if ok {
        KGrewNext(m, n, d, lo, v, pa, perm);
      } else {
        KTooShort(m, n, d, lo, v, hi);
      }
    }

    // One turn of that loop, and what its end means.
    method KernelTurn(ghost m: Sound, d: nat, lo: nat, v: nat, ghost hi: nat, pa: nat, perm: nat)
      returns (ok: bool, next: nat)
      requires IsDir(m, d) && AbsentFrom(m, d, lo, hi) && KGrew(m, mem, d, lo, v, pa, perm)
      requires USERPAGES <= lo <= v < hi <= ALLPAGES
      modifies this
      ensures next == v + 1
      ensures ok ==> KGrew(m, mem, d, lo, next, pa, perm) && (next == hi ==> Tables(m, d, lo, hi) <= |m.freelist|)
      ensures !ok ==> Added(m, mem, d, lo, v) && |m.freelist| < Tables(m, d, lo, hi)
    {
      ok, next := GrowKernel(m, d, lo, v, hi, pa, perm);
      if !ok {
        KGrewAdds(m, mem, d, lo, v, pa, perm);
      } else if next == hi {
        KGrewEnough(m, mem, d, lo, next, pa, perm);
      }
    }

    // mappages of one line of kmap. When it fails, the pages below mid are mapped.
    method MapKernel(d: nat, lo: nat, count: nat, pa: nat, perm: nat) returns (ok: bool, ghost mid: nat)
      requires IsDir(mem, d) && USERPAGES <= lo && 0 < count && lo + count <= ALLPAGES
      requires AbsentFrom(mem, d, lo, lo + count)
      modifies this
      ensures ok <==> Tables(old(mem), d, lo, lo + count) <= |old(mem).freelist|
      ensures ok ==> KGrew(old(mem), mem, d, lo, lo + count, pa, perm)
      ensures !ok ==> Added(old(mem), mem, d, lo, mid)
    {
      var v, last := lo, lo + count - 1;
      ghost var m, hi := mem, lo + count;
      KGrewNone(m, d, lo, pa, perm);
      while true
        invariant lo <= v <= last && KGrew(m, mem, d, lo, v, pa, perm)
        decreases last - v
      {
        mid := v;
        var next;
        ok, next := KernelTurn(m, d, lo, v, hi, pa, perm);
        if !ok {
          return;
        }
        if v == last {
          break;
        }
        v := next;
      }
    }

    method SetupKvm(data: DataPage) returns (c: Option<nat>)
      modifies this
      ensures c.Some? <==> SETUP_FRAMES <= |old(mem).freelist|
      ensures c.Some? ==> KernelUpTo(old(mem), mem, c.value, data, 4)
      ensures c.Some? ==> forall v: nat :: v < ALLPAGES ==> KernelPage(At(mem, c.value, v), data, v)
      ensures c.None? ==> Restored(old(mem), mem)
    {
      ghost var m := mem;
      var d := KAlloc();
      if d.None? {
        return None;
      }
      WithDirectoryKeeps(mem, d.value);
      mem := WithDirectory(mem, d.value);
      NewDirectoryEmpty(m, data);
      for k := 0 to 4
        invariant KernelUpTo(m, mem, d.value, data, k)
      {
        var ok := MapLine(m, d.value, data, k);
        if !ok {
          return None;
        }
      }
      c := d;
      KernelDone(m, mem, d.value, data);
    }

    // One line of kmap, or everything undone.
    method MapLine(ghost m: Sound, c: nat, data: DataPage, k: nat) returns (ok: bool)
      requires k < 4 && KernelUpTo(m, mem, c, data, k)
      modifies this
      ensures ok ==> KernelUpTo(m, mem, c, data, k + 1)
      ensures !ok ==> Restored(m, mem) && |m.freelist| < SETUP_FRAMES
    {
      ghost var n, mid := mem, 0;
      var r := Kmap(data)[k];
      LineAbsent(m, n, c, data, k);
      TablesOfLine(n, c, data, k);
      assert SlotBuilt(m, n, c, c, 0, 0);
      ok, mid := MapKernel(c, r.virt, r.count, r.phys, r.perm);
      if ok {
        LineDone(m, n, mem, c, data, k);
      } else {
        BuiltThenAdded(m, n, mem, c, r.virt, mid);
        Discard(m, c);
      }
    }

    // freevm of an address space under construction.
    method Discard(ghost m: Sound, c: nat)
      requires Built(m, mem, c)
      modifies this
      ensures Restored(m, mem)
    {
      ghost var a := mem;
      assert SlotBuilt(m, a, c, c, 0, 0);
      FreeVm(c);
      BuiltThenFreed(m, a, mem, c);
    }

    // The child of d: its own frames, with the bytes and flags of the first pages of d.
    method CopyUvm(d: nat, sz: nat, data: DataPage) returns (c: Option<nat>)
      requires IsDir(mem, d) && sz <= KERNBASE && forall v :: 0 <= v < Pages(sz) ==> At(mem, d, v).Present?
      modifies this
      ensures c.Some? <==> CopyFrames(Pages(sz)) <= |old(mem).freelist|
      ensures c.Some? ==> Copied(old(mem), mem, d, c.value, Pages(sz), data)
      ensures c.Some? ==> forall v :: Pages(sz) <= v < ALLPAGES ==> KernelPage(At(mem, c.value, v), data, v)
      ensures c.None? ==> Restored(old(mem), mem)
    {
      ghost var m := mem;
      c := SetupKvm(data);
      if c.None? {
        return;
      }
      PagesThere(m, d, Pages(sz));
      var ok := CopyPages(m, d, c.value, sz, data);
      if ok {
        CopiedKernel(m, mem, d, c.value, Pages(sz), data);
      } else {
        c := None;
      }
    }

    // copyuvm's loop, into the new directory c.
    method CopyPages(ghost m: Sound, d: nat, c: nat, sz: nat, ghost data: DataPage) returns (ok: bool)
      requires IsDir(m, d) && sz <= KERNBASE && AllThere(m, d, Pages(sz)) && KernelUpTo(m, mem, c, data, 4)
      modifies this
      ensures ok <==> CopyFrames(Pages(sz)) <= |m.freelist|
      ensures ok ==> Copied(m, mem, d, c, Pages(sz), data)
      ensures !ok ==> Restored(m, mem)
    {
      ghost var n, hi := mem, Pages(sz);
      ghost var want := Image(m, d, hi);
      GrewNone(n, c, 0, want);
      var v := 0;
      while v * PGSIZE < sz
        invariant v <= hi && Grew(n, mem, c, 0, v, want)
      {
        PageBelow(v, sz);
        var next;
        ok, next := CopyPage(m, n, d, c, v, want, data);
        if !ok {
          return;
        }
        v := next;
      }
      PageBelow(v, sz);
      CopiedAll(m, n, mem, d, c, hi, data);
      ok := true;
    }

    // One page of copyuvm, or everything undone.
    method CopyPage(ghost m: Sound, ghost n: Sound, d: nat, c: nat, v: nat, ghost want: Wanted, ghost data: DataPage)
      returns (ok: bool, next: nat)
      requires IsDir(m, d) && v < |want| <= USERPAGES && AllThere(m, d, |want|) && want == Image(m, d, |want|)
      requires KernelUpTo(m, n, c, data, 4) && Grew(n, mem, c, 0, v, want)
      modifies this
      ensures next == v + 1
      ensures ok ==> Grew(n, mem, c, 0, next, want)
      ensures !ok ==> Restored(m, mem) && |m.freelist| < CopyFrames(|want|)
    {
      ghost var x := mem;
      next := v + 1;
      FreshUser(m, n, c, data, |want|);
      BuiltThenAdded(m, n, x, c, 0, v);
      ParentKept(m, x, c, d, v);
      var e := At(mem, d, v);
      var spare;
      ok, spare := GrowPage(n, c, 0, v, want, mem.pages[e.frame], e.flags);
      if !ok {
        Abandon(m, x, c, spare, want[v].1);
      }
    }

    // copyuvm's way out: the frame in hand and the child's address space are freed.
    method Abandon(ghost m: Sound, ghost x: Sound, c: nat, spare: Option<nat>, ghost p: Page)
      requires Built(m, x, c)
      requires spare.None? ==> mem == x
      requires spare.Some? ==> x.freelist != [] && spare.value == x.freelist[0] && mem == Filled(x, p)
      modifies this
      ensures Restored(m, mem)
    {
      if spare.Some? {
        BuiltThenSpare(m, x, p, c);
        KFree(spare.value);
      }
      Discard(m, c);
    }
  }

  function Zeroed(n: nat): Wanted {
    seq(n, _ => (PTE_W + PTE_U, ZeroPage()))
  }

  // Page v is there for user code to read and write, at both levels (6 is PTE_W with PTE_U), and
  // holds zeros.
  ghost predicate Blank(m: Memory, d: nat, v: nat) {
    var e := At(m, d, v);
    && Pde(m, d, Dx(v)).Present? && Pde(m, d, Dx(v)).flags == 6
    && e.Present? && e.flags == 6 && e.frame in m.pages
    && |m.pages[e.frame]| == 4096 && forall k :: 0 <= k < 4096 ==> m.pages[e.frame][k] == 0
  }

  lemma GrewBlank(m: Memory, n: Sound, d: nat, lo: nat, hi: nat)
    requires lo <= hi && IsDir(n, d) && Grew(m, n, d, lo, hi, Zeroed(hi))
    ensures forall v :: lo <= v < hi ==> Blank(n, d, v)
  {
    forall v | lo <= v < hi ensures Blank(n, d, v) {
      assert Holds(n, d, v, Zeroed(hi)[v].0, Zeroed(hi)[v].1);
    }
  }

  predicate StoresPage(m: Memory, n: Memory, d: nat, v: nat, f: nat, perm: nat) {
    && Pde(m, d, Dx(v)).Present? && Pde(m, d, Dx(v)).frame in m.tables && Tx(v) < |m.tables[Pde(m, d, Dx(v)).frame]|
    && n == Mapped(m, d, Dx(v), Tx(v), f, perm)
  }

  function StillToDo(m: Sound, d: nat, v: nat, hi: nat): Sound
    requires IsDir(m, d) && hi <= USERPAGES
  {
    UnmapRange(m, d, if v <= hi then v else hi, hi)
  }

  // Under an absent page table no page is mapped, so the jump loses nothing.
  lemma Jump(m: Sound, d: nat, v: nat, hi: nat)
    requires IsDir(m, d) && v < hi <= USERPAGES && Pde(m, d, Dx(v)).Absent?
    ensures var next := (Dx(v) + 1) * ENTRIES; v < next && StillToDo(m, d, next, hi) == StillToDo(m, d, v, hi)
  {
    var next := (Dx(v) + 1) * ENTRIES;
    var mid := if next <= hi then next else hi;
    forall u | v <= u < mid ensures At(m, d, u).Absent? {
      assert Dx(u) == Dx(v);
    }
    UnmapSkips(m, d, v, mid, hi);
  }

  lemma Advance(m: Sound, d: nat, v: nat, hi: nat)
    requires IsDir(m, d) && v < hi <= USERPAGES
    ensures var n := UnmappedAt(m, d, v); IsDir(n, d) && StillToDo(n, d, v + 1, hi) == StillToDo(m, d, v, hi)
  {
  }

  // n is m with a child c of d: a copy of the first pages of d, nothing above them in the user
  // half, and the kernel's mappings.
  ghost predicate Copied(m: Memory, n: Memory, d: nat, c: nat, pages: nat, data: DataPage) {
    && Built(m, n, c)
    && AllThere(m, d, pages)
    && (forall v :: 0 <= v < pages ==> Holds(n, c, v, At(m, d, v).flags, m.pages[At(m, d, v).frame]))
    && (forall v :: pages <= v < ALLPAGES ==> At(n, c, v) == KernelEntry(Kmap(data), v))
  }

  lemma CopiedAll(m: Sound, a: Sound, n: Sound, d: nat, c: nat, pages: nat, data: DataPage)
    requires IsDir(m, d) && pages <= USERPAGES && AllThere(m, d, pages)
    requires KernelUpTo(m, a, c, data, 4) && Grew(a, n, c, 0, pages, Image(m, d, pages))
    ensures Copied(m, n, d, c, pages, data) && CopyFrames(pages) <= |m.freelist|
  {
    FreshUser(m, a, c, data, pages);
    var want := Image(m, d, pages);
    BuiltThenAdded(m, a, n, c, 0, pages);
    assert SlotBuilt(m, a, c, c, 0, 0);
    assert Kmap(data)[..4] == Kmap(data);
    forall v | 0 <= v < pages ensures Holds(n, c, v, At(m, d, v).flags, m.pages[At(m, d, v).frame]) {
      assert Holds(n, c, v, want[v].0, want[v].1);
    }
    forall v | pages <= v < ALLPAGES ensures At(n, c, v) == KernelEntry(Kmap(data), v) {
      assert SlotAdded(a, n, c, 0, pages, c, Dx(v), Tx(v));
      VInRange(v, 0, pages);
      assert At(a, c, v) == KernelEntry(Kmap(data)[..4], v);
    }
  }

  lemma KernelDone(m: Memory, n: Memory, c: nat, data: DataPage)
    requires KernelUpTo(m, n, c, data, 4)
    ensures forall v: nat :: v < ALLPAGES ==> KernelPage(At(n, c, v), data, v)
  {
    assert Kmap(data)[..4] == Kmap(data);
    forall v: nat | v < ALLPAGES ensures KernelPage(At(n, c, v), data, v) {
      KmapPages(data, v);
    }
  }

  lemma CopiedKernel(m: Memory, n: Memory, d: nat, c: nat, pages: nat, data: DataPage)
    requires Copied(m, n, d, c, pages, data)
    ensures forall v :: pages <= v < ALLPAGES ==> KernelPage(At(n, c, v), data, v)
  {
    forall v | pages <= v < ALLPAGES ensures KernelPage(At(n, c, v), data, v) {
      KmapPages(data, v);
    }
  }

  // The kernel's table asks for nothing below KERNBASE.
  lemma NothingBelow(data: DataPage, v: nat)
    requires v < USERPAGES
    ensures KernelEntry(Kmap(data), v).Absent?
  {
    NotCovered(Kmap(data), v);
  }

  // Two address spaces never share a frame, nor do two pages of one.
  lemma FramesApart(m: Sound, d: nat, v: nat, e: nat, w: nat)
    requires IsDir(m, d) && IsDir(m, e) && v < USERPAGES && w < USERPAGES
    requires At(m, d, v).Present? && At(m, e, w).Present? && At(m, d, v).frame == At(m, e, w).frame
    ensures d == e && v == w
  {
  }
}
