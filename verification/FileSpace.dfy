/** How many free blocks a write takes, when there are enough, and where its loop stands. */
module FileSpace {
  import opened Params
  import opened FileBlocks
  import opened FileWrites
  import opened WriteLog

  function FreeCount(bitmap: seq<bool>): nat {
    if bitmap == [] then 0
    else FreeCount(bitmap[..|bitmap| - 1]) + if bitmap[|bitmap| - 1] then 0 else 1
  }

  lemma {:induction false} FreeCountSet(bitmap: seq<bool>, b: nat)
    requires b < |bitmap| && !bitmap[b]
    ensures FreeCount(bitmap[b := true]) == FreeCount(bitmap) - 1
    decreases |bitmap|
  {
    var last := |bitmap| - 1;
    if b < last {
      FreeCountSet(bitmap[..last], b);
      assert bitmap[b := true][..last] == bitmap[..last][b := true];
    } else {
      assert bitmap[b := true][..last] == bitmap[..last];
    }
  }

  lemma {:induction false} FreeCountZero(bitmap: seq<bool>)
    ensures FreeCount(bitmap) == 0 <==> forall b :: 0 <= b < |bitmap| ==> bitmap[b]
    decreases |bitmap|
  {
    if bitmap != [] {
      FreeCountZero(bitmap[..|bitmap| - 1]);
    }
  }

  // The blocks that bmap takes for block q.
  function BlocksFor(fs: Fs, i: nat, q: nat): nat {
    (if q >= NDIRECT && Addr(fs, i, NDIRECT) == 0 then 1 else 0) + if Addr(fs, i, DataSlot(q)) == 0 then 1 else 0
  }

  lemma EnsuredTakes(fs: Fs, i: nat, k: nat)
    requires CanEnsure(fs, i, k)
    ensures FreeCount(Ensured(fs, i, k).bitmap) == FreeCount(fs.bitmap) - if Addr(fs, i, k) == 0 then 1 else 0
  {
    if Addr(fs, i, k) == 0 {
      FreeFound(fs, i, k);
      FreeCountSet(fs.bitmap, FirstFree(fs.bitmap, 0));
    }
  }

  lemma MappedTakes(fs: Fs, i: nat, q: nat)
    requires CanMap(fs, i, q)
    ensures FreeCount(Mapped(fs, i, q).bitmap) == FreeCount(fs.bitmap) - BlocksFor(fs, i, q)
  {
    if q < NDIRECT {
      EnsuredTakes(fs, i, q);
    } else {
      EnsuredTakes(fs, i, NDIRECT);
      EnsuredAddr(fs, i, NDIRECT, i, q + 1);
      EnsuredTakes(Ensured(fs, i, NDIRECT), i, q + 1);
    }
  }

  // bmap fails just when it runs out.
  lemma CannotMap(fs: Fs, i: nat, q: nat)
    requires Owned(fs) && i < |fs.inodes| && q < MAXFILE && !CanMap(fs, i, q)
    ensures FreeCount(fs.bitmap) < BlocksFor(fs, i, q)
  {
    FreeCountZero(fs.bitmap);
    if q >= NDIRECT && CanEnsure(fs, i, NDIRECT) {
      var n := Ensured(fs, i, NDIRECT);
      EnsuredTakes(fs, i, NDIRECT);
      EnsuredAddr(fs, i, NDIRECT, i, q + 1);
      EnsuredKeeps(fs, i, NDIRECT);
      FreeCountZero(n.bitmap);
    }
  }

  // The blocks a file of this size takes to reach end.
  function Need(size: nat, end: nat): nat {
    (if Reach(size) <= Reach(end) then Reach(end) - Reach(size) else 0) + if NewIndirect(size, end) then 1 else 0
  }

  lemma NeedNext(size: nat, off: nat, t: nat, m: nat)
    requires m > 0 && (off + t) % BSIZE + m <= BSIZE && off <= size
    ensures var q, e := (off + t) / BSIZE, Max(size, off + t);
            Need(size, off + t + m) == Need(size, off + t) + (if q >= NDIRECT && NDIRECT * BSIZE >= e then 1 else 0)
                                       + if q * BSIZE >= e then 1 else 0
  {
  }

  lemma NeedGrows(size: nat, a: nat, b: nat)
    requires a <= b
    ensures Need(size, a) <= Need(size, b)
  {
  }

  // What the write has taken by now.
  ghost predicate Took(a: Fs, n: Fs, i: nat, end: nat)
    requires i < |a.inodes|
  {
    FreeCount(n.bitmap) + Need(a.inodes[i].size, end) == FreeCount(a.bitmap)
  }

  lemma BlocksForNext(a: Fs, n: Fs, i: nat, off: nat, src: seq<Byte>, t: nat, m: nat)
    requires Wrote(a, n, i, off, src, t) && m > 0 && (off + t) % BSIZE + m <= BSIZE && (off + t) / BSIZE < MAXFILE
    ensures Need(a.inodes[i].size, off + t + m)
            == Need(a.inodes[i].size, off + t) + BlocksFor(n, i, (off + t) / BSIZE)
  {
    NeedNext(a.inodes[i].size, off, t, m);
    assert BlockThere(n, i, Max(a.inodes[i].size, off + t), (off + t) / BSIZE);
  }

  lemma TookNext(a: Fs, n: Fs, i: nat, off: nat, src: seq<Byte>, t: nat, m: nat, bytes: seq<Byte>)
    requires Wrote(a, n, i, off, src, t) && Took(a, n, i, off + t) && m == |bytes| && CanWrite(n, i, off + t, bytes)
    ensures Took(a, WithBytes(n, i, off + t, bytes), i, off + t + m)
  {
    MappedTakes(n, i, (off + t) / BSIZE);
    BlocksForNext(a, n, i, off, src, t, m);
  }

  lemma TookAll(a: Fs, n: Fs, i: nat, off: nat, src: seq<Byte>, t: nat, m: nat, bytes: seq<Byte>)
    requires Wrote(a, n, i, off, src, t) && Took(a, n, i, off + t) && bytes != [] && m == |bytes| && t + m <= |src|
    requires (off + t) % BSIZE + m <= BSIZE && (off + t) / BSIZE < MAXFILE && !CanWrite(n, i, off + t, bytes)
    ensures FreeCount(a.bitmap) < Need(a.inodes[i].size, off + |src|)
  {
    CannotMap(n, i, (off + t) / BSIZE);
    BlocksForNext(a, n, i, off, src, t, m);
    NeedGrows(a.inodes[i].size, off + t + m, off + |src|);
  }

  // ----- The state of writei's loop

  // Every block whose contents or bitmap bit differ is in the log.
  ghost predicate Logs(l: Layout, blocks: seq<Block>, bitmap: seq<bool>, blocks2: seq<Block>, bitmap2: seq<bool>,
                       log: set<nat>) {
    && |blocks2| == |blocks| && |bitmap2| == |bitmap|
    && (forall b :: 0 <= b < |blocks| && blocks2[b] != blocks[b] ==> b in log)
    && (forall b :: 0 <= b < |bitmap| && bitmap2[b] != bitmap[b] ==> BitmapBlock(l, b) in log)
  }

  // A writei that began in a, with log logged, has put t bytes in place.
  ghost predicate WrittenBy(l: Layout, a: Fs, n: Fs, log: set<nat>, logged: set<nat>,
                            i: nat, off: nat, src: seq<Byte>, t: nat) {
    && Wrote(a, n, i, off, src, t) && Took(a, n, i, off + t)
    && logged == log + LoopLog(l, a, n, i, off, t)
    && Logs(l, a.blocks, a.bitmap, n.blocks, n.bitmap, logged)
  }

  lemma WrittenNone(l: Layout, a: Fs, log: set<nat>, i: nat, off: nat, src: seq<Byte>)
    requires Owned(a) && NoHoles(a) && i < |a.inodes| && off <= a.inodes[i].size
    ensures WrittenBy(l, a, a, log, log, i, off, src, 0)
  {
    WroteNone(a, i, off, src);
    LoopLogNone(l, a, i, off);
  }

  lemma LogsThen(l: Layout, a: Fs, n: Fs, r: Fs, log: set<nat>, log2: set<nat>)
    requires Logs(l, a.blocks, a.bitmap, n.blocks, n.bitmap, log) && log <= log2
    requires Logs(l, n.blocks, n.bitmap, r.blocks, r.bitmap, log2)
    ensures Logs(l, a.blocks, a.bitmap, r.blocks, r.bitmap, log2)
  {
  }

  // One turn of the loop: m bytes go into one block.
  lemma WrittenNext(l: Layout, a: Fs, n: Fs, r: Fs, log: set<nat>, was: set<nat>, logged: set<nat>,
                    i: nat, off: nat, src: seq<Byte>, t: nat, m: nat, bytes: seq<Byte>)
    requires NoHoles(a) && WrittenBy(l, a, n, log, was, i, off, src, t)
    requires t + m <= |src| && m == |bytes| && bytes == src[t..t + m] && CanWrite(n, i, off + t, bytes)
    requires r == WithBytes(n, i, off + t, bytes) && logged == was + BytesLog(l, n, i, (off + t) / BSIZE)
    requires Logs(l, n.blocks, n.bitmap, r.blocks, r.bitmap, logged)
    ensures WrittenBy(l, a, r, log, logged, i, off, src, t + m)
  {
    assert Wrote(a, r, i, off, src, t + m) by {
      WroteNext(a, n, i, off, src, t, m, bytes);
    }
    assert Took(a, r, i, off + t + m) by {
      TookNext(a, n, i, off, src, t, m, bytes);
    }
    assert logged == log + LoopLog(l, a, r, i, off, t + m) by {
      LoopLogNext(l, a, n, i, off, src, t, m, bytes);
    }
    LogsThen(l, a, n, r, was, logged);
  }
}
