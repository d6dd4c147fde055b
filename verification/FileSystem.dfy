/** fs.c and file.c as they run: the methods change the bitmap, the blocks and the inodes in place.
    bread and brelse are left implicit: blocks holds the latest contents of every block, and
    logged the blocks passed to log_write since the transaction began. */
module FileSystem {
  import opened Params
  import opened FileBlocks
  import opened FileWrites
  import opened WriteLog
  import opened FileTrunc
  import opened FileSpace
  import opened FileChunks
  import opened FileCalls

  const NDEV: int := 10

  datatype ReadResult = ReadDevice | ReadError | Data(bytes: seq<Byte>)
  datatype FileResult = ToDevice | Panicked | Returned(r: int)
  datatype WriteResult = WriteDevice | WriteError | WritePanic | Written(count: nat)

  // off + n in 32 bits falls below off.
  predicate Wraps(off: nat, n: nat) {
    (off + n) % WORD < off
  }

  lemma WrapsIff(off: nat, n: nat)
    requires off < WORD && n < WORD
    ensures Wraps(off, n) <==> off + n >= WORD
  {
  }

  class Files {
    const meta: nat
    const l: Layout
    const drivers: set<int>          // majors with a device driver
    var bitmap: seq<bool>
    var blocks: seq<Block>
    var inodes: seq<Inode>           // in memory
    var dinodes: seq<Inode>          // on disk
    var logged: set<nat>
    ghost var owner: seq<Option<Slot>>

    // A disk on which only the blocks below first are in use, with empty inodes.
    constructor (first: nat, size: nat, ninodes: nat, layout: Layout, majors: set<int>)
      requires 0 < first <= size <= WORD
      ensures Valid() && logged == {} && |bitmap| == size && |inodes| == ninodes && l == layout && meta == first
      ensures forall i :: 0 <= i < ninodes ==> Content(Now(), i) == []
      ensures forall b :: 0 <= b < size ==> (bitmap[b] <==> b < first)
    {
      meta, l, drivers, logged := first, layout, majors, {};
      bitmap := seq(size, b => b < first);
      blocks := seq(size, _ => ZeroBlock());
      owner := seq(size, _ => None);
      inodes := seq(ninodes, _ => Inode(0, 0, 0, 0, 0, NoAddrs()));
      dinodes := seq(ninodes, _ => Inode(0, 0, 0, 0, 0, NoAddrs()));
      new;
      assert forall i, k :: Addr(Now(), i, k) == 0;
      assert forall i, k :: SlotOwns(Now(), i, k);
      assert forall b :: 0 <= b < size ==> BlockOwned(Now(), b);
      assert forall i, n :: BlockThere(Now(), i, 0, n);
      assert forall i :: FilledTo(Now(), i, 0);
    }

    ghost function Now(): Fs
      reads this
    {
      Fs(meta, bitmap, blocks, inodes, owner)
    }

    // Every block has one owner, no file has holes or old data past its end, and the disk has
    // every inode.
    ghost predicate Valid()
      reads this
    {
      Owned(Now()) && NoHoles(Now()) && Clean(Now()) && dinodes == inodes
    }

    // ----- Blocks

    // balloc's search, one bitmap block after the other.
    method FindFree() returns (f: nat)
      ensures f == FirstFree(bitmap, 0)
    {
      var b := 0;
      while b < |bitmap|
        invariant 0 <= b && (b <= |bitmap| ==> FirstFree(bitmap, 0) == FirstFree(bitmap, b))
        invariant b > |bitmap| ==> FirstFree(bitmap, 0) == |bitmap|
      {
        var bi := 0;
        while bi < BPB && b + bi < |bitmap|
          invariant 0 <= bi <= BPB && b + bi <= |bitmap| && FirstFree(bitmap, 0) == FirstFree(bitmap, b + bi)
        {
          if !bitmap[b + bi] {
            return b + bi;
          }
          bi := bi + 1;
        }
        b := b + BPB;
      }
      return |bitmap|;
    }

    method Balloc() returns (r: Option<nat>)
      requires |blocks| == |bitmap|
      modifies this`bitmap, this`blocks, this`logged
      ensures var b := FirstFree(old(bitmap), 0);
              if b == |old(bitmap)| then r.None? && bitmap == old(bitmap) && blocks == old(blocks) && logged == old(logged)
              else && r == Some(b) && bitmap == old(bitmap)[b := true] && blocks == old(blocks)[b := ZeroBlock()]
                   && logged == old(logged) + {BitmapBlock(l, b), b}
      ensures old(logged) <= logged && Logs(l, old(blocks), old(bitmap), blocks, bitmap, logged)
    {
      var b := FindFree();
      if b == |bitmap| {
        return None;
      }
      bitmap := bitmap[b := true];
      logged := logged + {BitmapBlock(l, b)};
      blocks := blocks[b := ZeroBlock()];
      logged := logged + {b};
      return Some(b);
    }

    // false: panic, the block was free.
    method Bfree(b: nat) returns (ok: bool)
      requires b < |bitmap|
      modifies this`bitmap, this`logged
      ensures ok == old(bitmap)[b]
      ensures bitmap == old(bitmap)[b := false]
      ensures logged == if ok then old(logged) + {BitmapBlock(l, b)} else old(logged)
    {
      if !bitmap[b] {
        assert bitmap == bitmap[b := false];
        return false;
      }
      bitmap := bitmap[b := false];
      logged := logged + {BitmapBlock(l, b)};
      return true;
    }

    // ----- Inodes

    method Iupdate(i: nat)
      requires i < |inodes| && i < |dinodes|
      modifies this`dinodes, this`logged
      ensures dinodes == old(dinodes)[i := inodes[i]] && logged == old(logged) + {InodeBlock(l, i)}
    {
      dinodes := dinodes[i := inodes[i]];
      logged := logged + {InodeBlock(l, i)};
    }

    // One of bmap's three fetches of an address from the inode.
    method EnsureAddr(i: nat, k: nat) returns (r: Option<nat>)
      requires Owned(Now()) && i < |inodes| && k <= NDIRECT
      modifies this`bitmap, this`blocks, this`logged, this`inodes, this`owner
      ensures r.Some? <==> CanEnsure(old(Now()), i, k)
      ensures r.None? ==> Full(Now())
      ensures r.Some? ==> Now() == Ensured(old(Now()), i, k)
      ensures r.Some? ==> r.value == Addr(Now(), i, k) && logged == old(logged) + EnsuredLog(l, old(Now()), i, k)
      ensures old(logged) <= logged && Logs(l, old(blocks), old(bitmap), blocks, bitmap, logged)
    {
      var addr := inodes[i].addrs[k];
      if addr == 0 {
        ghost var a := Now();
        r := Balloc();
        if r.None? {
          return;
        }
        FreeFound(a, i, k);
        AddedBlock(a, i, k);
        inodes := inodes[i := SetAddr(inodes[i], k, r.value)];
        owner := owner[r.value := Some(Slot(i, k))];
        return;
      }
      return Some(addr);
    }

    // The fetch of entry k - NDIRECT - 1 from the indirect block.
    method EnsureEntry(i: nat, k: nat) returns (r: Option<nat>)
      requires Owned(Now()) && i < |inodes| && NDIRECT < k < SLOTS && Addr(Now(), i, NDIRECT) != 0
      modifies this`bitmap, this`blocks, this`logged, this`owner
      ensures r.Some? <==> CanEnsure(old(Now()), i, k)
      ensures r.None? ==> Full(Now())
      ensures r.Some? ==> Now() == Ensured(old(Now()), i, k)
      ensures r.Some? ==> r.value == Addr(Now(), i, k) && logged == old(logged) + EnsuredLog(l, old(Now()), i, k)
      ensures old(logged) <= logged && Logs(l, old(blocks), old(bitmap), blocks, bitmap, logged)
    {
      ghost var a := Now();
      var ind := inodes[i].addrs[NDIRECT];
      assert SlotOwns(a, i, NDIRECT);
      var addr := GetWord(blocks[ind], k - NDIRECT - 1);
      if addr == 0 {
        r := Balloc();
        if r.None? {
          return;
        }
        FreeFound(a, i, k);
        AddedBlock(a, i, k);
        blocks := blocks[ind := SetWord(blocks[ind], k - NDIRECT - 1, r.value)];
        owner := owner[r.value := Some(Slot(i, k))];
        logged := logged + {ind};
        return;
      }
      return Some(addr);
    }

    // The disk block of block bn of the file; None: panic, out of range or out of blocks.
    method Bmap(i: nat, bn: nat) returns (r: Option<nat>)
      requires Owned(Now()) && i < |inodes|
      modifies this`bitmap, this`blocks, this`logged, this`inodes, this`owner
      ensures r.Some? <==> CanMap(old(Now()), i, bn)
      ensures r.None? ==> bn >= MAXFILE || Full(Now())
      ensures r.Some? ==> Now() == Mapped(old(Now()), i, bn)
      ensures r.Some? ==> r.value == Addr(Now(), i, DataSlot(bn)) && logged == old(logged) + MappedLog(l, old(Now()), i, bn)
      ensures old(logged) <= logged && Logs(l, old(blocks), old(bitmap), blocks, bitmap, logged)
    {
      if bn < NDIRECT {
        r := EnsureAddr(i, bn);
        return;
      }
      if bn < MAXFILE {
        ghost var a := Now();
        r := EnsureAddr(i, NDIRECT);
        if r.None? {
          return;
        }
        EnsuredKeeps(a, i, NDIRECT);
        EnsuredAddr(a, i, NDIRECT, i, NDIRECT);
        r := EnsureEntry(i, bn + 1);
        return;
      }
      return None;
    }

    // ----- itrunc

    // The direct blocks. Slots below k are freed and cleared.
    method FreeDirect(i: nat) returns (ok: bool)
      requires Owned(Now()) && i < |inodes|
      modifies this`bitmap, this`logged, this`inodes
      ensures ok && BitsFreed(old(Now()), bitmap, i, NDIRECT)
      ensures logged == old(logged) + FreedLog(l, old(Now()), bitmap)
      ensures Cleared(old(inodes), inodes, i, NDIRECT)
    {
      ghost var a := Now();
      for k := 0 to NDIRECT
        invariant BitsFreed(a, bitmap, i, k) && Cleared(a.inodes, inodes, i, k)
        invariant logged == old(logged) + FreedLog(l, a, bitmap)
      {
        FreeNext(a, bitmap, i, k, k);
        var addr := inodes[i].addrs[k];
        assert addr == Addr(a, i, k);
        if addr != 0 {
          assert BitFreed(a, bitmap, i, k, addr);
          FreedLogNext(l, a, bitmap, addr);
          ok := Bfree(addr);
          assert ok;
          inodes := inodes[i := SetAddr(inodes[i], k, 0)];
        }
      }
      ok := true;
    }

    // The blocks that the indirect block at ind names.
    method FreeEntries(i: nat, ind: nat, ghost a: Fs, ghost log: set<nat>) returns (ok: bool)
      requires Owned(a) && i < |a.inodes| && blocks == a.blocks && 0 < ind < |blocks| && ind == Addr(a, i, NDIRECT)
      requires BitsFreed(a, bitmap, i, NDIRECT) && logged == log + FreedLog(l, a, bitmap)
      modifies this`bitmap, this`logged
      ensures ok && BitsFreed(a, bitmap, i, SLOTS - 1) && logged == log + FreedLog(l, a, bitmap)
    {
      for j := 0 to NINDIRECT
        invariant BitsFreed(a, bitmap, i, NDIRECT + j) && logged == log + FreedLog(l, a, bitmap)
      {
        var addr := GetWord(blocks[ind], j);
        assert addr == Addr(a, i, NDIRECT + 1 + j);
        FreeNext(a, bitmap, i, NDIRECT + j, NDIRECT + 1 + j);
        if addr != 0 {
          assert BitFreed(a, bitmap, i, NDIRECT + j, addr);
          FreedLogNext(l, a, bitmap, addr);
          ok := Bfree(addr);
          assert ok;
        }
      }
      ok := true;
    }

    // The indirect block, if there is one, after its entries.
    method FreeIndirect(i: nat, ghost a: Fs, ghost log: set<nat>) returns (ok: bool)
      requires Owned(a) && i < |a.inodes| && blocks == a.blocks && Cleared(a.inodes, inodes, i, NDIRECT)
      requires BitsFreed(a, bitmap, i, NDIRECT) && logged == log + FreedLog(l, a, bitmap)
      modifies this`bitmap, this`logged, this`inodes
      ensures ok && BitsFreed(a, bitmap, i, SLOTS) && logged == log + FreedLog(l, a, bitmap)
      ensures inodes == a.inodes[i := a.inodes[i].(addrs := NoAddrs())]
    {
      ok := true;
      var ind := inodes[i].addrs[NDIRECT];
      assert SlotOwns(a, i, NDIRECT) && ind == Addr(a, i, NDIRECT);
      if ind != 0 {
        ok := FreeEntries(i, ind, a, log);
        FreeNext(a, bitmap, i, SLOTS - 1, NDIRECT);
        assert BitFreed(a, bitmap, i, SLOTS - 1, ind);
        FreedLogNext(l, a, bitmap, ind);
        ok := Bfree(ind);
        inodes := inodes[i := SetAddr(inodes[i], NDIRECT, 0)];
      } else {
        NoIndirect(a, bitmap, i);
      }
      assert inodes[i].addrs == NoAddrs();
    }

    // false: panic in bfree, which does not happen, whatever holes the file has.
    method Itrunc(i: nat) returns (ok: bool)
      requires Owned(Now()) && i < |inodes| == |dinodes|
      modifies this
      ensures ok && Owned(Now()) && Now() == Truncated(old(Now()), i) && dinodes == old(dinodes)[i := inodes[i]]
      ensures old(Valid()) ==> Valid()
      ensures logged == old(logged) + FreedLog(l, old(Now()), bitmap) + {InodeBlock(l, i)}
    {
      ghost var a, log := Now(), logged;
      ok := FreeDirect(i);
      ok := FreeIndirect(i, a, log);
      inodes := inodes[i := inodes[i].(size := 0)];
      AllFreed(a, bitmap, i);
      owner := Truncated(a, i).owner;
      assert inodes == Truncated(a, i).inodes;
      assert Now() == Truncated(a, i);
      TruncatedKeeps(a, i);
      if NoHoles(a) {
        TruncatedNoHoles(a, i);
      }
      if Clean(a) {
        TruncatedClean(a, i);
      }
      Iupdate(i);
    }

    // ----- readi and writei

    method Readi(i: nat, off: nat, n: nat) returns (r: ReadResult)
      requires Valid() && i < |inodes| && off < WORD && n < WORD
      modifies this
      ensures Now() == old(Now()) && dinodes == old(dinodes) && logged == old(logged)
      ensures var s := Content(Now(), i);
              if inodes[i].kind == T_DEV
              then r == if 0 <= inodes[i].major < NDEV && inodes[i].major in drivers then ReadDevice else ReadError
              else if off > |s| || off + n >= WORD then r == ReadError
              else r == Data(s[off..if off + n <= |s| then off + n else |s|])
    {
      if inodes[i].kind == T_DEV {
        if inodes[i].major < 0 || inodes[i].major >= NDEV || inodes[i].major !in drivers {
          return ReadError;
        }
        return ReadDevice;
      }
      WrapsIff(off, n);
      if off > inodes[i].size || Wraps(off, n) {
        return ReadError;
      }
      var count := n;
      if off + n > inodes[i].size {
        count := inodes[i].size - off;
      }
      var bytes := ReadLoop(i, off, count);
      return Data(bytes);
    }

    // readi's loop: bmap finds every block, so nothing changes.
    method ReadLoop(i: nat, off: nat, n: nat) returns (dst: seq<Byte>)
      requires Valid() && i < |inodes| && off + n <= inodes[i].size
      modifies this
      ensures Now() == old(Now()) && dinodes == old(dinodes) && logged == old(logged)
      ensures dst == Content(Now(), i)[off..off + n]
    {
      ghost var a := Now();
      var tot := 0;
      dst := [];
      while tot < n
        invariant Now() == a && logged == old(logged) && dinodes == old(dinodes)
        invariant 0 <= tot <= n && dst == Content(a, i)[off..off + tot]
      {
        var at := off + tot;
        ByteHere(l, a, i, at);
        var b := Bmap(i, at / BSIZE);
        var m := if n - tot < BSIZE - at % BSIZE then n - tot else BSIZE - at % BSIZE;
        BlockBytes(a, i, at, m);
        dst := dst + blocks[b.value][at % BSIZE..at % BSIZE + m];
        tot := tot + m;
      }
    }

    // One turn of writei's loop; false: panic, out of blocks.
    method WriteBlock(i: nat, at: nat, bytes: seq<Byte>) returns (ok: bool)
      requires Owned(Now()) && i < |inodes| && at / BSIZE < MAXFILE && bytes != [] && at % BSIZE + |bytes| <= BSIZE
      modifies this`bitmap, this`blocks, this`logged, this`inodes, this`owner
      ensures ok <==> CanWrite(old(Now()), i, at, bytes)
      ensures !ok ==> Full(Now())
      ensures ok ==> Now() == WithBytes(old(Now()), i, at, bytes)
      ensures ok ==> logged == old(logged) + BytesLog(l, old(Now()), i, at / BSIZE)
      ensures old(logged) <= logged && Logs(l, old(blocks), old(bitmap), blocks, bitmap, logged)
    {
      ghost var a := Now();
      var b := Bmap(i, at / BSIZE);
      if b.None? {
        return false;
      }
      MappedKeeps(a, i, at / BSIZE);
      MappedAddr(a, i, at / BSIZE, 0, 0);
      StoreAddr(Now(), i, DataSlot(at / BSIZE), ZeroBlock(), 0, 0);
      blocks := blocks[b.value := Splice(blocks[b.value], at % BSIZE, bytes)];
      logged := logged + {b.value};
      return true;
    }

    ghost predicate Writing(a: Fs, log: set<nat>, i: nat, off: nat, src: seq<Byte>, t: nat)
      reads this
    {
      WrittenBy(l, a, Now(), log, logged, i, off, src, t)
    }

    method WriteStep(i: nat, off: nat, src: seq<Byte>, tot: nat, ghost a: Fs, ghost log: set<nat>)
      returns (ok: bool, next: nat)
      requires NoHoles(a) && Writing(a, log, i, off, src, tot) && tot < |src| && off + |src| <= MAXFILE * BSIZE
      modifies this`bitmap, this`blocks, this`logged, this`inodes, this`owner
      ensures !ok ==> Full(Now()) && FreeCount(a.bitmap) < Need(a.inodes[i].size, off + |src|)
      ensures ok ==> tot < next <= |src| && Writing(a, log, i, off, src, next)
    {
      var at := off + tot;
      var m := if |src| - tot < BSIZE - at % BSIZE then |src| - tot else BSIZE - at % BSIZE;
      next := tot + m;
      var bytes := src[tot..next];
      ghost var n, was := Now(), logged;
      ok := WriteBlock(i, at, bytes);
      if ok {
        WrittenNext(l, a, n, Now(), log, was, logged, i, off, src, tot, m, bytes);
      } else {
        TookAll(a, n, i, off, src, tot, m, bytes);
      }
    }

    // false: panic, if and only if the blocks do not suffice.
    method WriteLoop(i: nat, off: nat, src: seq<Byte>) returns (ok: bool)
      requires Valid() && i < |inodes| && off <= inodes[i].size && off + |src| <= MAXFILE * BSIZE
      modifies this`bitmap, this`blocks, this`logged, this`inodes, this`owner
      ensures ok <==> Need(old(inodes)[i].size, off + |src|) <= FreeCount(old(bitmap))
      ensures !ok ==> Full(Now())
      ensures ok ==> Writing(old(Now()), old(logged), i, off, src, |src|)
    {
      ghost var a, log := Now(), logged;
      var tot: nat := 0;
      WrittenNone(l, a, log, i, off, src);
      while tot < |src|
        invariant tot <= |src| && Writing(a, log, i, off, src, tot)
      {
        ok, tot := WriteStep(i, off, src, tot, a, log);
        if !ok {
          return;
        }
      }
      ok := true;
    }

    // writei's last lines: the size, and the inode on disk only if it grew.
    method WriteSize(i: nat, off: nat, src: seq<Byte>, ghost a: Fs)
      requires Owned(a) && NoHoles(a) && Clean(a) && Wrote(a, Now(), i, off, src, |src|) && dinodes == a.inodes
      modifies this`inodes, this`dinodes, this`logged
      ensures Valid() && Now() == Resized(old(Now()), i, Max(a.inodes[i].size, off + |src|))
      ensures logged == old(logged) + if off + |src| > a.inodes[i].size then {InodeBlock(l, i)} else {}
    {
      ghost var n, e := Now(), Max(a.inodes[i].size, off + |src|);
      Finish(l, a, n, i, off, src);
      if |src| > 0 && off + |src| > inodes[i].size {
        inodes := inodes[i := inodes[i].(size := off + |src|)];
        Iupdate(i);
      }
      assert Now() == Resized(n, i, e);
    }

    // writei past its tests; false: panic, out of blocks.
    method WriteBody(i: nat, off: nat, src: seq<Byte>) returns (ok: bool)
      requires Valid() && i < |inodes| && off <= inodes[i].size && off + |src| <= MAXFILE * BSIZE
      modifies this
      ensures ok <==> Need(old(inodes)[i].size, off + |src|) <= FreeCount(old(bitmap))
      ensures !ok ==> Full(Now())
      ensures ok ==> Valid() && WriteDone(l, old(Now()), Now(), i, off, src, old(logged), logged)
    {
      ghost var a, log := Now(), logged;
      ok := WriteLoop(i, off, src);
      if ok {
        ghost var n, was := Now(), logged;
        WriteSize(i, off, src, a);
        WriteFinished(l, a, n, Now(), i, off, src, log, was, logged);
      }
    }

    method Writei(i: nat, off: nat, src: seq<Byte>) returns (r: WriteResult)
      requires Valid() && i < |inodes| && off < WORD && |src| < WORD
      modifies this
      ensures r.WritePanic? ==> Full(Now())
      ensures r.WritePanic? || r.Written? ==>
                (r.WritePanic? <==> FreeCount(old(bitmap)) < Need(old(inodes[i].size), off + |src|))
      ensures !r.Written? && !r.WritePanic? ==> Now() == old(Now()) && Valid() && logged == old(logged)
      ensures r.WriteDevice? <==> old(inodes[i].kind == T_DEV && 0 <= inodes[i].major < NDEV && inodes[i].major in drivers)
      ensures old(inodes[i].kind) == T_DEV ==> r.WriteDevice? || r.WriteError?
      ensures old(inodes[i].kind) != T_DEV ==>
                (r.WriteError? <==> off > old(inodes[i].size) || off + |src| > MAXFILE * BSIZE)
      ensures r.Written? ==> r.count == |src| && Valid() && WroteFile(old(Now()), Now(), i, off, src)
      ensures r.Written? ==> Took(old(Now()), Now(), i, off + |src|)
      ensures r.Written? ==> logged == old(logged) + WriteLogs(l, old(Now()), Now(), i, off, |src|)
      ensures r.Written? && |src| <= CHUNK ==> |WriteLogs(l, old(Now()), Now(), i, off, |src|)| <= MAXOPBLOCKS
      ensures r.Written? ==> Logs(l, old(blocks), old(bitmap), blocks, bitmap, logged)
      ensures r.Written? && old(logged) == {} ==> Call(l, old(Now()), Now(), logged)
    {
      if inodes[i].kind == T_DEV {
        if inodes[i].major < 0 || inodes[i].major >= NDEV || inodes[i].major !in drivers {
          return WriteError;
        }
        return WriteDevice;
      }
      WrapsIff(off, |src|);
      if off > inodes[i].size || Wraps(off, |src|) {
        return WriteError;
      }
      if off + |src| > MAXFILE * BSIZE {
        return WriteError;
      }
      var ok := WriteBody(i, off, src);
      return if ok then Written(|src|) else WritePanic;
    }

    // begin_op, writei on one chunk, end_op; op is what the transaction logged.
    method Transaction(i: nat, off: nat, bytes: seq<Byte>) returns (w: WriteResult, op: set<nat>)
      requires Valid() && i < |inodes| && off < WORD && |bytes| <= CHUNK
      modifies this
      ensures |op| <= MAXOPBLOCKS
      ensures w.WritePanic? ==> Full(Now())
      ensures !w.WritePanic? ==> Valid()
      ensures w.WritePanic? <==> OutOfSpace(old(Now()), i, off, |bytes|)
      ensures w.Written? ==> w.count == |bytes| && Put(old(Now()), Now(), i, off, bytes)
      ensures w.Written? ==> Call(l, old(Now()), Now(), op)
      ensures w.WriteDevice? || w.WriteError? ==> Now() == old(Now())
      ensures w.WriteDevice? ==> old(inodes[i].kind) == T_DEV
      ensures w.WriteError? ==> old(inodes[i].kind) == T_DEV || !Takes(old(Now()), i, off, |bytes|)
    {
      logged := {};
      w := Writei(i, off, bytes);
      op := if w.Written? then logged else {};
    }

    // The next chunk of filewrite.
    method WriteChunk(i: nat, off: nat, src: seq<Byte>, done: nat, ghost a: Fs)
      returns (w: WriteResult, op: set<nat>, next: nat)
      requires Valid() && off < WORD && |src| < WORD && InProgress(a, Now(), i, off, src, done)
      requires done < |src| && WholeChunks(done, |src|)
      modifies this
      ensures |op| <= MAXOPBLOCKS
      ensures w.WritePanic? ==> Full(Now()) && FileOutOfSpace(a, i, off, |src|)
      ensures w.Written? ==> Valid() && done < next <= |src| && WholeChunks(next, |src|)
      ensures w.Written? ==> InProgress(a, Now(), i, off, src, next)
      ensures !w.WritePanic? && !w.Written? ==> Now() == old(Now()) && Valid()
      ensures w.WriteDevice? ==> done == 0 && a.inodes[i].kind == T_DEV
      ensures w.WriteError? && a.inodes[i].kind != T_DEV ==> done == Fits(a.inodes[i].size, off, |src|)
    {
      ghost var n := Now();
      next := NextChunk(done, |src|);
      NextWhole(done, |src|);
      var at, bytes := off + done, src[done..next];
      ProgressAt(a, n, i, off, src, done);
      w, op := Transaction(i, at, bytes);
      if w.Written? {
        ProgressNext(a, n, Now(), i, off, src, done, next, at, bytes);
      } else if w.WritePanic? {
        ProgressPanics(a, n, i, off, src, done, next, at, |bytes|);
      } else if w.WriteError? && a.inodes[i].kind != T_DEV {
        ProgressStops(a, n, i, off, src, done, next, at, |bytes|);
      }
    }

    // filewrite on an inode. done bytes are written, and ops lists what each transaction logged.
    method Filewrite(i: nat, off: nat, src: seq<Byte>) returns (res: FileResult, done: nat, ops: seq<set<nat>>)
      requires Valid() && i < |inodes| && off < WORD && |src| < WORD
      modifies this
      ensures Small(ops)
      ensures res.Panicked? <==> FileOutOfSpace(old(Now()), i, off, |src|)
      ensures res.Panicked? ==> Full(Now())
      ensures res.ToDevice? ==> old(inodes[i].kind) == T_DEV && Now() == old(Now())
      ensures res.Returned? ==> Valid() && res.r == if done == |src| then |src| else -1
      ensures res.Returned? && old(inodes[i].kind) != T_DEV ==> done == Fits(old(inodes[i].size), off, |src|)
      ensures res.Returned? ==> InProgress(old(Now()), Now(), i, off, src, done)
    {
      ghost var a := Now();
      done, ops := 0, [];
      while done < |src|
        invariant Valid() && InProgress(a, Now(), i, off, src, done) && WholeChunks(done, |src|) && Small(ops)
      {
        ghost var n := Now();
        var w, op, next := WriteChunk(i, off, src, done, a);
        ops := ops + [op];
        if w.WritePanic? {
          return Panicked, done, ops;
        }
        if w.WriteDevice? {
          return ToDevice, done, ops;
        }
        if w.WriteError? {
          ProgressEnough(a, n, i, off, src, done);
          return Returned(-1), done, ops;
        }
        done := next;
      }
      FitsAll(a, Now(), i, off, src);
      ProgressEnough(a, Now(), i, off, src, done);
      res := Returned(|src|);
    }
  }

  // A byte below the size lies in a block that is there, so bmap finds it.
  lemma ByteHere(l: Layout, a: Fs, i: nat, at: nat)
    requires Owned(a) && NoHoles(a) && i < |a.inodes| && at < a.inodes[i].size
    ensures CanMap(a, i, at / BSIZE) && Mapped(a, i, at / BSIZE) == a
    ensures 0 < Addr(a, i, DataSlot(at / BSIZE)) < |a.blocks| && MappedLog(l, a, i, at / BSIZE) == {}
  {
    assert FilledTo(a, i, a.inodes[i].size);
    assert BlockThere(a, i, a.inodes[i].size, at / BSIZE);
    assert SlotOwns(a, i, DataSlot(at / BSIZE));
    MappedThere(a, i, at / BSIZE);
  }

  lemma BlockBytes(a: Fs, i: nat, at: nat, m: nat)
    requires i < |a.inodes| && at + m <= a.inodes[i].size && at % BSIZE + m <= BSIZE
    requires 0 < Addr(a, i, DataSlot(at / BSIZE)) < |a.blocks|
    ensures a.blocks[Addr(a, i, DataSlot(at / BSIZE))][at % BSIZE..at % BSIZE + m] == Content(a, i)[at..at + m]
  {
    var here := a.blocks[Addr(a, i, DataSlot(at / BSIZE))][at % BSIZE..at % BSIZE + m];
    var there := Content(a, i)[at..at + m];
    forall x | 0 <= x < m ensures here[x] == there[x] {
      assert (at + x) / BSIZE == at / BSIZE && (at + x) % BSIZE == at % BSIZE + x;
    }
  }

  // The first k addresses of inode i are zero; nothing else differs.
  predicate Cleared(was: seq<Inode>, now: seq<Inode>, i: nat, k: nat)
    requires i < |was| && k <= NDIRECT
  {
    && |now| == |was| && now == was[i := was[i].(addrs := now[i].addrs)]
    && (forall j :: 0 <= j <= NDIRECT ==> now[i].addrs[j] == if j < k then 0 else was[i].addrs[j])
  }

  // Without an indirect block there are no entries to free.
  lemma NoIndirect(a: Fs, bitmap: seq<bool>, i: nat)
    requires Owned(a) && i < |a.inodes| && Addr(a, i, NDIRECT) == 0 && BitsFreed(a, bitmap, i, NDIRECT)
    ensures BitsFreed(a, bitmap, i, SLOTS)
  {
    forall b | 0 <= b < |bitmap| ensures BitFreed(a, bitmap, i, SLOTS, b) {
      assert BlockOwned(a, b) && BitFreed(a, bitmap, i, NDIRECT, b);
    }
  }
}
