/** bmap and one turn of writei's loop, as changes of the whole file system. */
module FileWrites {
  import opened Params
  import opened FileBlocks

  function Max(a: nat, b: nat): nat {
    if a < b then b else a
  }

  // ----- bmap

  ghost predicate CanMap(fs: Fs, i: nat, q: nat) {
    && q < MAXFILE
    && if q < NDIRECT then CanEnsure(fs, i, q)
       else CanEnsure(fs, i, NDIRECT) && CanEnsure(Ensured(fs, i, NDIRECT), i, q + 1)
  }

  // Data block q of file i is there, after allocating it and the indirect block if need be.
  ghost function Mapped(fs: Fs, i: nat, q: nat): Fs
    requires CanMap(fs, i, q)
  {
    if q < NDIRECT then Ensured(fs, i, q) else Ensured(Ensured(fs, i, NDIRECT), i, q + 1)
  }

  lemma MappedAddr(fs: Fs, i: nat, q: nat, j: nat, k: nat)
    requires CanMap(fs, i, q)
    ensures Addr(Mapped(fs, i, q), i, DataSlot(q)) != 0
    ensures Addr(fs, j, k) != 0 ==> Addr(Mapped(fs, i, q), j, k) == Addr(fs, j, k)
    ensures !(j == i && (k == DataSlot(q) || (q >= NDIRECT && k == NDIRECT))) ==>
              Addr(Mapped(fs, i, q), j, k) == Addr(fs, j, k)
    ensures q >= NDIRECT ==> Addr(Mapped(fs, i, q), i, NDIRECT) != 0
  {
    if q < NDIRECT {
      EnsuredAddr(fs, i, q, j, k);
    } else {
      var n := Ensured(fs, i, NDIRECT);
      EnsuredAddr(fs, i, NDIRECT, j, k);
      EnsuredAddr(n, i, q + 1, j, k);
      EnsuredAddr(n, i, q + 1, i, NDIRECT);
    }
  }

  lemma MappedKeeps(fs: Fs, i: nat, q: nat)
    requires CanMap(fs, i, q)
    ensures Owned(Mapped(fs, i, q)) && SameFiles(fs, Mapped(fs, i, q), i)
  {
    if q < NDIRECT {
      EnsuredKeeps(fs, i, q);
    } else {
      EnsuredKeeps(fs, i, NDIRECT);
      EnsuredKeeps(Ensured(fs, i, NDIRECT), i, q + 1);
    }
  }

  lemma MappedByte(fs: Fs, i: nat, q: nat, j: nat, p: nat)
    requires CanMap(fs, i, q)
    ensures ByteAt(Mapped(fs, i, q), j, p) == ByteAt(fs, j, p)
  {
    if q < NDIRECT {
      EnsuredByte(fs, i, q, j, p);
    } else {
      EnsuredByte(fs, i, NDIRECT, j, p);
      EnsuredByte(Ensured(fs, i, NDIRECT), i, q + 1, j, p);
    }
  }

  // Where the block is there, bmap changes nothing.
  lemma MappedThere(fs: Fs, i: nat, q: nat)
    requires Owned(fs) && i < |fs.inodes| && q < MAXFILE && Addr(fs, i, DataSlot(q)) != 0
    ensures CanMap(fs, i, q) && Mapped(fs, i, q) == fs
  {
  }

  // The same files: everything but the addresses of file i.
  ghost predicate SameFiles(fs: Fs, n: Fs, i: nat) {
    && |n.inodes| == |fs.inodes| && n.meta == fs.meta && |n.bitmap| == |fs.bitmap|
    && (forall j :: 0 <= j < |fs.inodes| && j != i ==> n.inodes[j] == fs.inodes[j])
    && (i < |fs.inodes| ==> n.inodes[i] == fs.inodes[i].(addrs := n.inodes[i].addrs))
  }

  // A file filled to e, written at off <= e, is filled to the end of the write in that block.
  lemma MappedFills(fs: Fs, i: nat, e: nat, off: nat, end: nat)
    requires CanMap(fs, i, off / BSIZE) && FilledTo(fs, i, e)
    requires off <= e && off < end <= (off / BSIZE + 1) * BSIZE
    ensures FilledTo(Mapped(fs, i, off / BSIZE), i, Max(e, end))
  {
    var q, n, e2 := off / BSIZE, Mapped(fs, i, off / BSIZE), Max(e, end);
    MappedAddr(fs, i, q, i, NDIRECT);
    assert BlockThere(fs, i, e, q);
    forall b ensures BlockThere(n, i, e2, b) {
      assert BlockThere(fs, i, e, b);
      MappedAddr(fs, i, q, i, DataSlot(b));
      DataSlotOne(b, q);
    }
  }

  // ----- One turn of writei: bytes, within one block, at off

  function Splice(blk: Block, at: nat, bytes: seq<Byte>): Block
    requires at + |bytes| <= BSIZE
  {
    blk[..at] + bytes + blk[at + |bytes|..]
  }

  ghost predicate CanWrite(fs: Fs, i: nat, off: nat, bytes: seq<Byte>) {
    bytes != [] && off % BSIZE + |bytes| <= BSIZE && CanMap(fs, i, off / BSIZE)
  }

  ghost function WithBytes(fs: Fs, i: nat, off: nat, bytes: seq<Byte>): Fs
    requires CanWrite(fs, i, off, bytes)
  {
    var n := Mapped(fs, i, off / BSIZE);
    MappedKeeps(fs, i, off / BSIZE);
    MappedAddr(fs, i, off / BSIZE, 0, 0);
    var a := Addr(n, i, DataSlot(off / BSIZE));
    StoreAddr(n, i, DataSlot(off / BSIZE), ZeroBlock(), 0, 0);
    Store(n, a, Splice(n.blocks[a], off % BSIZE, bytes))
  }

  lemma WithBytesKeeps(fs: Fs, i: nat, off: nat, bytes: seq<Byte>)
    requires CanWrite(fs, i, off, bytes)
    ensures Owned(WithBytes(fs, i, off, bytes)) && SameFiles(fs, WithBytes(fs, i, off, bytes), i)
  {
    var q := off / BSIZE;
    var n := Mapped(fs, i, q);
    MappedKeeps(fs, i, q);
    MappedAddr(fs, i, q, 0, 0);
    DataSlotOne(q, q);
    StoreAddr(n, i, DataSlot(q), ZeroBlock(), 0, 0);
    StoreKeeps(n, i, DataSlot(q), Splice(n.blocks[Addr(n, i, DataSlot(q))], off % BSIZE, bytes));
  }

  lemma WithBytesAddr(fs: Fs, i: nat, off: nat, bytes: seq<Byte>, j: nat, k: nat)
    requires CanWrite(fs, i, off, bytes)
    ensures Addr(WithBytes(fs, i, off, bytes), j, k) == Addr(Mapped(fs, i, off / BSIZE), j, k)
  {
    var q := off / BSIZE;
    var n := Mapped(fs, i, q);
    MappedKeeps(fs, i, q);
    MappedAddr(fs, i, q, 0, 0);
    DataSlotOne(q, q);
    StoreAddr(n, i, DataSlot(q), ZeroBlock(), 0, 0);
    StoreAddr(n, i, DataSlot(q), Splice(n.blocks[Addr(n, i, DataSlot(q))], off % BSIZE, bytes), j, k);
  }

  // Only the bytes written differ: in a new block the others are zero, as they were without it.
  lemma WithBytesByte(fs: Fs, i: nat, off: nat, bytes: seq<Byte>, j: nat, p: nat)
    requires CanWrite(fs, i, off, bytes)
    ensures ByteAt(WithBytes(fs, i, off, bytes), j, p)
            == if j == i && off <= p < off + |bytes| then bytes[p - off] else ByteAt(fs, j, p)
  {
    var q := off / BSIZE;
    var n := Mapped(fs, i, q);
    MappedKeeps(fs, i, q);
    MappedAddr(fs, i, q, 0, 0);
    DataSlotOne(q, q);
    StoreAddr(n, i, DataSlot(q), ZeroBlock(), 0, 0);
    var a := Addr(n, i, DataSlot(q));
    StoreByte(n, i, q, Splice(n.blocks[a], off % BSIZE, bytes), j, p);
    if !(j == i && off <= p < off + |bytes|) {
      MappedByte(fs, i, q, j, p);
    }
  }

  // ----- The loop of writei: t bytes of src are in place

  ghost predicate NoHoles(fs: Fs) {
    forall j :: 0 <= j < |fs.inodes| ==> FilledTo(fs, j, fs.inodes[j].size)
  }

  // Past its end a file's last block holds zeros.
  ghost predicate Clean(fs: Fs) {
    forall j: nat, p: nat :: j < |fs.inodes| && p >= fs.inodes[j].size ==> ByteAt(fs, j, p) == 0
  }

  // Addresses only appear, and only in file i.
  predicate OtherAddr(a: Fs, n: Fs, i: nat, j: nat, k: nat) {
    j != i || Addr(a, j, k) != 0 ==> Addr(n, j, k) == Addr(a, j, k)
  }

  predicate ByteWrote(a: Fs, n: Fs, i: nat, off: nat, src: seq<Byte>, t: nat, j: nat, p: nat)
    requires t <= |src|
  {
    j < |a.inodes| ==>
      ByteAt(n, j, p) == if j == i && off <= p < off + t then src[p - off] else ByteAt(a, j, p)
  }

  // Until the write passes the end of the file, no inode and no bitmap bit changes.
  ghost predicate InPlace(a: Fs, n: Fs, i: nat, end: nat)
    requires i < |a.inodes|
  {
    end <= a.inodes[i].size ==> n.inodes == a.inodes && n.bitmap == a.bitmap
  }

  ghost predicate Wrote(a: Fs, n: Fs, i: nat, off: nat, src: seq<Byte>, t: nat) {
    && i < |a.inodes| && t <= |src| && off <= a.inodes[i].size
    && Owned(n) && SameFiles(a, n, i) && InPlace(a, n, i, off + t)
    && FilledTo(n, i, Max(a.inodes[i].size, off + t))
    && (forall j, k :: OtherAddr(a, n, i, j, k))
    && (forall j, p :: ByteWrote(a, n, i, off, src, t, j, p))
    && (forall b :: 0 <= b < |a.bitmap| && a.bitmap[b] ==> n.bitmap[b])
  }

  lemma WroteNone(a: Fs, i: nat, off: nat, src: seq<Byte>)
    requires Owned(a) && NoHoles(a) && i < |a.inodes| && off <= a.inodes[i].size
    ensures Wrote(a, a, i, off, src, 0)
  {
  }

  lemma WroteNextByte(a: Fs, n: Fs, i: nat, off: nat, src: seq<Byte>, t: nat, m: nat, bytes: seq<Byte>, j: nat, p: nat)
    requires NoHoles(a) && Wrote(a, n, i, off, src, t) && t + m <= |src| && bytes == src[t..t + m]
    requires CanWrite(n, i, off + t, bytes) && j < |a.inodes|
    ensures ByteWrote(a, WithBytes(n, i, off + t, bytes), i, off, src, t + m, j, p)
  {
    assert ByteWrote(a, n, i, off, src, t, j, p);
    WithBytesByte(n, i, off + t, bytes, j, p);
  }

  lemma WroteNextFills(a: Fs, n: Fs, i: nat, off: nat, src: seq<Byte>, t: nat, m: nat, bytes: seq<Byte>)
    requires Wrote(a, n, i, off, src, t) && t + m <= |src| && m == |bytes| && CanWrite(n, i, off + t, bytes)
    ensures FilledTo(WithBytes(n, i, off + t, bytes), i, Max(a.inodes[i].size, off + t + m))
  {
    var at, e := off + t, Max(a.inodes[i].size, off + t);
    var b, r := Mapped(n, i, at / BSIZE), WithBytes(n, i, at, bytes);
    MappedFills(n, i, e, at, at + m);
    var e2 := Max(e, at + m);
    forall x ensures BlockThere(r, i, e2, x) {
      assert BlockThere(b, i, e2, x);
      WithBytesAddr(n, i, at, bytes, i, DataSlot(x));
    }
    WithBytesAddr(n, i, at, bytes, i, NDIRECT);
  }

  lemma WroteNextInPlace(a: Fs, n: Fs, i: nat, off: nat, src: seq<Byte>, t: nat, m: nat, bytes: seq<Byte>)
    requires Wrote(a, n, i, off, src, t) && t + m <= |src| && m == |bytes| && CanWrite(n, i, off + t, bytes)
    ensures InPlace(a, WithBytes(n, i, off + t, bytes), i, off + t + m)
  {
    var q := (off + t) / BSIZE;
    if off + t + m <= a.inodes[i].size {
      assert BlockThere(n, i, Max(a.inodes[i].size, off + t), q);
      MappedThere(n, i, q);
    }
  }

  lemma BitsStay(fs: Fs, i: nat, q: nat, b: nat)
    requires CanMap(fs, i, q) && b < |fs.bitmap| && fs.bitmap[b]
    ensures b < |Mapped(fs, i, q).bitmap| && Mapped(fs, i, q).bitmap[b]
  {
  }

  lemma WroteNextFrame(a: Fs, n: Fs, i: nat, off: nat, src: seq<Byte>, t: nat, bytes: seq<Byte>)
    requires Wrote(a, n, i, off, src, t) && CanWrite(n, i, off + t, bytes)
    ensures var r := WithBytes(n, i, off + t, bytes);
            && Owned(r) && SameFiles(a, r, i)
            && (forall j, k :: OtherAddr(a, r, i, j, k))
            && (forall b :: 0 <= b < |a.bitmap| && a.bitmap[b] ==> r.bitmap[b])
  {
    var at, r := off + t, WithBytes(n, i, off + t, bytes);
    WithBytesKeeps(n, i, at, bytes);
    forall j, k ensures OtherAddr(a, r, i, j, k) {
      assert OtherAddr(a, n, i, j, k);
      WithBytesAddr(n, i, at, bytes, j, k);
      MappedAddr(n, i, at / BSIZE, j, k);
    }
    forall b | 0 <= b < |a.bitmap| && a.bitmap[b] ensures r.bitmap[b] {
      BitsStay(n, i, at / BSIZE, b);
    }
  }

  lemma WroteNext(a: Fs, n: Fs, i: nat, off: nat, src: seq<Byte>, t: nat, m: nat, bytes: seq<Byte>)
    requires NoHoles(a) && Wrote(a, n, i, off, src, t) && t + m <= |src| && bytes == src[t..t + m]
    requires CanWrite(n, i, off + t, bytes)
    ensures Wrote(a, WithBytes(n, i, off + t, bytes), i, off, src, t + m)
  {
    var r, u := WithBytes(n, i, off + t, bytes), t + m;
    WroteNextFrame(a, n, i, off, src, t, bytes);
    WroteNextFills(a, n, i, off, src, t, m, bytes);
    WroteNextInPlace(a, n, i, off, src, t, m, bytes);
    forall j: nat, p: nat ensures ByteWrote(a, r, i, off, src, u, j, p) {
      if j < |a.inodes| {
        WroteNextByte(a, n, i, off, src, t, m, bytes, j, p);
      }
    }
  }

  // ----- The end of writei

  function Replaced(s: seq<Byte>, off: nat, src: seq<Byte>): seq<Byte>
    requires off <= |s|
  {
    s[..off] + src + if off + |src| < |s| then s[off + |src|..] else []
  }

  function Resized(fs: Fs, i: nat, size: nat): Fs
    requires i < |fs.inodes|
  {
    fs.(inodes := fs.inodes[i := fs.inodes[i].(size := size)])
  }

  lemma ResizedSame(fs: Fs, i: nat, size: nat, j: nat, k: nat)
    requires i < |fs.inodes|
    ensures Addr(Resized(fs, i, size), j, k) == Addr(fs, j, k)
  {
  }

  lemma ResizedKeeps(fs: Fs, i: nat, size: nat)
    requires Owned(fs) && i < |fs.inodes|
    ensures Owned(Resized(fs, i, size))
  {
    var n := Resized(fs, i, size);
    forall j, k ensures SlotOwns(n, j, k) {
      ResizedSame(fs, i, size, j, k);
      assert SlotOwns(fs, j, k);
    }
    forall b | 0 <= b < |n.bitmap| ensures BlockOwned(n, b) {
      assert BlockOwned(fs, b);
      if fs.owner[b].Some? {
        ResizedSame(fs, i, size, fs.owner[b].value.inum, fs.owner[b].value.k);
      }
    }
  }

  lemma SameFill(a: Fs, n: Fs, j: nat, e: nat)
    requires FilledTo(a, j, e) && forall k :: Addr(n, j, k) == Addr(a, j, k)
    ensures FilledTo(n, j, e)
  {
    forall x ensures BlockThere(n, j, e, x) {
      assert BlockThere(a, j, e, x);
      assert Addr(n, j, DataSlot(x)) == Addr(a, j, DataSlot(x));
    }
    assert Addr(n, j, NDIRECT) == Addr(a, j, NDIRECT);
  }

  lemma WroteNoHoles(a: Fs, n: Fs, i: nat, off: nat, src: seq<Byte>)
    requires NoHoles(a) && Wrote(a, n, i, off, src, |src|)
    ensures NoHoles(Resized(n, i, Max(a.inodes[i].size, off + |src|)))
  {
    var e := Max(a.inodes[i].size, off + |src|);
    var r := Resized(n, i, e);
    forall j | 0 <= j < |r.inodes| ensures FilledTo(r, j, r.inodes[j].size) {
      forall k ensures Addr(r, j, k) == Addr(n, j, k) {
        ResizedSame(n, i, e, j, k);
      }
      if j != i {
        assert FilledTo(a, j, a.inodes[j].size);
        forall k ensures Addr(n, j, k) == Addr(a, j, k) {
          assert OtherAddr(a, n, i, j, k);
        }
        SameFill(a, n, j, a.inodes[j].size);
      }
      SameFill(n, r, j, r.inodes[j].size);
    }
  }

  lemma WroteByte(a: Fs, n: Fs, i: nat, off: nat, src: seq<Byte>, e: nat, j: nat, p: nat)
    requires Wrote(a, n, i, off, src, |src|) && j < |a.inodes| && e == Max(a.inodes[i].size, off + |src|)
    ensures ByteAt(Resized(n, i, e), j, p)
            == if j == i && off <= p < off + |src| then src[p - off] else ByteAt(a, j, p)
  {
    ResizedSame(n, i, e, j, DataSlot(p / BSIZE));
    assert ByteWrote(a, n, i, off, src, |src|, j, p);
  }

  // The file reads as before with src put in at off; every other file reads as before.
  lemma WroteContent(a: Fs, n: Fs, i: nat, off: nat, src: seq<Byte>)
    requires Wrote(a, n, i, off, src, |src|)
    ensures Content(Resized(n, i, Max(a.inodes[i].size, off + |src|)), i) == Replaced(Content(a, i), off, src)
  {
    var e := Max(a.inodes[i].size, off + |src|);
    var now, was := Content(Resized(n, i, e), i), Replaced(Content(a, i), off, src);
    assert |now| == |was|;
    forall p | 0 <= p < |now| ensures now[p] == was[p] {
      WroteByte(a, n, i, off, src, e, i, p);
    }
  }

  lemma WroteOthers(a: Fs, n: Fs, i: nat, off: nat, src: seq<Byte>, j: nat)
    requires Wrote(a, n, i, off, src, |src|) && j < |a.inodes| && j != i
    ensures Content(Resized(n, i, Max(a.inodes[i].size, off + |src|)), j) == Content(a, j)
  {
    var e := Max(a.inodes[i].size, off + |src|);
    var now, was := Content(Resized(n, i, e), j), Content(a, j);
    assert |now| == |was|;
    forall p | 0 <= p < |now| ensures now[p] == was[p] {
      WroteByte(a, n, i, off, src, e, j, p);
    }
  }

  // What lies past the end of a file stays zero, so no old data shows when it grows.
  lemma WroteClean(a: Fs, n: Fs, i: nat, off: nat, src: seq<Byte>)
    requires Clean(a) && Wrote(a, n, i, off, src, |src|)
    ensures Clean(Resized(n, i, Max(a.inodes[i].size, off + |src|)))
  {
    var e := Max(a.inodes[i].size, off + |src|);
    var r := Resized(n, i, e);
    forall j: nat, p: nat | j < |r.inodes| && p >= r.inodes[j].size ensures ByteAt(r, j, p) == 0 {
      WroteByte(a, n, i, off, src, e, j, p);
    }
  }
}
