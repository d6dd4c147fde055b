/** Which blocks a writei passes to log_write, and how many: the size of a transaction. */
module WriteLog {
  import opened Params
  import opened FileBlocks
  import opened FileWrites

  const BPB: nat := 4096       // bitmap bits per block
  const IPB: nat := 8          // inodes per block

  // Where the bitmap and the inodes are on disk.
  datatype Layout = Layout(bmapstart: nat, inodestart: nat)

  function BitmapBlock(l: Layout, b: nat): nat {
    b / BPB + l.bmapstart
  }

  function InodeBlock(l: Layout, i: nat): nat {
    i / IPB + l.inodestart
  }

  // ----- What bmap and one turn of the loop log

  ghost function EnsuredLog(l: Layout, fs: Fs, i: nat, k: nat): set<nat>
    requires CanEnsure(fs, i, k)
  {
    if Addr(fs, i, k) != 0 then {}
    else
      var b := FirstFree(fs.bitmap, 0);
      {BitmapBlock(l, b), b} + if k > NDIRECT then {Addr(fs, i, NDIRECT)} else {}
  }

  ghost function MappedLog(l: Layout, fs: Fs, i: nat, q: nat): set<nat>
    requires CanMap(fs, i, q)
  {
    if q < NDIRECT then EnsuredLog(l, fs, i, q)
    else EnsuredLog(l, fs, i, NDIRECT) + EnsuredLog(l, Ensured(fs, i, NDIRECT), i, q + 1)
  }

  ghost function BytesLog(l: Layout, fs: Fs, i: nat, q: nat): set<nat>
    requires CanMap(fs, i, q)
  {
    MappedLog(l, fs, i, q) + {Addr(Mapped(fs, i, q), i, DataSlot(q))}
  }

  // ----- What the whole loop logs, from a to n, t bytes at off

  predicate Touched(off: nat, t: nat, q: nat) {
    t > 0 && off / BSIZE <= q && q * BSIZE < off + t
  }

  // Blocks that the first x bytes of a file reach.
  function Reach(x: nat): nat {
    (x + BSIZE - 1) / BSIZE
  }

  function DataLog(n: Fs, i: nat, off: nat, t: nat): set<nat> {
    set q: nat | q < MAXFILE && Touched(off, t, q) :: Addr(n, i, DataSlot(q))
  }

  predicate New(a: Fs, n: Fs, b: nat) {
    b < |n.bitmap| && n.bitmap[b] && b < |a.bitmap| && !a.bitmap[b]
  }

  function BitmapLog(l: Layout, a: Fs, n: Fs): set<nat> {
    set b: nat | b < |n.bitmap| && New(a, n, b) :: BitmapBlock(l, b)
  }

  // A block past the direct ones was added: its address went into the indirect block.
  predicate IndirectGrew(size: nat, end: nat) {
    Reach(end) > Reach(size) && Reach(end) > NDIRECT
  }

  function IndirectLog(a: Fs, n: Fs, i: nat, end: nat): set<nat>
    requires i < |a.inodes|
  {
    if IndirectGrew(a.inodes[i].size, end) then {Addr(n, i, NDIRECT)} else {}
  }

  function LoopLog(l: Layout, a: Fs, n: Fs, i: nat, off: nat, t: nat): set<nat>
    requires i < |a.inodes|
  {
    DataLog(n, i, off, t) + BitmapLog(l, a, n) + IndirectLog(a, n, i, off + t)
  }

  lemma LoopLogNone(l: Layout, a: Fs, i: nat, off: nat)
    requires i < |a.inodes| && off <= a.inodes[i].size
    ensures LoopLog(l, a, a, i, off, 0) == {}
  {
  }

  lemma TouchedNext(off: nat, t: nat, m: nat, q: nat)
    requires m > 0 && (off + t) % BSIZE + m <= BSIZE
    ensures Touched(off, t + m, q) <==> Touched(off, t, q) || q == (off + t) / BSIZE
  {
  }

  lemma TouchedAddr(a: Fs, n: Fs, i: nat, off: nat, src: seq<Byte>, t: nat, bytes: seq<Byte>, x: nat)
    requires Wrote(a, n, i, off, src, t) && CanWrite(n, i, off + t, bytes) && x < MAXFILE
    ensures var q, r := (off + t) / BSIZE, WithBytes(n, i, off + t, bytes);
            && (Touched(off, t, x) ==> Addr(r, i, DataSlot(x)) == Addr(n, i, DataSlot(x)))
            && (x == q ==> Addr(r, i, DataSlot(x)) == Addr(Mapped(n, i, q), i, DataSlot(q)))
  {
    var q := (off + t) / BSIZE;
    WithBytesAddr(n, i, off + t, bytes, i, DataSlot(x));
    MappedAddr(n, i, q, i, DataSlot(x));
    assert BlockThere(n, i, Max(a.inodes[i].size, off + t), x);
  }

  lemma DataLogNext(a: Fs, n: Fs, i: nat, off: nat, src: seq<Byte>, t: nat, m: nat, bytes: seq<Byte>)
    requires Wrote(a, n, i, off, src, t) && t + m <= |src| && m == |bytes| && CanWrite(n, i, off + t, bytes)
    ensures var q, r := (off + t) / BSIZE, WithBytes(n, i, off + t, bytes);
            DataLog(r, i, off, t + m) == DataLog(n, i, off, t) + {Addr(Mapped(n, i, q), i, DataSlot(q))}
  {
    var q, r, u := (off + t) / BSIZE, WithBytes(n, i, off + t, bytes), t + m;
    var d, d2, z := DataLog(n, i, off, t), DataLog(r, i, off, u), Addr(Mapped(n, i, q), i, DataSlot(q));
    forall y | y in d2 ensures y in d + {z} {
      var x: nat :| x < MAXFILE && Touched(off, u, x) && y == Addr(r, i, DataSlot(x));
      TouchedNext(off, t, m, x);
      TouchedAddr(a, n, i, off, src, t, bytes, x);
    }
    forall y | y in d ensures y in d2 {
      var x: nat :| x < MAXFILE && Touched(off, t, x) && y == Addr(n, i, DataSlot(x));
      TouchedNext(off, t, m, x);
      TouchedAddr(a, n, i, off, src, t, bytes, x);
    }
    TouchedNext(off, t, m, q);
    TouchedAddr(a, n, i, off, src, t, bytes, q);
    assert Touched(off, u, q) && z == Addr(r, i, DataSlot(q));
  }

  ghost predicate Grows(a: Fs, n: Fs) {
    |a.bitmap| == |n.bitmap| && forall b :: 0 <= b < |a.bitmap| && a.bitmap[b] ==> n.bitmap[b]
  }

  lemma BitmapLogNext(l: Layout, a: Fs, fs: Fs, i: nat, k: nat)
    requires CanEnsure(fs, i, k) && Grows(a, fs)
    ensures Grows(a, Ensured(fs, i, k))
    ensures BitmapLog(l, a, Ensured(fs, i, k)) == BitmapLog(l, a, fs)
            + if Addr(fs, i, k) != 0 then {} else {BitmapBlock(l, FirstFree(fs.bitmap, 0))}
  {
  }

  // The bitmap blocks of a bmap, and what else it logs.
  ghost function MappedBits(l: Layout, fs: Fs, i: nat, q: nat): set<nat>
    requires CanMap(fs, i, q)
  {
    (if q >= NDIRECT && Addr(fs, i, NDIRECT) == 0 then {BitmapBlock(l, FirstFree(fs.bitmap, 0))} else {})
    + if Addr(fs, i, DataSlot(q)) != 0 then {}
      else if q < NDIRECT then {BitmapBlock(l, FirstFree(fs.bitmap, 0))}
      else {BitmapBlock(l, FirstFree(Ensured(fs, i, NDIRECT).bitmap, 0))}
  }

  lemma MappedBitmapLog(l: Layout, a: Fs, fs: Fs, i: nat, q: nat)
    requires CanMap(fs, i, q) && Grows(a, fs)
    ensures BitmapLog(l, a, Mapped(fs, i, q)) == BitmapLog(l, a, fs) + MappedBits(l, fs, i, q)
  {
    if q < NDIRECT {
      BitmapLogNext(l, a, fs, i, q);
    } else {
      BitmapLogNext(l, a, fs, i, NDIRECT);
      EnsuredAddr(fs, i, NDIRECT, i, q + 1);
      BitmapLogNext(l, a, Ensured(fs, i, NDIRECT), i, q + 1);
    }
  }

  lemma AddedBlock(fs: Fs, i: nat, k: nat)
    requires CanEnsure(fs, i, k) && Addr(fs, i, k) == 0
    ensures Addr(Ensured(fs, i, k), i, k) == FirstFree(fs.bitmap, 0)
  {
    FreeFound(fs, i, k);
    AssignAddr(fs, i, k, FirstFree(fs.bitmap, 0), i, k);
  }

  // When bmap adds a data block, it logs that block, its bitmap block and, past the direct
  // blocks, the indirect block.
  lemma MappedLogDirect(l: Layout, fs: Fs, i: nat, q: nat)
    requires CanMap(fs, i, q) && q < NDIRECT
    ensures BytesLog(l, fs, i, q) == MappedBits(l, fs, i, q) + {Addr(Mapped(fs, i, q), i, DataSlot(q))}
  {
  }

  lemma MappedLogIndirect(l: Layout, fs: Fs, i: nat, q: nat)
    requires CanMap(fs, i, q) && q >= NDIRECT
    requires Addr(fs, i, NDIRECT) == 0 ==> Addr(fs, i, DataSlot(q)) == 0
    ensures var n := Mapped(fs, i, q);
            BytesLog(l, fs, i, q) == MappedBits(l, fs, i, q) + {Addr(n, i, DataSlot(q))}
              + if Addr(fs, i, DataSlot(q)) == 0 then {Addr(n, i, NDIRECT)} else {}
  {
    var b := Ensured(fs, i, NDIRECT);
    EnsuredAddr(fs, i, NDIRECT, i, q + 1);
    EnsuredAddr(b, i, q + 1, i, NDIRECT);
    if Addr(fs, i, NDIRECT) == 0 {
      AddedBlock(fs, i, NDIRECT);
    }
    if Addr(b, i, q + 1) == 0 {
      AddedBlock(b, i, q + 1);
    }
  }

  // Whether the indirect block has been written by the end of this turn.
  lemma IndirectNext(size: nat, off: nat, t: nat, m: nat)
    requires m > 0 && (off + t) % BSIZE + m <= BSIZE && off <= size
    ensures var q := (off + t) / BSIZE;
            var isNew := q * BSIZE >= Max(size, off + t);
            && (isNew ==> (IndirectGrew(size, off + t + m) <==> q >= NDIRECT))
            && (!isNew ==> (IndirectGrew(size, off + t + m) <==> IndirectGrew(size, off + t)))
            && (IndirectGrew(size, off + t) ==> NDIRECT * BSIZE < Max(size, off + t))
  {
  }

  lemma IndirectLogNext(a: Fs, n: Fs, i: nat, off: nat, src: seq<Byte>, t: nat, m: nat, bytes: seq<Byte>)
    requires Wrote(a, n, i, off, src, t) && t + m <= |src| && m == |bytes| && CanWrite(n, i, off + t, bytes)
    ensures var q, r := (off + t) / BSIZE, WithBytes(n, i, off + t, bytes);
            IndirectLog(a, r, i, off + t + m) == IndirectLog(a, n, i, off + t)
              + if Addr(n, i, DataSlot(q)) == 0 && q >= NDIRECT then {Addr(Mapped(n, i, q), i, NDIRECT)} else {}
  {
    var q := (off + t) / BSIZE;
    assert BlockThere(n, i, Max(a.inodes[i].size, off + t), q);
    IndirectNext(a.inodes[i].size, off, t, m);
    MappedAddr(n, i, q, i, NDIRECT);
    WithBytesAddr(n, i, off + t, bytes, i, NDIRECT);
  }

  lemma Rejoin(d: set<nat>, b: set<nat>, i: set<nat>, x: set<nat>, bits: set<nat>, ind: set<nat>)
    ensures (d + x) + (b + bits) + (i + ind) == (d + b + i) + (bits + x + ind)
  {
  }

  lemma LoopLogNext(l: Layout, a: Fs, n: Fs, i: nat, off: nat, src: seq<Byte>, t: nat, m: nat, bytes: seq<Byte>)
    requires Wrote(a, n, i, off, src, t) && t + m <= |src| && m == |bytes| && CanWrite(n, i, off + t, bytes)
    ensures LoopLog(l, a, WithBytes(n, i, off + t, bytes), i, off, t + m)
            == LoopLog(l, a, n, i, off, t) + BytesLog(l, n, i, (off + t) / BSIZE)
  {
    var q, r := (off + t) / BSIZE, WithBytes(n, i, off + t, bytes);
    var b := Mapped(n, i, q);
    var x, bits := {Addr(b, i, DataSlot(q))}, MappedBits(l, n, i, q);
    var ind := if Addr(n, i, DataSlot(q)) == 0 && q >= NDIRECT then {Addr(b, i, NDIRECT)} else {};
    assert DataLog(r, i, off, t + m) == DataLog(n, i, off, t) + x by {
      DataLogNext(a, n, i, off, src, t, m, bytes);
    }
    assert BitmapLog(l, a, r) == BitmapLog(l, a, n) + bits by {
      MappedBitmapLog(l, a, n, i, q);
      assert BitmapLog(l, a, r) == BitmapLog(l, a, b);
    }
    assert IndirectLog(a, r, i, off + t + m) == IndirectLog(a, n, i, off + t) + ind by {
      IndirectLogNext(a, n, i, off, src, t, m, bytes);
    }
    assert BytesLog(l, n, i, q) == bits + x + ind by {
      if q < NDIRECT {
        MappedLogDirect(l, n, i, q);
      } else {
        MappedLogIndirect(l, n, i, q);
      }
    }
    Rejoin(DataLog(n, i, off, t), BitmapLog(l, a, n), IndirectLog(a, n, i, off + t), x, bits, ind);
  }

  // ----- How many blocks that is

  ghost function Image(f: nat -> nat, lo: nat, hi: nat): set<nat> {
    set q: nat | lo <= q < hi :: f(q)
  }

  lemma {:induction false} ImageBound(f: nat -> nat, lo: nat, hi: nat)
    ensures |Image(f, lo, hi)| <= if lo <= hi then hi - lo else 0
    decreases hi
  {
    if lo < hi {
      ImageBound(f, lo, hi - 1);
      assert Image(f, lo, hi) == Image(f, lo, hi - 1) + {f(hi - 1)};
    } else {
      assert Image(f, lo, hi) == {};
    }
  }

  lemma ReachOf(x: nat, q: nat)
    ensures q * BSIZE < x <==> q < Reach(x)
  {
  }

  lemma DataLogBound(n: Fs, i: nat, off: nat, t: nat)
    requires t > 0
    ensures |DataLog(n, i, off, t)| <= Reach(off + t) - off / BSIZE
  {
    var f: nat -> nat := q => Addr(n, i, DataSlot(q));
    ImageBound(f, off / BSIZE, Reach(off + t));
    forall x | x in DataLog(n, i, off, t) ensures x in Image(f, off / BSIZE, Reach(off + t)) {
      var q: nat :| q < MAXFILE && Touched(off, t, q) && x == Addr(n, i, DataSlot(q));
      ReachOf(off + t, q);
      assert f(q) == x;
    }
    SubsetSize(DataLog(n, i, off, t), Image(f, off / BSIZE, Reach(off + t)));
  }

  lemma {:induction false} SubsetSize(a: set<nat>, b: set<nat>)
    requires a <= b
    ensures |a| <= |b|
    decreases a
  {
    if a != {} {
      var x :| x in a;
      SubsetSize(a - {x}, b - {x});
    }
  }

  // The indirect block is new.
  predicate NewIndirect(size: nat, end: nat) {
    size <= NDIRECT * BSIZE < end
  }

  // A block marked since a belongs to a slot of file i that was empty in a.
  lemma NewBlock(a: Fs, n: Fs, i: nat, off: nat, src: seq<Byte>, b: nat)
    requires Owned(a) && NoHoles(a) && Wrote(a, n, i, off, src, |src|) && New(a, n, b)
    ensures var size, end, o := a.inodes[i].size, off + |src|, n.owner[b];
            && o.Some? && o.value.inum == i && Addr(n, i, o.value.k) == b
            && if o.value.k == NDIRECT then NewIndirect(size, end)
               else var q := if o.value.k < NDIRECT then o.value.k else o.value.k - 1;
                    o.value.k == DataSlot(q) && Reach(size) <= q < Reach(end)
  {
    assert BlockOwned(a, b) && BlockOwned(n, b);
    var s := n.owner[b].value;
    assert OtherAddr(a, n, i, s.inum, s.k) && SlotOwns(a, s.inum, s.k);
    assert FilledTo(a, i, a.inodes[i].size);
    if s.k != NDIRECT {
      var q := if s.k < NDIRECT then s.k else s.k - 1;
      assert BlockThere(a, i, a.inodes[i].size, q) && BlockThere(n, i, Max(a.inodes[i].size, off + |src|), q);
      ReachOf(a.inodes[i].size, q);
      ReachOf(off + |src|, q);
    }
  }

  function SlotBit(l: Layout, n: Fs, i: nat): nat -> nat {
    q => BitmapBlock(l, Addr(n, i, DataSlot(q)))
  }

  // The bitmap blocks of the slots that a write fills.
  ghost function SlotBits(l: Layout, n: Fs, i: nat, size: nat, end: nat): set<nat> {
    Image(SlotBit(l, n, i), Reach(size), Reach(end))
    + if NewIndirect(size, end) then {BitmapBlock(l, Addr(n, i, NDIRECT))} else {}
  }

  lemma NewBlockBits(l: Layout, a: Fs, n: Fs, i: nat, off: nat, src: seq<Byte>, b: nat)
    requires Owned(a) && NoHoles(a) && Wrote(a, n, i, off, src, |src|) && New(a, n, b)
    ensures BitmapBlock(l, b) in SlotBits(l, n, i, a.inodes[i].size, off + |src|)
  {
    NewBlock(a, n, i, off, src, b);
    var k := n.owner[b].value.k;
    if k != NDIRECT {
      var q := if k < NDIRECT then k else k - 1;
      assert SlotBit(l, n, i)(q) == BitmapBlock(l, b);
    }
  }

  lemma BitmapLogBound(l: Layout, a: Fs, n: Fs, i: nat, off: nat, src: seq<Byte>)
    requires Owned(a) && NoHoles(a) && Wrote(a, n, i, off, src, |src|)
    ensures var size, end := a.inodes[i].size, off + |src|;
            |BitmapLog(l, a, n)| <= (if Reach(size) <= Reach(end) then Reach(end) - Reach(size) else 0)
                                    + if NewIndirect(size, end) then 1 else 0
  {
    var size, end := a.inodes[i].size, off + |src|;
    forall x | x in BitmapLog(l, a, n) ensures x in SlotBits(l, n, i, size, end) {
      var b: nat :| b < |n.bitmap| && New(a, n, b) && x == BitmapBlock(l, b);
      NewBlockBits(l, a, n, i, off, src, b);
    }
    SubsetSize(BitmapLog(l, a, n), SlotBits(l, n, i, size, end));
    ImageBound(SlotBit(l, n, i), Reach(size), Reach(end));
  }

  // Everything one writei logs.
  function WriteLogs(l: Layout, a: Fs, n: Fs, i: nat, off: nat, t: nat): set<nat>
    requires i < |a.inodes|
  {
    LoopLog(l, a, n, i, off, t) + if off + t > a.inodes[i].size then {InodeBlock(l, i)} else {}
  }

  const CHUNK: nat := (MAXOPBLOCKS - 1 - 1 - 2) / 2 * 512   // filewrite's max

  lemma UnionBound(x: set<nat>, y: set<nat>, z: set<nat>, w: set<nat>)
    ensures |x + y + z + w| <= |x| + |y| + |z| + |w|
  {
  }

  // A chunk of filewrite fits a transaction, whatever the bitmap looks like.
  lemma ChunkFits(l: Layout, a: Fs, n: Fs, i: nat, off: nat, src: seq<Byte>)
    requires Owned(a) && NoHoles(a) && Wrote(a, n, i, off, src, |src|) && |src| <= CHUNK
    ensures |WriteLogs(l, a, n, i, off, |src|)| <= MAXOPBLOCKS
  {
    var t, size := |src|, a.inodes[i].size;
    UnionBound(DataLog(n, i, off, t), BitmapLog(l, a, n), IndirectLog(a, n, i, off + t),
               if off + t > size then {InodeBlock(l, i)} else {});
    BitmapLogBound(l, a, n, i, off, src);
    if t == 0 {
      assert DataLog(n, i, off, 0) == {};
    } else {
      DataLogBound(n, i, off, t);
      BlocksOfChunk(size, off, t);
    }
  }

  lemma BlocksOfChunk(size: nat, off: nat, t: nat)
    requires off <= size && 0 < t <= CHUNK
    ensures Reach(off + t) - off / BSIZE + (if Reach(size) <= Reach(off + t) then Reach(off + t) - Reach(size) else 0)
            + (if NewIndirect(size, off + t) then 1 else 0) + (if IndirectGrew(size, off + t) then 1 else 0)
            + (if off + t > size then 1 else 0) <= MAXOPBLOCKS
  {
  }

  // The bitmap and the inodes lie apart, below the data blocks.
  ghost predicate Apart(l: Layout, fs: Fs) {
    && (forall b: nat :: b < |fs.bitmap| ==> BitmapBlock(l, b) < fs.meta)
    && (forall i: nat :: i < |fs.inodes| ==> InodeBlock(l, i) < fs.meta)
    && (forall b: nat, i: nat :: b < |fs.bitmap| && i < |fs.inodes| ==> BitmapBlock(l, b) != InodeBlock(l, i))
  }

  // The last direct block, the indirect block and the three data blocks after it.
  function LastFive(n: Fs, i: nat): seq<nat> {
    seq(5, k requires 0 <= k < 5 => Addr(n, i, 11 + k))
  }

  // A write that starts inside the last direct block and adds three more blocks and the
  // indirect block, each new block from a bitmap block of its own: the transaction is exactly
  // as large as it may be.
  lemma ChunkTight(l: Layout, a: Fs, n: Fs, i: nat, src: seq<Byte>)
    requires Owned(a) && NoHoles(a) && Apart(l, a) && i < |a.inodes| && a.inodes[i].size == 11 * BSIZE + 1
    requires |src| == CHUNK && Wrote(a, n, i, 11 * BSIZE + 1, src, CHUNK)
    requires forall j, k :: 1 <= j < k < 5 ==> LastFive(n, i)[j] / BPB != LastFive(n, i)[k] / BPB
    ensures |WriteLogs(l, a, n, i, 11 * BSIZE + 1, CHUNK)| == MAXOPBLOCKS
  {
    TightBlocks(a, n, i, src);
    TightSets(l, a, n, i, src);
    ChunkFits(l, a, n, i, 11 * BSIZE + 1, src);
    AtLeastTen(l, a.meta, LastFive(n, i), InodeBlock(l, i), WriteLogs(l, a, n, i, 11 * BSIZE + 1, CHUNK));
  }

  lemma AtLeastTen(l: Layout, meta: nat, bs: seq<nat>, inode: nat, log: set<nat>)
    requires |bs| == 5 && inode in log && inode < meta
    requires forall j, k :: 0 <= j < k < 5 ==> bs[j] != bs[k]
    requires forall j, k :: 1 <= j < k < 5 ==> bs[j] / BPB != bs[k] / BPB
    requires forall j :: 0 <= j < 5 ==> bs[j] in log && bs[j] >= meta
    requires forall j :: 1 <= j < 5 ==>
               BitmapBlock(l, bs[j]) in log && BitmapBlock(l, bs[j]) < meta && BitmapBlock(l, bs[j]) != inode
    ensures |log| >= 10
  {
    var bits := [BitmapBlock(l, bs[1]), BitmapBlock(l, bs[2]), BitmapBlock(l, bs[3]), BitmapBlock(l, bs[4])];
    TenDistinct(meta, bs, bits, inode);
    SubsetSize({bs[0], bs[1], bs[2], bs[3], bs[4]} + {bits[0], bits[1], bits[2], bits[3]} + {inode}, log);
  }

  lemma TenDistinct(meta: nat, data: seq<nat>, bits: seq<nat>, inode: nat)
    requires |data| == 5 && |bits| == 4
    requires forall j, k :: 0 <= j < k < 5 ==> data[j] != data[k]
    requires forall j, k :: 0 <= j < k < 4 ==> bits[j] != bits[k]
    requires forall j :: 0 <= j < 5 ==> data[j] >= meta
    requires inode < meta && forall j :: 0 <= j < 4 ==> bits[j] < meta && bits[j] != inode
    ensures |{data[0], data[1], data[2], data[3], data[4]} + {bits[0], bits[1], bits[2], bits[3]} + {inode}| == 10
  {
    var d, b := {data[0], data[1], data[2], data[3], data[4]}, {bits[0], bits[1], bits[2], bits[3]};
    assert |d| == 5 && |b| == 4;
    assert d !! b;
    assert |d + b| == 9;
    assert inode !in d + b;
  }

  lemma TightSets(l: Layout, a: Fs, n: Fs, i: nat, src: seq<Byte>)
    requires Owned(a) && NoHoles(a) && i < |a.inodes| && a.inodes[i].size == 11 * BSIZE + 1
    requires |src| == CHUNK && Wrote(a, n, i, 11 * BSIZE + 1, src, CHUNK)
    ensures var log, bs := WriteLogs(l, a, n, i, 11 * BSIZE + 1, CHUNK), LastFive(n, i);
            && InodeBlock(l, i) in log
            && (forall k :: 0 <= k < 5 ==> bs[k] in log)
            && (forall k :: 1 <= k < 5 ==> BitmapBlock(l, bs[k]) in log)
  {
    var off, bs := 11 * BSIZE + 1, LastFive(n, i);
    TightBlocks(a, n, i, src);
    forall k | 0 <= k < 5 && k != 1 ensures bs[k] in DataLog(n, i, off, CHUNK) {
      var q := if k == 0 then 11 else 10 + k;
      assert Touched(off, CHUNK, q) && DataSlot(q) == 11 + k;
    }
    forall k | 1 <= k < 5 ensures BitmapBlock(l, bs[k]) in BitmapLog(l, a, n) {
      assert New(a, n, bs[k]);
    }
    assert IndirectGrew(a.inodes[i].size, off + CHUNK) && bs[1] == Addr(n, i, NDIRECT);
  }

  lemma TightBlocks(a: Fs, n: Fs, i: nat, src: seq<Byte>)
    requires Owned(a) && NoHoles(a) && i < |a.inodes| && a.inodes[i].size == 11 * BSIZE + 1
    requires |src| == CHUNK && Wrote(a, n, i, 11 * BSIZE + 1, src, CHUNK)
    ensures var bs := LastFive(n, i);
            && (forall k :: 0 <= k < 5 ==> a.meta <= bs[k] < |a.bitmap|)
            && (forall k :: 1 <= k < 5 ==> New(a, n, bs[k]))
            && (forall j, k :: 0 <= j < k < 5 ==> bs[j] != bs[k])
  {
    var bs := LastFive(n, i);
    forall k | 0 <= k < 5
      ensures a.meta <= bs[k] < |a.bitmap|
      ensures n.owner[bs[k]] == Some(Slot(i, 11 + k))
      ensures k >= 1 ==> New(a, n, bs[k])
    {
      TightBlock(a, n, i, src, 11 + k);
    }
  }

  lemma TightBlock(a: Fs, n: Fs, i: nat, src: seq<Byte>, k: nat)
    requires Owned(a) && NoHoles(a) && i < |a.inodes| && a.inodes[i].size == 11 * BSIZE + 1
    requires |src| == CHUNK && Wrote(a, n, i, 11 * BSIZE + 1, src, CHUNK) && 11 <= k <= 15
    ensures a.meta <= Addr(n, i, k) < |a.bitmap| && n.owner[Addr(n, i, k)] == Some(Slot(i, k))
    ensures k >= 12 ==> New(a, n, Addr(n, i, k))
  {
    var e := 11 * BSIZE + 1 + CHUNK;
    assert FilledTo(a, i, a.inodes[i].size);
    var q := if k < 12 then k else k - 1;
    assert BlockThere(n, i, e, q) && BlockThere(a, i, 11 * BSIZE + 1, q);
    var b := Addr(n, i, k);
    assert SlotOwns(n, i, k) && BlockOwned(n, b) && BlockOwned(a, b);
    if k >= 12 && a.owner[b].Some? {
      var s := a.owner[b].value;
      var kept, owns := OtherAddr(a, n, i, s.inum, s.k), SlotOwns(n, s.inum, s.k);
    }
  }
}
