/** How much itrunc logs, and when that fits an operation. */
module TruncLog {
  import opened Params
  import opened FileBlocks
  import opened FileWrites
  import opened WriteLog
  import opened FileTrunc

  // Everything one itrunc logs.
  function TruncLogs(l: Layout, a: Fs, i: nat): set<nat>
    requires i < |a.inodes| && |a.owner| == |a.bitmap|
  {
    FreedLog(l, a, Truncated(a, i).bitmap) + {InodeBlock(l, i)}
  }

  // The bitmap blocks that mark the blocks of file i.
  function FileBits(l: Layout, a: Fs, i: nat): set<nat> {
    set k: nat | k < SLOTS && Addr(a, i, k) != 0 :: BitmapBlock(l, Addr(a, i, k))
  }

  lemma FreedAreFileBits(l: Layout, a: Fs, i: nat)
    requires Owned(a) && i < |a.inodes|
    ensures FreedLog(l, a, Truncated(a, i).bitmap) == FileBits(l, a, i)
  {
    var after := Truncated(a, i).bitmap;
    forall x | x in FreedLog(l, a, after) ensures x in FileBits(l, a, i) {
      var b: nat :| b < |after| && a.bitmap[b] && !after[b] && x == BitmapBlock(l, b);
      assert BlockOwned(a, b);
      assert Addr(a, i, a.owner[b].value.k) == b;
    }
    forall x | x in FileBits(l, a, i) ensures x in FreedLog(l, a, after) {
      var k: nat :| k < SLOTS && Addr(a, i, k) != 0 && x == BitmapBlock(l, Addr(a, i, k));
      var b := Addr(a, i, k);
      assert SlotOwns(a, i, k) && BlockOwned(a, b);
      assert a.bitmap[b] && !after[b];
    }
  }

  // itrunc fits an operation if and only if at most nine bitmap blocks mark the file's blocks.
  lemma TruncSize(l: Layout, a: Fs, i: nat)
    requires Owned(a) && Apart(l, a) && i < |a.inodes|
    ensures |TruncLogs(l, a, i)| == |FileBits(l, a, i)| + 1
    ensures |TruncLogs(l, a, i)| <= MAXOPBLOCKS <==> |FileBits(l, a, i)| <= 9
  {
    FreedAreFileBits(l, a, i);
    forall x | x in FileBits(l, a, i) ensures x != InodeBlock(l, i) {
      var k: nat :| k < SLOTS && Addr(a, i, k) != 0 && x == BitmapBlock(l, Addr(a, i, k));
      assert SlotOwns(a, i, k);
    }
  }

  // So it does for every file where the bitmap has at most nine blocks.
  lemma TruncFits(l: Layout, a: Fs, i: nat)
    requires Owned(a) && Apart(l, a) && i < |a.inodes| && |a.bitmap| <= 9 * BPB
    ensures |TruncLogs(l, a, i)| <= MAXOPBLOCKS
  {
    var f: nat -> nat := q => q + l.bmapstart;
    ImageBound(f, 0, 9);
    forall x | x in FileBits(l, a, i) ensures x in Image(f, 0, 9) {
      var k: nat :| k < SLOTS && Addr(a, i, k) != 0 && x == BitmapBlock(l, Addr(a, i, k));
      assert SlotOwns(a, i, k);
      assert x == f(Addr(a, i, k) / BPB);
    }
    SubsetSize(FileBits(l, a, i), Image(f, 0, 9));
    TruncSize(l, a, i);
  }

  // ----- A file that takes more: ten blocks, each marked in a bitmap block of its own

  const SPREAD: nat := 40961

  predicate SpreadBlock(b: nat) {
    0 < b && b % BPB == 0
  }

  function SpreadOwner(b: nat): Option<Slot> {
    if SpreadBlock(b) then Some(Slot(0, b / BPB - 1)) else None
  }

  function SpreadAddr(k: nat): nat {
    if k < 10 then BPB * (k + 1) else 0
  }

  function Spread(): Fs {
    Fs(100,
       seq(SPREAD, b requires 0 <= b => b < 100 || SpreadBlock(b)),
       seq(SPREAD, _ => ZeroBlock()),
       [Inode(2, 0, 0, 1, 10 * BSIZE, seq(13, k requires 0 <= k => SpreadAddr(k)))],
       seq(SPREAD, b requires 0 <= b => SpreadOwner(b)))
  }

  lemma SpreadAddrs(i: nat, k: nat)
    ensures Addr(Spread(), i, k) == if i == 0 then SpreadAddr(k) else 0
  {
  }

  lemma SpreadOwned()
    ensures Owned(Spread()) && NoHoles(Spread())
  {
    var fs := Spread();
    forall i, k ensures SlotOwns(fs, i, k) {
      SpreadAddrs(i, k);
    }
    forall b | 0 <= b < |fs.bitmap| ensures BlockOwned(fs, b) {
      if SpreadBlock(b) {
        SpreadAddrs(0, b / BPB - 1);
      }
    }
    SpreadAddrs(0, NDIRECT);
    forall n ensures BlockThere(fs, 0, 10 * BSIZE, n) {
      SpreadAddrs(0, DataSlot(n));
    }
  }

  // Truncating it logs eleven blocks, one more than an operation may.
  lemma TruncTooMuch() returns (l: Layout, a: Fs)
    ensures Owned(a) && NoHoles(a) && Apart(l, a) && |a.inodes| == 1
    ensures |TruncLogs(l, a, 0)| == MAXOPBLOCKS + 1
  {
    l, a := Layout(10, 50), Spread();
    SpreadOwned();
    var f: nat -> nat := q => q + 11;
    forall x ensures x in FileBits(l, a, 0) <==> x in Image(f, 0, 10) {
      if x in FileBits(l, a, 0) {
        var k: nat :| k < SLOTS && Addr(a, 0, k) != 0 && x == BitmapBlock(l, Addr(a, 0, k));
        SpreadAddrs(0, k);
        assert x == f(k);
      }
      if x in Image(f, 0, 10) {
        var k: nat :| 0 <= k < 10 && x == f(k);
        SpreadAddrs(0, k);
        assert x == BitmapBlock(l, Addr(a, 0, k));
      }
    }
    assert FileBits(l, a, 0) == Image(f, 0, 10);
    ImageSize(f, 10);
    TruncSize(l, a, 0);
  }

  lemma {:induction false} ImageSize(f: nat -> nat, n: nat)
    requires forall x: nat :: f(x) == x + 11
    ensures |Image(f, 0, n)| == n
  {
    if n == 0 {
      assert Image(f, 0, 0) == {};
    } else {
      ImageSize(f, n - 1);
      assert Image(f, 0, n) == Image(f, 0, n - 1) + {f(n - 1)};
    }
  }
}
