/** What a file-system call that ran as one operation leaves behind: a good file system, and in
    the log every block on disk that differs. */
module FileCalls {
  import opened Params
  import opened FileBlocks
  import opened FileWrites
  import opened WriteLog
  import opened FileSpace
  import opened FileTrunc
  import opened FileChunks
  import opened TruncLog
  import opened DiskLayout
  import L = Log

  predicate SameKind(x: Inode, y: Inode) {
    x.kind == y.kind && x.major == y.major && x.minor == y.minor && x.nlink == y.nlink
  }

  predicate InodeLogged(l: Layout, a: Fs, n: Fs, log: set<nat>, i: nat)
    requires i < |a.inodes| && i < |n.inodes|
  {
    SameKind(a.inodes[i], n.inodes[i]) && (n.inodes[i] != a.inodes[i] ==> InodeBlock(l, i) in log)
  }

  // Blocks that file-system calls log.
  predicate CallBlock(l: Layout, fs: Fs, b: nat) {
    fs.meta <= b < |fs.blocks| || BitmapArea(l, fs, b) || InodeArea(l, fs, b)
  }

  // From a to n by a call that logged log.
  ghost predicate Call(l: Layout, a: Fs, n: Fs, log: set<nat>) {
    && SameShape(a, n) && Owned(n) && NoHoles(n) && (Clean(a) ==> Clean(n))
    && Logs(l, a.blocks, a.bitmap, n.blocks, n.bitmap, log)
    && (forall i :: 0 <= i < |a.inodes| ==> InodeLogged(l, a, n, log, i))
    && (forall b :: b in log ==> CallBlock(l, n, b))
  }

  // ----- writei

  lemma SlotBlock(fs: Fs, i: nat, k: nat)
    requires Owned(fs) && Addr(fs, i, k) != 0
    ensures fs.meta <= Addr(fs, i, k) < |fs.blocks|
  {
    assert SlotOwns(fs, i, k) && BlockOwned(fs, Addr(fs, i, k));
  }

  lemma WriteBlocks(l: Layout, a: Fs, n: Fs, i: nat, off: nat, src: seq<Byte>, b: nat)
    requires NoHoles(a) && Wrote(a, n, i, off, src, |src|) && b in LoopLog(l, a, n, i, off, |src|)
    ensures CallBlock(l, n, b)
  {
    var t, e := |src|, Max(a.inodes[i].size, off + |src|);
    if b in DataLog(n, i, off, t) {
      var q: nat :| q < MAXFILE && Touched(off, t, q) && b == Addr(n, i, DataSlot(q));
      assert BlockThere(n, i, e, q);
      SlotBlock(n, i, DataSlot(q));
    } else if b in BitmapLog(l, a, n) {
      var x: nat :| x < |n.bitmap| && New(a, n, x) && b == BitmapBlock(l, x);
    } else {
      ReachOf(off + t, NDIRECT);
      SlotBlock(n, i, NDIRECT);
    }
  }

  lemma WriteIsCall(l: Layout, a: Fs, n: Fs, r: Fs, i: nat, off: nat, src: seq<Byte>, log: set<nat>)
    requires Owned(a) && NoHoles(a) && Wrote(a, n, i, off, src, |src|)
    requires Logs(l, a.blocks, a.bitmap, n.blocks, n.bitmap, log)
    requires r == Resized(n, i, Max(a.inodes[i].size, off + |src|)) && Owned(r) && NoHoles(r) && (Clean(a) ==> Clean(r))
    requires log == LoopLog(l, a, n, i, off, |src|) + if off + |src| > a.inodes[i].size then {InodeBlock(l, i)} else {}
    ensures Call(l, a, r, log)
  {
    forall b | b in log ensures CallBlock(l, r, b) {
      if b in LoopLog(l, a, n, i, off, |src|) {
        WriteBlocks(l, a, n, i, off, src, b);
      }
    }
    forall j | 0 <= j < |a.inodes| ensures InodeLogged(l, a, r, log, j) {
    }
  }

  // A whole writei from a to r, with log logged before it and logged after it.
  ghost predicate WriteDone(l: Layout, a: Fs, r: Fs, i: nat, off: nat, src: seq<Byte>, log: set<nat>, logged: set<nat>) {
    && WroteFile(a, r, i, off, src) && Took(a, r, i, off + |src|)
    && logged == log + WriteLogs(l, a, r, i, off, |src|)
    && (|src| <= CHUNK ==> |WriteLogs(l, a, r, i, off, |src|)| <= MAXOPBLOCKS)
    && Logs(l, a.blocks, a.bitmap, r.blocks, r.bitmap, logged)
    && (log == {} ==> Call(l, a, r, logged))
  }

  lemma FinishFacts(l: Layout, a: Fs, n: Fs, r: Fs, i: nat, off: nat, src: seq<Byte>, log: set<nat>, was: set<nat>, logged: set<nat>)
    requires Owned(a) && NoHoles(a) && Wrote(a, n, i, off, src, |src|) && was == log + LoopLog(l, a, n, i, off, |src|)
    requires r == Resized(n, i, Max(a.inodes[i].size, off + |src|))
    requires logged == was + if off + |src| > a.inodes[i].size then {InodeBlock(l, i)} else {}
    ensures WroteFile(a, r, i, off, src) && logged == log + WriteLogs(l, a, r, i, off, |src|)
    ensures |src| <= CHUNK ==> |WriteLogs(l, a, r, i, off, |src|)| <= MAXOPBLOCKS
  {
    Finish(l, a, n, i, off, src);
  }

  lemma WriteFinished(l: Layout, a: Fs, n: Fs, r: Fs, i: nat, off: nat, src: seq<Byte>, log: set<nat>, was: set<nat>, logged: set<nat>)
    requires Owned(a) && NoHoles(a) && WrittenBy(l, a, n, log, was, i, off, src, |src|)
    requires r == Resized(n, i, Max(a.inodes[i].size, off + |src|)) && Owned(r) && NoHoles(r) && (Clean(a) ==> Clean(r))
    requires logged == was + if off + |src| > a.inodes[i].size then {InodeBlock(l, i)} else {}
    ensures WriteDone(l, a, r, i, off, src, log, logged)
  {
    FinishFacts(l, a, n, r, i, off, src, log, was, logged);
    MoreLogged(l, a, n, r, was, logged);
    if log == {} {
      MoreLogged(l, a, n, n, was, logged);
      WriteIsCall(l, a, n, r, i, off, src, logged);
    }
  }

  lemma MoreLogged(l: Layout, a: Fs, n: Fs, r: Fs, was: set<nat>, logged: set<nat>)
    requires Logs(l, a.blocks, a.bitmap, n.blocks, n.bitmap, was) && was <= logged
    requires r.blocks == n.blocks && r.bitmap == n.bitmap
    ensures Logs(l, a.blocks, a.bitmap, r.blocks, r.bitmap, logged)
  {
  }

  // ----- itrunc

  lemma TruncIsCall(l: Layout, a: Fs, i: nat)
    requires Owned(a) && NoHoles(a) && i < |a.inodes|
    ensures Call(l, a, Truncated(a, i), TruncLogs(l, a, i))
  {
    var n, log := Truncated(a, i), TruncLogs(l, a, i);
    TruncatedKeeps(a, i);
    TruncatedNoHoles(a, i);
    if Clean(a) {
      TruncatedClean(a, i);
    }
    forall b | 0 <= b < |a.bitmap| && n.bitmap[b] != a.bitmap[b] ensures BitmapBlock(l, b) in log {
      assert BitmapBlock(l, b) in FreedLog(l, a, n.bitmap);
    }
    forall b | b in log ensures CallBlock(l, n, b) {
      if b in FreedLog(l, a, n.bitmap) {
        var x: nat :| x < |n.bitmap| && a.bitmap[x] && !n.bitmap[x] && b == BitmapBlock(l, x);
      }
    }
  }

  // ----- On disk

  lemma SameBitmapWord(x: seq<bool>, y: seq<bool>, from: nat, end: nat, w: nat)
    requires |x| == |y| && end == from + BPB && forall b :: from <= b < end && b < |x| ==> x[b] == y[b]
    requires w < 128
    ensures BitmapWord(x, from, w) == BitmapWord(y, from, w)
  {
    assert Window(x, from + 32 * w) == Window(y, from + 32 * w);
  }

  lemma SameWords(x: seq<bool>, y: seq<bool>, from: nat)
    requires forall w: nat :: w < 128 ==> BitmapWord(x, from, w) == BitmapWord(y, from, w)
    ensures BitmapWords(x, from) == BitmapWords(y, from)
  {
  }

  lemma SameBitmapWords(x: seq<bool>, y: seq<bool>, from: nat, end: nat)
    requires |x| == |y| && end == from + BPB && forall b :: from <= b < end && b < |x| ==> x[b] == y[b]
    ensures BitmapWords(x, from) == BitmapWords(y, from)
  {
    forall w: nat | w < 128 ensures BitmapWord(x, from, w) == BitmapWord(y, from, w) {
      SameBitmapWord(x, y, from, end, w);
    }
    SameWords(x, y, from);
  }

  // Only logged blocks differ.
  lemma UnloggedSame(l: Layout, a: Fs, n: Fs, log: set<nat>, b: nat)
    requires Call(l, a, n, log) && b !in log
    ensures BlockOnDisk(l, a, b) == BlockOnDisk(l, n, b)
  {
    if BitmapArea(l, a, b) {
      var from := (b - l.bmapstart) * BPB;
      var end := from + BPB;
      forall x | from <= x < end && x < |a.bitmap| ensures a.bitmap[x] == n.bitmap[x] {
        assert BitmapBlock(l, x) == b;
      }
      SameBitmapWords(a.bitmap, n.bitmap, from, end);
    } else if InodeArea(l, a, b) {
      var from := (b - l.inodestart) * IPB;
      forall w | 0 <= w < 128 ensures InodeWords(a.inodes, from)[w] == InodeWords(n.inodes, from)[w] {
        var i := from + w / 16;
        if i < |a.inodes| {
          assert InodeBlock(l, i) == b && InodeLogged(l, a, n, log, i);
        }
      }
    }
  }

  // A call keeps what the layout asks for.
  lemma CallPlaced(l: Layout, g: L.Geometry, a: Fs, n: Fs, log: set<nat>)
    requires Call(l, a, n, log) && Placed(l, g, a) && Fielded(a)
    ensures Placed(l, g, n) && Fielded(n)
    ensures forall b :: b in log ==> b < |n.blocks| && !L.InLog(g, b)
  {
    forall b: nat ensures AreaPlaced(l, g, n, b) {
      assert AreaPlaced(l, g, a, b);
    }
    forall i | 0 <= i < |n.inodes| ensures ShortFields(n.inodes[i]) {
      assert InodeLogged(l, a, n, log, i) && ShortFields(a.inodes[i]);
    }
    forall b | b in log ensures b < |n.blocks| && !L.InLog(g, b) {
      assert CallBlock(l, n, b) && AreaPlaced(l, g, n, b);
    }
  }
}
