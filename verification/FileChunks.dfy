/** filewrite's loop over chunks: how far it has come, where it stops, and when it runs out of
    blocks. */
module FileChunks {
  import opened Params
  import opened FileBlocks
  import opened FileWrites
  import opened WriteLog
  import opened FileSpace

  const T_DEV: int := 3

  // From a to n, src was written to file i at off and to nothing else.
  ghost predicate WroteFile(a: Fs, n: Fs, i: nat, off: nat, src: seq<Byte>) {
    && i < |a.inodes| == |n.inodes| && off <= a.inodes[i].size
    && n.inodes[i] == a.inodes[i].(size := n.inodes[i].size, addrs := n.inodes[i].addrs)
    && Content(n, i) == Replaced(Content(a, i), off, src)
    && (forall j :: 0 <= j < |a.inodes| && j != i ==> Content(n, j) == Content(a, j) && n.inodes[j] == a.inodes[j])
  }

  // ----- The end of one writei

  lemma ResizedLog(l: Layout, a: Fs, n: Fs, i: nat, off: nat, t: nat, e: nat)
    requires i < |a.inodes| && i < |n.inodes|
    ensures LoopLog(l, a, Resized(n, i, e), i, off, t) == LoopLog(l, a, n, i, off, t)
  {
    var r := Resized(n, i, e);
    forall k ensures Addr(r, i, k) == Addr(n, i, k) {
      ResizedSame(n, i, e, i, k);
    }
    assert DataLog(r, i, off, t) == DataLog(n, i, off, t);
    assert BitmapLog(l, a, r) == BitmapLog(l, a, n);
  }

  lemma Finish(l: Layout, a: Fs, n: Fs, i: nat, off: nat, src: seq<Byte>)
    requires Owned(a) && NoHoles(a) && Wrote(a, n, i, off, src, |src|)
    ensures var r := Resized(n, i, Max(a.inodes[i].size, off + |src|));
            && Owned(r) && NoHoles(r) && (Clean(a) ==> Clean(r)) && WroteFile(a, r, i, off, src)
            && LoopLog(l, a, r, i, off, |src|) == LoopLog(l, a, n, i, off, |src|)
            && (|src| <= CHUNK ==> |WriteLogs(l, a, r, i, off, |src|)| <= MAXOPBLOCKS)
  {
    var e := Max(a.inodes[i].size, off + |src|);
    var r := Resized(n, i, e);
    ResizedKeeps(n, i, e);
    WroteNoHoles(a, n, i, off, src);
    if Clean(a) {
      WroteClean(a, n, i, off, src);
    }
    WroteContent(a, n, i, off, src);
    forall j | 0 <= j < |a.inodes| && j != i ensures Content(r, j) == Content(a, j) {
      WroteOthers(a, n, i, off, src, j);
    }
    ResizedLog(l, a, n, i, off, |src|, e);
    if |src| <= CHUNK {
      ChunkFits(l, a, n, i, off, src);
    }
  }

  // ----- One chunk

  // The write of n bytes at off is not refused.
  predicate Takes(fs: Fs, i: nat, off: nat, n: nat)
    requires i < |fs.inodes|
  {
    off <= fs.inodes[i].size && off + n <= MAXFILE * BSIZE
  }

  predicate OutOfSpace(fs: Fs, i: nat, off: nat, n: nat)
    requires i < |fs.inodes|
  {
    fs.inodes[i].kind != T_DEV && Takes(fs, i, off, n) && FreeCount(fs.bitmap) < Need(fs.inodes[i].size, off + n)
  }

  // src is in file i at off, and took the blocks it needed.
  ghost predicate Put(a: Fs, n: Fs, i: nat, off: nat, src: seq<Byte>) {
    && WroteFile(a, n, i, off, src) && off + |src| <= MAXFILE * BSIZE && a.inodes[i].kind != T_DEV
    && Took(a, n, i, off + |src|)
  }

  ghost predicate Small(ops: seq<set<nat>>) {
    forall k :: 0 <= k < |ops| ==> |ops[k]| <= MAXOPBLOCKS
  }

  predicate WholeChunks(done: nat, n: nat) {
    done == n || done % CHUNK == 0
  }

  // Where the chunk that starts after done ends.
  function NextChunk(done: nat, n: nat): (next: nat)
    requires done < n
    ensures done < next <= n && next - done <= CHUNK && (next == n || next == done + CHUNK)
  {
    if n - done > CHUNK then done + CHUNK else n
  }

  lemma NextWhole(done: nat, n: nat)
    requires done < n && WholeChunks(done, n)
    ensures WholeChunks(NextChunk(done, n), n)
  {
    assert CHUNK == 1536;
    assert done % 1536 == 0;
    assert (done + 1536) % 1536 == 0;
  }

  // ----- Chunk after chunk

  // The first done bytes of src are written at off; with none written nothing changed.
  ghost predicate InProgress(a: Fs, n: Fs, i: nat, off: nat, src: seq<Byte>, done: nat) {
    && done <= |src| && i < |a.inodes| == |n.inodes|
    && if done == 0 then n == a else Put(a, n, i, off, src[..done])
  }

  lemma PutSize(a: Fs, n: Fs, i: nat, off: nat, x: seq<Byte>)
    requires Put(a, n, i, off, x)
    ensures n.inodes[i].size == Max(a.inodes[i].size, off + |x|) && n.inodes[i].kind == a.inodes[i].kind
  {
    assert |Content(n, i)| == n.inodes[i].size && |Content(a, i)| == a.inodes[i].size;
  }

  lemma ProgressAt(a: Fs, n: Fs, i: nat, off: nat, src: seq<Byte>, done: nat)
    requires InProgress(a, n, i, off, src, done)
    ensures n.inodes[i].kind == a.inodes[i].kind
    ensures off <= a.inodes[i].size ==> n.inodes[i].size == Max(a.inodes[i].size, off + done) && Took(a, n, i, off + done)
    ensures done > 0 ==> off <= a.inodes[i].size && off + done <= MAXFILE * BSIZE && a.inodes[i].kind != T_DEV
  {
    if done > 0 {
      PutSize(a, n, i, off, src[..done]);
    }
  }

  lemma ReplacedThen(s: seq<Byte>, off: nat, x: seq<Byte>, y: seq<Byte>)
    requires off <= |s|
    ensures Replaced(Replaced(s, off, x), off + |x|, y) == Replaced(s, off, x + y)
  {
  }

  lemma WroteThen(a: Fs, b: Fs, c: Fs, i: nat, off: nat, x: seq<Byte>, at: nat, y: seq<Byte>, z: seq<Byte>)
    requires WroteFile(a, b, i, off, x) && at == off + |x| && WroteFile(b, c, i, at, y) && z == x + y
    ensures WroteFile(a, c, i, off, z)
  {
    ReplacedThen(Content(a, i), off, x, y);
  }

  // Reaching mid and then end takes what reaching end takes.
  lemma NeedThen(size: nat, mid: nat, end: nat)
    requires mid <= end
    ensures Need(size, end) == Need(size, mid) + Need(Max(size, mid), end)
  {
  }

  lemma TookThen(a: Fs, n: Fs, r: Fs, i: nat, mid: nat, end: nat)
    requires i < |a.inodes| && i < |n.inodes| && mid <= end && n.inodes[i].size == Max(a.inodes[i].size, mid)
    requires Took(a, n, i, mid) && Took(n, r, i, end)
    ensures Took(a, r, i, end)
  {
    NeedThen(a.inodes[i].size, mid, end);
  }

  lemma PutTook(a: Fs, n: Fs, r: Fs, i: nat, off: nat, x: seq<Byte>, at: nat, y: seq<Byte>, end: nat)
    requires Put(a, n, i, off, x) && at == off + |x| && Put(n, r, i, at, y) && end == at + |y|
    ensures Took(a, r, i, end)
  {
    PutSize(a, n, i, off, x);
    TookThen(a, n, r, i, at, end);
  }

  lemma PutThen(a: Fs, n: Fs, r: Fs, i: nat, off: nat, x: seq<Byte>, at: nat, y: seq<Byte>, z: seq<Byte>)
    requires Put(a, n, i, off, x) && at == off + |x| && Put(n, r, i, at, y) && z == x + y
    ensures Put(a, r, i, off, z)
  {
    PutTook(a, n, r, i, off, x, at, y, off + |z|);
    WroteThen(a, n, r, i, off, x, at, y, z);
  }

  lemma ProgressNext(a: Fs, n: Fs, r: Fs, i: nat, off: nat, src: seq<Byte>, done: nat, next: nat, at: nat, bytes: seq<Byte>)
    requires InProgress(a, n, i, off, src, done) && done < next <= |src|
    requires at == off + done && bytes == src[done..next] && Put(n, r, i, at, bytes)
    ensures InProgress(a, r, i, off, src, next)
  {
    var z := src[..next];
    if done == 0 {
      assert z == bytes && at == off;
    } else {
      var x := src[..done];
      assert z == x + bytes;
      PutThen(a, n, r, i, off, x, at, bytes, z);
    }
    assert Put(a, r, i, off, z);
  }

  // What is written can be read back, and the rest reads as before.
  lemma ReadBack(s: seq<Byte>, off: nat, src: seq<Byte>)
    requires off <= |s|
    ensures var t := Replaced(s, off, src);
            && |t| == Max(|s|, off + |src|)
            && t[off..off + |src|] == src && t[..off] == s[..off]
            && (off + |src| <= |s| ==> t[off + |src|..] == s[off + |src|..])
  {
  }

  // ----- Where the loop stops

  // How many of n bytes filewrite gets in at off: whole chunks up to the largest file.
  function Fits(size: nat, off: nat, n: nat): nat {
    if off > size then 0
    else if off + n <= MAXFILE * BSIZE then n
    else if off > MAXFILE * BSIZE then 0
    else (MAXFILE * BSIZE - off) / CHUNK * CHUNK
  }

  // A chunk that does not fit is the first one past the whole chunks that do.
  lemma FitsStops(size: nat, off: nat, n: nat, done: nat, next: nat)
    requires done < next <= n && WholeChunks(done, n) && next - done <= CHUNK && (next == n || next == done + CHUNK)
    requires if off > size then done == 0 else off + next > MAXFILE * BSIZE && (done > 0 ==> off + done <= MAXFILE * BSIZE)
    ensures done == Fits(size, off, n)
  {
  }

  // A chunk that fits lies within them.
  lemma FitsCovers(size: nat, off: nat, n: nat, next: nat)
    requires next <= n && WholeChunks(next, n) && off <= size && off + next <= MAXFILE * BSIZE
    ensures next <= Fits(size, off, n)
  {
  }

  // filewrite runs out of blocks: those for the bytes that fit are not there.
  predicate FileOutOfSpace(fs: Fs, i: nat, off: nat, n: nat)
    requires i < |fs.inodes|
  {
    var ip := fs.inodes[i];
    ip.kind != T_DEV && off <= ip.size && FreeCount(fs.bitmap) < Need(ip.size, off + Fits(ip.size, off, n))
  }

  lemma ProgressPanics(a: Fs, n: Fs, i: nat, off: nat, src: seq<Byte>, done: nat, next: nat, at: nat, count: nat)
    requires InProgress(a, n, i, off, src, done) && done < next <= |src| && WholeChunks(next, |src|)
    requires at == off + done && count == next - done && OutOfSpace(n, i, at, count)
    ensures FileOutOfSpace(a, i, off, |src|)
  {
    var size := a.inodes[i].size;
    ProgressAt(a, n, i, off, src, done);
    NeedThen(size, at, off + next);
    FitsCovers(size, off, |src|, next);
    NeedGrows(size, off + next, off + Fits(size, off, |src|));
  }

  lemma ProgressStops(a: Fs, n: Fs, i: nat, off: nat, src: seq<Byte>, done: nat, next: nat, at: nat, count: nat)
    requires InProgress(a, n, i, off, src, done) && done < |src| && WholeChunks(done, |src|)
    requires next == NextChunk(done, |src|) && at == off + done && count == next - done && !Takes(n, i, at, count)
    ensures done == Fits(a.inodes[i].size, off, |src|)
  {
    ProgressAt(a, n, i, off, src, done);
    FitsStops(a.inodes[i].size, off, |src|, done, next);
  }

  lemma ProgressEnough(a: Fs, n: Fs, i: nat, off: nat, src: seq<Byte>, done: nat)
    requires InProgress(a, n, i, off, src, done)
    requires a.inodes[i].kind != T_DEV ==> done == Fits(a.inodes[i].size, off, |src|)
    ensures !FileOutOfSpace(a, i, off, |src|)
  {
    ProgressAt(a, n, i, off, src, done);
  }

  lemma FitsAll(a: Fs, n: Fs, i: nat, off: nat, src: seq<Byte>)
    requires InProgress(a, n, i, off, src, |src|)
    ensures |src| == Fits(a.inodes[i].size, off, |src|)
  {
    ProgressAt(a, n, i, off, src, |src|);
  }
}
