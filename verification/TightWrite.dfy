/** A file system and a write that use a transaction to the full: ten blocks logged. */
module TightWrite {
  import opened Params
  import opened FileBlocks
  import opened FileWrites
  import opened WriteLog
  import opened FileSpace

  // ----- With enough free blocks the loop of writei gets to its end

  lemma CanGoOn(a: Fs, n: Fs, i: nat, off: nat, src: seq<Byte>, t: nat, m: nat, bytes: seq<Byte>)
    requires Wrote(a, n, i, off, src, t) && Took(a, n, i, off + t) && bytes != [] && m == |bytes| && t + m <= |src|
    requires (off + t) % BSIZE + m <= BSIZE && off + |src| <= MAXFILE * BSIZE
    requires Need(a.inodes[i].size, off + |src|) <= FreeCount(a.bitmap)
    ensures CanWrite(n, i, off + t, bytes)
  {
    if !CanWrite(n, i, off + t, bytes) {
      TookAll(a, n, i, off, src, t, m, bytes);
    }
  }

  // What one turn of the loop writes.
  function TurnSize(off: nat, t: nat, n: nat): (m: nat)
    requires t < n
    ensures 0 < m <= n - t && (off + t) % BSIZE + m <= BSIZE
  {
    var room := BSIZE - (off + t) % BSIZE;
    if n - t < room then n - t else room
  }

  lemma WriteTurn(a: Fs, n: Fs, i: nat, off: nat, src: seq<Byte>, t: nat, m: nat, next: nat) returns (r: Fs)
    requires NoHoles(a) && Wrote(a, n, i, off, src, t) && Took(a, n, i, off + t) && off + |src| <= MAXFILE * BSIZE
    requires Need(a.inodes[i].size, off + |src|) <= FreeCount(a.bitmap)
    requires 0 < m && next == t + m <= |src| && (off + t) % BSIZE + m <= BSIZE
    ensures Wrote(a, r, i, off, src, next) && Took(a, r, i, off + next)
  {
    var bytes := src[t..next];
    CanGoOn(a, n, i, off, src, t, m, bytes);
    r := WithBytes(n, i, off + t, bytes);
    assert Wrote(a, r, i, off, src, next) by {
      WroteNext(a, n, i, off, src, t, m, bytes);
    }
    assert Took(a, r, i, off + next) by {
      TookNext(a, n, i, off, src, t, m, bytes);
    }
  }

  lemma {:induction false} WriteFrom(a: Fs, n: Fs, i: nat, off: nat, src: seq<Byte>, t: nat) returns (r: Fs)
    requires NoHoles(a) && Wrote(a, n, i, off, src, t) && Took(a, n, i, off + t) && off + |src| <= MAXFILE * BSIZE
    requires Need(a.inodes[i].size, off + |src|) <= FreeCount(a.bitmap)
    ensures Wrote(a, r, i, off, src, |src|)
    decreases |src| - t
  {
    if t == |src| {
      r := n;
    } else {
      var m := TurnSize(off, t, |src|);
      var next := t + m;
      var b := WriteTurn(a, n, i, off, src, t, m, next);
      r := WriteFrom(a, b, i, off, src, next);
    }
  }

  lemma WriteSucceeds(a: Fs, i: nat, off: nat, src: seq<Byte>) returns (r: Fs)
    requires Owned(a) && NoHoles(a) && i < |a.inodes| && off <= a.inodes[i].size && off + |src| <= MAXFILE * BSIZE
    requires Need(a.inodes[i].size, off + |src|) <= FreeCount(a.bitmap)
    ensures Wrote(a, r, i, off, src, |src|)
  {
    WroteNone(a, i, off, src);
    r := WriteFrom(a, a, i, off, src, 0);
  }

  // ----- Where every free block is marked in a bitmap block of its own, the chunk is tight

  ghost predicate Scattered(bitmap: seq<bool>) {
    forall b, c :: 0 <= b < c < |bitmap| && !bitmap[b] && !bitmap[c] ==> b / BPB != c / BPB
  }

  lemma ScatteredTight(l: Layout, a: Fs, n: Fs, i: nat, src: seq<Byte>)
    requires Owned(a) && NoHoles(a) && Apart(l, a) && i < |a.inodes| && a.inodes[i].size == 11 * BSIZE + 1
    requires Scattered(a.bitmap) && |src| == CHUNK && Wrote(a, n, i, 11 * BSIZE + 1, src, CHUNK)
    ensures |WriteLogs(l, a, n, i, 11 * BSIZE + 1, CHUNK)| == MAXOPBLOCKS
  {
    TightBlocks(a, n, i, src);
    var bs := LastFive(n, i);
    forall j, k | 1 <= j < k < 5 ensures bs[j] / BPB != bs[k] / BPB {
      assert New(a, n, bs[j]) && New(a, n, bs[k]) && bs[j] != bs[k];
      var b, c := if bs[j] < bs[k] then bs[j] else bs[k], if bs[j] < bs[k] then bs[k] else bs[j];
      assert !a.bitmap[b] && !a.bitmap[c];
    }
    ChunkTight(l, a, n, i, src);
  }

  // ----- Such a file system: file 0 with twelve blocks, fifty-nine files of full size, and four
  // free blocks

  const FIRST: nat := 4083
  const NBLOCKS: nat := 12418
  const NFILES: nat := 60

  predicate Free(b: nat) {
    b == 4095 || b == 4096 || b == 8327 || b == 12417
  }

  function Start(i: nat): nat {
    if i == 0 then 4083 else if i <= 30 then 3956 + 141 * i else 3957 + 141 * i
  }

  function OwnerAt(b: nat): Option<Slot> {
    if b < FIRST || Free(b) then None
    else if b < 4095 then Some(Slot(0, b - 4083))
    else if b < 8327 then Some(Slot((b - 3956) / 141, (b - 3956) % 141))
    else Some(Slot((b - 3957) / 141, (b - 3957) % 141))
  }

  // The indirect block of a file whose blocks start at start.
  function Entries(start: nat): Block
    requires start < 0xFF00
  {
    seq(512, p requires 0 <= p < 512 =>
      var v := start + 13 + p / 4; if p % 4 == 0 then v % 256 else if p % 4 == 1 then v / 256 else 0)
  }

  lemma EntryAt(start: nat, j: nat)
    requires start < 0xFF00 && j < NINDIRECT
    ensures GetWord(Entries(start), j) == start + 13 + j
  {
    var v, e := start + 13 + j, Entries(start);
    assert 4 * j / 4 == (4 * j + 1) / 4 == j && 4 * j % 4 == 0 && (4 * j + 1) % 4 == 1;
    assert (4 * j + 2) % 4 == 2 && (4 * j + 3) % 4 == 3;
    assert e[4 * j] == v % 256 && e[4 * j + 1] == v / 256 && e[4 * j + 2] == 0 && e[4 * j + 3] == 0;
  }

  function BlockAt(b: nat): Block
    requires b < NBLOCKS
  {
    var o := OwnerAt(b);
    if o.Some? && o.value.inum > 0 && o.value.k == NDIRECT then Entries(b - NDIRECT) else ZeroBlock()
  }

  function InodeAddr(i: nat, k: nat): nat {
    if i == 0 && k == NDIRECT then 0 else Start(i) + k
  }

  function InodeAt(i: nat): Inode {
    Inode(2, 0, 0, 1, if i == 0 then 11 * BSIZE + 1 else MAXFILE * BSIZE, seq(13, k requires 0 <= k => InodeAddr(i, k)))
  }

  function Crowded(): Fs {
    Fs(FIRST,
       seq(NBLOCKS, b requires 0 <= b => b < FIRST || OwnerAt(b).Some?),
       seq(NBLOCKS, b requires 0 <= b < NBLOCKS => BlockAt(b)),
       seq(NFILES, i requires 0 <= i => InodeAt(i)),
       seq(NBLOCKS, b requires 0 <= b => OwnerAt(b)))
  }

  // The slots that are in use, and what is in them.
  predicate Used(i: nat, k: nat) {
    i < NFILES && k < if i == 0 then NDIRECT else SLOTS
  }

  lemma OwnerOfSlot(i: nat, k: nat)
    requires Used(i, k)
    ensures FIRST <= Start(i) + k < NBLOCKS && OwnerAt(Start(i) + k) == Some(Slot(i, k))
  {
    if i > 0 {
      assert (141 * i + k) / 141 == i && (141 * i + k) % 141 == k;
    }
  }

  lemma SlotOfOwner(b: nat)
    requires b < NBLOCKS && OwnerAt(b).Some?
    ensures var s := OwnerAt(b).value; Used(s.inum, s.k) && Start(s.inum) + s.k == b
  {
  }

  lemma CrowdedAddr(i: nat, k: nat)
    ensures Addr(Crowded(), i, k) == if Used(i, k) then Start(i) + k else 0
  {
    var fs := Crowded();
    if 0 < i < NFILES && NDIRECT < k < SLOTS {
      var a := fs.inodes[i].addrs[NDIRECT];
      OwnerOfSlot(i, NDIRECT);
      assert a == Start(i) + NDIRECT && fs.blocks[a] == Entries(Start(i));
      EntryAt(Start(i), k - NDIRECT - 1);
    } else if i < NFILES && k <= NDIRECT {
      assert fs.inodes[i] == InodeAt(i);
    }
  }

  lemma CrowdedOwned()
    ensures Owned(Crowded())
  {
    var fs := Crowded();
    forall i, k ensures SlotOwns(fs, i, k) {
      CrowdedAddr(i, k);
      if Used(i, k) {
        OwnerOfSlot(i, k);
      }
    }
    forall b | 0 <= b < |fs.bitmap| ensures BlockOwned(fs, b) {
      if OwnerAt(b).Some? {
        SlotOfOwner(b);
        CrowdedAddr(OwnerAt(b).value.inum, OwnerAt(b).value.k);
      }
    }
  }

  lemma CrowdedNoHoles()
    ensures NoHoles(Crowded())
  {
    var fs := Crowded();
    forall j | 0 <= j < |fs.inodes| ensures FilledTo(fs, j, fs.inodes[j].size) {
      CrowdedAddr(j, NDIRECT);
      forall n ensures BlockThere(fs, j, fs.inodes[j].size, n) {
        CrowdedAddr(j, DataSlot(n));
      }
    }
  }

  lemma CrowdedScattered()
    ensures Scattered(Crowded().bitmap)
  {
    var bitmap := Crowded().bitmap;
    forall b, c | 0 <= b < c < |bitmap| && !bitmap[b] && !bitmap[c] ensures b / BPB != c / BPB {
      assert Free(b) && Free(c);
    }
  }

  lemma FourFree(bitmap: seq<bool>, b: nat, c: nat, d: nat, e: nat)
    requires b < c < d < e < |bitmap| && !bitmap[b] && !bitmap[c] && !bitmap[d] && !bitmap[e]
    ensures FreeCount(bitmap) >= 4
  {
    FreeCountSet(bitmap, b);
    FreeCountSet(bitmap[b := true], c);
    FreeCountSet(bitmap[b := true][c := true], d);
    FreeCountSet(bitmap[b := true][c := true][d := true], e);
  }

  // A chunk written to file 0 at its end succeeds and logs ten blocks.
  lemma TenReached(src: seq<Byte>) returns (l: Layout, a: Fs, n: Fs)
    requires |src| == CHUNK
    ensures a == Crowded() && Owned(a) && NoHoles(a) && Apart(l, a)
    ensures Wrote(a, n, 0, 11 * BSIZE + 1, src, CHUNK)
    ensures |WriteLogs(l, a, n, 0, 11 * BSIZE + 1, CHUNK)| == MAXOPBLOCKS
  {
    l, a := Layout(100, 200), Crowded();
    CrowdedOwned();
    CrowdedNoHoles();
    CrowdedScattered();
    FourFree(a.bitmap, 4095, 4096, 8327, 12417);
    n := WriteSucceeds(a, 0, 11 * BSIZE + 1, src);
    ScatteredTight(l, a, n, 0, src);
  }
}
