/** itrunc: giving back every block of a file. */
module FileTrunc {
  import opened Params
  import opened FileBlocks
  import opened FileWrites
  import opened WriteLog

  // The order in which itrunc frees the slots: direct blocks, indirect entries, indirect block.
  function Rank(k: nat): nat {
    if k < NDIRECT then k else if k == NDIRECT then SLOTS - 1 else k - 1
  }

  // Whether block b is still marked when the slots of inode i up to rank m are freed.
  predicate BitFreed(a: Fs, bitmap: seq<bool>, i: nat, m: nat, b: nat)
    requires b < |a.bitmap| && b < |a.owner| && b < |bitmap|
  {
    var gone := a.owner[b].Some? && a.owner[b].value.inum == i && Rank(a.owner[b].value.k) < m;
    bitmap[b] <==> a.bitmap[b] && !gone
  }

  ghost predicate BitsFreed(a: Fs, bitmap: seq<bool>, i: nat, m: nat) {
    && Shape(a) && |bitmap| == |a.bitmap|
    && (forall b :: 0 <= b < |bitmap| ==> BitFreed(a, bitmap, i, m, b))
  }

  lemma RankOne(j: nat, k: nat)
    requires j < SLOTS && k < SLOTS && Rank(j) == Rank(k)
    ensures j == k
  {
  }

  lemma RankBelow(k: nat)
    requires k < SLOTS
    ensures Rank(k) < SLOTS
  {
  }

  // The next slot in order: an empty one changes nothing, another one names a marked block, so
  // bfree does not panic.
  lemma FreeNext(a: Fs, bitmap: seq<bool>, i: nat, m: nat, k: nat)
    requires Owned(a) && i < |a.inodes| && k < SLOTS && Rank(k) == m && BitsFreed(a, bitmap, i, m)
    ensures var b := Addr(a, i, k);
            if b == 0 then BitsFreed(a, bitmap, i, m + 1)
            else b < |bitmap| && bitmap[b] && BitsFreed(a, bitmap[b := false], i, m + 1)
  {
    var b := Addr(a, i, k);
    assert SlotOwns(a, i, k);
    if b != 0 {
      assert BlockOwned(a, b) && BitFreed(a, bitmap, i, m, b);
    }
    var after, next := if b == 0 then bitmap else bitmap[b := false], m + 1;
    forall c | 0 <= c < |bitmap| ensures BitFreed(a, after, i, next, c) {
      assert BlockOwned(a, c) && BitFreed(a, bitmap, i, m, c);
      if a.owner[c].Some? && a.owner[c].value.inum == i && Rank(a.owner[c].value.k) == m {
        RankOne(a.owner[c].value.k, k);
      }
    }
  }

  function FreedLog(l: Layout, a: Fs, bitmap: seq<bool>): set<nat> {
    set b: nat | b < |bitmap| && b < |a.bitmap| && a.bitmap[b] && !bitmap[b] :: BitmapBlock(l, b)
  }

  lemma FreedLogNext(l: Layout, a: Fs, bitmap: seq<bool>, b: nat)
    requires b < |bitmap| == |a.bitmap| && bitmap[b] && a.bitmap[b]
    ensures FreedLog(l, a, bitmap[b := false]) == FreedLog(l, a, bitmap) + {BitmapBlock(l, b)}
  {
  }

  // ----- The file system after itrunc

  predicate Mine(o: Option<Slot>, i: nat) {
    o.Some? && o.value.inum == i
  }

  function NoAddrs(): Addrs {
    seq(13, _ => 0)
  }

  function Truncated(a: Fs, i: nat): Fs
    requires i < |a.inodes| && |a.owner| == |a.bitmap|
  {
    a.(bitmap := seq(|a.bitmap|, b requires 0 <= b < |a.bitmap| => a.bitmap[b] && !Mine(a.owner[b], i)),
       owner := seq(|a.owner|, b requires 0 <= b < |a.owner| => if Mine(a.owner[b], i) then None else a.owner[b]),
       inodes := a.inodes[i := a.inodes[i].(size := 0, addrs := NoAddrs())])
  }

  lemma AllFreed(a: Fs, bitmap: seq<bool>, i: nat)
    requires Owned(a) && i < |a.inodes| && BitsFreed(a, bitmap, i, SLOTS)
    ensures bitmap == Truncated(a, i).bitmap
  {
    forall b | 0 <= b < |bitmap| ensures bitmap[b] == Truncated(a, i).bitmap[b] {
      assert BlockOwned(a, b) && BitFreed(a, bitmap, i, SLOTS, b);
      if a.owner[b].Some? {
        RankBelow(a.owner[b].value.k);
      }
    }
  }

  lemma TruncatedAddr(a: Fs, i: nat, j: nat, k: nat)
    requires Owned(a) && i < |a.inodes|
    ensures Addr(Truncated(a, i), j, k) == if j == i then 0 else Addr(a, j, k)
  {
  }

  // Only the blocks of file i are free again, and everything else is as it was.
  lemma TruncatedKeeps(a: Fs, i: nat)
    requires Owned(a) && i < |a.inodes|
    ensures Owned(Truncated(a, i))
  {
    var n := Truncated(a, i);
    forall j, k ensures SlotOwns(n, j, k) {
      TruncatedAddr(a, i, j, k);
      assert SlotOwns(a, j, k);
    }
    forall b | 0 <= b < |n.bitmap| ensures BlockOwned(n, b) {
      assert BlockOwned(a, b);
      if a.owner[b].Some? {
        TruncatedAddr(a, i, a.owner[b].value.inum, a.owner[b].value.k);
      }
    }
  }

  lemma TruncatedNoHoles(a: Fs, i: nat)
    requires Owned(a) && NoHoles(a) && i < |a.inodes|
    ensures NoHoles(Truncated(a, i))
  {
    var n := Truncated(a, i);
    forall j | 0 <= j < |n.inodes| ensures FilledTo(n, j, n.inodes[j].size) {
      forall k ensures Addr(n, j, k) == if j == i then 0 else Addr(a, j, k) {
        TruncatedAddr(a, i, j, k);
      }
      if j != i {
        assert FilledTo(a, j, a.inodes[j].size);
        SameFill(a, n, j, a.inodes[j].size);
      }
    }
  }

  lemma TruncatedContent(a: Fs, i: nat, j: nat)
    requires Owned(a) && i < |a.inodes| && j < |a.inodes|
    ensures Content(Truncated(a, i), j) == if j == i then [] else Content(a, j)
  {
  }

  lemma TruncatedClean(a: Fs, i: nat)
    requires Owned(a) && Clean(a) && i < |a.inodes|
    ensures Clean(Truncated(a, i))
  {
    var n := Truncated(a, i);
    forall j: nat, p: nat | j < |n.inodes| && p >= n.inodes[j].size ensures ByteAt(n, j, p) == 0 {
      TruncatedAddr(a, i, j, DataSlot(p / BSIZE));
      assert j != i ==> ByteAt(a, j, p) == 0;
    }
  }

  // ----- Every run of bmap and itrunc

  datatype Action = Map(i: nat, q: nat) | Trunc(i: nat)

  ghost predicate Next(a: Fs, act: Action, n: Fs) {
    match act
    case Map(i, q) => i < |a.inodes| && CanMap(a, i, q) && n == Mapped(a, i, q)
    case Trunc(i) => i < |a.inodes| && |a.owner| == |a.bitmap| && n == Truncated(a, i)
  }

  ghost predicate Run(a: Fs, acts: seq<Action>, n: Fs)
    decreases |acts|
  {
    if acts == [] then n == a
    else
      var front, last := acts[..|acts| - 1], acts[|acts| - 1];
      exists m :: Run(a, front, m) && Next(m, last, n)
  }

  // In every reachable state each block in use has one slot, the bitmap marks metadata and owned
  // blocks only, and truncating any file would free just its own blocks.
  lemma {:induction false} OwnershipRun(a: Fs, acts: seq<Action>, n: Fs)
    requires Owned(a) && Run(a, acts, n)
    ensures Owned(n) && n.meta == a.meta && |n.bitmap| == |a.bitmap|
    ensures forall i, b :: 0 <= i < |n.inodes| && 0 <= b < |n.bitmap| ==>
              (n.bitmap[b] && !Truncated(n, i).bitmap[b] <==> Mine(n.owner[b], i))
    decreases |acts|
  {
    if acts != [] {
      var front, last := acts[..|acts| - 1], acts[|acts| - 1];
      var m :| Run(a, front, m) && Next(m, last, n);
      OwnershipRun(a, front, m);
      match last
      case Map(i, q) => MappedKeeps(m, i, q);
      case Trunc(i) => TruncatedKeeps(m, i);
    }
    forall i, b | 0 <= i < |n.inodes| && 0 <= b < |n.bitmap|
      ensures n.bitmap[b] && !Truncated(n, i).bitmap[b] <==> Mine(n.owner[b], i)
    {
      assert BlockOwned(n, b);
    }
  }
}
