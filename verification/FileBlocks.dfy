/** What fs.c keeps on disk: blocks, the free bitmap and inodes, with the owner of every block.
    The first part is pure: slots, ownership, and the two changes a file makes to its blocks. */
module FileBlocks {
  import opened Params

  const BSIZE: nat := 512
  const NDIRECT: nat := 12
  const NINDIRECT: nat := 128
  const MAXFILE: nat := 140
  const SLOTS: nat := 141      // the direct blocks, the indirect block and its entries

  type Block = b: seq<Byte> | |b| == 512 witness seq(512, _ => 0)
  type Addrs = a: seq<nat> | |a| == 13 witness seq(13, _ => 0)

  function ZeroBlock(): Block {
    seq(512, _ => 0)
  }

  // ----- An indirect block is 128 words, least significant byte first

  function GetWord(b: Block, j: nat): (w: nat)
    requires j < NINDIRECT
    ensures w < WORD
  {
    var b0: int, b1: int, b2: int, b3: int := b[4 * j], b[4 * j + 1], b[4 * j + 2], b[4 * j + 3];
    b0 + 0x100 * b1 + 0x1_0000 * b2 + 0x100_0000 * b3
  }

  function SetWord(b: Block, j: nat, w: nat): Block
    requires j < NINDIRECT && w < WORD
  {
    b[4 * j := w % 0x100][4 * j + 1 := w / 0x100 % 0x100][4 * j + 2 := w / 0x1_0000 % 0x100][4 * j + 3 := w / 0x100_0000]
  }

  lemma WordBytes(w: nat)
    requires w < WORD
    ensures w % 0x100 + 0x100 * (w / 0x100 % 0x100) + 0x1_0000 * (w / 0x1_0000 % 0x100) + 0x100_0000 * (w / 0x100_0000) == w
  {
    assert w / 0x100 / 0x100 == w / 0x1_0000;
    assert w / 0x1_0000 / 0x100 == w / 0x100_0000;
  }

  lemma GetSetWord(b: Block, j: nat, w: nat, k: nat)
    requires j < NINDIRECT && k < NINDIRECT && w < WORD
    ensures GetWord(SetWord(b, j, w), k) == if k == j then w else GetWord(b, k)
  {
    WordBytes(w);
  }

  lemma ZeroWord(j: nat)
    requires j < NINDIRECT
    ensures GetWord(ZeroBlock(), j) == 0
  {
  }

  // ----- The file system

  datatype Inode = Inode(kind: int, major: int, minor: int, nlink: int, size: nat, addrs: Addrs)

  // The place that refers to a block: slot k of inode inum. Slots 0 to 11 are the direct
  // addresses, 12 is the indirect block, 13 on are its entries.
  datatype Slot = Slot(inum: nat, k: nat)

  datatype Fs = Fs(
    meta: nat,                       // blocks below are boot, super, log, inode and bitmap blocks
    bitmap: seq<bool>,               // true: in use
    blocks: seq<Block>,              // the latest contents of every block
    inodes: seq<Inode>,              // as in memory
    owner: seq<Option<Slot>>)        // for the statements: who refers to each block

  // The block in slot k of inode i, 0 if there is none.
  function Addr(fs: Fs, i: nat, k: nat): nat {
    if i >= |fs.inodes| || k >= SLOTS then 0
    else if k <= NDIRECT then fs.inodes[i].addrs[k]
    else
      var a := fs.inodes[i].addrs[NDIRECT];
      if a == 0 || a >= |fs.blocks| then 0 else GetWord(fs.blocks[a], k - NDIRECT - 1)
  }

  // The slot of the file's n-th data block.
  function DataSlot(n: nat): nat {
    if n < NDIRECT then n else n + 1
  }

  ghost predicate Shape(fs: Fs) {
    && 0 < fs.meta <= |fs.bitmap| == |fs.blocks| == |fs.owner| <= WORD
  }

  predicate SlotOwns(fs: Fs, i: nat, k: nat) {
    var a := Addr(fs, i, k);
    a != 0 ==> a < |fs.owner| && fs.owner[a] == Some(Slot(i, k))
  }

  predicate BlockOwned(fs: Fs, b: nat)
    requires b < |fs.owner| && b < |fs.bitmap|
  {
    && (fs.bitmap[b] <==> b < fs.meta || fs.owner[b].Some?)
    && (fs.owner[b].Some? ==>
          var s := fs.owner[b].value;
          b >= fs.meta && s.inum < |fs.inodes| && s.k < SLOTS && Addr(fs, s.inum, s.k) == b)
  }

  // Every block that a slot names is owned by that slot alone, and the bitmap marks exactly the
  // blocks below meta and the owned ones.
  ghost predicate Owned(fs: Fs) {
    && Shape(fs)
    && (forall i, k :: SlotOwns(fs, i, k))
    && (forall b :: 0 <= b < |fs.bitmap| ==> BlockOwned(fs, b))
  }

  // ----- A new block for an empty slot

  function SetAddr(ip: Inode, k: nat, b: nat): Inode
    requires k <= NDIRECT
  {
    ip.(addrs := ip.addrs[k := b])
  }

  // balloc's zeroed block b goes into slot k of inode i.
  function Assign(fs: Fs, i: nat, k: nat, b: nat): Fs
    requires Shape(fs) && i < |fs.inodes| && k < SLOTS && b < |fs.bitmap|
    requires k > NDIRECT ==> fs.inodes[i].addrs[NDIRECT] < |fs.blocks|
  {
    var n := fs.(bitmap := fs.bitmap[b := true], blocks := fs.blocks[b := ZeroBlock()],
                 owner := fs.owner[b := Some(Slot(i, k))]);
    if k <= NDIRECT then n.(inodes := fs.inodes[i := SetAddr(fs.inodes[i], k, b)])
    else
      var a := fs.inodes[i].addrs[NDIRECT];
      n.(blocks := n.blocks[a := SetWord(n.blocks[a], k - NDIRECT - 1, b)])
  }

  // Slot k of inode i can take the free block b.
  ghost predicate CanAssign(fs: Fs, i: nat, k: nat, b: nat) {
    && Owned(fs) && i < |fs.inodes| && k < SLOTS && Addr(fs, i, k) == 0
    && b < |fs.bitmap| && !fs.bitmap[b]
    && (k > NDIRECT ==> Addr(fs, i, NDIRECT) != 0)
  }

  lemma AssignAddr(fs: Fs, i: nat, k: nat, b: nat, i2: nat, k2: nat)
    requires CanAssign(fs, i, k, b)
    ensures k > NDIRECT ==> fs.inodes[i].addrs[NDIRECT] < |fs.blocks|
    ensures Addr(Assign(fs, i, k, b), i2, k2) == if i2 == i && k2 == k then b else Addr(fs, i2, k2)
  {
    assert BlockOwned(fs, b);
    assert SlotOwns(fs, i, NDIRECT) && SlotOwns(fs, i2, NDIRECT) && SlotOwns(fs, i2, k2);
    if NDIRECT < k2 < SLOTS {
      ZeroWord(k2 - NDIRECT - 1);
      if NDIRECT < k && Addr(fs, i, NDIRECT) != 0 {
        GetSetWord(fs.blocks[fs.inodes[i].addrs[NDIRECT]], k - NDIRECT - 1, b, k2 - NDIRECT - 1);
      }
    }
  }

  lemma AssignKeeps(fs: Fs, i: nat, k: nat, b: nat)
    requires CanAssign(fs, i, k, b)
    ensures k > NDIRECT ==> fs.inodes[i].addrs[NDIRECT] < |fs.blocks|
    ensures Owned(Assign(fs, i, k, b)) && b >= fs.meta
  {
    AssignAddr(fs, i, k, b, i, k);
    var n := Assign(fs, i, k, b);
    assert BlockOwned(fs, b);
    forall i2, k2 ensures SlotOwns(n, i2, k2) {
      AssignAddr(fs, i, k, b, i2, k2);
      assert SlotOwns(fs, i2, k2);
    }
    forall b2 | 0 <= b2 < |n.bitmap| ensures BlockOwned(n, b2) {
      assert BlockOwned(fs, b2);
      if fs.owner[b2].Some? {
        AssignAddr(fs, i, k, b, fs.owner[b2].value.inum, fs.owner[b2].value.k);
      }
    }
  }

  // ----- balloc's choice

  // The first free block from b on, or the number of blocks.
  function FirstFree(bitmap: seq<bool>, b: nat): (f: nat)
    requires b <= |bitmap|
    ensures b <= f <= |bitmap|
    ensures forall c :: b <= c < f ==> bitmap[c]
    ensures f < |bitmap| ==> !bitmap[f]
    decreases |bitmap| - b
  {
    if b == |bitmap| || !bitmap[b] then b else FirstFree(bitmap, b + 1)
  }

  ghost predicate Full(fs: Fs) {
    forall b :: 0 <= b < |fs.bitmap| ==> fs.bitmap[b]
  }

  // ----- bmap on one slot: the block that is there, or a new one

  ghost predicate CanEnsure(fs: Fs, i: nat, k: nat) {
    && Owned(fs) && i < |fs.inodes| && k < SLOTS
    && (k > NDIRECT ==> Addr(fs, i, NDIRECT) != 0)
    && (Addr(fs, i, k) != 0 || !Full(fs))
  }

  lemma FreeFound(fs: Fs, i: nat, k: nat)
    requires CanEnsure(fs, i, k) && Addr(fs, i, k) == 0
    ensures CanAssign(fs, i, k, FirstFree(fs.bitmap, 0))
  {
  }

  ghost function Ensured(fs: Fs, i: nat, k: nat): Fs
    requires CanEnsure(fs, i, k)
  {
    if Addr(fs, i, k) != 0 then fs
    else
      FreeFound(fs, i, k);
      AssignAddr(fs, i, k, FirstFree(fs.bitmap, 0), i, k);
      Assign(fs, i, k, FirstFree(fs.bitmap, 0))
  }

  lemma EnsuredAddr(fs: Fs, i: nat, k: nat, i2: nat, k2: nat)
    requires CanEnsure(fs, i, k)
    ensures Addr(Ensured(fs, i, k), i, k) != 0
    ensures !(i2 == i && k2 == k) ==> Addr(Ensured(fs, i, k), i2, k2) == Addr(fs, i2, k2)
    ensures Addr(fs, i2, k2) != 0 ==> Addr(Ensured(fs, i, k), i2, k2) == Addr(fs, i2, k2)
  {
    if Addr(fs, i, k) == 0 {
      FreeFound(fs, i, k);
      AssignKeeps(fs, i, k, FirstFree(fs.bitmap, 0));
      AssignAddr(fs, i, k, FirstFree(fs.bitmap, 0), i2, k2);
      AssignAddr(fs, i, k, FirstFree(fs.bitmap, 0), i, k);
    }
  }

  lemma EnsuredKeeps(fs: Fs, i: nat, k: nat)
    requires CanEnsure(fs, i, k)
    ensures Owned(Ensured(fs, i, k))
  {
    if Addr(fs, i, k) == 0 {
      FreeFound(fs, i, k);
      AssignKeeps(fs, i, k, FirstFree(fs.bitmap, 0));
    }
  }

  // ----- The bytes of a file

  function ByteAt(fs: Fs, i: nat, p: nat): Byte {
    var a := Addr(fs, i, DataSlot(p / BSIZE));
    if a == 0 || a >= |fs.blocks| then 0 else fs.blocks[a][p % BSIZE]
  }

  function Content(fs: Fs, i: nat): seq<Byte>
    requires i < |fs.inodes|
  {
    seq(fs.inodes[i].size, p requires 0 <= p => ByteAt(fs, i, p))
  }

  // A new block changes no byte that was there.
  lemma EnsuredByte(fs: Fs, i: nat, k: nat, i2: nat, p: nat)
    requires CanEnsure(fs, i, k)
    ensures ByteAt(Ensured(fs, i, k), i2, p) == ByteAt(fs, i2, p)
  {
    var a := Addr(fs, i2, DataSlot(p / BSIZE));
    EnsuredAddr(fs, i, k, i2, DataSlot(p / BSIZE));
    assert SlotOwns(fs, i2, DataSlot(p / BSIZE)) && SlotOwns(fs, i, NDIRECT);
    if a != 0 {
      assert BlockOwned(fs, a);
    }
    if Addr(fs, i, k) == 0 {
      var b := FirstFree(fs.bitmap, 0);
      FreeFound(fs, i, k);
      AssignAddr(fs, i, k, b, i, k);
      assert BlockOwned(fs, b);
    }
  }

  // ----- Storing into a data block

  function Store(fs: Fs, a: nat, blk: Block): Fs
    requires a < |fs.blocks|
  {
    fs.(blocks := fs.blocks[a := blk])
  }

  lemma StoreAddr(fs: Fs, i: nat, k: nat, blk: Block, i2: nat, k2: nat)
    requires Owned(fs) && Addr(fs, i, k) != 0 && k != NDIRECT
    ensures Addr(fs, i, k) < |fs.blocks|
    ensures Addr(Store(fs, Addr(fs, i, k), blk), i2, k2) == Addr(fs, i2, k2)
  {
    assert SlotOwns(fs, i, k) && SlotOwns(fs, i2, NDIRECT);
  }

  lemma StoreKeeps(fs: Fs, i: nat, k: nat, blk: Block)
    requires Owned(fs) && Addr(fs, i, k) != 0 && k != NDIRECT
    ensures Addr(fs, i, k) < |fs.blocks|
    ensures Owned(Store(fs, Addr(fs, i, k), blk))
  {
    StoreAddr(fs, i, k, blk, 0, 0);
    var n := Store(fs, Addr(fs, i, k), blk);
    forall i2, k2 ensures SlotOwns(n, i2, k2) {
      StoreAddr(fs, i, k, blk, i2, k2);
      assert SlotOwns(fs, i2, k2);
    }
    forall b | 0 <= b < |n.bitmap| ensures BlockOwned(n, b) {
      assert BlockOwned(fs, b);
      if fs.owner[b].Some? {
        StoreAddr(fs, i, k, blk, fs.owner[b].value.inum, fs.owner[b].value.k);
      }
    }
  }

  lemma DataSlotOne(m: nat, n: nat)
    ensures DataSlot(m) == DataSlot(n) <==> m == n
    ensures DataSlot(m) != NDIRECT
  {
  }

  lemma StoreByte(fs: Fs, i: nat, q: nat, blk: Block, i2: nat, p: nat)
    requires Owned(fs) && Addr(fs, i, DataSlot(q)) != 0
    ensures Addr(fs, i, DataSlot(q)) < |fs.blocks|
    ensures ByteAt(Store(fs, Addr(fs, i, DataSlot(q)), blk), i2, p)
            == if i2 == i && p / BSIZE == q then blk[p % BSIZE] else ByteAt(fs, i2, p)
  {
    DataSlotOne(q, p / BSIZE);
    StoreAddr(fs, i, DataSlot(q), blk, i2, DataSlot(p / BSIZE));
    assert SlotOwns(fs, i, DataSlot(q)) && SlotOwns(fs, i2, DataSlot(p / BSIZE));
  }

  // ----- No holes

  // Block n of file i is there just when the first e bytes reach it; so is the indirect block.
  predicate BlockThere(fs: Fs, i: nat, e: nat, n: nat) {
    n < MAXFILE ==> (Addr(fs, i, DataSlot(n)) != 0 <==> n * BSIZE < e)
  }

  ghost predicate FilledTo(fs: Fs, i: nat, e: nat) {
    && e <= MAXFILE * BSIZE
    && (forall n :: BlockThere(fs, i, e, n))
    && (Addr(fs, i, NDIRECT) != 0 <==> NDIRECT * BSIZE < e)
  }
}
