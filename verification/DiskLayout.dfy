/** The file system as it lies on disk (fs.h): bitmap blocks, inode blocks and data blocks, as the
    words that the log copies. What is on disk determines the file system. */
module DiskLayout {
  import opened Params
  import opened FileBlocks
  import opened WriteLog
  import L = Log

  // ----- Bits, shorts and bytes in words

  // Bits as a number, the first one lowest.
  function BitsWord(bits: seq<bool>): nat {
    if bits == [] then 0 else (if bits[0] then 1 else 0) + 2 * BitsWord(bits[1..])
  }

  function Bit(w: nat, j: nat): bool {
    if j == 0 then w % 2 == 1 else Bit(w / 2, j - 1)
  }

  lemma {:induction false} BitOfWord(bits: seq<bool>, j: nat)
    requires j < |bits|
    ensures Bit(BitsWord(bits), j) == bits[j]
  {
    if j > 0 {
      BitOfWord(bits[1..], j - 1);
    }
  }

  // The 32 bits of the bitmap from number from on; bits past its end are clear.
  function Window(bitmap: seq<bool>, from: nat): seq<bool> {
    seq(32, j requires 0 <= j => from + j < |bitmap| && bitmap[from + j])
  }

  predicate IsShort(x: int) {
    -0x8000 <= x < 0x8000
  }

  function Short(x: int): nat {
    x % 0x1_0000
  }

  lemma ShortPair(a: int, b: int, c: int, d: int)
    requires IsShort(a) && IsShort(b) && IsShort(c) && IsShort(d)
    requires Short(a) + 0x1_0000 * Short(b) == Short(c) + 0x1_0000 * Short(d)
    ensures a == c && b == d
  {
    assert Short(a) == Short(c) && Short(b) == Short(d);
  }

  // The words of struct dinode.
  function InodeWord(ip: Inode, k: nat): int
    requires k < 16
  {
    if k == 0 then Short(ip.kind) + 0x1_0000 * Short(ip.major)
    else if k == 1 then Short(ip.minor) + 0x1_0000 * Short(ip.nlink)
    else if k == 2 then ip.size
    else ip.addrs[k - 3]
  }

  predicate ShortFields(ip: Inode) {
    IsShort(ip.kind) && IsShort(ip.major) && IsShort(ip.minor) && IsShort(ip.nlink)
  }

  lemma InodeOfWords(x: Inode, y: Inode)
    requires ShortFields(x) && ShortFields(y) && forall k :: 0 <= k < 16 ==> InodeWord(x, k) == InodeWord(y, k)
    ensures x == y
  {
    assert InodeWord(x, 0) == InodeWord(y, 0) && InodeWord(x, 1) == InodeWord(y, 1) && InodeWord(x, 2) == InodeWord(y, 2);
    ShortPair(x.kind, x.major, y.kind, y.major);
    ShortPair(x.minor, x.nlink, y.minor, y.nlink);
    forall k | 0 <= k < 13 ensures x.addrs[k] == y.addrs[k] {
      assert InodeWord(x, k + 3) == InodeWord(y, k + 3);
    }
    assert x.addrs == y.addrs;
  }

  function Words(b: Block): L.Block {
    seq(128, w requires 0 <= w < 128 => GetWord(b, w))
  }

  lemma LowByte(a: Byte, x: int, b: Byte, y: int)
    requires (a as int) + 0x100 * x == (b as int) + 0x100 * y
    ensures a == b && x == y
  {
  }

  lemma FourBytes(a: Byte, b: Byte, c: Byte, d: Byte, e: Byte, f: Byte, g: Byte, h: Byte)
    requires (a as int) + 0x100 * b + 0x1_0000 * c + 0x100_0000 * d == (e as int) + 0x100 * f + 0x1_0000 * g + 0x100_0000 * h
    ensures a == e && b == f && c == g && d == h
  {
    var cd, gh := (c as int) + 0x100 * d, (g as int) + 0x100 * h;
    LowByte(a, (b as int) + 0x100 * cd, e, (f as int) + 0x100 * gh);
    LowByte(b, cd, f, gh);
    LowByte(c, d, g, h);
  }

  lemma BlockOfWords(x: Block, y: Block)
    requires Words(x) == Words(y)
    ensures x == y
  {
    forall p | 0 <= p < 512 ensures x[p] == y[p] {
      var j := p / 4;
      assert Words(x)[j] == Words(y)[j];
      FourBytes(x[4 * j], x[4 * j + 1], x[4 * j + 2], x[4 * j + 3], y[4 * j], y[4 * j + 1], y[4 * j + 2], y[4 * j + 3]);
    }
  }

  // ----- Every block of the disk

  predicate BitmapArea(l: Layout, fs: Fs, b: nat) {
    l.bmapstart <= b && (b - l.bmapstart) * BPB < |fs.bitmap|
  }

  predicate InodeArea(l: Layout, fs: Fs, b: nat) {
    l.inodestart <= b && (b - l.inodestart) * IPB < |fs.inodes|
  }

  function BitmapWord(bitmap: seq<bool>, from: nat, w: nat): int {
    BitsWord(Window(bitmap, from + 32 * w))
  }

  function BitmapWords(bitmap: seq<bool>, from: nat): L.Block {
    seq(128, w requires 0 <= w => BitmapWord(bitmap, from, w))
  }

  function InodesWord(inodes: seq<Inode>, i: nat, k: nat): int
    requires k < 16
  {
    if i < |inodes| then InodeWord(inodes[i], k) else 0
  }

  function InodeWords(inodes: seq<Inode>, from: nat): L.Block {
    seq(128, w requires 0 <= w => InodesWord(inodes, from + w / 16, w % 16))
  }

  function BlockOnDisk(l: Layout, fs: Fs, b: nat): L.Block {
    if BitmapArea(l, fs, b) then BitmapWords(fs.bitmap, (b - l.bmapstart) * BPB)
    else if InodeArea(l, fs, b) then InodeWords(fs.inodes, (b - l.inodestart) * IPB)
    else if b < |fs.blocks| then Words(fs.blocks[b])
    else seq(128, _ => 0)
  }

  // The home blocks of d that do not hold what fs asks for.
  function Differing(l: Layout, g: L.Geometry, fs: Fs, d: L.Disk): set<nat> {
    set b: nat | b < |d| && L.Home(g, d, b) && d[b] != BlockOnDisk(l, fs, b)
  }

  // The home blocks of d hold fs.
  predicate OnDisk(l: Layout, g: L.Geometry, fs: Fs, d: L.Disk) {
    |d| == |fs.blocks| && Differing(l, g, fs, d) == {}
  }

  lemma OnDiskAt(l: Layout, g: L.Geometry, fs: Fs, d: L.Disk, b: nat)
    requires OnDisk(l, g, fs, d) && L.Home(g, d, b)
    ensures d[b] == BlockOnDisk(l, fs, b)
  {
    assert b !in Differing(l, g, fs, d);
  }

  predicate AreaPlaced(l: Layout, g: L.Geometry, fs: Fs, b: nat) {
    && (BitmapArea(l, fs, b) ==> b < fs.meta && !InodeArea(l, fs, b) && !L.InLog(g, b))
    && (InodeArea(l, fs, b) ==> b < fs.meta && !L.InLog(g, b))
    && (L.InLog(g, b) ==> b < fs.meta)
  }

  // The log, the inodes and the bitmap lie apart, below the data blocks.
  ghost predicate Placed(l: Layout, g: L.Geometry, fs: Fs) {
    forall b: nat :: AreaPlaced(l, g, fs, b)
  }

  ghost predicate Fielded(fs: Fs) {
    forall i :: 0 <= i < |fs.inodes| ==> ShortFields(fs.inodes[i])
  }

  predicate SameShape(a: Fs, n: Fs) {
    a.meta == n.meta && |a.bitmap| == |n.bitmap| && |a.blocks| == |n.blocks| && |a.inodes| == |n.inodes|
  }

  // ----- What is on disk determines the file system

  // Where bit b of the bitmap is: in word w of its block, at place j.
  lemma BitPlace(b: nat) returns (from: nat, w: nat, j: nat)
    ensures from == b / BPB * BPB && w < 128 && j < 32 && from + 32 * w + j == b
  {
    var q := b / 4096;
    var r := b - 4096 * q;
    w := r / 32;
    from, j := 4096 * q, r - 32 * w;
  }

  lemma SameWordBit(x: seq<bool>, y: seq<bool>, from: nat, w: nat, j: nat, b: nat)
    requires |x| == |y| && j < 32 && from + 32 * w + j == b < |x|
    requires BitmapWord(x, from, w) == BitmapWord(y, from, w)
    ensures x[b] == y[b]
  {
    BitOfWord(Window(x, from + 32 * w), j);
    BitOfWord(Window(y, from + 32 * w), j);
  }

  lemma WordAt(bitmap: seq<bool>, from: nat, w: nat)
    requires w < 128
    ensures BitmapWords(bitmap, from)[w] == BitmapWord(bitmap, from, w)
  {
  }

  lemma BitmapOnDisk(l: Layout, fs: Fs, b: nat)
    requires b < |fs.bitmap|
    ensures BlockOnDisk(l, fs, BitmapBlock(l, b)) == BitmapWords(fs.bitmap, b / BPB * BPB)
  {
    assert b / BPB * BPB <= b;
  }

  lemma BitDetermined(l: Layout, a: Fs, n: Fs, b: nat)
    requires SameShape(a, n) && b < |a.bitmap|
    requires BlockOnDisk(l, a, BitmapBlock(l, b)) == BlockOnDisk(l, n, BitmapBlock(l, b))
    ensures a.bitmap[b] == n.bitmap[b]
  {
    BitmapOnDisk(l, a, b);
    BitmapOnDisk(l, n, b);
    var from, w, j := BitPlace(b);
    WordAt(a.bitmap, from, w);
    WordAt(n.bitmap, from, w);
    SameWordBit(a.bitmap, n.bitmap, from, w, j, b);
  }

  lemma InodeDetermined(l: Layout, g: L.Geometry, a: Fs, n: Fs, i: nat)
    requires SameShape(a, n) && i < |a.inodes| && Placed(l, g, a) && Placed(l, g, n) && Fielded(a) && Fielded(n)
    requires BlockOnDisk(l, a, InodeBlock(l, i)) == BlockOnDisk(l, n, InodeBlock(l, i))
    ensures a.inodes[i] == n.inodes[i]
  {
    var from, b := i / IPB * IPB, InodeBlock(l, i);
    assert AreaPlaced(l, g, a, b) && InodeArea(l, a, b);
    forall k | 0 <= k < 16 ensures InodeWord(a.inodes[i], k) == InodeWord(n.inodes[i], k) {
      var w := i % IPB * 16 + k;
      assert w / 16 == i % IPB && w % 16 == k && from + w / 16 == i;
      assert InodeWords(a.inodes, from)[w] == InodeWords(n.inodes, from)[w];
    }
    InodeOfWords(a.inodes[i], n.inodes[i]);
  }

  lemma DataDetermined(l: Layout, g: L.Geometry, a: Fs, n: Fs, b: nat)
    requires SameShape(a, n) && a.meta <= b < |a.blocks| && Placed(l, g, a)
    requires BlockOnDisk(l, a, b) == BlockOnDisk(l, n, b)
    ensures a.blocks[b] == n.blocks[b]
  {
    assert AreaPlaced(l, g, a, b);
    BlockOfWords(a.blocks[b], n.blocks[b]);
  }

  // Two file systems on the same disk have the same bitmap, inodes and data blocks.
  lemma Determined(l: Layout, g: L.Geometry, a: Fs, n: Fs, d: L.Disk)
    requires SameShape(a, n) && Placed(l, g, a) && Placed(l, g, n) && Fielded(a) && Fielded(n)
    requires Shape(a) && OnDisk(l, g, a, d) && OnDisk(l, g, n, d)
    ensures a.bitmap == n.bitmap && a.inodes == n.inodes && a.blocks[a.meta..] == n.blocks[a.meta..]
  {
    forall b | 0 <= b < |a.bitmap| ensures a.bitmap[b] == n.bitmap[b] {
      var x := BitmapBlock(l, b);
      assert BitmapArea(l, a, x) && AreaPlaced(l, g, a, x) && L.Home(g, d, x);
      OnDiskAt(l, g, a, d, x);
      OnDiskAt(l, g, n, d, x);
      BitDetermined(l, a, n, b);
    }
    forall i | 0 <= i < |a.inodes| ensures a.inodes[i] == n.inodes[i] {
      var x := InodeBlock(l, i);
      assert InodeArea(l, a, x) && AreaPlaced(l, g, a, x) && L.Home(g, d, x);
      OnDiskAt(l, g, a, d, x);
      OnDiskAt(l, g, n, d, x);
      InodeDetermined(l, g, a, n, i);
    }
    forall b | a.meta <= b < |a.blocks| ensures a.blocks[b] == n.blocks[b] {
      assert AreaPlaced(l, g, a, b) && L.Home(g, d, b);
      OnDiskAt(l, g, a, d, b);
      OnDiskAt(l, g, n, d, b);
      DataDetermined(l, g, a, n, b);
    }
  }

  // So all files read the same.
  lemma SameFilesOnDisk(l: Layout, g: L.Geometry, a: Fs, n: Fs, d: L.Disk, i: nat)
    requires SameShape(a, n) && Placed(l, g, a) && Placed(l, g, n) && Fielded(a) && Fielded(n)
    requires Owned(a) && Owned(n) && OnDisk(l, g, a, d) && OnDisk(l, g, n, d) && i < |a.inodes|
    ensures Content(a, i) == Content(n, i)
  {
    Determined(l, g, a, n, d);
    forall b | a.meta <= b < |a.blocks| ensures a.blocks[b] == n.blocks[b] {
      assert a.blocks[b] == a.blocks[a.meta..][b - a.meta] && n.blocks[b] == n.blocks[a.meta..][b - a.meta];
    }
    forall k ensures Addr(a, i, k) == Addr(n, i, k) && (Addr(a, i, k) != 0 ==> a.meta <= Addr(a, i, k) < |a.blocks|) {
      assert SlotOwns(a, i, k) && SlotOwns(a, i, NDIRECT);
      var x, y := Addr(a, i, k), Addr(a, i, NDIRECT);
      assert x != 0 ==> BlockOwned(a, x);
      assert y != 0 ==> BlockOwned(a, y);
    }
  }
}
