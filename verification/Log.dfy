/** The redo log of log.c: what each disk write of a commit and of a recovery is, and
    what survives when the machine stops between any two of them. */
module Log {
  import opened Params

  const WORDS := 128       // BSIZE / sizeof(int)

  // A disk block, seen as the words that the log header overlays on it.
  type Block = b: seq<int> | |b| == WORDS witness seq(WORDS, _ => 0)
  type Disk = seq<Block>

  // Where the log lives: its header block, then size - 1 data blocks.
  datatype Geometry = Geometry(start: nat, size: nat)

  datatype Write = Write(bno: nat, data: Block)

  function Put(d: Disk, w: Write): (r: Disk)
    ensures |r| == |d|
  {
    if w.bno < |d| then d[w.bno := w.data] else d
  }

  function Apply(d: Disk, ws: seq<Write>): (r: Disk)
    ensures |r| == |d|
    decreases |ws|
  {
    if ws == [] then d else Apply(Put(d, ws[0]), ws[1..])
  }

  // ----- The log header, as write_head and read_head lay it out

  predicate InLog(g: Geometry, b: int) {
    g.start <= b < g.start + g.size
  }

  predicate Home(g: Geometry, d: Disk, b: int) {
    0 <= b < |d| && !InLog(g, b)
  }

  predicate Homes(g: Geometry, d: Disk, bs: seq<int>) {
    forall i :: 0 <= i < |bs| ==> Home(g, d, bs[i])
  }

  predicate Distinct(bs: seq<nat>) {
    forall i, j :: 0 <= i < j < |bs| ==> bs[i] != bs[j]
  }

  // What fits: at most LOGSIZE home blocks, each with a log block of its own.
  predicate Loggable(g: Geometry, d: Disk, bs: seq<nat>) {
    && |bs| <= LOGSIZE
    && (bs == [] || |bs| < g.size)
    && Homes(g, d, bs)
    && Distinct(bs)
  }

  predicate ValidHeader(g: Geometry, d: Disk, h: Block) {
    && 0 <= h[0] <= LOGSIZE
    && h[0] < g.size
    && Homes(g, d, h[1..1 + h[0]])
  }

  predicate ValidDisk(g: Geometry, d: Disk) {
    && g.size > 0
    && g.start + g.size <= |d|
    && ValidHeader(g, d, d[g.start])
  }

  predicate Empty(g: Geometry, d: Disk) {
    ValidDisk(g, d) && d[g.start][0] == 0
  }

  // write_head overwrites the count and that many entries; the tail stays as it was.
  function EncodeHead(h: Block, bs: seq<nat>): Block
    requires |bs| <= LOGSIZE
  {
    [|bs|] + bs + h[1 + |bs|..]
  }

  function Entries(g: Geometry, d: Disk): (bs: seq<nat>)
    requires ValidDisk(g, d)
    ensures Homes(g, d, bs) && |bs| == d[g.start][0]
  {
    var h := d[g.start];
    seq(h[0], i requires 0 <= i < h[0] => assert h[1..1 + h[0]][i] == h[1 + i]; h[1 + i])
  }

  // ----- The disk writes of a commit and of a recovery, in order

  function LogCopies(g: Geometry, data: seq<Block>): seq<Write> {
    seq(|data|, i requires 0 <= i < |data| => Write(g.start + 1 + i, data[i]))
  }

  function Installs(bs: seq<nat>, data: seq<Block>): seq<Write>
    requires |bs| == |data|
  {
    seq(|bs|, i requires 0 <= i < |bs| => Write(bs[i], data[i]))
  }

  function NewData(bs: seq<nat>, cache: Disk): seq<Block>
    requires forall i :: 0 <= i < |bs| ==> bs[i] < |cache|
  {
    seq(|bs|, i requires 0 <= i < |bs| => cache[bs[i]])
  }

  function LogData(g: Geometry, n: nat, d: Disk): seq<Block>
    requires g.start + n < |d|
  {
    d[g.start + 1..g.start + 1 + n]
  }

  function CommitWrites(g: Geometry, h: Block, bs: seq<nat>, data: seq<Block>): seq<Write>
    requires |bs| == |data| && |bs| <= LOGSIZE
  {
    if bs == [] then []
    else
      (LogCopies(g, data) + [Write(g.start, EncodeHead(h, bs))])
      + (Installs(bs, data) + [Write(g.start, EncodeHead(EncodeHead(h, bs), []))])
  }

  function RecoverWrites(g: Geometry, d: Disk): seq<Write>
    requires ValidDisk(g, d)
  {
    var bs := Entries(g, d);
    Installs(bs, LogData(g, |bs|, d)) + [Write(g.start, EncodeHead(d[g.start], []))]
  }

  function Recover(g: Geometry, d: Disk): Disk
    requires ValidDisk(g, d)
  {
    Apply(d, RecoverWrites(g, d))
  }

  // ----- Sequences of writes

  lemma {:induction false} ApplyConcat(d: Disk, a: seq<Write>, b: seq<Write>)
    ensures Apply(d, a + b) == Apply(Apply(d, a), b)
    decreases |a|
  {
    if a == [] {
      assert a + b == b;
    } else {
      assert (a + b)[1..] == a[1..] + b;
      ApplyConcat(Put(d, a[0]), a[1..], b);
    }
  }

  lemma ApplyOne(d: Disk, w: Write)
    ensures Apply(d, [w]) == Put(d, w)
  {
  }

  lemma ApplySplit(d: Disk, ws: seq<Write>, n: nat, k: nat)
    requires n <= k <= |ws|
    ensures Apply(d, ws[..k]) == Apply(Apply(d, ws[..n]), ws[n..][..k - n])
  {
    assert ws[..k] == ws[..n] + ws[n..][..k - n];
    ApplyConcat(d, ws[..n], ws[n..][..k - n]);
  }

  lemma {:induction false} ApplyUntouched(d: Disk, ws: seq<Write>, b: nat)
    requires b < |d|
    requires forall i :: 0 <= i < |ws| ==> ws[i].bno != b
    ensures Apply(d, ws)[b] == d[b]
    decreases |ws|
  {
    if ws != [] {
      ApplyUntouched(Put(d, ws[0]), ws[1..], b);
    }
  }

  // Blocks that ws writes anyway do not matter before it runs.
  lemma {:induction false} ApplyOverwrites(d1: Disk, d2: Disk, ws: seq<Write>)
    requires |d1| == |d2|
    requires forall b :: 0 <= b < |d1| ==> d1[b] == d2[b] || exists i :: 0 <= i < |ws| && ws[i].bno == b
    ensures Apply(d1, ws) == Apply(d2, ws)
    decreases |ws|
  {
    if ws != [] {
      var e1, e2 := Put(d1, ws[0]), Put(d2, ws[0]);
      forall b | 0 <= b < |e1| ensures e1[b] == e2[b] || exists i :: 0 <= i < |ws[1..]| && ws[1..][i].bno == b {
        if e1[b] != e2[b] {
          var i :| 0 <= i < |ws| && ws[i].bno == b;
          assert i != 0;
          assert ws[1..][i - 1].bno == b;
        }
      }
      ApplyOverwrites(e1, e2, ws[1..]);
    }
  }

  // Distinct targets: each written block ends up with its own data.
  lemma {:induction false} ApplyHits(d: Disk, ws: seq<Write>, k: nat)
    requires k < |ws| && ws[k].bno < |d|
    requires forall i, j :: 0 <= i < j < |ws| ==> ws[i].bno != ws[j].bno
    ensures Apply(d, ws)[ws[k].bno] == ws[k].data
    decreases |ws|
  {
    if k == 0 {
      ApplyUntouched(Put(d, ws[0]), ws[1..], ws[0].bno);
    } else {
      ApplyHits(Put(d, ws[0]), ws[1..], k - 1);
    }
  }

  // ----- A crashed recovery changes nothing about what recovery yields

  lemma InstallsKeepLog(g: Geometry, d: Disk, bs: seq<nat>, data: seq<Block>, j: nat)
    requires ValidDisk(g, d) && |bs| == |data| && Homes(g, d, bs) && j <= |bs|
    ensures var e := Apply(d, Installs(bs, data)[..j]);
            ValidDisk(g, e) && forall b :: InLog(g, b) ==> e[b] == d[b]
  {
    var e := Apply(d, Installs(bs, data)[..j]);
    forall b | InLog(g, b) ensures e[b] == d[b] {
      ApplyUntouched(d, Installs(bs, data)[..j], b);
    }
    assert e[g.start] == d[g.start];
  }

  lemma RecoverPrefix(g: Geometry, d: Disk, j: nat)
    requires ValidDisk(g, d) && j <= |RecoverWrites(g, d)|
    ensures var e := Apply(d, RecoverWrites(g, d)[..j]);
            ValidDisk(g, e) && Recover(g, e) == Recover(g, d)
  {
    var bs := Entries(g, d);
    var data := LogData(g, |bs|, d);
    var installs := Installs(bs, data);
    var ws := RecoverWrites(g, d);
    if j <= |bs| {
      var e := Apply(d, installs[..j]);
      assert ws[..j] == installs[..j];
      InstallsKeepLog(g, d, bs, data, j);
      assert Entries(g, e) == bs && LogData(g, |bs|, e) == data;
      forall b | 0 <= b < |d| ensures e[b] == d[b] || exists i :: 0 <= i < |ws| && ws[i].bno == b {
        if forall i :: 0 <= i < j ==> installs[i].bno != b {
          ApplyUntouched(d, installs[..j], b);
        } else {
          var i :| 0 <= i < j && installs[i].bno == b;
          assert ws[i].bno == b;
        }
      }
      ApplyOverwrites(e, d, ws);
    } else {
      assert ws[..j] == ws;
      RecoverClears(g, d);
      RecoverEmpty(g, Recover(g, d));
    }
  }

  lemma RecoverClears(g: Geometry, d: Disk)
    requires ValidDisk(g, d)
    ensures Empty(g, Recover(g, d))
    ensures Recover(g, d)[g.start] == EncodeHead(d[g.start], [])
  {
    var bs := Entries(g, d);
    var installs := Installs(bs, LogData(g, |bs|, d));
    var last := Write(g.start, EncodeHead(d[g.start], []));
    ApplyConcat(d, installs, [last]);
    ApplyOne(Apply(d, installs), last);
  }

  // Blocks that the log does not name are left alone.
  lemma RecoverLeaves(g: Geometry, d: Disk, b: nat)
    requires ValidDisk(g, d) && Home(g, d, b) && b !in Entries(g, d)
    ensures Recover(g, d)[b] == d[b]
  {
    ApplyUntouched(d, RecoverWrites(g, d), b);
  }

  lemma RecoverEmpty(g: Geometry, d: Disk)
    requires Empty(g, d)
    ensures Recover(g, d) == d
  {
    var clear := Write(g.start, EncodeHead(d[g.start], []));
    assert Entries(g, d) == [];
    assert RecoverWrites(g, d) == [clear];
    assert clear.data == d[g.start];
    ApplyOne(d, clear);
  }

  // ----- A crashed commit is all or nothing

  ghost predicate SameHomes(g: Geometry, d: Disk, e: Disk) {
    |d| == |e| && forall b :: Home(g, d, b) ==> e[b] == d[b]
  }

  // e is d with the logged blocks replaced by their new contents, outside the log.
  ghost predicate HomesUpdated(g: Geometry, d: Disk, bs: seq<nat>, data: seq<Block>, e: Disk)
    requires |bs| == |data|
  {
    && |e| == |d|
    && (forall b :: Home(g, d, b) && b !in bs ==> e[b] == d[b])
    && (forall i :: 0 <= i < |bs| && bs[i] < |d| ==> e[bs[i]] == data[i])
  }

  // The log copies, then the header naming bs: the log now describes the transaction.
  function Logged(g: Geometry, d: Disk, bs: seq<nat>, data: seq<Block>): Disk
    requires ValidDisk(g, d) && |bs| <= LOGSIZE
  {
    Put(Apply(d, LogCopies(g, data)), Write(g.start, EncodeHead(d[g.start], bs)))
  }

  lemma LogDescribes(g: Geometry, d: Disk, bs: seq<nat>, data: seq<Block>)
    requires ValidDisk(g, d) && Loggable(g, d, bs) && |bs| == |data| > 0
    ensures var e := Logged(g, d, bs, data);
            && ValidDisk(g, e)
            && Entries(g, e) == bs
            && LogData(g, |bs|, e) == data
            && SameHomes(g, d, e)
            && e[g.start] == EncodeHead(d[g.start], bs)
  {
    var copies := LogCopies(g, data);
    var e := Logged(g, d, bs, data);
    forall i | 0 <= i < |bs| ensures e[g.start + 1 + i] == data[i] {
      ApplyHits(d, copies, i);
    }
    forall b | Home(g, d, b) ensures e[b] == d[b] {
      ApplyUntouched(d, copies, b);
    }
    assert e[g.start][1..1 + |bs|] == bs;
  }

  // From the header write on, a commit does exactly what a recovery would.
  lemma HeaderWritten(g: Geometry, d: Disk, bs: seq<nat>, data: seq<Block>)
    requires ValidDisk(g, d) && Loggable(g, d, bs) && |bs| == |data| > 0
    ensures var e, ws := Logged(g, d, bs, data), CommitWrites(g, d[g.start], bs, data);
            && ValidDisk(g, e)
            && e == Apply(d, ws[..|bs| + 1])
            && ws[|bs| + 1..] == RecoverWrites(g, e)
  {
    LogDescribes(g, d, bs, data);
    var copies := LogCopies(g, data);
    var head := Write(g.start, EncodeHead(d[g.start], bs));
    var e := Logged(g, d, bs, data);
    var ws := CommitWrites(g, d[g.start], bs, data);
    assert ws == (copies + [head]) + RecoverWrites(g, e);
    assert ws[..|bs| + 1] == copies + [head];
    ApplyConcat(d, copies, [head]);
    ApplyOne(Apply(d, copies), head);
  }

  lemma InstalledHomes(g: Geometry, e: Disk, bs: seq<nat>, data: seq<Block>)
    requires ValidDisk(g, e) && Entries(g, e) == bs && |bs| == |data| && LogData(g, |bs|, e) == data
    requires Distinct(bs)
    ensures HomesUpdated(g, e, bs, data, Recover(g, e))
  {
    var ws := RecoverWrites(g, e);
    forall b | Home(g, e, b) && b !in bs ensures Recover(g, e)[b] == e[b] {
      ApplyUntouched(e, ws, b);
    }
    forall i | 0 <= i < |bs| ensures Recover(g, e)[bs[i]] == data[i] {
      ApplyHits(e, ws, i);
    }
  }

  lemma BeforeHeader(g: Geometry, d: Disk, data: seq<Block>, k: nat)
    requires Empty(g, d) && k <= |data| < g.size
    ensures var e := Apply(d, LogCopies(g, data)[..k]);
            ValidDisk(g, e) && SameHomes(g, d, Recover(g, e))
  {
    var copies := LogCopies(g, data)[..k];
    var e := Apply(d, copies);
    forall b | Home(g, d, b) || b == g.start ensures e[b] == d[b] {
      ApplyUntouched(d, copies, b);
    }
    RecoverEmpty(g, e);
  }

  lemma AfterHeader(g: Geometry, d: Disk, bs: seq<nat>, data: seq<Block>, k: nat)
    requires Empty(g, d) && Loggable(g, d, bs) && |bs| == |data| > 0
    requires |bs| < k <= |CommitWrites(g, d[g.start], bs, data)|
    ensures var e := Apply(d, CommitWrites(g, d[g.start], bs, data)[..k]);
            ValidDisk(g, e) && Recover(g, e) == Recover(g, Logged(g, d, bs, data))
  {
    var ws, e, n := CommitWrites(g, d[g.start], bs, data), Logged(g, d, bs, data), |bs| + 1;
    HeaderWritten(g, d, bs, data);
    var j := k - n;
    assert Apply(d, ws[..k]) == Apply(e, RecoverWrites(g, e)[..j]) by {
      ApplySplit(d, ws, n, k);
    }
    RecoverPrefix(g, e, j);
  }

  // Stopping a commit after any k of its writes: until the header write, recovery gives
  // back the old home blocks; from the header write on, all the new ones.
  lemma CommitPrefix(g: Geometry, d: Disk, bs: seq<nat>, data: seq<Block>, k: nat)
    requires Empty(g, d) && Loggable(g, d, bs) && |bs| == |data| > 0
    requires k <= |CommitWrites(g, d[g.start], bs, data)|
    ensures var e := Apply(d, CommitWrites(g, d[g.start], bs, data)[..k]);
            && ValidDisk(g, e)
            && (k <= |bs| ==> SameHomes(g, d, Recover(g, e)))
            && (k > |bs| ==> HomesUpdated(g, d, bs, data, Recover(g, e)))
  {
    if k <= |bs| {
      assert CommitWrites(g, d[g.start], bs, data)[..k] == LogCopies(g, data)[..k];
      BeforeHeader(g, d, data, k);
    } else {
      AfterHeader(g, d, bs, data, k);
      LogDescribes(g, d, bs, data);
      InstalledHomes(g, Logged(g, d, bs, data), bs, data);
    }
  }

  // Recoveries that themselves stop early, one after the other.
  function CrashedRecoveries(g: Geometry, d: Disk, stops: seq<nat>): (e: Disk)
    requires ValidDisk(g, d)
    ensures ValidDisk(g, e) && Recover(g, e) == Recover(g, d)
    decreases |stops|
  {
    if stops == [] then d
    else
      var ws := RecoverWrites(g, d);
      var j := if stops[0] <= |ws| then stops[0] else |ws|;
      RecoverPrefix(g, d, j);
      CrashedRecoveries(g, Apply(d, ws[..j]), stops[1..])
  }

  // Crash atomicity: a commit stopped after any k writes, then any number of recoveries
  // stopped anywhere, then one that finishes.
  lemma CrashAtomicity(g: Geometry, d: Disk, bs: seq<nat>, data: seq<Block>, k: nat, stops: seq<nat>)
    requires Empty(g, d) && Loggable(g, d, bs) && |bs| == |data| > 0
    requires k <= |CommitWrites(g, d[g.start], bs, data)|
    ensures var crashed := Apply(d, CommitWrites(g, d[g.start], bs, data)[..k]);
            && ValidDisk(g, crashed)
            && var end := Recover(g, CrashedRecoveries(g, crashed, stops));
               && Empty(g, end)
               && (if k <= |bs| then SameHomes(g, d, end) else HomesUpdated(g, d, bs, data, end))
  {
    CommitPrefix(g, d, bs, data, k);
    RecoverClears(g, CrashedRecoveries(g, Apply(d, CommitWrites(g, d[g.start], bs, data)[..k]), stops));
  }
}
