/** The code of log.c, as methods on one log device. The buffer cache is seen through
    what it promises: the latest contents of every block. */
module LogDevice {
  import opened Params
  import opened Log

  datatype Panic = NoPanic | TooBigTransaction | LogWriteOutsideTrans | LogCommitting

  // Log absorption: a block is listed once however often it is written.
  function Absorb(lh: seq<nat>, b: nat): seq<nat> {
    if b in lh then lh else lh + [b]
  }

  predicate LogFull(g: Geometry, lh: seq<nat>) {
    |lh| >= LOGSIZE || |lh| >= g.size - 1
  }

  // begin_op's test: room for every block that this and the running operations may log.
  predicate Admits(lh: seq<nat>, outstanding: int) {
    |lh| + (outstanding + 1) * MAXOPBLOCKS <= LOGSIZE
  }

  lemma ApplySnoc(d: Disk, ws: seq<Write>, k: nat)
    requires k < |ws|
    ensures Apply(d, ws[..k + 1]) == Put(Apply(d, ws[..k]), ws[k])
  {
    assert ws[..k + 1] == ws[..k] + [ws[k]];
    ApplyConcat(d, ws[..k], [ws[k]]);
    ApplyOne(Apply(d, ws[..k]), ws[k]);
  }

  lemma {:induction false} ApplyAgree(d: Disk, e: Disk, ws: seq<Write>, b: nat)
    requires b < |d| == |e| && d[b] == e[b]
    ensures Apply(d, ws)[b] == Apply(e, ws)[b]
    decreases |ws|
  {
    if ws != [] {
      ApplyAgree(Put(d, ws[0]), Put(e, ws[0]), ws[1..], b);
    }
  }

  // Run to the end, a commit leaves what recovery makes of the logged transaction.
  lemma CommitIsRecover(g: Geometry, d: Disk, bs: seq<nat>, data: seq<Block>)
    requires ValidDisk(g, d) && Loggable(g, d, bs) && |bs| == |data| > 0
    ensures ValidDisk(g, Logged(g, d, bs, data))
    ensures Apply(d, CommitWrites(g, d[g.start], bs, data)) == Recover(g, Logged(g, d, bs, data))
  {
    var ws := CommitWrites(g, d[g.start], bs, data);
    HeaderWritten(g, d, bs, data);
    ApplySplit(d, ws, |bs| + 1, |ws|);
    assert ws[..|ws|] == ws;
    assert ws[|bs| + 1..][..|ws| - |bs| - 1] == ws[|bs| + 1..];
  }

  // The four stages of commit, run to the end.
  lemma CommitEffect(g: Geometry, d: Disk, bs: seq<nat>, data: seq<Block>)
    requires ValidDisk(g, d) && Loggable(g, d, bs) && |bs| == |data| > 0
    ensures var end := Apply(d, CommitWrites(g, d[g.start], bs, data));
            && Empty(g, end)
            && HomesUpdated(g, d, bs, data, end)
  {
    var e := Logged(g, d, bs, data);
    CommitIsRecover(g, d, bs, data);
    LogDescribes(g, d, bs, data);
    InstalledHomes(g, e, bs, data);
    RecoverClears(g, e);
  }

  // Disk d and cache c, which agree on the log, still do after the commit of c's contents;
  // the cached home blocks do not change.
  lemma CommitAgrees(g: Geometry, d: Disk, c: Disk, bs: seq<nat>)
    requires ValidDisk(g, d) && Loggable(g, d, bs) && bs != []
    requires |c| == |d| && forall b :: InLog(g, b) ==> c[b] == d[b]
    ensures var data := NewData(bs, c);
            var ws := CommitWrites(g, d[g.start], bs, data);
            && Empty(g, Apply(d, ws))
            && HomesUpdated(g, d, bs, data, Apply(d, ws))
            && SameHomes(g, c, Apply(c, ws))
            && forall b :: InLog(g, b) ==> Apply(c, ws)[b] == Apply(d, ws)[b]
  {
    var data := NewData(bs, c);
    var ws := CommitWrites(g, d[g.start], bs, data);
    assert c[g.start] == d[g.start];
    CommitEffect(g, d, bs, data);
    CommitEffect(g, c, bs, data);
    forall b | InLog(g, b) ensures Apply(c, ws)[b] == Apply(d, ws)[b] {
      ApplyAgree(d, c, ws, b);
    }
    forall b | Home(g, c, b) ensures Apply(c, ws)[b] == c[b] {
      if i :| 0 <= i < |bs| && bs[i] == b {
        assert Apply(c, ws)[b] == data[i];
      }
    }
  }

  class Device {
    const g: Geometry
    var disk: Disk
    var cache: Disk
    var lh: seq<nat>        // lh.block[0 .. lh.n]
    var outstanding: int
    var committing: bool
    ghost var writes: seq<Write>  // every write the disk has seen, in order

    ghost predicate Valid()
      reads this
    {
      && |cache| == |disk|
      && ValidDisk(g, disk)
      && Loggable(g, disk, lh)
      && (forall b :: InLog(g, b) ==> cache[b] == disk[b])
    }

    // The disk and the cache both took the writes ws since (disk0, cache0).
    ghost predicate Wrote(disk0: Disk, cache0: Disk, writes0: seq<Write>, ws: seq<Write>)
      reads this
    {
      && disk == Apply(disk0, ws)
      && cache == Apply(cache0, ws)
      && writes == writes0 + ws
    }

    // Two batches of writes, one after the other.
    lemma Wrote2(disk0: Disk, cache0: Disk, writes0: seq<Write>, a: seq<Write>, b: seq<Write>)
      requires Wrote(Apply(disk0, a), Apply(cache0, a), writes0 + a, b)
      ensures Wrote(disk0, cache0, writes0, a + b)
    {
      assert writes0 + a + b == writes0 + (a + b);
      ApplyConcat(disk0, a, b);
      ApplyConcat(cache0, a, b);
    }

    method BWrite(b: nat, data: Block)
      requires b < |disk| == |cache|
      modifies this`disk, this`cache, this`writes
      ensures disk == old(disk)[b := data] && cache == old(cache)[b := data]
      ensures writes == old(writes) + [Write(b, data)]
    {
      disk, cache := disk[b := data], cache[b := data];
      writes := writes + [Write(b, data)];
    }

    // The write at place k of the batch ws.
    method BWriteNext(b: nat, data: Block, ghost disk0: Disk, ghost cache0: Disk, ghost writes0: seq<Write>,
                      ghost ws: seq<Write>, ghost k: nat, ghost next: nat)
      requires b < |disk| == |cache| && k < |ws| && ws[k] == Write(b, data) && next == k + 1
      requires Wrote(disk0, cache0, writes0, ws[..k])
      modifies this`disk, this`cache, this`writes
      ensures Wrote(disk0, cache0, writes0, ws[..next])
    {
      ApplySnoc(disk0, ws, k);
      ApplySnoc(cache0, ws, k);
      assert ws[..next] == ws[..k] + [ws[k]];
      BWrite(b, data);
    }

    method WriteLog()
      requires Valid()
      modifies this`disk, this`cache, this`writes
      ensures Wrote(old(disk), old(cache), old(writes), LogCopies(g, NewData(lh, old(cache))))
    {
      ghost var d, c, n := disk, cache, writes;
      ghost var ws := LogCopies(g, NewData(lh, cache));
      for tail := 0 to |lh|
        invariant Wrote(d, c, n, ws[..tail])
      {
        ApplyUntouched(c, ws[..tail], lh[tail]);
        BWriteNext(g.start + tail + 1, cache[lh[tail]], d, c, n, ws, tail, tail + 1);
      }
      assert ws[..|lh|] == ws;
    }

    method WriteHead()
      requires g.start < |disk| == |cache| && |lh| <= LOGSIZE
      modifies this`disk, this`cache, this`writes
      ensures Wrote(old(disk), old(cache), old(writes), [Write(g.start, EncodeHead(old(cache)[g.start], lh))])
    {
      ghost var h0 := cache[g.start];
      var hb: Block := cache[g.start][0 := |lh|];
      for i := 0 to |lh|
        invariant hb == [|lh|] + lh[..i] + h0[1 + i..]
      {
        hb := hb[1 + i := lh[i]];
      }
      assert lh[..|lh|] == lh;
      BWrite(g.start, hb);
      ghost var w := Write(g.start, hb);
      ApplyOne(old(disk), w);
      ApplyOne(old(cache), w);
    }

    method InstallTrans()
      requires g.size > 0 && g.start + g.size <= |disk| == |cache| && Homes(g, disk, lh)
      requires lh == [] || |lh| < g.size
      modifies this`disk, this`cache, this`writes
      ensures Wrote(old(disk), old(cache), old(writes), Installs(lh, LogData(g, |lh|, old(cache))))
    {
      ghost var d, c, n := disk, cache, writes;
      ghost var ws := Installs(lh, LogData(g, |lh|, cache));
      for tail := 0 to |lh|
        invariant Wrote(d, c, n, ws[..tail])
      {
        ApplyUntouched(c, ws[..tail], g.start + tail + 1);
        BWriteNext(lh[tail], cache[g.start + tail + 1], d, c, n, ws, tail, tail + 1);
      }
      assert ws[..|lh|] == ws;
    }

    method ReadHead()
      requires g.size > 0 && g.start + g.size <= |cache| && ValidHeader(g, cache, cache[g.start])
      modifies this`lh
      ensures lh == Entries(g, cache)
    {
      var h := cache[g.start];
      ghost var bs := Entries(g, cache);
      lh := [];
      for i := 0 to h[0]
        invariant lh == bs[..i]
      {
        assert bs[i] == h[1 + i];
        lh := lh + [h[1 + i]];
      }
    }

    // The ending that commit and recover_from_log share.
    method InstallAndClear()
      requires g.size > 0 && g.start + g.size <= |disk| == |cache| && Homes(g, disk, lh)
      requires lh == [] || |lh| < g.size
      modifies this`disk, this`cache, this`writes, this`lh
      ensures lh == []
      ensures Wrote(old(disk), old(cache), old(writes),
                    Installs(old(lh), LogData(g, |old(lh)|, old(cache))) + [Write(g.start, EncodeHead(old(cache)[g.start], []))])
    {
      ghost var d, c, w := disk, cache, writes;
      ghost var installs := Installs(lh, LogData(g, |lh|, c));
      InstallTrans();
      assert cache[g.start] == c[g.start] by { ApplyUntouched(c, installs, g.start); }
      lh := [];
      WriteHead();
      Wrote2(d, c, w, installs, [Write(g.start, EncodeHead(c[g.start], []))]);
    }

    // Run once at boot, when the cache holds nothing but what is on the disk.
    method RecoverFromLog()
      requires ValidDisk(g, disk) && cache == disk
      modifies this`disk, this`cache, this`writes, this`lh
      ensures Valid() && Empty(g, disk) && lh == []
      ensures disk == cache == Recover(g, old(disk))
      ensures writes == old(writes) + RecoverWrites(g, old(disk))
    {
      ReadHead();
      InstallAndClear();
      RecoverClears(g, old(disk));
    }

    method Commit()
      requires Valid() && Empty(g, disk)
      modifies this`disk, this`cache, this`writes, this`lh
      ensures Valid() && Empty(g, disk) && lh == []
      ensures Wrote(old(disk), old(cache), old(writes),
                    CommitWrites(g, old(disk)[g.start], old(lh), NewData(old(lh), old(cache))))
      ensures HomesUpdated(g, old(disk), old(lh), NewData(old(lh), old(cache)), disk)
      ensures SameHomes(g, old(cache), cache)
    {
      ghost var d, c, w, bs, data := disk, cache, writes, lh, NewData(lh, cache);
      if |lh| > 0 {
        ghost var first := LogCopies(g, data) + [Write(g.start, EncodeHead(c[g.start], bs))];
        WriteTransaction();
        LogDescribes(g, c, bs, data);
        InstallAndClear();
        Wrote2(d, c, w, first, Installs(bs, data) + [Write(g.start, EncodeHead(EncodeHead(c[g.start], bs), []))]);
        CommitAgrees(g, d, c, bs);
      }
    }

    // commit's write_log and write_head.
    method WriteTransaction()
      requires Valid()
      modifies this`disk, this`cache, this`writes
      ensures Wrote(old(disk), old(cache), old(writes),
                    LogCopies(g, NewData(lh, old(cache))) + [Write(g.start, EncodeHead(old(cache)[g.start], lh))])
      ensures cache == Logged(g, old(cache), lh, NewData(lh, old(cache)))
    {
      ghost var d, c, w, data := disk, cache, writes, NewData(lh, cache);
      ghost var copies, head := LogCopies(g, data), Write(g.start, EncodeHead(c[g.start], lh));
      WriteLog();
      assert cache[g.start] == c[g.start] by { ApplyUntouched(c, copies, g.start); }
      WriteHead();
      assert cache == Logged(g, c, lh, data) by { ApplyOne(Apply(c, copies), head); }
      Wrote2(d, c, w, copies, [head]);
    }

    // One pass of begin_op's loop; when it is not admitted the caller sleeps and retries.
    method BeginOp() returns (admitted: bool)
      modifies this`outstanding
      ensures admitted <==> !old(committing) && Admits(lh, old(outstanding))
      ensures admitted <==> !old(committing) && |lh| + MAXOPBLOCKS * old(outstanding) + MAXOPBLOCKS <= LOGSIZE
      ensures outstanding == old(outstanding) + if admitted then 1 else 0
    {
      if committing {
        return false;
      } else if |lh| + (outstanding + 1) * MAXOPBLOCKS > LOGSIZE {
        return false;
      } else {
        outstanding := outstanding + 1;
        return true;
      }
    }

    method EndOp() returns (panic: Panic)
      requires Valid() && Empty(g, disk)
      modifies this`disk, this`cache, this`writes, this`lh, this`outstanding, this`committing
      ensures outstanding == old(outstanding) - 1
      ensures panic == if old(committing) then LogCommitting else NoPanic
      ensures Valid() && Empty(g, disk) && committing == old(committing)
      ensures panic.NoPanic? && outstanding == 0 ==>
              && lh == []
              && Wrote(old(disk), old(cache), old(writes),
                       CommitWrites(g, old(disk)[g.start], old(lh), NewData(old(lh), old(cache))))
      ensures !(panic.NoPanic? && outstanding == 0) ==>
              lh == old(lh) && disk == old(disk) && cache == old(cache) && writes == old(writes)
    {
      outstanding := outstanding - 1;
      if committing {
        return LogCommitting;
      }
      if outstanding == 0 {
        committing := true;
        Commit();
        committing := false;
      }
      return NoPanic;
    }

    // The caller has changed block b's cached contents to data; list b in the header.
    method LogWrite(b: nat, data: Block) returns (panic: Panic)
      requires Valid() && Home(g, disk, b)
      modifies this`lh, this`cache
      ensures Valid()
      ensures panic == if LogFull(g, old(lh)) then TooBigTransaction
                       else if outstanding < 1 then LogWriteOutsideTrans else NoPanic
      ensures cache == old(cache)[b := data]
      ensures lh == if panic.NoPanic? then Absorb(old(lh), b) else old(lh)
    {
      cache := cache[b := data];
      if |lh| >= LOGSIZE || |lh| >= g.size - 1 {
        return TooBigTransaction;
      }
      if outstanding < 1 {
        return LogWriteOutsideTrans;
      }
      var i := 0;
      while i < |lh| && lh[i] != b
        invariant i <= |lh| && b !in lh[..i]
      {
        i := i + 1;
      }
      lh := if i < |lh| then lh[i := b] else lh + [b];
      return NoPanic;
    }
  }
}
