/** A run in which commit finds no buffer: three operations fill the list, readers take the other
    buffers, and the commit's first bread panics. With it the exact condition for no run to. */
module CommitRuns {
  import opened Params
  import opened Log
  import opened GroupCommit
  import opened Reservation
  import opened Bio
  import opened CacheLog
  import opened CacheSteps
  import opened CommitBuffers

  lemma JointExtend(k: Budget, h: nat, s: Joint, xs: seq<JointAction>, u: Joint, x: JointAction, j: Joint)
    requires JointRun(k, h, s, xs, u) && JointNext(k, h, u, x, j)
    ensures JointRun(k, h, s, xs + [x], j)
  {
    var all := xs + [x];
    assert all[..|all| - 1] == xs && all[|all| - 1] == x;
  }

  // A run from s to j, and the invariant there.
  ghost predicate Reaches(k: Budget, h: nat, s: Joint, init: Disk, j: Joint) {
    JointOk(j, init) && exists xs :: JointRun(k, h, s, xs, j)
  }

  lemma Onwards(k: Budget, h: nat, s: Joint, init: Disk, u: Joint, x: JointAction, j: Joint)
    requires Reaches(k, h, s, init, u) && JointNext(k, h, u, x, j)
    ensures Reaches(k, h, s, init, j)
  {
    var xs :| JointRun(k, h, s, xs, u);
    JointExtend(k, h, s, xs, u, x, j);
    JointStepKeeps(u, init, x);
  }

  // ----- Recovery

  lemma RecoverRead(k: Budget, h: nat, s: Joint, init: Disk, u: Joint) returns (j: Joint)
    requires Reaches(k, h, s, init, u) && u.t.phase.Recovering? && u.held.None? && CanRead(u)
    ensures Reaches(k, h, s, init, j) && j.held.Some? && !j.stuck && j.t == u.t
  {
    AloneFinds(u, init, FirstRead(u.t));
    var a := ChosenExists(u.cs, FirstRead(u.t));
    j := JointStep(u, Read(a));
    Onwards(k, h, s, init, u, Read(a), j);
  }

  lemma RecoverTurn(k: Budget, h: nat, s: Joint, init: Disk, u: Joint) returns (j: Joint)
    requires Reaches(k, h, s, init, u) && u.t.phase.Recovering? && u.held.None? && CanRead(u)
    ensures Reaches(k, h, s, init, j) && j.held.None? && !j.stuck && j.t == Step(u.t, DiskWrite)
  {
    var v := RecoverRead(k, h, s, init, u);
    var b := 0;
    if SecondRead(u.t).Some? {
      AloneFinds(v, init, SecondRead(u.t).value);
      b := ChosenExists(v.cs, SecondRead(u.t).value);
    }
    j := JointStep(v, Finish(b));
    Onwards(k, h, s, init, v, Finish(b), j);
  }

  // Nobody uses a buffer, and the log is at work.
  predicate Unused(j: Joint) {
    Going(j) && j.held.None? && forall i :: 0 <= i < |j.cs| ==> j.cs[i].refcnt == 0
  }

  lemma {:induction false} Recovered(k: Budget, h: nat, s: Joint, init: Disk, u: Joint) returns (j: Joint)
    requires Reaches(k, h, s, init, u) && u.t.phase.Recovering? && u.held.None? && Going(u)
    ensures Reaches(k, h, s, init, j) && Unused(j) && j.t.phase.Running? && j.t.ops == [] && j.t.lh == []
    ensures j.t.g == u.t.g && |j.t.disk| == |u.t.disk|
    decreases |Script(u.t)| - u.t.phase.done
  {
    if u.t.phase.done < |Script(u.t)| {
      var v := RecoverTurn(k, h, s, init, u);
      j := Recovered(k, h, s, init, v);
    } else {
      forall i | 0 <= i < |u.cs| ensures u.cs[i].refcnt == 0 {
        assert CellOk(u.t, u.cs[i], false);
      }
      j := JointStep(u, LogStep(RecoverDone, 0));
      Onwards(k, h, s, init, u, LogStep(RecoverDone, 0), j);
    }
  }

  // ----- Three operations fill the list

  lemma OneMore(k: Budget, h: nat, s: Joint, init: Disk, u: Joint) returns (j: Joint)
    requires Reaches(k, h, s, init, u) && Unused(u) && |u.t.ops| < 3 && Idle(u.t, |u.t.ops|)
    ensures Reaches(k, h, s, init, j) && Unused(j) && Idle(j.t, |u.t.ops| + 1) && j.t.g == u.t.g && j.t.disk == u.t.disk
  {
    j := JointStep(u, LogStep(Begin, 0));
    Onwards(k, h, s, init, u, LogStep(Begin, 0), j);
  }

  lemma ThreeMore(k: Budget, h: nat, s: Joint, init: Disk, u: Joint) returns (j: Joint)
    requires Reaches(k, h, s, init, u) && Unused(u) && Idle(u.t, 0)
    ensures Reaches(k, h, s, init, j) && Unused(j) && Filled(j.t, 3, 0) && j.t.g == u.t.g && j.t.disk == u.t.disk
  {
    var v := OneMore(k, h, s, init, u);
    var w := OneMore(k, h, s, init, v);
    j := OneMore(k, h, s, init, w);
    IdleFilled(j.t, 3);
  }

  // Not yet every buffer taken: any block can be had.
  lemma Findable(j: Joint, init: Disk, n: nat)
    requires JointOk(j, init) && j.held.None? && |Pending(j.t)| + |Others(j)| < NBUF
    ensures !NoChoice(j.cs, ROOTDEV, n)
  {
    JointDirties(j, init);
    assert InUse(j.cs) == Others(j);
    BreadPanics(j.cs, n);
  }

  // Buffer x alone is in use, once, for home block b.
  predicate OnlyOne(j: Joint, x: nat, b: nat) {
    && Going(j) && j.held.None? && x < |j.cs| && Holds(j.cs[x], ROOTDEV, b) && j.cs[x].refcnt == 1
    && forall i :: 0 <= i < |j.cs| && i != x ==> j.cs[i].refcnt == 0
  }

  lemma GetOne(k: Budget, h: nat, s: Joint, init: Disk, u: Joint, b: nat) returns (j: Joint, x: nat)
    requires Reaches(k, h, s, init, u) && Unused(u) && u.t.phase.Running? && |u.t.lh| < NBUF && Home(u.t.g, u.t.disk, b)
    ensures Reaches(k, h, s, init, j) && OnlyOne(j, x, b) && j.t == u.t
  {
    assert Others(u) == {};
    Findable(u, init, b);
    x := ChosenExists(u.cs, b);
    j := JointStep(u, Get(b, x));
    Onwards(k, h, s, init, u, Get(b, x), j);
  }

  lemma PinOne(k: Budget, h: nat, s: Joint, init: Disk, u: Joint, x: nat, i: nat, b: nat, data: Block) returns (j: Joint)
    requires Reaches(k, h, s, init, u) && OnlyOne(u, x, b) && u.t.phase.Running?
    requires Enabled(u.t, LogWrite(i, b, data)) && Budgeted(k, u.t, LogWrite(i, b, data))
    requires Step(u.t, LogWrite(i, b, data)).failure.NoFailure?
    ensures Reaches(k, h, s, init, j) && OnlyOne(j, x, b) && j.t == Step(u.t, LogWrite(i, b, data))
  {
    var a := LogStep(LogWrite(i, b, data), x);
    j := JointStep(u, a);
    Onwards(k, h, s, init, u, a, j);
  }

  lemma ReleaseOne(k: Budget, h: nat, s: Joint, init: Disk, u: Joint, x: nat, b: nat) returns (j: Joint)
    requires Reaches(k, h, s, init, u) && OnlyOne(u, x, b) && u.t.phase.Running?
    ensures Reaches(k, h, s, init, j) && Unused(j) && j.t == u.t
  {
    j := JointStep(u, Release(x));
    Onwards(k, h, s, init, u, Release(x), j);
  }

  // An operation gets the next home block, logs it and releases it.
  lemma LogOne(k: Budget, h: nat, s: Joint, init: Disk, u: Joint, data: Block, n: nat) returns (j: Joint)
    requires Reaches(k, h, s, init, u) && Unused(u) && Filled(u.t, 3, n) && n < Room(u.t.g) && n < HomeCount(u.t.g, u.t.disk)
    ensures Reaches(k, h, s, init, j) && Unused(j) && Filled(j.t, 3, n + 1) && j.t.g == u.t.g && j.t.disk == u.t.disk
  {
    var i, b := n / 10, HomeBlock(u.t.g, n);
    FillOne(k, u.t, init, data, 3, n);
    var v, x := GetOne(k, h, s, init, u, b);
    var w := PinOne(k, h, s, init, v, x, i, b, data);
    j := ReleaseOne(k, h, s, init, w, x, b);
  }

  lemma {:induction false} LogMany(k: Budget, h: nat, s: Joint, init: Disk, u: Joint, data: Block, n: nat) returns (j: Joint)
    requires Reaches(k, h, s, init, u) && Unused(u) && Filled(u.t, 3, 0) && n <= Room(u.t.g) && n <= HomeCount(u.t.g, u.t.disk)
    ensures Reaches(k, h, s, init, j) && Unused(j) && Filled(j.t, 3, n) && j.t.g == u.t.g && j.t.disk == u.t.disk
  {
    if n == 0 {
      j := u;
    } else {
      var v := LogMany(k, h, s, init, u, data, n - 1);
      j := LogOne(k, h, s, init, v, data, n - 1);
    }
  }

  // ----- Readers take the other buffers

  ghost predicate ReaderBlock(g: Geometry, b: nat, p: nat, m: nat) {
    exists x :: p <= x < p + m && b == HomeBlock(g, x)
  }

  // The first p home blocks are logged, and the m after them are being read, one buffer each.
  ghost predicate Reading(j: Joint, p: nat, m: nat) {
    && Going(j) && j.held.None? && Filled(j.t, 3, p) && |Others(j)| == m
    && forall i :: 0 <= i < |j.cs| && j.cs[i].refcnt > 0 ==> !j.cs[i].dirty && ReaderBlock(j.t.g, j.cs[i].blockno, p, m)
  }

  lemma FreshBlock(g: Geometry, p: nat, m: nat, n: nat)
    requires n == p + m
    ensures !ReaderBlock(g, HomeBlock(g, n), p, m)
  {
  }

  lemma NotListed(t: State, p: nat, n: nat)
    requires Filled(t, 3, p) && p <= n
    ensures HomeBlock(t.g, n) !in t.lh
  {
  }

  // The buffer a reader gets was free.
  lemma ReaderTakes(j: Joint, init: Disk, p: nat, m: nat, n: nat, x: nat)
    requires JointOk(j, init) && Reading(j, p, m) && n == p + m && Chosen(j.cs, x, ROOTDEV, HomeBlock(j.t.g, n))
    ensures !j.cs[x].dirty && j.cs[x].refcnt == 0
  {
    FreshBlock(j.t.g, p, m, n);
    NotListed(j.t, p, n);
    assert CellOk(j.t, j.cs[x], false);
  }

  lemma ReaderCounts(j: Joint, x: nat, c: Cell)
    requires x < |j.cs| && !j.cs[x].dirty && j.cs[x].refcnt == 0 && !c.dirty && c.refcnt > 0 && j.held.None?
    ensures |Others(j.(cs := j.cs[x := c]))| == |Others(j)| + 1
  {
    assert Others(j.(cs := j.cs[x := c])) == Others(j) + {x};
  }

  lemma ReaderBlocks(g: Geometry, b: nat, p: nat, m: nat, n: nat)
    requires n == p + m
    ensures ReaderBlock(g, b, p, m + 1) <==> ReaderBlock(g, b, p, m) || b == HomeBlock(g, n)
  {
  }

  lemma ReadOne(k: Budget, h: nat, s: Joint, init: Disk, u: Joint, p: nat, m: nat) returns (j: Joint)
    requires Reaches(k, h, s, init, u) && Reading(u, p, m) && p + m < NBUF && p + m < HomeCount(u.t.g, u.t.disk)
    ensures Reaches(k, h, s, init, j) && Reading(j, p, m + 1) && j.t == u.t
  {
    var n, g := p + m, u.t.g;
    var b := HomeBlock(g, n);
    Findable(u, init, b);
    var x := ChosenExists(u.cs, b);
    ReaderTakes(u, init, p, m, n, x);
    j := JointStep(u, Get(b, x));
    Onwards(k, h, s, init, u, Get(b, x), j);
    ReaderCounts(u, x, Got(u.cs[x], ROOTDEV, b));
    forall i | 0 <= i < |j.cs| && j.cs[i].refcnt > 0 ensures !j.cs[i].dirty && ReaderBlock(g, j.cs[i].blockno, p, m + 1) {
      ReaderBlocks(g, j.cs[i].blockno, p, m, n);
    }
  }

  lemma {:induction false} ReadMany(k: Budget, h: nat, s: Joint, init: Disk, u: Joint, p: nat, m: nat) returns (j: Joint)
    requires Reaches(k, h, s, init, u) && Unused(u) && Filled(u.t, 3, p) && p + m <= NBUF && p + m <= HomeCount(u.t.g, u.t.disk)
    ensures Reaches(k, h, s, init, j) && Reading(j, p, m) && j.t == u.t
    decreases m
  {
    if m == 0 {
      j := u;
      assert Others(j) == {};
    } else {
      var v := ReadMany(k, h, s, init, u, p, m - 1);
      j := ReadOne(k, h, s, init, v, p, m - 1);
    }
  }

  // ----- The operations end, and the commit panics

  lemma OneEnds(k: Budget, h: nat, s: Joint, init: Disk, u: Joint) returns (j: Joint)
    requires Reaches(k, h, s, init, u) && Going(u) && u.held.None? && u.t.phase.Running? && u.t.ops != [] && |Others(u)| <= h
    ensures Reaches(k, h, s, init, j) && Going(j) && j.held.None? && j.cs == u.cs && j.t.lh == u.t.lh && j.t.g == u.t.g
    ensures |j.t.ops| == |u.t.ops| - 1
    ensures if j.t.ops == [] then j.t.phase.Committing? && j.t.phase.done == 0 else j.t.phase.Running?
  {
    var x := LogStep(End(0), 0);
    j := JointStep(u, x);
    assert Others(j) == Others(u);
    Onwards(k, h, s, init, u, x, j);
  }

  lemma {:induction false} AllEnd(k: Budget, h: nat, s: Joint, init: Disk, u: Joint) returns (j: Joint)
    requires Reaches(k, h, s, init, u) && Going(u) && u.held.None? && u.t.phase.Running? && u.t.ops != [] && |Others(u)| <= h
    ensures Reaches(k, h, s, init, j) && Going(j) && j.held.None? && j.cs == u.cs && j.t.lh == u.t.lh
    ensures j.t.phase.Committing? && j.t.phase.done == 0
    decreases |u.t.ops|
  {
    j := OneEnds(k, h, s, init, u);
    assert Others(j) == Others(u);
    if j.t.ops != [] {
      j := AllEnd(k, h, s, init, j);
    }
  }

  // Every buffer dirty or in use, so none with a log block.
  lemma NoLogCached(j: Joint, init: Disk, n: nat)
    requires JointOk(j, init) && j.held.None? && |Pending(j.t)| + |Others(j)| == NBUF && InLog(j.t.g, n)
    ensures !Cached(j.cs, n)
  {
    JointDirties(j, init);
    PendingHomes(j.t, init);
    assert InUse(j.cs) == Others(j);
    BusySize(j.cs);
    forall i | 0 <= i < |j.cs| ensures !Holds(j.cs[i], ROOTDEV, n) {
      assert CellOk(j.t, j.cs[i], false) && !Recyclable(j.cs[i]);
    }
  }

  lemma Sticks(k: Budget, h: nat, s: Joint, init: Disk, u: Joint) returns (j: Joint)
    requires Reaches(k, h, s, init, u) && Going(u) && u.held.None? && u.t.phase.Committing? && u.t.phase.done == 0
    requires u.t.lh != [] && |u.t.lh| + |Others(u)| == NBUF && |Others(u)| <= h
    ensures Reaches(k, h, s, init, j) && j.stuck
  {
    FirstReadInLog(u.t, init);
    NoLogCached(u, init, FirstRead(u.t));
    JointDirties(u, init);
    assert InUse(u.cs) == Others(u);
    BreadPanics(u.cs, FirstRead(u.t));
    j := JointStep(u, Read(0));
    assert Others(j) == Others(u);
    Onwards(k, h, s, init, u, Read(0), j);
  }

  lemma SticksSomewhere(k: Budget, h: nat, g: Geometry, d: Disk, cs: seq<Cell>) returns (j: Joint)
    requires ValidDisk(g, d) && Quiet(cs) && CanStick(h, g, d)
    ensures Reaches(k, h, Start(g, d, cs), Recover(g, d), j) && j.stuck
  {
    var s, init, p := Start(g, d, cs), Recover(g, d), Room(g);
    StartOk(g, d, cs);
    assert JointRun(k, h, s, [], s);
    j := Recovered(k, h, s, init, s);
    j := ThreeMore(k, h, s, init, j);
    j := LogMany(k, h, s, init, j, d[0], p);
    j := ReadMany(k, h, s, init, j, p, NBUF - p);
    var v := AllEnd(k, h, s, init, j);
    assert Others(v) == Others(j);
    j := Sticks(k, h, s, init, v);
  }

  // Whatever the buffers held at boot, and within either budget: no run meets "bget: no buffers"
  // in a commit or a recovery if and only if the log can list nothing, or the longest list and h
  // buffers of others leave one free, or there are fewer home blocks than buffers.
  lemma CommitsFindBuffers(k: Budget, h: nat, g: Geometry, d: Disk, cs: seq<Cell>)
    requires ValidDisk(g, d) && Quiet(cs)
    ensures NeverStuck(k, h, g, d, cs) <==> Room(g) == 0 || Room(g) + h < NBUF || HomeCount(g, d) < NBUF
  {
    if CanStick(h, g, d) {
      var j := SticksSomewhere(k, h, g, d, cs);
    } else {
      forall xs, j | JointRun(k, h, Start(g, d, cs), xs, j) ensures !j.stuck {
        StuckNeeds(k, h, g, d, cs, xs, j);
      }
    }
  }

  // The two panics between them: with enough home blocks no log size avoids both, even for
  // operations that call log_write at most MAXOPBLOCKS times, and with no buffer used by others.
  lemma NoSafeLogSize(k: Budget, h: nat, g: Geometry, d: Disk, cs: seq<Cell>)
    requires ValidDisk(g, d) && Quiet(cs) && HomeCount(g, d) >= LOGSIZE
    ensures !NeverTooBig(k, g, d) || !NeverStuck(k, h, g, d, cs)
  {
    BlocksMeetGuard(g, d);
    CallsMeetGuard(g, d);
    CommitsFindBuffers(k, h, g, d, cs);
  }
}
