/** When commit's breads find a buffer: a logged block keeps a buffer until it is installed, other
    processes may hold some, and commit needs one more for the log. */
module CommitBuffers {
  import opened Params
  import opened Log
  import opened GroupCommit
  import opened Reservation
  import opened Bio
  import opened CacheLog
  import opened CacheSteps

  // ----- Counting buffers

  function Dirties(cs: seq<Cell>): set<nat> {
    set i: nat | i < |cs| && cs[i].dirty
  }

  // Clean buffers in use.
  function InUse(cs: seq<Cell>): set<nat> {
    set i: nat | i < |cs| && !cs[i].dirty && cs[i].refcnt > 0
  }

  predicate Cached(cs: seq<Cell>, n: nat) {
    exists i :: 0 <= i < |cs| && Holds(cs[i], ROOTDEV, n)
  }

  function Upto(n: nat): (r: set<nat>)
    ensures |r| == n && forall i: nat :: i in r <==> i < n
  {
    if n == 0 then {} else Upto(n - 1) + {n - 1}
  }

  lemma {:induction false} ProperSize(a: set<nat>, b: set<nat>)
    requires a <= b
    ensures |a| <= |b| && (|a| == |b| ==> a == b)
    decreases |a|
  {
    if a != {} {
      var x :| x in a;
      ProperSize(a - {x}, b - {x});
      assert a == (a - {x}) + {x} && b == (b - {x}) + {x};
    }
  }

  lemma BusySize(cs: seq<Cell>)
    ensures |Dirties(cs)| + |InUse(cs)| <= |cs|
    ensures |Dirties(cs)| + |InUse(cs)| == |cs| <==> forall i :: 0 <= i < |cs| ==> !Recyclable(cs[i])
  {
    var busy := Dirties(cs) + InUse(cs);
    ProperSize(busy, Upto(|cs|));
    assert Dirties(cs) !! InUse(cs);
    if busy == Upto(|cs|) {
      forall i: nat | i < |cs| ensures !Recyclable(cs[i]) {
        assert i in busy;
      }
    }
  }

  // bread's panic, in any cache: every buffer is dirty or in use, and none has the block.
  lemma BreadPanics(cs: seq<Cell>, n: nat)
    ensures NoChoice(cs, ROOTDEV, n) <==> |Dirties(cs)| + |InUse(cs)| == |cs| && !Cached(cs, n)
  {
    BusySize(cs);
  }

  ghost predicate DirtyExactly(cs: seq<Cell>, bs: seq<nat>) {
    && OneBufferPerBlock(cs) && Pinned(cs, bs)
    && forall i :: 0 <= i < |cs| && cs[i].dirty ==> cs[i].dev == ROOTDEV && cs[i].blockno in bs
  }

  lemma PinnedFront(cs: seq<Cell>, bs: seq<nat>, n: nat)
    requires Pinned(cs, bs) && n <= |bs|
    ensures Pinned(cs, bs[..n])
  {
    forall m | 0 <= m < n ensures PinnedBlock(cs, bs[..n][m]) {
      assert PinnedBlock(cs, bs[m]);
    }
  }

  // Without the last block and its mark.
  lemma DirtyLess(cs: seq<Cell>, bs: seq<nat>, i: nat, c: Cell)
    requires DirtyExactly(cs, bs) && Distinct(bs) && bs != [] && i < |cs| && DirtyFor(cs[i], bs[|bs| - 1])
    requires c == cs[i].(dirty := false)
    ensures DirtyExactly(cs[i := c], bs[..|bs| - 1])
  {
    var front, less := bs[..|bs| - 1], cs[i := c];
    SameOne(cs, i, c);
    PinnedFront(cs, bs, |bs| - 1);
    PinnedUpdate(cs, i, c, front);
    forall m | 0 <= m < |less| && less[m].dirty ensures less[m].blockno in front {
      OneHolder(cs, m, i);
    }
  }

  lemma DirtiesLess(cs: seq<Cell>, i: nat, c: Cell)
    requires i < |cs| && cs[i].dirty && c == cs[i].(dirty := false)
    ensures |Dirties(cs)| == |Dirties(cs[i := c])| + 1
  {
    assert Dirties(cs) == Dirties(cs[i := c]) + {i};
  }

  lemma LastDirty(cs: seq<Cell>, bs: seq<nat>) returns (i: nat)
    requires DirtyExactly(cs, bs) && bs != []
    ensures i < |cs| && DirtyFor(cs[i], bs[|bs| - 1])
  {
    assert PinnedBlock(cs, bs[|bs| - 1]);
    i :| i < |cs| && DirtyFor(cs[i], bs[|bs| - 1]);
  }

  lemma NoneDirty(cs: seq<Cell>)
    requires DirtyExactly(cs, [])
    ensures |Dirties(cs)| == 0
  {
    assert Dirties(cs) == {};
  }

  // One dirty buffer for each pending block.
  lemma {:induction false} DirtyCount(cs: seq<Cell>, bs: seq<nat>)
    requires DirtyExactly(cs, bs) && Distinct(bs)
    ensures |Dirties(cs)| == |bs|
    decreases |bs|
  {
    if bs == [] {
      NoneDirty(cs);
    } else {
      var i := LastDirty(cs, bs);
      var c := cs[i].(dirty := false);
      DirtyLess(cs, bs, i, c);
      DirtyCount(cs[i := c], bs[..|bs| - 1]);
      DirtiesLess(cs, i, c);
    }
  }

  lemma {:induction false} LeastStamp(cs: seq<Cell>, n: nat) returns (k: nat)
    requires n <= |cs| && exists i :: 0 <= i < n && Recyclable(cs[i])
    ensures k < n && Recyclable(cs[k]) && forall i :: 0 <= i < n && Recyclable(cs[i]) ==> cs[k].stamp <= cs[i].stamp
    decreases n
  {
    var last := n - 1;
    if i :| 0 <= i < last && Recyclable(cs[i]) {
      k := LeastStamp(cs, last);
      if Recyclable(cs[last]) && cs[last].stamp < cs[k].stamp {
        k := last;
      }
    } else {
      k := last;
    }
  }

  // Where bread does not panic it has a buffer to choose.
  lemma ChosenExists(cs: seq<Cell>, n: nat) returns (k: nat)
    requires !NoChoice(cs, ROOTDEV, n)
    ensures Chosen(cs, k, ROOTDEV, n)
  {
    if i: nat :| i < |cs| && Holds(cs[i], ROOTDEV, n) {
      k := i;
    } else {
      k := LeastStamp(cs, |cs|);
    }
  }

  // ----- The breads of commit and recovery, in any state of the invariant

  // The clean buffers that other processes use.
  function Others(j: Joint): set<nat> {
    set i: nat | i < |j.cs| && !j.cs[i].dirty && j.cs[i].refcnt > 0 && j.held != Some(i)
  }

  lemma JointDirties(j: Joint, init: Disk)
    requires JointOk(j, init)
    ensures DirtyExactly(j.cs, Pending(j.t)) && |Dirties(j.cs)| == |Pending(j.t)|
  {
    PendingHomes(j.t, init);
    forall i | 0 <= i < |j.cs| && j.cs[i].dirty ensures j.cs[i].dev == ROOTDEV && j.cs[i].blockno in Pending(j.t) {
      assert CellOk(j.t, j.cs[i], j.held == Some(i));
    }
    DirtyCount(j.cs, Pending(j.t));
  }

  // The first bread for a write of commit or recovery.
  lemma ReadPanics(j: Joint, init: Disk, x: nat)
    requires JointOk(j, init) && JointEnabled(j, Read(x))
    ensures JointStep(j, Read(x)).stuck
            <==> |Pending(j.t)| + |Others(j)| == NBUF && !Cached(j.cs, FirstRead(j.t))
  {
    JointDirties(j, init);
    assert InUse(j.cs) == Others(j);
    BreadPanics(j.cs, FirstRead(j.t));
  }

  lemma PinnedIsCached(cs: seq<Cell>, bs: seq<nat>, b: nat)
    requires DirtyExactly(cs, bs) && b in bs
    ensures !NoChoice(cs, ROOTDEV, b)
  {
    var k :| 0 <= k < |bs| && bs[k] == b;
    assert PinnedBlock(cs, bs[k]);
    var i :| 0 <= i < |cs| && DirtyFor(cs[i], b);
    assert Holds(cs[i], ROOTDEV, b);
  }

  // Recovery runs alone: at most its own buffer is in use.
  lemma AloneFinds(j: Joint, init: Disk, n: nat)
    requires JointOk(j, init) && j.t.phase.Recovering?
    ensures !NoChoice(j.cs, ROOTDEV, n)
  {
    JointDirties(j, init);
    var own := if j.held.Some? then {j.held.value} else {};
    forall i | i in InUse(j.cs) ensures i in own {
      assert CellOk(j.t, j.cs[i], j.held == Some(i));
    }
    ProperSize(InUse(j.cs), own);
    BreadPanics(j.cs, n);
  }

  // The second bread always finds its block or a buffer.
  lemma FinishFinds(j: Joint, init: Disk, x: nat)
    requires JointOk(j, init) && JointEnabled(j, Finish(x))
    ensures !JointStep(j, Finish(x)).stuck
  {
    if SecondRead(j.t).Some? {
      var b := SecondRead(j.t).value;
      if j.t.phase.Recovering? {
        AloneFinds(j, init, b);
      } else {
        FirstReadInLog(j.t, init);
        JointDirties(j, init);
        PinnedIsCached(j.cs, Pending(j.t), b);
      }
    }
  }

  // ----- Over runs

  function Start(g: Geometry, d: Disk, cs: seq<Cell>): Joint {
    Joint(Boot(g, d), cs, Newest(cs), None, false)
  }

  // A step within the operations' budgets, with at most h buffers used by others during a commit.
  ghost predicate JointNext(k: Budget, h: nat, j: Joint, x: JointAction, after: Joint) {
    && JointEnabled(j, x) && after == JointStep(j, x)
    && (x.LogStep? ==> Budgeted(k, j.t, x.a))
    && (after.t.phase.Committing? ==> |Others(after)| <= h)
  }

  ghost predicate JointRun(k: Budget, h: nat, s: Joint, xs: seq<JointAction>, j: Joint)
    decreases |xs|
  {
    if xs == [] then s == j
    else
      var prefix, x := xs[..|xs| - 1], xs[|xs| - 1];
      exists u :: JointRun(k, h, s, prefix, u) && JointNext(k, h, u, x, j)
  }

  lemma StartOk(g: Geometry, d: Disk, cs: seq<Cell>)
    requires ValidDisk(g, d) && Quiet(cs)
    ensures JointOk(Start(g, d, cs), Recover(g, d))
  {
    BootOk(g, d);
  }

  lemma {:induction false} JointRunKeeps(k: Budget, h: nat, s: Joint, init: Disk, xs: seq<JointAction>, j: Joint)
    requires JointOk(s, init) && JointRun(k, h, s, xs, j)
    ensures JointOk(j, init) && j.t.g == s.t.g
    decreases |xs|
  {
    if xs != [] {
      var prefix, x := xs[..|xs| - 1], xs[|xs| - 1];
      var u :| JointRun(k, h, s, prefix, u) && JointNext(k, h, u, x, j);
      JointRunKeeps(k, h, s, init, prefix, u);
      JointStepKeeps(u, init, x);
      JointGeometry(u, init, x);
    }
  }

  lemma LogOfStep(k: Budget, h: nat, u: Joint, x: JointAction, j: Joint) returns (a: Action)
    requires JointNext(k, h, u, x, j)
    ensures j.t == u.t || (Budgeted(k, u.t, a) && Next(u.t, a, j.t))
  {
    a := if x.LogStep? then x.a else if x.Restart? then Crash else DiskWrite;
  }

  // The log's part of a run is a run of the log, so what holds of those holds here.
  lemma {:induction false} LogOfRun(k: Budget, h: nat, s: Joint, xs: seq<JointAction>, j: Joint) returns (actions: seq<Action>)
    requires JointRun(k, h, s, xs, j)
    ensures BudgetedRun(k, s.t, actions, j.t)
    decreases |xs|
  {
    if xs == [] {
      actions := [];
    } else {
      var prefix, x := xs[..|xs| - 1], xs[|xs| - 1];
      var u :| JointRun(k, h, s, prefix, u) && JointNext(k, h, u, x, j);
      actions := LogOfRun(k, h, s, prefix, u);
      if j.t != u.t {
        var a := LogOfStep(k, h, u, x, j);
        Extend(k, s.t, actions, u.t, a, j.t);
        actions := actions + [a];
      }
    }
  }

  // Buffers as binit leaves them are quiet.
  lemma FreshQuiet()
    ensures Quiet(seq(NBUF, _ => Fresh))
  {
  }

  // In every run: commit's breads of home blocks never panic; those of log blocks and of the
  // header do if and only if the pending blocks and the buffers of others fill the cache and the
  // block is not in it; and recovery never panics.
  lemma CommitReads(k: Budget, h: nat, g: Geometry, d: Disk, cs: seq<Cell>, xs: seq<JointAction>, j: Joint, x: nat)
    requires ValidDisk(g, d) && Quiet(cs) && JointRun(k, h, Start(g, d, cs), xs, j)
    ensures JointEnabled(j, Finish(x)) ==> !JointStep(j, Finish(x)).stuck
    ensures JointEnabled(j, Read(x)) ==>
              (JointStep(j, Read(x)).stuck <==>
                 |Pending(j.t)| + |Others(j)| == NBUF && !Cached(j.cs, FirstRead(j.t)))
    ensures JointEnabled(j, Read(x)) && j.t.phase.Recovering? ==> !JointStep(j, Read(x)).stuck
  {
    var init := Recover(g, d);
    StartOk(g, d, cs);
    JointRunKeeps(k, h, Start(g, d, cs), init, xs, j);
    if JointEnabled(j, Finish(x)) {
      FinishFinds(j, init, x);
    }
    if JointEnabled(j, Read(x)) {
      ReadPanics(j, init, x);
      if j.t.phase.Recovering? {
        AloneFinds(j, init, FirstRead(j.t));
      }
    }
  }

  // ----- When no run panics

  ghost predicate NeverStuck(k: Budget, h: nat, g: Geometry, d: Disk, cs: seq<Cell>) {
    forall xs, j :: JointRun(k, h, Start(g, d, cs), xs, j) ==> !j.stuck
  }

  // A log that holds something, and with h more buffers fills the cache, over enough home blocks.
  predicate CanStick(h: nat, g: Geometry, d: Disk) {
    0 < Room(g) && Room(g) + h >= NBUF && HomeCount(g, d) >= NBUF
  }

  lemma ListBound(t: State, init: Disk)
    requires Inv(t, init)
    ensures |Pending(t)| <= Room(t.g) && (t.phase.Committing? && Script(t) != [] ==> Room(t.g) > 0)
  {
    Recoverable(t, init);
    PendingHomes(t, init);
  }

  // Every buffer dirty or in use by others: as many home blocks as buffers.
  lemma FullNeedsHomes(j: Joint, init: Disk)
    requires JointOk(j, init) && j.held.None? && |Pending(j.t)| + |Others(j)| == NBUF
    ensures HomeCount(j.t.g, j.t.disk) >= NBUF
  {
    var cs, g, d := j.cs, j.t.g, j.t.disk;
    Recoverable(j.t, init);
    PendingHomes(j.t, init);
    JointDirties(j, init);
    assert InUse(cs) == Others(j);
    BusySize(cs);
    var bs: seq<nat> := seq(NBUF, i requires 0 <= i < NBUF && |cs| == NBUF => cs[i].blockno);
    forall i | 0 <= i < NBUF ensures Home(g, d, bs[i]) && cs[i].dev == ROOTDEV {
      assert CellOk(j.t, cs[i], false) && !Recyclable(cs[i]);
    }
    forall i, m | 0 <= i < m < NBUF ensures bs[i] != bs[m] {
      OneHolder(cs, i, m);
    }
    HomesBound(g, d, bs);
  }

  lemma StuckNeeds(k: Budget, h: nat, g: Geometry, d: Disk, cs: seq<Cell>, xs: seq<JointAction>, j: Joint)
    requires ValidDisk(g, d) && Quiet(cs) && JointRun(k, h, Start(g, d, cs), xs, j)
    ensures j.stuck ==> CanStick(h, g, d)
    decreases |xs|
  {
    if xs != [] {
      var prefix, x := xs[..|xs| - 1], xs[|xs| - 1];
      var u :| JointRun(k, h, Start(g, d, cs), prefix, u) && JointNext(k, h, u, x, j);
      StuckNeeds(k, h, g, d, cs, prefix, u);
      if x.Read? || x.Finish? {
        CommitReads(k, h, g, d, cs, prefix, u, x.k);
        if j.stuck {
          StuckStep(k, h, g, d, cs, prefix, u, x.k);
        }
      }
    }
  }

  lemma StuckStep(k: Budget, h: nat, g: Geometry, d: Disk, cs: seq<Cell>, xs: seq<JointAction>, j: Joint, x: nat)
    requires ValidDisk(g, d) && Quiet(cs) && JointRun(k, h, Start(g, d, cs), xs, j)
    requires JointEnabled(j, Read(x)) && JointStep(j, Read(x)).stuck && |Others(j)| <= h
    ensures CanStick(h, g, d)
  {
    var init := Recover(g, d);
    StartOk(g, d, cs);
    JointRunKeeps(k, h, Start(g, d, cs), init, xs, j);
    ReadPanics(j, init, x);
    ListBound(j.t, init);
    FullNeedsHomes(j, init);
  }
}
