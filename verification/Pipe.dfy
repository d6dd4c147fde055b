/** The ring buffer of pipe.c: what a process does to it while it holds the pipe's lock,
    from acquiring the lock (or waking up) to sleeping or returning. */
module Pipe {
  import opened Params

  const PIPESIZE: nat := 512

  datatype Outcome = Done | Sleep | Fail

  function Min(a: nat, b: nat): nat {
    if a <= b then a else b
  }

  // How far a write gets with q in the pipe, and how it ends there.
  function WriteStop(q: seq<Byte>, addr: seq<Byte>, start: nat): (i: nat)
    requires start <= |addr| && |q| <= PIPESIZE
    ensures start <= i <= |addr|
  {
    start + Min(|addr| - start, PIPESIZE - |q|)
  }

  function WriteOutcome(addr: seq<Byte>, i: nat, readopen: bool, killed: bool): Outcome {
    if i == |addr| then Done else if !readopen || killed then Fail else Sleep
  }

  function ReadOutcome(q: seq<Byte>, writeopen: bool, killed: bool): Outcome {
    if |q| > 0 || !writeopen then Done else if killed then Fail else Sleep
  }

  class Ring {
    var data: array<Byte>
    var nread: nat
    var nwrite: nat
    var readopen: bool
    var writeopen: bool

    ghost function Count(): nat
      reads this
    {
      (nwrite - nread) % WORD
    }

    ghost predicate Valid()
      reads this
    {
      data.Length == PIPESIZE && nread < WORD && nwrite < WORD && Count() <= PIPESIZE
    }

    // The bytes written and not yet read, oldest first.
    ghost function Contents(): (q: seq<Byte>)
      requires Valid()
      reads this, data
      ensures |q| == Count()
    {
      seq(Count(), k requires 0 <= k reads this, data requires Valid() => data[(nread + k) % PIPESIZE])
    }

    constructor ()
      ensures Valid() && fresh(data) && Contents() == [] && readopen && writeopen
    {
      data := new Byte[PIPESIZE](_ => 0);
      nread, nwrite, readopen, writeopen := 0, 0, true, true;
    }

    // p->data[p->nwrite++ % PIPESIZE] = b, with room.
    method Put(b: Byte)
      requires Valid() && Count() < PIPESIZE
      modifies this`nwrite, data
      ensures Valid() && Contents() == old(Contents()) + [b]
    {
      ghost var q := Contents();
      WrapAdd(nread, nwrite);
      data[nwrite % PIPESIZE] := b;
      nwrite := (nwrite + 1) % WORD;
      forall k | 0 <= k < |q| ensures Contents()[k] == q[k] {
        SlotsDiffer(nread, k, |q|);
      }
    }

    // p->data[p->nread++ % PIPESIZE], with something there.
    method Get() returns (b: Byte)
      requires Valid() && Count() > 0
      modifies this`nread
      ensures Valid() && [b] + Contents() == old(Contents())
    {
      ghost var q := Contents();
      WrapSub(nread, nwrite);
      b := data[nread % PIPESIZE];
      ghost var r := nread;
      nread := (nread + 1) % WORD;
      assert |Contents()| == |q| - 1;
      forall k | 0 <= k < |q| - 1 ensures Contents()[k] == q[k + 1] {
        SlotShift(r, k);
      }
      assert q == [b] + q[1..];
    }

    // The write loop from byte i of addr on, up to the end, a full pipe that makes the
    // caller sleep, or a full pipe with no reader left or a killed caller.
    method WriteSegment(addr: seq<Byte>, start: nat, killed: bool) returns (i: nat, outcome: Outcome)
      requires Valid() && start <= |addr|
      modifies this`nwrite, data
      ensures Valid()
      ensures i == WriteStop(old(Contents()), addr, start)
      ensures Contents() == old(Contents()) + addr[start..i]
      ensures outcome == WriteOutcome(addr, i, readopen, killed)
    {
      i := start;
      while i < |addr|
        invariant start <= i <= |addr| && Valid()
        invariant Contents() == old(Contents()) + addr[start..i]
      {
        var full := IsFull();
        if full {
          outcome := if !readopen || killed then Fail else Sleep;
          return;
        }
        Put(addr[i]);
        i := i + 1;
      }
      outcome := Done;
    }

    // p->nread == p->nwrite
    method IsEmpty() returns (e: bool)
      requires Valid()
      ensures e <==> |Contents()| == 0
    {
      WrapEmpty(nread, nwrite);
      e := nread == nwrite;
    }

    // p->nwrite == p->nread + PIPESIZE
    method IsFull() returns (f: bool)
      requires Valid()
      ensures f <==> |Contents()| == PIPESIZE
    {
      WrapFull(nread, nwrite);
      f := nwrite == (nread + PIPESIZE) % WORD;
    }

    // The copying loop of piperead.
    method Take(n: nat) returns (got: seq<Byte>)
      requires Valid()
      modifies this`nread
      ensures Valid() && got + Contents() == old(Contents())
      ensures |got| == Min(n, |old(Contents())|)
    {
      got := [];
      while |got| < n
        invariant |got| <= n && Valid() && got + Contents() == old(Contents())
      {
        var e := IsEmpty();
        if e {
          break;
        }
        ghost var all := got + Contents();
        var b := Get();
        ghost var rest := Contents();
        assert all == got + ([b] + rest) == (got + [b]) + rest;
        got := got + [b];
      }
    }

    // The read: wait for a byte or for the writers to go, then take what there is.
    method ReadSegment(n: nat, killed: bool) returns (got: seq<Byte>, outcome: Outcome)
      requires Valid()
      modifies this`nread
      ensures Valid() && got + Contents() == old(Contents())
      ensures outcome == ReadOutcome(old(Contents()), writeopen, killed)
      ensures |got| == if outcome.Done? then Min(n, |old(Contents())|) else 0
    {
      var e := IsEmpty();
      if e && writeopen {
        return [], if killed then Fail else Sleep;
      }
      got := Take(n);
      outcome := Done;
    }

    method Close(writable: bool)
      modifies this`readopen, this`writeopen
      ensures readopen == (old(readopen) && writable) && writeopen == (old(writeopen) && !writable)
    {
      if writable {
        writeopen := false;
      } else {
        readopen := false;
      }
    }
  }

  // ----- Counters that wrap. PIPESIZE divides the word size.

  lemma WrapAdd(r: nat, w: nat)
    requires r < WORD && w < WORD
    ensures w % PIPESIZE == (r + (w - r) % WORD) % PIPESIZE
    ensures (w - r) % WORD < PIPESIZE ==> ((w + 1) % WORD - r) % WORD == (w - r) % WORD + 1
  {
    assert (w - r) % WORD == if w >= r then w - r else w - r + WORD;
  }

  lemma WrapSub(r: nat, w: nat)
    requires r < WORD && w < WORD && (w - r) % WORD > 0
    ensures (w - (r + 1) % WORD) % WORD == (w - r) % WORD - 1
  {
    assert (w - r) % WORD == if w >= r then w - r else w - r + WORD;
  }

  lemma WrapFull(r: nat, w: nat)
    requires r < WORD && w < WORD && (w - r) % WORD <= PIPESIZE
    ensures w == (r + PIPESIZE) % WORD <==> (w - r) % WORD == PIPESIZE
  {
  }

  lemma WrapEmpty(r: nat, w: nat)
    requires r < WORD && w < WORD
    ensures r == w <==> (w - r) % WORD == 0
  {
  }

  lemma SlotsDiffer(r: nat, k: nat, n: nat)
    requires k < n < PIPESIZE
    ensures (r + k) % PIPESIZE != (r + n) % PIPESIZE
  {
  }

  lemma SlotShift(r: nat, k: nat)
    requires r < WORD
    ensures ((r + 1) % WORD + k) % PIPESIZE == (r + (k + 1)) % PIPESIZE
  {
  }
}
