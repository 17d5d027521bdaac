/**
 Completion of one buffer of a page under asynchronous I/O (`fs/buffer.c`): the handlers walk
 the ring of the page's buffers, and the one that finds no other buffer pending ends the I/O
 of the page.
 */
module PageIo {
  import opened Arithmetic

  /** State bits of a buffer; `async` is BH_Async_Read while reading and BH_Async_Write while writing. */
  datatype Bits = Bits(mapped: bool, dirty: bool, delay: bool, uptodate: bool, locked: bool, async: bool)

  datatype PageBits = PageBits(bufs: seq<Bits>, error: bool, uptodate: bool, locked: bool, writeback: bool)

  // ----- the three parts of a completion -----

  /** The outcome of the transfer is recorded. */
  function Reported(p: PageBits, k: nat, ok: bool): PageBits
    requires k < |p.bufs|
  {
    p.(bufs := p.bufs[k := p.bufs[k].(uptodate := ok)], error := p.error || !ok)
  }

  /** The buffer is no longer under I/O. */
  function Quieted(p: PageBits, k: nat): PageBits
    requires k < |p.bufs|
  {
    p.(bufs := p.bufs[k := p.bufs[k].(async := false, locked := false)])
  }

  predicate Busy(p: PageBits) { exists i :: 0 <= i < |p.bufs| && p.bufs[i].async }

  /** Buffers under I/O are locked. */
  predicate AsyncLocked(p: PageBits) { forall i :: 0 <= i < |p.bufs| && p.bufs[i].async ==> p.bufs[i].locked }

  predicate AllUptodate(p: PageBits) { forall i :: 0 <= i < |p.bufs| ==> p.bufs[i].uptodate }

  function ReadClosed(p: PageBits, all: bool): PageBits {
    p.(uptodate := p.uptodate || (all && !p.error), locked := false)
  }

  function WriteClosed(p: PageBits): PageBits { p.(writeback := false) }

  function ReadEnded(p: PageBits, k: nat, ok: bool): PageBits
    requires k < |p.bufs|
  {
    var q := Quieted(Reported(p, k, ok), k);
    if Busy(q) then q else ReadClosed(q, AllUptodate(q))
  }

  function WriteEnded(p: PageBits, k: nat, ok: bool): PageBits
    requires k < |p.bufs|
  {
    var q := Quieted(Reported(p, k, ok), k);
    if Busy(q) then q else WriteClosed(q)
  }

  /** What a completion does to its own buffer, and to the others and the rest of the page. */
  predicate Settles(p: PageBits, q: PageBits, k: nat, ok: bool) {
    && k < |p.bufs| == |q.bufs| && q.bufs[k] == p.bufs[k].(uptodate := ok, locked := false, async := false)
    && (forall i :: 0 <= i < |p.bufs| && i != k ==> q.bufs[i] == p.bufs[i])
    && (q.error <==> p.error || !ok)
  }

  /**
   A completed read releases its buffer with the outcome recorded; the last one, and no other,
   unlocks the page, and marks it up to date exactly if all its buffers are and nothing failed.
   */
  lemma ReadEndedExact(p: PageBits, k: nat, ok: bool)
    requires k < |p.bufs|
    ensures var q, last := ReadEnded(p, k, ok), forall i :: 0 <= i < |p.bufs| && p.bufs[i].async ==> i == k;
      && Settles(p, q, k, ok) && q.writeback == p.writeback && (q.locked <==> p.locked && !last)
      && (q.uptodate <==> p.uptodate || (last && !p.error && forall i :: 0 <= i < |q.bufs| ==> q.bufs[i].uptodate))
  {
  }

  /** The same for a write, the last one ending writeback. */
  lemma WriteEndedExact(p: PageBits, k: nat, ok: bool)
    requires k < |p.bufs|
    ensures var q, last := WriteEnded(p, k, ok), forall i :: 0 <= i < |p.bufs| && p.bufs[i].async ==> i == k;
      && Settles(p, q, k, ok) && q.locked == p.locked && q.uptodate == p.uptodate
      && (q.writeback <==> p.writeback && !last)
  {
  }

  // ----- the handlers -----

  class BufferHead {
    var mapped: bool
    var dirty: bool
    var delay: bool
    var uptodate: bool
    var locked: bool
    var asyncRead: bool
    var asyncWrite: bool
    var thisPage: BufferHead?

    function Read(): Bits
      reads this
    {
      Bits(mapped, dirty, delay, uptodate, locked, asyncRead)
    }

    function Write(): Bits
      reads this
    {
      Bits(mapped, dirty, delay, uptodate, locked, asyncWrite)
    }
  }

  /** The position `c` steps after `k` in a ring of `n`. */
  function Turn(n: nat, k: nat, c: nat): (i: nat)
    requires k < n && c < n
    ensures i < n
  {
    Fold(k + c, n)
  }

  /** Every position is met within one round. */
  lemma Round(n: nat, k: nat, i: nat)
    requires k < n && i < n
    ensures exists c: nat :: c < n && Turn(n, k, c) == i
  {
    assert Turn(n, k, if i >= k then i - k else i - k + n) == i;
  }

  ghost predicate Linked(r: seq<BufferHead>, i: nat)
    requires i < |r|
    reads r`thisPage
  {
    r[i].thisPage == r[if i + 1 < |r| then i + 1 else 0]
  }

  /** `r[k]` occurs nowhere else. */
  ghost predicate Once(r: seq<BufferHead>, k: nat)
    requires k < |r|
  {
    forall i :: 0 <= i < |r| && r[i] == r[k] ==> i == k
  }

  ghost predicate Ring(r: seq<BufferHead>)
    reads r`thisPage
  {
    && r != []
    && (forall k {:trigger Once(r, k)} :: 0 <= k < |r| ==> Once(r, k))
    && (forall i {:trigger Linked(r, i)} :: 0 <= i < |r| ==> Linked(r, i))
  }

  /** One step on from a position: the next one, and back at `k` only after a whole round. */
  lemma NextInRing(r: seq<BufferHead>, k: nat, c: nat)
    requires Ring(r) && k < |r| && c < |r|
    ensures r[Turn(|r|, k, c)].thisPage == r[if c + 1 < |r| then Turn(|r|, k, c + 1) else k]
    ensures r[Turn(|r|, k, c)].thisPage == r[k] <==> c + 1 == |r|
  {
    assert Linked(r, Turn(|r|, k, c)) && Once(r, k);
  }

  lemma {:induction false} RoundDone(r: seq<BufferHead>, k: nat, all: bool)
    requires k < |r|
    requires forall d: nat :: d < |r| ==> !r[Turn(|r|, k, d)].asyncRead
    requires all <==> forall d: nat :: d < |r| ==> r[Turn(|r|, k, d)].uptodate
    ensures forall i :: 0 <= i < |r| ==> !r[i].asyncRead
    ensures all <==> forall i :: 0 <= i < |r| ==> r[i].uptodate
  {
    forall i | 0 <= i < |r|
      ensures !r[i].asyncRead && (all ==> r[i].uptodate)
    {
      Round(|r|, k, i);
    }
  }

  class Page {
    var error: bool
    var uptodate: bool
    var locked: bool
    var writeback: bool

    /** The page and its ring have the bits of `p`, as a reader sees them. */
    ghost predicate Reading(r: seq<BufferHead>, p: PageBits)
      reads this, r
    {
      && error == p.error && uptodate == p.uptodate && locked == p.locked && writeback == p.writeback
      && |r| == |p.bufs| && forall i :: 0 <= i < |r| ==> r[i].Read() == p.bufs[i]
    }

    ghost predicate Writing(r: seq<BufferHead>, p: PageBits)
      reads this, r
    {
      && error == p.error && uptodate == p.uptodate && locked == p.locked && writeback == p.writeback
      && |r| == |p.bufs| && forall i :: 0 <= i < |r| ==> r[i].Write() == p.bufs[i]
    }

    /** The do-while walk of `end_buffer_async_read` from `bh` round to `bh`. */
    method WalkRead(bh: BufferHead, ghost r: seq<BufferHead>, ghost k: nat, ghost p: PageBits) returns (busy: bool,
                    pageUptodate: bool)
      requires Ring(r) && k < |r| && r[k] == bh && Reading(r, p) && AsyncLocked(p)
      ensures busy <==> Busy(p)
      ensures !busy ==> (pageUptodate <==> AllUptodate(p))
    {
      pageUptodate := true;
      var tmp := bh;
      ghost var c := 0;
      while true
        invariant c < |r| && tmp == r[Turn(|r|, k, c)]
        invariant forall d: nat :: d < c ==> !r[Turn(|r|, k, d)].asyncRead
        invariant pageUptodate <==> forall d: nat :: d < c ==> r[Turn(|r|, k, d)].uptodate
        decreases |r| - c
      {
        if !tmp.uptodate {
          pageUptodate := false;
        }
        if tmp.asyncRead {
          assert p.bufs[Turn(|r|, k, c)].async && tmp.locked;     // BUG_ON(!buffer_locked(tmp))
          return true, pageUptodate;
        }
        NextInRing(r, k, c);
        tmp := tmp.thisPage;
        c := c + 1;
        if tmp == bh {
          break;
        }
      }
      RoundDone(r, k, pageUptodate);
      busy := false;
    }

    /** The part of `end_buffer_async_read` before the walk. */
    method SettleRead(bh: BufferHead, ok: bool, ghost r: seq<BufferHead>, ghost k: nat, ghost p: PageBits)
      requires k < |r| && Once(r, k) && r[k] == bh && Reading(r, p)
      modifies `error, bh`uptodate, bh`locked, bh`asyncRead
      ensures Reading(r, Quieted(Reported(p, k, ok), k))
    {
      bh.uptodate := ok;
      if !ok {
        error := true;
      }
      bh.asyncRead := false;
      bh.locked := false;
    }

    /** `end_buffer_async_read`. */
    method EndBufferAsyncRead(bh: BufferHead, ok: bool, ghost r: seq<BufferHead>, ghost k: nat, ghost p: PageBits)
      requires Ring(r) && k < |r| && r[k] == bh && bh.asyncRead && Reading(r, p)
      requires AsyncLocked(p)
      modifies `error, `uptodate, `locked, bh`uptodate, bh`locked, bh`asyncRead
      ensures Reading(r, ReadEnded(p, k, ok))
    {
      assert Once(r, k);
      SettleRead(bh, ok, r, k, p);
      ghost var q := Quieted(Reported(p, k, ok), k);
      var busy, pageUptodate := WalkRead(bh, r, k, q);
      if busy {
        return;
      }
      if pageUptodate && !error {
        uptodate := true;
      }
      locked := false;
    }

    /** The while walk of `end_buffer_async_write`, which leaves `bh` itself out. */
    method WalkWrite(bh: BufferHead, ghost r: seq<BufferHead>, ghost k: nat, ghost p: PageBits) returns (busy: bool)
      requires Ring(r) && k < |r| && r[k] == bh && !bh.asyncWrite && Writing(r, p) && AsyncLocked(p)
      ensures busy <==> Busy(p)
    {
      ghost var c := 1;
      NextInRing(r, k, 0);
      var tmp := bh.thisPage;
      while tmp != bh
        invariant 1 <= c <= |r| && tmp == r[if c < |r| then Turn(|r|, k, c) else k]
        invariant forall d: nat :: d < c ==> !r[Turn(|r|, k, d)].asyncWrite
        decreases |r| - c
      {
        if tmp.asyncWrite {
          assert p.bufs[Turn(|r|, k, c)].async && tmp.locked;     // BUG_ON(!buffer_locked(tmp))
          return true;
        }
        NextInRing(r, k, c);
        tmp := tmp.thisPage;
        c := c + 1;
      }
      assert Once(r, k);
      forall i | 0 <= i < |r|
        ensures !r[i].asyncWrite
      {
        Round(|r|, k, i);
      }
      busy := false;
    }

    /** The part of `end_buffer_async_write` before the walk. */
    method SettleWrite(bh: BufferHead, ok: bool, ghost r: seq<BufferHead>, ghost k: nat, ghost p: PageBits)
      requires k < |r| && Once(r, k) && r[k] == bh && Writing(r, p)
      modifies `error, bh`uptodate, bh`locked, bh`asyncWrite
      ensures Writing(r, Quieted(Reported(p, k, ok), k))
    {
      bh.uptodate := ok;
      if !ok {
        error := true;
      }
      bh.asyncWrite := false;
      bh.locked := false;
    }

    /** `end_buffer_async_write`. */
    method EndBufferAsyncWrite(bh: BufferHead, ok: bool, ghost r: seq<BufferHead>, ghost k: nat, ghost p: PageBits)
      requires Ring(r) && k < |r| && r[k] == bh && bh.asyncWrite && Writing(r, p)
      requires AsyncLocked(p)
      modifies `error, `writeback, bh`uptodate, bh`locked, bh`asyncWrite
      ensures Writing(r, WriteEnded(p, k, ok))
    {
      assert Once(r, k);
      SettleWrite(bh, ok, r, k, p);
      var busy := WalkWrite(bh, r, k, Quieted(Reported(p, k, ok), k));
      if !busy {
        writeback := false;
      }
    }
  }
}
