/**
 The AIO completion ring and its slot accounting (`fs/aio.c`).

 `Ctx` is the value of a `struct kioctx` together with its ring; the functions on
 it say what each irq-off or locked region does.  `Kioctx` is the mutable object,
 with the ring spread over pages, and its methods are proved against the functions.
 */
module AioRing {
  import opened Wrappers
  import opened AioSizing
  import opened Arithmetic

  datatype IoEvent = IoEvent(obj: nat, data: nat, res: int, res2: int)

  /** `head` and `rtail` are the copies in the page shared with user space. */
  datatype Ctx = Ctx(nr: nat, batch: nat, avail: nat, cpu: seq<nat>, completed: nat,
                     tail: nat, head: nat, rtail: nat, slots: seq<IoEvent>)

  predicate WellFormed(c: Ctx) {
    && c.nr >= 2 && c.batch >= 1
    && (forall k :: 0 <= k < |c.cpu| ==> c.cpu[k] < 2 * c.batch)
    && c.tail < c.nr && |c.slots| == c.nr
  }

  function Sum(s: seq<nat>): nat {
    if s == [] then 0 else s[0] + Sum(s[1..])
  }

  lemma {:induction false} SumUpdate(s: seq<nat>, k: nat, v: nat)
    requires k < |s|
    ensures Sum(s[k := v]) == Sum(s) - s[k] + v
  {
    if k == 0 {
      assert s[k := v][1..] == s[1..];
    } else {
      assert s[k := v][1..] == s[1..][k - 1 := v];
      SumUpdate(s[1..], k - 1, v);
    }
  }

  /** A CPU's counters can never hide more than the bound on each of them. */
  lemma {:induction false} SumBound(s: seq<nat>, k: nat, bound: nat)
    requires k < |s| && s[k] == 0
    requires forall i :: 0 <= i < |s| ==> s[i] <= bound
    ensures Sum(s) <= (|s| - 1) * bound
  {
    if k == 0 {
      SumAtMost(s[1..], bound);
    } else {
      SumBound(s[1..], k - 1, bound);
      OnceMore(|s| - 2, bound);
    }
  }

  lemma {:induction false} SumAtMost(s: seq<nat>, bound: nat)
    requires forall i :: 0 <= i < |s| ==> s[i] <= bound
    ensures Sum(s) <= |s| * bound
  {
    if s != [] {
      SumAtMost(s[1..], bound);
      OnceMore(|s| - 1, bound);
    }
  }

  // ----- slot accounting -----

  /** What a counter that reached `x` hands to the global counter: whole batches, down to one batch and a rest. */
  function Spill(x: nat, b: nat): (moved: nat)
    requires b >= 1
    ensures moved <= x && x - moved < 2 * b
    ensures if x < 2 * b then moved == 0 else x - moved >= b
  {
    if x < 2 * b then 0
    else
      SpillArithmetic(x, b);
      (x / b - 1) * b
  }

  lemma SpillArithmetic(x: nat, b: nat)
    requires b >= 1 && x >= 2 * b
    ensures x / b >= 2 && 0 <= (x / b - 1) * b <= x && x - (x / b - 1) * b == b + x % b
  {
    assert x == (x / b) * b + x % b;
    assert (x / b - 1) * b == (x / b) * b - b;
    MulOrder(x / b, 1, b);
  }

  /** Handing over one more batch first makes no difference to where the counter ends. */
  lemma SpillStep(x: nat, b: nat)
    requires b >= 1 && x >= 2 * b
    ensures Spill(x, b) == b + Spill(x - b, b)
  {
    SpillArithmetic(x, b);
    var q := x / b;
    assert (q - 1) * b == q * b - b;
    MulOrder(3, q, b);
    if x - b >= 2 * b {
      QuotientOf(x - b, b, q - 1, x % b);
      assert (q - 2) * b == q * b - 2 * b;
    }
  }

  /** `put_reqs_available(ctx, n)` on CPU `k`. */
  function Put(c: Ctx, k: nat, n: nat): Ctx
    requires c.batch >= 1 && k < |c.cpu|
  {
    var x := c.cpu[k] + n;
    var moved := Spill(x, c.batch);
    c.(avail := c.avail + moved, cpu := c.cpu[k := x - moved])
  }

  /** `get_reqs_available(ctx)` on CPU `k`; `None` is a refusal, which changes nothing. */
  function Get(c: Ctx, k: nat): Option<Ctx>
    requires c.batch >= 1 && k < |c.cpu|
  {
    if c.cpu[k] != 0 then Some(c.(cpu := c.cpu[k := c.cpu[k] - 1]))
    else if c.avail < c.batch then None
    else Some(c.(avail := c.avail - c.batch, cpu := c.cpu[k := c.batch - 1]))
  }

  /** Number of records between a head, clamped, and a tail. */
  function InRing(nr: nat, head: nat, tail: nat): (d: nat)
    requires nr >= 1 && tail < nr
    ensures d < nr
  {
    Gap(nr, head % nr, tail)
  }

  /** `refill_reqs_available(ctx, head, tail)` on CPU `k`. */
  function Refill(c: Ctx, k: nat, head: nat, tail: nat): Ctx
    requires c.batch >= 1 && k < |c.cpu| && c.nr >= 1 && tail < c.nr
  {
    var inRing := InRing(c.nr, head, tail);
    if inRing < c.completed then Put(c.(completed := inRing), k, c.completed - inRing) else c
  }

  /** Slots accounted for inside the context; the rest belong to requests in flight. */
  function Held(c: Ctx): nat {
    c.avail + Sum(c.cpu) + c.completed
  }

  lemma PutHolds(c: Ctx, k: nat, n: nat)
    requires WellFormed(c) && k < |c.cpu|
    ensures WellFormed(Put(c, k, n)) && Held(Put(c, k, n)) == Held(c) + n
    ensures Put(c, k, n).completed == c.completed
  {
    var x := c.cpu[k] + n;
    SumUpdate(c.cpu, k, x - Spill(x, c.batch));
  }

  lemma GetHolds(c: Ctx, k: nat)
    requires WellFormed(c) && k < |c.cpu| && Get(c, k).Some?
    ensures WellFormed(Get(c, k).value) && Held(Get(c, k).value) == Held(c) - 1
  {
    SumUpdate(c.cpu, k, if c.cpu[k] != 0 then c.cpu[k] - 1 else c.batch - 1);
  }

  /** Reclaiming moves slots, whatever head value it is given. */
  lemma RefillHolds(c: Ctx, k: nat, head: nat, tail: nat)
    requires WellFormed(c) && k < |c.cpu| && tail < c.nr
    ensures WellFormed(Refill(c, k, head, tail)) && Held(Refill(c, k, head, tail)) == Held(c)
    ensures Refill(c, k, head, tail).completed == if InRing(c.nr, head, tail) < c.completed
          then InRing(c.nr, head, tail) else c.completed
  {
    var inRing := InRing(c.nr, head, tail);
    if inRing < c.completed {
      PutHolds(c.(completed := inRing), k, c.completed - inRing);
    }
  }

  // ----- the ring -----

  /** `aio_complete`, first part: store the record and move the kernel's tail. */
  function Post(c: Ctx, e: IoEvent): Ctx
    requires WellFormed(c)
  {
    c.(slots := c.slots[c.tail := e], tail := Fold(c.tail + 1, c.nr))
  }

  /** Second part: let readers see the new tail. */
  function Publish(c: Ctx): Ctx { c.(rtail := c.tail) }

  /** Third part: count the record, and reclaim with the head read before. */
  function Account(c: Ctx, k: nat, head: nat): Ctx
    requires WellFormed(c) && k < |c.cpu|
  {
    var d := c.(completed := c.completed + 1);
    if d.completed > 1 then Refill(d, k, head, d.tail) else d
  }

  /** The records a reader finds from `h` on, `n` of them. */
  function Window(c: Ctx, h: nat, n: nat): (w: seq<IoEvent>)
    requires h < c.nr && n <= c.nr && |c.slots| == c.nr
    ensures |w| == n
  {
    seq(n, i requires 0 <= i < n => c.slots[Fold(h + i, c.nr)])
  }

  function Min(a: nat, b: nat): nat { if a < b then a else b }

  /** How many records one `aio_read_events_ring(nr)` takes. */
  function ReadCount(c: Ctx, want: nat): nat
    requires c.nr >= 1
  {
    if c.head == c.rtail then 0 else Min(want, InRing(c.nr, c.head, c.rtail % c.nr))
  }

  /** Where it leaves the head: untouched on an empty ring, clamped and advanced otherwise. */
  function ReadHead(c: Ctx, want: nat): nat
    requires c.nr >= 1
  {
    if c.head == c.rtail then c.head else Fold(c.head % c.nr + ReadCount(c, want), c.nr)
  }

  /** The size of one `copy_to_user`: no further than the end of the ring, of the page, or of the wish. */
  function Chunk(nr: nat, head: nat, tail: nat, want: nat): (n: nat)
    requires head < nr && tail < nr
    ensures n <= want && head + n <= nr
    ensures head != tail && want > 0 ==> n > 0
    ensures head < tail ==> head + n <= tail
  {
    Min(Min((if head <= tail then tail else nr) - head, want),
        EVENTS_PER_PAGE - (head + EVENTS_OFFSET) % EVENTS_PER_PAGE)
  }

  /** Distance from a clamped head to a tail. */
  function Gap(nr: nat, h: nat, tail: nat): nat
    requires h < nr && tail < nr
  {
    if h <= tail then tail - h else nr - (h - tail)
  }

  /** Two records never share a place on the pages. */
  lemma PlaceIsOwn(i: nat, j: nat)
    requires i != j
    ensures (i + EVENTS_OFFSET) / EVENTS_PER_PAGE != (j + EVENTS_OFFSET) / EVENTS_PER_PAGE
         || (i + EVENTS_OFFSET) % EVENTS_PER_PAGE != (j + EVENTS_OFFSET) % EVENTS_PER_PAGE
  {
  }

  lemma WindowExtends(c: Ctx, h: nat, n: nat, m: nat)
    requires h < c.nr && n + m <= c.nr && |c.slots| == c.nr
    requires Fold(h + n, c.nr) + m <= c.nr
    ensures Window(c, h, n + m) == Window(c, h, n) + c.slots[Fold(h + n, c.nr)..Fold(h + n, c.nr) + m]
  {
    var p := Fold(h + n, c.nr);
    var w, w' := Window(c, h, n + m), Window(c, h, n) + c.slots[p..p + m];
    forall i | 0 <= i < n + m ensures w[i] == w'[i] {
      if i >= n {
        assert Fold(h + i, c.nr) == p + (i - n);
      }
    }
  }

  /** The records from `h0` on have been collected as far as `head`. */
  predicate Collected(c: Ctx, h0: nat, t: nat, want: nat, got: seq<IoEvent>, head: nat) {
    && |c.slots| == c.nr && h0 < c.nr && t < c.nr && head < c.nr && |got| <= want && |got| <= Gap(c.nr, h0, t)
    && head == Fold(h0 + |got|, c.nr) && got == Window(c, h0, |got|)
    && Gap(c.nr, head, t) == Gap(c.nr, h0, t) - |got|
  }

  lemma CollectNext(c: Ctx, h0: nat, t: nat, want: nat, got: seq<IoEvent>, head: nat, n: nat)
    requires Collected(c, h0, t, want, got, head) && n <= want - |got| && head + n <= c.nr
    requires n <= Gap(c.nr, head, t) && Gap(c.nr, Fold(head + n, c.nr), t) == Gap(c.nr, head, t) - n
    ensures Collected(c, h0, t, want, got + c.slots[head..head + n], Fold(head + n, c.nr))
  {
    WindowExtends(c, h0, |got|, n);
  }

  /** Records up to the end of a page follow each other on that page. */
  lemma OnOnePage(head: nat, j: nat, pages: nat)
    requires j < EVENTS_PER_PAGE - (head + EVENTS_OFFSET) % EVENTS_PER_PAGE
    requires head + j + EVENTS_OFFSET < EVENTS_PER_PAGE * pages
    ensures (head + j + EVENTS_OFFSET) / EVENTS_PER_PAGE == (head + EVENTS_OFFSET) / EVENTS_PER_PAGE < pages
    ensures (head + j + EVENTS_OFFSET) % EVENTS_PER_PAGE == (head + EVENTS_OFFSET) % EVENTS_PER_PAGE + j
  {
    var pos := head + EVENTS_OFFSET;
    var q, r := pos / EVENTS_PER_PAGE, pos % EVENTS_PER_PAGE;
    assert pos == q * EVENTS_PER_PAGE + r;
    QuotientOf(pos + j, EVENTS_PER_PAGE, q, r + j);
    MulOrder(pages, q, EVENTS_PER_PAGE);
  }

  /** Taking a chunk brings the head that much closer to the tail. */
  lemma ChunkAdvances(nr: nat, head: nat, tail: nat, want: nat)
    requires head < nr && tail < nr && head != tail && want > 0
    ensures var n := Chunk(nr, head, tail, want);
      && n <= Gap(nr, head, tail)
      && (head + n) % nr == Fold(head + n, nr)
      && Gap(nr, Fold(head + n, nr), tail) == Gap(nr, head, tail) - n
  {
    var n := Chunk(nr, head, tail, want);
    QuotientOf(head + n, nr, if head + n == nr then 1 else 0, if head + n == nr then 0 else head + n);
  }

  class Kioctx {
    const nrEvents: nat
    const reqBatch: nat
    const cpu: array<nat>
    const ringPages: array2<IoEvent>
    var reqsAvailable: nat
    var completedEvents: nat
    var tail: nat
    var ringHead: nat
    var ringTail: nat

    ghost predicate Valid()
      reads this, cpu
    {
      && nrEvents >= 2 && reqBatch >= 1 && tail < nrEvents
      && ringPages.Length1 == EVENTS_PER_PAGE
      && nrEvents + EVENTS_OFFSET == EVENTS_PER_PAGE * ringPages.Length0
      && (forall k :: 0 <= k < cpu.Length ==> cpu[k] < 2 * reqBatch)
    }

    /** Record `i` of the ring lies past the header, on a page of its own run of 128. */
    ghost function Slot(i: nat): IoEvent
      reads this, cpu, ringPages
      requires Valid() && i < nrEvents
    {
      ringPages[(i + EVENTS_OFFSET) / EVENTS_PER_PAGE, (i + EVENTS_OFFSET) % EVENTS_PER_PAGE]
    }

    ghost function Slots(): seq<IoEvent>
      reads this, cpu, ringPages
      requires Valid()
    {
      seq(nrEvents, i requires 0 <= i < nrEvents && Valid() reads this, cpu, ringPages => Slot(i))
    }

    ghost function View(): Ctx
      reads this, cpu, ringPages
      requires Valid()
      ensures WellFormed(View())
    {
      Ctx(nrEvents, reqBatch, reqsAvailable, cpu[..], completedEvents, tail, ringHead, ringTail, Slots())
    }

    constructor (s: Sizes, cpus: nat, blank: IoEvent)
      requires s.nrEvents >= 2 && s.reqBatch >= 1
      requires s.nrEvents + EVENTS_OFFSET == EVENTS_PER_PAGE * s.nrPages
      ensures Valid() && fresh(cpu) && fresh(ringPages)
      ensures View() == Ctx(s.nrEvents, s.reqBatch, s.nrEvents - 1, seq(cpus, _ => 0), 0, 0, 0, 0,
                            seq(s.nrEvents, _ => blank))
    {
      nrEvents, reqBatch := s.nrEvents, s.reqBatch;
      cpu := new nat[cpus](_ => 0);
      ringPages := new IoEvent[s.nrPages, EVENTS_PER_PAGE]((_, _) => blank);
      reqsAvailable := s.nrEvents - 1;
      completedEvents, tail, ringHead, ringTail := 0, 0, 0, 0;
    }

    /** The spilling loop of `put_reqs_available`. */
    method SpillOver(k: nat)
      requires reqBatch >= 1 && k < cpu.Length
      modifies this`reqsAvailable, cpu
      ensures var moved := Spill(old(cpu[k]), reqBatch);
        reqsAvailable == old(reqsAvailable) + moved && cpu[..] == old(cpu[..])[k := old(cpu[k]) - moved]
    {
      ghost var x, before := cpu[k], cpu[..];
      while cpu[k] >= reqBatch * 2
        modifies this`reqsAvailable, cpu
        invariant cpu[k] <= x
        invariant reqsAvailable == old(reqsAvailable) + (x - cpu[k])
        invariant x - cpu[k] + Spill(cpu[k], reqBatch) == Spill(x, reqBatch)
        invariant cpu[..] == before[k := cpu[k]]
        decreases cpu[k]
      {
        SpillStep(cpu[k], reqBatch);
        cpu[k] := cpu[k] - reqBatch;
        reqsAvailable := reqsAvailable + reqBatch;
      }
    }

    method PutReqsAvailable(k: nat, n: nat)
      requires Valid() && k < cpu.Length
      modifies this`reqsAvailable, cpu
      ensures Valid() && View() == Put(old(View()), k, n)
    {
      cpu[k] := cpu[k] + n;
      SpillOver(k);
      assert cpu[..] == Put(old(View()), k, n).cpu;
      forall i | 0 <= i < cpu.Length ensures cpu[i] < 2 * reqBatch {
        assert cpu[i] == cpu[..][i];
      }
      assert Slots() == old(Slots());
    }

    method GetReqsAvailable(k: nat) returns (ok: bool)
      requires Valid() && k < cpu.Length
      modifies this`reqsAvailable, cpu
      ensures Valid() && ok == Get(old(View()), k).Some?
      ensures View() == if ok then Get(old(View()), k).value else old(View())
    {
      ok := false;
      if cpu[k] == 0 {
        if reqsAvailable < reqBatch {
          return;
        }
        reqsAvailable := reqsAvailable - reqBatch;
        cpu[k] := cpu[k] + reqBatch;
      }
      ok := true;
      cpu[k] := cpu[k] - 1;
      assert Slots() == old(Slots());
    }

    method RefillReqsAvailable(k: nat, head: nat, t: nat)
      requires Valid() && k < cpu.Length && t < nrEvents
      modifies this`reqsAvailable, this`completedEvents, cpu
      ensures Valid() && View() == Refill(old(View()), k, head, t)
    {
      var h := head % nrEvents;
      var eventsInRing := if h <= t then t - h else nrEvents - (h - t);
      var completed := if eventsInRing < completedEvents then completedEvents - eventsInRing else 0;
      if completed == 0 {
        return;
      }
      completedEvents := completedEvents - completed;
      assert Slots() == old(Slots());
      PutReqsAvailable(k, completed);
    }

    /** `aio_complete` up to the store of `ctx->tail`. */
    method PostEvent(e: IoEvent)
      requires Valid()
      modifies this`tail, ringPages
      ensures Valid() && View() == Post(old(View()), e)
    {
      var pos := tail + EVENTS_OFFSET;
      ghost var t := tail;
      ringPages[pos / EVENTS_PER_PAGE, pos % EVENTS_PER_PAGE] := e;
      tail := if tail + 1 >= nrEvents then 0 else tail + 1;
      forall i | 0 <= i < nrEvents
        ensures Slots()[i] == old(Slots())[t := e][i]
      {
        if i != t {
          PlaceIsOwn(i, t);
        }
        assert Slots()[i] == Slot(i);
      }
      assert Slots() == old(Slots())[t := e];
    }

    /** The access to the shared page: read a head, show the tail. */
    method ReadHeadShowTail() returns (head: nat)
      requires Valid()
      modifies this`ringTail
      ensures Valid() && head == ringHead && View() == Publish(old(View()))
    {
      head := ringHead;
      ringTail := tail;
      assert Slots() == old(Slots());
    }

    method AccountCompletion(k: nat, head: nat)
      requires Valid() && k < cpu.Length
      modifies this`reqsAvailable, this`completedEvents, cpu
      ensures Valid() && View() == Account(old(View()), k, head)
    {
      completedEvents := completedEvents + 1;
      assert Slots() == old(Slots());
      if completedEvents > 1 {
        RefillReqsAvailable(k, head, tail);
      }
    }

    /** `aio_complete`'s locked region with no reader in between. */
    method AioComplete(k: nat, e: IoEvent)
      requires Valid() && k < cpu.Length
      modifies this, cpu, ringPages
      ensures Valid()
      ensures View() == Account(Publish(Post(old(View()), e)), k, old(ringHead))
    {
      PostEvent(e);
      var head := ReadHeadShowTail();
      AccountCompletion(k, head);
    }

    /** One `copy_to_user`: the records lie side by side on one page. */
    method CopyChunk(head: nat, t: nat, want: nat) returns (chunk: seq<IoEvent>, next: nat)
      requires Valid() && head < nrEvents && t < nrEvents && head != t && want > 0
      ensures 0 < |chunk| <= want && head + |chunk| <= nrEvents
      ensures chunk == View().slots[head..head + |chunk|]
      ensures next == Fold(head + |chunk|, nrEvents)
      ensures Gap(nrEvents, next, t) == Gap(nrEvents, head, t) - |chunk|
    {
      var avail := Chunk(nrEvents, head, t, want);
      ChunkAdvances(nrEvents, head, t, want);
      var page, pos := (head + EVENTS_OFFSET) / EVENTS_PER_PAGE, (head + EVENTS_OFFSET) % EVENTS_PER_PAGE;
      OnOnePage(head, 0, ringPages.Length0);
      chunk := seq(avail, j requires 0 <= j < avail && page < ringPages.Length0 && pos + avail <= ringPages.Length1
                            reads ringPages => ringPages[page, pos + j]);
      forall j | 0 <= j < avail
        ensures chunk[j] == Slots()[head + j]
      {
        OnOnePage(head, j, ringPages.Length0);
        assert Slots()[head + j] == Slot(head + j);
      }
      next := (head + avail) % nrEvents;
    }

    method CopyNext(h0: nat, t: nat, want: nat, got: seq<IoEvent>, head: nat,
                    ghost c: Ctx) returns (got': seq<IoEvent>, head': nat)
      requires Valid() && c == View() && Collected(c, h0, t, want, got, head) && |got| < want && head != t
      ensures Collected(c, h0, t, want, got', head') && |got'| > |got|
    {
      var chunk;
      chunk, head' := CopyChunk(head, t, want - |got|);
      CollectNext(c, h0, t, want, got, head, |chunk|);
      got' := got + chunk;
    }

    /**
     The copying loop of `aio_read_events_ring` between a clamped head and tail: page by page
     it collects the oldest records in ring order, as many as there are or as are wanted.
     The copy numbered `faultAt` fails, if it is reached.
     */
    method CollectEvents(h0: nat, t: nat, want: nat, faultAt: nat)
      returns (ok: bool, got: seq<IoEvent>, head: nat)
      requires Valid() && h0 < nrEvents && t < nrEvents
      ensures ok ==> |got| == Min(want, Gap(nrEvents, h0, t))
      ensures ok ==> head == Fold(h0 + |got|, nrEvents) && got == Window(View(), h0, |got|)
      ensures faultAt >= Min(want, Gap(nrEvents, h0, t)) ==> ok
    {
      ok, got, head := true, [], h0;
      var copies := 0;
      ghost var c := View();
      while |got| < want
        invariant copies <= |got| && Collected(c, h0, t, want, got, head)
        decreases want - |got|
      {
        if head == t {
          break;
        }
        if copies == faultAt {
          return false, got, head;
        }
        got, head := CopyNext(h0, t, want, got, head, c);
        copies := copies + 1;
      }
    }

    /**
     `aio_read_events_ring(nr)`.  On a fault nothing is taken and the head stays; otherwise
     the head moves past exactly the records handed over.
     */
    method ReadEvents(want: nat, faultAt: nat) returns (ok: bool, got: seq<IoEvent>)
      requires Valid()
      modifies this`ringHead
      ensures Valid()
      ensures !ok ==> View() == old(View())
      ensures ok ==> got == Window(old(View()), old(ringHead) % nrEvents, ReadCount(old(View()), want))
      ensures ok ==> View() == old(View()).(head := ReadHead(old(View()), want))
      ensures faultAt >= ReadCount(old(View()), want) ==> ok
    {
      ok, got := true, [];
      if ringHead == ringTail {
        return;
      }
      var head;
      ok, got, head := CollectEvents(ringHead % nrEvents, ringTail % nrEvents, want, faultAt);
      if ok {
        ringHead := head;
        assert Slots() == old(Slots());
      }
    }
  }
}
