/**
 Sizing of an AIO context: the arithmetic of `ioctx_alloc` and `aio_setup_ring`.

 Sizes are those of x86-64: 4096-byte pages, a 32-byte `struct aio_ring` header
 and 32-byte `struct io_event` records, so one page holds 128 records and the
 header takes the place of exactly one of them.
 */
module AioSizing {

  const PAGE_SIZE: nat := 4096
  const RING_HEADER: nat := 32
  const IO_EVENT: nat := 32
  const EVENTS_PER_PAGE: nat := 128   // AIO_EVENTS_PER_PAGE
  const EVENTS_OFFSET: nat := 1       // AIO_EVENTS_OFFSET
  const U32: nat := 0x1_0000_0000
  const MAX_RING: nat := 0x1000_0000 / IO_EVENT

  datatype Errno = EINVAL | EAGAIN

  /** What a successful allocation fixes for the life of the context. */
  datatype Sizes = Sizes(maxReqs: nat, nrPages: nat, nrEvents: nat, reqBatch: nat)

  datatype Alloc = Ok(sizes: Sizes) | Err(error: Errno)

  function Max(a: int, b: int): int { if a < b then b else a }

  /** `aio_setup_ring`: pages for the header and two spare records, then as many records as fit. */
  function RingPages(maxReqs: nat): nat {
    (RING_HEADER + IO_EVENT * (maxReqs + 2) + PAGE_SIZE - 1) / PAGE_SIZE
  }

  function RingEvents(maxReqs: nat): nat
  {
    var np := RingPages(maxReqs);
    assert np >= 1;
    (PAGE_SIZE * np - RING_HEADER) / IO_EVENT
  }

  /** `req_batch`: a quarter of the slots, divided over the CPUs, but never zero. */
  function Batch(nrEvents: nat, cpus: nat): nat
    requires nrEvents >= 1 && cpus >= 1
  {
    Max(1, (nrEvents - 1) / (cpus * 4))
  }

  /** The request count after the two adjustments of `ioctx_alloc`, in 32-bit arithmetic. */
  function Doubled(n: nat, cpus: nat): nat {
    (Max(n, cpus * 4) * 2) % U32
  }

  /** `ioctx_alloc(n)` on a machine with `cpus` possible CPUs; memory is assumed to be available. */
  function IoctxAlloc(n: nat, cpus: nat, aioMaxNr: nat): Alloc
    requires cpus >= 1
  {
    var d := Doubled(n, cpus);
    if d > MAX_RING then Err(EINVAL)
    else if d == 0 || d > aioMaxNr * 2 then Err(EAGAIN)
    else
      RingShape(d);
      Ok(Sizes(d, RingPages(d), RingEvents(d), Batch(RingEvents(d), cpus)))
  }

  /** The larger of the request and four per CPU, less 2^31 where doubling it in 32 bits wraps. */
  function Asked(n: nat, cpus: nat): nat {
    var larger := if n >= 4 * cpus then n else 4 * cpus;
    if larger < 0x8000_0000 then larger else larger - 0x8000_0000
  }

  lemma DoubledExact(n: nat, cpus: nat)
    requires n < U32 && cpus * 4 < U32 / 2
    ensures Doubled(n, cpus) == 2 * Asked(n, cpus)
  {
  }

  /** Which requests are refused, and how: EINVAL above 2^22, EAGAIN for nothing or more than the system's limit. */
  lemma RefusalExact(n: nat, cpus: nat, aioMaxNr: nat)
    requires n < U32 && cpus >= 1 && cpus * 4 < U32 / 2
    ensures var m, r := Asked(n, cpus), IoctxAlloc(n, cpus, aioMaxNr);
      && (r == Err(EINVAL) <==> m > 0x40_0000)
      && (r == Err(EAGAIN) <==> m == 0 || aioMaxNr < m <= 0x40_0000)
      && (r.Ok? ==> r.sizes.maxReqs == 2 * m)
  {
    DoubledExact(n, cpus);
  }

  /** The layout constants are those of the header macros. */
  lemma LayoutConstants()
    ensures EVENTS_PER_PAGE == PAGE_SIZE / IO_EVENT
    ensures EVENTS_OFFSET == EVENTS_PER_PAGE - (PAGE_SIZE - RING_HEADER) / IO_EVENT
  {
  }

  /** The ring has room for the two spare records, and the last record ends with its last page. */
  lemma RingShape(maxReqs: nat)
    ensures maxReqs + 2 <= RingEvents(maxReqs) < maxReqs + 2 + EVENTS_PER_PAGE
    ensures RingEvents(maxReqs) + EVENTS_OFFSET == EVENTS_PER_PAGE * RingPages(maxReqs)
  {
  }

  /** The largest number of slots that can be stranded where CPU-local allocation cannot reach them. */
  function Stranded(s: Sizes, cpus: nat): int {
    (s.reqBatch - 1) + (cpus - 1) * (2 * s.reqBatch - 1)
  }

  lemma DivisionFloor(a: nat, b: nat)
    requires b > 0
    ensures (a / b) * b <= a
  {
  }

  /** Half of the slots at most are stranded. */
  lemma StrandedBelowHalf(s: Sizes, cpus: nat)
    requires cpus >= 1 && s.nrEvents >= 8 * cpus + 2
    requires s.reqBatch == Batch(s.nrEvents, cpus)
    ensures 2 * Stranded(s, cpus) < s.nrEvents - 1
  {
    var slots, q := s.nrEvents - 1, cpus * 4;
    var b := s.reqBatch;
    assert b == slots / q by {
      assert slots >= q * 2;
      assert slots / q >= 1;
    }
    DivisionFloor(slots, q);
    calc {
      2 * Stranded(s, cpus);
      2 * (b - 1) + 2 * ((cpus - 1) * (2 * b - 1));
      2 * b - 2 + 2 * (2 * (cpus * b) - cpus - 2 * b + 1);
      4 * (cpus * b) - 2 * cpus - 2 * b;
    }
    assert b * q == 4 * (cpus * b);
  }

  lemma StrandedNonNegative(s: Sizes, cpus: nat)
    requires cpus >= 1 && s.reqBatch >= 1
    ensures Stranded(s, cpus) >= 0
  {
    assert (cpus - 1) * (2 * s.reqBatch - 1) >= 0;
  }

  /** Without wrap-around the ring is more than twice as large as asked for; with it, smaller than asked for. */
  lemma DoubledRing(n: nat, cpus: nat)
    requires n < U32 && cpus >= 1 && cpus * 4 < U32 / 2
    ensures n < U32 / 2 ==> Doubled(n, cpus) >= 2 * n && Doubled(n, cpus) >= cpus * 8
    ensures Doubled(n, cpus) <= MAX_RING ==> RingEvents(Doubled(n, cpus)) < U32 / 2
  {
    assert n < U32 / 2 ==> Max(n, cpus * 4) * 2 < U32;
  }

  /**
   The doubling keeps its promise exactly when it does not wrap: a successfully
   allocated context for `n` requests still has more than `n` slots outside the
   stranded ones if and only if `n` is below 2^31.
   */
  lemma PromiseIffNoWrap(n: nat, cpus: nat, aioMaxNr: nat)
    requires n < U32 && cpus >= 1 && cpus * 4 < U32 / 2
    requires IoctxAlloc(n, cpus, aioMaxNr).Ok?
    ensures var s := IoctxAlloc(n, cpus, aioMaxNr).sizes;
      s.nrEvents - 1 - Stranded(s, cpus) > n <==> n < U32 / 2
  {
    var d := Doubled(n, cpus);
    var s := IoctxAlloc(n, cpus, aioMaxNr).sizes;
    RingShape(d);
    DoubledRing(n, cpus);
    var events, batch := RingEvents(d), Batch(RingEvents(d), cpus);
    assert s.nrEvents == events && s.reqBatch == batch;
    if n < U32 / 2 {
      StrandedBelowHalf(s, cpus);
    } else {
      StrandedNonNegative(s, cpus);
    }
  }

  /** A request count that wraps to a two-entry request and is accepted. */
  lemma WrapAccepted()
    ensures IoctxAlloc(0x8000_0001, 1, 0x10000) == Ok(Sizes(2, 1, 127, 31))
  {
  }
}
