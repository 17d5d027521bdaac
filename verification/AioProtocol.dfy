/**
 Whole runs of an AIO context: submitters, completion handlers, slot reclaimers and a
 reader interleave.  Per-CPU accounting steps and single accesses under a lock are atomic;
 `aio_complete` and `user_refill_reqs_available` may be overtaken by readers between
 reading the ring head and using it, and a reader by completions between its copies.
 */
module AioProtocol {
  import opened Wrappers
  import opened Arithmetic
  import opened AioSizing
  import opened AioRing

  /** Who is inside `completion_lock`, and how far.  `since` records how much had been read when `head` was. */
  datatype Lock = Free | Posting(id: nat) | Published(id: nat, head: nat, since: nat) | Refilling(head: nat, since: nat)

  /** A reader holding `ring_lock`; `upTo` records how much had been posted when `tail` was read. */
  datatype Reader = Idle | Reading(want: nat, head: nat, tail: nat, got: seq<IoEvent>, upTo: nat)

  /** `posted` and `taken` are the histories of completions and of deliveries. */
  datatype State = State(ctx: Ctx, lock: Lock, reader: Reader, inflight: set<nat>, issued: nat,
                         posted: seq<IoEvent>, taken: seq<IoEvent>)

  datatype Action =
    | Submit(cpu: nat)                    // get_reqs_available succeeds
    | Release(cpu: nat, id: nat)          // out_put of aio_get_req, out_put_req of io_submit_one
    | Begin(id: nat, event: IoEvent)      // aio_complete: record and tail stored
    | Show                                // aio_complete: head read, tail published
    | Count(cpu: nat)                     // aio_complete: completed_events, refill
    | RefillBegin                         // user_refill_reqs_available: head read
    | RefillEnd(cpu: nat)
    | ReadBegin(want: nat)
    | ReadChunk
    | ReadFault
    | ReadEnd
    | Scribble(head: nat, rtail: nat, slots: seq<IoEvent>)   // user space writes the shared pages

  function Completing(l: Lock): set<nat> {
    match l
    case Posting(id) => {id}
    case Published(id, _, _) => {id}
    case _ => {}
  }

  function Pending(l: Lock): nat { if l.Posting? || l.Published? then 1 else 0 }

  /** Number of records whose tail readers can see. */
  function Shown(s: State): int { |s.posted| - if s.lock.Posting? then 1 else 0 }

  predicate MoreToRead(r: Reader) { r.Reading? && |r.got| < r.want && r.head != r.tail }

  predicate Enabled(s: State, a: Action)
  {
    match a
    case Submit(k) => k < |s.ctx.cpu| && s.ctx.batch >= 1 && Get(s.ctx, k).Some?
    case Release(k, id) => k < |s.ctx.cpu| && id in s.inflight && id !in Completing(s.lock)
    case Begin(id, _) => s.lock.Free? && id in s.inflight
    case Show => s.lock.Posting?
    case Count(k) => k < |s.ctx.cpu| && s.lock.Published?
    case RefillBegin => s.lock.Free? && s.ctx.completed > 0
    case RefillEnd(k) => k < |s.ctx.cpu| && s.lock.Refilling?
    case ReadBegin(_) => s.reader.Idle? && s.ctx.head != s.ctx.rtail
    case ReadChunk => MoreToRead(s.reader)
    case ReadFault => MoreToRead(s.reader)
    case ReadEnd => s.reader.Reading? && !MoreToRead(s.reader)
    case Scribble(_, _, slots) => |slots| == s.ctx.nr
  }

  predicate ReaderInRange(r: Reader, nr: nat) { r.Reading? ==> r.head < nr && r.tail < nr && |r.got| <= r.want }

  /** A reader after copying `n` records that lie side by side. */
  function Copy(c: Ctx, r: Reader, n: nat): Reader
    requires r.Reading? && r.head + n <= c.nr && c.nr > 0 && |c.slots| == c.nr
  {
    r.(head := Fold(r.head + n, c.nr), got := r.got + c.slots[r.head..r.head + n])
  }

  predicate Typed(s: State) { WellFormed(s.ctx) && ReaderInRange(s.reader, s.ctx.nr) }

  function Submitted(s: State, k: nat): State
    requires Typed(s) && Enabled(s, Submit(k))
  {
    s.(ctx := Get(s.ctx, k).value, inflight := s.inflight + {s.issued}, issued := s.issued + 1)
  }

  function Released(s: State, k: nat, id: nat): State
    requires Typed(s) && k < |s.ctx.cpu|
  {
    s.(ctx := Put(s.ctx, k, 1), inflight := s.inflight - {id})
  }

  function Begun(s: State, id: nat, e: IoEvent): State
    requires Typed(s)
  {
    s.(ctx := Post(s.ctx, e), lock := Posting(id), posted := s.posted + [e])
  }

  function ShownNow(s: State): State
    requires s.lock.Posting?
  {
    s.(ctx := Publish(s.ctx), lock := Published(s.lock.id, s.ctx.head, |s.taken|))
  }

  function Counted(s: State, k: nat): State
    requires Typed(s) && k < |s.ctx.cpu| && s.lock.Published?
  {
    s.(ctx := Account(s.ctx, k, s.lock.head), lock := Free, inflight := s.inflight - {s.lock.id})
  }

  function Refilled(s: State, k: nat): State
    requires Typed(s) && Enabled(s, RefillEnd(k))
  {
    s.(ctx := Refill(s.ctx, k, s.lock.head, s.ctx.tail), lock := Free)
  }

  function Looked(s: State, want: nat): State
    requires Typed(s)
  {
    var c := s.ctx;
    s.(reader := Reading(want, c.head % c.nr, c.rtail % c.nr, [], if Shown(s) >= 0 then Shown(s) else 0))
  }

  function Copied(s: State): State
    requires Typed(s) && Enabled(s, ReadChunk)
  {
    var r := s.reader;
    s.(reader := Copy(s.ctx, r, Chunk(s.ctx.nr, r.head, r.tail, r.want - |r.got|)))
  }

  function Finished(s: State): State
    requires s.reader.Reading?
  {
    s.(ctx := s.ctx.(head := s.reader.head), reader := Idle, taken := s.taken + s.reader.got)
  }

  function Apply(s: State, a: Action): State
    requires Typed(s) && Enabled(s, a)
  {
    match a
    case Submit(k) => Submitted(s, k)
    case Release(k, id) => Released(s, k, id)
    case Begin(id, e) => Begun(s, id, e)
    case Show => ShownNow(s)
    case Count(k) => Counted(s, k)
    case RefillBegin => s.(lock := Refilling(s.ctx.head, |s.taken|))
    case RefillEnd(k) => Refilled(s, k)
    case ReadBegin(w) => Looked(s, w)
    case ReadChunk => Copied(s)
    case ReadFault => s.(reader := Idle)
    case ReadEnd => Finished(s)
    case Scribble(h, t, slots) => s.(ctx := s.ctx.(head := h, rtail := t, slots := slots))
  }

  /**
   Nobody is stopped from going on: a request in flight can be released or completed, a completion
   or refill that holds the lock can finish, a reader starts on what is shown and ends, by a
   fault or with what it wanted.
   */
  lemma StepsPossible(s: State, k: nat, id: nat, e: IoEvent, want: nat)
    requires k < |s.ctx.cpu| && s.ctx.batch >= 1
    ensures Get(s.ctx, k).Some? ==> Enabled(s, Submit(k))
    ensures id in s.inflight && s.lock.Free? ==> Enabled(s, Release(k, id)) && Enabled(s, Begin(id, e))
    ensures s.lock.Posting? ==> Enabled(s, Show)
    ensures s.lock.Published? ==> Enabled(s, Count(k))
    ensures s.lock.Refilling? ==> Enabled(s, RefillEnd(k))
    ensures s.lock.Free? && s.ctx.completed > 0 ==> Enabled(s, RefillBegin)
    ensures s.reader.Idle? && s.ctx.head != s.ctx.rtail ==> Enabled(s, ReadBegin(want))
    ensures s.reader.Reading? ==> Enabled(s, ReadEnd) || (Enabled(s, ReadChunk) && Enabled(s, ReadFault))
    ensures |s.ctx.slots| == s.ctx.nr ==> Enabled(s, Scribble(k, id, s.ctx.slots))
  {
  }

  /** User space can at any time write any head, any tail and any records, and nothing else. */
  lemma ScribblesAnything(s: State, h: nat, t: nat, slots: seq<IoEvent>)
    requires Typed(s) && |slots| == s.ctx.nr
    ensures Enabled(s, Scribble(h, t, slots))
    ensures var u := Apply(s, Scribble(h, t, slots));
      && u.ctx.head == h && u.ctx.rtail == t && u.ctx.slots == slots
      && u == s.(ctx := u.ctx) && u.ctx == s.ctx.(head := h, rtail := t, slots := slots)
  {
  }

  // ----- conservation, whatever user space writes -----

  /** Every slot is available, in flight, or completed and not yet reclaimed. */
  predicate Conserved(s: State) {
    && Typed(s)
    && Held(s.ctx) + |s.inflight| == s.ctx.nr - 1
    && Completing(s.lock) <= s.inflight
    && (forall id :: id in s.inflight ==> id < s.issued)
  }

  lemma SubmitConserves(s: State, k: nat)
    requires Conserved(s) && Enabled(s, Submit(k))
    ensures Conserved(Submitted(s, k))
  {
    GetHolds(s.ctx, k);
    assert |s.inflight + {s.issued}| == |s.inflight| + 1;
  }

  lemma ReleaseConserves(s: State, k: nat, id: nat)
    requires Conserved(s) && Enabled(s, Release(k, id))
    ensures Conserved(Released(s, k, id))
  {
    PutHolds(s.ctx, k, 1);
    assert |s.inflight - {id}| == |s.inflight| - 1;
  }

  lemma CountConserves(s: State, k: nat)
    requires Conserved(s) && Enabled(s, Count(k))
    ensures Conserved(Counted(s, k))
  {
    var d := s.ctx.(completed := s.ctx.completed + 1);
    if d.completed > 1 {
      RefillHolds(d, k, s.lock.head, d.tail);
    }
    assert |s.inflight - {s.lock.id}| == |s.inflight| - 1;
  }

  lemma ConservedStep(s: State, a: Action)
    requires Conserved(s) && Enabled(s, a)
    ensures Conserved(Apply(s, a))
  {
    match a
    case Submit(k) => SubmitConserves(s, k);
    case Release(k, id) => ReleaseConserves(s, k, id);
    case Count(k) => CountConserves(s, k);
    case RefillEnd(k) => RefillHolds(s.ctx, k, s.lock.head, s.ctx.tail);
    case _ =>
  }

  ghost predicate Legal(s: State, run: seq<Action>)
    decreases |run|
  {
    run == [] || (Typed(s) && Enabled(s, run[0]) && Legal(Apply(s, run[0]), run[1..]))
  }

  ghost function Exec(s: State, run: seq<Action>): State
    requires Legal(s, run)
    decreases |run|
  {
    if run == [] then s else Exec(Apply(s, run[0]), run[1..])
  }

  /** The context as `ioctx_alloc` leaves it. */
  function Start(z: Sizes, cpus: nat, blank: IoEvent): State
    requires z.nrEvents >= 1
  {
    State(Ctx(z.nrEvents, z.reqBatch, z.nrEvents - 1, seq(cpus, _ => 0), 0, 0, 0, 0, seq(z.nrEvents, _ => blank)),
          Free, Idle, {}, 0, [], [])
  }

  lemma {:induction false} SumZero(n: nat)
    ensures Sum(seq(n, _ => 0)) == 0
  {
    if n > 0 {
      assert seq(n, _ => 0)[1..] == seq(n - 1, _ => 0);
      SumZero(n - 1);
    }
  }

  lemma StartConserved(z: Sizes, cpus: nat, blank: IoEvent)
    requires z.nrEvents >= 2 && z.reqBatch >= 1
    ensures Conserved(Start(z, cpus, blank))
  {
    SumZero(cpus);
  }

  /** Slot conservation and index safety in every reachable state, also when user space scribbles on the ring. */
  lemma {:induction false} ConservedAlways(s: State, run: seq<Action>)
    requires Conserved(s) && Legal(s, run)
    ensures Conserved(Exec(s, run))
    ensures Exec(s, run).ctx.nr == s.ctx.nr && Exec(s, run).ctx.batch == s.ctx.batch
    ensures |Exec(s, run).ctx.cpu| == |s.ctx.cpu|
    decreases |run|
  {
    if run != [] {
      ConservedStep(s, run[0]);
      ConservedAlways(Apply(s, run[0]), run[1..]);
    }
  }

  // ----- no refusal below the promised capacity -----

  /** A refusal on some CPU leaves at most the stranded slots unused. */
  lemma RefusalBound(s: State, k: nat, z: Sizes)
    requires Conserved(s) && k < |s.ctx.cpu| && Get(s.ctx, k).None?
    requires z.nrEvents == s.ctx.nr && z.reqBatch == s.ctx.batch
    ensures |s.inflight| + s.ctx.completed >= z.nrEvents - 1 - Stranded(z, |s.ctx.cpu|)
  {
    SumBound(s.ctx.cpu, k, 2 * s.ctx.batch - 1);
  }

  /** Submitting on one CPU until refused. */
  lemma {:induction false} DrainUntilRefused(s: State) returns (run: seq<Action>)
    requires Conserved(s) && |s.ctx.cpu| > 0
    ensures Legal(s, run) && |Exec(s, run).ctx.cpu| == |s.ctx.cpu| && Exec(s, run).ctx.batch == s.ctx.batch
    ensures Get(Exec(s, run).ctx, 0).None?
    decreases Held(s.ctx)
  {
    if Get(s.ctx, 0).None? {
      run := [];
    } else {
      var next := Apply(s, Submit(0));
      ConservedStep(s, Submit(0));
      GetHolds(s.ctx, 0);
      var rest := DrainUntilRefused(next);
      run := [Submit(0)] + rest;
      assert run[1..] == rest;
    }
  }

  /** The promise to user space: no refusal as long as no more than `n` slots are in flight or unreclaimed. */
  ghost predicate NeverRefusesEarly(start: State, n: nat) {
    forall run, k: nat :: Legal(start, run) && k < |Exec(start, run).ctx.cpu| && Exec(start, run).ctx.batch >= 1
      && Get(Exec(start, run).ctx, k).None?
      ==> |Exec(start, run).inflight| + Exec(start, run).ctx.completed > n
  }

  /** The promise holds on every run exactly when the requested count does not wrap when doubled. */
  lemma NoEarlyRefusalIffNoWrap(n: nat, cpus: nat, aioMaxNr: nat, blank: IoEvent)
    requires n < U32 && cpus >= 1 && cpus * 4 < U32 / 2
    requires IoctxAlloc(n, cpus, aioMaxNr).Ok?
    ensures NeverRefusesEarly(Start(IoctxAlloc(n, cpus, aioMaxNr).sizes, cpus, blank), n) <==> n < U32 / 2
  {
    var z := IoctxAlloc(n, cpus, aioMaxNr).sizes;
    var start := Start(z, cpus, blank);
    AllocShape(n, cpus, aioMaxNr);
    StartConserved(z, cpus, blank);
    if n < U32 / 2 {
      forall run, k: nat | Legal(start, run) && k < |Exec(start, run).ctx.cpu| && Exec(start, run).ctx.batch >= 1
        && Get(Exec(start, run).ctx, k).None?
        ensures |Exec(start, run).inflight| + Exec(start, run).ctx.completed > n
      {
        ConservedAlways(start, run);
        RefusalBound(Exec(start, run), k, z);
        PromiseIffNoWrap(n, cpus, aioMaxNr);
      }
    } else {
      var run := DrainUntilRefused(start);
      ConservedAlways(start, run);
    }
  }

  lemma AllocShape(n: nat, cpus: nat, aioMaxNr: nat)
    requires n < U32 && cpus >= 1 && cpus * 4 < U32 / 2
    requires IoctxAlloc(n, cpus, aioMaxNr).Ok?
    ensures var z := IoctxAlloc(n, cpus, aioMaxNr).sizes;
      2 <= z.nrEvents < U32 / 2 && z.reqBatch >= 1
  {
    RingShape(Doubled(n, cpus));
    DoubledRing(n, cpus);
  }
}
