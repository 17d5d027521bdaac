/**
 Ring safety and delivery order of the AIO ring, on runs where user space leaves the shared
 pages alone, so that only `aio_read_events_ring` moves the head.
 */
module AioFifo {
  import opened Arithmetic
  import opened AioSizing
  import opened AioRing
  import opened AioProtocol

  lemma PositionStable(p: nat, nr: nat)
    requires p < nr
    ensures p % nr == p
  {
    QuotientOf(p, nr, 0, p);
  }

  /** Leaving out the first `a` records of a window. */
  lemma WindowRest(c: Ctx, h: nat, n: nat, a: nat)
    requires h < c.nr && a <= n <= c.nr && |c.slots| == c.nr
    ensures Window(c, Fold(h + a, c.nr), n - a) == Window(c, h, n)[a..]
  {
    var w, w' := Window(c, Fold(h + a, c.nr), n - a), Window(c, h, n)[a..];
    forall i | 0 <= i < n - a ensures w[i] == w'[i] {
      assert Fold(Fold(h + a, c.nr) + i, c.nr) == Fold(h + (a + i), c.nr);
    }
  }

  /** Adding a record just past a window that leaves a place free. */
  lemma WindowStore(c: Ctx, h: nat, n: nat, e: IoEvent)
    requires WellFormed(c) && h < c.nr && n < c.nr && c.tail == Fold(h + n, c.nr)
    ensures Window(Post(c, e), h, n + 1) == Window(c, h, n) + [e]
  {
    var w, w' := Window(Post(c, e), h, n + 1), Window(c, h, n) + [e];
    forall i | 0 <= i < n + 1 ensures w[i] == w'[i] {
      assert i < n ==> Fold(h + i, c.nr) != c.tail;
    }
  }

  function Unread(s: State): int { |s.posted| - |s.taken| }

  /** `head` was read when `since` records had been taken; it is as far behind as readers have got since. */
  predicate Behind(c: Ctx, lock: Lock, posted: nat, taken: nat, head: nat, since: nat) {
    && since <= taken <= posted && posted - since <= c.completed + Pending(lock)
    && posted - since < c.nr
    && head < c.nr && c.head == Fold(head + (taken - since), c.nr)
  }

  /** Fewer records are unread than the ring has places, and head and tails are where the counts say. */
  predicate InPlace(c: Ctx, lock: Lock, posted: nat, taken: nat) {
    var shown := posted - if lock.Posting? then 1 else 0;
    && taken <= shown
    && c.head < c.nr && |c.slots| == c.nr
    && posted - taken <= c.completed + Pending(lock) && posted - taken < c.nr
    && c.tail == Fold(c.head + (posted - taken), c.nr)
    && c.rtail == Fold(c.head + (shown - taken), c.nr)
    && (lock.Published? || lock.Refilling? ==> Behind(c, lock, posted, taken, lock.head, lock.since))
  }

  /** The unread records lie in order from the head on, and what was taken are the ones before. */
  predicate Stored(c: Ctx, posted: seq<IoEvent>, taken: seq<IoEvent>) {
    && |taken| <= |posted| && |posted| - |taken| <= c.nr && c.head < c.nr && |c.slots| == c.nr
    && taken == posted[..|taken|]
    && Window(c, c.head, |posted| - |taken|) == posted[|taken|..]
  }

  /** A reader has copied the oldest unread records so far. */
  predicate OnTrack(r: Reader, head: nat, nr: nat, shown: int, taken: nat, posted: seq<IoEvent>) {
    r.Reading? ==>
      && taken + |r.got| <= r.upTo <= shown <= |posted| && shown - taken < nr && head < nr
      && r.head == Fold(head + |r.got|, nr) && r.tail == Fold(head + (r.upTo - taken), nr)
      && r.got == posted[taken..taken + |r.got|]
  }

  predicate Ordered(s: State) {
    && InPlace(s.ctx, s.lock, |s.posted|, |s.taken|)
    && Stored(s.ctx, s.posted, s.taken)
    && OnTrack(s.reader, s.ctx.head, s.ctx.nr, Shown(s), |s.taken|, s.posted)
  }

  predicate Fifo(s: State) { Conserved(s) && Ordered(s) }

  /**
   A request in flight keeps a place of the ring free for its completion, beside the one that tells
   full from empty.
   */
  lemma PlaceLeft(s: State)
    requires Fifo(s) && s.lock.Free? && s.inflight != {}
    ensures Unread(s) + 1 < s.ctx.nr
  {
    assert |s.inflight| >= 1;
  }

  /** `aio_complete` never writes on an unread record, not even while a reader is copying. */
  lemma NeverOverwrites(s: State, id: nat, e: IoEvent)
    requires Fifo(s) && Enabled(s, Begin(id, e))
    ensures Unread(s) + 1 < s.ctx.nr && Stored(Post(s.ctx, e), s.posted + [e], s.taken)
    ensures Window(Post(s.ctx, e), s.ctx.head, Unread(s)) == Window(s.ctx, s.ctx.head, Unread(s))
  {
    PlaceLeft(s);
    WindowStore(s.ctx, s.ctx.head, Unread(s), e);
    assert Window(Post(s.ctx, e), s.ctx.head, Unread(s)) ==
          Window(Post(s.ctx, e), s.ctx.head, Unread(s) + 1)[..Unread(s)];
    assert (s.posted + [e])[|s.taken|..] == s.posted[|s.taken|..] + [e];
  }

  /** Head equal to tail means exactly that nothing shown is unread. */
  lemma EmptyExactly(s: State)
    requires Fifo(s)
    ensures s.ctx.head == s.ctx.rtail <==> |s.taken| == Shown(s)
  {
  }

  lemma BeginInPlace(c: Ctx, posted: nat, taken: nat, id: nat, e: IoEvent)
    requires WellFormed(c) && InPlace(c, Free, posted, taken) && posted - taken + 1 < c.nr
    ensures InPlace(Post(c, e), Posting(id), posted + 1, taken)
  {
  }

  lemma OnTrackStill(r: Reader, head: nat, nr: nat, shown: int, taken: nat, posted: seq<IoEvent>, e: IoEvent)
    requires OnTrack(r, head, nr, shown, taken, posted)
    ensures OnTrack(r, head, nr, shown, taken, posted + [e])
  {
    if r.Reading? {
      assert (posted + [e])[taken..taken + |r.got|] == posted[taken..taken + |r.got|];
    }
  }

  lemma BeginKeepsFifo(s: State, id: nat, e: IoEvent)
    requires Fifo(s) && Enabled(s, Begin(id, e))
    ensures Fifo(Begun(s, id, e))
  {
    ConservedStep(s, Begin(id, e));
    NeverOverwrites(s, id, e);
    BeginInPlace(s.ctx, |s.posted|, |s.taken|, id, e);
    OnTrackStill(s.reader, s.ctx.head, s.ctx.nr, Shown(s), |s.taken|, s.posted, e);
  }

  /** A head that is behind makes reclaiming cautious, never wrong: what may be unread stays counted. */
  lemma StaleHeadReclaims(s: State, c: Ctx, k: nat, head: nat, since: nat)
    requires Ordered(s) && Behind(s.ctx, s.lock, |s.posted|, |s.taken|, head, since) && k < |c.cpu| && WellFormed(c)
    requires c.nr == s.ctx.nr && c.tail == s.ctx.tail && |s.posted| - since <= c.completed
    ensures Refill(c, k, head, c.tail).completed == |s.posted| - since
  {
    PositionStable(head, c.nr);
    RefillHolds(c, k, head, c.tail);
  }

  /** Accounting leaves the ring itself alone. */
  lemma UnlockKeepsOrder(s: State, t: State)
    requires Ordered(s) && !s.lock.Posting? && t.lock.Free?
    requires t.ctx == s.ctx.(avail := t.ctx.avail, cpu := t.ctx.cpu, completed := t.ctx.completed)
    requires t.posted == s.posted && t.taken == s.taken && t.reader == s.reader
    requires Unread(t) <= t.ctx.completed
    ensures Ordered(t)
  {
  }

  lemma CountKeepsFifo(s: State, k: nat)
    requires Fifo(s) && Enabled(s, Count(k))
    ensures Fifo(Counted(s, k))
  {
    CountConserves(s, k);
    var d := s.ctx.(completed := s.ctx.completed + 1);
    if d.completed > 1 {
      StaleHeadReclaims(s, d, k, s.lock.head, s.lock.since);
    }
    UnlockKeepsOrder(s, Counted(s, k));
  }

  /** The first completion is only counted; from then on each one reclaims all slots read when it looked at the head. */
  lemma CountReclaims(s: State, k: nat)
    requires Fifo(s) && Enabled(s, Count(k))
    ensures Counted(s, k).ctx.completed == if s.ctx.completed == 0 then 1 else |s.posted| - s.lock.since
  {
    var d := s.ctx.(completed := s.ctx.completed + 1);
    if d.completed > 1 {
      StaleHeadReclaims(s, d, k, s.lock.head, s.lock.since);
    }
  }

  lemma RefillKeepsFifo(s: State, k: nat)
    requires Fifo(s) && Enabled(s, RefillEnd(k))
    ensures Fifo(Refilled(s, k))
  {
    RefillHolds(s.ctx, k, s.lock.head, s.ctx.tail);
    StaleHeadReclaims(s, s.ctx, k, s.lock.head, s.lock.since);
    UnlockKeepsOrder(s, Refilled(s, k));
  }

  /**
   A submitter that finds no slot reclaims all slots read when it looked at the head; overtaken by
   nobody, all but those of unread records.
   */
  lemma RefillReclaims(s: State, k: nat)
    requires Fifo(s) && k < |s.ctx.cpu|
    ensures Enabled(s, RefillEnd(k)) ==> Refilled(s, k).ctx.completed == |s.posted| - s.lock.since
    ensures Enabled(s, RefillBegin) ==>
      var t := Apply(s, RefillBegin);
      && Typed(t) && Enabled(t, RefillEnd(k))
      && Refilled(t, k).ctx.completed == |s.posted| - |s.taken| && Refilled(t, k).lock.Free?
  {
    if Enabled(s, RefillEnd(k)) {
      StaleHeadReclaims(s, s.ctx, k, s.lock.head, s.lock.since);
    } else if Enabled(s, RefillBegin) {
      var t := Apply(s, RefillBegin);
      RefillBeginKeepsOrder(s);
      StaleHeadReclaims(t, t.ctx, k, t.lock.head, t.lock.since);
    }
  }

  /** One copy takes the next records in posting order, even if more have been posted since the tail was read. */
  lemma ChunkContents(c: Ctx, posted: seq<IoEvent>, taken: nat, g: nat, n: nat)
    requires taken + g + n <= |posted| && |posted| - taken <= c.nr && c.head < c.nr && |c.slots| == c.nr
    requires Window(c, c.head, |posted| - taken) == posted[taken..]
    requires Fold(c.head + g, c.nr) + n <= c.nr
    ensures posted[taken..taken + g] + c.slots[Fold(c.head + g, c.nr)..Fold(c.head + g, c.nr) + n]
         == posted[taken..taken + g + n]
  {
    WindowExtends(c, c.head, g, n);
    var w := Window(c, c.head, |posted| - taken);
    assert Window(c, c.head, g + n) == w[..g + n];
    assert Window(c, c.head, g) == w[..g];
    assert w[..g + n] == posted[taken..taken + g + n];
    assert w[..g] == posted[taken..taken + g];
  }

  /** Where the reader stands after a copy, in distances from the head. */
  lemma ChunkDistances(nr: nat, head: nat, done: nat, limit: nat, want: nat)
    requires head < nr && done <= limit < nr && want > 0
    requires Fold(head + done, nr) != Fold(head + limit, nr)
    ensures var n := Chunk(nr, Fold(head + done, nr), Fold(head + limit, nr), want);
      && done + n <= limit
      && Fold(Fold(head + done, nr) + n, nr) == Fold(head + (done + n), nr)
  {
    ChunkAdvances(nr, Fold(head + done, nr), Fold(head + limit, nr), want);
  }

  lemma CopyGets(c: Ctx, r: Reader, posted: seq<IoEvent>, taken: seq<IoEvent>, n: nat)
    requires Stored(c, posted, taken) && r.Reading? && |taken| + |r.got| + n <= |posted| && c.nr > 0
    requires r.head == Fold(c.head + |r.got|, c.nr) && r.head + n <= c.nr && r.got == posted[|taken|..|taken| + |r.got|]
    ensures Copy(c, r, n).got == posted[|taken|..|taken| + (|r.got| + n)] && |Copy(c, r, n).got| == |r.got| + n
  {
    ChunkContents(c, posted, |taken|, |r.got|, n);
  }

  lemma CopyKeepsTrack(c: Ctx, r: Reader, shown: int, posted: seq<IoEvent>, taken: seq<IoEvent>, n: nat)
    requires OnTrack(r, c.head, c.nr, shown, |taken|, posted) && r.Reading? && Stored(c, posted, taken)
    requires |taken| + |r.got| + n <= r.upTo && r.head + n <= c.nr
    requires Fold(r.head + n, c.nr) == Fold(c.head + (|r.got| + n), c.nr)
    ensures OnTrack(Copy(c, r, n), c.head, c.nr, shown, |taken|, posted)
  {
    CopyGets(c, r, posted, taken, n);
  }

  /** A step of the reader alone. */
  lemma ReaderKeepsOrder(s: State, r: Reader)
    requires Ordered(s) && OnTrack(r, s.ctx.head, s.ctx.nr, Shown(s), |s.taken|, s.posted)
    ensures Ordered(s.(reader := r))
  {
  }

  lemma ChunkKeepsTrack(c: Ctx, r: Reader, shown: int, posted: seq<IoEvent>, taken: seq<IoEvent>)
    requires OnTrack(r, c.head, c.nr, shown, |taken|, posted) && MoreToRead(r) && Stored(c, posted, taken)
    ensures r.head < c.nr && r.tail < c.nr
    ensures var n := Chunk(c.nr, r.head, r.tail, r.want - |r.got|);
      OnTrack(Copy(c, r, n), c.head, c.nr, shown, |taken|, posted)
  {
    var n := Chunk(c.nr, r.head, r.tail, r.want - |r.got|);
    ChunkAdvances(c.nr, r.head, r.tail, r.want - |r.got|);
    ChunkDistances(c.nr, c.head, |r.got|, r.upTo - |taken|, r.want - |r.got|);
    CopyKeepsTrack(c, r, shown, posted, taken, n);
  }

  lemma ChunkTrack(s: State)
    requires Typed(s) && Enabled(s, ReadChunk) && Stored(s.ctx, s.posted, s.taken)
    requires OnTrack(s.reader, s.ctx.head, s.ctx.nr, Shown(s), |s.taken|, s.posted)
    ensures OnTrack(Copied(s).reader, s.ctx.head, s.ctx.nr, Shown(s), |s.taken|, s.posted)
    ensures Copied(s) == s.(reader := Copied(s).reader)
  {
    ChunkKeepsTrack(s.ctx, s.reader, Shown(s), s.posted, s.taken);
  }

  lemma ChunkKeepsOrder(s: State)
    requires Ordered(s) && Typed(s) && Enabled(s, ReadChunk)
    ensures Ordered(Copied(s))
  {
    ChunkTrack(s);
    ReaderKeepsOrder(s, Copied(s).reader);
  }

  lemma ReadBeginKeepsOrder(s: State, want: nat)
    requires Ordered(s) && Typed(s) && Enabled(s, ReadBegin(want))
    ensures Ordered(Looked(s, want))
  {
    PositionStable(s.ctx.head, s.ctx.nr);
    PositionStable(s.ctx.rtail, s.ctx.nr);
  }

  lemma AdvanceInPlace(c: Ctx, lock: Lock, posted: nat, taken: nat, g: nat)
    requires InPlace(c, lock, posted, taken) && taken + g <= posted - if lock.Posting? then 1 else 0
    ensures InPlace(c.(head := Fold(c.head + g, c.nr)), lock, posted, taken + g)
  {
  }

  lemma AdvanceStored(c: Ctx, posted: seq<IoEvent>, taken: seq<IoEvent>, g: nat)
    requires Stored(c, posted, taken) && |taken| + g <= |posted| && c.nr > 0
    ensures Stored(c.(head := Fold(c.head + g, c.nr)), posted, taken + posted[|taken|..|taken| + g])
  {
    var d := c.(head := Fold(c.head + g, c.nr));
    WindowRest(c, c.head, |posted| - |taken|, g);
    assert Window(d, d.head, |posted| - |taken| - g) == Window(c, d.head, |posted| - |taken| - g);
    assert posted[|taken|..][g..] == posted[|taken| + g..];
    assert taken + posted[|taken|..|taken| + g] == posted[..|taken| + g];
  }

  /** What a reader that finishes leaves, told by the number of records it took. */
  lemma FinishedIs(s: State)
    requires s.reader.Reading? && OnTrack(s.reader, s.ctx.head, s.ctx.nr, Shown(s), |s.taken|, s.posted)
    ensures var g := |s.reader.got|;
      && |s.taken| + g <= |s.posted| && Finished(s).ctx == s.ctx.(head := Fold(s.ctx.head + g, s.ctx.nr))
      && Finished(s).taken == s.taken + s.posted[|s.taken|..|s.taken| + g] && |Finished(s).taken| == |s.taken| + g
  {
  }

  lemma FinishedInPlace(s: State)
    requires s.reader.Reading? && OnTrack(s.reader, s.ctx.head, s.ctx.nr, Shown(s), |s.taken|, s.posted)
    requires InPlace(s.ctx, s.lock, |s.posted|, |s.taken|)
    ensures InPlace(Finished(s).ctx, s.lock, |s.posted|, |Finished(s).taken|)
  {
    FinishedIs(s);
    AdvanceInPlace(s.ctx, s.lock, |s.posted|, |s.taken|, |s.reader.got|);
  }

  lemma FinishedStored(s: State)
    requires s.reader.Reading? && OnTrack(s.reader, s.ctx.head, s.ctx.nr, Shown(s), |s.taken|, s.posted)
    requires Stored(s.ctx, s.posted, s.taken)
    ensures Stored(Finished(s).ctx, s.posted, Finished(s).taken)
  {
    FinishedIs(s);
    AdvanceStored(s.ctx, s.posted, s.taken, |s.reader.got|);
  }

  lemma ReadEndKeepsOrder(s: State)
    requires Ordered(s) && Enabled(s, ReadEnd)
    ensures Ordered(Finished(s))
  {
    FinishedInPlace(s);
    FinishedStored(s);
  }

  /** A reader that finishes has taken what it wanted, or all there was when it looked. */
  lemma ReadEndTakes(s: State)
    requires Ordered(s) && Typed(s) && Enabled(s, ReadEnd)
    ensures Finished(s).taken == s.posted[..|s.taken| + Min(s.reader.want, s.reader.upTo - |s.taken|)]
  {
    var g, r := |s.reader.got|, s.reader;
    assert r.head == r.tail ==> g == r.upTo - |s.taken|;
    assert s.taken + s.posted[|s.taken|..|s.taken| + g] == s.posted[..|s.taken| + g];
  }

  /**
   What one uninterrupted `aio_read_events_ring` takes: the oldest records shown, as many as
   wanted or as there are.
   */
  lemma ReadEventsTakes(s: State, want: nat)
    requires Fifo(s)
    ensures var n := Min(want, Shown(s) - |s.taken|);
      && ReadCount(s.ctx, want) == n && ReadHead(s.ctx, want) == Fold(s.ctx.head + n, s.ctx.nr)
      && s.ctx.head % s.ctx.nr == s.ctx.head
      && Window(s.ctx, s.ctx.head, n) == s.posted[|s.taken|..|s.taken| + n]
  {
    PositionStable(s.ctx.head, s.ctx.nr);
    PositionStable(s.ctx.rtail, s.ctx.nr);
    var n := Min(want, Shown(s) - |s.taken|);
    assert Window(s.ctx, s.ctx.head, n) == Window(s.ctx, s.ctx.head, Unread(s))[..n];
  }

  predicate Polite(a: Action) { !a.Scribble? }

  /** Taking and giving back slots leaves the ring alone. */
  lemma SlotStepKeepsOrder(s: State, t: State)
    requires Ordered(s) && t.ctx == s.ctx.(avail := t.ctx.avail, cpu := t.ctx.cpu)
    requires t.lock == s.lock && t.posted == s.posted && t.taken == s.taken && t.reader == s.reader
    ensures Ordered(t)
  {
  }

  lemma ShowKeepsOrder(s: State)
    requires Ordered(s) && s.lock.Posting?
    ensures Ordered(ShownNow(s))
  {
  }

  lemma RefillBeginKeepsOrder(s: State)
    requires Ordered(s) && s.lock.Free?
    ensures Ordered(s.(lock := Refilling(s.ctx.head, |s.taken|)))
  {
  }

  lemma OtherStepsKeepOrder(s: State, a: Action)
    requires Ordered(s) && Typed(s) && Enabled(s, a)
    requires a.Submit? || a.Release? || a.Show? || a.RefillBegin? || a.ReadFault?
    ensures Ordered(Apply(s, a))
  {
    match a
    case Submit(k) => SlotStepKeepsOrder(s, Submitted(s, k));
    case Release(k, id) => SlotStepKeepsOrder(s, Released(s, k, id));
    case Show => ShowKeepsOrder(s);
    case RefillBegin => RefillBeginKeepsOrder(s);
    case ReadFault => ReaderKeepsOrder(s, Idle);
  }

  lemma FifoStep(s: State, a: Action)
    requires Fifo(s) && Enabled(s, a) && Polite(a)
    ensures Fifo(Apply(s, a))
  {
    ConservedStep(s, a);
    match a
    case Begin(id, e) => BeginKeepsFifo(s, id, e);
    case Count(k) => CountKeepsFifo(s, k);
    case RefillEnd(k) => RefillKeepsFifo(s, k);
    case ReadBegin(w) => ReadBeginKeepsOrder(s, w);
    case ReadChunk => ChunkKeepsOrder(s);
    case ReadEnd => ReadEndKeepsOrder(s);
    case _ => OtherStepsKeepOrder(s, a);
  }

  // ----- a reader left to itself -----

  /** `run` leads from `s` to `t` by steps of the reader alone. */
  ghost predicate Reads(s: State, run: seq<Action>, t: State) {
    && Legal(s, run) && Exec(s, run) == t
    && forall i :: 0 <= i < |run| ==> run[i].ReadBegin? || run[i].ReadChunk? || run[i].ReadEnd?
  }

  lemma ReadsFirst(s: State, a: Action, run: seq<Action>, t: State)
    requires Typed(s) && Enabled(s, a) && (a.ReadBegin? || a.ReadChunk? || a.ReadEnd?) && Reads(Apply(s, a), run, t)
    ensures Reads(s, [a] + run, t)
  {
    assert ([a] + run)[1..] == run;
  }

  /** A chunk is never empty. */
  lemma ChunkGets(s: State)
    requires Typed(s) && Enabled(s, ReadChunk)
    ensures var r, t := s.reader, Copied(s);
      t.reader.Reading? && |t.reader.got| > |r.got| && t.reader == r.(head := t.reader.head, got := t.reader.got)
  {
  }

  /** Chunk by chunk a reader gets what it wants, or all there was when it looked, and leaves. */
  lemma {:induction false} ReaderEnds(s: State) returns (run: seq<Action>, t: State)
    requires Fifo(s) && s.reader.Reading?
    ensures Reads(s, run, t) && t.reader.Idle? && t.posted == s.posted
    ensures t.taken == s.posted[..|s.taken| + Min(s.reader.want, s.reader.upTo - |s.taken|)]
    decreases s.reader.want - |s.reader.got|
  {
    if MoreToRead(s.reader) {
      var u := Copied(s);
      FifoStep(s, ReadChunk);
      ChunkGets(s);
      run, t := ReaderEnds(u);
      ReadsFirst(s, ReadChunk, run, t);
      run := [ReadChunk] + run;
    } else {
      ReadEndTakes(s);
      t := Finished(s);
      ReadsFirst(s, ReadEnd, [], t);
      run := [ReadEnd] + [];
    }
  }

  /**
   A reader left to itself, in any reachable state with something shown and unread, is given the
   oldest unread records: as many as it wants, or all there are.
   */
  lemma ReaderDelivers(s: State, want: nat) returns (run: seq<Action>, t: State)
    requires Fifo(s) && s.reader.Idle? && |s.taken| < Shown(s)
    ensures Reads(s, run, t) && t.reader.Idle? && t.posted == s.posted
    ensures t.taken == s.posted[..|s.taken| + Min(want, Shown(s) - |s.taken|)]
  {
    EmptyExactly(s);
    FifoStep(s, ReadBegin(want));
    run, t := ReaderEnds(Looked(s, want));
    ReadsFirst(s, ReadBegin(want), run, t);
    run := [ReadBegin(want)] + run;
  }

  // ----- runs -----

  lemma StartFifo(z: Sizes, cpus: nat, blank: IoEvent)
    requires z.nrEvents >= 2 && z.reqBatch >= 1
    ensures Fifo(Start(z, cpus, blank))
  {
    StartConserved(z, cpus, blank);
  }

  /**
   Over every polite run: what readers have been given is exactly the first completions, in
   completion order, each once; the rest is still in the ring, unspoilt.
   */
  lemma {:induction false} FifoAlways(s: State, run: seq<Action>)
    requires Fifo(s) && Legal(s, run)
    requires forall i :: 0 <= i < |run| ==> Polite(run[i])
    ensures Fifo(Exec(s, run))
    ensures Exec(s, run).taken <= Exec(s, run).posted
    ensures s.taken <= Exec(s, run).taken && s.posted <= Exec(s, run).posted
    decreases |run|
  {
    if run != [] {
      FifoStep(s, run[0]);
      assert s.taken <= Apply(s, run[0]).taken && s.posted <= Apply(s, run[0]).posted;
      FifoAlways(Apply(s, run[0]), run[1..]);
    }
  }

  /**
   From `ioctx_alloc` on, for every accepted request count and number of CPUs: deliveries are the
   first completions in order, what is unread fits the ring, and an equal head and tail mean
   that nothing shown is unread.
   */
  lemma FifoFromAlloc(n: nat, cpus: nat, aioMaxNr: nat, blank: IoEvent, run: seq<Action>)
    requires n < U32 && cpus >= 1 && cpus * 4 < U32 / 2 && IoctxAlloc(n, cpus, aioMaxNr).Ok?
    requires (AllocShape(n, cpus, aioMaxNr); Legal(Start(IoctxAlloc(n, cpus, aioMaxNr).sizes, cpus, blank), run))
    requires forall i :: 0 <= i < |run| ==> Polite(run[i])
    ensures (AllocShape(n, cpus, aioMaxNr);
      var t := Exec(Start(IoctxAlloc(n, cpus, aioMaxNr).sizes, cpus, blank), run);
      && t.taken <= t.posted && Unread(t) < t.ctx.nr
      && (t.ctx.head == t.ctx.rtail <==> |t.taken| == Shown(t)))
  {
    AllocShape(n, cpus, aioMaxNr);
    var s := Start(IoctxAlloc(n, cpus, aioMaxNr).sizes, cpus, blank);
    StartFifo(IoctxAlloc(n, cpus, aioMaxNr).sizes, cpus, blank);
    FifoAlways(s, run);
    EmptyExactly(Exec(s, run));
  }
}
