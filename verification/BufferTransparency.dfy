/**
 When the LRUs are transparent: a hit is the buffer the slow lookup would return, in every
 state of every run in which its device has not been made shorter.
 */
module BufferTransparency {
  import opened Wrappers
  import opened Arithmetic
  import opened BufferLru
  import opened BufferCache
  import opened BufferSteps

  /** The block at a buffer's place lies inside its device. */
  predicate InDevice(s: State, x: Buf) {
    && x.page in s.pages && s.pages[x.page].dev in s.geo && s.pages[x.page].dev in s.ends
    && Within(s.ends[s.pages[x.page].dev], Number(s, x))
  }

  predicate OfDevice(s: State, x: Buf, dev: nat) { x.page in s.pages && s.pages[x.page].dev == dev }

  /** A buffer that is mapped lies inside the device. */
  predicate MapOk(s: State, dev: nat, b: nat)
    requires b in s.bufs
  {
    OfDevice(s, s.bufs[b], dev) && s.bufs[b].mapped ==> InDevice(s, s.bufs[b])
  }

  /** A buffer in an LRU does too, and is mapped as long as it names a block. */
  predicate LruFit(s: State, dev: nat, b: nat)
    requires b in s.bufs
  {
    OfDevice(s, s.bufs[b], dev) ==> InDevice(s, s.bufs[b]) && (s.bufs[b].dev != 0 ==> s.bufs[b].mapped)
  }

  predicate SlotOk(s: State, dev: nat, c: nat)
    requires c < |s.lrus|
  {
    forall i :: 0 <= i < |s.lrus[c]| && s.lrus[c][i] != 0 ==> s.lrus[c][i] in s.bufs && LruFit(s, dev, s.lrus[c][i])
  }

  /** So does one that waits to be installed. */
  predicate PendOk(s: State, dev: nat, b: nat) { s.pend[b] > 0 ==> b in s.bufs && LruFit(s, dev, b) }

  /** All this for the buffers of one device. */
  ghost predicate Sized(s: State, dev: nat) {
    && (forall b: nat {:trigger PendOk(s, dev, b)} :: PendOk(s, dev, b))
    && (forall b {:trigger MapOk(s, dev, b)} :: b in s.bufs ==> MapOk(s, dev, b))
    && (forall c {:trigger SlotOk(s, dev, c)} :: 0 <= c < |s.lrus| ==> SlotOk(s, dev, c))
  }

  /** Steps that only count references and reorder slots. */
  lemma SizedCounts(s: State, t: State, dev: nat, b: nat)
    requires Sized(s, dev) && t == s.(bufs := t.bufs, lrus := t.lrus, held := t.held, pend := t.pend)
    requires OnlyCounts(s.bufs, t.bufs)
    requires forall x: nat {:trigger t.pend[x]} :: t.pend[x] > 0 ==> s.pend[x] > 0 || x == b
    requires |t.lrus| == |s.lrus|
    requires forall c :: 0 <= c < |t.lrus| ==> forall x :: x in t.lrus[c] ==> x in s.lrus[c] || x == 0 || x == b
    requires b != 0 ==> b in s.bufs && LruFit(s, dev, b)
    requires t.pend[0] == 0
    ensures Sized(t, dev)
  {
    forall x: nat
      ensures PendOk(t, dev, x)
    {
      assert PendOk(s, dev, x);
    }
    forall x | x in t.bufs
      ensures MapOk(t, dev, x)
    {
      assert MapOk(s, dev, x);
    }
    forall c | 0 <= c < |t.lrus|
      ensures SlotOk(t, dev, c)
    {
      assert SlotOk(s, dev, c);
      forall i | 0 <= i < |t.lrus[c]| && t.lrus[c][i] != 0
        ensures t.lrus[c][i] in t.bufs && LruFit(t, dev, t.lrus[c][i])
      {
        assert t.lrus[c][i] in t.lrus[c];
      }
    }
  }

  predicate SamePlace(s: State, t: State, p: nat)
    requires p in s.pages
  {
    p in t.pages && t.pages[p].dev == s.pages[p].dev && t.pages[p].index == s.pages[p].index
  }

  /** A buffer that stays, stays in its place; inside its device it is mapped again when it names a block again. */
  predicate Stays(s: State, t: State, b: nat)
    requires b in s.bufs
  {
    && b in t.bufs && t.bufs[b].page == s.bufs[b].page && t.bufs[b].pos == s.bufs[b].pos
    && (t.bufs[b].dev != 0 && InDevice(t, t.bufs[b]) && (s.bufs[b].dev != 0 ==> s.bufs[b].mapped) ==> t.bufs[b].mapped)
  }

  /** A buffer somebody or an LRU holds stays, and stays fit for an LRU. */
  lemma StaysFit(s: State, t: State, dev: nat, b: nat)
    requires Inv(s) && b in s.bufs && LruFit(s, dev, b) && s.held[b] + Slots(s.lrus, b) > 0
    requires t == s.(bufs := t.bufs, pages := t.pages)
    requires forall p {:trigger SamePlace(s, t, p)} :: p in s.pages ==> SamePlace(s, t, p)
    requires forall b {:trigger Stays(s, t, b)} :: b in s.bufs && s.bufs[b].count > 0 ==> Stays(s, t, b)
    ensures b in t.bufs && LruFit(t, dev, b)
  {
    assert BufOk(s, b);
    assert Stays(s, t, b);
    assert SamePlace(s, t, s.bufs[b].page);
  }

  /** Steps on pages: buffers in LRUs stay. */
  lemma SizedPages(s: State, t: State, dev: nat)
    requires Inv(s) && Sized(s, dev) && t == s.(bufs := t.bufs, pages := t.pages)
    requires forall b {:trigger MapOk(t, dev, b)} :: b in t.bufs ==> MapOk(t, dev, b)
    requires forall p {:trigger SamePlace(s, t, p)} :: p in s.pages ==> SamePlace(s, t, p)
    requires forall b {:trigger Stays(s, t, b)} :: b in s.bufs && s.bufs[b].count > 0 ==> Stays(s, t, b)
    ensures Sized(t, dev)
  {
    forall b: nat
      ensures PendOk(t, dev, b)
    {
      assert PendOk(s, dev, b) && s.pend[b] <= s.held[b];
      if s.pend[b] > 0 {
        StaysFit(s, t, dev, b);
      }
    }
    forall c | 0 <= c < |t.lrus|
      ensures SlotOk(t, dev, c)
    {
      assert SlotOk(s, dev, c);
      assert LruOk(s, c);
      forall i | 0 <= i < |t.lrus[c]| && t.lrus[c][i] != 0
        ensures t.lrus[c][i] in t.bufs && LruFit(t, dev, t.lrus[c][i])
      {
        var b := t.lrus[c][i];
        InSlots(s.lrus, c, b);
        assert b in s.bufs && LruFit(s, dev, b);
        StaysFit(s, t, dev, b);
      }
    }
  }

  lemma NullNotPending(s: State)
    requires Inv(s)
    ensures s.pend[0] == 0
  {
    assert s.pend[0] <= s.held[0];
  }

  lemma HitSized(s: State, dev: nat, a: Action)
    requires Inv(s) && Sized(s, dev) && a.Lookup? && a.cpu < |s.lrus|
    requires LruSlot(s, s.lrus[a.cpu], a.dev, a.block, a.size) < |s.lrus[a.cpu]|
    ensures Sized(BufferSteps.Hit(s, a.cpu, a.dev, a.block, a.size), dev)
  {
    NullNotPending(s);
    SizedCounts(s, BufferSteps.Hit(s, a.cpu, a.dev, a.block, a.size), dev, 0);
  }

  lemma FoundSized(s: State, dev: nat, b: nat)
    requires Inv(s) && Sized(s, dev) && b in s.bufs && s.bufs[b].mapped
    ensures Sized(Found(s, b), dev)
  {
    assert MapOk(s, dev, b);
    NullNotPending(s);
    SizedCounts(s, Found(s, b), dev, b);
  }

  lemma FoundSlowlySized(s: State, dev: nat, a: Action)
    requires Inv(s) && Sized(s, dev) && a.Find? && a.dev in s.geo && s.geo[a.dev].perPage >= 1
    ensures Sized(FoundSlowly(s, a.dev, a.block), dev)
  {
    if Slow(s, a.dev, a.block).Some? {
      SlowFinds(s, a.dev, a.block);
      FoundSized(s, dev, Slow(s, a.dev, a.block).value);
    }
  }

  /** Whatever happened since it was found, a buffer that is installed belongs there. */
  lemma InstalledSized(s: State, dev: nat, cpu: nat, b: nat)
    requires Inv(s) && Sized(s, dev) && cpu < |s.lrus| && |s.lrus[cpu]| == BH_LRU_SIZE && s.pend[b] > 0
    ensures Sized(InstalledAt(s, cpu, b), dev)
  {
    assert PendOk(s, dev, b);
    NullNotPending(s);
    assert LruOk(s, cpu);
    InstalledMembers(s.lrus[cpu], b);
    SizedCounts(s, InstalledAt(s, cpu, b), dev, b);
  }

  lemma NewBufMapped(s: State, dev: nat, p: nat, ids: seq<nat>, b: nat)
    requires p in s.pages && PageOk(s, p) && Enabled(s, Attach(p, ids)) && s.pages[p].dev in s.ends && b in ids
    ensures b in Attached(s, p, ids).bufs && MapOk(Attached(s, p, ids), dev, b)
  {
  }

  lemma AttachedSized(s: State, dev: nat, p: nat, ids: seq<nat>)
    requires Inv(s) && Sized(s, dev) && Enabled(s, Attach(p, ids)) && s.pages[p].dev in s.ends
    ensures Sized(Attached(s, p, ids), dev)
  {
    var t := Attached(s, p, ids);
    forall b | b in t.bufs
      ensures MapOk(t, dev, b)
    {
      if b in ids {
        assert PageOk(s, p);
        NewBufMapped(s, dev, p, ids, b);
      } else {
        assert MapOk(s, dev, b);
        assert BufOk(s, b);
      }
    }
    forall b | b in s.bufs
      ensures Stays(s, t, b)
    {
      assert b !in ids;
    }
    SizedPages(s, t, dev);
  }

  lemma RegrownStays(s: State, p: nat, b: nat)
    requires Inv(s) && Enabled(s, Regrow(p)) && s.pages[p].dev in s.geo && s.pages[p].dev in s.ends && b in s.bufs
    ensures Stays(s, Regrown(s, p), b)
  {
    assert BufOk(s, b);
  }

  lemma RegrownSized(s: State, dev: nat, p: nat)
    requires Inv(s) && Sized(s, dev) && Enabled(s, Regrow(p)) && s.pages[p].dev in s.geo && s.pages[p].dev in s.ends
    ensures Sized(Regrown(s, p), dev)
  {
    var t := Regrown(s, p);
    forall b | b in t.bufs
      ensures MapOk(t, dev, b)
    {
      assert MapOk(s, dev, b);
      assert BufOk(s, b);
    }
    forall b | b in s.bufs
      ensures Stays(s, t, b)
    {
      RegrownStays(s, p, b);
    }
    SizedPages(s, t, dev);
  }

  /** Buffers are left alone, forgotten or freed. */
  lemma ClearedSized(s: State, t: State, dev: nat)
    requires Inv(s) && Sized(s, dev) && t == s.(bufs := t.bufs, pages := t.pages)
    requires forall p {:trigger SamePlace(s, t, p)} :: p in s.pages ==> SamePlace(s, t, p)
    requires forall b :: b in t.bufs ==>
      b in s.bufs && (t.bufs[b] == s.bufs[b] || t.bufs[b] == s.bufs[b].(dev := 0, mapped := false))
    requires forall b :: b in s.bufs && s.bufs[b].count > 0 ==> b in t.bufs
    ensures Sized(t, dev)
  {
    forall b | b in t.bufs
      ensures MapOk(t, dev, b) && Stays(s, t, b)
    {
      assert MapOk(s, dev, b);
      assert BufOk(s, b);
      assert SamePlace(s, t, s.bufs[b].page);
    }
    SizedPages(s, t, dev);
  }

  lemma DroppedSized(s: State, dev: nat, p: nat, busy: bool)
    requires Inv(s) && Sized(s, dev) && p in s.pages
    ensures Sized(Dropped(s, p, busy), dev)
  {
    var t := Dropped(s, p, busy);
    if t != s {
      assert PageOk(s, p);
      forall b | b in s.bufs && s.bufs[b].count > 0
        ensures b in t.bufs
      {
        assert BufOk(s, b);
      }
      ClearedSized(s, t, dev);
    }
  }

  lemma InvalidatedSized(s: State, dev: nat, cpu: nat)
    requires Inv(s) && Sized(s, dev) && cpu < |s.lrus|
    ensures Sized(Invalidated(s, cpu), dev)
  {
    assert LruOk(s, cpu);
    NullNotPending(s);
    ReleaseAllCounts(s.bufs, s.lrus[cpu]);
    SizedCounts(s, Invalidated(s, cpu), dev, 0);
  }

  /** A length of a device, none for unlimited, is at least another. */
  predicate AtLeast(now: Option<nat>, before: Option<nat>) { now.None? || (before.Some? && before.value <= now.value) }

  /** The step makes the device shorter. */
  predicate Shortens(s: State, a: Action, dev: nat) {
    a.Resize? && a.dev == dev && dev in s.ends && !AtLeast(a.end, s.ends[dev])
  }

  lemma ResizedSized(s: State, dev: nat, a: Action)
    requires Inv(s) && Sized(s, dev) && a.Resize? && a.dev in s.ends && !Shortens(s, a, dev)
    ensures Sized(Resized(s, a.dev, a.end), dev)
  {
    var t := Resized(s, a.dev, a.end);
    forall b | b in t.bufs
      ensures MapOk(t, dev, b) && (LruFit(s, dev, b) ==> LruFit(t, dev, b))
    {
      assert MapOk(s, dev, b);
    }
    forall b: nat
      ensures PendOk(t, dev, b)
    {
      assert PendOk(s, dev, b);
    }
    forall c | 0 <= c < |t.lrus|
      ensures SlotOk(t, dev, c)
    {
      assert SlotOk(s, dev, c);
    }
  }

  lemma PageStepSized(s: State, dev: nat, a: Action)
    requires Inv(s) && Geometries(s) && Sized(s, dev) && Enabled(s, a) && OnPage(a)
    ensures Sized(PageStep(s, a), dev)
  {
    match a
    case NewPage(p, d, index) => ClearedSized(s, Added(s, p, d, index), dev);
    case Attach(p, ids) => AttachedSized(s, dev, p, ids);
    case Regrow(p) => assert PageOk(s, p); RegrownSized(s, dev, p);
    case Discard(p, from, upto) => ClearedSized(s, Discarded(s, p, from, upto), dev);
    case Truncate(p) => ClearedSized(s, Truncated(s, p), dev);
    case Drop(p, busy) => DroppedSized(s, dev, p, busy);
  }

  /** Every step that does not make the device shorter. */
  lemma StepSized(s: State, dev: nat, a: Action)
    requires Inv(s) && Geometries(s) && Sized(s, dev) && Enabled(s, a) && !Shortens(s, a, dev)
    ensures Sized(Apply(s, a), dev)
  {
    if OnPage(a) {
      PageStepSized(s, dev, a);
    } else {
      match a
      case Lookup(cpu, d, block, size) =>
        if LruSlot(s, s.lrus[cpu], d, block, size) < |s.lrus[cpu]| {
          HitSized(s, dev, a);
        }
      case Find(_, _) => FoundSlowlySized(s, dev, a);
      case Install(cpu, b) =>
        InstalledKeeps(s, cpu, b);
        InstalledSized(s, dev, cpu, b);
      case Release(b) =>
        NullNotPending(s);
        SizedCounts(s, Released(s, b), dev, 0);
      case InvalidateLru(cpu) => InvalidatedSized(s, dev, cpu);
      case Resize(_, _) => ResizedSized(s, dev, a);
    }
  }

  // ----- runs -----

  predicate Start(s: State) {
    && s.pages == map[] && s.bufs == map[] && s.held == s.pend == multiset{} && s.ends.Keys == s.geo.Keys
      && Geometries(s)
    && forall c :: 0 <= c < |s.lrus| ==> s.lrus[c] == seq(BH_LRU_SIZE, _ => 0)
  }

  ghost predicate Runs(s: State, run: seq<Action>, t: State)
    requires Inv(s) && Geometries(s)
    decreases |run|
  {
    if run == [] then s == t
    else Enabled(s, run[0]) && (StepKeeps(s, run[0]); Runs(Apply(s, run[0]), run[1..], t))
  }

  /** The device is never made shorter during the run; others may be. */
  ghost predicate NeverShorter(s: State, run: seq<Action>, dev: nat)
    requires Inv(s) && Geometries(s)
    decreases |run|
  {
    run == [] || (
      && Enabled(s, run[0]) && !Shortens(s, run[0], dev)
      && (StepKeeps(s, run[0]); NeverShorter(Apply(s, run[0]), run[1..], dev)))
  }

  lemma StartOk(s: State)
    requires Start(s)
    ensures Inv(s) && Geometries(s) && forall dev :: Sized(s, dev)
  {
    forall dev, c | 0 <= c < |s.lrus|
      ensures LruOk(s, c) && SlotOk(s, dev, c)
    {
    }
  }

  lemma {:induction false} RunKeeps(s: State, run: seq<Action>, t: State)
    requires Inv(s) && Geometries(s) && Runs(s, run, t)
    ensures Inv(t) && Geometries(t)
    decreases |run|
  {
    if run != [] {
      StepKeeps(s, run[0]);
      RunKeeps(Apply(s, run[0]), run[1..], t);
    }
  }

  lemma {:induction false} RunSized(s: State, run: seq<Action>, t: State, dev: nat)
    requires Inv(s) && Geometries(s) && Runs(s, run, t) && NeverShorter(s, run, dev) && Sized(s, dev)
    ensures Sized(t, dev)
    decreases |run|
  {
    if run != [] {
      StepKeeps(s, run[0]);
      StepSized(s, dev, run[0]);
      RunSized(Apply(s, run[0]), run[1..], t, dev);
    }
  }

  /**
   The LRU in front of the slow lookup: in every reachable state a hit names a buffer that is
   still attached and counted, and it is the buffer the slow lookup returns exactly if it is
   mapped.  As long as its device has never been made shorter, it always is.
   */
  lemma Transparent(s: State, run: seq<Action>, t: State, cpu: nat, dev: nat, block: nat, size: nat)
    requires Start(s) && (StartOk(s); Runs(s, run, t)) && cpu < |t.lrus| && dev in t.geo
    requires LruSlot(t, t.lrus[cpu], dev, block, size) < |t.lrus[cpu]|
    ensures Inv(s) && Geometries(s) && Inv(t) && Geometries(t)
    ensures var b := t.lrus[cpu][LruSlot(t, t.lrus[cpu], dev, block, size)];
      && b in t.bufs && t.bufs[b].count > t.held[b]
      && (Slow(t, dev, block) == Some(b) <==> t.bufs[b].mapped)
      && (NeverShorter(s, run, dev) ==> Slow(t, dev, block) == Some(b))
  {
    StartOk(s);
    RunKeeps(s, run, t);
    var l := t.lrus[cpu];
    var i := LruSlot(t, l, dev, block, size);
    var b := l[i];
    HitIsSlow(t, b, dev, block, size);
    assert BufOk(t, b);
    InSlots(t.lrus, cpu, b);
    if NeverShorter(s, run, dev) {
      RunSized(s, run, t, dev);
      assert SlotOk(t, dev, cpu);
      assert LruOk(t, cpu);
    }
  }

  // ----- what lies inside a device is found -----

  lemma AttachedAt(s: State, t: State, p: nat, ids: seq<nat>, i: nat, dev: nat, first: nat)
    requires p in s.pages && Enabled(s, Attach(p, ids)) && s.pages[p].dev == dev && dev in s.ends && i < |ids|
    requires t == Attached(s, p, ids) && first == s.pages[p].index * s.geo[dev].perPage
    ensures Matches(t, ids[i], dev, first + i, s.geo[dev].size)
    ensures t.bufs[ids[i]].mapped <==> s.ends[dev].None? || first + i < s.ends[dev].value
  {
    NewBufsAt(p, ids, dev, first, s.geo[dev].size, s.ends[dev], i);
  }

  /** The slow lookup of a block gives `b` if that lies inside the device, and nothing if not. */
  ghost predicate FoundIf(t: State, dev: nat, block: nat, b: nat, inside: bool)
    requires Inv(t) && dev in t.geo && t.geo[dev].perPage >= 1
  {
    Slow(t, dev, block) == if inside then Some(b) else None
  }

  lemma SlowIs(t: State, b: nat, dev: nat, block: nat, size: nat, inside: bool)
    requires Inv(t) && dev != 0 && dev in t.geo && Matches(t, b, dev, block, size) && (t.bufs[b].mapped <==> inside)
    ensures t.geo[dev].perPage >= 1 && FoundIf(t, dev, block, b, inside)
  {
    HitIsSlow(t, b, dev, block, size);
  }

  /**
   Every block of a page given new buffers is found by the slow lookup, in its own buffer, exactly
   if it lies below the device's end.
   */
  lemma AttachedFound(s: State, t: State, p: nat, ids: seq<nat>, i: nat, dev: nat, block: nat, inside: bool)
    requires Inv(s) && Geometries(s) && Enabled(s, Attach(p, ids)) && t == Apply(s, Attach(p, ids)) && i < |ids|
    requires dev == s.pages[p].dev && block == s.pages[p].index * s.geo[dev].perPage + i && dev in s.ends
    requires inside <==> s.ends[dev].None? || block < s.ends[dev].value
    ensures Inv(t) && dev in t.geo && t.geo[dev].perPage >= 1 && FoundIf(t, dev, block, ids[i], inside)
  {
    AttachedReady(s, t, p, ids, i, dev, block);
    SlowIs(t, ids[i], dev, block, t.geo[dev].size, inside);
  }

  lemma AttachedReady(s: State, t: State, p: nat, ids: seq<nat>, i: nat, dev: nat, block: nat)
    requires Inv(s) && Geometries(s) && Enabled(s, Attach(p, ids)) && t == Apply(s, Attach(p, ids)) && i < |ids|
    requires dev == s.pages[p].dev && block == s.pages[p].index * s.geo[dev].perPage + i && dev in s.ends
    ensures Inv(t) && dev != 0 && dev in t.geo && Matches(t, ids[i], dev, block, t.geo[dev].size)
    ensures t.bufs[ids[i]].mapped <==> s.ends[dev].None? || block < s.ends[dev].value
  {
    assert PageOk(s, p);
    AttachedKeeps(s, p, ids);
    AttachedAt(s, t, p, ids, i, dev, block - i);
  }

  /** So is every block of a page whose buffers are initialised again, if it was mapped or lies below the end. */
  lemma RegrownFound(s: State, p: nat, i: nat)
    requires Inv(s) && Geometries(s) && Enabled(s, Regrow(p)) && i < |s.pages[p].bufs|
    ensures s.pages[p].dev in s.ends && s.pages[p].dev in s.geo && Inv(Regrown(s, p)) && s.pages[p].bufs[i] in s.bufs
    ensures var dev, b := s.pages[p].dev, s.pages[p].bufs[i];
      var block := s.pages[p].index * s.geo[dev].perPage + i;
      FoundIf(Regrown(s, p), dev, block, b, s.bufs[b].mapped || s.ends[dev].None? || block < s.ends[dev].value)
  {
    assert PageOk(s, p);
    RegrownKeeps(s, p);
    var t, g, b := Regrown(s, p), s.pages[p], s.pages[p].bufs[i];
    assert BufOk(s, b) && BufOk(t, b);
    HitIsSlow(t, b, g.dev, g.index * s.geo[g.dev].perPage + i, s.geo[g.dev].size);
  }

  /** The block of the buffer at place `i` of a cached page is found in it if it is mapped, and otherwise not at all. */
  lemma SlowAt(s: State, p: nat, i: nat)
    requires Inv(s) && Geometries(s) && p in s.pages && s.pages[p].cached && i < |s.pages[p].bufs|
    ensures s.pages[p].dev in s.geo && s.pages[p].bufs[i] in s.bufs
    ensures var dev, b := s.pages[p].dev, s.pages[p].bufs[i];
      FoundIf(s, dev, s.pages[p].index * s.geo[dev].perPage + i, b, s.bufs[b].mapped)
  {
    assert PageOk(s, p);
    var g, b, per := s.pages[p], s.pages[p].bufs[i], s.geo[s.pages[p].dev].perPage;
    QuotientOf(g.index * per + i, per, g.index, i);
    SlowIsScan(s, p, g.dev, g.index * per + i);
    assert BufOk(s, b);
    forall k | 0 <= k < |g.bufs| && s.bufs[g.bufs[k]].mapped && s.bufs[g.bufs[k]].blocknr == g.index * per + i
      ensures k == i
    {
      assert BufOk(s, g.bufs[k]);
    }
  }

  /** Discarding part of a page loses the blocks of that part and no others. */
  lemma DiscardedLost(s: State, p: nat, from: nat, upto: nat, i: nat)
    requires Inv(s) && Geometries(s) && Enabled(s, Discard(p, from, upto)) && i < |s.pages[p].bufs|
    ensures Inv(Discarded(s, p, from, upto)) && s.pages[p].dev in s.geo && s.pages[p].bufs[i] in s.bufs
    ensures var dev, b := s.pages[p].dev, s.pages[p].bufs[i];
      FoundIf(Discarded(s, p, from, upto), dev, s.pages[p].index * s.geo[dev].perPage + i, b,
              s.bufs[b].mapped && !(from <= i < upto))
  {
    DiscardedKeeps(s, p, from, upto);
    SlowAt(s, p, i);
    SlowAt(Discarded(s, p, from, upto), p, i);
    assert PageOk(s, p);
  }

  /** A page truncated is gone: its blocks are not found, and its place is free for a new page. */
  lemma TruncatedGone(s: State, p: nat, q: nat, block: nat)
    requires Inv(s) && Geometries(s) && Enabled(s, Truncate(p)) && q !in s.pages && s.pages[p].dev in s.geo
    requires block / s.geo[s.pages[p].dev].perPage == s.pages[p].index
    ensures Inv(Truncated(s, p)) && Slow(Truncated(s, p), s.pages[p].dev, block) == None
    ensures Enabled(Truncated(s, p), NewPage(q, s.pages[p].dev, s.pages[p].index))
  {
    TruncatedKeeps(s, p);
    var t, g := Truncated(s, p), s.pages[p];
    forall r | r in t.pages
      ensures !(t.pages[r].cached && t.pages[r].dev == g.dev && t.pages[r].index == g.index)
    {
      assert Same(s, p, r) ==> r == p;
    }
    assert !Cached(t, g.dev, g.index);
  }

  /** A lookup that matches takes a reference and puts the buffer in front, the others keeping their order. */
  lemma HitTakes(s: State, cpu: nat, i: nat, dev: nat, block: nat, size: nat)
    requires Inv(s) && Geometries(s) && cpu < |s.lrus| && i < |s.lrus[cpu]| && dev in s.geo
    requires Matches(s, s.lrus[cpu][i], dev, block, size)
    requires forall j :: 0 <= j < i ==> !Matches(s, s.lrus[cpu][j], dev, block, size)
    ensures var t, b, l := Apply(s, Lookup(cpu, dev, block, size)), s.lrus[cpu][i], s.lrus[cpu];
      && t.lrus == s.lrus[cpu := t.lrus[cpu]] && Shifted(l, t.lrus[cpu], i, b)
      && t.held[b] == s.held[b] + 1 && t.pend == s.pend && t.pages == s.pages
      && t.bufs == s.bufs[b := s.bufs[b].(count := s.bufs[b].count + 1)]
  {
    var l := s.lrus[cpu];
    SlotFinds(s, l, i, dev, block, size);
    FrontShifts(l, ToFront(l, i), i, l[i]);
  }

  // ----- a device that shrinks -----

  lemma {:induction false} SlotFinds(s: State, l: seq<nat>, i: nat, dev: nat, block: nat, size: nat)
    requires i < |l| && Matches(s, l[i], dev, block, size)
    ensures LruSlot(s, l, dev, block, size) <= i
  {
    if i > 0 && !Matches(s, l[0], dev, block, size) {
      SlotFinds(s, l[1..], i - 1, dev, block, size);
    }
  }

  ghost predicate Leads(s: State, a: Action, t: State) {
    Inv(s) && Geometries(s) && Enabled(s, a) && Apply(s, a) == t
  }

  lemma DiscardLeads(s: State, p: nat)
    requires Inv(s) && Geometries(s) && p in s.pages && s.pages[p].cached
    ensures Leads(s, Discard(p, 0, |s.pages[p].bufs|), Discarded(s, p, 0, |s.pages[p].bufs|))
    ensures Inv(Discarded(s, p, 0, |s.pages[p].bufs|))
  {
    DiscardedKeeps(s, p, 0, |s.pages[p].bufs|);
  }

  lemma ResizeLeads(s: State, dev: nat, end: Option<nat>)
    requires Inv(s) && Geometries(s) && dev in s.ends
    ensures Leads(s, Resize(dev, end), Resized(s, dev, end)) && Inv(Resized(s, dev, end))
  {
    ResizedKeeps(s, dev, end);
  }

  lemma RegrowLeads(s: State, p: nat)
    requires Inv(s) && Geometries(s) && p in s.pages && s.pages[p].cached && s.pages[p].bufs != []
    ensures s.pages[p].dev in s.geo && s.pages[p].dev in s.ends
    ensures Leads(s, Regrow(p), Regrown(s, p)) && Inv(Regrown(s, p))
  {
    assert PageOk(s, p);
    RegrownKeeps(s, p);
  }

  lemma ShrinkSteps(s: State, p: nat, dev: nat, block: nat, t: State, u: State)
    requires Inv(s) && Geometries(s) && p in s.pages && s.pages[p].cached && s.pages[p].dev == dev
    requires s.pages[p].bufs != []
    requires t == Discarded(s, p, 0, |s.pages[p].bufs|) && u == Resized(t, dev, Some(block)) && dev in s.geo
    requires dev in s.ends
    ensures Leads(s, Discard(p, 0, |s.pages[p].bufs|), t)
    ensures Leads(t, Resize(dev, Some(block)), u)
    ensures Leads(u, Regrow(p), Regrown(u, p)) && Inv(Regrown(u, p))
  {
    DiscardLeads(s, p);
    ResizeLeads(t, dev, Some(block));
    RegrowLeads(u, p);
  }

  /**
   Transparency fails for every hit once its device has shrunk: discard the page, shorten the
   device to below the block, reinitialise the page, and the LRU still finds the buffer while
   the slow lookup finds nothing.
   */
  lemma ShrinkBreaks(s: State, cpu: nat, i: nat, dev: nat, block: nat, size: nat) returns (p: nat, t: State, u: State,
                     v: State)
    requires Inv(s) && Geometries(s) && cpu < |s.lrus| && i < |s.lrus[cpu]| && dev in s.geo
    requires Matches(s, s.lrus[cpu][i], dev, block, size)
    ensures p in s.pages && Leads(s, Discard(p, 0, |s.pages[p].bufs|), t)
    ensures Leads(t, Resize(dev, Some(block)), u) && Leads(u, Regrow(p), v)
    ensures Sized(s, dev) ==> Shortens(t, Resize(dev, Some(block)), dev)
    ensures v.lrus == s.lrus && v.geo == s.geo && LruSlot(v, v.lrus[cpu], dev, block, size) <= i
    ensures Inv(v) && Slow(v, dev, block) == None
  {
    var b := s.lrus[cpu][i];
    assert BufOk(s, b);
    p := s.bufs[b].page;
    t := Discarded(s, p, 0, |s.pages[p].bufs|);
    u := Resized(t, dev, Some(block));
    v := Regrown(u, p);
    ShrinkSteps(s, p, dev, block, t, u);
    if Sized(s, dev) {
      assert SlotOk(s, dev, cpu);
    }
    assert Matches(v, b, dev, block, size) && !v.bufs[b].mapped;
    SlotFinds(v, s.lrus[cpu], i, dev, block, size);
    HitIsSlow(v, b, dev, block, size);
  }

  /** A slow lookup that found its block, installed at once, leaves it in front of the LRU. */
  lemma FoundStays(s: State, cpu: nat, dev: nat, block: nat)
    requires Inv(s) && Geometries(s) && cpu < |s.lrus| && dev in s.geo && Slow(s, dev, block).Some?
    ensures var b := Slow(s, dev, block).value;
      && |s.lrus[cpu]| == BH_LRU_SIZE && Found(s, b).pend[b] > 0
      && (var t := InstalledAt(Found(s, b), cpu, b);
          && |t.lrus[cpu]| > 0 && t.lrus[cpu][0] == b && Matches(t, b, dev, block, s.geo[dev].size)
          && t.held[b] == s.held[b] + 1 && t.pend == s.pend)
  {
    assert LruOk(s, cpu);
    SlowMatches(s, dev, block);
    var n := InstalledShifts(s.lrus[cpu], Slow(s, dev, block).value);
  }

  lemma SlowMatches(s: State, dev: nat, block: nat)
    requires Inv(s) && dev in s.geo && s.geo[dev].perPage >= 1 && Slow(s, dev, block).Some?
    ensures Matches(s, Slow(s, dev, block).value, dev, block, s.geo[dev].size)
  {
    var index := block / s.geo[dev].perPage;
    assert Cached(s, dev, index);
    var p :| p in s.pages && s.pages[p].cached && s.pages[p].dev == dev && s.pages[p].index == index;
    SlowIsScan(s, p, dev, block);
    assert PageOk(s, p);
    assert BufOk(s, Slow(s, dev, block).value);
  }
}
