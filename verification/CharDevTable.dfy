/** The table of registered ranges, updated in place. */
module CharDevTable {
  import opened Sequences
  import opened CharDev

  datatype Result = Ok(major: nat) | EBUSY | ENOMEM

  lemma {:induction false} PutAllSnoc(tab: Table, a: seq<Region>, r: Region)
    requires |tab| == BUCKETS
    ensures PutAll(tab, a + [r]) == Put(PutAll(tab, a), r)
    ensures AllFree(tab, a + [r]) <==> AllFree(tab, a) && r.count > 0 && Free(PutAll(tab, a), r)
    decreases |a|
  {
    if a == [] {
      assert a + [r] == [r] && [r][1..] == [];
      assert PutAll(tab, [r]) == PutAll(Put(tab, r), []);
    } else {
      assert (a + [r])[0] == a[0] && (a + [r])[1..] == a[1..] + [r];
      PutAllSnoc(Put(tab, a[0]), a[1..], r);
    }
  }

  lemma {:induction false} AllFreePrefix(tab: Table, a: seq<Region>, b: seq<Region>)
    requires |tab| == BUCKETS && AllFree(tab, a + b)
    ensures AllFree(tab, a)
    decreases |a|
  {
    if a != [] {
      assert (a + b)[0] == a[0] && (a + b)[1..] == a[1..] + b;
      AllFreePrefix(Put(tab, a[0]), a[1..], b);
    }
  }

  lemma {:induction false} TakeAllSnoc(tab: Table, a: seq<Region>, r: Region)
    requires |tab| == BUCKETS
    ensures TakeAll(tab, a + [r]) == Take(TakeAll(tab, a), r)
    decreases |a|
  {
    if a == [] {
      assert a + [r] == [r] && [r][1..] == [];
      assert TakeAll(tab, [r]) == TakeAll(Take(tab, r), []);
    } else {
      assert (a + [r])[0] == a[0] && (a + [r])[1..] == a[1..] + [r];
      TakeAllSnoc(Take(tab, a[0]), a[1..], r);
    }
  }

  /** `n` is reached by the chunks from `from` on. */
  predicate Boundary(from: nat, n: nat) { n == from || (n > from && FirstOfMajor(n)) }

  lemma {:induction false} ChunksSplit(from: nat, n: nat, to: nat)
    requires Boundary(from, n) && n <= to
    ensures Chunks(from, to) == Chunks(from, n) + Chunks(n, to)
    decreases n - from
  {
    if from < n {
      var next := NextMajor(from);
      assert next <= n;
      assert ChunkEnd(from, to) == next && ChunkEnd(from, n) == next;
      ChunksSplit(next, n, to);
    }
  }

  /** The chunks up to `n`, and the next one. */
  lemma ChunksNext(from: nat, n: nat, to: nat)
    requires Boundary(from, n) && n < to
    ensures Chunks(from, ChunkEnd(n, to)) == Chunks(from, n) + [RegionOf(n, ChunkEnd(n, to))]
    ensures ChunkEnd(n, to) < to ==> Boundary(from, ChunkEnd(n, to))
  {
    var next := ChunkEnd(n, to);
    ChunksSplit(from, n, next);
    assert ChunkEnd(n, next) == next;
    assert Chunks(n, next) == [RegionOf(n, next)] + Chunks(next, next);
  }

  lemma ChunksInside(from: nat, n: nat, to: nat) returns (rest: seq<Region>)
    requires Boundary(from, n) && n < to
    ensures Chunks(from, to) == (Chunks(from, n) + [RegionOf(n, ChunkEnd(n, to))]) + rest
  {
    var next := ChunkEnd(n, to);
    ChunksNext(from, n, to);
    rest := [];
    if next < to {
      ChunksSplit(from, next, to);
      rest := Chunks(next, to);
    }
  }

  /** One refused region is enough for all of them not to be free. */
  lemma Blocked(tab: Table, done: seq<Region>, r: Region, rest: seq<Region>, full: seq<Region>)
    requires |tab| == BUCKETS && full == (done + [r]) + rest && !Free(PutAll(tab, done), r)
    ensures !AllFree(tab, full)
  {
    if AllFree(tab, full) {
      AllFreePrefix(tab, done + [r], rest);
      PutAllSnoc(tab, done, r);
    }
  }

  /** The chunks of a range before `n` have been taken out of `tab`, which is `now`. */
  predicate Leaving(tab: Table, from: nat, n: nat, to: nat, now: Table) {
    && |tab| == BUCKETS && from <= n <= to && (n < to ==> Boundary(from, n))
    && TableOk(now) && now == TakeAll(tab, Chunks(from, n))
  }

  lemma LeaveNext(tab: Table, from: nat, n: nat, to: nat, now: Table)
    requires Leaving(tab, from, n, to, now) && n < to
    ensures Leaving(tab, from, ChunkEnd(n, to), to, Take(now, RegionOf(n, ChunkEnd(n, to))))
  {
    ChunksNext(from, n, to);
    TakeAllSnoc(tab, Chunks(from, n), RegionOf(n, ChunkEnd(n, to)));
    TakeOk(now, RegionOf(n, ChunkEnd(n, to)));
  }

  /** The chunks before `n` have been put into `tab`, each accepted. */
  predicate Entering(tab: Table, from: nat, n: nat, to: nat, now: Table) {
    && |tab| == BUCKETS && from <= n <= to && (n < to ==> Boundary(from, n))
    && TableOk(now) && AllFree(tab, Chunks(from, n)) && now == PutAll(tab, Chunks(from, n))
  }

  lemma EnterNext(tab: Table, from: nat, n: nat, to: nat, now: Table)
    requires Entering(tab, from, n, to, now) && n < to && Free(now, RegionOf(n, ChunkEnd(n, to)))
    ensures Entering(tab, from, ChunkEnd(n, to), to, Put(now, RegionOf(n, ChunkEnd(n, to))))
  {
    ChunksNext(from, n, to);
    PutAllSnoc(tab, Chunks(from, n), RegionOf(n, ChunkEnd(n, to)));
    PutOk(now, RegionOf(n, ChunkEnd(n, to)));
  }

  lemma EnterBlocked(tab: Table, from: nat, n: nat, to: nat, now: Table)
    requires Entering(tab, from, n, to, now) && n < to && !Free(now, RegionOf(n, ChunkEnd(n, to)))
    ensures !AllFree(tab, Chunks(from, to))
  {
    var rest := ChunksInside(from, n, to);
    Blocked(tab, Chunks(from, n), RegionOf(n, ChunkEnd(n, to)), rest, Chunks(from, to));
  }

  class CharDevs {
    const chrdevs: array<seq<Region>>

    constructor ()
      ensures fresh(chrdevs) && chrdevs.Length == BUCKETS && TableOk(chrdevs[..])
      ensures forall r :: !Has(chrdevs[..], r)
    {
      chrdevs := new seq<Region>[BUCKETS](_ => []);
      new;
      assert forall i :: 0 <= i < BUCKETS ==> ChainOk(chrdevs[..][i], i);
    }

    /** The dynamic choice: the highest bucket above 0 that is empty, or 0. */
    method Highest() returns (i: nat)
      requires chrdevs.Length == BUCKETS
      ensures i < BUCKETS && (i > 0 ==> chrdevs[i] == []) && forall j :: i < j < BUCKETS ==> chrdevs[j] != []
    {
      i := BUCKETS - 1;
      while i > 0
        invariant i < BUCKETS && forall j :: i < j < BUCKETS ==> chrdevs[j] != []
      {
        if chrdevs[i] == [] {
          break;
        }
        i := i - 1;
      }
    }

    /** `__register_chrdev_region`; major 0 asks for a dynamic one. */
    method RegisterOne(major: nat, base: nat, count: nat) returns (r: Result)
      requires chrdevs.Length == BUCKETS && TableOk(chrdevs[..]) && count > 0
      modifies chrdevs
      ensures TableOk(chrdevs[..])
      ensures !r.Ok? ==> chrdevs[..] == old(chrdevs[..])
      ensures r.Ok? ==> Free(old(chrdevs[..]), Region(r.major, base, count))
      ensures r.Ok? ==> chrdevs[..] == Put(old(chrdevs[..]), Region(r.major, base, count))
      ensures major > 0 && r.Ok? ==> r.major == major
      ensures major > 0 && r.EBUSY? ==> !Free(old(chrdevs[..]), Region(major, base, count))
      ensures major == 0 && r.Ok? ==> 0 < r.major < BUCKETS && old(chrdevs[r.major]) == []
      ensures major == 0 && r.Ok? ==> forall j :: r.major < j < BUCKETS ==> old(chrdevs[j]) != []
      ensures major == 0 && r.EBUSY? ==> forall j :: 0 < j < BUCKETS ==> chrdevs[j] != []
    {
      var memory: bool := *;
      if !memory {
        return ENOMEM;
      }
      var m := major;
      if m == 0 {
        m := Highest();
        if m == 0 {
          return EBUSY;
        }
      }
      var cd, i := Region(m, base, count), Index(m);
      var cp := FindSlot(chrdevs[i], cd);
      if cp < |chrdevs[i]| && Refused(chrdevs[i][cp], cd) {
        return EBUSY;
      }
      PutOk(chrdevs[..], cd);
      chrdevs[i] := chrdevs[i][..cp] + [cd] + chrdevs[i][cp..];
      assert chrdevs[..] == Put(old(chrdevs[..]), cd);
      r := Ok(m);
    }

    static method FindSlot(chain: seq<Region>, cd: Region) returns (cp: nat)
      ensures cp == Slot(chain, cd)
    {
      cp := 0;
      while cp < |chain|
        invariant cp <= Slot(chain, cd) <= |chain|
      {
        if Stops(chain[cp], cd) {
          break;
        }
        cp := cp + 1;
      }
    }

    /** `__unregister_chrdev_region`. */
    method UnregisterOne(cd: Region)
      requires chrdevs.Length == BUCKETS && TableOk(chrdevs[..])
      modifies chrdevs
      ensures TableOk(chrdevs[..]) && chrdevs[..] == Take(old(chrdevs[..]), cd)
    {
      var i, cp := Index(cd.major), 0;
      while cp < |chrdevs[i]| && chrdevs[i][cp] != cd
        invariant cp <= Found(chrdevs[i], cd)
      {
        cp := cp + 1;
      }
      TakeOk(chrdevs[..], cd);
      if cp < |chrdevs[i]| {
        chrdevs[i] := chrdevs[i][..cp] + chrdevs[i][cp + 1..];
      }
      assert chrdevs[..] == Take(old(chrdevs[..]), cd);
    }

    /** `register_chrdev_region` above major 0: all of the range or nothing. */
    method Register(from: nat, count: nat) returns (r: Result)
      requires chrdevs.Length == BUCKETS && TableOk(chrdevs[..]) && from >= MINORS
      modifies chrdevs
      ensures TableOk(chrdevs[..])
      ensures r.Ok? ==> AllFree(old(chrdevs[..]), Chunks(from, from + count))
      ensures r.Ok? ==> chrdevs[..] == PutAll(old(chrdevs[..]), Chunks(from, from + count))
      ensures !r.Ok? ==> chrdevs[..] == old(chrdevs[..])
      ensures r.EBUSY? ==> !AllFree(old(chrdevs[..]), Chunks(from, from + count))
    {
      ghost var tab := chrdevs[..];
      var to, n := from + count, from;
      while n < to
        invariant Entering(tab, from, n, to, chrdevs[..])
      {
        var next := ChunkEnd(n, to);
        ghost var now := chrdevs[..];
        r := RegisterOne(Major(n), Minor(n), next - n);
        if !r.Ok? {
          Abandon(from, n, to, r.EBUSY?, tab);
          return;
        }
        EnterNext(tab, from, n, to, now);
        n := next;
      }
      r := Ok(0);
    }

    /** A chunk was refused: nothing is left registered, and if it was taken the range is not free. */
    method Abandon(from: nat, n: nat, to: nat, ghost busy: bool, ghost tab: Table)
      requires chrdevs.Length == BUCKETS && TableOk(tab) && Entering(tab, from, n, to, chrdevs[..]) && n < to
      requires busy ==> !Free(chrdevs[..], RegionOf(n, ChunkEnd(n, to)))
      modifies chrdevs
      ensures chrdevs[..] == tab
      ensures busy ==> !AllFree(tab, Chunks(from, to))
    {
      if busy {
        EnterBlocked(tab, from, n, to, chrdevs[..]);
      }
      Rollback(from, n, tab);
    }

    /** The failure path: the chunks already registered are given back. */
    method Rollback(from: nat, to: nat, ghost tab: Table)
      requires chrdevs.Length == BUCKETS && TableOk(tab) && Boundary(from, to)
      requires Entering(tab, from, to, to, chrdevs[..])
      modifies chrdevs
      ensures chrdevs[..] == tab
    {
      ghost var full := chrdevs[..];
      var n := from;
      while n < to
        invariant Leaving(full, from, n, to, chrdevs[..])
      {
        var next := NextMajor(n);
        assert next <= to && ChunkEnd(n, to) == next;
        LeaveNext(full, from, n, to, chrdevs[..]);
        UnregisterOne(RegionOf(n, next));
        n := next;
      }
      TakeUndoesPut(tab, Chunks(from, to));
    }

    /** `unregister_chrdev_region`. */
    method Unregister(from: nat, count: nat)
      requires chrdevs.Length == BUCKETS && TableOk(chrdevs[..])
      modifies chrdevs
      ensures TableOk(chrdevs[..]) && chrdevs[..] == TakeAll(old(chrdevs[..]), Chunks(from, from + count))
    {
      ghost var tab := chrdevs[..];
      var to, n := from + count, from;
      while n < to
        invariant Leaving(tab, from, n, to, chrdevs[..])
      {
        var next := ChunkEnd(n, to);
        LeaveNext(tab, from, n, to, chrdevs[..]);
        UnregisterOne(RegionOf(n, next));
        n := next;
      }
    }
  }

  // ----- disjointness over runs -----

  /** No two registered ranges overlap. */
  predicate AllDisjoint(tab: Table) { forall i {:trigger Disjoint(tab[i])} :: 0 <= i < |tab| ==> Disjoint(tab[i]) }

  /** One region registered or removed. */
  datatype Op = Add(r: Region) | Remove(r: Region)

  predicate Can(tab: Table, op: Op)
    requires |tab| == BUCKETS
  {
    op.Add? ==> op.r.count > 0 && Free(tab, op.r)
  }

  function Do(tab: Table, op: Op): (t: Table)
    requires |tab| == BUCKETS
    ensures |t| == BUCKETS
  {
    if op.Add? then Put(tab, op.r) else Take(tab, op.r)
  }

  /** A run of accepted registrations and of removals. */
  predicate Runs(tab: Table, run: seq<Op>)
    requires |tab| == BUCKETS
    decreases |run|
  {
    run == [] || (Can(tab, run[0]) && Runs(Do(tab, run[0]), run[1..]))
  }

  /** No accepted range of the run strictly encloses its successor. */
  predicate Fair(tab: Table, run: seq<Op>)
    requires |tab| == BUCKETS
    decreases |run|
  {
    run == [] || (
      && Can(tab, run[0])
      && (run[0].Add? ==> !EnclosesNext(tab[Index(run[0].r.major)], run[0].r))
      && Fair(Do(tab, run[0]), run[1..]))
  }

  function After(tab: Table, run: seq<Op>): (t: Table)
    requires |tab| == BUCKETS
    ensures |t| == BUCKETS
    decreases |run|
  {
    if run == [] then tab else After(Do(tab, run[0]), run[1..])
  }

  /** A run ends with its last step. */
  lemma {:induction false} AfterLast(tab: Table, run: seq<Op>, op: Op)
    requires |tab| == BUCKETS
    ensures After(tab, run + [op]) == Do(After(tab, run), op)
    decreases |run|
  {
    assert (run + [op])[1..] == if run == [] then [] else run[1..] + [op];
    if run != [] {
      AfterLast(Do(tab, run[0]), run[1..], op);
    }
  }

  lemma DisjointStep(tab: Table, op: Op)
    requires TableOk(tab) && AllDisjoint(tab) && Can(tab, op)
    ensures TableOk(Do(tab, op))
    ensures AllDisjoint(Do(tab, op)) <==> op.Remove? || !EnclosesNext(tab[Index(op.r.major)], op.r)
  {
    var i, t := Index(op.r.major), Do(tab, op);
    assert ChainOk(tab[i], i) && Disjoint(tab[i]);
    if op.Add? {
      PutOk(tab, op.r);
      DisjointIff(tab[i], op.r);
      assert AllDisjoint(t) ==> Disjoint(t[i]);
    } else {
      TakeOk(tab, op.r);
      RemoveDisjoint(tab[i], op.r);
    }
    forall j | 0 <= j < BUCKETS && j != i
      ensures Disjoint(t[j])
    {
      assert Disjoint(tab[j]);
    }
  }

  lemma RemoveDisjoint(chain: seq<Region>, r: Region)
    requires Disjoint(chain)
    ensures Disjoint(Removed(chain, r))
  {
    var k := Found(chain, r);
    if k < |chain| {
      RemoveIs(chain, k);
      DisjointWithout(chain, Removed(chain, r), k);
    }
  }

  lemma DisjointWithout(chain: seq<Region>, t: seq<Region>, k: nat)
    requires Disjoint(chain) && Removes(chain, t, k)
    ensures Disjoint(t)
  {
    forall i | 0 <= i < |t|
      ensures t[i] == chain[if i < k then i else i + 1]
    {
    }
  }

  /** Every run whatsoever keeps every bucket strictly sorted by major and first minor. */
  lemma {:induction false} SortedAlways(tab: Table, run: seq<Op>)
    requires TableOk(tab) && Runs(tab, run)
    ensures TableOk(After(tab, run))
    decreases |run|
  {
    if run != [] {
      if run[0].Add? {
        PutOk(tab, run[0].r);
      } else {
        TakeOk(tab, run[0].r);
      }
      SortedAlways(Do(tab, run[0]), run[1..]);
    }
  }

  /** No two ranges overlap in any state of the run. */
  predicate StaysDisjoint(tab: Table, run: seq<Op>)
    requires |tab| == BUCKETS
    decreases |run|
  {
    AllDisjoint(tab) && (run == [] || StaysDisjoint(Do(tab, run[0]), run[1..]))
  }

  /** Ranges stay disjoint all through a run if and only if no accepted range strictly encloses its successor. */
  lemma {:induction false} DisjointAlways(tab: Table, run: seq<Op>)
    requires TableOk(tab) && AllDisjoint(tab) && Runs(tab, run)
    ensures StaysDisjoint(tab, run) <==> Fair(tab, run)
    decreases |run|
  {
    if run != [] {
      DisjointStep(tab, run[0]);
      if AllDisjoint(Do(tab, run[0])) {
        DisjointAlways(Do(tab, run[0]), run[1..]);
      }
    }
  }

  /** The tests miss an enclosing range: minors 0 to 9 are accepted around minors 3 to 4. */
  lemma EnclosingAccepted()
    ensures Accepted([Region(1, 3, 2)], Region(1, 0, 10)) && Overlap(Region(1, 3, 2), Region(1, 0, 10))
  {
    assert Slot([Region(1, 3, 2)], Region(1, 0, 10)) == 0;
  }
}
