/**
 Registered ranges of character device numbers (`fs/char_dev.c`): 255 hash chains, each in
 the order of major number and first minor.
 */
module CharDev {
  import opened Sequences

  const BUCKETS: nat := 255

  datatype Region = Region(major: nat, base: nat, count: nat)

  function Index(major: nat): (i: nat)
    ensures i < BUCKETS
  {
    major % 255
  }

  // ----- one chain -----

  predicate Before(a: Region, b: Region) { a.major < b.major || (a.major == b.major && a.base < b.base) }

  predicate Sorted(chain: seq<Region>) { forall i, j :: 0 <= i < j < |chain| ==> Before(chain[i], chain[j]) }

  predicate Positive(chain: seq<Region>) { forall i :: 0 <= i < |chain| ==> chain[i].count > 0 }

  /** Where the insertion loop stops. */
  predicate Stops(c: Region, r: Region) {
    c.major > r.major || (c.major == r.major && (c.base >= r.base || c.base + c.count > r.base))
  }

  function Slot(chain: seq<Region>, r: Region): (k: nat)
    ensures k <= |chain| && (k < |chain| ==> Stops(chain[k], r)) && forall j :: 0 <= j < k ==> !Stops(chain[j], r)
  {
    if chain == [] || Stops(chain[0], r) then 0 else 1 + Slot(chain[1..], r)
  }

  predicate Overlap(a: Region,
                    b: Region) { a.major == b.major && a.base < b.base + b.count && b.base < a.base + a.count }

  /** The two tests for overlapping minor ranges. */
  predicate Refused(c: Region, r: Region) {
    var oldMax, newMax := c.base + c.count - 1, r.base + r.count - 1;
    c.major == r.major && ((c.base <= newMax <= oldMax) || (c.base <= r.base <= oldMax))
  }

  predicate Accepted(chain: seq<Region>, r: Region) { var k := Slot(chain, r); k < |chain| ==> !Refused(chain[k], r) }

  function Inserted(chain: seq<Region>, r: Region): seq<Region> {
    var k := Slot(chain, r);
    chain[..k] + [r] + chain[k..]
  }

  /** The new range reaches beyond its successor on both sides, the one overlap the tests miss. */
  predicate EnclosesNext(chain: seq<Region>, r: Region) {
    var k := Slot(chain, r);
    k < |chain| && chain[k].major == r.major && r.base < chain[k].base && chain[k].base + chain[k].count < r.base
      + r.count
  }

  predicate Disjoint(chain: seq<Region>) { forall i, j :: 0 <= i < j < |chain| ==> !Overlap(chain[i], chain[j]) }

  lemma AroundSlot(chain: seq<Region>, r: Region)
    requires Sorted(chain) && Positive(chain) && r.count > 0 && Accepted(chain, r)
    ensures forall i :: 0 <= i < Slot(chain, r) ==> Before(chain[i], r)
    ensures forall i :: Slot(chain, r) <= i < |chain| ==> Before(r, chain[i])
  {
    var k := Slot(chain, r);
    if k < |chain| {
      assert Before(r, chain[k]);
    }
  }

  /** Insertion keeps a chain sorted, whatever the ranges, and takes in nothing already there. */
  lemma InsertKeepsOrder(chain: seq<Region>, r: Region)
    requires Sorted(chain) && Positive(chain) && r.count > 0 && Accepted(chain, r)
    ensures Sorted(Inserted(chain, r)) && Positive(Inserted(chain, r)) && r !in chain
    ensures Inserts(chain, Inserted(chain, r), Slot(chain, r), r)
  {
    AroundSlot(chain, r);
    InsertIs(chain, Slot(chain, r), r);
    SortedWith(chain, Inserted(chain, r), Slot(chain, r), r);
  }

  lemma SortedWith(chain: seq<Region>, t: seq<Region>, k: nat, r: Region)
    requires Sorted(chain) && Positive(chain) && r.count > 0 && Inserts(chain, t, k, r)
    requires forall i :: 0 <= i < k ==> Before(chain[i], r)
    requires forall i :: k <= i < |chain| ==> Before(r, chain[i])
    ensures Sorted(t) && Positive(t)
  {
    forall j | 0 <= j < |t|
      ensures j != k ==> t[j] == chain[if j < k then j else j - 1]
    {
      assert j > k ==> t[(j - 1) + 1] == chain[j - 1];
    }
  }

  /**
   What an accepted insertion does to disjointness, exactly: it survives unless the new range
   strictly encloses its successor.
   */
  lemma DisjointIff(chain: seq<Region>, r: Region)
    requires Sorted(chain) && Positive(chain) && Disjoint(chain) && r.count > 0 && Accepted(chain, r)
    ensures Disjoint(Inserted(chain, r)) <==> !EnclosesNext(chain, r)
  {
    var k, t := Slot(chain, r), Inserted(chain, r);
    InsertKeepsOrder(chain, r);
    if EnclosesNext(chain, r) {
      assert t[k] == r && t[k + 1] == chain[k] && Overlap(t[k], t[k + 1]);
    } else {
      forall i | 0 <= i < |chain|
        ensures !Overlap(chain[i], r) && !Overlap(r, chain[i])
      {
        ApartFrom(chain, r, i);
      }
      DisjointWith(chain, t, k, r);
    }
  }

  /** A range that does not enclose its successor overlaps nothing on the chain. */
  lemma ApartFrom(chain: seq<Region>, r: Region, i: nat)
    requires Sorted(chain) && Positive(chain) && r.count > 0 && Accepted(chain, r) && !EnclosesNext(chain, r)
    requires i < |chain|
    ensures !Overlap(chain[i], r) && !Overlap(r, chain[i])
  {
    var k := Slot(chain, r);
    if i < k {
      assert !Stops(chain[i], r);
    } else {
      assert i > k ==> Before(chain[k], chain[i]);
    }
  }

  lemma DisjointWith(chain: seq<Region>, t: seq<Region>, k: nat, r: Region)
    requires Disjoint(chain) && Inserts(chain, t, k, r)
    requires forall i :: 0 <= i < |chain| ==> !Overlap(chain[i], r) && !Overlap(r, chain[i])
    ensures Disjoint(t)
  {
    forall j | 0 <= j < |t|
      ensures j != k ==> t[j] == chain[if j < k then j else j - 1]
    {
      assert j > k ==> t[(j - 1) + 1] == chain[j - 1];
    }
  }

  /** A request that really is disjoint from everything registered is accepted. */
  lemma FreeAccepted(chain: seq<Region>, r: Region)
    requires Positive(chain) && r.count > 0 && forall i :: 0 <= i < |chain| ==> !Overlap(chain[i], r)
    ensures Accepted(chain, r) && !EnclosesNext(chain, r)
  {
    var k := Slot(chain, r);
    if k < |chain| {
      assert !Overlap(chain[k], r);
    }
  }

  /** What the two tests let through, exactly: ranges that overlap nothing, and ranges that enclose their successor. */
  lemma AcceptedIff(chain: seq<Region>, r: Region)
    requires Sorted(chain) && Positive(chain) && Disjoint(chain) && r.count > 0
    ensures Accepted(chain, r) <==>
      (forall i :: 0 <= i < |chain| ==> !Overlap(chain[i], r)) || EnclosesNext(chain, r)
  {
    var k := Slot(chain, r);
    if forall i :: 0 <= i < |chain| ==> !Overlap(chain[i], r) {
      FreeAccepted(chain, r);
    } else if Accepted(chain, r) && !EnclosesNext(chain, r) {
      var i :| 0 <= i < |chain| && Overlap(chain[i], r);
      ApartFrom(chain, r, i);
    }
  }

  /** `Find` of the unregistering loop. */
  function Found(chain: seq<Region>, r: Region): (k: nat)
    ensures k <= |chain| && (k < |chain| ==> chain[k] == r) && (k == |chain| <==> r !in chain)
    ensures forall j :: 0 <= j < k ==> chain[j] != r
  {
    if chain == [] || chain[0] == r then 0 else 1 + Found(chain[1..], r)
  }

  function Removed(chain: seq<Region>, r: Region): seq<Region> {
    var k := Found(chain, r);
    if k == |chain| then chain else chain[..k] + chain[k + 1..]
  }

  lemma RemoveKeepsOrder(chain: seq<Region>, r: Region)
    requires Sorted(chain) && Positive(chain)
    ensures Sorted(Removed(chain, r)) && Positive(Removed(chain, r))
    ensures forall x :: x in Removed(chain, r) <==> x in chain && x != r
  {
    var k, t := Found(chain, r), Removed(chain, r);
    if k < |chain| {
      RemoveIs(chain, k);
      SortedWithout(chain, t, k);
      forall x
        ensures x in t <==> x in chain && x != r
      {
        InsertMembers(t, chain, k, r, x);
      }
    }
  }

  lemma SortedWithout(chain: seq<Region>, t: seq<Region>, k: nat)
    requires Sorted(chain) && Positive(chain) && Removes(chain, t, k)
    ensures Sorted(t) && Positive(t) && chain[k] !in t
  {
    forall i | 0 <= i < |t|
      ensures t[i] == chain[if i < k then i else i + 1]
    {
    }
  }

  /** A chain is determined by what is on it. */
  lemma {:induction false} SortedUnique(a: seq<Region>, b: seq<Region>)
    requires Sorted(a) && Sorted(b) && forall x :: x in a <==> x in b
    ensures a == b
    decreases |a|
  {
    if a == [] {
      assert forall i :: 0 <= i < |b| ==> b[i] in b;
    } else {
      assert a[0] in a;
      assert b != [] && b[0] in b;
      assert a[0] == b[0];
      assert a == [a[0]] + a[1..] && b == [b[0]] + b[1..];
      forall x
        ensures x in a[1..] <==> x in b[1..]
      {
        assert x in a[1..] <==> x in a && x != a[0];
        assert x in b[1..] <==> x in b && x != b[0];
      }
      SortedUnique(a[1..], b[1..]);
    }
  }

  // ----- the table -----

  type Table = seq<seq<Region>>

  predicate ChainOk(chain: seq<Region>, i: nat) {
    Sorted(chain) && Positive(chain) && forall r :: r in chain ==> Index(r.major) == i
  }

  predicate TableOk(tab: Table) {
    |tab| == BUCKETS && forall i {:trigger ChainOk(tab[i], i)} :: 0 <= i < BUCKETS ==> ChainOk(tab[i], i)
  }

  predicate Has(tab: Table, r: Region)
    requires |tab| == BUCKETS
  {
    r in tab[Index(r.major)]
  }

  predicate Free(tab: Table, r: Region)
    requires |tab| == BUCKETS
  {
    Accepted(tab[Index(r.major)], r)
  }

  function Put(tab: Table, r: Region): (t: Table)
    requires |tab| == BUCKETS
    ensures |t| == BUCKETS
  {
    var i := Index(r.major);
    tab[i := Inserted(tab[i], r)]
  }

  function Take(tab: Table, r: Region): (t: Table)
    requires |tab| == BUCKETS
    ensures |t| == BUCKETS
  {
    var i := Index(r.major);
    tab[i := Removed(tab[i], r)]
  }

  lemma PutOk(tab: Table, r: Region)
    requires TableOk(tab) && r.count > 0 && Free(tab, r)
    ensures TableOk(Put(tab, r)) && !Has(tab, r)
    ensures forall x :: Has(Put(tab, r), x) <==> Has(tab, x) || x == r
  {
    var i, t := Index(r.major), Put(tab, r);
    assert ChainOk(tab[i], i);
    InsertKeepsOrder(tab[i], r);
    forall x
      ensures x in t[i] <==> x in tab[i] || x == r
    {
      InsertMembers(tab[i], t[i], Slot(tab[i], r), r, x);
    }
    forall j | 0 <= j < BUCKETS
      ensures ChainOk(t[j], j)
    {
      assert ChainOk(tab[j], j);
    }
  }

  lemma TakeOk(tab: Table, r: Region)
    requires TableOk(tab)
    ensures TableOk(Take(tab, r))
    ensures forall x :: Has(Take(tab, r), x) <==> Has(tab, x) && x != r
  {
    var i, t := Index(r.major), Take(tab, r);
    assert ChainOk(tab[i], i);
    RemoveKeepsOrder(tab[i], r);
    forall j | 0 <= j < BUCKETS
      ensures ChainOk(t[j], j)
    {
      assert ChainOk(tab[j], j);
    }
  }

  /** A table is determined by the regions in it. */
  lemma TableUnique(a: Table, b: Table)
    requires TableOk(a) && TableOk(b) && forall x :: Has(a, x) <==> Has(b, x)
    ensures a == b
  {
    forall i | 0 <= i < BUCKETS
      ensures a[i] == b[i]
    {
      assert ChainOk(a[i], i) && ChainOk(b[i], i);
      forall x
        ensures x in a[i] <==> x in b[i]
      {
        assert Has(a, x) <==> Has(b, x);
      }
      SortedUnique(a[i], b[i]);
    }
  }

  // ----- several regions -----

  function PutAll(tab: Table, rs: seq<Region>): (t: Table)
    requires |tab| == BUCKETS
    ensures |t| == BUCKETS
    decreases |rs|
  {
    if rs == [] then tab else PutAll(Put(tab, rs[0]), rs[1..])
  }

  function TakeAll(tab: Table, rs: seq<Region>): (t: Table)
    requires |tab| == BUCKETS
    ensures |t| == BUCKETS
    decreases |rs|
  {
    if rs == [] then tab else TakeAll(Take(tab, rs[0]), rs[1..])
  }

  /** Each of the regions is accepted when its turn comes. */
  predicate AllFree(tab: Table, rs: seq<Region>)
    requires |tab| == BUCKETS
    decreases |rs|
  {
    rs == [] || (rs[0].count > 0 && Free(tab, rs[0]) && AllFree(Put(tab, rs[0]), rs[1..]))
  }

  lemma {:induction false} PutAllOk(tab: Table, rs: seq<Region>)
    requires TableOk(tab) && AllFree(tab, rs)
    ensures TableOk(PutAll(tab, rs))
    ensures forall x :: Has(PutAll(tab, rs), x) <==> Has(tab, x) || x in rs
    ensures forall x :: x in rs ==> !Has(tab, x)
    decreases |rs|
  {
    if rs != [] {
      PutOk(tab, rs[0]);
      PutAllOk(Put(tab, rs[0]), rs[1..]);
      assert rs == [rs[0]] + rs[1..];
    }
  }

  lemma {:induction false} TakeAllOk(tab: Table, rs: seq<Region>)
    requires TableOk(tab)
    ensures TableOk(TakeAll(tab, rs))
    ensures forall x :: Has(TakeAll(tab, rs), x) <==> Has(tab, x) && x !in rs
    decreases |rs|
  {
    if rs != [] {
      TakeOk(tab, rs[0]);
      TakeAllOk(Take(tab, rs[0]), rs[1..]);
      assert rs == [rs[0]] + rs[1..];
    }
  }

  /** Unregistering what was registered restores the table exactly, in whatever order the ranges were entered. */
  lemma TakeUndoesPut(tab: Table, rs: seq<Region>)
    requires TableOk(tab) && AllFree(tab, rs)
    ensures TakeAll(PutAll(tab, rs), rs) == tab
  {
    PutAllOk(tab, rs);
    TakeAllOk(PutAll(tab, rs), rs);
    TableUnique(TakeAll(PutAll(tab, rs), rs), tab);
  }

  // ----- ranges of device numbers -----

  const MINORS: nat := 0x10_0000

  /** Major number and minor number of a device number. */
  function Major(n: nat): nat { n / 0x10_0000 }

  function Minor(n: nat): nat { n % 0x10_0000 }

  /** `n` is the first number of a major. */
  predicate FirstOfMajor(n: nat) { Minor(n) == 0 }

  function NextMajor(n: nat): (r: nat)
    ensures n < r && FirstOfMajor(r) && forall m :: n < m < r ==> !FirstOfMajor(m)
  {
    (Major(n) + 1) * 0x10_0000
  }

  function RegionOf(n: nat, next: nat): Region
    requires n <= next
  {
    Region(Major(n), Minor(n), next - n)
  }

  /** Where the chunk that starts at `n` ends. */
  function ChunkEnd(n: nat, to: nat): (r: nat)
    requires n < to
    ensures n < r <= to && (r == to || r == NextMajor(n))
  {
    if NextMajor(n) > to then to else NextMajor(n)
  }

  /** One region for every major number that `from` up to `to` touches. */
  function Chunks(from: nat, to: nat): seq<Region>
    decreases to - from
  {
    if from >= to then [] else [RegionOf(from, ChunkEnd(from, to))] + Chunks(ChunkEnd(from, to), to)
  }
}
