/**
 The order of a directory listing (`Project2-5243528/pardirlist.c`): by level, and within a
 level by path.
 */
module DirListing {
  import opened Sequences

  /** `strcmp(a, b) < 0`. */
  predicate Precedes(a: string, b: string) {
    if b == "" then false
    else if a == "" then true
    else a[0] < b[0] || (a[0] == b[0] && Precedes(a[1..], b[1..]))
  }

  /** The strings agree up to `k`, where `a` ends or has the smaller character. */
  predicate DiffersAt(a: string, b: string, k: nat) {
    k <= |a| && k < |b| && a[..k] == b[..k] && (k == |a| || a[k] < b[k])
  }

  /** The order in terms of the first difference. */
  lemma {:induction false} PrecedesIff(a: string, b: string)
    ensures Precedes(a, b) <==> exists k: nat :: DiffersAt(a, b, k)
    decreases |a|
  {
    if b != "" && a != "" && a[0] == b[0] {
      PrecedesIff(a[1..], b[1..]);
      if k: nat :| DiffersAt(a[1..], b[1..], k) {
        assert a[..k + 1] == [a[0]] + a[1..][..k] && b[..k + 1] == [b[0]] + b[1..][..k];
        assert DiffersAt(a, b, k + 1);
      }
      if k: nat :| DiffersAt(a, b, k) {
        assert k > 0 && a[1..][..k - 1] == a[..k][1..] && b[1..][..k - 1] == b[..k][1..];
        assert DiffersAt(a[1..], b[1..], k - 1);
      }
    } else if b != "" && (a == "" || a[0] < b[0]) {
      assert DiffersAt(a, b, 0);
    }
  }

  lemma {:induction false} PrecedesTotal(a: string, b: string)
    ensures a == b || Precedes(a, b) || Precedes(b, a)
    ensures !(Precedes(a, b) && Precedes(b, a)) && !Precedes(a, a)
    decreases |a| + |b|
  {
    if a != "" && b != "" {
      assert a == [a[0]] + a[1..] && b == [b[0]] + b[1..];
      PrecedesTotal(a[1..], b[1..]);
    }
    if a != "" {
      PrecedesIrreflexive(a);
    }
  }

  lemma {:induction false} PrecedesIrreflexive(a: string)
    ensures !Precedes(a, a)
  {
    if a != "" {
      PrecedesIrreflexive(a[1..]);
    }
  }

  lemma {:induction false} PrecedesTransitive(a: string, b: string, c: string)
    requires Precedes(a, b) && Precedes(b, c)
    ensures Precedes(a, c)
    decreases |a|
  {
    if a != "" && b[0] == c[0] && a[0] == b[0] {
      PrecedesTransitive(a[1..], b[1..], c[1..]);
    }
  }

  datatype Key = Key(level: nat, path: string)

  predicate Before(a: Key, b: Key) { a.level < b.level || (a.level == b.level && Precedes(a.path, b.path)) }

  predicate ByLevel(ks: seq<Key>) { forall i, j :: 0 <= i < j < |ks| ==> ks[i].level <= ks[j].level }

  predicate Sorted(ks: seq<Key>) { forall i, j :: 0 <= i < j < |ks| ==> Before(ks[i], ks[j]) }

  predicate Distinct(ks: seq<Key>) { forall i, j :: 0 <= i < j < |ks| ==> ks[i] != ks[j] }

  // ----- insertion -----

  /** Where `AddPath` puts a new item: before the first item after the head that is not of a lesser level. */
  function Spot(ks: seq<Key>, level: nat, from: nat): (k: nat)
    requires 1 <= from <= |ks|
    ensures from <= k <= |ks| && (k < |ks| ==> ks[k].level >= level)
    ensures forall i :: from <= i < k ==> ks[i].level < level
    decreases |ks| - from
  {
    if from == |ks| || ks[from].level >= level then from else Spot(ks, level, from + 1)
  }

  function Position(ks: seq<Key>, level: nat): (k: nat)
    ensures k <= |ks| && (ks != [] ==> (k == 0 <==> ks[0].level > level))
    ensures (forall i :: 0 < i < k ==> ks[i].level < level) && (0 < k < |ks| ==> ks[k].level >= level)
  {
    if ks == [] || ks[0].level > level then 0 else Spot(ks, level, 1)
  }

  function Added(ks: seq<Key>, x: Key): seq<Key> {
    var k := Position(ks, x.level);
    ks[..k] + [x] + ks[k..]
  }

  lemma AroundPosition(ks: seq<Key>, level: nat)
    requires ByLevel(ks)
    ensures forall i :: 0 <= i < Position(ks, level) ==> ks[i].level <= level
    ensures forall i :: Position(ks, level) <= i < |ks| ==> level <= ks[i].level
  {
  }

  /** The list stays in the order of levels. */
  lemma AddedByLevel(ks: seq<Key>, x: Key)
    requires ByLevel(ks)
    ensures ByLevel(Added(ks, x))
  {
    AroundPosition(ks, x.level);
    InsertIs(ks, Position(ks, x.level), x);
    ByLevelWith(ks, Added(ks, x), Position(ks, x.level), x);
  }

  lemma ByLevelWith(ks: seq<Key>, t: seq<Key>, k: nat, x: Key)
    requires ByLevel(ks) && Inserts(ks, t, k, x)
    requires forall i :: 0 <= i < k ==> ks[i].level <= x.level
    requires forall i :: k <= i < |ks| ==> x.level <= ks[i].level
    ensures ByLevel(t)
  {
    forall j | 0 <= j < |t|
      ensures j != k ==> t[j] == ks[if j < k then j else j - 1]
    {
      assert j > k ==> t[(j - 1) + 1] == ks[j - 1];
    }
  }

  lemma AddedMembers(ks: seq<Key>, x: Key)
    ensures multiset(Added(ks, x)) == multiset(ks) + multiset{x}
  {
    InsertMultiset(ks, Position(ks, x.level), x);
  }

  // ----- bubble sort -----

  /** Two items in the wrong order. */
  predicate Bad(a: Key, b: Key) { a.level == b.level && Precedes(b.path, a.path) }

  function Swap(ks: seq<Key>, k: nat): (r: seq<Key>)
    requires k + 1 < |ks|
    ensures |r| == |ks|
  {
    ks[k := ks[k + 1]][k + 1 := ks[k]]
  }

  function BadAfter(a: Key,
      ks: seq<Key>): nat { if ks == [] then 0 else (if Bad(a, ks[0]) then 1 else 0) + BadAfter(a, ks[1..]) }

  /** Pairs in the wrong order. */
  function Inversions(ks: seq<Key>): nat { if ks == [] then 0 else BadAfter(ks[0], ks[1..]) + Inversions(ks[1..]) }

  lemma {:induction false} BadAfterSwap(a: Key, ks: seq<Key>, k: nat)
    requires k + 1 < |ks|
    ensures BadAfter(a, Swap(ks, k)) == BadAfter(a, ks)
  {
    var t := Swap(ks, k);
    if k == 0 {
      assert t[1..][1..] == ks[1..][1..];
      assert t[1..][0] == ks[0] && ks[1..][0] == t[0];
    } else {
      assert t[1..] == Swap(ks[1..], k - 1);
      BadAfterSwap(a, ks[1..], k - 1);
    }
  }

  /** Swapping neighbours in the wrong order leaves exactly one inversion less. */
  lemma {:induction false} SwapHelps(ks: seq<Key>, k: nat)
    requires k + 1 < |ks| && Bad(ks[k], ks[k + 1])
    ensures Inversions(Swap(ks, k)) == Inversions(ks) - 1 && multiset(Swap(ks, k)) == multiset(ks)
  {
    var t := Swap(ks, k);
    if k == 0 {
      var a, b, rest := ks[0], ks[1], ks[1..][1..];
      PrecedesTotal(a.path, b.path);
      assert t[1..][1..] == rest && t[1..][0] == a && ks[1..][0] == b;
      assert Inversions(ks) == BadAfter(a, ks[1..]) + (BadAfter(b, rest) + Inversions(rest));
      assert Inversions(t) == BadAfter(b, t[1..]) + (BadAfter(a, rest) + Inversions(rest));
    } else {
      assert t[1..] == Swap(ks[1..], k - 1);
      SwapHelps(ks[1..], k - 1);
      BadAfterSwap(ks[0], ks[1..], k - 1);
    }
  }

  /** No neighbours up to position `k` are in the wrong order. */
  predicate Neat(ks: seq<Key>, k: nat) { forall i :: 0 <= i < k && i + 1 < |ks| ==> !Bad(ks[i], ks[i + 1]) }

  /** Nothing to swap, levels in order and no path twice: that is the sorted list. */
  lemma NeatSorted(ks: seq<Key>)
    requires ByLevel(ks) && Neat(ks, |ks|) && Distinct(ks)
    ensures Sorted(ks)
  {
    forall i, j | 0 <= i < j < |ks|
      ensures Before(ks[i], ks[j])
    {
      Chain(ks, i, j);
    }
  }

  lemma {:induction false} Chain(ks: seq<Key>, i: nat, j: nat)
    requires ByLevel(ks) && Neat(ks, |ks|) && Distinct(ks) && i < j < |ks|
    ensures Before(ks[i], ks[j])
    decreases j
  {
    PrecedesTotal(ks[j - 1].path, ks[j].path);
    assert ks[j - 1] != ks[j] && !Bad(ks[j - 1], ks[j]);
    if i < j - 1 {
      Chain(ks, i, j - 1);
      if ks[i].level == ks[j].level {
        assert ks[j - 1].level == ks[j].level;
        PrecedesTransitive(ks[i].path, ks[j - 1].path, ks[j].path);
      }
    }
  }

  lemma {:induction false} SameMembers(a: seq<Key>, b: seq<Key>)
    requires Sorted(a) && Sorted(b) && forall x :: x in a <==> x in b
    ensures a == b
    decreases |a|
  {
    if a == [] {
      assert forall i :: 0 <= i < |b| ==> b[i] in b;
    } else {
      assert a[0] in a;
      assert b != [] && b[0] in b;
      PrecedesTotal(a[0].path, b[0].path);
      assert a[0] == b[0];
      PrecedesIrreflexive(a[0].path);
      assert a == [a[0]] + a[1..] && b == [b[0]] + b[1..];
      forall x
        ensures x in a[1..] <==> x in b[1..]
      {
        assert x in a[1..] <==> x in a && x != a[0];
        assert x in b[1..] <==> x in b && x != b[0];
      }
      SameMembers(a[1..], b[1..]);
    }
  }

  /** The sorted list is unique: whatever the order of insertion, the same items give the same listing. */
  lemma Canonical(a: seq<Key>, b: seq<Key>)
    requires Sorted(a) && Sorted(b) && multiset(a) == multiset(b)
    ensures a == b
  {
    forall x
      ensures x in a <==> x in b
    {
      assert x in a <==> x in multiset(a);
      assert x in b <==> x in multiset(b);
    }
    SameMembers(a, b);
  }

  lemma AtMostOnce(ks: seq<Key>, x: Key)
    requires Distinct(ks)
    ensures multiset(ks)[x] <= 1
  {
    if i :| 0 <= i < |ks| && ks[i] == x {
      assert ks == ks[..i] + [x] + ks[i + 1..];
      assert x !in ks[..i] && x !in ks[i + 1..];
    }
  }

  lemma DistinctPermuted(a: seq<Key>, b: seq<Key>)
    requires Distinct(a) && multiset(a) == multiset(b)
    ensures Distinct(b)
  {
    forall i, j | 0 <= i < j < |b|
      ensures b[i] != b[j]
    {
      AtMostOnce(a, b[i]);
      assert b == b[..j] + b[j..] && b[i] in b[..j] && b[j] in b[j..];
    }
  }

  // ----- numbering -----

  /** How many items of the same level come before position `i`. */
  function Earlier(ks: seq<Key>, i: nat): nat
    requires i < |ks|
  {
    SameLevel(ks[..i], ks[i].level)
  }

  function SameLevel(ks: seq<Key>, level: nat): nat {
    if ks == [] then 0 else SameLevel(ks[..|ks| - 1], level) + if ks[|ks| - 1].level == level then 1 else 0
  }

  lemma {:induction false} NoneSameLevel(ks: seq<Key>, level: nat)
    requires forall i :: 0 <= i < |ks| ==> ks[i].level != level
    ensures SameLevel(ks, level) == 0
  {
    if ks != [] {
      NoneSameLevel(ks[..|ks| - 1], level);
    }
  }

  /** Every item's rank within its level, counted from 1. */
  function Ranks(ks: seq<Key>): (r: seq<nat>)
    ensures |r| == |ks|
  {
    seq(|ks|, i requires 0 <= i < |ks| => 1 + Earlier(ks, i))
  }

  /** In a list ordered by level the rank goes up by one within a level and starts again at a new one. */
  lemma RankNext(ks: seq<Key>, i: nat)
    requires ByLevel(ks) && i + 1 < |ks|
    ensures Ranks(ks)[i + 1] == if ks[i + 1].level == ks[i].level then Ranks(ks)[i] + 1 else 1
  {
    assert ks[..i + 1][..i] == ks[..i];
    if ks[i + 1].level != ks[i].level {
      NoneSameLevel(ks[..i + 1], ks[i + 1].level);
    }
  }
}
