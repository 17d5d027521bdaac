/** Sequences with one element put in, taken out or moved, described element by element. */
module Sequences {

  /** `t` is `s` with `x` put in at position `k`. */
  predicate Inserts<T(==)>(s: seq<T>, t: seq<T>, k: nat, x: T) {
    && k <= |s| && |t| == |s| + 1 && t[k] == x
    && (forall i :: 0 <= i < k ==> t[i] == s[i])
    && (forall i :: k <= i < |s| ==> t[i + 1] == s[i])
  }

  /** `t` is `s` without position `k`. */
  predicate Removes<T(==)>(s: seq<T>, t: seq<T>, k: nat) { k < |s| && Inserts(t, s, k, s[k]) }

  lemma InsertIs<T>(s: seq<T>, k: nat, x: T)
    requires k <= |s|
    ensures Inserts(s, s[..k] + [x] + s[k..], k, x)
  {
  }

  lemma RemoveIs<T>(s: seq<T>, k: nat)
    requires k < |s|
    ensures Removes(s, s[..k] + s[k + 1..], k)
  {
  }

  lemma InsertMembers<T>(s: seq<T>, t: seq<T>, k: nat, x: T, y: T)
    requires Inserts(s, t, k, x)
    ensures y in t <==> y in s || y == x
  {
    if i :| 0 <= i < |s| && s[i] == y {
      assert t[if i < k then i else i + 1] == y;
    }
    if j :| 0 <= j < |t| && t[j] == y && j != k {
      assert s[if j < k then j else j - 1] == y;
    }
  }

  lemma InsertMultiset<T>(s: seq<T>, k: nat, x: T)
    requires k <= |s|
    ensures multiset(s[..k] + [x] + s[k..]) == multiset(s) + multiset{x}
  {
    assert s == s[..k] + s[k..];
  }

  // ----- sums -----

  function Total<T>(f: T -> nat, xs: seq<T>): nat { if xs == [] then 0 else f(xs[0]) + Total(f, xs[1..]) }

  lemma {:induction false} TotalUpdate<T>(f: T -> nat, xs: seq<T>, k: nat, x: T)
    requires k < |xs|
    ensures Total(f, xs[k := x]) == Total(f, xs) - f(xs[k]) + f(x)
  {
    if k == 0 {
      assert xs[k := x][1..] == xs[1..];
    } else {
      assert xs[k := x][1..] == xs[1..][k - 1 := x];
      TotalUpdate(f, xs[1..], k - 1, x);
    }
  }

  lemma {:induction false} TotalAppend<T>(f: T -> nat, a: seq<T>, b: seq<T>)
    ensures Total(f, a + b) == Total(f, a) + Total(f, b)
  {
    if a == [] {
      assert a + b == b;
    } else {
      assert (a + b)[1..] == a[1..] + b;
      TotalAppend(f, a[1..], b);
    }
  }

  lemma TotalUpTo<T>(f: T -> nat, xs: seq<T>, i: nat)
    requires i < |xs|
    ensures Total(f, xs[..i + 1]) == Total(f, xs[..i]) + f(xs[i])
  {
    assert xs[..i + 1] == xs[..i] + [xs[i]] && [xs[i]][1..] == [];
    TotalAppend(f, xs[..i], [xs[i]]);
    assert Total(f, [xs[i]]) == f(xs[i]) + Total(f, []);
  }
}
