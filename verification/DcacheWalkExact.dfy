/**
 What the walk of `d_walk` enters: every dentry at most once, each behind its parent, and
 exactly those whose parent was entered and not answered with a skip.
 */
module DcacheWalkExact {
  import opened DentryForest
  import opened DcacheTree
  import opened DcacheWalk

  /** The callback wanted to see what is below entry `q` of the walk `s`. */
  predicate Wanted<D>(f: Enter<D>, s: seq<D>, q: nat)
    requires q < |s|
  {
    !f(s[..q], s[q]).Skip?
  }

  /** Entry `j` comes behind its parent, whose children were wanted. */
  ghost predicate Led<D>(t: Shape<D>, f: Enter<D>, s: seq<D>, n: nat, j: nat)
    requires j < |s| && s[j] in t.parents
  {
    exists q :: n <= q < j && s[q] == t.parents[s[j]] && Wanted(f, s, q)
  }

  /** Entry `q` has all its children entered, from position `n` on. */
  ghost predicate Closed<D>(t: Shape<D>, s: seq<D>, n: nat, q: nat)
    requires n <= |s| && q < |s| && s[q] in t.lists
  {
    forall c :: c in t.lists[s[q]] && c !in t.cursors ==> c in s[n..]
  }

  /** `x` lies below one of the children of `d` from number `i` on. */
  ghost predicate UnderKid<D>(t: Shape<D>, x: D, d: D, i: nat)
    requires TreeShape(t)
  {
    && x in t.parents && d in t.parents
    && exists m :: i <= m < |t.lists[d]| && Below(t.parents, t.rank, x, t.lists[d][m])
  }

  lemma UnderKidBelow<D>(t: Shape<D>, x: D, d: D, i: nat)
    requires TreeShape(t) && UnderKid(t, x, d, i)
    ensures Below(t.parents, t.rank, x, d) && x != d
  {
    var m :| i <= m < |t.lists[d]| && Below(t.parents, t.rank, x, t.lists[d][m]);
    var e := t.lists[d][m];
    KidRank(t, d, m);
    BelowRank(t.parents, t.rank, x, e);
    assert Below(t.parents, t.rank, e, d) by {
      assert Parented(t.parents, t.rank, e);
      assert Below(t.parents, t.rank, t.parents[e], d);
    }
    BelowTransitive(t.parents, t.rank, x, e, d);
  }

  /** The subtrees of two different children have nothing in common. */
  lemma {:induction false} KidsApart<D>(t: Shape<D>, x: D, d: D, a: D, b: D)
    requires TreeShape(t) && x in t.parents && a in t.parents && b in t.parents && a != b
    requires t.parents[a] == d == t.parents[b] && a != d && b != d
    requires Below(t.parents, t.rank, x, a)
    ensures !Below(t.parents, t.rank, x, b)
    decreases t.rank[x]
  {
    assert Parented(t.parents, t.rank, x);
    if x == a {
      assert Parented(t.parents, t.rank, b);
      BelowOnlyUp(t.parents, t.rank, d, b);
    } else if x == b {
      assert Parented(t.parents, t.rank, a);
      BelowOnlyUp(t.parents, t.rank, d, a);
    } else {
      KidsApart(t, t.parents[x], d, a, b);
    }
  }

  /** The part `s[n..]` of a walk that has to do with the children of `d` from `i` on. */
  ghost predicate KidsPart<D>(t: Shape<D>, f: Enter<D>, s: seq<D>, n: nat, d: D, i: nat)
    requires TreeShape(t)
  {
    && n <= |s| && d in t.parents
    && (forall j {:trigger s[j]} :: n <= j < |s| ==> UnderKid(t, s[j], d, i) && s[j] !in t.cursors)
    && NoDup(s[n..])
    && (forall j {:trigger Led(t, f, s, n, j)} :: n <= j < |s| && t.parents[s[j]] != d ==> Led(t, f, s, n, j))
  }

  ghost predicate KidsDone<D>(t: Shape<D>, f: Enter<D>, s: seq<D>, n: nat, d: D, i: nat)
    requires TreeShape(t) && KidsPart(t, f, s, n, d, i)
  {
    && (forall m {:trigger t.lists[d][m]} :: i <= m < |t.lists[d]| && t.lists[d][m] !in t.cursors ==>
      t.lists[d][m] in s[n..])
    && (forall q {:trigger Closed(t, s, n, q)} :: n <= q < |s| && Wanted(f, s, q) ==> Closed(t, s, n, q))
  }

  /** The part `s[n..]` of a walk that started by entering `d`. */
  ghost predicate VisitPart<D>(t: Shape<D>, f: Enter<D>, s: seq<D>, n: nat, d: D)
    requires TreeShape(t)
  {
    && n < |s| && d in t.parents && s[n] == d
    && (forall j {:trigger s[j]} :: n < j < |s| ==>
          s[j] in t.parents && Below(t.parents, t.rank, s[j], d) && s[j] != d && s[j] !in t.cursors)
    && NoDup(s[n..])
    && (forall j {:trigger Led(t, f, s, n, j)} :: n < j < |s| ==> Led(t, f, s, n, j))
  }

  ghost predicate VisitDone<D>(t: Shape<D>, f: Enter<D>, s: seq<D>, n: nat, d: D)
    requires TreeShape(t) && VisitPart(t, f, s, n, d)
  {
    forall q {:trigger Closed(t, s, n, q)} :: n <= q < |s| && Wanted(f, s, q) ==> Closed(t, s, n, q)
  }

  lemma SlicesAgree<D>(s: seq<D>, n: nat, m: nat)
    requires n <= m <= |s|
    ensures s[n..] == s[n..m] + s[m..]
  {
  }

  /** From the children of `d` to `d` itself. */
  lemma KidsToVisit<D>(t: Shape<D>, f: Enter<D>, s: seq<D>, n: nat, d: D)
    requires TreeShape(t) && n < |s| && s[n] == d && d in t.parents && Wanted(f, s, n)
    requires KidsPart(t, f, s, n + 1, d, 0)
    ensures VisitPart(t, f, s, n, d)
    ensures KidsDone(t, f, s, n + 1, d, 0) ==> VisitDone(t, f, s, n, d)
  {
    assert s[n..] == [d] + s[n + 1..];
    forall j {:trigger s[j]} | n < j < |s|
      ensures s[j] in t.parents && Below(t.parents, t.rank, s[j], d) && s[j] != d && s[j] !in t.cursors
    {
      UnderKidBelow(t, s[j], d, 0);
    }
    assert NoDup(s[n..]) by {
      assert NoDup(s[n + 1..]) && d !in s[n + 1..];
    }
    forall j | n < j < |s| ensures Led(t, f, s, n, j) {
      if t.parents[s[j]] != d {
        assert Led(t, f, s, n + 1, j);
      }
    }
    if KidsDone(t, f, s, n + 1, d, 0) {
      forall q | n <= q < |s| && Wanted(f, s, q) ensures Closed(t, s, n, q) {
        if q > n {
          assert Closed(t, s, n + 1, q);
        }
      }
    }
  }

  /** A prefix of a walk, seen inside the longer walk. */
  lemma PrefixLed<D>(t: Shape<D>, f: Enter<D>, s: seq<D>, u: seq<D>, n: nat, j: nat)
    requires s <= u && j < |s| && s[j] in t.parents && Led(t, f, s, n, j)
    ensures Led(t, f, u, n, j)
  {
    var q :| n <= q < j && s[q] == t.parents[s[j]] && Wanted(f, s, q);
    assert s[..q] == u[..q];
  }

  /** Entering child `i` and what is below it, then the later children. */
  lemma KidThenRest<D>(t: Shape<D>, f: Enter<D>, s: seq<D>, u: seq<D>, n: nat, d: D, i: nat)
    requires TreeShape(t) && d in t.parents && i < |t.lists[d]| && t.lists[d][i] !in t.cursors && s <= u
    requires VisitPart(t, f, s, n, t.lists[d][i]) && KidsPart(t, f, u, |s|, d, i + 1)
    ensures KidsPart(t, f, u, n, d, i)
    ensures VisitDone(t, f, s, n, t.lists[d][i]) && KidsDone(t, f, u, |s|, d, i + 1) ==> KidsDone(t, f, u, n, d, i)
  {
    var e := t.lists[d][i];
    KidRank(t, d, i);
    forall j {:trigger u[j]} | n <= j < |u|
      ensures UnderKid(t, u[j], d, i) && u[j] !in t.cursors
    {
      if j < |s| {
        assert u[j] == s[j];
        assert Below(t.parents, t.rank, u[j], e);
      } else {
        assert UnderKid(t, u[j], d, i + 1);
      }
    }
    KidThenRestNoDup(t, f, s, u, n, d, i);
    forall j | n <= j < |u| && t.parents[u[j]] != d ensures Led(t, f, u, n, j) {
      if n < j < |s| {
        assert Led(t, f, s, n, j);
        PrefixLed(t, f, s, u, n, j);
      } else if j >= |s| {
        assert Led(t, f, u, |s|, j);
      }
    }
    if VisitDone(t, f, s, n, e) && KidsDone(t, f, u, |s|, d, i + 1) {
      KidThenRestDone(t, f, s, u, n, d, i);
    }
  }

  lemma KidThenRestNoDup<D>(t: Shape<D>, f: Enter<D>, s: seq<D>, u: seq<D>, n: nat, d: D, i: nat)
    requires TreeShape(t) && d in t.parents && i < |t.lists[d]| && t.lists[d][i] !in t.cursors && s <= u
    requires VisitPart(t, f, s, n, t.lists[d][i]) && KidsPart(t, f, u, |s|, d, i + 1)
    ensures NoDup(u[n..])
  {
    var e := t.lists[d][i];
    KidRank(t, d, i);
    forall a, b | n <= a < b < |u| ensures u[a] != u[b] {
      if b < |s| {
        assert s[n..][a - n] == u[a] && s[n..][b - n] == u[b];
      } else if a >= |s| {
        assert u[|s|..][a - |s|] == u[a] && u[|s|..][b - |s|] == u[b];
      } else {
        assert u[a] == s[a] && Below(t.parents, t.rank, u[a], e);
        assert UnderKid(t, u[b], d, i + 1);
        var m :| i + 1 <= m < |t.lists[d]| && Below(t.parents, t.rank, u[b], t.lists[d][m]);
        KidRank(t, d, m);
        assert NoDup(t.lists[d]);
        KidsApart(t, u[a], d, e, t.lists[d][m]);
      }
    }
  }

  lemma KidThenRestDone<D>(t: Shape<D>, f: Enter<D>, s: seq<D>, u: seq<D>, n: nat, d: D, i: nat)
    requires TreeShape(t) && d in t.parents && i < |t.lists[d]| && t.lists[d][i] !in t.cursors && s <= u
    requires VisitPart(t, f, s, n, t.lists[d][i]) && KidsPart(t, f, u, |s|, d, i + 1)
    requires VisitDone(t, f, s, n, t.lists[d][i]) && KidsDone(t, f, u, |s|, d, i + 1)
    requires KidsPart(t, f, u, n, d, i)
    ensures KidsDone(t, f, u, n, d, i)
  {
    SlicesAgree(u, n, |s|);
    assert u[n..|s|] == s[n..];
    assert u[n] == t.lists[d][i];
    assert u[n..][0] == u[n];
    forall m {:trigger t.lists[d][m]} | i <= m < |t.lists[d]| && t.lists[d][m] !in t.cursors
      ensures t.lists[d][m] in u[n..]
    {
      if m > i {
        assert t.lists[d][m] in u[|s|..];
      }
    }
    forall q | n <= q < |u| && Wanted(f, u, q) ensures Closed(t, u, n, q) {
      if q < |s| {
        assert s[..q] == u[..q];
        assert Closed(t, s, n, q);
      } else {
        assert Closed(t, u, |s|, q);
      }
    }
  }

  /** Passing over a cursor leaves the statement for the later children. */
  lemma CursorThenRest<D>(t: Shape<D>, f: Enter<D>, u: seq<D>, n: nat, d: D, i: nat)
    requires TreeShape(t) && d in t.parents && i < |t.lists[d]| && t.lists[d][i] in t.cursors
    requires KidsPart(t, f, u, n, d, i + 1)
    ensures KidsPart(t, f, u, n, d, i)
    ensures KidsDone(t, f, u, n, d, i + 1) ==> KidsDone(t, f, u, n, d, i)
  {
    forall j {:trigger u[j]} | n <= j < |u| ensures UnderKid(t, u[j], d, i) {
      assert UnderKid(t, u[j], d, i + 1);
    }
  }

  lemma KidAlone<D>(t: Shape<D>, f: Enter<D>, s: seq<D>, n: nat, d: D, i: nat)
    requires TreeShape(t) && d in t.parents && i < |t.lists[d]| && t.lists[d][i] !in t.cursors
    requires VisitPart(t, f, s, n, t.lists[d][i])
    ensures KidsPart(t, f, s, n, d, i)
  {
    assert s[|s|..] == [];
    KidThenRest(t, f, s, s, n, d, i);
  }

  lemma {:induction false} VisitExact<D>(t: Shape<D>, k: nat, f: Enter<D>, seen: seq<D>, d: D)
    requires TreeShape(t) && Exceeds(k, t.rank) && d in t.parents
    ensures var w := Visit(t, k, f, seen, d);
      && seen + [d] <= w.seen && VisitPart(t, f, w.seen, |seen|, d)
      && (!w.quit ==> VisitDone(t, f, w.seen, |seen|, d))
    decreases k - t.rank[d], 1, 0
  {
    var w := Visit(t, k, f, seen, d);
    assert (seen + [d])[..|seen|] == seen;
    if f(seen, d).Quit? || f(seen, d).Skip? {
      assert w.seen[|seen|..] == [d];
    } else {
      VisitKidsExact(t, k, f, seen + [d], d, 0);
      assert w.seen[..|seen|] == seen;
      KidsToVisit(t, f, w.seen, |seen|, d);
    }
  }

  lemma {:induction false} VisitKidsExact<D>(t: Shape<D>, k: nat, f: Enter<D>, seen: seq<D>, d: D, i: nat)
    requires TreeShape(t) && Exceeds(k, t.rank) && d in t.parents && i <= |t.lists[d]|
    ensures var w := VisitKids(t, k, f, seen, d, i);
      && seen <= w.seen && KidsPart(t, f, w.seen, |seen|, d, i)
      && (!w.quit ==> KidsDone(t, f, w.seen, |seen|, d, i))
    decreases k - t.rank[d], 0, |t.lists[d]| - i
  {
    if i == |t.lists[d]| {
      assert seen[|seen|..] == [];
    } else {
      KidRank(t, d, i);
      var e := t.lists[d][i];
      if e in t.cursors {
        VisitKidsExact(t, k, f, seen, d, i + 1);
        CursorThenRest(t, f, VisitKids(t, k, f, seen, d, i + 1).seen, |seen|, d, i);
      } else {
        VisitExact(t, k, f, seen, e);
        var w := Visit(t, k, f, seen, e);
        if w.quit {
          KidAlone(t, f, w.seen, |seen|, d, i);
        } else {
          VisitKidsExact(t, k, f, w.seen, d, i + 1);
          KidThenRest(t, f, w.seen, VisitKids(t, k, f, w.seen, d, i + 1).seen, |seen|, d, i);
        }
      }
    }
  }

  /** No entry from `n` up to `m` was answered with a quit. */
  predicate Unquit<D>(f: Enter<D>, s: seq<D>, n: nat, m: nat)
    requires m <= |s|
  {
    forall q {:trigger s[q]} :: n <= q < m ==> !f(s[..q], s[q]).Quit?
  }

  lemma UnquitLonger<D>(f: Enter<D>, s: seq<D>, u: seq<D>, n: nat, m: nat)
    requires s <= u && m <= |s| && Unquit(f, s, n, m)
    ensures Unquit(f, u, n, m)
  {
    forall q {:trigger u[q]} | n <= q < m
      ensures !f(u[..q], u[q]).Quit?
    {
      assert u[..q] == s[..q] && u[q] == s[q];
    }
  }

  /** A walk is quit exactly if its last entry was answered so, and no other ever is. */
  lemma {:induction false} QuitExact<D>(t: Shape<D>, k: nat, f: Enter<D>, seen: seq<D>, d: D)
    requires TreeShape(t) && Exceeds(k, t.rank) && d in t.parents
    ensures var w := Visit(t, k, f, seen, d); var e := |w.seen| - 1;
      && seen + [d] <= w.seen && Unquit(f, w.seen, |seen|, if w.quit then e else e + 1)
      && (w.quit ==> f(w.seen[..e], w.seen[e]).Quit?)
    decreases k - t.rank[d], 1, 0
  {
    var w := Visit(t, k, f, seen, d);
    assert (seen + [d])[..|seen|] == seen;
    if !f(seen, d).Quit? && !f(seen, d).Skip? {
      QuitKidsExact(t, k, f, seen + [d], d, 0);
      assert w.seen[..|seen|] == seen;
    }
  }

  lemma {:induction false} QuitKidsExact<D>(t: Shape<D>, k: nat, f: Enter<D>, seen: seq<D>, d: D, i: nat)
    requires TreeShape(t) && Exceeds(k, t.rank) && d in t.parents && i <= |t.lists[d]|
    ensures var w := VisitKids(t, k, f, seen, d, i); var e := |w.seen| - 1;
      && seen <= w.seen && (w.quit ==> |w.seen| > |seen| && f(w.seen[..e], w.seen[e]).Quit?)
      && Unquit(f, w.seen, |seen|, if w.quit then e else e + 1)
    decreases k - t.rank[d], 0, |t.lists[d]| - i
  {
    if i < |t.lists[d]| {
      KidRank(t, d, i);
      var e := t.lists[d][i];
      if e in t.cursors {
        QuitKidsExact(t, k, f, seen, d, i + 1);
      } else {
        QuitExact(t, k, f, seen, e);
        var w := Visit(t, k, f, seen, e);
        if !w.quit {
          QuitKidsExact(t, k, f, w.seen, d, i + 1);
          UnquitLonger(f, w.seen, VisitKids(t, k, f, w.seen, d, i + 1).seen, |seen|, |w.seen|);
        }
      }
    }
  }

  /** No dentry is entered twice, quit or not. */
  lemma EnteredOnce<D>(t: Shape<D>, k: nat, f: Enter<D>, root: D)
    requires TreeShape(t) && Exceeds(k, t.rank) && root in t.parents
    ensures NoDup(Visit(t, k, f, [], root).seen)
  {
    VisitExact(t, k, f, [], root);
    var s := Visit(t, k, f, [], root).seen;
    assert s[0..] == s;
  }

  ghost predicate WantedBelow<D>(f: Enter<D>, s: seq<D>, p: D) {
    exists q :: 0 <= q < |s| && s[q] == p && Wanted(f, s, q)
  }

  /**
   A walk that is not quit enters, besides its start, exactly the non-cursors whose parent it
   entered without being told to skip: it prunes precisely the subtrees answered with a skip.
   */
  lemma PrunesExactly<D>(t: Shape<D>, k: nat, f: Enter<D>, root: D, x: D)
    requires TreeShape(t) && Exceeds(k, t.rank) && root in t.parents && x in t.parents && x != root
    requires !Visit(t, k, f, [], root).quit
    ensures var s := Visit(t, k, f, [], root).seen;
      x in s <==> x !in t.cursors && t.parents[x] != x && WantedBelow(f, s, t.parents[x])
  {
    VisitExact(t, k, f, [], root);
    var s := Visit(t, k, f, [], root).seen;
    assert s[0..] == s;
    if x in s {
      var j: nat :| j < |s| && s[j] == x;
      assert Led(t, f, s, 0, j);
      var q :| 0 <= q < j && s[q] == t.parents[s[j]] && Wanted(f, s, q);
      assert s[q] != s[j];
    }
    if x !in t.cursors && t.parents[x] != x && WantedBelow(f, s, t.parents[x]) {
      var q :| 0 <= q < |s| && s[q] == t.parents[x] && Wanted(f, s, q);
      assert Closed(t, s, 0, q);
      assert OnParentsList(t.parents, t.lists, x);
    }
  }

  /** A callback that never skips or quits is shown every non-cursor of the subtree. */
  lemma {:induction false} SeesWholeSubtree<D>(t: Shape<D>, k: nat, f: Enter<D>, root: D, x: D)
    requires TreeShape(t) && Exceeds(k, t.rank) && root in t.parents && x in t.parents
    requires forall s: seq<D>, y: D :: f(s, y) == Continue || f(s, y) == NoRetry
    requires Below(t.parents, t.rank, x, root) && (x == root || x !in t.cursors)
    ensures x in Visit(t, k, f, [], root).seen
    decreases t.rank[x]
  {
    EagerNeverQuits(t, k, f, [], root);
    VisitExact(t, k, f, [], root);
    if x != root {
      assert Parented(t.parents, t.rank, x);
      ParentNoCursor(t.parents, t.rank, t.lists, t.cursors, x);
      SeesWholeSubtree(t, k, f, root, t.parents[x]);
      var s := Visit(t, k, f, [], root).seen;
      var q: nat :| q < |s| && s[q] == t.parents[x];
      assert Wanted(f, s, q);
      PrunesExactly(t, k, f, root, x);
    }
  }

  lemma {:induction false} EagerNeverQuits<D>(t: Shape<D>, k: nat, f: Enter<D>, seen: seq<D>, d: D)
    requires TreeShape(t) && Exceeds(k, t.rank) && d in t.parents
    requires forall s: seq<D>, y: D :: f(s, y) == Continue || f(s, y) == NoRetry
    ensures !Visit(t, k, f, seen, d).quit
    decreases k - t.rank[d], 1, 0
  {
    EagerKidsNeverQuit(t, k, f, seen + [d], d, 0);
  }

  lemma {:induction false} EagerKidsNeverQuit<D>(t: Shape<D>, k: nat, f: Enter<D>, seen: seq<D>, d: D, i: nat)
    requires TreeShape(t) && Exceeds(k, t.rank) && d in t.parents && i <= |t.lists[d]|
    requires forall s: seq<D>, y: D :: f(s, y) == Continue || f(s, y) == NoRetry
    ensures !VisitKids(t, k, f, seen, d, i).quit
    decreases k - t.rank[d], 0, |t.lists[d]| - i
  {
    if i < |t.lists[d]| {
      KidRank(t, d, i);
      var e := t.lists[d][i];
      if e in t.cursors {
        EagerKidsNeverQuit(t, k, f, seen, d, i + 1);
      } else {
        EagerNeverQuits(t, k, f, seen, e);
        EagerKidsNeverQuit(t, k, f, Visit(t, k, f, seen, e).seen, d, i + 1);
      }
    }
  }
}
