/**
 `d_walk`: the stackless walk over the dentry tree, with no concurrent rename.  The recursive
 walk is the reference; the loop with its three jump targets is proved to follow it.
 */
module DcacheWalk {
  import opened DentryForest
  import opened DcacheTree

  datatype Answer = Continue | Quit | NoRetry | Skip

  /** The callback: it may remember everything it has been shown. */
  type Enter<!D> = (seq<D>, D) -> Answer

  datatype Walk<D> = Walk(seen: seq<D>, quit: bool)

  lemma KidRank<D>(t: Shape<D>, d: D, i: nat)
    requires TreeShape(t) && d in t.parents && i < |t.lists[d]|
    ensures var e := t.lists[d][i]; e in t.parents && e != d && t.parents[e] == d && t.rank[d] < t.rank[e]
  {
    var e := t.lists[d][i];
    assert e in t.lists[d];
    assert Parented(t.parents, t.rank, e);
  }

  /** Enter `d`, then, unless told otherwise, everything below it. */
  ghost function Visit<D>(t: Shape<D>, k: nat, f: Enter<D>, seen: seq<D>, d: D): (w: Walk<D>)
    requires TreeShape(t) && Exceeds(k, t.rank) && d in t.parents
    decreases k - t.rank[d], 1, 0
  {
    match f(seen, d)
    case Quit => Walk(seen + [d], true)
    case Skip => Walk(seen + [d], false)
    case _ => VisitKids(t, k, f, seen + [d], d, 0)
  }

  /** The children of `d` from number `i` on, cursors left out. */
  ghost function VisitKids<D>(t: Shape<D>, k: nat, f: Enter<D>, seen: seq<D>, d: D, i: nat): (w: Walk<D>)
    requires TreeShape(t) && Exceeds(k, t.rank) && d in t.parents && i <= |t.lists[d]|
    decreases k - t.rank[d], 0, |t.lists[d]| - i
  {
    if i == |t.lists[d]| then Walk(seen, false)
    else
      KidRank(t, d, i);
      var e := t.lists[d][i];
      if e in t.cursors then VisitKids(t, k, f, seen, d, i + 1)
      else
        var w := Visit(t, k, f, seen, e);
        if w.quit then w else VisitKids(t, k, f, w.seen, d, i + 1)
  }

  function IndexOf<D(==)>(s: seq<D>, c: D): (i: nat)
    requires c in s
    ensures i < |s| && s[i] == c
  {
    if s[0] == c then 0 else 1 + IndexOf(s[1..], c)
  }

  /** A dentry the walk has descended to from `root`. */
  ghost predicate OnPath<D>(t: Shape<D>, d: D, root: D)
    requires TreeShape(t)
  {
    d in t.parents && Below(t.parents, t.rank, d, root) && (d == root || d !in t.cursors)
  }

  lemma StepUp<D>(t: Shape<D>, d: D, root: D)
    requires TreeShape(t) && OnPath(t, d, root) && d != root
    ensures OnPath(t, t.parents[d], root) && d in t.lists[t.parents[d]]
    ensures t.parents[d] != d && t.rank[t.parents[d]] < t.rank[d]
  {
    assert Parented(t.parents, t.rank, d);
    assert OnParentsList(t.parents, t.lists, d);
    ParentNoCursor(t.parents, t.rank, t.lists, t.cursors, d);
  }

  /** What is left to do with the walk at child `i` of `d`: finish there, then go on behind it, up to `root`. */
  ghost function Resume<D>(t: Shape<D>, k: nat, f: Enter<D>, seen: seq<D>, d: D, i: nat, root: D): (w: Walk<D>)
    requires TreeShape(t) && Exceeds(k, t.rank) && OnPath(t, d, root) && i <= |t.lists[d]|
    decreases t.rank[d]
  {
    var w := VisitKids(t, k, f, seen, d, i);
    if w.quit || d == root then w
    else
      StepUp(t, d, root);
      Resume(t, k, f, w.seen, t.parents[d], IndexOf(t.lists[t.parents[d]], d) + 1, root)
  }

  /** Size of the part of the tree below `d`, from child `i` on. */
  ghost function Work<D>(t: Shape<D>, k: nat, d: D, i: nat): nat
    requires TreeShape(t) && Exceeds(k, t.rank) && d in t.parents && i <= |t.lists[d]|
    decreases k - t.rank[d], |t.lists[d]| - i
  {
    if i == |t.lists[d]| then 0
    else
      KidRank(t, d, i);
      2 + Work(t, k, t.lists[d][i], 0) + Work(t, k, d, i + 1)
  }

  ghost function Left<D>(t: Shape<D>, k: nat, d: D, i: nat, root: D): nat
    requires TreeShape(t) && Exceeds(k, t.rank) && OnPath(t, d, root) && i <= |t.lists[d]|
    decreases t.rank[d]
  {
    Work(t, k, d, i) +
    if d == root then 0
    else
      StepUp(t, d, root);
      1 + Left(t, k, t.parents[d], IndexOf(t.lists[t.parents[d]], d) + 1, root)
  }

  /** Going down to a child: the rest of the walk is the same, and smaller. */
  lemma Descend<D>(t: Shape<D>, k: nat, f: Enter<D>, seen: seq<D>, d: D, i: nat, root: D)
    requires TreeShape(t) && Exceeds(k, t.rank) && OnPath(t, d, root) && i < |t.lists[d]|
    requires var e := t.lists[d][i]; e !in t.cursors && e != root && !f(seen, e).Quit? && !f(seen, e).Skip?
    ensures var e := t.lists[d][i];
      && OnPath(t, e, root)
      && Resume(t, k, f, seen + [e], e, 0, root) == Resume(t, k, f, seen, d, i, root)
      && Left(t, k, e, 0, root) < Left(t, k, d, i, root)
  {
    var e := t.lists[d][i];
    KidRank(t, d, i);
    assert Parented(t.parents, t.rank, e);
    StepUp(t, e, root);
    ListPosition(t, d, i);
    var w := VisitKids(t, k, f, seen + [e], e, 0);
    assert Visit(t, k, f, seen, e) == w;
  }

  /** Stepping over a cursor, or over a child that has been entered and needs no descent. */
  lemma PassOver<D>(t: Shape<D>, k: nat, f: Enter<D>, seen: seq<D>, d: D, i: nat, root: D)
    requires TreeShape(t) && Exceeds(k, t.rank) && OnPath(t, d, root) && i < |t.lists[d]|
    ensures Left(t, k, d, i + 1, root) < Left(t, k, d, i, root)
    ensures var e := t.lists[d][i];
      && e in t.parents
      && (e in t.cursors ==> Resume(t, k, f, seen, d, i + 1, root) == Resume(t, k, f, seen, d, i, root))
      && (e !in t.cursors && !f(seen, e).Quit? && (f(seen, e).Skip? || t.lists[e] == []) ==>
            Resume(t, k, f, seen + [e], d, i + 1, root) == Resume(t, k, f, seen, d, i, root))
      && (e !in t.cursors && f(seen, e).Quit? ==> Resume(t, k, f, seen, d, i, root) == Walk(seen + [e], true))
  {
    var e := t.lists[d][i];
    KidRank(t, d, i);
    var w := VisitKids(t, k, f, seen, d, i);
    if e !in t.cursors {
      var v := Visit(t, k, f, seen, e);
      assert w == if v.quit then v else VisitKids(t, k, f, v.seen, d, i + 1);
      if f(seen, e).Quit? {
        assert v == Walk(seen + [e], true);
      } else if f(seen, e).Skip? {
        assert v == Walk(seen + [e], false);
      } else if t.lists[e] == [] {
        assert v == VisitKids(t, k, f, seen + [e], e, 0);
      }
    }
  }

  /** Going back up to the parent, behind the child just finished. */
  lemma Ascend<D>(t: Shape<D>, k: nat, f: Enter<D>, seen: seq<D>, d: D, root: D)
    requires TreeShape(t) && Exceeds(k, t.rank) && OnPath(t, d, root) && d != root
    ensures d in t.parents && t.parents[d] in t.parents && d in t.lists[t.parents[d]]
    ensures OnPath(t, t.parents[d], root)
    ensures var i := IndexOf(t.lists[t.parents[d]], d) + 1;
      && Resume(t, k, f, seen, t.parents[d], i, root) == Resume(t, k, f, seen, d, |t.lists[d]|, root)
      && Left(t, k, t.parents[d], i, root) < Left(t, k, d, |t.lists[d]|, root)
  {
    StepUp(t, d, root);
  }

  lemma ListPosition<D>(t: Shape<D>, d: D, i: nat)
    requires TreeShape(t) && d in t.parents && i < |t.lists[d]|
    ensures IndexOf(t.lists[d], t.lists[d][i]) == i
  {
    assert NoDup(t.lists[d]);
  }

  lemma RootIsNoKid<D>(t: Shape<D>, d: D, i: nat, root: D)
    requires TreeShape(t) && OnPath(t, d, root) && i < |t.lists[d]|
    ensures t.lists[d][i] != root
  {
    KidRank(t, d, i);
    BelowRank(t.parents, t.rank, d, root);
  }

  /**
   `d_walk(parent, enter, finish)`: what is entered, and whether `finish` is called.
   */
  method DWalk(cache: Dcache, parent: Dentry, enter: Enter<Dentry>, ghost k: nat)
    returns (seen: seq<Dentry>, finished: bool)
    requires cache.Valid() && parent in cache.tree.parents.Keys && Exceeds(k, cache.tree.rank)
    ensures cache.Valid() && parent in cache.tree.parents.Keys
    ensures var w := Visit(cache.tree, k, enter, [], parent);
      seen == w.seen && (finished <==> !w.quit && !enter([], parent).Skip?)
  {
    ghost var t := cache.tree;
    var ret := enter([], parent);
    seen, finished := [parent], false;
    if ret.Quit? || ret.Skip? {
      return;
    }
    var thisParent, next: nat := parent, 0;
    assert [] + [parent] == seen;
    ghost var goal := VisitKids(t, k, enter, seen, parent, 0);
    assert Fits(t, thisParent);
    while true
      invariant OnPath(t, thisParent, parent) && Fits(t, thisParent) && next <= |thisParent.subdirs|
      invariant Resume(t, k, enter, seen, thisParent, next, parent) == goal
      decreases Left(t, k, thisParent, next, parent)
    {
      if next < |thisParent.subdirs| {
        var dentry := thisParent.subdirs[next];
        KidRank(t, thisParent, next);
        PassOver(t, k, enter, seen, thisParent, next, parent);
        assert Fits(t, dentry);
        if dentry.cursor {
          next := next + 1;
        } else {
          ret := enter(seen, dentry);
          if ret.Quit? {
            seen := seen + [dentry];
            return;
          } else if ret.Skip? || dentry.subdirs == [] {
            seen := seen + [dentry];
            next := next + 1;
          } else {
            RootIsNoKid(t, thisParent, next, parent);
            Descend(t, k, enter, seen, thisParent, next, parent);
            seen := seen + [dentry];
            thisParent, next := dentry, 0;
          }
        }
      } else if thisParent != parent {
        Ascend(t, k, enter, seen, thisParent, parent);
        var child := thisParent;
        thisParent := child.parent;
        assert Fits(t, thisParent);
        next := IndexOf(thisParent.subdirs, child) + 1;
      } else {
        finished := true;
        return;
      }
    }
  }
}
