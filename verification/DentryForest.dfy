/**
 Parent pointers and child lists of the dentry cache as values (`fs/dcache.c`): what it means
 for them to form a forest, and why `__d_move` keeps one.
 */
module DentryForest {

  /** The parent is known, and lower in rank unless `x` is a root, which is its own parent. */
  ghost predicate Parented<D>(p: map<D, D>, rank: map<D, nat>, x: D)
    requires x in p && rank.Keys == p.Keys
  {
    p[x] in p && (p[x] == x || rank[p[x]] < rank[x])
  }

  /** `rank` grows from parent to child, so no chain of parents can close. */
  ghost predicate Ranked<D>(p: map<D, D>, rank: map<D, nat>) {
    rank.Keys == p.Keys && forall x {:trigger Parented(p, rank, x)} :: x in p ==> Parented(p, rank, x)
  }

  predicate IsRoot<D(==)>(p: map<D, D>, d: D)
    requires d in p
  {
    p[d] == d
  }

  /** `x` is `a` or lies somewhere below it. */
  ghost predicate Below<D>(p: map<D, D>, rank: map<D, nat>, x: D, a: D)
    requires Ranked(p, rank) && x in p
    decreases rank[x]
  {
    assert Parented(p, rank, x);
    x == a || (p[x] != x && Below(p, rank, p[x], a))
  }

  /** What `d_ancestor(a, x)` looks for: `a` strictly above `x`. */
  ghost predicate Above<D>(p: map<D, D>, rank: map<D, nat>, a: D, x: D)
    requires Ranked(p, rank) && x in p
  {
    x != a && Below(p, rank, x, a)
  }

  lemma {:induction false} BelowRank<D>(p: map<D, D>, rank: map<D, nat>, x: D, a: D)
    requires Ranked(p, rank) && x in p && Below(p, rank, x, a)
    ensures a in p && rank[a] <= rank[x]
    decreases rank[x]
  {
    assert Parented(p, rank, x);
    if x != a {
      BelowRank(p, rank, p[x], a);
    }
  }

  lemma BelowOnlyUp<D>(p: map<D, D>, rank: map<D, nat>, x: D, a: D)
    requires Ranked(p, rank) && x in p && a in p && rank[x] < rank[a]
    ensures !Below(p, rank, x, a)
  {
    if Below(p, rank, x, a) {
      BelowRank(p, rank, x, a);
    }
  }

  lemma {:induction false} BelowTransitive<D>(p: map<D, D>, rank: map<D, nat>, x: D, y: D, a: D)
    requires Ranked(p, rank) && x in p && Below(p, rank, x, y) && y in p && Below(p, rank, y, a)
    ensures Below(p, rank, x, a)
    decreases rank[x]
  {
    assert Parented(p, rank, x);
    if x != y {
      BelowTransitive(p, rank, p[x], y, a);
    }
  }

  /** Every chain of parents ends in a root. */
  lemma {:induction false} ReachesRoot<D>(p: map<D, D>, rank: map<D, nat>, x: D) returns (r: D)
    requires Ranked(p, rank) && x in p
    ensures r in p && IsRoot(p, r) && Below(p, rank, x, r)
    decreases rank[x]
  {
    assert Parented(p, rank, x);
    if p[x] == x {
      r := x;
    } else {
      r := ReachesRoot(p, rank, p[x]);
    }
  }

  // ----- __d_move on parent pointers -----

  /** The new parents: a root is spliced in place of the target, anything else changes places with it. */
  function Moved<D(==)>(p: map<D, D>, d: D, t: D): (q: map<D, D>)
    requires d in p && t in p
    ensures q.Keys == p.Keys
  {
    if p[d] == d then p[d := p[t]][t := t] else p[d := p[t]][t := p[d]]
  }

  /** Lifts the two subtrees above every rank in use, the moved one above the target's. */
  ghost function Lifted<D>(p: map<D, D>, rank: map<D, nat>, d: D, t: D, k: nat): (r: map<D, nat>)
    requires Ranked(p, rank)
    ensures r.Keys == p.Keys
  {
    map x | x in p :: rank[x] + if Below(p, rank, x, d) then 2 * k else if Below(p, rank, x, t) then k else 0
  }

  /** With neither dentry above the other, the new parent of each lies outside the subtree it is given. */
  lemma NewParentsOutside<D>(p: map<D, D>, rank: map<D, nat>, d: D, t: D)
    requires Ranked(p, rank) && d in p && t in p && d != t
    requires !Above(p, rank, d, t) && !Above(p, rank, t, d)
    ensures p[t] in p && p[t] != d && !Below(p, rank, p[t], d)
    ensures p[t] != t ==> !Below(p, rank, p[t], t)
  {
    assert Parented(p, rank, t);
    assert Below(p, rank, t, d) == (p[t] != t && Below(p, rank, p[t], d));
    if p[t] != t {
      BelowOnlyUp(p, rank, p[t], t);
    }
  }

  /** Lifting moves a dentry and its parent alike, unless the dentry tops one of the two subtrees. */
  lemma LiftedAlike<D>(p: map<D, D>, rank: map<D, nat>, d: D, t: D, k: nat, x: D)
    requires Ranked(p, rank) && x in p && x != d && x != t && p[x] != x
    ensures p[x] in p && Lifted(p, rank, d, t, k)[p[x]] < Lifted(p, rank, d, t, k)[x]
  {
    assert Parented(p, rank, x);
    assert Below(p, rank, x, d) == Below(p, rank, p[x], d);
    assert Below(p, rank, x, t) == Below(p, rank, p[x], t);
  }

  /**
   Moving keeps the forest, because neither dentry is above the other.  The target may even be
   a root: then the moved dentry ends up below it.
   */
  lemma MoveKeepsForest<D>(p: map<D, D>, rank: map<D, nat>, d: D, t: D, k: nat)
    requires Ranked(p, rank) && d in p && t in p && d != t
    requires !Above(p, rank, d, t) && !Above(p, rank, t, d)
    requires forall x :: x in p ==> rank[x] < k
    ensures Ranked(Moved(p, d, t), Lifted(p, rank, d, t, k))
  {
    var q, r := Moved(p, d, t), Lifted(p, rank, d, t, k);
    NewParentsOutside(p, rank, d, t);
    NewParentsOutside(p, rank, t, d);
    forall x | x in q
      ensures Parented(q, r, x)
    {
      assert Parented(p, rank, x);
      if x != d && x != t && p[x] != x {
        LiftedAlike(p, rank, d, t, k, x);
      }
    }
  }

  /** Chains of parents that avoid the two moved dentries survive the move. */
  lemma {:induction false} ChainSurvives<D>(p: map<D, D>, rank: map<D, nat>, q: map<D, D>, r: map<D, nat>, d: D, t: D,
                                            x: D)
    requires Ranked(p, rank) && Ranked(q, r) && q.Keys == p.Keys
    requires forall y :: y in p && y != d && y != t ==> q[y] == p[y]
    requires x in p && t in p && rank[x] < rank[t] && Below(p, rank, x, d)
    ensures Below(q, r, x, d)
    decreases rank[x]
  {
    assert Parented(p, rank, x);
    assert Parented(q, r, x);
    if x != d {
      ChainSurvives(p, rank, q, r, d, t, p[x]);
    }
  }

  /** Moving a dentry into the place of one deeper below it would tie a knot. */
  lemma MoveBelowItselfLoops<D>(p: map<D, D>, rank: map<D, nat>, d: D, t: D, r: map<D, nat>)
    requires Ranked(p, rank) && d in p && t in p && Above(p, rank, d, t) && p[t] != d
    ensures !Ranked(Moved(p, d, t), r)
  {
    var q := Moved(p, d, t);
    if Ranked(q, r) {
      assert Parented(p, rank, t);
      assert Parented(q, r, d);
      ChainSurvives(p, rank, q, r, d, t, p[t]);
      BelowRank(q, r, p[t], d);
    }
  }

  /** So would moving one into the place of a dentry more than one step above it. */
  lemma MoveAboveItselfLoops<D>(p: map<D, D>, rank: map<D, nat>, d: D, t: D, r: map<D, nat>)
    requires Ranked(p, rank) && d in p && t in p && Above(p, rank, t, d) && p[d] != t
    ensures !Ranked(Moved(p, d, t), r)
  {
    var q := Moved(p, d, t);
    if Ranked(q, r) {
      assert Parented(p, rank, d);
      assert Parented(q, r, t);
      ChainSurvives(p, rank, q, r, t, d, p[d]);
      BelowRank(q, r, p[d], t);
    }
  }

  /** Parent and child may change places as far as the parents go: the old ranks still fit. */
  lemma NeighboursStayRanked<D>(p: map<D, D>, rank: map<D, nat>, d: D, t: D)
    requires Ranked(p, rank) && d in p && t in p && d != t && (p[t] == d || p[d] == t)
    ensures Ranked(Moved(p, d, t), rank)
  {
    var q := Moved(p, d, t);
    assert Parented(p, rank, d) && Parented(p, rank, t);
    forall x | x in q
      ensures Parented(q, rank, x)
    {
      assert Parented(p, rank, x);
    }
  }

  ghost predicate Forest<D(!new)>(p: map<D, D>) { exists r :: Ranked(p, r) }

  /** The parents stay a forest exactly if neither dentry lies more than one step below the other. */
  lemma ForestIff<D(!new)>(p: map<D, D>, rank: map<D, nat>, d: D, t: D, k: nat)
    requires Ranked(p, rank) && d in p && t in p && d != t && forall x :: x in p ==> rank[x] < k
    ensures Forest(Moved(p, d, t)) <==>
      !(Above(p, rank, d, t) && p[t] != d) && !(Above(p, rank, t, d) && p[d] != t)
  {
    var q := Moved(p, d, t);
    if Above(p, rank, d, t) && p[t] != d {
      forall r ensures !Ranked(q, r) {
        MoveBelowItselfLoops(p, rank, d, t, r);
      }
    } else if Above(p, rank, t, d) && p[d] != t {
      forall r ensures !Ranked(q, r) {
        MoveAboveItselfLoops(p, rank, d, t, r);
      }
    } else if p[t] == d || p[d] == t {
      NeighboursStayRanked(p, rank, d, t);
    } else {
      MoveKeepsForest(p, rank, d, t, k);
    }
  }

  // ----- child lists -----

  ghost predicate NoDup<D>(s: seq<D>) {
    forall i, j :: 0 <= i < j < |s| ==> s[i] != s[j]
  }

  ghost predicate OnParentsList<D>(p: map<D, D>, subs: map<D, seq<D>>, c: D)
    requires c in p
  {
    p[c] in subs && c in subs[p[c]]
  }

  /**
   Lists hold only children of their owner, none twice; a dentry that is neither root nor cursor is
   on its parent's list.
   */
  ghost predicate Listed<D>(p: map<D, D>, subs: map<D, seq<D>>, cursors: set<D>) {
    && subs.Keys == p.Keys
    && (forall o, c {:trigger c in subs[o]} :: o in p && c in subs[o] ==> c in p && p[c] == o && c != o)
    && (forall o {:trigger subs[o]} :: o in p ==> NoDup(subs[o]))
    && (forall c {:trigger OnParentsList(p, subs, c)} :: c in p && p[c] != c && c !in cursors ==>
      OnParentsList(p, subs, c))
  }

  /** `list_del` of `c`. */
  function Without<D(==)>(s: seq<D>, c: D): seq<D> {
    if s == [] then [] else if s[0] == c then Without(s[1..], c) else [s[0]] + Without(s[1..], c)
  }

  lemma {:induction false} InWithout<D>(s: seq<D>, c: D, x: D)
    ensures x in Without(s, c) <==> x in s && x != c
  {
    if s != [] {
      InWithout(s[1..], c, x);
      assert x in s <==> x == s[0] || x in s[1..];
      assert x in [s[0]] + Without(s[1..], c) <==> x == s[0] || x in Without(s[1..], c);
    }
  }

  lemma WithoutContents<D>(s: seq<D>, c: D)
    ensures forall x :: x in Without(s, c) <==> x in s && x != c
  {
    forall x ensures x in Without(s, c) <==> x in s && x != c {
      InWithout(s, c, x);
    }
  }

  lemma {:induction false} WithoutNoDup<D>(s: seq<D>, c: D)
    requires NoDup(s)
    ensures NoDup(Without(s, c))
  {
    if s != [] {
      assert forall i, j :: 0 <= i < j < |s[1..]| ==> s[1..][i] == s[i + 1] && s[1..][j] == s[j + 1];
      WithoutNoDup(s[1..], c);
      WithoutContents(s[1..], c);
      assert s[0] !in s[1..];
    }
  }

  /** `list_del_init` of a dentry that becomes a root. */
  lemma ListDelUnlists<D>(p: map<D, D>, subs: map<D, seq<D>>, cursors: set<D>, c: D)
    requires Listed(p, subs, cursors) && c in p && p[c] in p
    ensures Listed(p[c := c], subs[p[c] := Without(subs[p[c]], c)], cursors)
  {
    var q, r := p[c := c], subs[p[c] := Without(subs[p[c]], c)];
    WithoutContents(subs[p[c]], c);
    WithoutNoDup(subs[p[c]], c);
    assert r[p[c]] == Without(subs[p[c]], c);
    forall o, x | o in q && x in r[o]
      ensures x in q && q[x] == o && x != o
    {
      InWithout(subs[p[c]], c, x);
      assert x in subs[o];
    }
    forall x | x in q && q[x] != x && x !in cursors
      ensures OnParentsList(q, r, x)
    {
      assert OnParentsList(p, subs, x);
    }
  }

  /** `list_add` of a root below `o`. */
  lemma ListAddLists<D>(p: map<D, D>, subs: map<D, seq<D>>, cursors: set<D>, c: D, o: D)
    requires Listed(p, subs, cursors) && c in p && o in p && o != c && p[c] == c
    ensures Listed(p[c := o], subs[o := [c] + subs[o]], cursors)
  {
    var q, r := p[c := o], subs[o := [c] + subs[o]];
    assert c !in subs[o];
    assert NoDup(r[o]);
    assert r[o][0] == c;
    forall x | x in q && q[x] != x && x !in cursors
      ensures OnParentsList(q, r, x)
    {
      if x != c {
        assert OnParentsList(p, subs, x);
      }
    }
  }

  /** `list_move(&c->d_child, &o->d_subdirs)`: off its old list, if any, and to the front of the list of `o`. */
  function ListMoved<D(==)>(subs: map<D, seq<D>>, from: D, c: D, o: D): (r: map<D, seq<D>>)
    requires from in subs && o in subs
    ensures r.Keys == subs.Keys
  {
    var off := subs[from := Without(subs[from], c)];
    off[o := [c] + off[o]]
  }

  /** Moving a dentry to the list of its new parent. */
  lemma ListMoveRelists<D>(p: map<D, D>, subs: map<D, seq<D>>, cursors: set<D>, c: D, o: D)
    requires Listed(p, subs, cursors) && c in p && p[c] in p && o in p && o != c
    ensures Listed(p[c := o], ListMoved(subs, p[c], c, o), cursors)
  {
    var off := subs[p[c] := Without(subs[p[c]], c)];
    ListDelUnlists(p, subs, cursors, c);
    ListAddLists(p[c := c], off, cursors, c, o);
    assert p[c := o] == p[c := c][c := o];
  }

  /** The child lists after `__d_move`. */
  function MovedLists<D(==)>(p: map<D, D>, subs: map<D, seq<D>>, d: D, t: D): map<D, seq<D>>
    requires d in p && t in p && subs.Keys == p.Keys && p[d] in p && p[t] in p
  {
    if p[d] == d then ListMoved(subs[p[t] := Without(subs[p[t]], t)], p[d], d, p[t])
    else ListMoved(ListMoved(subs, p[t], t, p[d]), p[d], d, p[t])
  }

  lemma MoveKeepsLists<D>(p: map<D, D>, subs: map<D, seq<D>>, cursors: set<D>, d: D, t: D)
    requires Listed(p, subs, cursors) && d in p && t in p && p[d] in p && p[t] in p
    requires d != t && p[t] != d && (p[d] == d || p[d] != t)
    ensures Listed(Moved(p, d, t), MovedLists(p, subs, d, t), cursors)
  {
    if p[d] == d {
      ListDelUnlists(p, subs, cursors, t);
      ListMoveRelists(p[t := t], subs[p[t] := Without(subs[p[t]], t)], cursors, d, p[t]);
      assert Moved(p, d, t) == p[t := t][d := p[t]];
    } else {
      ListMoveRelists(p, subs, cursors, t, p[d]);
      ListMoveRelists(p[t := p[d]], ListMoved(subs, p[t], t, p[d]), cursors, d, p[t]);
      assert Moved(p, d, t) == p[t := p[d]][d := p[t]];
    }
  }

  /** What the move does to the parents, dentry by dentry. */
  lemma MovedParents<D>(p: map<D, D>, d: D, t: D, x: D)
    requires d in p && t in p && d != t && x in p
    ensures Moved(p, d, t)[x] == if x == d then p[t] else if x == t then (if p[d] == d then t else p[d]) else p[x]
  {
  }

  lemma {:induction false} WithoutNone<D>(s: seq<D>, c: D)
    requires c !in s
    ensures Without(s, c) == s
  {
    if s != [] {
      WithoutNone(s[1..], c);
      assert s == [s[0]] + s[1..];
    }
  }

  lemma WithoutFront<D>(s: seq<D>, x: D, c: D)
    requires x != c
    ensures Without([x] + s, c) == [x] + Without(s, c)
  {
    assert ([x] + s)[1..] == s;
  }

  /** A list after the move: `d` in front where it arrives, `t` where it does, both gone from where they were. */
  function Relisted<D(==)>(s: seq<D>, d: D, t: D, gainsD: bool, gainsT: bool): seq<D> {
    (if gainsD then [d] else []) + (if gainsT then [t] else []) + Without(Without(s, t), d)
  }

  lemma RelistedMembers<D>(s: seq<D>, d: D, t: D, gainsD: bool, gainsT: bool, c: D)
    requires d != t
    ensures c in Relisted(s, d, t, gainsD, gainsT) <==>
      if c == d then gainsD else if c == t then gainsT else c in s
  {
    InWithout(Without(s, t), d, c);
    InWithout(s, t, c);
  }

  /** Only the list of its parent holds a dentry. */
  lemma NotElsewhere<D>(p: map<D, D>, subs: map<D, seq<D>>, cursors: set<D>, c: D, o: D)
    requires Listed(p, subs, cursors) && c in p && o in p && (p[c] != o || c == o)
    ensures c !in subs[o]
  {
  }

  /** What the move does to the lists, dentry by dentry. */
  lemma MovedListsAre<D>(p: map<D, D>, subs: map<D, seq<D>>, cursors: set<D>, d: D, t: D, o: D)
    requires Listed(p, subs, cursors) && d in p && t in p && p[d] in p && p[t] in p && o in p && d != t
    ensures MovedLists(p, subs, d, t)[o] == Relisted(subs[o], d, t, o == p[t], p[d] != d && o == p[d])
  {
    var w := Without(subs[o], t);
    if o != p[t] {
      NotElsewhere(p, subs, cursors, t, o);
      WithoutNone(subs[o], t);
    }
    InWithout(subs[o], t, d);
    if o != p[d] || o == d {
      NotElsewhere(p, subs, cursors, d, o);
      WithoutNone(w, d);
    }
    if p[d] != d && o == p[d] {
      WithoutFront(w, t, d);
    }
  }

  /** Parent and child that change places leave the parent on its own list. */
  lemma NeighboursSpoilLists<D>(p: map<D, D>, subs: map<D, seq<D>>, cursors: set<D>, d: D, t: D)
    requires Listed(p, subs, cursors) && d in p && t in p && p[d] in p && p[t] in p
    requires d != t && (p[t] == d || p[d] == t)
    ensures !Listed(Moved(p, d, t), MovedLists(p, subs, d, t), cursors)
  {
    var lists := MovedLists(p, subs, d, t);
    if p[t] == d {
      assert lists[d][0] == d;
      assert d in lists[d];
    } else {
      var one := ListMoved(subs, p[t], t, p[d]);
      assert one[t][0] == t;
      InWithout(one[t], d, t);
      assert t in lists[t];
    }
  }

  /**
   The two BUG_ONs are exact: the move leaves a forest with lists that agree if and only if neither
   is above the other.
   */
  lemma GuardIff<D(!new)>(p: map<D, D>, rank: map<D, nat>, subs: map<D, seq<D>>, cursors: set<D>, d: D, t: D, k: nat)
    requires Ranked(p, rank) && Listed(p, subs, cursors) && d in p && t in p && d != t
    requires forall x :: x in p ==> rank[x] < k
    ensures p[d] in p && p[t] in p
    ensures Forest(Moved(p, d, t)) && Listed(Moved(p, d, t), MovedLists(p, subs, d, t), cursors) <==>
      !Above(p, rank, d, t) && !Above(p, rank, t, d)
  {
    assert Parented(p, rank, d) && Parented(p, rank, t);
    ForestIff(p, rank, d, t, k);
    if p[t] == d || p[d] == t {
      NeighboursSpoilLists(p, subs, cursors, d, t);
      assert Below(p, rank, d, d) && Below(p, rank, t, t);
    } else if !Above(p, rank, d, t) && !Above(p, rank, t, d) {
      MoveKeepsLists(p, subs, cursors, d, t);
    }
  }

  /** A dentry is on at most one list, and there once. */
  lemma OnOneList<D>(p: map<D, D>, subs: map<D, seq<D>>, cursors: set<D>, c: D, o1: D, o2: D, i: nat, j: nat)
    requires Listed(p, subs, cursors) && o1 in p && o2 in p
    requires i < |subs[o1]| && j < |subs[o2]| && subs[o1][i] == c == subs[o2][j]
    ensures o1 == o2 && i == j
  {
    assert c in subs[o1] && c in subs[o2];
  }
}
