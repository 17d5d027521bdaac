/**
 The dentry tree on the heap (`fs/dcache.c`): allocation, `d_ancestor`, `__d_move`,
 `d_exchange` and `d_splice_alias` under `rename_lock`.
 */
module DcacheTree {
  import opened DentryForest

  class Dentry {
    var parent: Dentry          // d_parent
    var subdirs: seq<Dentry>    // d_subdirs, first entry first
    var name: string
    const cursor: bool          // DCACHE_DENTRY_CURSOR

    /** `__d_alloc`: a dentry starts as its own parent, on no list. */
    constructor (name: string, cursor: bool)
      ensures parent == this && subdirs == [] && this.name == name && this.cursor == cursor
    {
      this.parent := this;
      this.subdirs := [];
      this.name := name;
      this.cursor := cursor;
    }
  }

  /** Parents, child lists, cursors, and a ranking that shows the parents to be acyclic. */
  datatype Shape<D> = Shape(parents: map<D, D>, lists: map<D, seq<D>>, cursors: set<D>, rank: map<D, nat>)

  ghost predicate Tree<D>(p: map<D, D>, rank: map<D, nat>, s: map<D, seq<D>>, cursors: set<D>) {
    && Ranked(p, rank) && Listed(p, s, cursors) && cursors <= p.Keys
    && (forall c :: c in cursors ==> s[c] == [])
  }

  ghost predicate TreeShape<D>(t: Shape<D>) { Tree(t.parents, t.rank, t.lists, t.cursors) }

  /** `__d_alloc` adds a root. */
  lemma RootJoins<D>(p: map<D, D>, rank: map<D, nat>, s: map<D, seq<D>>, cursors: set<D>, d: D)
    requires Tree(p, rank, s, cursors) && d !in p
    ensures Tree(p[d := d], rank[d := 0], s[d := []], cursors)
  {
    var q, r := p[d := d], rank[d := 0];
    forall x | x in q ensures Parented(q, r, x) {
      if x != d {
        assert Parented(p, rank, x);
      }
    }
    forall x | x in q && q[x] != x && x !in cursors ensures OnParentsList(q, s[d := []], x) {
      assert OnParentsList(p, s, x);
    }
  }

  function WithRoot<D(==)>(t: Shape<D>, d: D): Shape<D> {
    t.(parents := t.parents[d := d], lists := t.lists[d := []], rank := t.rank[d := 0])
  }

  /** A new leaf gets a parent. */
  lemma LeafRanked<D>(p: map<D, D>, rank: map<D, nat>, d: D, o: D)
    requires Ranked(p, rank) && d !in p && o in p
    ensures Ranked(p[d := o], rank[d := rank[o] + 1])
  {
    var q, r := p[d := o], rank[d := rank[o] + 1];
    forall x | x in q ensures Parented(q, r, x) {
      if x != d {
        assert Parented(p, rank, x);
      }
    }
  }

  /** `d_alloc` links it into the list of children. */
  function WithLeaf<D(==)>(t: Shape<D>, d: D, o: D): Shape<D>
    requires o in t.lists && o in t.rank && o != d
  {
    Shape(t.parents[d := o], t.lists[d := []][o := [d] + t.lists[o]], t.cursors, t.rank[d := t.rank[o] + 1])
  }

  lemma LeafJoins<D>(t: Shape<D>, d: D, o: D)
    requires TreeShape(t) && d !in t.parents && o in t.parents && o !in t.cursors
    ensures TreeShape(WithLeaf(t, d, o))
  {
    LeafRanked(t.parents, t.rank, d, o);
    RootJoins(t.parents, t.rank, t.lists, t.cursors, d);
    ListAddLists(t.parents[d := d], t.lists[d := []], t.cursors, d, o);
    assert t.parents[d := d][d := o] == t.parents[d := o];
  }

  /** `d_alloc_cursor` does not. */
  function WithCursor<D(==)>(t: Shape<D>, d: D, o: D): Shape<D>
    requires o in t.rank
  {
    Shape(t.parents[d := o], t.lists[d := []], t.cursors + {d}, t.rank[d := t.rank[o] + 1])
  }

  lemma CursorJoins<D>(t: Shape<D>, d: D, o: D)
    requires TreeShape(t) && d !in t.parents && o in t.parents
    ensures TreeShape(WithCursor(t, d, o))
  {
    LeafRanked(t.parents, t.rank, d, o);
    var u := WithCursor(t, d, o);
    forall x | x in u.parents && u.parents[x] != x && x !in u.cursors ensures OnParentsList(u.parents, u.lists, x) {
      assert OnParentsList(t.parents, t.lists, x);
    }
  }

  /** `__d_move` keeps the tree, with ranks lifted above `k`. */
  lemma MoveKeepsTree<D>(p: map<D, D>, rank: map<D, nat>, s: map<D, seq<D>>, cursors: set<D>, d: D, t: D, k: nat)
    requires Tree(p, rank, s, cursors) && d in p && t in p && d != t && d !in cursors && t !in cursors
    requires !Above(p, rank, d, t) && !Above(p, rank, t, d)
    requires p[d] !in cursors && p[t] !in cursors
    requires forall x :: x in p ==> rank[x] < k
    ensures p[d] in p && p[t] in p
    ensures Tree(Moved(p, d, t), Lifted(p, rank, d, t, k), MovedLists(p, s, d, t), cursors)
  {
    MoveKeepsForest(p, rank, d, t, k);
    NewParentsOutside(p, rank, d, t);
    NewParentsOutside(p, rank, t, d);
    MoveKeepsLists(p, s, cursors, d, t);
    forall c | c in cursors ensures MovedLists(p, s, d, t)[c] == [] {
    }
  }

  /** A dentry without children on its list is above no other, except perhaps above cursors. */
  lemma {:induction false} ChildlessAboveNone<D>(p: map<D, D>, rank: map<D, nat>, s: map<D, seq<D>>, cursors: set<D>,
                                                 a: D, x: D)
    requires Tree(p, rank, s, cursors) && a in p && x in p && s[a] == [] && x !in cursors
    ensures !Above(p, rank, a, x)
    decreases rank[x]
  {
    assert Parented(p, rank, x);
    if p[x] != x {
      assert OnParentsList(p, s, x);
      ParentNoCursor(p, rank, s, cursors, x);
      ChildlessAboveNone(p, rank, s, cursors, a, p[x]);
    }
  }

  lemma ParentNoCursor<D>(p: map<D, D>, rank: map<D, nat>, s: map<D, seq<D>>, cursors: set<D>, x: D)
    requires Tree(p, rank, s, cursors) && x in p && x !in cursors
    ensures p[x] in p && p[x] !in cursors
  {
    assert Parented(p, rank, x);
    if p[x] != x {
      assert OnParentsList(p, s, x);
    }
  }

  /** Exchanging twice puts every parent back. */
  lemma ExchangeTwice<D>(p: map<D, D>, rank: map<D, nat>, d: D, t: D)
    requires Ranked(p, rank) && d in p && t in p && d != t && p[d] != d && p[t] != t
    requires !Above(p, rank, d, t) && !Above(p, rank, t, d)
    ensures Moved(p, d, t) != p ==> p[d] != p[t]
    ensures Moved(Moved(p, d, t), d, t) == p
  {
    NewParentsOutside(p, rank, d, t);
    NewParentsOutside(p, rank, t, d);
  }

  lemma {:induction false} RankBound<D>(rank: map<D, nat>, keys: set<D>) returns (k: nat)
    requires keys <= rank.Keys
    ensures forall x :: x in keys ==> rank[x] < k
    decreases keys
  {
    if keys == {} {
      k := 0;
    } else {
      var x :| x in keys;
      k := RankBound(rank, keys - {x});
      k := if k <= rank[x] then rank[x] + 1 else k;
    }
  }

  /** The tree after `__d_move` has switched `d` and `t`. */
  function Switched<D(==)>(t: Shape<D>, d: D, tgt: D): Shape<D>
    requires d in t.parents && tgt in t.parents && t.lists.Keys == t.parents.Keys
    requires t.parents[d] in t.parents && t.parents[tgt] in t.parents
  {
    t.(parents := Moved(t.parents, d, tgt), lists := MovedLists(t.parents, t.lists, d, tgt))
  }

  /** Ranks that keep the tree ranked through a move. */
  lemma LiftForMove<D>(t: Shape<D>, d: D, tgt: D) returns (lifted: map<D, nat>)
    requires TreeShape(t) && d in t.parents && tgt in t.parents && d != tgt
    requires d !in t.cursors && tgt !in t.cursors
    requires !Above(t.parents, t.rank, d, tgt) && !Above(t.parents, t.rank, tgt, d)
    ensures t.parents[d] in t.parents && t.parents[tgt] in t.parents
    ensures TreeShape(Switched(t, d, tgt).(rank := lifted))
  {
    ParentNoCursor(t.parents, t.rank, t.lists, t.cursors, d);
    ParentNoCursor(t.parents, t.rank, t.lists, t.cursors, tgt);
    var k := RankBound(t.rank, t.rank.Keys);
    MoveKeepsTree(t.parents, t.rank, t.lists, t.cursors, d, tgt, k);
    lifted := Lifted(t.parents, t.rank, d, tgt, k);
  }

  // ----- whole runs -----

  datatype Op<D> = Root(d: D) | Leaf(d: D, o: D) | Cursor(d: D, o: D) | Move(d: D, target: D)

  /** What a caller may ask for: new dentries are new, and only real dentries are moved or get children. */
  ghost predicate Allowed<D>(t: Shape<D>, op: Op<D>) {
    match op
    case Root(d) => d !in t.parents
    case Leaf(d, o) => d !in t.parents && o in t.parents && o !in t.cursors
    case Cursor(d, o) => d !in t.parents && o in t.parents && o !in t.cursors
    case Move(d, g) => d in t.parents && g in t.parents && d != g && d !in t.cursors && g !in t.cursors
  }

  ghost predicate Exceeds<D>(k: nat, rank: map<D, nat>) { forall x :: x in rank ==> rank[x] < k }

  /** One step: `u` is the tree after `op`; a move that trips a BUG_ON changes nothing. */
  ghost predicate Step<D>(t: Shape<D>, op: Op<D>, u: Shape<D>)
    requires TreeShape(t) && Allowed(t, op)
  {
    match op
    case Root(d) => u == WithRoot(t, d)
    case Leaf(d, o) => u == WithLeaf(t, d, o)
    case Cursor(d, o) => u == WithCursor(t, d, o)
    case Move(d, g) =>
      if Above(t.parents, t.rank, d, g) || Above(t.parents, t.rank, g, d) then u == t
      else
        && t.parents[d] in t.parents && t.parents[g] in t.parents
        && exists k: nat :: Exceeds(k, t.rank) && u == Switched(t, d, g).(rank := Lifted(t.parents, t.rank, d, g, k))
  }

  /** Every step of any kind keeps the tree. */
  lemma StepKeepsTree<D>(t: Shape<D>, op: Op<D>, u: Shape<D>)
    requires TreeShape(t) && Allowed(t, op) && Step(t, op, u)
    ensures TreeShape(u)
  {
    match op
    case Root(d) => RootJoins(t.parents, t.rank, t.lists, t.cursors, d);
    case Leaf(d, o) => LeafJoins(t, d, o);
    case Cursor(d, o) => CursorJoins(t, d, o);
    case Move(d, g) =>
      if !(Above(t.parents, t.rank, d, g) || Above(t.parents, t.rank, g, d)) {
        var k: nat :| Exceeds(k, t.rank) && u == Switched(t, d, g).(rank := Lifted(t.parents, t.rank, d, g, k));
        ParentNoCursor(t.parents, t.rank, t.lists, t.cursors, d);
        ParentNoCursor(t.parents, t.rank, t.lists, t.cursors, g);
        MoveKeepsTree(t.parents, t.rank, t.lists, t.cursors, d, g, k);
      }
  }

  /** `trees` is a run of the operations `ops`. */
  ghost predicate Run<D>(trees: seq<Shape<D>>, ops: seq<Op<D>>) {
    && |trees| == |ops| + 1 && TreeShape(trees[0])
    && forall i :: 0 <= i < |ops| ==> TreeShape(trees[i]) ==>
      Allowed(trees[i], ops[i]) && Step(trees[i], ops[i], trees[i + 1])
  }

  /** Over any run of allocations, moves, exchanges and splices the dentries stay a tree. */
  lemma {:induction false} TreeAlways<D>(trees: seq<Shape<D>>, ops: seq<Op<D>>, i: nat)
    requires Run(trees, ops) && i < |trees|
    ensures TreeShape(trees[i])
  {
    if i > 0 {
      TreeAlways(trees, ops, i - 1);
      StepKeepsTree(trees[i - 1], ops[i - 1], trees[i]);
    }
  }

  /** The fields of one dentry are as the shape says. */
  ghost predicate Fits(t: Shape<Dentry>, d: Dentry)
    requires d in t.parents && d in t.lists
    reads d`parent, d`subdirs
  {
    d.parent == t.parents[d] && d.subdirs == t.lists[d] && (d.cursor <==> d in t.cursors)
  }

  /**
   What a move of `d` from below `dp` to the place of `t` below `tp` makes of the parent `p0` and the
   children `s0` of `o`.
   */
  predicate Placed<D(==)>(o: D, d: D, t: D, dp: D, tp: D, p0: D, s0: seq<D>, p1: D, s1: seq<D>) {
    && p1 == (if o == d then tp else if o == t then (if dp == d then t else dp) else p0)
    && s1 == Relisted(s0, d, t, o == tp, dp != d && o == dp)
  }

  lemma SwitchedPlaces<D>(t0: Shape<D>, t1: Shape<D>, d: D, t: D, o: D)
    requires TreeShape(t0) && d in t0.parents && t in t0.parents && o in t0.parents && d != t
    requires t0.parents[d] in t0.parents && t0.parents[t] in t0.parents
    requires t1 == Switched(t0, d, t).(rank := t1.rank)
    ensures o in t1.parents && o in t1.lists
    ensures var p := t0.parents;
      Placed(o, d, t, p[d], p[t], p[o], t0.lists[o], t1.parents[o], t1.lists[o]) && (p[d] == d ==> t !in t1.lists[o])
  {
    var p := t0.parents;
    MovedParents(p, d, t, o);
    MovedListsAre(p, t0.lists, t0.cursors, d, t, o);
    RelistedMembers(t0.lists[o], d, t, o == p[t], p[d] != d && o == p[d], t);
  }

  datatype SpliceResult = Added | Spliced(alias: Dentry) | Eloop | Estale | BugOn

  class Dcache {
    ghost var tree: Shape<Dentry>   // tied to the fields of the dentries by Matches()

    ghost predicate Matches()
      reads this, tree.parents.Keys`parent, tree.parents.Keys`subdirs
    {
      tree.lists.Keys == tree.parents.Keys
      && forall d {:trigger Fits(tree, d)} :: d in tree.parents.Keys ==> Fits(tree, d)
    }

    /** A forest of parent pointers, child lists that agree with it, and childless cursors. */
    ghost predicate Valid()
      reads this, tree.parents.Keys`parent, tree.parents.Keys`subdirs
    {
      Matches() && Tree(tree.parents, tree.rank, tree.lists, tree.cursors)
    }

    constructor ()
      ensures Valid() && tree.parents == map[]
    {
      tree := Shape(map[], map[], {}, map[]);
    }

    /** `d_alloc(parent, name)`. */
    method Alloc(parent: Dentry, name: string) returns (d: Dentry)
      requires Valid() && parent in tree.parents.Keys && !parent.cursor
      modifies this, parent`subdirs
      ensures Valid() && fresh(d) && d.name == name && d.parent == parent && d.subdirs == []
      ensures tree == WithLeaf(old(tree), d, parent) && parent.subdirs == [d] + old(parent.subdirs)
    {
      assert Fits(tree, parent);
      d := new Dentry(name, false);
      LeafJoins(tree, d, parent);
      d.parent := parent;
      parent.subdirs := [d] + parent.subdirs;
      tree := WithLeaf(tree, d, parent);
      forall x | x in tree.parents.Keys ensures Fits(tree, x) {
        if x in old(tree).parents.Keys {
          assert old(Fits(tree, x));
        }
      }
    }

    /** `d_alloc_cursor(parent)`: a child that is on no list yet. */
    method AllocCursor(parent: Dentry) returns (d: Dentry)
      requires Valid() && parent in tree.parents.Keys && !parent.cursor
      modifies this
      ensures Valid() && fresh(d) && d.cursor && d.parent == parent && d.subdirs == []
      ensures tree == WithCursor(old(tree), d, parent)
    {
      assert Fits(tree, parent);
      d := new Dentry("", true);
      CursorJoins(tree, d, parent);
      d.parent := parent;
      tree := WithCursor(tree, d, parent);
      forall x | x in tree.parents.Keys ensures Fits(tree, x) {
        if x in old(tree).parents.Keys {
          assert old(Fits(tree, x));
        }
      }
    }

    /** `d_alloc_pseudo`: a dentry that stays a root. */
    method AllocRoot(name: string) returns (d: Dentry)
      requires Valid()
      modifies this
      ensures Valid() && fresh(d) && d.name == name && d.parent == d && d.subdirs == []
      ensures tree == WithRoot(old(tree), d)
    {
      d := new Dentry(name, false);
      RootJoins<Dentry>(tree.parents, tree.rank, tree.lists, tree.cursors, d);
      tree := WithRoot(tree, d);
      forall x | x in tree.parents.Keys ensures Fits(tree, x) {
        if x in old(tree).parents.Keys {
          assert old(Fits(tree, x));
        }
      }
    }

    /** `d_ancestor(p1, p2)`: the child of `p1` on the way up from `p2`, if `p1` is above `p2`. */
    method DAncestor(p1: Dentry, p2: Dentry) returns (r: Dentry?)
      requires Valid() && p2 in tree.parents.Keys
      ensures Valid() && p2 in tree.parents.Keys
      ensures r == null <==> !Above(tree.parents, tree.rank, p1, p2)
      ensures r != null ==> r in tree.parents.Keys && r.parent == p1 && r != p1
                            && Below<Dentry>(tree.parents, tree.rank, p2, r)
    {
      ghost var ps, rank := tree.parents, tree.rank;
      var p := p2;
      assert Fits(tree, p);
      while p.parent != p
        invariant p in ps.Keys && p.parent == ps[p] && Below(ps, rank, p2, p)
        invariant p1 != p2 ==> p != p1 && (Below(ps, rank, p2, p1) <==> Below(ps, rank, p, p1))
        decreases rank[p]
      {
        assert Parented(ps, rank, p);
        BelowRank(ps, rank, p2, p);
        if p.parent == p1 {
          return p;
        }
        BelowTransitive(ps, rank, p2, p, p.parent);
        p := p.parent;
        assert Fits(tree, p);
      }
      return null;
    }

    /**
     `__d_move(d, t, exchange)`, with its two BUG_ONs reported instead of crashing.  The whole
     new tree is stated; only the two dentries change their names.
     */
    method Move(d: Dentry, t: Dentry, exchange: bool) returns (bug: bool)
      requires Valid() && d in tree.parents.Keys && t in tree.parents.Keys && d != t && !d.cursor && !t.cursor
      modifies this, d, t, d.parent`subdirs, t.parent`subdirs
      ensures Valid()
      ensures bug <==> old(Above(tree.parents, tree.rank, d, t) || Above(tree.parents, tree.rank, t, d))
      ensures bug ==> tree == old(tree) && d.name == old(d.name) && t.name == old(t.name)
      ensures old(tree.parents[d]) in old(tree).parents && old(tree.parents[t]) in old(tree).parents
      ensures !bug ==> tree == Switched(old(tree), d, t).(rank := tree.rank)
      ensures !bug ==> d.name == old(t.name) && t.name == if exchange then old(d.name) else old(t.name)
      ensures !bug ==> d.parent == old(t.parent) && t.parent == if old(d.parent) == d then t else old(d.parent)
      ensures !bug ==> forall o :: o in old(tree.parents.Keys) ==>
        Placed(o, d, t, old(d.parent), old(t.parent), old(o.parent), old(o.subdirs), o.parent, o.subdirs)
      ensures !bug && old(d.parent) == d ==> forall o :: o in old(tree.parents.Keys) ==> t !in o.subdirs
    {
      assert Fits(tree, d) && Fits(tree, t);
      ParentNoCursor<Dentry>(tree.parents, tree.rank, tree.lists, tree.cursors, d);
      ParentNoCursor<Dentry>(tree.parents, tree.rank, tree.lists, tree.cursors, t);
      var above := DAncestor(d, t);
      var below := DAncestor(t, d);
      bug := above != null || below != null;
      if !bug {
        ghost var lifted := LiftForMove(tree, d, t);
        Switch(d, t, exchange, lifted);
        forall o | o in old(tree.parents.Keys)
          ensures Placed(o, d, t, old(d.parent), old(t.parent), old(o.parent), old(o.subdirs), o.parent, o.subdirs)
          ensures old(d.parent) == d ==> t !in o.subdirs
        {
          assert old(Fits(tree, o)) && Fits(tree, o);
          SwitchedPlaces(old(tree), tree, d, t, o);
        }
      }
    }

    /** The part of `__d_move` after the BUG_ONs; `lifted` ranks the result. */
    method Switch(d: Dentry, t: Dentry, exchange: bool, ghost lifted: map<Dentry, nat>)
      requires Matches() && d in tree.parents.Keys && t in tree.parents.Keys && d != t
      requires tree.parents[d] in tree.parents.Keys && tree.parents[t] in tree.parents.Keys
      modifies this, d`parent, d`name, t`parent, t`name, d.parent`subdirs, t.parent`subdirs
      ensures Matches() && tree == Switched(old(tree), d, t).(rank := lifted)
      ensures d.name == old(t.name) && t.name == if exchange then old(d.name) else old(t.name)
    {
      d.name, t.name := t.name, if exchange then d.name else t.name;
      Relink(d, t);
      SetRank(lifted);
    }

    ghost method SetRank(lifted: map<Dentry, nat>)
      requires Matches()
      modifies this
      ensures Matches() && tree == old(tree).(rank := lifted)
    {
      tree := tree.(rank := lifted);
      forall x | x in tree.parents.Keys ensures Fits(tree, x) {
        assert old(Fits(tree, x));
      }
    }

    method SetParent(d: Dentry, o: Dentry)
      requires Matches() && d in tree.parents.Keys
      modifies this, d`parent
      ensures Matches() && tree == old(tree).(parents := old(tree).parents[d := o])
    {
      d.parent := o;
      tree := tree.(parents := tree.parents[d := o]);
      forall x | x in tree.parents.Keys ensures Fits(tree, x) {
        assert old(Fits(tree, x));
      }
    }

    method ListDel(from: Dentry, c: Dentry)
      requires Matches() && from in tree.parents.Keys
      modifies this, from`subdirs
      ensures Matches() && tree == old(tree).(lists := old(tree).lists[from := Without(old(tree).lists[from], c)])
    {
      assert Fits(tree, from);
      from.subdirs := Without(from.subdirs, c);
      tree := tree.(lists := tree.lists[from := Without(tree.lists[from], c)]);
      forall x | x in tree.parents.Keys ensures Fits(tree, x) {
        assert old(Fits(tree, x));
      }
    }

    method ListMove(from: Dentry, c: Dentry, o: Dentry)
      requires Matches() && from in tree.parents.Keys && o in tree.parents.Keys
      modifies this, from`subdirs, o`subdirs
      ensures Matches() && tree == old(tree).(lists := ListMoved(old(tree).lists, from, c, o))
    {
      ListDel(from, c);
      ListAdd(c, o);
    }

    method ListAdd(c: Dentry, o: Dentry)
      requires Matches() && o in tree.parents.Keys
      modifies this, o`subdirs
      ensures Matches() && tree == old(tree).(lists := old(tree).lists[o := [c] + old(tree).lists[o]])
    {
      assert Fits(tree, o);
      o.subdirs := [c] + o.subdirs;
      tree := tree.(lists := tree.lists[o := [c] + tree.lists[o]]);
      forall x | x in tree.parents.Keys ensures Fits(tree, x) {
        assert old(Fits(tree, x));
      }
    }

    /** The tail of `__d_move`, where the two are switched in the tree. */
    method Relink(d: Dentry, t: Dentry)
      requires Matches() && d in tree.parents.Keys && t in tree.parents.Keys && d != t
      requires tree.parents[d] in tree.parents.Keys && tree.parents[t] in tree.parents.Keys
      modifies this, d`parent, t`parent, d.parent`subdirs, t.parent`subdirs
      ensures Matches() && tree == Switched(old(tree), d, t)
    {
      assert Fits(tree, d) && Fits(tree, t);
      var op, tp := d.parent, t.parent;
      SetParent(d, tp);
      if op == d {
        SetParent(t, t);
        ListDel(tp, t);
      } else {
        SetParent(t, op);
        ListMove(tp, t, op);
      }
      ListMove(op, d, tp);
    }

    /**
     `d_splice_alias` for a directory inode with dentry `alias`, if it has one.  `locks` says
     whether `__d_unalias` gets the two locks it tries.
     */
    method SpliceAlias(dentry: Dentry, alias: Dentry?, locks: bool) returns (res: SpliceResult)
      requires Valid() && dentry in tree.parents.Keys && !dentry.cursor
      requires alias != null ==> alias in tree.parents.Keys && alias != dentry && !alias.cursor
      modifies this, dentry, dentry.parent`subdirs
      modifies (if alias == null then {} else {alias}), (if alias == null then {} else {alias.parent})`subdirs
      ensures Valid()
      ensures alias == null <==> res == Added
      ensures res == Eloop <==> alias != null && old(Above<Dentry>(tree.parents, tree.rank, alias, dentry))
      ensures res == Estale <==>
        && alias != null && !old(Above<Dentry>(tree.parents, tree.rank, alias, dentry)) && !locks
        && old(alias.parent) != alias && old(alias.parent) != old(dentry.parent)
      ensures res == BugOn ==> old(dentry.subdirs) != [] && old(Above<Dentry>(tree.parents, tree.rank, dentry, alias))
      ensures res.Spliced? ==> alias != null && res.alias == alias
      ensures res.Spliced? ==> !old(Above<Dentry>(tree.parents, tree.rank, dentry, alias))
      ensures res.Spliced? ==> old(tree.parents[alias]) in old(tree).parents
      ensures res.Spliced? ==> old(tree.parents[dentry]) in old(tree).parents
      ensures res.Spliced? ==> tree == Switched<Dentry>(old(tree), alias, dentry).(rank := tree.rank)
      ensures res.Spliced? ==> forall o :: o in old(tree.parents.Keys) ==>
        Placed<Dentry>(o, alias, dentry, old(alias.parent), old(dentry.parent), old(o.parent), old(o.subdirs),
                       o.parent, o.subdirs)
      ensures res.Spliced? && old(alias.parent) == alias ==>
        dentry.parent == dentry && forall o :: o in old(tree.parents.Keys) ==> dentry !in o.subdirs
      ensures dentry.name == old(dentry.name) && (!res.Spliced? && alias != null ==> alias.name == old(alias.name))
      ensures res.Spliced? ==> res.alias.name == old(dentry.name) && res.alias.parent == old(dentry.parent)
      ensures !res.Spliced? ==> tree == old(tree)
    {
      if alias == null {
        return Added;
      }
      assert Fits(tree, alias) && Fits(tree, dentry);
      var above := DAncestor(alias, dentry);
      if above != null {
        return Eloop;
      }
      if alias.parent != alias && alias.parent != dentry.parent && !locks {
        return Estale;
      }
      if dentry.subdirs == [] {
        ChildlessAboveNone<Dentry>(tree.parents, tree.rank, tree.lists, tree.cursors, dentry, alias);
      }
      ParentNoCursor<Dentry>(tree.parents, tree.rank, tree.lists, tree.cursors, dentry);
      ParentNoCursor<Dentry>(tree.parents, tree.rank, tree.lists, tree.cursors, alias);
      var bug := Move(alias, dentry, false);
      assert Fits(tree, alias);
      res := if bug then BugOn else Spliced(alias);
    }
  }
}
