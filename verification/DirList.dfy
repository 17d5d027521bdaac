/** The doubly linked list of `pardirlist.c`, with insertion, bubble sort and numbering in place. */
module DirList {
  import opened Sequences
  import opened DirListing

  class Item {
    const level: nat
    const path: string
    var num: nat
    var count: int

    constructor (level: nat, path: string)
      ensures this.level == level && this.path == path && num == 1
    {
      this.level, this.path, num := level, path, 1;
    }
  }

  class Node {
    var prev: Node?
    var item: Item
    var next: Node?

    constructor (item: Item)
      ensures this.item == item && prev == null && next == null
    {
      this.item, prev, next := item, null, null;
    }
  }

  function KeyOf(i: Item): Key { Key(i.level, i.path) }

  function Keys(its: seq<Item>): (ks: seq<Key>)
    ensures |ks| == |its|
  {
    seq(|its|, i requires 0 <= i < |its| => KeyOf(its[i]))
  }

  /** Node `i` carries item `i` and is linked to its neighbours. */
  ghost predicate NodeOk(ns: seq<Node>, its: seq<Item>, i: nat)
    requires i < |ns| == |its|
    reads ns
  {
    && ns[i].item == its[i]
    && ns[i].next == (if i + 1 < |ns| then ns[i + 1] else null)
    && ns[i].prev == (if i > 0 then ns[i - 1] else null)
  }

  /** Position `i` of a sequence holds something found nowhere else in it. */
  ghost predicate Once<T>(s: seq<T>, i: nat)
    requires i < |s|
  {
    forall j :: 0 <= j < |s| && s[j] == s[i] ==> j == i
  }

  ghost predicate Linked(ns: seq<Node>, its: seq<Item>)
    reads ns
  {
    && |ns| == |its|
    && (forall i {:trigger NodeOk(ns, its, i)} :: 0 <= i < |ns| ==> NodeOk(ns, its, i))
    && (forall i {:trigger Once(ns, i)} :: 0 <= i < |ns| ==> Once(ns, i))
    && (forall i {:trigger Once(its, i)} :: 0 <= i < |its| ==> Once(its, i))
  }

  function Insert<T>(s: seq<T>, k: nat, x: T): (r: seq<T>)
    requires k <= |s|
    ensures |r| == |s| + 1
  {
    s[..k] + [x] + s[k..]
  }

  lemma InsertedFrom<T>(s: seq<T>, k: nat, x: T)
    requires k <= |s|
    ensures forall y :: y in Insert(s, k, x) ==> y in s || y == x
  {
    InsertIs(s, k, x);
    forall y | y in Insert(s, k, x)
      ensures y in s || y == x
    {
      InsertMembers(s, Insert(s, k, x), k, x, y);
    }
  }

  lemma OnceInserted<T>(s: seq<T>, t: seq<T>, k: nat, x: T)
    requires k <= |s| && t == Insert(s, k, x) && x !in s
    requires forall i {:trigger Once(s, i)} :: 0 <= i < |s| ==> Once(s, i)
    ensures Inserts(s, t, k, x) && forall i {:trigger Once(t, i)} :: 0 <= i < |t| ==> Once(t, i)
  {
    InsertIs(s, k, x);
    forall j | 0 <= j < |t|
      ensures j != k ==> t[j] == s[if j < k then j else j - 1]
    {
      assert j > k ==> t[(j - 1) + 1] == s[j - 1];
    }
    forall i | 0 <= i < |t|
      ensures Once(t, i)
    {
      if i != k {
        assert Once(s, if i < k then i else i - 1);
      }
    }
  }

  class Sdll {
    var head: Node?
    var tail: Node?
    var size: nat
    ghost var nodes: seq<Node>
    ghost var items: seq<Item>

    constructor ()
      ensures Valid() && items == [] && nodes == []
    {
      head, tail, size, nodes, items := null, null, 0, [], [];
    }

    ghost predicate Valid()
      reads this, nodes
    {
      && Linked(nodes, items) && size == |nodes|
      && head == (if nodes == [] then null else nodes[0])
      && tail == (if nodes == [] then null else nodes[|nodes| - 1])
    }

    /** The search of `AddPath` through a list whose head comes first: the node after which the new one goes. */
    method FindSpot(level: nat) returns (cur: Node, ghost k: nat)
      requires Valid() && nodes != [] && nodes[0].item.level <= level
      ensures 1 <= k <= |nodes| && k == Position(Keys(items), level) && cur == nodes[k - 1]
    {
      ghost var ks := Keys(items);
      assert NodeOk(nodes, items, 0);
      cur, k := head, 1;
      while cur.next != null && cur.next.item.level < level
        invariant 1 <= k <= |nodes| && cur == nodes[k - 1] && Spot(ks, level, k) == Spot(ks, level, 1)
        invariant cur.next == (if k < |nodes| then nodes[k] else null)
        invariant k < |nodes| ==> NodeOk(nodes, items, k)
        decreases |nodes| - k
      {
        cur := cur.next;
        k := k + 1;
        assert NodeOk(nodes, items, k - 1);
        if k < |nodes| {
          assert NodeOk(nodes, items, k);
        }
      }
      assert k < |nodes| ==> ks[k] == KeyOf(items[k]);
    }

    /** A new node before the head, which may be missing. */
    method LinkHead(n: Node)
      requires Valid() && n !in nodes && n.item !in items && n.prev == null && n.next == null
      modifies this, n, nodes
      ensures Valid() && nodes == Insert(old(nodes), 0, n) && items == Insert(old(items), 0, old(n.item))
    {
      ghost var ns, its := nodes, items;
      if head == null {
        head, tail := n, n;
      } else {
        n.next := head;
        head.prev := n;
        head := n;
      }
      size := size + 1;
      nodes, items := Insert(ns, 0, n), Insert(its, 0, n.item);
      OnceInserted(ns, nodes, 0, n);
      OnceInserted(its, items, 0, n.item);
      forall i | 0 <= i < |nodes|
        ensures NodeOk(nodes, items, i)
      {
        if i > 0 {
          assert nodes[i] == ns[i - 1] && items[i] == its[i - 1];
          assert old(NodeOk(ns, its, i - 1)) && Once(ns, i - 1);
          assert i > 1 ==> nodes[i - 1] == ns[i - 2] && Once(ns, 0);
          assert i + 1 < |nodes| ==> nodes[i + 1] == ns[i];
        }
      }
    }

    /** A new node after the tail. */
    method LinkTail(n: Node)
      requires Valid() && nodes != [] && n !in nodes && n.item !in items && n.prev == null && n.next == null
      modifies this, n, nodes
      ensures Valid() && nodes == Insert(old(nodes), |old(nodes)|, n)
      ensures items == Insert(old(items), |old(nodes)|, old(n.item))
    {
      ghost var ns, its := nodes, items;
      n.prev := tail;
      tail.next := n;
      tail := n;
      size := size + 1;
      nodes, items := Insert(ns, |ns|, n), Insert(its, |ns|, n.item);
      OnceInserted(ns, nodes, |ns|, n);
      OnceInserted(its, items, |ns|, n.item);
      forall i | 0 <= i < |nodes|
        ensures NodeOk(nodes, items, i)
      {
        if i < |ns| {
          assert old(NodeOk(ns, its, i)) && Once(ns, i);
          assert Once(ns, |ns| - 1);
        }
      }
    }

    /** A new node after node `k - 1`, which is not the tail. */
    method LinkMiddle(n: Node, cur: Node, ghost k: nat)
      requires Valid() && 1 <= k < |nodes| && cur == nodes[k - 1] && n !in nodes && n.item !in items && n.prev == null
      requires n.next == null
      modifies this, n, nodes
      ensures Valid() && nodes == Insert(old(nodes), k, n) && items == Insert(old(items), k, old(n.item))
    {
      ghost var ns, its := nodes, items;
      assert NodeOk(ns, its, k - 1) && Once(ns, k - 1) && Once(ns, k);
      n.next := cur.next;
      n.prev := cur;
      cur.next.prev := n;
      cur.next := n;
      size := size + 1;
      nodes, items := Insert(ns, k, n), Insert(its, k, n.item);
      OnceInserted(ns, nodes, k, n);
      OnceInserted(its, items, k, n.item);
      forall i | 0 <= i < |nodes|
        ensures NodeOk(nodes, items, i)
      {
        if i < k {
          assert old(NodeOk(ns, its, i)) && nodes[i] == ns[i] && items[i] == its[i];
          assert i + 1 < k ==> nodes[i + 1] == ns[i + 1];
          assert i > 0 ==> nodes[i - 1] == ns[i - 1];
        } else if i > k {
          assert old(NodeOk(ns, its, i - 1)) && nodes[i] == ns[i - 1] && items[i] == its[i - 1];
          assert i - 1 > k ==> nodes[i - 1] == ns[i - 2];
          assert i + 1 < |nodes| ==> nodes[i + 1] == ns[i];
        }
      }
    }

    /** `AddPath`: the list grows by one item, placed by its level. */
    method AddPath(level: nat, path: string) returns (item: Item, ghost node: Node)
      requires Valid()
      modifies this, nodes
      ensures Valid() && fresh(item) && item.level == level && item.path == path && item.num == 1
      ensures items == Insert(old(items), Position(Keys(old(items)), level), item)
      ensures fresh(node) && nodes == Insert(old(nodes), Position(Keys(old(items)), level), node)
      ensures Keys(items) == Added(Keys(old(items)), Key(level, path))
    {
      item := new Item(level, path);
      var n := new Node(item);
      node := n;
      ghost var its := items;
      ghost var k := Position(Keys(its), level);
      if head == null || head.item.level > level {
        assert nodes != [] ==> NodeOk(nodes, items, 0);
        assert k == 0;
        LinkHead(n);
      } else {
        var cur, _ := FindSpot(level);
        assert NodeOk(nodes, items, k - 1);
        if cur.next == null {
          assert k == |nodes|;
          LinkTail(n);
        } else {
          LinkMiddle(n, cur, k);
        }
      }
      KeysInsert(its, k, item);
    }

    /** Two neighbouring nodes exchange their items. */
    method SwapItems(cur: Node, ghost k: nat)
      requires Valid() && k + 1 < |nodes| && cur == nodes[k]
      modifies `items, nodes
      ensures Valid() && nodes == old(nodes) && items == old(items)[k := old(items)[k + 1]][k + 1 := old(items)[k]]
    {
      ghost var its := items;
      assert NodeOk(nodes, its, k) && NodeOk(nodes, its, k + 1) && Once(nodes, k) && Once(nodes, k + 1);
      assert Once(its, k) && Once(its, k + 1);
      var temp := cur.item;
      cur.item := cur.next.item;
      cur.next.item := temp;
      items := its[k := its[k + 1]][k + 1 := its[k]];
      forall i | 0 <= i < |nodes|
        ensures NodeOk(nodes, items, i) && Once(nodes, i) && Once(items, i)
      {
        assert old(NodeOk(nodes, items, i)) && Once(its, i);
      }
    }

    /** The body of the inner loop of `SortHelper`: neighbours in the wrong order are exchanged. */
    method BubbleStep(cur: Node, ghost k: nat) returns (swap: bool)
      requires Valid() && k + 1 < |nodes| && cur == nodes[k]
      modifies `items, nodes
      ensures Valid() && nodes == old(nodes) && Rearranged(old(items), items, swap)
      ensures !swap ==> !Bad(KeyOf(items[k]), KeyOf(items[k + 1]))
    {
      assert NodeOk(nodes, items, k) && NodeOk(nodes, items, k + 1);
      swap := cur.item.level == cur.next.item.level && Precedes(cur.next.item.path, cur.item.path);
      if swap {
        SwapRearranges(items, k);
        SwapItems(cur, k);
      }
    }

    /** The node after node `k`, if there is one. */
    method Following(cur: Node, ghost k: nat) returns (next: Node?)
      requires Valid() && k < |nodes| && cur == nodes[k]
      ensures next == cur.next == (if k + 1 < |nodes| then nodes[k + 1] else null)
    {
      assert NodeOk(nodes, items, k);
      next := cur.next;
    }

    /** One turn of the inner loop, to the next node. */
    method BubbleOn(cur: Node, swap: bool, ghost k: nat, ghost its: seq<Item>) returns (swap': bool, next: Node)
      requires Valid() && k + 1 < |nodes| && cur == nodes[k] && Passed(its, items, swap, k)
      modifies `items, nodes
      ensures Valid() && nodes == old(nodes) && next == nodes[k + 1] && Passed(its, items, swap', k + 1)
    {
      ghost var before := items;
      var swapped := BubbleStep(cur, k);
      RearrangedTwice(its, before, items, swap, swapped);
      swap' := swap || swapped;
      if !swap' {
        NeatNext(items, k);
      }
      next := Following(cur, k);
    }

    /** One pass of the inner loop, from head to tail. */
    method BubblePass() returns (swap: bool)
      requires Valid() && nodes != []
      modifies `items, nodes
      ensures Valid() && nodes == old(nodes) && Rearranged(old(items), items, swap)
      ensures !swap ==> Neat(Keys(items), |items|)
    {
      ghost var its, k := items, 0;
      swap := false;
      var cur := head;
      var next := Following(cur, 0);
      while next != null
        invariant Valid() && nodes == old(nodes) && Passed(its, items, swap, k)
        invariant k < |nodes| && cur == nodes[k] && next == (if k + 1 < |nodes| then nodes[k + 1] else null)
        decreases |nodes| - k
      {
        swap, cur := BubbleOn(cur, swap, k, its);
        k := k + 1;
        next := Following(cur, k);
      }
    }

    /** `SortHelper`: passes until one makes no swap; each that does leaves fewer inversions. */
    method SortHelper()
      requires Valid() && nodes != []
      modifies `items, nodes
      ensures Valid() && nodes == old(nodes) && |items| == |old(items)| && (forall x :: x in items ==> x in old(items))
      ensures multiset(Keys(items)) == multiset(Keys(old(items)))
      ensures (forall i :: 0 <= i < |items| ==> items[i].level == old(items)[i].level) && Neat(Keys(items), |items|)
    {
      ghost var its := items;
      var swap := true;
      while swap
        invariant Valid() && nodes == old(nodes) && |items| == |its| && forall x :: x in items ==> x in its
        invariant multiset(Keys(items)) == multiset(Keys(its))
        invariant forall i :: 0 <= i < |items| ==> items[i].level == its[i].level
        invariant !swap ==> Neat(Keys(items), |items|)
        decreases Inversions(Keys(items)), swap
      {
        swap := BubblePass();
      }
    }

    /** The body of the loop of `NumberChildren`. */
    method NumberNext(cur: Node, ghost i: nat, inum: nat, ghost rank: seq<nat>) returns (inum': nat)
      requires Valid() && i + 1 < |nodes| && cur == nodes[i] && Numbered(items, rank, i) && inum == rank[i]
      requires rank[i + 1] == if items[i + 1].level == items[i].level then rank[i] + 1 else 1
      modifies items[i + 1]
      ensures Valid() && Numbered(items, rank, i + 1) && inum' == rank[i + 1]
    {
      assert NodeOk(nodes, items, i) && NodeOk(nodes, items, i + 1) && Once(items, i + 1);
      if cur.next.item.level == cur.item.level {
        inum' := inum + 1;
        cur.next.item.num := inum';
      } else {
        inum' := 1;
      }
    }

    /** `NumberChildren`: every item's number is its rank within its level. */
    method NumberChildren(ghost rank: seq<nat>)
      requires Valid() && nodes != [] && ByLevel(Keys(items)) && rank == Ranks(Keys(items)) && AllOne(items)
      modifies items
      ensures Valid() && forall i :: 0 <= i < |items| ==> items[i].num == rank[i]
    {
      var inum, i, cur := 1, 0, head;
      while i < size - 1
        invariant 0 <= i < |nodes| && cur == nodes[i] && Valid() && Numbered(items, rank, i) && inum == rank[i]
      {
        RanksNext(items, rank, i);
        inum := NumberNext(cur, i, inum, rank);
        cur := Following(cur, i);
        i := i + 1;
      }
    }
  }

  ghost predicate AllOne(its: seq<Item>)
    reads its
  {
    forall x :: x in its ==> x.num == 1
  }

  /** The items up to position `i` have their numbers, the others still 1. */
  ghost predicate Numbered(its: seq<Item>, rank: seq<nat>, i: nat)
    reads its
  {
    && |rank| == |its|
    && forall j :: 0 <= j < |its| ==> its[j].num == if j <= i then rank[j] else 1
  }

  lemma RanksNext(its: seq<Item>, rank: seq<nat>, i: nat)
    requires ByLevel(Keys(its)) && i + 1 < |its| && rank == Ranks(Keys(its))
    ensures rank[i + 1] == if its[i + 1].level == its[i].level then rank[i] + 1 else 1
  {
    RankNext(Keys(its), i);
  }

  /** The same items, each place keeping its level; and fewer inversions if anything was swapped. */
  ghost predicate Rearranged(a: seq<Item>, b: seq<Item>, swap: bool) {
    && |a| == |b| && (forall x :: x in b ==> x in a) && multiset(Keys(a)) == multiset(Keys(b))
    && (forall i :: 0 <= i < |a| ==> b[i].level == a[i].level)
    && (if swap then Inversions(Keys(b)) < Inversions(Keys(a)) else a == b)
  }

  /** A pass that has come to node `k`. */
  ghost predicate Passed(a: seq<Item>, b: seq<Item>, swap: bool, k: nat) {
    Rearranged(a, b, swap) && (!swap ==> Neat(Keys(b), k))
  }

  lemma RearrangedTwice(a: seq<Item>, b: seq<Item>, c: seq<Item>, one: bool, two: bool)
    requires Rearranged(a, b, one) && Rearranged(b, c, two)
    ensures Rearranged(a, c, one || two)
  {
  }

  lemma NeatNext(its: seq<Item>, k: nat)
    requires k + 1 < |its| && Neat(Keys(its), k) && !Bad(KeyOf(its[k]), KeyOf(its[k + 1]))
    ensures Neat(Keys(its), k + 1)
  {
  }

  lemma SwapRearranges(its: seq<Item>, k: nat)
    requires k + 1 < |its| && Bad(KeyOf(its[k]), KeyOf(its[k + 1]))
    ensures Rearranged(its, its[k := its[k + 1]][k + 1 := its[k]], true)
  {
    KeysSwap(its, k);
    SwapHelps(Keys(its), k);
  }

  lemma KeysSwap(its: seq<Item>, k: nat)
    requires k + 1 < |its|
    ensures Keys(its[k := its[k + 1]][k + 1 := its[k]]) == Swap(Keys(its), k)
    ensures forall x :: x in its[k := its[k + 1]][k + 1 := its[k]] ==> x in its
  {
  }

  lemma KeysInsert(its: seq<Item>, k: nat, x: Item)
    requires k <= |its|
    ensures Keys(Insert(its, k, x)) == Insert(Keys(its), k, KeyOf(x))
  {
  }

  /**
   The whole program on one thread: the items are added in the order `readdir` gives them,
   sorted and numbered.  The listing is the sorted permutation of what was found.
   */
  method Listing(found: seq<Key>) returns (list: Sdll)
    requires found != [] && Distinct(found)
    ensures list.Valid() && Sorted(Keys(list.items)) && multiset(Keys(list.items)) == multiset(found)
    ensures forall i :: 0 <= i < |list.items| ==> list.items[i].num == Ranks(Keys(list.items))[i]
  {
    list := AddAll(found);
    ghost var its := list.items;
    list.SortHelper();
    ghost var ks := Keys(list.items);
    assert ByLevel(ks) by {
      assert forall i :: 0 <= i < |ks| ==> ks[i].level == Keys(its)[i].level;
    }
    DistinctPermuted(found, ks);
    NeatSorted(ks);
    assert forall i :: 0 <= i < |list.items| ==> list.items[i] in its;
    list.NumberChildren(Ranks(ks));
  }

  /** The list holds what was found so far, in the order of levels and not numbered yet. */
  ghost predicate Gathers(list: Sdll, found: seq<Key>)
    reads list, list.nodes, list.items
  {
    && list.Valid() && |list.nodes| == |found|
    && ByLevel(Keys(list.items)) && multiset(Keys(list.items)) == multiset(found) && AllOne(list.items)
  }

  method AddFound(list: Sdll, x: Key, ghost found: seq<Key>)
    requires Gathers(list, found)
    modifies list, list.nodes
    ensures Gathers(list, found + [x])
    ensures forall i :: 0 <= i < |list.nodes| ==> list.nodes[i] in old(list.nodes) || fresh(list.nodes[i])
    ensures forall i :: 0 <= i < |list.items| ==> list.items[i] in old(list.items) || fresh(list.items[i])
  {
    ghost var its, ns := list.items, list.nodes;
    ghost var k := Position(Keys(its), x.level);
    AddedByLevel(Keys(its), x);
    AddedMembers(Keys(its), x);
    var item; ghost var node;
    item, node := list.AddPath(x.level, x.path);
    InsertedFrom(its, k, item);
    InsertedFrom(ns, k, node);
  }

  method AddAll(found: seq<Key>) returns (list: Sdll)
    requires found != []
    ensures fresh(list) && fresh(list.nodes) && fresh(list.items) && Gathers(list, found)
  {
    list := new Sdll();
    for k := 0 to |found|
      invariant fresh(list) && fresh(list.nodes) && fresh(list.items)
      invariant Gathers(list, found[..k])
    {
      AddFound(list, found[k], found[..k]);
      assert found[..k + 1] == found[..k] + [found[k]];
    }
    assert found[..|found|] == found;
  }

  /** Two runs that find the same items in different orders produce the same listing. */
  lemma SameListing(a: seq<Key>, b: seq<Key>, found: seq<Key>, again: seq<Key>)
    requires multiset(found) == multiset(again)
    requires Sorted(a) && multiset(a) == multiset(found) && Sorted(b) && multiset(b) == multiset(again)
    ensures a == b && Ranks(a) == Ranks(b)
  {
    Canonical(a, b);
  }
}
