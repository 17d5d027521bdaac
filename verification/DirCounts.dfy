/**
 The parallel listing of `pardirlist.c`: while the directories are walked a thread is started
 for every item found, threads search their files during the walk and the sort, and the
 writer joins an item's thread before it prints the item.
 */
module DirCounts {
  import opened Sequences

  const UNSEARCHED: int := 69

  /** An item's thread: not started yet, searching, or finished; the root has none. */
  datatype Thread = Root | Unborn | Searching | Finished

  datatype Item = Item(path: string, count: int, thread: Thread)

  datatype Line = Line(path: string, count: int)

  datatype Stage = Walking | Starting | Sorting | Writing

  /** `todo` is what the walk has still to find, `order` the list, as indices of items, `out` what has been printed. */
  datatype State = State(todo: seq<string>, items: seq<Item>, order: seq<nat>, stage: Stage, out: seq<Line>)

  datatype Action =
    | Find(k: nat)        // AddPath puts the next item at place `k` of the list
    | StartThread         // pthread_create
    | Search(i: nat)      // a thread finishes search_test and stores the count
    | WalkDone
    | Swap(k: nat)        // the sort exchanges two neighbours
    | SortDone
    | Write               // fileWriter joins and prints the next item

  predicate Typed(s: State) {
    |s.out| <= |s.order| && s.items != [] && forall i :: 0 <= i < |s.order| ==> s.order[i] < |s.items|
  }

  predicate Joined(x: Item) { x.thread == Root || x.thread == Finished }

  predicate Enabled(s: State, a: Action)
    requires Typed(s)
  {
    match a
    case Find(k) => s.stage == Walking && s.todo != [] && k <= |s.order|
    case StartThread => s.stage == Starting
    case Search(i) => i < |s.items| && s.items[i].thread == Searching
    case WalkDone => s.stage == Walking && s.todo == []
    case Swap(k) => s.stage == Sorting && k + 1 < |s.order|
    case SortDone => s.stage == Sorting
    case Write => s.stage == Writing && |s.out| < |s.order| && Joined(s.items[s.order[|s.out|]])
  }

  function Found(s: State, k: nat): State
    requires s.todo != [] && k <= |s.order|
  {
    s.(todo := s.todo[1..], items := s.items + [Item(s.todo[0], UNSEARCHED, Unborn)],
       order := s.order[..k] + [|s.items|] + s.order[k..], stage := Starting)
  }

  function Started(s: State): State
    requires s.items != []
  {
    var n := |s.items| - 1;
    s.(items := s.items[n := s.items[n].(thread := Searching)], stage := Walking)
  }

  function Searched(s: State, search: string -> int, i: nat): State
    requires i < |s.items|
  {
    s.(items := s.items[i := s.items[i].(count := search(s.items[i].path), thread := Finished)])
  }

  function Swapped(s: State, k: nat): State
    requires k + 1 < |s.order|
  {
    s.(order := s.order[k := s.order[k + 1]][k + 1 := s.order[k]])
  }

  function Apply(s: State, search: string -> int, a: Action): State
    requires Typed(s) && Enabled(s, a)
  {
    match a
    case Find(k) => Found(s, k)
    case StartThread => Started(s)
    case Search(i) => Searched(s, search, i)
    case WalkDone => s.(stage := Sorting)
    case Swap(k) => Swapped(s, k)
    case SortDone => s.(stage := Writing)
    case Write => s.(out := s.out + [Line(s.items[s.order[|s.out|]].path, s.items[s.order[|s.out|]].count)])
  }

  // ----- against the sequential program -----

  /** What the sequential program prints for an item: the root is a directory, in which nothing is searched. */
  function LineOf(x: Item, search: string -> int): Line { Line(x.path, if x.thread == Root then 0 else search(x.path)) }

  function LinesOf(items: seq<Item>, search: string -> int): (r: seq<Line>)
    ensures |r| == |items|
  {
    seq(|items|, i requires 0 <= i < |items| => LineOf(items[i], search))
  }

  /** The same in the order of the list. */
  function Ordered(s: State, search: string -> int): (r: seq<Line>)
    requires Typed(s)
    ensures |r| == |s.order|
  {
    seq(|s.order|, i requires 0 <= i < |s.order| => LineOf(s.items[s.order[i]], search))
  }

  /** The lines of the sequential program, in the order of the walk. */
  function Sequential(root: string, paths: seq<string>, search: string -> int): seq<Line> {
    [Line(root, 0)] + seq(|paths|, i requires 0 <= i < |paths| => Line(paths[i], search(paths[i])))
  }

  predicate ItemOk(s: State, search: string -> int, i: nat)
    requires i < |s.items|
  {
    && (Joined(s.items[i]) ==> s.items[i].count == LineOf(s.items[i], search).count)
    && (s.items[i].thread == Unborn <==> s.stage == Starting && i == |s.items| - 1)
    && (s.items[i].thread == Root <==> i == 0)
  }

  ghost predicate Inv(s: State, search: string -> int) {
    && Typed(s) && (s.stage == Starting ==> |s.items| > 1)
    && (forall i {:trigger ItemOk(s, search, i)} :: 0 <= i < |s.items| ==> ItemOk(s, search, i))
    && multiset(Ordered(s, search)) == multiset(LinesOf(s.items, search))
    && s.out == Ordered(s, search)[..|s.out|] && (s.out != [] ==> s.stage == Writing)
    && (s.todo != [] ==> s.stage == Walking || s.stage == Starting)
  }

  lemma SameLines(s: State, t: State, search: string -> int)
    requires Typed(s) && Typed(t) && t.order == s.order && |t.items| == |s.items|
    requires forall i :: 0 <= i < |s.items| ==> LineOf(t.items[i], search) == LineOf(s.items[i], search)
    ensures LinesOf(t.items, search) == LinesOf(s.items, search) && Ordered(t, search) == Ordered(s, search)
  {
  }

  lemma FoundLines(s: State, search: string -> int, k: nat)
    requires Typed(s) && Enabled(s, Find(k))
    ensures var x := Line(s.todo[0], search(s.todo[0]));
      && Typed(Found(s, k)) && LinesOf(Found(s, k).items, search) == LinesOf(s.items, search) + [x]
      && Ordered(Found(s, k), search) == Ordered(s, search)[..k] + [x] + Ordered(s, search)[k..]
  {
    var t := Found(s, k);
    InsertIs(s.order, k, |s.items|);
    forall i | 0 <= i < |t.order|
      ensures t.order[i] == if i < k then s.order[i] else if i == k then |s.items| else s.order[i - 1]
    {
      assert i > k ==> t.order[(i - 1) + 1] == s.order[i - 1];
    }
  }

  lemma FindKeeps(s: State, search: string -> int, k: nat)
    requires Inv(s, search) && Enabled(s, Find(k))
    ensures Inv(Found(s, k), search)
  {
    var t := Found(s, k);
    FoundLines(s, search, k);
    InsertMultiset(Ordered(s, search), k, Line(s.todo[0], search(s.todo[0])));
    forall i | 0 <= i < |t.items|
      ensures ItemOk(t, search, i)
    {
      if i < |s.items| {
        assert ItemOk(s, search, i);
      }
    }
  }

  lemma ThreadKeeps(s: State, search: string -> int, a: Action)
    requires Inv(s, search) && Enabled(s, a) && (a.StartThread? || a.Search?)
    ensures Inv(Apply(s, search, a), search)
  {
    var t := Apply(s, search, a);
    forall i | 0 <= i < |t.items|
      ensures ItemOk(t, search, i) && LineOf(t.items[i], search) == LineOf(s.items[i], search)
    {
      assert ItemOk(s, search, i);
    }
    SameLines(s, t, search);
  }

  lemma SwapKeeps(s: State, search: string -> int, k: nat)
    requires Inv(s, search) && Enabled(s, Swap(k))
    ensures Inv(Swapped(s, k), search)
  {
    var t, o := Swapped(s, k), Ordered(s, search);
    assert Ordered(t, search) == o[k := o[k + 1]][k + 1 := o[k]];
    forall i | 0 <= i < |t.items|
      ensures ItemOk(t, search, i)
    {
      assert ItemOk(s, search, i);
    }
  }

  lemma WriterKeeps(s: State, search: string -> int, a: Action)
    requires Inv(s, search) && Enabled(s, a) && (a.WalkDone? || a.SortDone? || a.Write?)
    ensures Inv(Apply(s, search, a), search)
  {
    var t := Apply(s, search, a);
    forall i | 0 <= i < |t.items|
      ensures ItemOk(t, search, i)
    {
      assert ItemOk(s, search, i);
    }
    SameLines(s, t, search);
    if a.Write? {
      assert ItemOk(s, search, s.order[|s.out|]);
    }
  }

  lemma StepKeeps(s: State, search: string -> int, a: Action)
    requires Inv(s, search) && Enabled(s, a)
    ensures Inv(Apply(s, search, a), search)
  {
    match a
    case Find(k) => FindKeeps(s, search, k);
    case StartThread => ThreadKeeps(s, search, a);
    case Search(_) => ThreadKeeps(s, search, a);
    case Swap(k) => SwapKeeps(s, search, k);
    case _ => WriterKeeps(s, search, a);
  }

  predicate Runs(s: State, search: string -> int, run: seq<Action>, t: State)
    decreases |run|
  {
    if run == [] then s == t
    else Typed(s) && Enabled(s, run[0]) && Runs(Apply(s, search, run[0]), search, run[1..], t)
  }

  function PathsOf(items: seq<Item>): (r: seq<string>)
    ensures |r| == |items|
  {
    seq(|items|, i requires 0 <= i < |items| => items[i].path)
  }

  /** What has been found and what has not, together. */
  function Paths(s: State): seq<string> { PathsOf(s.items) + s.todo }

  lemma PathsStay(a: seq<Item>, b: seq<Item>)
    requires |a| == |b| && forall i :: 0 <= i < |a| ==> a[i].path == b[i].path
    ensures PathsOf(a) == PathsOf(b)
  {
  }

  lemma StepPaths(s: State, search: string -> int, a: Action)
    requires Typed(s) && Enabled(s, a)
    ensures Paths(Apply(s, search, a)) == Paths(s)
  {
    var t := Apply(s, search, a);
    if a.Find? {
      assert PathsOf(t.items) == PathsOf(s.items) + [s.todo[0]];
      assert s.todo == [s.todo[0]] + s.todo[1..];
    } else {
      PathsStay(t.items, s.items);
    }
  }

  lemma {:induction false} RunKeeps(s: State, search: string -> int, run: seq<Action>, t: State)
    requires Inv(s, search) && Runs(s, search, run, t)
    ensures Inv(t, search) && Paths(t) == Paths(s)
    decreases |run|
  {
    if run != [] {
      StepKeeps(s, search, run[0]);
      StepPaths(s, search, run[0]);
      RunKeeps(Apply(s, search, run[0]), search, run[1..], t);
    }
  }

  /** The root has been added. */
  function Begin(root: string, paths: seq<string>): State {
    State(paths, [Item(root, 0, Root)], [0], Walking, [])
  }

  predicate Over(s: State) { s.stage == Writing && |s.out| == |s.order| }

  /**
   Whatever the schedule of walker, threads, sort and writer: every count printed is the one
   the sequential program prints for that path, and a finished listing prints exactly the
   lines of the sequential program, each once.
   */
  lemma SameCounts(root: string, paths: seq<string>, search: string -> int, run: seq<Action>, t: State)
    requires Runs(Begin(root, paths), search, run, t)
    ensures Inv(t, search)
    ensures forall i :: 0 <= i < |t.out| ==> t.out[i] == LineOf(t.items[t.order[i]], search)
    ensures Over(t) ==> multiset(t.out) == multiset(Sequential(root, paths, search))
  {
    var s := Begin(root, paths);
    assert ItemOk(s, search, 0);
    assert LinesOf(s.items, search) == [Line(root, 0)] == Ordered(s, search);
    RunKeeps(s, search, run, t);
    if Over(t) {
      assert t.out == Ordered(t, search);
      forall i | 0 <= i < |t.items|
        ensures LinesOf(t.items, search)[i] == Sequential(root, paths, search)[i]
      {
        assert ItemOk(t, search, i);
        assert Paths(t)[i] == Paths(s)[i];
      }
      assert |t.items| == |Paths(t)| == |Paths(s)|;
      assert LinesOf(t.items, search) == Sequential(root, paths, search);
    }
  }

  /**
   Nothing waits for ever: until everything is printed, some step other than a swap is possible;
   and the list is free to take any order: an item goes anywhere, any two neighbours are exchanged.
   */
  lemma NotStuck(s: State, search: string -> int)
    requires Inv(s, search) && !Over(s)
    ensures exists a: Action :: !a.Swap? && Enabled(s, a)
    ensures s.stage == Walking && s.todo != [] ==> forall k: nat :: k <= |s.order| ==> Enabled(s, Find(k))
    ensures s.stage == Sorting ==> forall k: nat :: k + 1 < |s.order| ==> Enabled(s, Swap(k))
  {
    match s.stage
    case Walking => assert Enabled(s, WalkDone) || Enabled(s, Find(0));
    case Starting => assert Enabled(s, StartThread);
    case Sorting => assert Enabled(s, SortDone);
    case Writing =>
      var i := s.order[|s.out|];
      assert ItemOk(s, search, i);
      assert Enabled(s, Search(i)) || Enabled(s, Write);
  }

  // ----- how long it takes -----

  /** Steps an item's thread has still to take. */
  function Duty(x: Item): nat {
    match x.thread
    case Unborn => 2
    case Searching => 1
    case _ => 0
  }

  /** Steps still to be taken: four for each item not found yet, the threads' own, two changes of stage, the lines. */
  function Work(s: State): int {
    4 * |s.todo| + Total(Duty, s.items) + |s.order| - |s.out|
    + match s.stage case Writing => 0 case Sorting => 1 case _ => 2
  }

  lemma StepWork(s: State, search: string -> int, a: Action)
    requires Inv(s, search) && Enabled(s, a)
    ensures Work(Apply(s, search, a)) == Work(s) - if a.Swap? then 0 else 1
  {
    var n := |s.items| - 1;
    match a
    case Find(_) => TotalAppend(Duty, s.items, [Item(s.todo[0], UNSEARCHED, Unborn)]);
    case StartThread =>
      assert ItemOk(s, search, n);
      TotalUpdate(Duty, s.items, n, s.items[n].(thread := Searching));
    case Search(i) =>
      TotalUpdate(Duty, s.items, i, s.items[i].(count := search(s.items[i].path), thread := Finished));
    case _ =>
  }

  /** The steps of a run other than the exchanges of the sort. */
  function Steps(run: seq<Action>): nat { Total((a: Action) => if a.Swap? then 0 else 1, run) }

  lemma {:induction false} RunWork(s: State, search: string -> int, run: seq<Action>, t: State)
    requires Inv(s, search) && Runs(s, search, run, t)
    ensures Steps(run) + Work(t) == Work(s)
    decreases |run|
  {
    if run != [] {
      StepKeeps(s, search, run[0]);
      StepWork(s, search, run[0]);
      RunWork(Apply(s, search, run[0]), search, run[1..], t);
    }
  }

  /**
   Whatever the schedule, apart from the exchanges of the sort a listing takes no more than three
   steps and four for each path, and one that takes so many has printed everything.
   */
  lemma RunsEnd(root: string, paths: seq<string>, search: string -> int, run: seq<Action>, t: State)
    requires Runs(Begin(root, paths), search, run, t)
    ensures Steps(run) <= 4 * |paths| + 3
    ensures Steps(run) == 4 * |paths| + 3 ==> Over(t)
  {
    SameCounts(root, paths, search, [], Begin(root, paths));
    SameCounts(root, paths, search, run, t);
    RunWork(Begin(root, paths), search, run, t);
    assert Total(Duty, [Item(root, 0, Root)]) == 0;
  }
}
