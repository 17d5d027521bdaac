/**
 When a bounded buffer can lose an item.  The server creates its buffer with 10 permissions
 whatever its size, so that there may be more permissions than slots.
 */
module BufferOverrun {
  import opened Arithmetic
  import opened BoundedBuffer
  import opened BufferDelivery

  /** Producer `i` is about to put an item on a cell nobody has taken. */
  predicate Overwrites(s: State, i: nat) {
    && Sized(s) && Enabled(s, Put(i))
    && exists d :: 0 <= d < Unread(s) && d < s.size && Place(s.get, d, s.size) == s.put
  }

  ghost predicate CanOverwrite(s: State) { exists run, t, i :: Runs(s, run, t) && Overwrites(t, i) }

  // ----- how much there is to put -----

  function Items(ps: seq<Producer>): nat { if ps == [] then 0 else |ps[0].items| + Items(ps[1..]) }

  /** How many of the items have been put. */
  function Stored(ps: seq<Producer>): nat { if ps == [] then 0 else ps[0].done + Stored(ps[1..]) }

  lemma {:induction false} StoredUpdate(ps: seq<Producer>, i: nat, p: Producer)
    requires i < |ps| && p.items == ps[i].items
    ensures Items(ps[i := p]) == Items(ps) && Stored(ps[i := p]) == Stored(ps) - ps[i].done + p.done
  {
    if i == 0 {
      assert ps[i := p][1..] == ps[1..];
    } else {
      assert ps[i := p][1..] == ps[1..][i - 1 := p];
      StoredUpdate(ps[1..], i - 1, p);
    }
  }

  predicate Possible(ps: seq<Producer>) { forall i :: 0 <= i < |ps| ==> ps[i].done <= |ps[i].items| }

  /** Something is left to put exactly if some producer has not put all of its items. */
  lemma {:induction false} StoredAtMost(ps: seq<Producer>)
    requires Possible(ps)
    ensures Stored(ps) <= Items(ps)
    ensures Stored(ps) < Items(ps) <==> exists i :: 0 <= i < |ps| && ps[i].done < |ps[i].items|
  {
    if ps != [] {
      StoredAtMost(ps[1..]);
      if i :| 0 <= i < |ps[1..]| && ps[1..][i].done < |ps[1..][i].items| {
        assert ps[i + 1].done < |ps[i + 1].items|;
      }
    }
  }

  lemma {:induction false} NoneStored(ps: seq<Producer>)
    requires forall i :: 0 <= i < |ps| ==> ps[i].done == 0
    ensures Stored(ps) == 0 && Possible(ps)
  {
    if ps != [] {
      NoneStored(ps[1..]);
    }
  }

  // ----- few items, or few permissions -----

  /** The positions are those of a buffer that never holds more items than slots. */
  predicate Few(s: State) {
    && Sized(s) && Balanced(s) && Possible(s.prods) && |s.hist| == Stored(s.prods) && Items(s.prods) <= s.size
    && 0 <= Unread(s) <= s.size && s.put == Place(s.get, Unread(s), s.size)
  }

  lemma FewPut(s: State, i: nat)
    requires Few(s) && Enabled(s, Put(i)) && Balanced(PutNow(s, i))
    ensures Unread(s) < s.size && !Overwrites(s, i) && Few(PutNow(s, i))
  {
    var t := PutNow(s, i);
    StoredAtMost(s.prods);
    StoredUpdate(s.prods, i, t.prods[i]);
  }

  lemma FewGet(s: State, j: nat)
    requires Few(s) && Enabled(s, Get(j)) && Balanced(GetNow(s, j))
    ensures Few(GetNow(s, j))
  {
    SomeConsumer(s.cons, j);
  }

  /** Waiting and posting move nothing. */
  lemma FewWait(s: State, t: State)
    requires Few(s) && Balanced(t) && t == s.(prods := t.prods, cons := t.cons, empty := t.empty, full := t.full)
    requires t.prods == s.prods || (|t.prods| == |s.prods| &&
      exists i :: 0 <= i < |s.prods| && t.prods == s.prods[i := s.prods[i].(stage := t.prods[i].stage)])
    ensures Few(t)
  {
    if t.prods != s.prods {
      var i :| 0 <= i < |s.prods| && t.prods == s.prods[i := s.prods[i].(stage := t.prods[i].stage)];
      StoredUpdate(s.prods, i, t.prods[i]);
    }
  }

  lemma FewStep(s: State, a: Action)
    requires Few(s) && Enabled(s, a)
    ensures Few(Apply(s, a)) && (a.Put? ==> !Overwrites(s, a.i))
  {
    BalancedStep(s, a);
    match a
    case Put(i) => FewPut(s, i);
    case Get(j) => FewGet(s, j);
    case WaitEmpty(i) =>
      assert Apply(s, a).prods == s.prods[i := s.prods[i].(stage := Apply(s, a).prods[i].stage)];
      FewWait(s, Apply(s, a));
    case PostFull(i) =>
      assert Apply(s, a).prods == s.prods[i := s.prods[i].(stage := Apply(s, a).prods[i].stage)];
      FewWait(s, Apply(s, a));
    case _ => FewWait(s, Apply(s, a));
  }

  /** Enough slots for all permissions, or for all items. */
  predicate Enough(s: State) { (Balanced(s) && Intact(s)) || Few(s) }

  lemma EnoughStep(s: State, a: Action)
    requires Enough(s) && Enabled(s, a)
    ensures Sized(s) && Enough(Apply(s, a))
  {
    if Few(s) {
      FewStep(s, a);
    } else {
      BalancedStep(s, a);
      IntactStep(s, a);
    }
  }

  lemma EnoughIsSafe(s: State, i: nat)
    requires Enough(s)
    ensures !Overwrites(s, i)
  {
    if Enabled(s, Put(i)) {
      if Few(s) {
        FewStep(s, Put(i));
      } else {
        PutIsSafe(s, i);
      }
    }
  }

  lemma {:induction false} SafeRun(s: State, run: seq<Action>, t: State, i: nat)
    requires Enough(s) && Runs(s, run, t)
    ensures !Overwrites(t, i)
    decreases |run|
  {
    if run == [] {
      EnoughIsSafe(t, i);
    } else {
      EnoughStep(s, run[0]);
      SafeRun(Apply(s, run[0]), run[1..], t, i);
    }
  }

  lemma StartEnough(s: State)
    requires Start(s) && (s.tokens <= s.size || Items(s.prods) <= s.size)
    ensures Enough(s)
  {
    NoneBusy(s.prods, s.cons, Holding, Taking);
    NoneBusy(s.prods, s.cons, Filled, Emptied);
    NoneStored(s.prods);
  }

  // ----- too few slots for both -----

  /** Producers have filled the first `k` slots, one after the other, while no consumer got a turn. */
  predicate Ahead(s: State, k: nat) {
    && Sized(s) && Possible(s.prods) && (forall i :: 0 <= i < |s.prods| ==> s.prods[i].stage == Idle)
    && Stored(s.prods) == k == |s.hist| && s.taken == [] && s.get == 0
    && k <= s.size && s.put == (if k == s.size then 0 else k) && s.empty + k == s.tokens
  }

  predicate Same(s: State, t: State) { t.size == s.size && t.tokens == s.tokens && Items(t.prods) == Items(s.prods) }

  lemma {:induction false} RunsJoin(s: State, one: seq<Action>, u: State, two: seq<Action>, t: State)
    requires Runs(s, one, u) && Runs(u, two, t)
    ensures Runs(s, one + two, t)
    decreases |one|
  {
    if one == [] {
      assert one + two == two;
    } else {
      assert (one + two)[1..] == one[1..] + two;
      RunsJoin(Apply(s, one[0]), one[1..], u, two, t);
    }
  }

  lemma {:induction false} FirstUnfinished(ps: seq<Producer>, n: nat) returns (i: nat)
    requires n < |ps| && ps[n].done < |ps[n].items| && Possible(ps)
    ensures i <= n && ps[i].done < |ps[i].items| && forall k :: 0 <= k < i ==> ps[k].done == |ps[k].items|
    decreases n
  {
    if k :| 0 <= k < n && ps[k].done < |ps[k].items| {
      i := FirstUnfinished(ps, k);
    } else {
      i := n;
    }
  }

  /** With items and permissions left, the first producer that has not finished may go on. */
  lemma NextProducer(s: State, k: nat) returns (i: nat)
    requires Ahead(s, k) && k < s.tokens && k < Items(s.prods)
    ensures Enabled(s, WaitEmpty(i))
  {
    StoredAtMost(s.prods);
    var n :| 0 <= n < |s.prods| && s.prods[n].done < |s.prods[n].items|;
    i := FirstUnfinished(s.prods, n);
  }

  lemma OneRound(s: State, k: nat) returns (run: seq<Action>, t: State)
    requires Ahead(s, k) && k < s.size && k < s.tokens && k < Items(s.prods)
    ensures Runs(s, run, t) && Ahead(t, k + 1) && Same(s, t)
  {
    var i := NextProducer(s, k);
    var a, b, c := WaitEmpty(i), Put(i), PostFull(i);
    var u := Apply(s, a);
    var v := Apply(u, b);
    t := Apply(v, c);
    run := [a, b, c];
    assert run[1..] == [b, c] && [b, c][1..] == [c] && [c][1..] == [];
    assert Runs(v, [c], t);
    assert Runs(u, [b, c], t);
    StoredUpdate(s.prods, i, t.prods[i]);
    assert t.prods == s.prods[i := t.prods[i]];
  }

  lemma {:induction false} Fills(s: State, k: nat) returns (run: seq<Action>, t: State)
    requires Ahead(s, 0) && k <= s.size && k <= s.tokens && k <= Items(s.prods)
    ensures Runs(s, run, t) && Ahead(t, k) && Same(s, t)
    decreases k
  {
    if k == 0 {
      run, t := [], s;
    } else {
      var one, u := Fills(s, k - 1);
      var two;
      two, t := OneRound(u, k - 1);
      RunsJoin(s, one, u, two, t);
      run := one + two;
    }
  }

  lemma Overruns(s: State) returns (run: seq<Action>, t: State, i: nat)
    requires Start(s) && s.tokens > s.size && Items(s.prods) > s.size
    ensures Runs(s, run, t) && Overwrites(t, i)
  {
    NoneStored(s.prods);
    var one, u := Fills(s, s.size);
    i := NextProducer(u, s.size);
    var a := WaitEmpty(i);
    t := Apply(u, a);
    assert [a][1..] == [];
    assert Runs(u, [a], t);
    RunsJoin(s, one, u, [a], t);
    run := one + [a];
    assert Place(t.get, 0, t.size) == t.put;
  }

  /**
   For any number of producers and consumers: some schedule puts an item on a cell that nobody
   has taken, if and only if there are more permissions than slots and more items than slots.
   */
  lemma OverwriteIff(s: State)
    requires Start(s)
    ensures CanOverwrite(s) <==> s.tokens > s.size && Items(s.prods) > s.size
  {
    if s.tokens > s.size && Items(s.prods) > s.size {
      var run, t, i := Overruns(s);
    } else {
      StartEnough(s);
      forall run, t, i | Runs(s, run, t)
        ensures !Overwrites(t, i)
      {
        SafeRun(s, run, t, i);
      }
    }
  }
}
