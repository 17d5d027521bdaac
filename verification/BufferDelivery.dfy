/** Whole runs of the bounded buffers: no slot is overwritten, and what consumers have received when they stop. */
module BufferDelivery {
  import opened Arithmetic
  import opened BoundedBuffer

  predicate Start(s: State) {
    && Sized(s) && s.put == s.get == 0 && s.hist == s.taken == [] && s.empty == s.tokens && s.full == 0
    && (forall i :: 0 <= i < |s.prods| ==> s.prods[i].done == 0 && s.prods[i].stage == Idle)
    && (forall j :: 0 <= j < |s.cons| ==> s.cons[j].got == [] && s.cons[j].stage == Waiting)
  }

  predicate Runs(s: State, run: seq<Action>, t: State)
    decreases |run|
  {
    if run == [] then s == t else Sized(s) && Enabled(s, run[0]) && Runs(Apply(s, run[0]), run[1..], t)
  }

  predicate Inv(s: State) { Balanced(s) && Intact(s) && AllInOrder(s) && EndOk(s) }

  /** What no step changes. */
  predicate SameScript(s: State, t: State) {
    && t.size == s.size && t.tokens == s.tokens && |t.prods| == |s.prods| && |t.cons| == |s.cons|
    && forall w :: 0 <= w < |s.prods| ==> t.prods[w].items == s.prods[w].items
  }

  lemma {:induction false} NoneBusy(ps: seq<Producer>, cs: seq<Consumer>, p: PStage, c: CStage)
    requires forall i :: 0 <= i < |ps| ==> ps[i].stage != p
    requires forall j :: 0 <= j < |cs| ==> cs[j].stage != c
    ensures Producers(ps, p) == 0 && Consumers(cs, c) == 0
  {
    if ps != [] {
      NoneBusy(ps[1..], cs, p, c);
    } else if cs != [] {
      NoneBusy(ps, cs[1..], p, c);
    }
  }

  lemma {:induction false} NoneEnded(cs: seq<Consumer>)
    requires forall j :: 0 <= j < |cs| ==> cs[j].got == []
    ensures Ended(cs) == 0
  {
    if cs != [] {
      NoneEnded(cs[1..]);
    }
  }

  lemma StartOk(s: State)
    requires Start(s) && s.tokens <= s.size && Script(s.prods)
    ensures Inv(s)
  {
    NoneBusy(s.prods, s.cons, Holding, Taking);
    NoneBusy(s.prods, s.cons, Filled, Emptied);
    NoneEnded(s.cons);
    forall w | 0 <= w < |s.prods|
      ensures InOrder(s, w)
    {
    }
  }

  lemma StepKeeps(s: State, a: Action)
    requires Inv(s) && Enabled(s, a)
    ensures Inv(Apply(s, a)) && SameScript(s, Apply(s, a))
  {
    BalancedStep(s, a);
    IntactStep(s, a);
    InOrderStep(s, a);
    EndStep(s, a);
  }

  lemma {:induction false} RunKeeps(s: State, run: seq<Action>, t: State)
    requires Inv(s) && Runs(s, run, t)
    ensures Inv(t) && SameScript(s, t)
    decreases |run|
  {
    if run != [] {
      StepKeeps(s, run[0]);
      RunKeeps(Apply(s, run[0]), run[1..], t);
    }
  }

  /** With at most as many permissions as slots, no put ever falls on an unread cell, and every get takes the oldest. */
  lemma NeverOverwrites(s: State, run: seq<Action>, t: State, i: nat)
    requires Start(s) && s.tokens <= s.size && Script(s.prods) && Runs(s, run, t)
    ensures Sized(t) && |t.taken| <= |t.hist| && t.taken == t.hist[..|t.taken|]
    ensures Enabled(t, Put(i)) ==> forall d :: 0 <= d < Unread(t) <= t.size ==> Place(t.get, d, t.size) != t.put
    ensures Enabled(t, Get(i)) ==> Unread(t) > 0 && t.slots[t.get] == t.hist[|t.taken|]
  {
    StartOk(s);
    RunKeeps(s, run, t);
    if Enabled(t, Put(i)) {
      PutIsSafe(t, i);
    }
    if Enabled(t, Get(i)) {
      GetIsNext(t, i);
    }
  }

  // ----- what has arrived when the consumers have stopped -----

  predicate AllStopped(cs: seq<Consumer>) { forall j :: 0 <= j < |cs| ==> cs[j].stage == Stopped }

  lemma {:induction false} AllEnded(cs: seq<Consumer>)
    requires AllStopped(cs) && forall j :: 0 <= j < |cs| ==> ConsumerOk(cs[j])
    ensures Ended(cs) == |cs|
  {
    if cs != [] {
      assert ConsumerOk(cs[0]);
      AllEnded(cs[1..]);
    }
  }

  lemma {:induction false} SentinelsGrow(items: seq<Item>, k: nat, l: nat)
    requires k <= l <= |items|
    ensures Sentinels(items, k) <= Sentinels(items, l)
    ensures (l > k && items[l - 1] == Exit ==> Sentinels(items, k) < Sentinels(items, l))
    decreases l
  {
    if k < l {
      SentinelsGrow(items, k, l - 1);
    }
  }

  lemma {:induction false} ExitsSplit(h: seq<Cell>, g: nat)
    requires g <= |h|
    ensures Exits(h[..g]) <= Exits(h)
    ensures g < |h| && (forall k :: g <= k < |h| ==> h[k].item == Exit) ==> Exits(h[..g]) < Exits(h)
    decreases |h|
  {
    if g < |h| {
      var r := h[..|h| - 1];
      ExitsSplit(r, g);
      assert r[..g] == h[..g];
      if g == |r| {
        assert r[..g] == r;
      }
    } else {
      assert h[..g] == h;
    }
  }

  /** With as many sentinels taken as there are, nothing is left in the buffer, and the last producer has finished. */
  lemma AllOfIt(hist: seq<Cell>, g: nat, items: seq<Item>, done: nat)
    requires g <= |hist| && done <= |items| && Sentinels(items, |items|) == Exits(hist[..g]) > 0
    requires Exits(hist) == Sentinels(items, done)
    requires forall i, j :: 0 <= i < j < |hist| && hist[i].item == Exit ==> hist[j].item == Exit
    requires forall k, l :: 0 <= k < l < |items| && items[k] == Exit ==> items[l] == Exit
    ensures g == |hist| && done == |items| > 0
  {
    NoExits(hist[..g]);
    var k :| 0 <= k < g && hist[..g][k].item == Exit;
    assert hist[k].item == Exit;
    assert forall j :: g <= j < |hist| ==> hist[j].item == Exit;
    ExitsSplit(hist, g);
    SentinelsGrow(items, done, |items|);
    LastItem(items);
  }

  /** All the sentinels have been taken: then everything has. */
  lemma AllTaken(s: State)
    requires Inv(s) && |s.cons| > 0 && Ended(s.cons) == |s.cons|
    requires Sentinels(s.prods[|s.prods| - 1].items, |s.prods[|s.prods| - 1].items|) == |s.cons|
    ensures s.taken == s.hist && forall w :: 0 <= w < |s.prods| ==> s.prods[w].done == |s.prods[w].items|
  {
    var last := s.prods[|s.prods| - 1];
    AllOfIt(s.hist, |s.taken|, last.items, last.done);
    assert s.hist[..|s.hist|] == s.hist;
    assert Started(last);
  }

  lemma {:induction false} LastItem(items: seq<Item>)
    requires forall k, l :: 0 <= k < l < |items| && items[k] == Exit ==> items[l] == Exit
    requires Sentinels(items, |items|) > 0
    ensures items != [] && items[|items| - 1] == Exit
  {
    NoSentinels(items, |items|);
    var k :| 0 <= k < |items| && items[k] == Exit;
    assert k < |items| - 1 ==> items[|items| - 1] == Exit;
  }

  /**
   When all consumers have stopped, with one sentinel for each: every item of every producer
   has been taken exactly once and in its producer's order, sentinels last, and every consumer
   has taken exactly one sentinel.
   */
  lemma Delivered(s: State, run: seq<Action>, t: State)
    requires Start(s) && s.tokens <= s.size && Script(s.prods) && |s.cons| > 0 && Runs(s, run, t)
    requires Sentinels(s.prods[|s.prods| - 1].items, |s.prods[|s.prods| - 1].items|) == |s.cons|
    requires AllStopped(t.cons)
    ensures |t.prods| == |s.prods| && forall w :: 0 <= w < |s.prods| ==> OfProducer(t.taken, w) == s.prods[w].items
    ensures forall i, j :: 0 <= i < j < |t.taken| && t.taken[i].item == Exit ==> t.taken[j].item == Exit
    ensures forall j :: 0 <= j < |t.cons| ==> Exits(t.cons[j].got) == 1
  {
    StartOk(s);
    RunKeeps(s, run, t);
    AllEnded(t.cons);
    AllTaken(t);
    forall w | 0 <= w < |s.prods|
      ensures OfProducer(t.taken, w) == s.prods[w].items
    {
      assert InOrder(t, w);
    }
    forall j | 0 <= j < |t.cons|
      ensures Exits(t.cons[j].got) == 1
    {
      var got := t.cons[j].got;
      assert ConsumerOk(t.cons[j]);
      NoExits(got[..|got| - 1]);
    }
  }

  // ----- nobody is left waiting -----

  predicate Over(s: State) { (forall i :: 0 <= i < |s.prods| ==> Finished(s.prods[i])) && AllStopped(s.cons) }

  lemma {:induction false} NotAllEnded(cs: seq<Consumer>, j: nat)
    requires j < |cs| && (cs[j].got == [] || Last(cs[j].got) != Exit)
    ensures Ended(cs) < |cs|
  {
    if j > 0 {
      NotAllEnded(cs[1..], j - 1);
    } else {
      EndedAtMost(cs[1..]);
    }
  }

  lemma {:induction false} EndedAtMost(cs: seq<Consumer>)
    ensures Ended(cs) <= |cs|
  {
    if cs != [] {
      EndedAtMost(cs[1..]);
    }
  }

  /** Nobody is in the middle of a put or a get. */
  predicate Quiet(s: State) {
    && (forall i :: 0 <= i < |s.prods| ==> s.prods[i].stage == Idle)
    && (forall j :: 0 <= j < |s.cons| ==> s.cons[j].stage == Waiting || s.cons[j].stage == Stopped)
  }

  lemma QuietOrBusy(s: State)
    requires Inv(s) && !Quiet(s)
    ensures exists a: Action :: Enabled(s, a)
  {
    if i :| 0 <= i < |s.prods| && s.prods[i].stage != Idle {
      assert InOrder(s, i);
      assert Enabled(s, Put(i)) || Enabled(s, PostFull(i));
    } else {
      var j :| 0 <= j < |s.cons| && s.cons[j].stage != Waiting && s.cons[j].stage != Stopped;
      assert ConsumerOk(s.cons[j]);
      assert Enabled(s, Get(j)) || Enabled(s, PostEmpty(j));
    }
  }

  lemma UnfinishedProducer(s: State)
    requires Inv(s) && Quiet(s) && s.empty > 0 && exists i :: 0 <= i < |s.prods| && !Finished(s.prods[i])
    ensures exists a: Action :: Enabled(s, a)
  {
    var i :| 0 <= i < |s.prods| && !Finished(s.prods[i]);
    assert InOrder(s, i);
    if MayStart(s, i) {
      assert Enabled(s, WaitEmpty(i));
    } else {
      var k :| 0 <= k < i && !Finished(s.prods[k]);
      assert InOrder(s, k);
      assert Enabled(s, WaitEmpty(k));
    }
  }

  /** As long as not everybody has finished, somebody can go on. */
  lemma NotStuck(s: State)
    requires Inv(s) && s.tokens > 0 && |s.cons| > 0 && !Over(s)
    requires Sentinels(s.prods[|s.prods| - 1].items, |s.prods[|s.prods| - 1].items|) == |s.cons|
    ensures exists a: Action :: Enabled(s, a)
  {
    if !Quiet(s) {
      QuietOrBusy(s);
    } else {
      NoneBusy(s.prods, s.cons, Holding, Taking);
      NoneBusy(s.prods, s.cons, Filled, Emptied);
      if AllStopped(s.cons) {
        AllEnded(s.cons);
        AllTaken(s);
        UnfinishedProducer(s);
      } else if s.full > 0 {
        var j :| 0 <= j < |s.cons| && s.cons[j].stage != Stopped;
        assert Enabled(s, WaitFull(j));
      } else {
        SomeoneUnfinished(s);
        UnfinishedProducer(s);
      }
    }
  }

  /** With everything taken and a consumer still waiting, a producer has not finished. */
  lemma SomeoneUnfinished(s: State)
    requires Inv(s) && Quiet(s) && Unread(s) == 0 && !AllStopped(s.cons)
    requires Sentinels(s.prods[|s.prods| - 1].items, |s.prods[|s.prods| - 1].items|) == |s.cons|
    ensures exists i :: 0 <= i < |s.prods| && !Finished(s.prods[i])
  {
    var j :| 0 <= j < |s.cons| && s.cons[j].stage != Stopped;
    assert ConsumerOk(s.cons[j]);
    NotAllEnded(s.cons, j);
    assert s.hist[..|s.hist|] == s.hist;
    assert !Finished(s.prods[|s.prods| - 1]);
  }
}
