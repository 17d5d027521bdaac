/** Runs of the bounded buffers end: every step uses up one of the six that each item takes. */
module BufferProgress {
  import opened Arithmetic
  import opened BoundedBuffer
  import opened BufferDelivery
  import opened BufferOverrun

  /** The steps still to be made: six for an item not put yet, fewer for one on its way. */
  function Left(s: State): int {
    6 * (Items(s.prods) - Stored(s.prods)) - Producers(s.prods, Holding) + Producers(s.prods, Filled)
    + 3 * Unread(s) - Consumers(s.cons, Taking) + Consumers(s.cons, Emptied)
  }

  lemma ProducerUses(s: State, a: Action)
    requires Sized(s) && Enabled(s, a) && (a.WaitEmpty? || a.Put? || a.PostFull?)
    ensures Left(Apply(s, a)) == Left(s) - 1
  {
    var t := Apply(s, a);
    ProducersUpdate(s.prods, a.i, t.prods[a.i], Holding);
    ProducersUpdate(s.prods, a.i, t.prods[a.i], Filled);
    StoredUpdate(s.prods, a.i, t.prods[a.i]);
  }

  lemma ConsumerUses(s: State, a: Action)
    requires Sized(s) && Enabled(s, a) && (a.WaitFull? || a.Get? || a.PostEmpty?)
    ensures Left(Apply(s, a)) == Left(s) - 1
  {
    var t := Apply(s, a);
    ConsumersUpdate(s.cons, a.j, t.cons[a.j], Taking);
    ConsumersUpdate(s.cons, a.j, t.cons[a.j], Emptied);
  }

  /** Every step leaves exactly one step less. */
  lemma StepsRunOut(s: State, a: Action)
    requires Sized(s) && Enabled(s, a)
    ensures Left(Apply(s, a)) == Left(s) - 1
  {
    if a.WaitEmpty? || a.Put? || a.PostFull? {
      ProducerUses(s, a);
    } else {
      ConsumerUses(s, a);
    }
  }

  lemma {:induction false} HoldingHave(ps: seq<Producer>)
    requires forall i :: 0 <= i < |ps| ==> ps[i].done + (if ps[i].stage == Holding then 1 else 0) <= |ps[i].items|
    ensures Producers(ps, Holding) <= Items(ps) - Stored(ps)
  {
    if ps != [] {
      HoldingHave(ps[1..]);
    }
  }

  lemma LeftAtLeast(s: State)
    requires Inv(s)
    ensures Left(s) >= 0
  {
    forall i | 0 <= i < |s.prods|
      ensures s.prods[i].done + (if s.prods[i].stage == Holding then 1 else 0) <= |s.prods[i].items|
    {
      assert InOrder(s, i);
    }
    HoldingHave(s.prods);
  }

  lemma {:induction false} RunUses(s: State, run: seq<Action>, t: State)
    requires Inv(s) && Runs(s, run, t)
    ensures Left(t) == Left(s) - |run|
    decreases |run|
  {
    if run != [] {
      StepsRunOut(s, run[0]);
      StepKeeps(s, run[0]);
      RunUses(Apply(s, run[0]), run[1..], t);
    }
  }

  lemma StartLeft(s: State)
    requires Start(s)
    ensures Left(s) == 6 * Items(s.prods)
  {
    NoneBusy(s.prods, s.cons, Holding, Taking);
    NoneBusy(s.prods, s.cons, Filled, Emptied);
    NoneStored(s.prods);
  }

  lemma {:induction false} AllStored(ps: seq<Producer>)
    requires forall i :: 0 <= i < |ps| ==> ps[i].done == |ps[i].items|
    ensures Stored(ps) == Items(ps)
  {
    if ps != [] {
      AllStored(ps[1..]);
    }
  }

  lemma OverLeft(s: State)
    requires Inv(s) && |s.cons| > 0 && Over(s)
    requires Sentinels(s.prods[|s.prods| - 1].items, |s.prods[|s.prods| - 1].items|) == |s.cons|
    ensures Left(s) == 0
  {
    AllEnded(s.cons);
    AllTaken(s);
    AllStored(s.prods);
    NoneBusy(s.prods, s.cons, Holding, Taking);
    NoneBusy(s.prods, s.cons, Filled, Emptied);
  }

  /**
   Every schedule ends: a run has at most six steps for each item, and one that cannot go on has
   exactly that many, with all producers finished and all consumers stopped, each with one sentinel.
   */
  lemma RunsEnd(s: State, run: seq<Action>, t: State)
    requires Start(s) && 0 < s.tokens <= s.size && Script(s.prods) && |s.cons| > 0 && Runs(s, run, t)
    requires Sentinels(s.prods[|s.prods| - 1].items, |s.prods[|s.prods| - 1].items|) == |s.cons|
    ensures |run| <= 6 * Items(s.prods)
    ensures |run| == 6 * Items(s.prods) <==> !exists a: Action :: Enabled(t, a)
    ensures |run| == 6 * Items(s.prods) ==> Over(t) && forall j :: 0 <= j < |t.cons| ==> Exits(t.cons[j].got) == 1
  {
    StartOk(s);
    RunKeeps(s, run, t);
    StartLeft(s);
    RunUses(s, run, t);
    LeftAtLeast(t);
    if !Over(t) {
      NotStuck(t);
      var a: Action :| Enabled(t, a);
      StepsRunOut(t, a);
      StepKeeps(t, a);
      LeftAtLeast(Apply(t, a));
    } else {
      OverLeft(t);
      Delivered(s, run, t);
      forall a: Action ensures !Enabled(t, a) {
        if Enabled(t, a) {
          StepsRunOut(t, a);
          StepKeeps(t, a);
          LeftAtLeast(Apply(t, a));
        }
      }
    }
  }
}
