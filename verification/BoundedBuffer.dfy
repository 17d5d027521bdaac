/**
 The bounded buffers of `server-rev1.c` and `buf.c`: producers and consumers share a ring of
 slots under the semaphores `empty`, `full` and `mutex`.  In the server the workers produce,
 the main thread adds the sentinel once it has joined them, and the printer consumes; in
 `buf.c` one producer ends with a sentinel for every consumer.
 */
module BoundedBuffer {
  import opened Arithmetic

  datatype Item = Line(text: string) | Exit

  /** A slot's content; `from` says which producer put it there. */
  datatype Cell = Cell(from: nat, item: Item)

  datatype PStage = Idle | Holding | Filled          // before, with a token of `empty`, before posting `full`

  datatype Producer = Producer(items: seq<Item>, done: nat, stage: PStage)

  datatype CStage = Waiting | Taking | Emptied | Stopped

  datatype Consumer = Consumer(got: seq<Cell>, stage: CStage)

  /** `size` slots and `tokens` initial permissions; `hist` and `taken` are all that was put and taken so far. */
  datatype State = State(size: nat, tokens: nat, slots: seq<Cell>, put: nat, get: nat, empty: nat, full: nat,
                         prods: seq<Producer>, cons: seq<Consumer>, hist: seq<Cell>, taken: seq<Cell>)

  datatype Action =
    | WaitEmpty(i: nat)
    | Put(i: nat)
    | PostFull(i: nat)
    | WaitFull(j: nat)
    | Get(j: nat)
    | PostEmpty(j: nat)

  predicate Finished(p: Producer) { p.done == |p.items| && p.stage == Idle }

  /** The last producer starts once the others have been joined. */
  predicate MayStart(s: State, i: nat)
    requires i < |s.prods|
  {
    i == |s.prods| - 1 ==> forall k :: 0 <= k < i ==> Finished(s.prods[k])
  }

  predicate Sized(s: State) { s.size > 0 && |s.slots| == s.size && s.put < s.size && s.get < s.size }

  predicate Enabled(s: State, a: Action) {
    match a
    case WaitEmpty(i) => i < |s.prods| && s.prods[i].stage == Idle && s.prods[i].done < |s.prods[i].items|
          && MayStart(s, i) && s.empty > 0
    case Put(i) => i < |s.prods| && s.prods[i].stage == Holding && s.prods[i].done < |s.prods[i].items|
    case PostFull(i) => i < |s.prods| && s.prods[i].stage == Filled
    case WaitFull(j) => j < |s.cons| && s.cons[j].stage == Waiting && s.full > 0
    case Get(j) => j < |s.cons| && s.cons[j].stage == Taking
    case PostEmpty(j) => j < |s.cons| && s.cons[j].stage == Emptied && s.cons[j].got != []
  }

  /** `put`, `do_fill`: into the slot at `cur_put`, which moves on round the ring. */
  function PutNow(s: State, i: nat): State
    requires Sized(s) && Enabled(s, Put(i))
  {
    var p := s.prods[i];
    var c := Cell(i, p.items[p.done]);
    s.(slots := s.slots[s.put := c], put := Fold(s.put + 1, s.size), hist := s.hist + [c],
       prods := s.prods[i := p.(done := p.done + 1, stage := Filled)])
  }

  /** `getitem`, `do_get`. */
  function GetNow(s: State, j: nat): State
    requires Sized(s) && Enabled(s, Get(j))
  {
    var c := s.slots[s.get];
    s.(get := Fold(s.get + 1, s.size), taken := s.taken + [c],
       cons := s.cons[j := Consumer(s.cons[j].got + [c], Emptied)])
  }

  function Last(got: seq<Cell>): Item
    requires got != []
  {
    got[|got| - 1].item
  }

  function Apply(s: State, a: Action): State
    requires Sized(s) && Enabled(s, a)
  {
    match a
    case WaitEmpty(i) => s.(empty := s.empty - 1, prods := s.prods[i := s.prods[i].(stage := Holding)])
    case Put(i) => PutNow(s, i)
    case PostFull(i) => s.(full := s.full + 1, prods := s.prods[i := s.prods[i].(stage := Idle)])
    case WaitFull(j) => s.(full := s.full - 1, cons := s.cons[j := s.cons[j].(stage := Taking)])
    case Get(j) => GetNow(s, j)
    case PostEmpty(j) =>
      s.(empty := s.empty + 1,
         cons := s.cons[j := s.cons[j].(stage := if Last(s.cons[j].got) == Exit then Stopped else Waiting)])
  }

  // ----- counting tokens -----

  function Producers(ps: seq<Producer>, st: PStage): nat {
    if ps == [] then 0 else (if ps[0].stage == st then 1 else 0) + Producers(ps[1..], st)
  }

  function Consumers(cs: seq<Consumer>, st: CStage): nat {
    if cs == [] then 0 else (if cs[0].stage == st then 1 else 0) + Consumers(cs[1..], st)
  }

  lemma {:induction false} ProducersUpdate(ps: seq<Producer>, i: nat, p: Producer, st: PStage)
    requires i < |ps|
    ensures Producers(ps[i := p], st) == Producers(ps, st) - (if ps[i].stage == st then 1 else 0)
          + (if p.stage == st then 1 else 0)
  {
    if i == 0 {
      assert ps[i := p][1..] == ps[1..];
    } else {
      assert ps[i := p][1..] == ps[1..][i - 1 := p];
      ProducersUpdate(ps[1..], i - 1, p, st);
    }
  }

  lemma {:induction false} ConsumersUpdate(cs: seq<Consumer>, j: nat, c: Consumer, st: CStage)
    requires j < |cs|
    ensures Consumers(cs[j := c], st) == Consumers(cs, st) - (if cs[j].stage == st then 1 else 0)
          + (if c.stage == st then 1 else 0)
  {
    if j == 0 {
      assert cs[j := c][1..] == cs[1..];
    } else {
      assert cs[j := c][1..] == cs[1..][j - 1 := c];
      ConsumersUpdate(cs[1..], j - 1, c, st);
    }
  }

  function Unread(s: State): int { |s.hist| - |s.taken| }

  /** Every permission and every filled slot is accounted for. */
  predicate Balanced(s: State) {
    && s.empty + Producers(s.prods, Holding) + Unread(s) + Consumers(s.cons, Emptied) == s.tokens
    && s.full + Producers(s.prods, Filled) + Consumers(s.cons, Taking) == Unread(s)
  }

  lemma {:induction false} BalancedStep(s: State, a: Action)
    requires Sized(s) && Balanced(s) && Enabled(s, a)
    ensures Balanced(Apply(s, a))
  {
    var t := Apply(s, a);
    match a
    case WaitEmpty(i) =>
      ProducersUpdate(s.prods, i, t.prods[i], Holding);
      ProducersUpdate(s.prods, i, t.prods[i], Filled);
    case Put(i) =>
      ProducersUpdate(s.prods, i, t.prods[i], Holding);
      ProducersUpdate(s.prods, i, t.prods[i], Filled);
    case PostFull(i) =>
      ProducersUpdate(s.prods, i, t.prods[i], Holding);
      ProducersUpdate(s.prods, i, t.prods[i], Filled);
    case WaitFull(j) =>
      ConsumersUpdate(s.cons, j, t.cons[j], Taking);
      ConsumersUpdate(s.cons, j, t.cons[j], Emptied);
    case Get(j) =>
      ConsumersUpdate(s.cons, j, t.cons[j], Taking);
      ConsumersUpdate(s.cons, j, t.cons[j], Emptied);
    case PostEmpty(j) =>
      ConsumersUpdate(s.cons, j, t.cons[j], Taking);
      ConsumersUpdate(s.cons, j, t.cons[j], Emptied);
  }

  lemma {:induction false} SomeProducer(ps: seq<Producer>, i: nat)
    requires i < |ps|
    ensures Producers(ps, ps[i].stage) > 0
  {
    if i > 0 {
      SomeProducer(ps[1..], i - 1);
    }
  }

  lemma {:induction false} SomeConsumer(cs: seq<Consumer>, j: nat)
    requires j < |cs|
    ensures Consumers(cs, cs[j].stage) > 0
  {
    if j > 0 {
      SomeConsumer(cs[1..], j - 1);
    }
  }

  // ----- nothing is overwritten -----

  /** The slot `d` places after `get`. */
  function Place(get: nat, d: nat, size: nat): (p: nat)
    requires get < size && d <= size
    ensures p < size
  {
    Fold(get + d, size)
  }

  /** The unread cells lie in order from `get` on, and what was taken is what was put before them. */
  predicate Intact(s: State) {
    && Sized(s) && 0 <= Unread(s) <= s.tokens <= s.size
    && s.taken == s.hist[..|s.taken|]
    && s.put == Place(s.get, Unread(s), s.size)
    && forall d {:trigger Place(s.get, d, s.size)} :: 0 <= d < Unread(s) ==>
      s.slots[Place(s.get, d, s.size)] == s.hist[|s.taken| + d]
  }

  /** A producer that may put finds its slot free of unread cells. */
  lemma PutIsSafe(s: State, i: nat)
    requires Intact(s) && Balanced(s) && Enabled(s, Put(i))
    ensures Unread(s) < s.size && Intact(PutNow(s, i))
    ensures forall d :: 0 <= d < Unread(s) ==> Place(s.get, d, s.size) != s.put
  {
    SomeProducer(s.prods, i);
    PutFree(s, i);
  }

  lemma PutFree(s: State, i: nat)
    requires Intact(s) && Enabled(s, Put(i)) && Unread(s) < s.tokens
    ensures Intact(PutNow(s, i))
  {
    var t := PutNow(s, i);
    forall d | 0 <= d < Unread(t)
      ensures t.slots[Place(t.get, d, t.size)] == t.hist[|t.taken| + d]
    {
      if d < Unread(s) {
        assert Place(s.get, d, s.size) != s.put;
      }
    }
  }

  lemma GetIsNext(s: State, j: nat)
    requires Intact(s) && Balanced(s) && Enabled(s, Get(j))
    ensures Unread(s) > 0 && s.slots[s.get] == s.hist[|s.taken|] && Intact(GetNow(s, j))
  {
    SomeConsumer(s.cons, j);
    var t := GetNow(s, j);
    assert Place(s.get, 0, s.size) == s.get;
    assert s.slots[s.get] == s.hist[|s.taken|];
    assert t.put == Place(t.get, Unread(t), t.size);
    forall d | 0 <= d < Unread(t)
      ensures t.slots[Place(t.get, d, t.size)] == t.hist[|t.taken| + d]
    {
      assert Place(t.get, d, t.size) == Place(s.get, d + 1, s.size);
    }
  }

  lemma IntactStep(s: State, a: Action)
    requires Intact(s) && Balanced(s) && Enabled(s, a)
    ensures Intact(Apply(s, a))
  {
    match a
    case Put(i) => PutIsSafe(s, i);
    case Get(j) => GetIsNext(s, j);
    case _ =>
  }

  // ----- every producer's items, in its order -----

  function OfProducer(h: seq<Cell>, w: nat): seq<Item> {
    if h == [] then []
    else OfProducer(h[..|h| - 1], w) + if h[|h| - 1].from == w then [h[|h| - 1].item] else []
  }

  predicate InOrder(s: State, w: nat)
    requires w < |s.prods|
  {
    && s.prods[w].done <= |s.prods[w].items| && OfProducer(s.hist, w) == s.prods[w].items[..s.prods[w].done]
    && (s.prods[w].stage == Holding ==> s.prods[w].done < |s.prods[w].items|)
  }

  predicate AllInOrder(s: State) { forall w {:trigger InOrder(s, w)} :: 0 <= w < |s.prods| ==> InOrder(s, w) }

  lemma InOrderStep(s: State, a: Action)
    requires Sized(s) && AllInOrder(s) && Enabled(s, a)
    ensures AllInOrder(Apply(s, a))
  {
    var t := Apply(s, a);
    forall w | 0 <= w < |t.prods|
      ensures InOrder(t, w)
    {
      assert InOrder(s, w);
      if a.Put? {
        assert t.hist[..|t.hist| - 1] == s.hist;
      }
    }
  }

  // ----- sentinels -----

  function Exits(h: seq<Cell>): nat {
    if h == [] then 0 else Exits(h[..|h| - 1]) + if h[|h| - 1].item == Exit then 1 else 0
  }

  /** Sentinels among the first `k` items of a producer. */
  function Sentinels(items: seq<Item>, k: nat): nat
    requires k <= |items|
  {
    if k == 0 then 0 else Sentinels(items, k - 1) + if items[k - 1] == Exit then 1 else 0
  }

  /** Only the last producer has sentinels, at the end of its items. */
  predicate Script(ps: seq<Producer>) {
    && ps != []
    && (forall i, k :: 0 <= i < |ps| - 1 && 0 <= k < |ps[i].items| ==> ps[i].items[k] != Exit)
    && (var items := ps[|ps| - 1].items;
        forall k, l :: 0 <= k < l < |items| && items[k] == Exit ==> items[l] == Exit)
  }

  predicate ConsumerOk(c: Consumer) {
    && (forall k :: 0 <= k < |c.got| - 1 ==> c.got[k].item != Exit)
    && (c.stage == Waiting || c.stage == Taking ==> c.got == [] || Last(c.got) != Exit)
    && (c.stage == Stopped ==> c.got != [] && Last(c.got) == Exit)
    && (c.stage == Emptied ==> c.got != [])
  }

  /** Consumers that have got a sentinel. */
  function Ended(cs: seq<Consumer>): nat {
    if cs == [] then 0 else (if cs[0].got != [] && Last(cs[0].got) == Exit then 1 else 0) + Ended(cs[1..])
  }

  predicate Started(p: Producer) { p.done > 0 || p.stage != Idle }

  predicate EndOk(s: State) {
    && Script(s.prods)
    && (Started(s.prods[|s.prods| - 1]) ==> forall k :: 0 <= k < |s.prods| - 1 ==> Finished(s.prods[k]))
    && s.prods[|s.prods| - 1].done <= |s.prods[|s.prods| - 1].items|
    && Exits(s.hist) == Sentinels(s.prods[|s.prods| - 1].items, s.prods[|s.prods| - 1].done)
    && (forall i, j :: 0 <= i < j < |s.hist| && s.hist[i].item == Exit ==> s.hist[j].item == Exit)
    && (forall j :: 0 <= j < |s.cons| ==> ConsumerOk(s.cons[j]))
    && Exits(s.taken) == Ended(s.cons)
  }

  lemma {:induction false} EndedUpdate(cs: seq<Consumer>, j: nat, c: Consumer)
    requires j < |cs|
    ensures Ended(cs[j := c]) == Ended(cs) - (if cs[j].got != [] && Last(cs[j].got) == Exit then 1 else 0)
                                           + (if c.got != [] && Last(c.got) == Exit then 1 else 0)
  {
    if j == 0 {
      assert cs[j := c][1..] == cs[1..];
    } else {
      assert cs[j := c][1..] == cs[1..][j - 1 := c];
      EndedUpdate(cs[1..], j - 1, c);
    }
  }

  lemma {:induction false} NoExits(h: seq<Cell>)
    ensures Exits(h) == 0 <==> forall k :: 0 <= k < |h| ==> h[k].item != Exit
  {
    if h != [] {
      NoExits(h[..|h| - 1]);
    }
  }

  lemma {:induction false} NoSentinels(items: seq<Item>, k: nat)
    requires k <= |items|
    ensures Sentinels(items, k) == 0 <==> forall l :: 0 <= l < k ==> items[l] != Exit
  {
    if k > 0 {
      NoSentinels(items, k - 1);
    }
  }

  lemma PutKeepsEnd(s: State, i: nat)
    requires Sized(s) && EndOk(s) && Enabled(s, Put(i))
    ensures EndOk(PutNow(s, i))
  {
    var t, n := PutNow(s, i), |s.prods| - 1;
    var last, c := s.prods[n], Cell(i, s.prods[i].items[s.prods[i].done]);
    assert t.hist[..|t.hist| - 1] == s.hist;
    assert i < n ==> !Started(last);
    if c.item != Exit {
      NoSentinels(last.items, last.done);
      NoExits(s.hist);
    }
  }

  lemma GetKeepsEnd(s: State, j: nat)
    requires Sized(s) && EndOk(s) && Enabled(s, Get(j))
    ensures EndOk(GetNow(s, j))
  {
    var t := GetNow(s, j);
    assert t.taken[..|t.taken| - 1] == s.taken;
    EndedUpdate(s.cons, j, t.cons[j]);
    assert ConsumerOk(s.cons[j]);
  }

  /** A producer that only waits or posts. */
  lemma ProducerKeepsEnd(s: State, i: nat, st: PStage, t: State)
    requires EndOk(s) && i < |s.prods|
    requires t == s.(prods := s.prods[i := s.prods[i].(stage := st)], empty := t.empty, full := t.full)
    requires st == Holding ==> MayStart(s, i) && s.prods[i].done < |s.prods[i].items|
    requires st != Holding ==> st == Idle && s.prods[i].stage == Filled
    ensures EndOk(t)
  {
    assert forall k :: 0 <= k < |t.prods| ==>
      t.prods[k].items == s.prods[k].items && t.prods[k].done == s.prods[k].done;
  }

  /** A consumer that only waits or posts. */
  lemma ConsumerKeepsEnd(s: State, j: nat, st: CStage, t: State)
    requires EndOk(s) && j < |s.cons|
    requires t == s.(cons := s.cons[j := s.cons[j].(stage := st)], empty := t.empty, full := t.full)
    requires ConsumerOk(s.cons[j].(stage := st))
    ensures EndOk(t)
  {
    EndedUpdate(s.cons, j, t.cons[j]);
  }

  lemma EndStep(s: State, a: Action)
    requires Sized(s) && EndOk(s) && Enabled(s, a)
    ensures EndOk(Apply(s, a))
  {
    match a
    case WaitEmpty(i) => ProducerKeepsEnd(s, i, Holding, Apply(s, a));
    case Put(i) => PutKeepsEnd(s, i);
    case PostFull(i) => ProducerKeepsEnd(s, i, Idle, Apply(s, a));
    case WaitFull(j) =>
      assert ConsumerOk(s.cons[j]);
      ConsumerKeepsEnd(s, j, Taking, Apply(s, a));
    case Get(j) => GetKeepsEnd(s, j);
    case PostEmpty(j) =>
      assert ConsumerOk(s.cons[j]);
      ConsumerKeepsEnd(s, j, if Last(s.cons[j].got) == Exit then Stopped else Waiting, Apply(s, a));
  }

  // ----- the ring itself -----

  class Slots {
    const buf: array<Cell>
    var curPut: nat
    var curGet: nat

    constructor (size: nat)
      requires size > 0
      ensures fresh(buf) && buf.Length == size && curPut == curGet == 0
    {
      buf := new Cell[size](_ => Cell(0, Exit));
      curPut, curGet := 0, 0;
    }

    /** The slots and positions are those of `s`. */
    ghost predicate Shows(s: State)
      reads this, buf
    {
      Sized(s) && buf[..] == s.slots && curPut == s.put && curGet == s.get
    }

    method PutItem(c: Cell, ghost s: State, ghost i: nat)
      requires Shows(s) && Enabled(s, Put(i)) && c == Cell(i, s.prods[i].items[s.prods[i].done])
      modifies buf, `curPut
      ensures Shows(PutNow(s, i))
    {
      buf[curPut] := c;
      curPut := curPut + 1;
      if curPut == buf.Length {
        curPut := 0;
      }
    }

    method GetItem(ghost s: State, ghost j: nat) returns (c: Cell)
      requires Shows(s) && Enabled(s, Get(j))
      modifies `curGet
      ensures Shows(GetNow(s, j)) && GetNow(s, j).taken == s.taken + [c]
    {
      var temp := curGet;
      curGet := curGet + 1;
      if curGet == buf.Length {
        curGet := 0;
      }
      c := buf[temp];
    }
  }
}
