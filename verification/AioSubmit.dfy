/**
 Who gives a request's slot back: the control flow of `io_submit_one`, `aio_read`, `aio_write`
 and `aio_ret` against the file's later `ki_complete`, which may overtake them.

 Nothing here asks whether a request is still in flight: the submitter acts on return values,
 the file on having kept the request.  That the two never give the same slot back twice, nor
 lose it, is what is proved.
 */
module AioSubmit {
  import opened Wrappers
  import opened AioSizing
  import opened AioRing
  import P = AioProtocol

  const EINTR: int := 4
  const EIOCBQUEUED: int := 529
  const RESTARTS: set<int> := {-512, -513, -514, -516}     // ERESTARTSYS, -NOINTR, -NOHAND, _RESTARTBLOCK

  /** How far the submitting thread is with a request; `Left` holds what `io_submit_one` returned. */
  datatype Submitter =
    | Preparing
    | InFile                  // in the file's read_iter or write_iter
    | Switching(ret: int)     // read_iter has returned; aio_ret is next
    | Completing(res: int)    // aio_ret calls aio_complete
    | Testing(ret: int)       // aio_read or aio_write has returned
    | Left(ret: int)

  /** Whether the file has kept the request, and has called `ki_complete` since. */
  datatype Callback = Never | Owed | Over

  /**
   `queued` if the submitter was told -EIOCBQUEUED; `backs` and `events` count what happened to the
   slot and in the ring.
   */
  datatype Req = Req(sub: Submitter, file: Callback, queued: bool, backs: nat, events: nat)

  datatype Party = Inline | Later

  /** `caller` is the caller of the `aio_complete` that holds the lock, if one does. */
  datatype State = State(s: P.State, reqs: seq<Req>, caller: Party)

  datatype Action =
    | Take(cpu: nat)                        // aio_get_req gets a slot
    | Refuse(id: nat, cpu: nat, ret: int)   // an error before the operation is looked at
    | Check(id: nat, ret: int)              // an error in aio_read or aio_write, or a bad operation
    | Ask(id: nat)                          // the file's read_iter or write_iter is called
    | Keep(id: nat)                         // the file takes the request over
    | Answer(id: nat, ret: int)             // read_iter or write_iter returns
    | Switch(id: nat)                       // the switch of aio_ret
    | Test(id: nat, cpu: nat)               // `ret && ret != -EIOCBQUEUED`
    | Complete(id: nat, caller: Party, event: IoEvent)
    | Finish(cpu: nat)                      // aio_complete counts the event
    | Other(a: P.Action)                    // tails, refills, readers, user space

  predicate Aside(a: P.Action) { !a.Submit? && !a.Release? && !a.Begin? && !a.Count? }

  /** `aio_ret` turns a request to restart into an interruption. */
  function Result(ret: int): int { if ret in RESTARTS then -EINTR else ret }

  predicate Releases(ret: int) { ret != 0 && ret != -EIOCBQUEUED }

  /** Steps of a submitter or a file with one request. */
  predicate Moves(a: Action) { a.Refuse? || a.Check? || a.Ask? || a.Keep? || a.Answer? || a.Switch? || a.Test? }

  predicate May(r: Req, a: Action)
    requires Moves(a)
  {
    match a
    case Refuse(_, _, ret) => r.sub == Preparing && ret != 0
    case Check(_, ret) => r.sub == Preparing && ret != 0
    case Ask(_) => r.sub == Preparing
    case Keep(_) => r.sub == InFile && r.file == Never
    case Answer(_, _) => r.sub == InFile
    case Switch(_) => r.sub.Switching?
    case Test(_, _) => r.sub.Testing?
  }

  /** `aio_complete` is called for `r`: by `aio_ret` with its result, or by a file that has kept the request. */
  predicate Calls(r: Req, caller: Party, e: IoEvent) {
    if caller.Inline? then r.sub.Completing? && e.res == r.sub.res && e.res2 == 0 else r.file == Owed
  }

  predicate Enabled(d: State, a: Action) {
    match a
    case Take(k) => P.Enabled(d.s, P.Submit(k))
    case Complete(id, c, e) => d.s.lock.Free? && id < |d.reqs| && Calls(d.reqs[id], c, e)
    case Finish(k) => k < |d.s.ctx.cpu| && d.s.lock.Published? && d.s.lock.id < |d.reqs|
    case Other(b) => Aside(b) && P.Enabled(d.s, b)
    case _ => a.id < |d.reqs| && May(d.reqs[a.id], a) && (a.Refuse? || a.Test? ==> a.cpu < |d.s.ctx.cpu|)
  }

  /** The step gives the request's slot back to the CPU it runs on. */
  predicate Frees(r: Req, a: Action)
    requires Moves(a) && May(r, a)
  {
    a.Refuse? || (a.Test? && Releases(r.sub.ret))
  }

  function Moved(r: Req, a: Action): Req
    requires Moves(a) && May(r, a)
  {
    match a
    case Refuse(_, _, ret) => r.(sub := Left(ret), backs := r.backs + 1)
    case Check(_, ret) => r.(sub := Testing(ret), queued := ret == -EIOCBQUEUED)
    case Ask(_) => r.(sub := InFile)
    case Keep(_) => r.(file := Owed)
    case Answer(_, ret) => r.(sub := Switching(ret))
    case Switch(_) =>
      if r.sub.ret == -EIOCBQUEUED then r.(sub := Testing(r.sub.ret), queued := true)
      else r.(sub := Completing(Result(r.sub.ret)))
    case Test(_, _) =>
      if Releases(r.sub.ret) then r.(sub := Left(r.sub.ret), backs := r.backs + 1) else r.(sub := Left(0))
  }

  function Completed(r: Req, caller: Party): Req {
    var c := r.(backs := r.backs + 1, events := r.events + 1);
    if caller.Inline? then c.(sub := Testing(0)) else c.(file := Over)
  }

  function Stepped(d: State, a: Action): State
    requires P.Typed(d.s) && Moves(a) && Enabled(d, a)
  {
    var r := d.reqs[a.id];
    d.(s := if Frees(r, a) then P.Released(d.s, a.cpu, a.id) else d.s, reqs := d.reqs[a.id := Moved(r, a)])
  }

  function Apply(d: State, a: Action): State
    requires P.Typed(d.s) && Enabled(d, a)
  {
    match a
    case Take(k) => State(P.Submitted(d.s, k), d.reqs + [Req(Preparing, Never, false, 0, 0)], d.caller)
    case Complete(id, c, e) => d.(s := P.Begun(d.s, id, e), caller := c)
    case Finish(k) =>
      var id := d.s.lock.id;
      d.(s := P.Counted(d.s, k), reqs := d.reqs[id := Completed(d.reqs[id], d.caller)])
    case Other(b) => d.(s := P.Apply(d.s, b))
    case _ => Stepped(d, a)
  }

  ghost predicate Legal(d: State, run: seq<Action>)
    decreases |run|
  {
    run == [] || (P.Typed(d.s) && Enabled(d, run[0]) && Legal(Apply(d, run[0]), run[1..]))
  }

  ghost function Exec(d: State, run: seq<Action>): State
    requires Legal(d, run)
    decreases |run|
  {
    if run == [] then d else Exec(Apply(d, run[0]), run[1..])
  }

  function Start(z: Sizes, cpus: nat, blank: IoEvent): State
    requires z.nrEvents >= 1
  {
    State(P.Start(z, cpus, blank), [], Inline)
  }

  // ----- what happens to a slot, whatever files do -----

  /** The submitter has given the slot back, by releasing it or by completing the request itself. */
  predicate BySubmitter(r: Req) { (r.sub.Testing? && r.sub.ret == 0) || (r.sub.Left? && !r.queued) }

  /** Slots and events are the submitter's doing plus the file's. */
  predicate Tallied(r: Req) {
    && r.backs == (if BySubmitter(r) then 1 else 0) + (if r.file == Over then 1 else 0)
    && r.events == (if BySubmitter(r) && r.sub.ret == 0 then 1 else 0) + (if r.file == Over then 1 else 0)
    && (r.sub.Testing? ==> (r.queued <==> r.sub.ret == -EIOCBQUEUED))
    && (r.sub.Left? && r.queued ==> r.sub.ret == 0)
    && (!r.sub.Testing? && !r.sub.Left? ==> !r.queued)
    && (r.sub == Preparing ==> r.file == Never)
  }

  /** Whoever completes a request is about to give its slot back. */
  predicate LockTallied(d: State) {
    d.s.lock.Posting? || d.s.lock.Published? ==>
      && d.s.lock.id < |d.reqs|
      && (if d.caller.Inline? then d.reqs[d.s.lock.id].sub.Completing? else d.reqs[d.s.lock.id].file == Owed)
  }

  predicate AllTallied(d: State) {
    LockTallied(d) && forall i {:trigger Tallied(d.reqs[i])} :: 0 <= i < |d.reqs| ==> Tallied(d.reqs[i])
  }

  lemma MovedTallied(r: Req, a: Action)
    requires Tallied(r) && Moves(a) && May(r, a)
    ensures Tallied(Moved(r, a))
  {
  }

  lemma MoveTallied(d: State, a: Action)
    requires P.Typed(d.s) && AllTallied(d) && Moves(a) && Enabled(d, a)
    ensures AllTallied(Stepped(d, a))
  {
    var t := Stepped(d, a);
    MovedTallied(d.reqs[a.id], a);
    forall i | 0 <= i < |t.reqs|
      ensures Tallied(t.reqs[i])
    {
      assert Tallied(d.reqs[i]);
    }
  }

  lemma TalliedStep(d: State, a: Action)
    requires P.Typed(d.s) && AllTallied(d) && Enabled(d, a)
    ensures AllTallied(Apply(d, a))
  {
    if Moves(a) {
      MoveTallied(d, a);
    } else {
      var t := Apply(d, a);
      forall i | 0 <= i < |t.reqs|
        ensures Tallied(t.reqs[i])
      {
        if i < |d.reqs| {
          assert Tallied(d.reqs[i]);
        }
      }
    }
  }

  /** The submitter has left, and the file owes nothing. */
  predicate Settled(r: Req) { r.sub.Left? && r.file != Owed }

  lemma {:induction false} TalliedAlways(d: State, run: seq<Action>)
    requires AllTallied(d) && Legal(d, run)
    ensures AllTallied(Exec(d, run))
    decreases |run|
  {
    if run != [] {
      TalliedStep(d, run[0]);
      TalliedAlways(Apply(d, run[0]), run[1..]);
    }
  }

  /**
   On every run, whatever files answer: a settled request has given its slot back exactly once
   if and only if the submitter was told -EIOCBQUEUED just when the file had kept the request.
   Told so wrongly it keeps the slot for ever; kept without a word it gives it back twice.
   */
  lemma OnceIffToldSo(d: State, run: seq<Action>, id: nat)
    requires AllTallied(d) && Legal(d, run) && id < |Exec(d, run).reqs| && Settled(Exec(d, run).reqs[id])
    ensures var r := Exec(d, run).reqs[id];
      && (r.backs == 1 <==> (r.queued <==> r.file == Over))
      && (r.queued && r.file == Never ==> r.backs == 0)
      && (!r.queued && r.file == Over ==> r.backs == 2)
  {
    TalliedAlways(d, run);
    assert Tallied(Exec(d, run).reqs[id]);
  }

  // ----- what callers and readers see -----

  /** Nothing already posted is ever taken back. */
  lemma {:induction false} PostedStays(d: State, run: seq<Action>)
    requires Legal(d, run)
    ensures d.s.posted <= Exec(d, run).s.posted
    decreases |run|
  {
    if run != [] {
      assert d.s.posted <= Apply(d, run[0]).s.posted;
      PostedStays(Apply(d, run[0]), run[1..]);
    }
  }

  /** The result a completion has to report when the file's own routine returned `ret`. */
  predicate Reports(res: int, ret: int) {
    if ret == -512 || ret == -513 || ret == -514 || ret == -516 then res == -4 else res == ret
  }

  /** Where a submitter can be once the file has answered `ret` without queueing. */
  predicate Answered(r: Req, ret: int) {
    match r.sub
    case Switching(x) => x == ret
    case Completing(res) => Reports(res, ret)
    case Testing(x) => x == 0
    case Left(x) => x == 0
    case _ => false
  }

  lemma AnsweredStep(d: State, a: Action, id: nat, ret: int)
    requires P.Typed(d.s) && AllTallied(d) && Enabled(d, a) && id < |d.reqs| && Answered(d.reqs[id], ret) && ret != -529
    ensures id < |Apply(d, a).reqs| && Answered(Apply(d, a).reqs[id], ret)
  {
  }

  lemma {:induction false} AnsweredEvent(d: State, run: seq<Action>, j: nat, id: nat, ret: int)
    requires AllTallied(d) && Legal(d, run) && j < |run| && run[j].Complete? && run[j].id == id && run[j].caller.Inline?
    requires id < |d.reqs| && Answered(d.reqs[id], ret) && ret != -529
    ensures run[j].event in Exec(d, run).s.posted && run[j].event.res2 == 0 && Reports(run[j].event.res, ret)
    decreases |run|
  {
    var next := Apply(d, run[0]);
    if j == 0 {
      PostedStays(next, run[1..]);
      assert next.s.posted[|d.s.posted|] == run[0].event;
    } else {
      AnsweredStep(d, run[0], id, ret);
      TalliedStep(d, run[0]);
      AnsweredEvent(next, run[1..], j - 1, id, ret);
    }
  }

  /**
   On every run: if the file answers `ret` for a request it has not queued and the request is then
   completed, the ring gets an event with exactly that result, requests to restart reported as
   interruptions.
   */
  lemma {:induction false} EventHoldsAnswer(d: State, run: seq<Action>, i: nat, j: nat)
    requires AllTallied(d) && Legal(d, run) && i < j < |run| && run[i].Answer? && run[i].ret != -529
    requires run[j].Complete? && run[j].id == run[i].id && run[j].caller.Inline?
    ensures var e := run[j].event;
      && e in Exec(d, run).s.posted && e.res2 == 0
      && e.res == (if run[i].ret in {-512, -513, -514, -516} then -4 else run[i].ret)
    decreases i
  {
    TalliedStep(d, run[0]);
    if i == 0 {
      AnsweredEvent(Apply(d, run[0]), run[1..], j - 1, run[0].id, run[0].ret);
    } else {
      EventHoldsAnswer(Apply(d, run[0]), run[1..], i - 1, j - 1);
    }
  }

  /** Where a submitter can be once a check has failed with `ret`. */
  predicate Failed(r: Req, ret: int) { r.sub == Testing(ret) || r.sub == Left(ret) }

  lemma FailedStep(d: State, a: Action, id: nat, ret: int)
    requires P.Typed(d.s) && AllTallied(d) && Enabled(d, a) && id < |d.reqs| && Failed(d.reqs[id], ret)
    requires ret != 0 && ret != -529
    ensures id < |Apply(d, a).reqs| && Failed(Apply(d, a).reqs[id], ret)
  {
  }

  lemma {:induction false} FailedStays(d: State, run: seq<Action>, id: nat, ret: int)
    requires AllTallied(d) && Legal(d, run) && id < |d.reqs| && Failed(d.reqs[id], ret) && ret != 0 && ret != -529
    ensures id < |Exec(d, run).reqs| && Failed(Exec(d, run).reqs[id], ret)
    decreases |run|
  {
    if run != [] {
      FailedStep(d, run[0], id, ret);
      TalliedStep(d, run[0]);
      FailedStays(Apply(d, run[0]), run[1..], id, ret);
    }
  }

  /** On every run: a request refused or failing a check with `ret` makes `io_submit_one` return just that. */
  lemma {:induction false} ErrorIsReturned(d: State, run: seq<Action>, i: nat)
    requires AllTallied(d) && Legal(d, run) && i < |run| && (run[i].Refuse? || run[i].Check?) && run[i].ret != -529
    ensures var t := Exec(d, run); var id := run[i].id;
      id < |t.reqs| && (t.reqs[id].sub.Left? ==> t.reqs[id].sub.ret == run[i].ret)
    decreases i
  {
    TalliedStep(d, run[0]);
    if i == 0 {
      FailedStays(Apply(d, run[0]), run[1..], run[0].id, run[0].ret);
    } else {
      ErrorIsReturned(Apply(d, run[0]), run[1..], i - 1);
    }
  }

  /**
   Nobody is stopped from going on: checks may fail in any way, a file may keep a request and answer
   what it likes, and whoever has to complete a request can as soon as the lock is free.
   */
  lemma EverybodyGoesOn(d: State, id: nat, k: nat, ret: int, e: IoEvent)
    requires id < |d.reqs| && k < |d.s.ctx.cpu| && d.s.ctx.batch >= 1
    ensures Get(d.s.ctx, k).Some? ==> Enabled(d, Take(k))
    ensures d.s.lock.Published? && d.s.lock.id < |d.reqs| ==> Enabled(d, Finish(k))
    ensures match d.reqs[id].sub
      case Preparing =>
        Enabled(d, Ask(id)) && (ret != 0 ==> Enabled(d, Refuse(id, k, ret)) && Enabled(d, Check(id, ret)))
      case InFile => Enabled(d, Answer(id, ret)) && (d.reqs[id].file == Never ==> Enabled(d, Keep(id)))
      case Switching(_) => Enabled(d, Switch(id))
      case Completing(res) => d.s.lock.Free? ==> Enabled(d, Complete(id, Inline, e.(res := res, res2 := 0)))
      case Testing(_) => Enabled(d, Test(id, k))
      case Left(_) => true
    ensures d.reqs[id].file == Owed && d.s.lock.Free? ==> Enabled(d, Complete(id, Later, e))
  {
  }

  // ----- files that do not keep to the rule -----

  ghost predicate Reaches(d: State, run: seq<Action>, t: State) { Legal(d, run) && Exec(d, run) == t }

  lemma {:induction false} ReachesJoin(d: State, one: seq<Action>, u: State, two: seq<Action>, t: State)
    requires Reaches(d, one, u) && Reaches(u, two, t)
    ensures Reaches(d, one + two, t)
    decreases |one|
  {
    if one == [] {
      assert one + two == two;
    } else {
      assert (one + two)[0] == one[0] && (one + two)[1..] == one[1..] + two;
      ReachesJoin(Apply(d, one[0]), one[1..], u, two, t);
    }
  }

  /** Nobody is completing, and request `id` is at `r`. */
  predicate At(d: State, id: nat, r: Req) { P.Typed(d.s) && d.s.lock.Free? && id < |d.reqs| && d.reqs[id] == r }

  lemma OneStep(d: State, a: Action) returns (t: State)
    requires P.Typed(d.s) && Enabled(d, a)
    ensures t == Apply(d, a) && Reaches(d, [a], t)
  {
    t := Apply(d, a);
    assert [a][1..] == [];
    assert Legal(t, []);
  }

  /** A submitter's or file's step that frees nothing. */
  lemma Move(d: State, id: nat, r: Req, a: Action) returns (t: State)
    requires At(d, id, r) && Moves(a) && a.id == id && May(r, a) && !Frees(r, a) && (a.Test? ==> a.cpu < |d.s.ctx.cpu|)
    ensures Reaches(d, [a], t) && At(t, id, Moved(r, a)) && t.s == d.s
  {
    t := OneStep(d, a);
  }

  lemma CompletionTyped(c: Ctx, e: IoEvent, k: nat, head: nat)
    requires WellFormed(c) && k < |c.cpu|
    ensures WellFormed(Account(Publish(Post(c, e)), k, head))
    ensures Account(Publish(Post(c, e)), k, head).nr == c.nr && |Account(Publish(Post(c, e)), k, head).cpu| == |c.cpu|
  {
    var p := Publish(Post(c, e));
    var d := p.(completed := p.completed + 1);
    if d.completed > 1 {
      RefillHolds(d, k, head, d.tail);
    }
  }

  /** A whole `aio_complete`. */
  lemma WholeCompletion(d: State, id: nat, r: Req, caller: Party, e: IoEvent, k: nat) returns (run: seq<Action>,
                        t: State)
    requires At(d, id, r) && Calls(r, caller, e) && k < |d.s.ctx.cpu|
    ensures Reaches(d, run, t) && At(t, id, Completed(r, caller)) && |t.s.ctx.cpu| == |d.s.ctx.cpu|
  {
    var a, b, c := Complete(id, caller, e), Other(P.Show), Finish(k);
    var u := OneStep(d, a);
    var v := OneStep(u, b);
    t := OneStep(v, c);
    CompletionTyped(d.s.ctx, e, k, v.s.lock.head);
    ReachesJoin(d, [a], u, [b], v);
    ReachesJoin(d, [a] + [b], v, [c], t);
    run := [a] + [b] + [c];
  }

  lemma Asked(d: State, k: nat) returns (run: seq<Action>, t: State, id: nat)
    requires P.Typed(d.s) && d.s.lock.Free? && Enabled(d, Take(k)) && |d.reqs| == d.s.issued
    ensures Reaches(d, run, t) && At(t, id, Req(InFile, Never, false, 0, 0)) && |t.s.ctx.cpu| == |d.s.ctx.cpu|
  {
    id := |d.reqs|;
    GetHolds(d.s.ctx, k);
    var u := OneStep(d, Take(k));
    t := Move(u, id, Req(Preparing, Never, false, 0, 0), Ask(id));
    ReachesJoin(d, [Take(k)], u, [Ask(id)], t);
    run := [Take(k)] + [Ask(id)];
  }

  /** A file that answers -EIOCBQUEUED for a request it has not kept: the slot never comes back. */
  lemma ToldWrongly(d: State, k: nat) returns (run: seq<Action>, t: State, id: nat)
    requires P.Typed(d.s) && d.s.lock.Free? && Enabled(d, Take(k)) && |d.reqs| == d.s.issued
    ensures Reaches(d, run, t) && id < |t.reqs| && Settled(t.reqs[id]) && t.reqs[id].backs == 0
  {
    var one, u, i := Asked(d, k);
    var q := Req(InFile, Never, false, 0, 0);
    var a, b, c := Answer(i, -EIOCBQUEUED), Switch(i), Test(i, k);
    var v := Move(u, i, q, a);
    var w := Move(v, i, Moved(q, a), b);
    t := Move(w, i, Moved(Moved(q, a), b), c);
    ReachesJoin(d, one, u, [a], v);
    ReachesJoin(d, one + [a], v, [b], w);
    ReachesJoin(d, one + [a] + [b], w, [c], t);
    run, id := one + [a] + [b] + [c], i;
  }

  /** A file that keeps a request and answers 0 all the same: the slot comes back twice. */
  lemma KeptSilently(d: State, k: nat, e: IoEvent) returns (run: seq<Action>, t: State, id: nat)
    requires P.Typed(d.s) && d.s.lock.Free? && Enabled(d, Take(k)) && |d.reqs| == d.s.issued && e.res == e.res2 == 0
    ensures Reaches(d, run, t) && id < |t.reqs| && Settled(t.reqs[id]) && t.reqs[id].backs == 2
  {
    var one, u, i := Asked(d, k);
    var q := Req(InFile, Never, false, 0, 0);
    var a, b, c, f := Keep(i), Answer(i, 0), Switch(i), Test(i, k);
    var v := Move(u, i, q, a);
    var w := Move(v, i, q.(file := Owed), b);
    var x := Move(w, i, Req(Switching(0), Owed, false, 0, 0), c);
    var two, y := WholeCompletion(x, i, Req(Completing(0), Owed, false, 0, 0), Inline, e, k);
    var z := Move(y, i, Req(Testing(0), Owed, false, 1, 1), f);
    var three;
    three, t := WholeCompletion(z, i, Req(Left(0), Owed, false, 1, 1), Later, e, k);
    ReachesJoin(d, one, u, [a], v);
    ReachesJoin(d, one + [a], v, [b], w);
    ReachesJoin(d, one + [a] + [b], w, [c], x);
    ReachesJoin(d, one + [a] + [b] + [c], x, two, y);
    ReachesJoin(d, one + [a] + [b] + [c] + two, y, [f], z);
    ReachesJoin(d, one + [a] + [b] + [c] + two + [f], z, three, t);
    run, id := one + [a] + [b] + [c] + two + [f] + three, i;
  }

  // ----- files that keep to the rule -----

  /** No check fails with -EIOCBQUEUED, and a file answers it exactly if it has kept the request. */
  predicate Honest(d: State, a: Action)
    requires Enabled(d, a)
  {
    match a
    case Check(_, ret) => ret != -EIOCBQUEUED
    case Answer(id, ret) => ret == -EIOCBQUEUED <==> d.reqs[id].file != Never
    case _ => true
  }

  ghost predicate AllHonest(d: State, run: seq<Action>)
    requires Legal(d, run)
    decreases |run|
  {
    run == [] || (Honest(d, run[0]) && AllHonest(Apply(d, run[0]), run[1..]))
  }

  // ----- the two ways a request is meant to go -----

  ghost predicate Fairly(d: State, run: seq<Action>, t: State) {
    Legal(d, run) && AllHonest(d, run) && Exec(d, run) == t
  }

  lemma {:induction false} FairlyJoin(d: State, one: seq<Action>, u: State, two: seq<Action>, t: State)
    requires Fairly(d, one, u) && Fairly(u, two, t)
    ensures Fairly(d, one + two, t)
    decreases |one|
  {
    if one == [] {
      assert one + two == two;
    } else {
      assert (one + two)[0] == one[0] && (one + two)[1..] == one[1..] + two;
      FairlyJoin(Apply(d, one[0]), one[1..], u, two, t);
    }
  }

  lemma FairStep(d: State, a: Action) returns (t: State)
    requires P.Typed(d.s) && Enabled(d, a) && Honest(d, a)
    ensures t == Apply(d, a) && Fairly(d, [a], t)
  {
    t := Apply(d, a);
    assert [a][1..] == [];
    assert Legal(t, []) && AllHonest(t, []);
  }

  lemma FairMove(d: State, id: nat, r: Req, a: Action) returns (t: State)
    requires At(d, id, r) && Moves(a) && a.id == id && May(r, a) && !Frees(r, a) && (a.Test? ==> a.cpu < |d.s.ctx.cpu|)
    requires !a.Check? && (a.Answer? ==> (a.ret == -EIOCBQUEUED <==> r.file != Never))
    ensures Fairly(d, [a], t) && At(t, id, Moved(r, a)) && t.s == d.s
  {
    t := FairStep(d, a);
  }

  lemma FairCompletion(d: State, id: nat, r: Req, caller: Party, e: IoEvent, k: nat)
    returns (run: seq<Action>, t: State)
    requires At(d, id, r) && Calls(r, caller, e) && k < |d.s.ctx.cpu|
    ensures Fairly(d, run, t) && At(t, id, Completed(r, caller)) && |t.s.ctx.cpu| == |d.s.ctx.cpu|
  {
    var a, b, c := Complete(id, caller, e), Other(P.Show), Finish(k);
    var u := FairStep(d, a);
    var v := FairStep(u, b);
    t := FairStep(v, c);
    CompletionTyped(d.s.ctx, e, k, v.s.lock.head);
    FairlyJoin(d, [a], u, [b], v);
    FairlyJoin(d, [a] + [b], v, [c], t);
    run := [a] + [b] + [c];
  }

  lemma FairlyAsked(d: State, k: nat) returns (run: seq<Action>, t: State, id: nat)
    requires P.Typed(d.s) && d.s.lock.Free? && Enabled(d, Take(k)) && |d.reqs| == d.s.issued
    ensures Fairly(d, run, t) && At(t, id, Req(InFile, Never, false, 0, 0)) && |t.s.ctx.cpu| == |d.s.ctx.cpu|
  {
    id := |d.reqs|;
    GetHolds(d.s.ctx, k);
    var u := FairStep(d, Take(k));
    t := FairMove(u, id, Req(Preparing, Never, false, 0, 0), Ask(id));
    FairlyJoin(d, [Take(k)], u, [Ask(id)], t);
    run := [Take(k)] + [Ask(id)];
  }

  /** A file that keeps a request, says so and completes it later: one event, and the slot comes back once. */
  lemma QueuedGoesWell(d: State, k: nat, e: IoEvent) returns (run: seq<Action>, t: State, id: nat)
    requires P.Typed(d.s) && d.s.lock.Free? && Enabled(d, Take(k)) && |d.reqs| == d.s.issued
    ensures Fairly(d, run, t) && id < |t.reqs| && t.reqs[id] == Req(Left(0), Over, true, 1, 1)
  {
    var one, u, i := FairlyAsked(d, k);
    var a, b, c, f := Keep(i), Answer(i, -EIOCBQUEUED), Switch(i), Test(i, k);
    var v := FairMove(u, i, Req(InFile, Never, false, 0, 0), a);
    var w := FairMove(v, i, Req(InFile, Owed, false, 0, 0), b);
    var x := FairMove(w, i, Req(Switching(-EIOCBQUEUED), Owed, false, 0, 0), c);
    var y := FairMove(x, i, Req(Testing(-EIOCBQUEUED), Owed, true, 0, 0), f);
    var two;
    two, t := FairCompletion(y, i, Req(Left(0), Owed, true, 0, 0), Later, e, k);
    FairlyJoin(d, one, u, [a], v);
    FairlyJoin(d, one + [a], v, [b], w);
    FairlyJoin(d, one + [a] + [b], w, [c], x);
    FairlyJoin(d, one + [a] + [b] + [c], x, [f], y);
    FairlyJoin(d, one + [a] + [b] + [c] + [f], y, two, t);
    run, id := one + [a] + [b] + [c] + [f] + two, i;
  }

  /** A file that answers `ret` at once: one event with that result, and the slot comes back once. */
  lemma InlineGoesWell(d: State, k: nat, ret: int, e: IoEvent) returns (run: seq<Action>, t: State, id: nat)
    requires P.Typed(d.s) && d.s.lock.Free? && Enabled(d, Take(k)) && |d.reqs| == d.s.issued
    requires ret != -EIOCBQUEUED && e.res2 == 0 && e.res == if ret in {-512, -513, -514, -516} then -4 else ret
    ensures Fairly(d, run, t) && id < |t.reqs| && t.reqs[id] == Req(Left(0), Never, false, 1, 1)
  {
    var one, u, i := FairlyAsked(d, k);
    var b, c, f := Answer(i, ret), Switch(i), Test(i, k);
    var v := FairMove(u, i, Req(InFile, Never, false, 0, 0), b);
    var w := FairMove(v, i, Req(Switching(ret), Never, false, 0, 0), c);
    var two, x := FairCompletion(w, i, Req(Completing(e.res), Never, false, 0, 0), Inline, e, k);
    t := FairMove(x, i, Req(Testing(0), Never, false, 1, 1), f);
    FairlyJoin(d, one, u, [b], v);
    FairlyJoin(d, one + [b], v, [c], w);
    FairlyJoin(d, one + [b] + [c], w, two, x);
    FairlyJoin(d, one + [b] + [c] + two, x, [f], t);
    run, id := one + [b] + [c] + two + [f], i;
  }

  /** The submitter's and the file's view of who has the request agree. */
  predicate Agreed(r: Req) {
    match r.sub
    case Preparing => r.file == Never
    case InFile => true
    case Switching(ret) => ret == -EIOCBQUEUED <==> r.file != Never
    case Completing(_) => r.file == Never
    case _ => r.queued <==> r.file != Never
  }

  /** A request is in flight until its slot has been given back. */
  predicate Follows(d: State, i: nat)
    requires i < |d.reqs|
  {
    Agreed(d.reqs[i]) && (i in d.s.inflight <==> d.reqs[i].backs == 0)
  }

  predicate Inv(d: State) {
    && P.Conserved(d.s) && AllTallied(d) && |d.reqs| == d.s.issued
    && forall i {:trigger Follows(d, i)} :: 0 <= i < |d.reqs| ==> Follows(d, i)
  }

  /** The slot-accounting step behind a step, if it is one. */
  function Behind(d: State, a: Action): (b: Option<P.Action>)
    requires Enabled(d, a)
  {
    match a
    case Take(k) => Some(P.Submit(k))
    case Complete(id, _, e) => Some(P.Begin(id, e))
    case Finish(k) => Some(P.Count(k))
    case Other(b) => Some(b)
    case _ => if Frees(d.reqs[a.id], a) then Some(P.Release(a.cpu, a.id)) else None
  }

  /** A step that gives a slot back finds the request in flight and nobody completing it. */
  lemma FreesOnlyInFlight(d: State, a: Action)
    requires Inv(d) && Enabled(d, a) && Moves(a) && Frees(d.reqs[a.id], a)
    ensures P.Enabled(d.s, P.Release(a.cpu, a.id))
  {
    assert Tallied(d.reqs[a.id]) && Follows(d, a.id);
  }

  /** So does a completion, whoever calls it. */
  lemma CompletesOnlyInFlight(d: State, id: nat, caller: Party, e: IoEvent)
    requires Inv(d) && Enabled(d, Complete(id, caller, e))
    ensures P.Enabled(d.s, P.Begin(id, e))
  {
    assert Tallied(d.reqs[id]) && Follows(d, id);
  }

  lemma StepIsBehind(d: State, a: Action)
    requires Inv(d) && Enabled(d, a)
    ensures match Behind(d, a) {
        case None => Apply(d, a).s == d.s
        case Some(b) => P.Enabled(d.s, b) && Apply(d, a).s == P.Apply(d.s, b)
      }
  {
    if Moves(a) {
      if Frees(d.reqs[a.id], a) {
        FreesOnlyInFlight(d, a);
      }
    } else if a.Complete? {
      CompletesOnlyInFlight(d, a.id, a.caller, a.event);
    }
  }

  lemma MovedFollows(d: State, a: Action)
    requires Inv(d) && Enabled(d, a) && Honest(d, a) && Moves(a)
    ensures Follows(Apply(d, a), a.id)
  {
    assert Tallied(d.reqs[a.id]) && Follows(d, a.id);
  }

  lemma FinishFollows(d: State, k: nat)
    requires Inv(d) && Enabled(d, Finish(k))
    ensures Follows(Apply(d, Finish(k)), d.s.lock.id)
  {
    assert Tallied(d.reqs[d.s.lock.id]) && Follows(d, d.s.lock.id);
  }

  lemma StepConserves(d: State, a: Action)
    requires Inv(d) && Enabled(d, a)
    ensures P.Conserved(Apply(d, a).s) && |Apply(d, a).reqs| == Apply(d, a).s.issued
  {
    StepIsBehind(d, a);
    if Behind(d, a).Some? {
      P.ConservedStep(d.s, Behind(d, a).value);
    }
  }

  lemma StepFollows(d: State, a: Action, i: nat)
    requires Inv(d) && Enabled(d, a) && Honest(d, a) && i < |Apply(d, a).reqs|
    ensures Follows(Apply(d, a), i)
  {
    if Moves(a) && i == a.id {
      MovedFollows(d, a);
    } else if a.Finish? && i == d.s.lock.id {
      FinishFollows(d, a.cpu);
    } else if i < |d.reqs| {
      assert Follows(d, i);
    }
  }

  lemma InvStep(d: State, a: Action)
    requires Inv(d) && Enabled(d, a) && Honest(d, a)
    ensures Inv(Apply(d, a))
  {
    TalliedStep(d, a);
    StepConserves(d, a);
    forall i | 0 <= i < |Apply(d, a).reqs|
      ensures Follows(Apply(d, a), i)
    {
      StepFollows(d, a, i);
    }
  }

  /** The run of slot accounting behind a run. */
  ghost function Trace(d: State, run: seq<Action>): seq<P.Action>
    requires Legal(d, run)
    decreases |run|
  {
    if run == [] then []
    else
      var rest := Trace(Apply(d, run[0]), run[1..]);
      match Behind(d, run[0])
      case None => rest
      case Some(b) => [b] + rest
  }

  /** With honest files, submitters and completions only ever do what the slot accounting allows. */
  lemma {:induction false} Refines(d: State, run: seq<Action>)
    requires Inv(d) && Legal(d, run) && AllHonest(d, run)
    ensures Inv(Exec(d, run))
    ensures P.Legal(d.s, Trace(d, run)) && P.Exec(d.s, Trace(d, run)) == Exec(d, run).s
    decreases |run|
  {
    if run != [] {
      InvStep(d, run[0]);
      StepIsBehind(d, run[0]);
      Refines(Apply(d, run[0]), run[1..]);
      var rest := Trace(Apply(d, run[0]), run[1..]);
      if Behind(d, run[0]).Some? {
        assert Trace(d, run)[1..] == rest;
      }
    }
  }

  lemma StartOk(z: Sizes, cpus: nat, blank: IoEvent)
    requires z.nrEvents >= 2 && z.reqBatch >= 1
    ensures Inv(Start(z, cpus, blank))
  {
    P.StartConserved(z, cpus, blank);
  }

  /**
   What a caller of `io_submit` can rely on, on every run with honest files: a slot is given
   back at most once, and exactly once when the request has settled; a submission that
   returned 0 has then produced exactly one event, and one that failed none.
   */
  lemma GivesBackOnce(z: Sizes, cpus: nat, blank: IoEvent, run: seq<Action>, id: nat)
    requires z.nrEvents >= 2 && z.reqBatch >= 1
    requires Legal(Start(z, cpus, blank), run) && AllHonest(Start(z, cpus, blank), run)
    requires id < |Exec(Start(z, cpus, blank), run).reqs|
    ensures var t := Exec(Start(z, cpus, blank), run); var r := t.reqs[id];
      && P.Conserved(t.s) && r.backs <= 1 && r.events <= r.backs
      && (id in t.s.inflight <==> r.backs == 0)
      && (Settled(r) ==> r.backs == 1 && r.events == if r.sub.ret == 0 then 1 else 0)
  {
    var d := Start(z, cpus, blank);
    StartOk(z, cpus, blank);
    Refines(d, run);
    var t := Exec(d, run);
    assert Tallied(t.reqs[id]) && Follows(t, id);
  }
}
