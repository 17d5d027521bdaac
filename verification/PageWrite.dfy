/**
 One `__block_write_full_page`: the writer marks buffers one by one, starts writeback, submits
 what it marked and unlocks the page, on the normal path or, after `get_block` failed, on the
 recovery path.  Completions arrive in any order once buffers are submitted.  Other threads may
 change buffers that are not under I/O at any time.
 */
module PageWrite {
  import opened Sequences
  import opened PageIo

  datatype Io = Off | Marked | Issued | Flagged | Done

  /** How far the writer is; `k` is the next buffer of its loop. */
  datatype Phase = Marking(k: nat) | Submitting(k: nat) | Unlocked | Returned

  /**
   `recover` after an error, `wait` for WB_SYNC_ALL; `closing` between the walk of the last
   completion and its end of writeback.
   */
  datatype State = State(page: PageBits, io: seq<Io>, phase: Phase, recover: bool, wait: bool,
                         underway: nat, closing: bool, ends: nat)

  datatype Action =
    | MarkNext
    | SetWriteback
    | SubmitNext
    | Unlock
    | Return
    | Report(k: nat, ok: bool)
    | Quiet(k: nat)
    | Close
    | Outside(k: nat, bits: Bits)

  /** The writer goes for this buffer. */
  predicate Picked(s: State, b: Bits) { b.mapped && (s.recover ==> b.dirty && !b.delay) }

  predicate Enabled(s: State, a: Action)
    requires |s.io| == |s.page.bufs|
  {
    match a
    case MarkNext =>
      s.phase.Marking? && s.phase.k < |s.io| &&
      (var b := s.page.bufs[s.phase.k]; Picked(s, b) && (s.wait || s.recover) ==> !b.locked)
    case SetWriteback => s.phase == Marking(|s.io|)
    case SubmitNext => s.phase.Submitting? && s.phase.k < |s.io|
    case Unlock => s.phase == Submitting(|s.io|)
    case Return => s.phase == Unlocked
    case Report(k, _) => k < |s.io| && s.io[k] == Issued
    case Quiet(k) => k < |s.io| && s.io[k] == Flagged
    case Close => s.closing
    case Outside(k, bits) => k < |s.io| && !s.page.bufs[k].async && !bits.async
  }

  /** What the marking loop does to one buffer. */
  function MarkBits(s: State, b: Bits): Bits {
    if s.recover then
      if Picked(s, b) then b.(locked := true, async := true) else b.(dirty := false)
    else if !b.mapped || b.locked then b
    else if b.dirty then b.(dirty := false, locked := true, async := true)
    else b
  }

  function MarkedNext(s: State): State
    requires |s.io| == |s.page.bufs| && s.phase.Marking? && s.phase.k < |s.io|
  {
    var k := s.phase.k;
    var b := MarkBits(s, s.page.bufs[k]);
    s.(page := s.page.(bufs := s.page.bufs[k := b]),
       io := if b.async then s.io[k := Marked] else s.io, phase := Marking(k + 1))
  }

  function WritebackSet(s: State): State {
    s.(page := s.page.(writeback := true, error := s.page.error || s.recover), phase := Submitting(0))
  }

  function SubmittedNext(s: State): State
    requires |s.io| == |s.page.bufs| && s.phase.Submitting? && s.phase.k < |s.io|
  {
    var k := s.phase.k;
    var b := s.page.bufs[k];
    if b.async then
      s.(page := s.page.(bufs := s.page.bufs[k := b.(dirty := b.dirty && !s.recover)]), io := s.io[k := Issued],
         underway := s.underway + 1, phase := Submitting(k + 1))
    else s.(phase := Submitting(k + 1))
  }

  function ReturnedNow(s: State): State {
    if s.underway == 0 then s.(page := WriteClosed(s.page), ends := s.ends + 1, phase := Returned)
    else s.(phase := Returned)
  }

  function QuietedAt(s: State, k: nat): State
    requires k < |s.io| == |s.page.bufs|
  {
    var q := Quieted(s.page, k);
    s.(io := s.io[k := Done], page := q, closing := s.closing || !Busy(q))
  }

  function Apply(s: State, a: Action): State
    requires |s.io| == |s.page.bufs| && Enabled(s, a)
  {
    match a
    case MarkNext => MarkedNext(s)
    case SetWriteback => WritebackSet(s)
    case SubmitNext => SubmittedNext(s)
    case Unlock => s.(page := s.page.(locked := false), phase := Unlocked)
    case Return => ReturnedNow(s)
    case Report(k, ok) => s.(io := s.io[k := Flagged], page := Reported(s.page, k, ok))
    case Quiet(k) => QuietedAt(s, k)
    case Close => s.(page := WriteClosed(s.page), closing := false, ends := s.ends + 1)
    case Outside(k, bits) => s.(page := s.page.(bufs := s.page.bufs[k := bits]))
  }

  // ----- the invariant -----

  predicate Begun(i: Io) { i == Issued || i == Flagged || i == Done }

  /** Bits, progress and the writer's position agree on one buffer. */
  predicate BufOk(s: State, k: nat)
    requires k < |s.io| == |s.page.bufs|
  {
    var b, i := s.page.bufs[k], s.io[k];
    && (b.async <==> i == Marked || i == Issued || i == Flagged) && (b.async ==> b.locked)
    && (Begun(i) ==> s.underway > 0)
    && (match s.phase
        case Marking(n) => i == Off || (i == Marked && k < n)
        case Submitting(n) => if k < n then i != Marked else i == Off || i == Marked
        case _ => i != Marked)
  }

  /** Every submitted buffer has completed, and the writer has none left to submit. */
  predicate Quiescent(s: State) {
    && (forall k :: 0 <= k < |s.io| ==> s.io[k] == Off || s.io[k] == Done)
    && (s.underway > 0 || s.phase == Returned)
  }

  predicate BufsOk(s: State) {
    |s.io| == |s.page.bufs| && forall k {:trigger BufOk(s, k)} :: 0 <= k < |s.io| ==> BufOk(s, k)
  }

  predicate InRange(s: State) {
    && (s.phase.Marking? ==> s.phase.k <= |s.io| && s.underway == 0)
    && (s.phase.Submitting? ==> s.phase.k <= |s.io|)
    && (s.closing ==> s.underway > 0)
    && (s.underway > 0 ==> exists k :: 0 <= k < |s.io| && Begun(s.io[k]))
  }

  predicate Inv(s: State) {
    && BufsOk(s) && InRange(s)
    && s.ends + (if s.closing then 1 else 0) == (if Quiescent(s) then 1 else 0)
    && (s.page.writeback <==> !s.phase.Marking? && s.ends == 0)
    && (s.page.locked <==> s.phase.Marking? || s.phase.Submitting?)
  }

  /** The page is locked, not under writeback, and none of its buffers is being written. */
  predicate Begin(s: State) {
    && |s.io| == |s.page.bufs| && (forall k :: 0 <= k < |s.io| ==> s.io[k] == Off && !s.page.bufs[k].async)
    && s.page.locked && !s.page.writeback && s.phase == Marking(0) && s.underway == 0 && !s.closing && s.ends == 0
  }

  /** Once a submitted buffer exists, quiet buffers mean quiescence. */
  lemma QuiescentIff(s: State)
    requires BufsOk(s) && s.underway > 0
    ensures Quiescent(s) <==> !Busy(s.page)
  {
    if Quiescent(s) {
      forall k | 0 <= k < |s.page.bufs|
        ensures !s.page.bufs[k].async
      {
        assert BufOk(s, k);
      }
    } else {
      var k :| 0 <= k < |s.io| && s.io[k] != Off && s.io[k] != Done;
      assert BufOk(s, k);
    }
  }

  lemma MarkKeeps(s: State)
    requires Inv(s) && Enabled(s, MarkNext)
    ensures Inv(MarkedNext(s))
  {
    var t := MarkedNext(s);
    forall k | 0 <= k < |t.io|
      ensures BufOk(t, k)
    {
      assert BufOk(s, k);
    }
  }

  lemma WritebackKeeps(s: State)
    requires Inv(s) && Enabled(s, SetWriteback)
    ensures Inv(WritebackSet(s)) && !s.page.writeback
  {
    var t := WritebackSet(s);
    forall k | 0 <= k < |t.io|
      ensures BufOk(t, k)
    {
      assert BufOk(s, k);
    }
  }

  lemma SubmitKeeps(s: State)
    requires Inv(s) && Enabled(s, SubmitNext)
    ensures Inv(SubmittedNext(s))
  {
    var t, k := SubmittedNext(s), s.phase.k;
    forall j | 0 <= j < |t.io|
      ensures BufOk(t, j)
    {
      assert BufOk(s, j);
    }
    assert BufOk(s, k);
    if s.page.bufs[k].async {
      assert s.io[k] == Marked && t.io[k] == Issued && Begun(t.io[k]);
    } else {
      assert Quiescent(t) <==> Quiescent(s);
    }
  }

  lemma ReturnKeeps(s: State)
    requires Inv(s) && Enabled(s, Return)
    ensures Inv(ReturnedNow(s))
  {
    var t := ReturnedNow(s);
    forall k | 0 <= k < |t.io|
      ensures BufOk(t, k)
      ensures s.underway == 0 ==> t.io[k] == Off
    {
      assert BufOk(s, k);
    }
    assert s.underway > 0 ==> (Quiescent(t) <==> Quiescent(s));
  }

  lemma ReportKeeps(s: State, k: nat, ok: bool)
    requires Inv(s) && Enabled(s, Report(k, ok))
    ensures Inv(Apply(s, Report(k, ok)))
  {
    var t := Apply(s, Report(k, ok));
    forall j | 0 <= j < |t.io|
      ensures BufOk(t, j)
    {
      assert BufOk(s, j);
    }
    assert s.io[k] == Issued && t.io[k] == Flagged && Begun(t.io[k]);
  }

  /** The last completion, and only it, gets to end the writeback. */
  lemma QuietKeeps(s: State, k: nat)
    requires Inv(s) && Enabled(s, Quiet(k))
    ensures Inv(QuietedAt(s, k))
  {
    var t := QuietedAt(s, k);
    forall j | 0 <= j < |t.io|
      ensures BufOk(t, j)
    {
      assert BufOk(s, j);
    }
    assert BufOk(s, k);
    assert s.io[k] == Flagged && t.io[k] == Done && Begun(t.io[k]);
    QuiescentIff(t);
  }

  lemma OtherKeeps(s: State, a: Action)
    requires Inv(s) && Enabled(s, a) && (a.Unlock? || a.Close? || a.Outside?)
    ensures Inv(Apply(s, a))
  {
    var t := Apply(s, a);
    forall j | 0 <= j < |t.io|
      ensures BufOk(t, j)
    {
      assert BufOk(s, j);
    }
    assert Quiescent(t) <==> Quiescent(s);
  }

  lemma StepKeeps(s: State, a: Action)
    requires Inv(s) && Enabled(s, a)
    ensures Inv(Apply(s, a))
  {
    match a
    case MarkNext => MarkKeeps(s);
    case SetWriteback => WritebackKeeps(s);
    case SubmitNext => SubmitKeeps(s);
    case Return => ReturnKeeps(s);
    case Report(k, ok) => ReportKeeps(s, k, ok);
    case Quiet(k) => QuietKeeps(s, k);
    case _ => OtherKeeps(s, a);
  }

  // ----- runs -----

  predicate Runs(s: State, run: seq<Action>, t: State)
    decreases |run|
  {
    if run == [] then s == t
    else |s.io| == |s.page.bufs| && Enabled(s, run[0]) && Runs(Apply(s, run[0]), run[1..], t)
  }

  lemma {:induction false} RunKeeps(s: State, run: seq<Action>, t: State)
    requires Inv(s) && Runs(s, run, t)
    ensures Inv(t)
    decreases |run|
  {
    if run != [] {
      StepKeeps(s, run[0]);
      RunKeeps(Apply(s, run[0]), run[1..], t);
    }
  }

  lemma BeginOk(s: State)
    requires Begin(s)
    ensures Inv(s)
  {
    forall k | 0 <= k < |s.io|
      ensures BufOk(s, k)
    {
    }
  }

  /**
   Writeback ends at most once, only after it began, and only when no buffer is being written;
   the page stays under writeback until then.  A writer that submitted nothing ends it itself.
   */
  lemma EndedOnce(s: State, run: seq<Action>, t: State)
    requires Begin(s) && Runs(s, run, t)
    ensures t.ends <= 1
    ensures t.page.writeback <==> !t.phase.Marking? && t.ends == 0
    ensures t.ends == 1 ==> Quiescent(t) && !Busy(t.page)
    ensures t.phase == Returned && t.underway == 0 ==> t.ends == 1
    ensures t.phase == Marking(|t.io|) ==> !t.page.writeback
    ensures t.page.locked <==> t.phase.Marking? || t.phase.Submitting?
  {
    BeginOk(s);
    RunKeeps(s, run, t);
    if t.ends == 1 {
      forall k | 0 <= k < |t.page.bufs|
        ensures !t.page.bufs[k].async
      {
        assert BufOk(t, k);
      }
    }
    if t.phase == Returned && t.underway == 0 {
      forall k | 0 <= k < |t.io|
        ensures t.io[k] == Off
      {
        assert BufOk(t, k);
      }
      assert Quiescent(t);
    }
  }

  /** The assertions hold: a completing buffer is under I/O, and pending ones are locked. */
  lemma NoBug(s: State, run: seq<Action>, t: State, k: nat)
    requires Begin(s) && Runs(s, run, t) && k < |t.io|
    ensures |t.io| == |t.page.bufs| && AsyncLocked(t.page)
    ensures t.io[k] == Issued || t.io[k] == Flagged ==> t.page.bufs[k].async && t.page.writeback
  {
    BeginOk(s);
    RunKeeps(s, run, t);
    forall j | 0 <= j < |t.io|
      ensures t.page.bufs[j].async ==> t.page.bufs[j].locked
    {
      assert BufOk(t, j);
    }
    assert BufOk(t, k);
  }

  /** Other threads may do to a buffer that is not under I/O whatever they like. */
  lemma OthersAreFree(s: State, k: nat, bits: Bits)
    requires Inv(s) && k < |s.io| && (s.io[k] == Off || s.io[k] == Done) && !bits.async
    ensures Enabled(s, Outside(k, bits)) && Apply(s, Outside(k, bits)).page.bufs == s.page.bufs[k := bits]
  {
    assert BufOk(s, k);
  }

  // ----- what is dirty gets written -----

  /** A buffer the writer has gone for stays gone for. */
  lemma PickedStays(s: State, a: Action, k: nat)
    requires |s.io| == |s.page.bufs| && Enabled(s, a) && k < |s.io| && s.io[k] != Off
    ensures k < |Apply(s, a).io| && Apply(s, a).io[k] != Off
  {
  }

  lemma {:induction false} PickedAlways(s: State, run: seq<Action>, t: State, k: nat)
    requires Inv(s) && Runs(s, run, t) && k < |s.io| && s.io[k] != Off
    ensures k < |t.io| && t.io[k] != Off
    decreases |run|
  {
    if run != [] {
      PickedStays(s, run[0], k);
      StepKeeps(s, run[0]);
      PickedAlways(Apply(s, run[0]), run[1..], t, k);
    }
  }

  /** The writer has handed over all it is going to. */
  predicate Handed(s: State) { s.phase == Unlocked || s.phase == Returned }

  lemma PickedIsIssued(s: State, run: seq<Action>, t: State, k: nat)
    requires Inv(s) && Runs(s, run, t) && k < |s.io| && s.io[k] != Off && Handed(t)
    ensures k < |t.io| && (t.io[k] == Issued || t.io[k] == Flagged || t.io[k] == Done)
  {
    PickedAlways(s, run, t, k);
    RunKeeps(s, run, t);
    assert BufOk(t, k);
  }

  /**
   On every run: a buffer that is mapped and dirty when the writer comes to it, and not locked unless
   the writer waits for locks, has been issued by the time the writer is through; on the recovery
   path so has one that is mapped, dirty and not delayed.
   */
  lemma DirtyIsIssued(s: State, one: seq<Action>, u: State, two: seq<Action>, t: State)
    requires Begin(s) && Runs(s, one, u) && |u.io| == |u.page.bufs| && Enabled(u, MarkNext)
    requires Runs(Apply(u, MarkNext), two, t) && Handed(t)
    requires var b := u.page.bufs[u.phase.k];
      b.mapped && b.dirty && (if u.recover then !b.delay else u.wait || !b.locked)
    ensures var k := u.phase.k; k < |t.io| && (t.io[k] == Issued || t.io[k] == Flagged || t.io[k] == Done)
  {
    BeginOk(s);
    RunKeeps(s, one, u);
    StepKeeps(u, MarkNext);
    PickedIsIssued(Apply(u, MarkNext), two, t, u.phase.k);
  }

  /** Nothing else is: what gets marked was mapped and dirty. */
  lemma OnlyDirtyIsMarked(s: State, k: nat)
    requires Inv(s) && Enabled(s, MarkNext) && k < |s.io| && s.io[k] == Off && MarkedNext(s).io[k] != Off
    ensures k == s.phase.k && s.page.bufs[k].mapped && s.page.bufs[k].dirty && !s.page.bufs[k].locked
    ensures s.recover ==> !s.page.bufs[k].delay
  {
    assert BufOk(s, k) && BufOk(s, s.phase.k);
  }

  /** On the recovery path the others lose their dirty bit, which getting attached to a dirty page may have set. */
  lemma RecoveryCleans(s: State)
    requires Inv(s) && Enabled(s, MarkNext) && s.recover
    ensures var k, t := s.phase.k, MarkedNext(s);
      if s.page.bufs[k].mapped && s.page.bufs[k].dirty && !s.page.bufs[k].delay then t.io[k] == Marked
      else t.io[k] == s.io[k] && !t.page.bufs[k].dirty
  {
    assert BufOk(s, s.phase.k);
  }

  /** A writer that is not to wait never does: what is locked it passes over and leaves as it is. */
  lemma NeverWaits(s: State)
    requires Inv(s) && s.phase.Marking? && s.phase.k < |s.io| && !s.wait && !s.recover
    ensures Enabled(s, MarkNext)
    ensures s.page.bufs[s.phase.k].locked ==> MarkedNext(s).page == s.page && MarkedNext(s).io == s.io
  {
    assert BufOk(s, s.phase.k);
    if s.page.bufs[s.phase.k].locked {
      assert s.page.bufs[s.phase.k := s.page.bufs[s.phase.k]] == s.page.bufs;
    }
  }

  /** A buffer on its way to the disk is not dirty any more. */
  predicate CleanAt(s: State, k: nat)
    requires k < |s.io| == |s.page.bufs|
  {
    s.io[k] == Issued || s.io[k] == Flagged || (!s.recover && s.io[k] == Marked) ==> !s.page.bufs[k].dirty
  }

  /** Besides, the page knows of a failed `get_block`. */
  predicate Tidy(s: State) {
    && |s.io| == |s.page.bufs| && (s.recover && !s.phase.Marking? ==> s.page.error)
    && forall k {:trigger CleanAt(s, k)} :: 0 <= k < |s.io| ==> CleanAt(s, k)
  }

  lemma CleanStep(s: State, a: Action, k: nat)
    requires Inv(s) && Enabled(s, a) && k < |s.io| && CleanAt(s, k)
    ensures k < |Apply(s, a).io| == |Apply(s, a).page.bufs| && CleanAt(Apply(s, a), k)
  {
    assert BufOk(s, k);
  }

  lemma TidyStep(s: State, a: Action)
    requires Inv(s) && Tidy(s) && Enabled(s, a)
    ensures Tidy(Apply(s, a)) && Apply(s, a).recover == s.recover
  {
    forall k | 0 <= k < |Apply(s, a).io|
      ensures CleanAt(Apply(s, a), k)
    {
      assert CleanAt(s, k);
      CleanStep(s, a, k);
    }
  }

  lemma {:induction false} TidyAlways(s: State, run: seq<Action>, t: State)
    requires Inv(s) && Tidy(s) && Runs(s, run, t)
    ensures Tidy(t) && t.recover == s.recover
    decreases |run|
  {
    if run != [] {
      TidyStep(s, run[0]);
      StepKeeps(s, run[0]);
      TidyAlways(Apply(s, run[0]), run[1..], t);
    }
  }

  /** On every run a buffer under I/O has been cleaned, and the page of a failed `get_block` carries its error. */
  lemma IssuedIsClean(s: State, run: seq<Action>, t: State, k: nat)
    requires Begin(s) && Runs(s, run, t) && k < |t.io|
    ensures |t.page.bufs| == |t.io| && (t.io[k] == Issued || t.io[k] == Flagged ==> !t.page.bufs[k].dirty)
    ensures s.recover && Handed(t) ==> t.page.error
  {
    BeginOk(s);
    TidyAlways(s, run, t);
    assert CleanAt(t, k);
  }

  /** On the normal path the writer takes the dirty bit only from buffers it then issues. */
  lemma CleanedIsIssued(s: State, one: seq<Action>, u: State, a: Action, two: seq<Action>, t: State, k: nat)
    requires Begin(s) && Runs(s, one, u) && |u.io| == |u.page.bufs| && Enabled(u, a) && !a.Outside? && !u.recover
    requires Runs(Apply(u, a), two, t) && Handed(t) && k < |u.page.bufs|
    requires u.page.bufs[k].dirty && k < |Apply(u, a).page.bufs| && !Apply(u, a).page.bufs[k].dirty
    ensures k < |t.io| && (t.io[k] == Issued || t.io[k] == Flagged || t.io[k] == Done)
  {
    BeginOk(s);
    RunKeeps(s, one, u);
    StepKeeps(u, a);
    assert BufOk(u, k);
    PickedIsIssued(Apply(u, a), two, t, k);
  }

  /** Issued buffers, one by one. */
  function One(i: Io): nat { if i == Issued || i == Flagged || i == Done then 1 else 0 }

  lemma CountStep(s: State, a: Action)
    requires Inv(s) && Enabled(s, a) && s.underway == Total(One, s.io)
    ensures Apply(s, a).underway == Total(One, Apply(s, a).io)
  {
    match a
    case MarkNext =>
      assert BufOk(s, s.phase.k);
      TotalUpdate(One, s.io, s.phase.k, Marked);
    case SubmitNext =>
      assert BufOk(s, s.phase.k);
      TotalUpdate(One, s.io, s.phase.k, Issued);
    case Report(k, _) => TotalUpdate(One, s.io, k, Flagged);
    case Quiet(k) => TotalUpdate(One, s.io, k, Done);
    case _ =>
  }

  lemma {:induction false} NoneIssued(io: seq<Io>)
    requires forall k :: 0 <= k < |io| ==> io[k] == Off
    ensures Total(One, io) == 0
  {
    if io != [] {
      NoneIssued(io[1..]);
    }
  }

  lemma {:induction false} CountAlways(s: State, run: seq<Action>, t: State)
    requires Inv(s) && Runs(s, run, t) && s.underway == Total(One, s.io)
    ensures t.underway == Total(One, t.io)
    decreases |run|
  {
    if run != [] {
      CountStep(s, run[0]);
      StepKeeps(s, run[0]);
      CountAlways(Apply(s, run[0]), run[1..], t);
    }
  }

  /** On every run there have been as many submissions as there are buffers issued: none is issued twice. */
  lemma IssuedOnce(s: State, run: seq<Action>, t: State)
    requires Begin(s) && Runs(s, run, t)
    ensures t.underway == Total(One, t.io)
  {
    BeginOk(s);
    NoneIssued(s.io);
    CountAlways(s, run, t);
  }

  /** Report, quiet and close in one go: what the handler on the heap does. */
  lemma HandlerIsThreeSteps(s: State, k: nat, ok: bool)
    requires Inv(s) && Enabled(s, Report(k, ok))
    ensures var t := Apply(s, Report(k, ok));
      && |t.io| == |t.page.bufs| && Enabled(t, Quiet(k)) && AsyncLocked(s.page)
      && (var u := QuietedAt(t, k);
          && |u.io| == |u.page.bufs| && (Enabled(u, Close) <==> !Busy(u.page))
          && WriteEnded(s.page, k, ok) == if Enabled(u, Close) then Apply(u, Close).page else u.page)
  {
    forall j | 0 <= j < |s.io|
      ensures s.page.bufs[j].async ==> s.page.bufs[j].locked
    {
      assert BufOk(s, j);
    }
    assert !Quiescent(s);
  }

  // ----- writeback does end -----

  function Rank(i: Io): nat {
    match i
    case Off => 0
    case Marked => 4
    case Issued => 3
    case Flagged => 2
    case Done => 0
  }

  function Steps(p: Phase, n: nat): int {
    match p
    case Marking(k) => 5 * (n - k) + n + 4
    case Submitting(k) => n - k + 3
    case Unlocked => 1
    case Returned => 0
  }

  function Left(s: State): int { Total(Rank, s.io) + Steps(s.phase, |s.io|) + if s.closing then 1 else 0 }

  lemma MarkLess(s: State)
    requires BufsOk(s) && Enabled(s, MarkNext)
    ensures Left(MarkedNext(s)) < Left(s)
  {
    assert BufOk(s, s.phase.k);
    TotalUpdate(Rank, s.io, s.phase.k, Marked);
  }

  lemma SubmitLess(s: State)
    requires BufsOk(s) && Enabled(s, SubmitNext)
    ensures Left(SubmittedNext(s)) < Left(s)
  {
    assert BufOk(s, s.phase.k);
    TotalUpdate(Rank, s.io, s.phase.k, Issued);
  }

  lemma CompletionLess(s: State, a: Action)
    requires |s.io| == |s.page.bufs| && Enabled(s, a) && (a.Report? || a.Quiet?)
    ensures Left(Apply(s, a)) < Left(s)
  {
    TotalUpdate(Rank, s.io, a.k, if a.Report? then Flagged else Done);
  }

  /** Every step of writer and completions leaves less to do. */
  lemma StepsRunOut(s: State, a: Action)
    requires Inv(s) && Enabled(s, a) && !a.Outside?
    ensures 0 <= Left(Apply(s, a)) < Left(s)
  {
    match a
    case MarkNext => MarkLess(s);
    case SubmitNext => SubmitLess(s);
    case Report(_, _) => CompletionLess(s, a);
    case Quiet(_) => CompletionLess(s, a);
    case _ =>
  }

  /** Until writeback has ended some step is possible, or the writer waits for a buffer somebody else has locked. */
  lemma NotStuck(s: State)
    requires Inv(s) && s.ends == 0
    ensures (exists a: Action :: Enabled(s, a) && !a.Outside?)
         || (s.phase.Marking? && s.phase.k < |s.io| && s.page.bufs[s.phase.k].locked)
  {
    if s.phase.Marking? {
      assert s.phase.k < |s.io| ==> s.page.bufs[s.phase.k].locked || Enabled(s, MarkNext);
      assert s.phase.k == |s.io| ==> Enabled(s, SetWriteback);
    } else if s.phase != Returned {
      assert Enabled(s, SubmitNext) || Enabled(s, Unlock) || Enabled(s, Return);
    } else if s.closing {
      assert Enabled(s, Close);
    } else {
      var k :| 0 <= k < |s.io| && s.io[k] != Off && s.io[k] != Done;
      assert BufOk(s, k);
      assert Enabled(s, Report(k, true)) || Enabled(s, Quiet(k));
    }
  }
}
