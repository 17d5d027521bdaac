/**
 One `block_read_full_page`: the reader lists, locks and starts the buffers that need I/O,
 completions arrive in any order and in overlapping parts, and other threads may meanwhile
 lock buffers that are not under I/O or bring them up to date.
 */
module PageRead {
  import opened Wrappers
  import opened Sequences
  import opened PageIo

  /** What became of a buffer; `direct` if it turned out up to date when about to be submitted. */
  datatype Io = Off | Listed | Marked | Issued(direct: bool) | Flagged | Done

  /** `closing` is set between the walk of the last completion and its unlocking the page. */
  datatype State = State(page: PageBits, io: seq<Io>, scanned: bool, closing: Option<bool>, unlocks: nat)

  /** What `get_block` did to an unmapped buffer; it is not called when the block is not `inside` the file. */
  datatype Outcome = Outcome(inside: bool, err: bool, mapped: bool, uptodate: bool)

  datatype Action =
    | Scan(outcomes: seq<Outcome>)
    | Mark(k: nat)
    | Start(k: nat)
    | Report(k: nat, ok: bool)
    | Quiet(k: nat)
    | Close
    | Outside(k: nat, locked: bool, uptodate: bool)

  // ----- the first pass -----

  predicate Failed(b: Bits, o: Outcome) { !b.uptodate && !b.mapped && o.inside && o.err }

  function Looked(b: Bits, o: Outcome): Bits {
    if b.uptodate || b.mapped then b
    else
      var c := if o.inside then b.(mapped := o.mapped, uptodate := o.uptodate) else b;
      if !c.mapped && !Failed(b, o) then c.(uptodate := true) else c
  }

  predicate Wanted(b: Bits, o: Outcome) { !b.uptodate && Looked(b, o).mapped && !Looked(b, o).uptodate }

  function Scanned(s: State, os: seq<Outcome>): State
    requires |os| == |s.page.bufs|
  {
    var n, b := |os|, s.page.bufs;
    var p := s.page.(bufs := seq(n, i requires 0 <= i < n => Looked(b[i], os[i])),
                     error := s.page.error || exists i :: 0 <= i < n && Failed(b[i], os[i]));
    var io := seq(n, i requires 0 <= i < n => if Wanted(b[i], os[i]) then Listed else Off);
    if forall i :: 0 <= i < n ==> io[i] == Off
    then s.(page := ReadClosed(p, true), io := io, scanned := true, unlocks := s.unlocks + 1)
    else s.(page := p, io := io, scanned := true)
  }

  // ----- steps -----

  predicate Enabled(s: State, a: Action)
    requires |s.io| == |s.page.bufs|
  {
    match a
    case Scan(os) => !s.scanned && |os| == |s.page.bufs|
    case Mark(k) => k < |s.io| && s.io[k] == Listed && !s.page.bufs[k].locked
    case Start(k) => k < |s.io| && s.io[k] == Marked && Listed !in s.io
    case Report(k, ok) => k < |s.io| && s.io[k].Issued? && (s.io[k].direct ==> ok)
    case Quiet(k) => k < |s.io| && s.io[k] == Flagged
    case Close => s.closing.Some?
    case Outside(k, _, uptodate) => k < |s.io| && !s.page.bufs[k].async && (s.page.bufs[k].uptodate ==> uptodate)
  }

  function MarkedAt(s: State, k: nat): State
    requires k < |s.io| == |s.page.bufs|
  {
    var b := s.page.bufs[k].(locked := true, async := true);
    s.(io := s.io[k := Marked], page := s.page.(bufs := s.page.bufs[k := b]))
  }

  function QuietedAt(s: State, k: nat): State
    requires k < |s.io| == |s.page.bufs|
  {
    var q := Quieted(s.page, k);
    s.(io := s.io[k := Done], page := q, closing := if Busy(q) then s.closing else Some(AllUptodate(q)))
  }

  function Apply(s: State, a: Action): State
    requires |s.io| == |s.page.bufs| && Enabled(s, a)
  {
    match a
    case Scan(os) => Scanned(s, os)
    case Mark(k) => MarkedAt(s, k)
    case Start(k) => s.(io := s.io[k := Issued(s.page.bufs[k].uptodate)])
    case Report(k, ok) => s.(io := s.io[k := Flagged], page := Reported(s.page, k, ok))
    case Quiet(k) => QuietedAt(s, k)
    case Close => s.(page := ReadClosed(s.page, s.closing.value), closing := None, unlocks := s.unlocks + 1)
    case Outside(k, locked, uptodate) =>
      s.(page := s.page.(bufs := s.page.bufs[k := s.page.bufs[k].(locked := locked, uptodate := uptodate)]))
  }

  // ----- the invariant -----

  predicate Pending(i: Io) { i == Marked || i.Issued? || i == Flagged }

  predicate Over(s: State) { s.scanned && forall k :: 0 <= k < |s.io| ==> s.io[k] == Off || s.io[k] == Done }

  /** Bits and progress of one buffer agree. */
  predicate BufOk(s: State, k: nat)
    requires k < |s.io| == |s.page.bufs|
  {
    var b, i := s.page.bufs[k], s.io[k];
    && (b.async <==> Pending(i)) && (b.async ==> b.locked)
    && (!s.scanned ==> i == Off)
    && (s.scanned && !s.page.error && (i == Off || i == Flagged || i == Done) ==> b.uptodate)
    && (Listed in s.io ==> i == Off || i == Listed || i == Marked)
    && (i.Issued? && i.direct ==> b.uptodate)
  }

  predicate BufsOk(s: State) {
    |s.io| == |s.page.bufs| && forall k {:trigger BufOk(s, k)} :: 0 <= k < |s.io| ==> BufOk(s, k)
  }

  predicate Inv(s: State) {
    && BufsOk(s)
    && (s.page.locked <==> s.unlocks == 0)
    && s.unlocks + (if s.closing.Some? then 1 else 0) == (if Over(s) then 1 else 0)
    && (s.closing.Some? && !s.page.error ==> s.closing.value)
    && (s.closing.Some? && s.closing.value ==> AllUptodate(s.page))
    && (s.page.uptodate ==> AllUptodate(s.page) && s.unlocks == 1 && !s.page.error)
    && (s.unlocks == 1 && !s.page.error ==> s.page.uptodate)
  }

  predicate Begin(s: State) {
    && |s.io| == |s.page.bufs| && (forall k :: 0 <= k < |s.io| ==> s.io[k] == Off && !s.page.bufs[k].async)
    && s.page.locked && !s.page.uptodate && !s.scanned && s.closing == None && s.unlocks == 0
  }

  /** I/O is over when nothing is listed or pending; without an error, all buffers are then up to date. */
  lemma OverIff(s: State)
    requires BufsOk(s) && s.scanned
    ensures Over(s) <==> !Busy(s.page) && Listed !in s.io
    ensures Over(s) && !s.page.error ==> AllUptodate(s.page)
  {
    if Over(s) {
      forall k | 0 <= k < |s.page.bufs|
        ensures !s.page.bufs[k].async && (!s.page.error ==> s.page.bufs[k].uptodate)
      {
        assert BufOk(s, k);
      }
    } else {
      var k :| 0 <= k < |s.io| && s.io[k] != Off && s.io[k] != Done;
      assert BufOk(s, k);
      assert s.io[k] == Listed || s.page.bufs[k].async;
    }
  }

  lemma ScanKeeps(s: State, os: seq<Outcome>)
    requires Inv(s) && Enabled(s, Scan(os))
    ensures Inv(Scanned(s, os))
  {
    var t := Scanned(s, os);
    forall k | 0 <= k < |t.io|
      ensures BufOk(t, k)
    {
      assert BufOk(s, k);
    }
    assert Over(t) <==> forall k :: 0 <= k < |t.io| ==> t.io[k] == Off;
    OverIff(t);
  }

  lemma MarkKeeps(s: State, k: nat)
    requires Inv(s) && Enabled(s, Mark(k))
    ensures Inv(MarkedAt(s, k))
  {
    var t := MarkedAt(s, k);
    forall j | 0 <= j < |t.io|
      ensures BufOk(t, j)
    {
      assert BufOk(s, j);
    }
    assert t.io[k] == Marked && s.io[k] == Listed;
  }

  /** The last completion, and only it, gets to close the page. */
  lemma QuietKeeps(s: State, k: nat)
    requires Inv(s) && Enabled(s, Quiet(k))
    ensures Inv(QuietedAt(s, k))
  {
    var t := QuietedAt(s, k);
    assert BufOk(s, k) && s.scanned && Listed !in s.io;
    forall j | 0 <= j < |t.io|
      ensures BufOk(t, j)
    {
      assert BufOk(s, j);
    }
    assert !Over(s);
    OverIff(t);
  }

  lemma StartKeeps(s: State, k: nat)
    requires Inv(s) && Enabled(s, Start(k))
    ensures Inv(Apply(s, Start(k)))
  {
    var t := Apply(s, Start(k));
    forall j | 0 <= j < |t.io|
      ensures BufOk(t, j)
    {
      assert BufOk(s, j);
    }
    assert s.io[k] == Marked && t.io[k].Issued?;
  }

  lemma ReportKeeps(s: State, k: nat, ok: bool)
    requires Inv(s) && Enabled(s, Report(k, ok))
    ensures Inv(Apply(s, Report(k, ok)))
  {
    var t := Apply(s, Report(k, ok));
    forall j | 0 <= j < |t.io|
      ensures BufOk(t, j)
    {
      assert BufOk(s, j);
    }
    assert s.io[k].Issued? && t.io[k] == Flagged;
  }

  lemma OtherKeeps(s: State, a: Action)
    requires Inv(s) && Enabled(s, a) && (a.Close? || a.Outside?)
    ensures Inv(Apply(s, a))
  {
    var t := Apply(s, a);
    forall j | 0 <= j < |t.io|
      ensures BufOk(t, j)
    {
      assert BufOk(s, j);
    }
    assert Over(t) <==> Over(s);
  }

  lemma StepKeeps(s: State, a: Action)
    requires Inv(s) && Enabled(s, a)
    ensures Inv(Apply(s, a))
  {
    match a
    case Scan(os) => ScanKeeps(s, os);
    case Mark(k) => MarkKeeps(s, k);
    case Start(k) => StartKeeps(s, k);
    case Report(k, ok) => ReportKeeps(s, k, ok);
    case Quiet(k) => QuietKeeps(s, k);
    case _ => OtherKeeps(s, a);
  }

  // ----- runs -----

  predicate Runs(s: State, run: seq<Action>, t: State)
    decreases |run|
  {
    if run == [] then s == t
    else |s.io| == |s.page.bufs| && Enabled(s, run[0]) && Runs(Apply(s, run[0]), run[1..], t)
  }

  lemma {:induction false} RunKeeps(s: State, run: seq<Action>, t: State)
    requires Inv(s) && Runs(s, run, t)
    ensures Inv(t)
    decreases |run|
  {
    if run != [] {
      StepKeeps(s, run[0]);
      RunKeeps(Apply(s, run[0]), run[1..], t);
    }
  }

  /**
   Whatever the order of completions: the page is unlocked at most once and stays locked until
   then; it is unlocked only when no buffer is under I/O any more; and it is then up to date
   exactly if no error was recorded, in which case all its buffers are.
   */
  lemma UnlockedOnce(s: State, run: seq<Action>, t: State)
    requires Begin(s) && Runs(s, run, t)
    ensures t.unlocks <= 1 && (t.page.locked <==> t.unlocks == 0)
    ensures t.unlocks == 1 ==> Over(t) && !Busy(t.page) && (t.page.uptodate ==> AllUptodate(t.page))
    ensures t.unlocks == 1 ==> (t.page.uptodate <==> !t.page.error)
    ensures t.page.uptodate ==> t.unlocks == 1
  {
    forall k | 0 <= k < |s.io|
      ensures BufOk(s, k)
    {
    }
    RunKeeps(s, run, t);
    if t.unlocks == 1 {
      OverIff(t);
    }
  }

  /** The handlers' assertions hold: a buffer that completes is under I/O, and every pending one is locked. */
  lemma NoBug(s: State, run: seq<Action>, t: State, k: nat)
    requires Begin(s) && Runs(s, run, t) && k < |t.io|
    ensures |t.io| == |t.page.bufs| && AsyncLocked(t.page)
    ensures (t.io[k].Issued? || t.io[k] == Flagged) ==> t.page.bufs[k].async && t.page.locked
  {
    forall j | 0 <= j < |s.io|
      ensures BufOk(s, j)
    {
    }
    RunKeeps(s, run, t);
    forall j | 0 <= j < |t.io|
      ensures t.page.bufs[j].async ==> t.page.bufs[j].locked
    {
      assert BufOk(t, j);
    }
    assert BufOk(t, k);
  }

  /** Other threads may lock and unlock a buffer that is not under I/O, and bring it up to date. */
  lemma OthersAreFree(s: State, k: nat, locked: bool, uptodate: bool)
    requires Inv(s) && k < |s.io| && !Pending(s.io[k]) && (s.page.bufs[k].uptodate ==> uptodate)
    ensures Enabled(s, Outside(k, locked, uptodate))
    ensures var b := Apply(s, Outside(k, locked, uptodate)).page.bufs[k]; b.locked == locked && b.uptodate == uptodate
  {
    assert BufOk(s, k);
  }

  // ----- what is not up to date gets read -----

  /** A buffer on the reader's list leaves it only by being read. */
  lemma ListedStays(s: State, a: Action, k: nat)
    requires |s.io| == |s.page.bufs| && Enabled(s, a) && s.scanned && k < |s.io| && s.io[k] != Off
    ensures Apply(s, a).scanned && k < |Apply(s, a).io| && Apply(s, a).io[k] != Off
  {
  }

  lemma {:induction false} ListedAlways(s: State, run: seq<Action>, t: State, k: nat)
    requires Inv(s) && Runs(s, run, t) && s.scanned && k < |s.io| && s.io[k] != Off
    ensures k < |t.io| && t.io[k] != Off && Inv(t)
    decreases |run|
  {
    if run != [] {
      ListedStays(s, run[0], k);
      StepKeeps(s, run[0]);
      ListedAlways(Apply(s, run[0]), run[1..], t, k);
    }
  }

  /**
   On every run: a buffer that is not up to date when the page is scanned, and that is mapped or
   gets mapped without being brought up to date, has been read when the page is unlocked.
   */
  lemma MissingIsRead(s: State, os: seq<Outcome>, run: seq<Action>, t: State, k: nat)
    requires Begin(s) && Enabled(s, Scan(os)) && Runs(Scanned(s, os), run, t) && k < |os| && t.unlocks == 1
    requires var b := s.page.bufs[k]; !b.uptodate && (b.mapped || (os[k].inside && os[k].mapped && !os[k].uptodate))
    ensures k < |t.io| && t.io[k] == Done
  {
    forall j | 0 <= j < |s.io|
      ensures BufOk(s, j)
    {
    }
    ScanKeeps(s, os);
    assert Scanned(s, os).io[k] == Listed;
    ListedAlways(Scanned(s, os), run, t, k);
    OverIff(t);
  }

  lemma LookedExact(b: Bits, o: Outcome)
    ensures Wanted(b, o) ==> !b.uptodate && !Looked(b, o).uptodate && Looked(b, o).mapped
    ensures b.uptodate || b.mapped ==> Looked(b, o) == b
    ensures !b.uptodate && !b.mapped && o.inside ==> Looked(b, o).mapped == o.mapped
    ensures !b.uptodate && !b.mapped && o.inside && (o.mapped || o.err) ==> Looked(b, o).uptodate == o.uptodate
    ensures !b.uptodate && !b.mapped && (!o.inside || (!o.mapped && !o.err)) ==> Looked(b, o).uptodate
  {
  }

  lemma ScannedAt(s: State, os: seq<Outcome>, k: nat)
    requires |s.io| == |s.page.bufs| && Enabled(s, Scan(os)) && k < |os|
    ensures Scanned(s, os).page.bufs[k] == Looked(s.page.bufs[k], os[k])
    ensures Scanned(s, os).io[k] == if Wanted(s.page.bufs[k], os[k]) then Listed else Off
  {
  }

  /**
   Only such buffers are listed.  Others are left alone, are as `get_block` made them, or are zeroed
   and up to date where there is no block; and the page records an error exactly if `get_block`
   failed for a buffer that needed it.
   */
  lemma OnlyMissingIsRead(s: State, os: seq<Outcome>, k: nat)
    requires |s.io| == |s.page.bufs| && Enabled(s, Scan(os)) && k < |os|
    ensures var b, c, o := s.page.bufs[k], Scanned(s, os).page.bufs[k], os[k];
      && (Scanned(s, os).io[k] != Off ==> !b.uptodate && !c.uptodate && c.mapped)
      && (b.uptodate || b.mapped ==> c == b)
      && (!b.uptodate && !b.mapped && o.inside ==> c.mapped == o.mapped)
      && (!b.uptodate && !b.mapped && o.inside && (o.mapped || o.err) ==> c.uptodate == o.uptodate)
      && (!b.uptodate && !b.mapped && (!o.inside || (!o.mapped && !o.err)) ==> c.uptodate)
    ensures Scanned(s, os).page.error <==> (s.page.error ||
      exists j :: 0 <= j < |os| && !s.page.bufs[j].uptodate && !s.page.bufs[j].mapped && os[j].inside && os[j].err)
  {
    LookedExact(s.page.bufs[k], os[k]);
    ScannedAt(s, os, k);
    ScannedError(s, os);
  }

  lemma ScannedError(s: State, os: seq<Outcome>)
    requires |s.io| == |s.page.bufs| && Enabled(s, Scan(os))
    ensures Scanned(s, os).page.error <==> (s.page.error ||
      exists j :: 0 <= j < |os| && !s.page.bufs[j].uptodate && !s.page.bufs[j].mapped && os[j].inside && os[j].err)
  {
    if j :| 0 <= j < |os| && Failed(s.page.bufs[j], os[j]) {
      assert !s.page.bufs[j].uptodate && !s.page.bufs[j].mapped && os[j].inside && os[j].err;
    }
    if j :| 0 <= j < |os| && !s.page.bufs[j].uptodate && !s.page.bufs[j].mapped && os[j].inside && os[j].err {
      assert Failed(s.page.bufs[j], os[j]);
    }
  }

  /** Report, quiet and close in one go: what the handler on the heap does. */
  lemma HandlerIsThreeSteps(s: State, k: nat, ok: bool)
    requires Inv(s) && Enabled(s, Report(k, ok))
    ensures var t := Apply(s, Report(k, ok));
      && |t.io| == |t.page.bufs| && Enabled(t, Quiet(k)) && AsyncLocked(s.page)
      && (var u := QuietedAt(t, k);
          && |u.io| == |u.page.bufs| && (Enabled(u, Close) <==> !Busy(u.page))
          && ReadEnded(s.page, k, ok) == if Enabled(u, Close) then Apply(u, Close).page else u.page)
  {
    forall j | 0 <= j < |s.io|
      ensures s.page.bufs[j].async ==> s.page.bufs[j].locked
    {
      assert BufOk(s, j);
    }
    assert !Over(s);
  }

  // ----- the page does get unlocked -----

  function Rank(i: Io): nat {
    match i
    case Off => 0
    case Listed => 5
    case Marked => 4
    case Issued(_) => 3
    case Flagged => 2
    case Done => 0
  }

  function Left(s: State): nat { Total(Rank, s.io) + if s.closing.Some? then 1 else 0 }

  /** After the first pass every step of the protocol leaves less to do. */
  lemma StepsRunOut(s: State, a: Action)
    requires Inv(s) && Enabled(s, a) && s.scanned && !a.Outside?
    ensures Left(Apply(s, a)) < Left(s)
  {
    match a
    case Mark(k) => TotalUpdate(Rank, s.io, k, Marked);
    case Start(k) => TotalUpdate(Rank, s.io, k, Issued(s.page.bufs[k].uptodate));
    case Report(k, ok) => TotalUpdate(Rank, s.io, k, Flagged);
    case Quiet(k) => TotalUpdate(Rank, s.io, k, Done);
    case Close =>
  }

  /**
   While the page is locked some step is possible, or a listed buffer is locked by somebody else;
   before the first pass that is the pass itself, whatever `get_block` does.
   */
  lemma NotStuck(s: State)
    requires Inv(s) && s.unlocks == 0
    ensures !s.scanned ==> forall os: seq<Outcome> :: |os| == |s.page.bufs| ==> Enabled(s, Scan(os))
    ensures !s.scanned || (exists a: Action :: Enabled(s, a) && !a.Outside?)
      || (exists k :: 0 <= k < |s.io| && s.io[k] == Listed && s.page.bufs[k].locked)
  {
    if Over(s) {
      assert Enabled(s, Close);
    } else if s.scanned {
      var k :| 0 <= k < |s.io| && s.io[k] != Off && s.io[k] != Done;
      if Listed in s.io {
        var j :| 0 <= j < |s.io| && s.io[j] == Listed;
        assert s.page.bufs[j].locked || Enabled(s, Mark(j));
      } else {
        assert Enabled(s, Start(k)) || Enabled(s, Report(k, true)) || Enabled(s, Quiet(k));
      }
    }
  }
}
