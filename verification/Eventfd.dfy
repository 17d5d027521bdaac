/**
 An eventfd counter (`fs/eventfd.c`): signals, reads and writes that may sleep on one wait
 queue.  Every region under `wqh.lock` is one step.
 */
module Eventfd {

  const ULLONG_MAX: nat := 0xffff_ffff_ffff_ffff

  /** A thread on the wait queue; `asleep` until somebody wakes it. */
  datatype Waiter = Reader(asleep: bool) | Writer(amount: nat, asleep: bool)

  /** `put` and `got` are the totals accepted into and read from the counter. */
  datatype State = State(count: nat, semaphore: bool, wqh: map<nat, Waiter>, put: nat, got: nat)

  /** `wake_up_locked_poll`: no entry is exclusive, so all are woken. */
  function Woken(wqh: map<nat, Waiter>): (r: map<nat, Waiter>)
    ensures r.Keys == wqh.Keys
  {
    map t | t in wqh :: wqh[t].(asleep := false)
  }

  function Accepted(s: State, n: nat): State { s.(count := s.count + n, put := s.put + n, wqh := Woken(s.wqh)) }

  /** `eventfd_signal`: as much as fits. */
  function SignalAmount(s: State, n: nat): (r: nat)
    requires s.count <= ULLONG_MAX
    ensures r <= n && s.count + r <= ULLONG_MAX && (r == n || s.count + r == ULLONG_MAX)
  {
    if ULLONG_MAX - s.count < n then ULLONG_MAX - s.count else n
  }

  predicate Readable(s: State) { s.count > 0 }

  predicate Writable(s: State, u: nat)
    requires s.count <= ULLONG_MAX
  {
    ULLONG_MAX - s.count > u
  }

  /** `eventfd_ctx_do_read`. */
  function Amount(s: State): nat { if s.semaphore then 1 else s.count }

  function Taken(s: State): State
    requires Readable(s)
  {
    s.(count := s.count - Amount(s), got := s.got + Amount(s), wqh := Woken(s.wqh))
  }

  // ----- steps -----

  datatype Action =
    | Signal(n: nat)
    | Read(t: nat, noWait: bool)            // eventfd_ctx_read, its first look
    | ReadAgain(t: nat, interrupted: bool)  // a turn of its loop
    | Write(t: nat, u: nat, noWait: bool)
    | WriteAgain(t: nat, interrupted: bool)

  predicate Enabled(s: State, a: Action) {
    match a
    case Signal(n) => n <= ULLONG_MAX
    case Read(t, _) => t !in s.wqh
    case ReadAgain(t, interrupted) => t in s.wqh && s.wqh[t].Reader? && (interrupted || !s.wqh[t].asleep)
    case Write(t, u, _) => t !in s.wqh && u < ULLONG_MAX
    case WriteAgain(t, interrupted) => t in s.wqh && s.wqh[t].Writer? && (interrupted || !s.wqh[t].asleep)
  }

  function Slept(s: State, t: nat, w: Waiter): State { s.(wqh := s.wqh[t := w]) }

  function Left(s: State, t: nat): State { s.(wqh := s.wqh - {t}) }

  function Apply(s: State, a: Action): State
    requires s.count <= ULLONG_MAX && Enabled(s, a)
  {
    match a
    case Signal(n) => Accepted(s, SignalAmount(s, n))
    case Read(t, noWait) => if Readable(s) then Taken(s) else if noWait then s else Slept(s, t, Reader(true))
    case ReadAgain(t, interrupted) =>
      if Readable(s) then Taken(Left(s, t)) else if interrupted then Left(s, t) else Slept(s, t, Reader(true))
    case Write(t, u, noWait) =>
      if Writable(s, u) then Accepted(s, u) else if noWait then s else Slept(s, t, Writer(u, true))
    case WriteAgain(t, interrupted) =>
      var u := s.wqh[t].amount;
      if Writable(s, u) then Accepted(Left(s, t), u) else if interrupted then Left(s, t)
        else Slept(s, t, Writer(u, true))
  }

  /** What a step adds to the counter, or takes from it. */
  function Gain(s: State, a: Action): int
    requires Enabled(s, a)
  {
    match a
    case Signal(n) => if s.count + n <= ULLONG_MAX then n else ULLONG_MAX - s.count
    case Read(_, _) => if s.count == 0 then 0 else if s.semaphore then -1 else 0 - s.count
    case ReadAgain(_, _) => if s.count == 0 then 0 else if s.semaphore then -1 else 0 - s.count
    case Write(_, u, _) => if s.count + u < ULLONG_MAX then u else 0
    case WriteAgain(t, _) => if s.count + s.wqh[t].amount < ULLONG_MAX then s.wqh[t].amount else 0
  }

  /** The step would block: a read of nothing, or a write that does not fit below the largest number. */
  predicate Blocks(s: State, a: Action)
    requires Enabled(s, a)
  {
    match a
    case Signal(_) => false
    case Read(_, _) => s.count == 0
    case ReadAgain(_, _) => s.count == 0
    case Write(_, u, _) => s.count + u >= ULLONG_MAX
    case WriteAgain(t, _) => s.count + s.wqh[t].amount >= ULLONG_MAX
  }

  /** The thread gives up instead of sleeping. */
  predicate GivesUp(a: Action) {
    match a
    case Signal(_) => false
    case Read(_, noWait) => noWait
    case ReadAgain(_, interrupted) => interrupted
    case Write(_, _, noWait) => noWait
    case WriteAgain(_, interrupted) => interrupted
  }

  /**
   What every step does to the counter, the totals and the thread that makes it: a semaphore read
   takes one and any other read everything, a write adds all it was given, a signal what fits; and
   the thread sleeps exactly if it blocks and does not give up.
   */
  lemma StepExact(s: State, a: Action)
    requires s.count <= ULLONG_MAX && Enabled(s, a)
    ensures var u, g := Apply(s, a), Gain(s, a);
      && u.count == s.count + g && u.semaphore == s.semaphore
      && u.put == s.put + (if g > 0 then g else 0) && u.got == s.got - (if g < 0 then g else 0)
      && (!a.Signal? ==> (a.t in u.wqh <==> Blocks(s, a) && !GivesUp(a)) && (a.t in u.wqh ==> u.wqh[a.t].asleep))
      && (forall k :: k in s.wqh && (a.Signal? || k != a.t) ==> k in u.wqh && u.wqh[k].Writer? == s.wqh[k].Writer?)
  {
  }

  // ----- invariants -----

  /** Nobody sleeps who could go on. */
  predicate RightlyAsleep(s: State, t: nat)
    requires t in s.wqh && s.count <= ULLONG_MAX
  {
    s.wqh[t].asleep ==> match s.wqh[t]
      case Reader(_) => !Readable(s)
      case Writer(u, _) => !Writable(s, u)
  }

  predicate Inv(s: State, initial: nat) {
    && s.count <= ULLONG_MAX && initial + s.put == s.got + s.count
    && forall t :: t in s.wqh ==> RightlyAsleep(s, t)
  }

  lemma StepKeeps(s: State, a: Action, initial: nat)
    requires Inv(s, initial) && Enabled(s, a)
    ensures Inv(Apply(s, a), initial)
  {
  }

  predicate Runs(s: State, run: seq<Action>, t: State)
    decreases |run|
  {
    if run == [] then s == t
    else s.count <= ULLONG_MAX && Enabled(s, run[0]) && Runs(Apply(s, run[0]), run[1..], t)
  }

  lemma {:induction false} RunKeeps(s: State, run: seq<Action>, t: State, initial: nat)
    requires Inv(s, initial) && Runs(s, run, t)
    ensures Inv(t, initial)
    decreases |run|
  {
    if run != [] {
      StepKeeps(s, run[0], initial);
      RunKeeps(Apply(s, run[0]), run[1..], t, initial);
    }
  }

  /**
   Over every run from a counter nobody waits for: what was accepted and not read is in the
   counter, which never wraps; and a thread still asleep could not proceed if it were woken.
   */
  lemma NothingLost(s: State, run: seq<Action>, t: State)
    requires s.count <= ULLONG_MAX && s.wqh == map[] && s.put == 0 && s.got == 0 && Runs(s, run, t)
    ensures s.count + t.put == t.got + t.count && t.count <= ULLONG_MAX
    ensures forall k :: k in t.wqh && t.wqh[k].asleep ==>
      if t.wqh[k].Reader? then t.count == 0 else t.count + t.wqh[k].amount >= ULLONG_MAX
  {
    RunKeeps(s, run, t, s.count);
    forall k | k in t.wqh && t.wqh[k].asleep
      ensures if t.wqh[k].Reader? then t.count == 0 else t.count + t.wqh[k].amount >= ULLONG_MAX
    {
      assert RightlyAsleep(t, k);
    }
  }

  /**
   No wake-up is missed: in every reachable state a waiter who can go on is awake to take its turn
   and then leaves the queue with what it asked for; and any waiter can be interrupted.
   */
  lemma ReadyIsServed(s: State, t: nat, initial: nat)
    requires Inv(s, initial) && t in s.wqh
    ensures s.wqh[t].Reader? && s.count > 0 ==>
      && Enabled(s, ReadAgain(t, false)) && t !in Apply(s, ReadAgain(t, false)).wqh
      && Apply(s, ReadAgain(t, false)).count == if s.semaphore then s.count - 1 else 0
    ensures s.wqh[t].Writer? && s.count + s.wqh[t].amount < ULLONG_MAX ==>
      && Enabled(s, WriteAgain(t, false)) && t !in Apply(s, WriteAgain(t, false)).wqh
      && Apply(s, WriteAgain(t, false)).count == s.count + s.wqh[t].amount
    ensures Enabled(s, if s.wqh[t].Reader? then ReadAgain(t, true) else WriteAgain(t, true))
  {
    assert RightlyAsleep(s, t);
    StepExact(s, if s.wqh[t].Reader? then ReadAgain(t, true) else WriteAgain(t, true));
  }

  // ----- poll -----

  datatype Poll = Poll(pollin: bool, pollout: bool, pollerr: bool)

  /** `eventfd_poll`. */
  function Polled(count: nat): Poll
    requires count <= ULLONG_MAX
  {
    Poll(count > 0, ULLONG_MAX - 1 > count, count == ULLONG_MAX)
  }

  /** A poll bit is set exactly if the operation it stands for would not block. */
  lemma PollExact(s: State, t: nat)
    requires s.count <= ULLONG_MAX && t !in s.wqh
    ensures Polled(s.count).pollin <==> t !in Apply(s, Read(t, false)).wqh
    ensures Polled(s.count).pollout <==> t !in Apply(s, Write(t, 1, false)).wqh
    ensures Polled(s.count).pollerr ==> !Polled(s.count).pollout && Polled(s.count).pollin
  {
  }

  /** Only a signal can fill the counter to the brim, so POLLERR means that signals overflowed it. */
  lemma OnlySignalsOverflow(s: State, a: Action)
    requires s.count < ULLONG_MAX && Enabled(s, a) && Polled(Apply(s, a).count).pollerr
    ensures a.Signal? && s.count + a.n >= ULLONG_MAX
  {
  }

  // ----- the context itself -----

  datatype Outcome = Done(value: nat) | EINVAL | EAGAIN | ERESTARTSYS | Asleep

  class EventfdCtx {
    var count: nat
    const semaphore: bool
    var wqh: map<nat, Waiter>
    ghost var put: nat
    ghost var got: nat

    constructor (count: nat, semaphore: bool)
      ensures View() == State(count, semaphore, map[], 0, 0)
    {
      this.count, this.semaphore, wqh, put, got := count, semaphore, map[], 0, 0;
    }

    ghost function View(): State
      reads this
    {
      State(count, semaphore, wqh, put, got)
    }

    method WakeUp()
      modifies `wqh
      ensures wqh == Woken(old(wqh))
    {
      if wqh != map[] {
        wqh := map t | t in wqh :: wqh[t].(asleep := false);
      }
    }

    /** `eventfd_signal`; returns how much was added. */
    method SignalBy(n: nat) returns (added: nat)
      requires count <= ULLONG_MAX && n <= ULLONG_MAX
      modifies this
      ensures View() == Apply(old(View()), Signal(n)) && added == SignalAmount(old(View()), n)
      ensures added == count - old(count) == if old(count) + n <= ULLONG_MAX then n else ULLONG_MAX - old(count)
    {
      added := n;
      if ULLONG_MAX - count < n {
        added := ULLONG_MAX - count;
      }
      count := count + added;
      put := put + added;
      WakeUp();
    }

    method DoRead() returns (cnt: nat)
      requires count > 0
      modifies this
      ensures View() == Taken(old(View())) && cnt == old(count) - count == if semaphore then 1 else old(count)
    {
      cnt := if semaphore then 1 else count;
      count := count - cnt;
      got := got + cnt;
      WakeUp();
    }

    /** `eventfd_ctx_read` up to its result or its going to sleep. */
    method StartRead(t: nat, noWait: bool) returns (r: Outcome)
      requires t !in wqh && count <= ULLONG_MAX
      modifies this
      ensures View() == Apply(old(View()), Read(t, noWait))
      ensures r == if old(count) > 0 then Done(old(count) - count) else if noWait then EAGAIN else Asleep
    {
      if count > 0 {
        var cnt := DoRead();
        return Done(cnt);
      } else if noWait {
        return EAGAIN;
      }
      wqh := wqh[t := Reader(true)];
      r := Asleep;
    }

    /** A turn of its loop after `schedule` returned. */
    method ResumeRead(t: nat, interrupted: bool) returns (r: Outcome)
      requires count <= ULLONG_MAX && Enabled(View(), ReadAgain(t, interrupted))
      modifies this
      ensures View() == Apply(old(View()), ReadAgain(t, interrupted))
      ensures r == if old(count) > 0 then Done(old(count) - count) else if interrupted then ERESTARTSYS else Asleep
    {
      if count > 0 {
        wqh := wqh - {t};
        var cnt := DoRead();
        return Done(cnt);
      } else if interrupted {
        wqh := wqh - {t};
        return ERESTARTSYS;
      }
      wqh := wqh[t := Reader(true)];
      r := Asleep;
    }

    /** `eventfd_write` up to its result or its going to sleep; the largest number is refused. */
    method StartWrite(t: nat, u: nat, noWait: bool) returns (r: Outcome)
      requires t !in wqh && count <= ULLONG_MAX && u <= ULLONG_MAX
      modifies this
      ensures View() == if u == ULLONG_MAX then old(View()) else Apply(old(View()), Write(t, u, noWait))
      ensures r == if u == ULLONG_MAX then EINVAL
                   else if ULLONG_MAX - old(count) > u then Done(8) else if noWait then EAGAIN else Asleep
    {
      if u == ULLONG_MAX {
        return EINVAL;
      }
      if ULLONG_MAX - count > u {
        count, put := count + u, put + u;
        WakeUp();
        return Done(8);
      } else if noWait {
        return EAGAIN;
      }
      wqh := wqh[t := Writer(u, true)];
      r := Asleep;
    }

    method ResumeWrite(t: nat, interrupted: bool) returns (r: Outcome)
      requires count <= ULLONG_MAX && Enabled(View(), WriteAgain(t, interrupted))
      modifies this
      ensures View() == Apply(old(View()), WriteAgain(t, interrupted))
      ensures r == if ULLONG_MAX - old(count) > old(wqh)[t].amount then Done(8)
                   else if interrupted then ERESTARTSYS else Asleep
    {
      var u := wqh[t].amount;
      if ULLONG_MAX - count > u {
        wqh := wqh - {t};
        count, put := count + u, put + u;
        WakeUp();
        return Done(8);
      } else if interrupted {
        wqh := wqh - {t};
        return ERESTARTSYS;
      }
      wqh := wqh[t := Writer(u, true)];
      r := Asleep;
    }
  }
}
