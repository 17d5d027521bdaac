/**
 The queue of requests kept as text in shared memory (`server-rev1.c`, `client-rev1.c`):
 spaces, a header, the waiting requests each ended by '>', and a final '<'.
 */
module RequestQueue {

  const HEADER: string := "Request Queue ->"

  /** All the operations rely on about the header. */
  predicate HeaderOk(h: string) { |h| == 16 && h[15] == '>' && '<' !in h && '>' !in h[..15] }

  lemma HeaderIsOk()
    ensures HeaderOk(HEADER)
  {
    assert HEADER[..15] == "Request Queue -";
  }

  function Spaces(n: nat): (s: string)
    ensures |s| == n
  {
    seq(n, _ => ' ')
  }

  /** A request holds none of the characters the layout uses. */
  predicate Plain(r: string) { '<' !in r && '>' !in r && '\0' !in r }

  predicate AllPlain(rs: seq<string>) { forall i :: 0 <= i < |rs| ==> Plain(rs[i]) }

  function Body(rs: seq<string>): string { if rs == [] then "" else rs[0] + ">" + Body(rs[1..]) }

  function Text(h: string, pad: nat, rs: seq<string>): string { Spaces(pad) + h + Body(rs) + "<" }

  /** The memory starts with the queue `rs`. */
  predicate Queue(h: string, m: string, pad: nat, rs: seq<string>) {
    Text(h, pad, rs) <= m
  }

  // ----- where the marks are -----

  lemma {:induction false} BodyPlain(rs: seq<string>)
    requires AllPlain(rs)
    ensures '<' !in Body(rs) && (rs != [] ==> |Body(rs)| > 0 && Body(rs)[|Body(rs)| - 1] == '>')
  {
    if rs != [] {
      BodyPlain(rs[1..]);
    }
  }

  lemma {:induction false} BodyAppend(rs: seq<string>, r: string)
    ensures Body(rs + [r]) == Body(rs) + r + ">"
  {
    if rs == [] {
      assert rs + [r] == [r] && [r][1..] == [];
      assert Body([r]) == r + ">" + Body([]);
    } else {
      assert (rs + [r])[1..] == rs[1..] + [r];
      BodyAppend(rs[1..], r);
    }
  }

  function Marks(s: string): nat { if s == [] then 0 else Marks(s[..|s| - 1]) + if s[|s| - 1] == '>' then 1 else 0 }

  lemma {:induction false} MarksAppend(a: string, b: string)
    ensures Marks(a + b) == Marks(a) + Marks(b)
  {
    if b == [] {
      assert a + b == a;
    } else {
      assert (a + b)[..|a + b| - 1] == a + b[..|b| - 1];
      MarksAppend(a, b[..|b| - 1]);
    }
  }

  lemma {:induction false} NoMarks(s: string)
    requires '>' !in s
    ensures Marks(s) == 0
  {
    if s != [] {
      NoMarks(s[..|s| - 1]);
    }
  }

  lemma {:induction false} BodyMarks(rs: seq<string>)
    requires AllPlain(rs)
    ensures Marks(Body(rs)) == |rs|
  {
    if rs != [] {
      NoMarks(rs[0]);
      MarksAppend(rs[0], ">");
      MarksAppend(rs[0] + ">", Body(rs[1..]));
      assert Marks(">") == Marks("") + 1;
      BodyMarks(rs[1..]);
    }
  }

  /** The end mark is where it should be and nowhere before. */
  lemma EndMark(h: string, pad: nat, rs: seq<string>, t: string)
    requires HeaderOk(h) && AllPlain(rs) && t == Text(h, pad, rs)
    ensures |t| == pad + 17 + |Body(rs)| && t[|t| - 1] == '<' && t[|t| - 2] == '>'
    ensures forall i :: 0 <= i < |t| - 1 ==> t[i] != '<'
  {
    BodyPlain(rs);
  }

  /** The header's mark is the first '>'. */
  lemma FirstMark(h: string, pad: nat, rs: seq<string>, t: string)
    requires HeaderOk(h) && t == Text(h, pad, rs)
    ensures |t| > pad + 15 && t[pad + 15] == '>' && forall i :: 0 <= i < pad + 15 ==> t[i] != '>'
  {
    forall i | 0 <= i < pad + 15
      ensures t[i] != '>'
    {
      if i >= pad {
        assert t[i] == h[i - pad] == h[..15][i - pad];
      }
    }
  }

  lemma CountMarks(h: string, pad: nat, rs: seq<string>)
    requires HeaderOk(h) && AllPlain(rs)
    ensures Marks(Spaces(pad) + h + Body(rs)) == 1 + |rs|
  {
    MarksAppend(Spaces(pad) + h, Body(rs));
    MarksAppend(Spaces(pad), h);
    NoMarks(Spaces(pad));
    NoMarks(h[..15]);
    BodyMarks(rs);
  }

  // ----- the operations -----

  /** What appending a request does to the text: the end mark gives way. */
  lemma TextAppend(h: string, pad: nat, rs: seq<string>, r: string)
    ensures Text(h, pad, rs + [r]) == Text(h, pad, rs)[..|Text(h, pad, rs)| - 1] + r + ">" + "<"
  {
    BodyAppend(rs, r);
    var t := Text(h, pad, rs);
    assert t[..|t| - 1] == Spaces(pad) + h + Body(rs);
  }

  /** The text around the oldest request. */
  lemma TextSplit(h: string, pad: nat, rs: seq<string>)
    requires rs != []
    ensures Text(h, pad, rs) == (Spaces(pad) + h) + rs[0] + ">" + (Body(rs[1..]) + "<")
  {
  }

  /** A memory holding a queue: the text with room after it, and a NUL as the very last character. */
  predicate Shape(h: string, m: string, pad: nat, rs: seq<string>, total: nat) {
    && HeaderOk(h) && AllPlain(rs) && Queue(h, m, pad, rs) && pad + |Body(rs)| == total
    && |Text(h, pad, rs)| < |m| && m[|m| - 1] == '\0'
  }

  /** A request and the two marks after it, stored at position `at`. */
  function Stored(m: string, at: nat, r: string): (n: string)
    requires at + |r| + 2 <= |m|
    ensures |n| == |m|
  {
    m[..at] + r + ">" + "<" + m[at + |r| + 2..]
  }

  /** Memory `m` after a request has been stored over the end mark. */
  lemma Added(h: string, m: string, pad: nat, rs: seq<string>, total: nat, r: string)
    requires Shape(h, m, pad, rs, total) && Plain(r) && 18 + total + |r| < |m|
    ensures |Text(h, pad, rs)| == 17 + total
    ensures Shape(h, Stored(m, 16 + total, r), pad, rs + [r], total + |r| + 1)
  {
    var t := Text(h, pad, rs);
    TextAppend(h, pad, rs, r);
    BodyAppend(rs, r);
    assert t[..|t| - 1] == m[..|t| - 1];
  }

  /**
   The room a request needs: whatever was dequeued since, storing it stays inside the memory
   and leaves a queue there with its final NUL, if and only if all requests ever added leave room for it.
   */
  lemma RoomIff(h: string, m: string, pad: nat, rs: seq<string>, total: nat, r: string)
    requires Shape(h, m, pad, rs, total) && Plain(r)
    ensures |Text(h, pad, rs)| == 17 + total
    ensures 18 + total + |r| < |m| <==>
      18 + total + |r| <= |m| && Stored(m, 16 + total, r)[|m| - 1] == '\0'
    ensures 18 + total + |r| < |m| <==>
      18 + total + |r| <= |m| && Shape(h, Stored(m, 16 + total, r), pad, rs + [r], total + |r| + 1)
  {
    if 18 + total + |r| < |m| {
      Added(h, m, pad, rs, total, r);
    }
  }

  /** What follows a position inside the text. */
  lemma Behind(m: string, t: string, s: nat, rest: string)
    requires t <= m && s <= |t| && t[s..] == rest
    ensures m[s..] == rest + m[|t|..]
  {
    assert m == t + m[|t|..];
  }

  /** The text after the oldest request has left. */
  lemma TextRest(h: string, pad: nat, rs: seq<string>)
    requires rs != [] && |h| == 16
    ensures var s, rest := pad + 17 + |rs[0]|, Body(rs[1..]) + "<";
      && s <= |Text(h, pad, rs)| && Text(h, pad, rs)[s..] == rest
      && Text(h, pad + |rs[0]| + 1, rs[1..]) == (Spaces(pad + |rs[0]| + 1) + h) + rest
  {
    TextSplit(h, pad, rs);
  }

  /** Memory with the header written so as to end before position `s`, and spaces before it. */
  function HeaderTo(h: string, m: string, s: nat): (n: string)
    requires |h| == 16 <= s <= |m|
    ensures |n| == |m|
  {
    (Spaces(s - 16) + h) + m[s..]
  }

  /** Memory `m` after the header has been moved up to the end of the oldest request. */
  lemma Dequeued(h: string, m: string, pad: nat, rs: seq<string>, total: nat)
    requires rs != [] && Shape(h, m, pad, rs, total)
    ensures pad + 17 + |rs[0]| <= |m|
    ensures Shape(h, HeaderTo(h, m, pad + 17 + |rs[0]|), pad + |rs[0]| + 1, rs[1..], total)
  {
    var s, t := pad + 17 + |rs[0]|, Text(h, pad, rs);
    TextRest(h, pad, rs);
    Behind(m, t, s, Body(rs[1..]) + "<");
    var n := HeaderTo(h, m, s);
    assert n == Text(h, pad + |rs[0]| + 1, rs[1..]) + m[|t|..];
    assert n[|n| - 1] == m[|m| - 1];
  }

  // ----- runs of both programs -----

  /** The memory, with the queue in it. */
  datatype Mem = Mem(m: string, pad: nat, rs: seq<string>, total: nat)

  predicate Sound(h: string, q: Mem) { Shape(h, q.m, q.pad, q.rs, q.total) }

  datatype Op = Add(r: string) | Take

  predicate Fits(q: Mem, r: string) { 18 + q.total + |r| < |q.m| }

  predicate Can(q: Mem, op: Op) {
    match op
    case Add(r) => Plain(r) && Fits(q, r)
    case Take => q.rs != []
  }

  function Do(h: string, q: Mem, op: Op): Mem
    requires Sound(h, q) && Can(q, op)
  {
    match op
    case Add(r) => Mem(Stored(q.m, 16 + q.total, r), q.pad, q.rs + [r], q.total + |r| + 1)
    case Take =>
      Dequeued(h, q.m, q.pad, q.rs, q.total);
      Mem(HeaderTo(h, q.m, q.pad + 17 + |q.rs[0]|), q.pad + |q.rs[0]| + 1, q.rs[1..], q.total)
  }

  lemma AddKeeps(h: string, q: Mem, r: string, t: Mem)
    requires Sound(h, q) && Plain(r) && 18 + q.total + |r| <= |q.m|
    requires t == Mem(Stored(q.m, 16 + q.total, r), q.pad, q.rs + [r], q.total + |r| + 1)
    ensures Sound(h, t) <==> Fits(q, r)
    ensures Fits(q, r) ==> t == Do(h, q, Add(r))
  {
    RoomIff(h, q.m, q.pad, q.rs, q.total, r);
  }

  lemma TakeKeeps(h: string, q: Mem, s: nat, t: Mem)
    requires Sound(h, q) && q.rs != [] && s == q.pad + 17 + |q.rs[0]| <= |q.m|
    requires t == Mem(HeaderTo(h, q.m, s), q.pad + |q.rs[0]| + 1, q.rs[1..], q.total)
    ensures Sound(h, t) && t == Do(h, q, Take)
  {
    Dequeued(h, q.m, q.pad, q.rs, q.total);
  }

  lemma DoKeeps(h: string, q: Mem, op: Op)
    requires Sound(h, q) && Can(q, op)
    ensures Sound(h, Do(h, q, op)) && |Do(h, q, op).m| == |q.m|
  {
    match op
    case Add(r) => AddKeeps(h, q, r, Do(h, q, op));
    case Take => Dequeued(h, q.m, q.pad, q.rs, q.total);
  }

  ghost predicate Runs(h: string, q: Mem, run: seq<Op>, t: Mem)
    requires Sound(h, q)
    decreases |run|
  {
    if run == [] then q == t
    else Can(q, run[0]) && (DoKeeps(h, q, run[0]); Runs(h, Do(h, q, run[0]), run[1..], t))
  }

  function Adds(run: seq<Op>): seq<string> {
    if run == [] then [] else (if run[0].Add? then [run[0].r] else []) + Adds(run[1..])
  }

  function Takes(run: seq<Op>): nat { if run == [] then 0 else (if run[0].Take? then 1 else 0) + Takes(run[1..]) }

  lemma AddFirst(rs: seq<string>, r: string, adds: seq<string>)
    ensures rs + ([r] + adds) == (rs + [r]) + adds && |Body([r] + adds)| == |r| + 1 + |Body(adds)|
  {
    assert ([r] + adds)[1..] == adds;
  }

  lemma TakeFirst(rs: seq<string>, adds: seq<string>, k: nat)
    requires rs != [] && k <= |rs[1..] + adds|
    ensures 1 + k <= |rs + adds| && (rs + adds)[1 + k..] == (rs[1..] + adds)[k..]
  {
    assert rs + adds == [rs[0]] + (rs[1..] + adds);
  }

  lemma {:induction false} RunsSound(h: string, q: Mem, run: seq<Op>, t: Mem)
    requires Sound(h, q) && Runs(h, q, run, t)
    ensures Sound(h, t) && |t.m| == |q.m|
    decreases |run|
  {
    if run != [] {
      DoKeeps(h, q, run[0]);
      RunsSound(h, Do(h, q, run[0]), run[1..], t);
    }
  }

  /** First in, first out, over every run; and no run gives room back. */
  lemma {:induction false} FifoAlways(h: string, q: Mem, run: seq<Op>, t: Mem)
    requires Sound(h, q) && Runs(h, q, run, t)
    ensures Sound(h, t) && |t.m| == |q.m| && t.total == q.total + |Body(Adds(run))|
    ensures Takes(run) <= |q.rs + Adds(run)| && t.rs == (q.rs + Adds(run))[Takes(run)..]
    decreases |run|
  {
    RunsSound(h, q, run, t);
    if run == [] {
      assert q.rs + Adds(run) == q.rs;
    } else {
      var adds := Adds(run[1..]);
      DoKeeps(h, q, run[0]);
      FifoAlways(h, Do(h, q, run[0]), run[1..], t);
      match run[0]
      case Add(r) => AddFirst(q.rs, r, adds);
      case Take =>
        assert Adds(run) == adds;
        TakeFirst(q.rs, adds, Takes(run[1..]));
    }
  }

  /**
   Memory in front of the header is never used again: sending one request over and over, each
   taken at once, ends with an EMPTY queue in which that request has no room any more.
   */
  lemma {:induction false} Starves(h: string, q: Mem, r: string) returns (run: seq<Op>, t: Mem)
    requires Sound(h, q) && Plain(r)
    ensures Runs(h, q, run, t) && Sound(h, t) && t.rs == [] && !Fits(t, r)
    decreases |q.m| - q.total, |q.rs|
  {
    if q.rs == [] && !Fits(q, r) {
      run, t := [], q;
    } else {
      var op := if q.rs != [] then Take else Add(r);
      DoKeeps(h, q, op);
      var rest;
      rest, t := Starves(h, Do(h, q, op), r);
      run := [op] + rest;
      assert run[1..] == rest;
    }
  }

  class SharedQueue {
    const shm: array<char>
    const header: string
    ghost var pad: nat
    ghost var reqs: seq<string>
    ghost var total: nat      // characters of all requests ever added, each with its end mark

    ghost predicate Valid()
      reads this, shm
    {
      Sound(header, Now())
    }

    ghost function Now(): Mem
      reads this, shm
    {
      Mem(shm[..], pad, reqs, total)
    }

    /** `init_shm`. */
    constructor (size: nat)
      requires size > 17
      ensures Valid() && fresh(shm) && shm.Length == size && reqs == [] && total == 0 && header == HEADER
    {
      shm, header := new char[size], HEADER;
      pad, reqs, total := 0, [], 0;
      new;
      HeaderIsOk();
      Copy(0, HEADER);
      shm[16] := '<';
      shm[size - 1] := '\0';
      assert shm[..17] == Text(header, 0, []);
    }

    /** `memcpy` of `x` to position `at`. */
    method Copy(at: nat, x: string)
      requires at + |x| <= shm.Length
      modifies shm
      ensures shm[..] == old(shm[..at]) + x + old(shm[at + |x|..])
    {
      for i := 0 to |x|
        invariant shm[..at] == old(shm[..at]) && shm[at..at + i] == x[..i] && shm[at + i..] == old(shm[at + i..])
      {
        shm[at + i] := x[i];
      }
      assert shm[..] == shm[..at] + shm[at..at + |x|] + shm[at + |x|..];
    }

    /** The scan for the end mark, which it finds exactly at the end of the text. */
    method FindEnd() returns (s: nat)
      requires Valid()
      ensures s == |Text(header, pad, reqs)| - 1
    {
      ghost var t := Text(header, pad, reqs);
      EndMark(header, pad, reqs, t);
      s := 0;
      while shm[s] != '<'
        invariant s <= |t| - 1 < shm.Length && t <= shm[..]
        decreases shm.Length - s
      {
        assert t[s] == shm[..][s];
        s := s + 1;
        assert t[|t| - 1] == shm[..][|t| - 1];
      }
      assert t[s] == shm[..][s];
    }

    /**
     `AddReq`: the request goes to the end of the queue.  Its stores have to stay inside the
     memory; a queue with its final NUL is left exactly if one more character is free.
     */
    method AddReq(str: string)
      requires Valid() && Plain(str) && 18 + total + |str| <= shm.Length
      modifies this, shm
      ensures shm[..] == Stored(old(shm[..]), 16 + old(total), str)
      ensures pad == old(pad) && reqs == old(reqs) + [str] && total == old(total) + |str| + 1
      ensures Valid() <==> 18 + old(total) + |str| < shm.Length
      ensures Valid() ==> Now() == Do(header, old(Now()), Add(str))
    {
      ghost var q := Now();
      var s := FindRoom();
      Append(s, str);
      reqs, total := reqs + [str], total + |str| + 1;
      AddKeeps(header, q, str, Now());
    }

    /** Forward to the end mark and back to the mark before it: the next request goes behind that. */
    method FindRoom() returns (s: nat)
      requires Valid()
      ensures s == 16 + total
    {
      ghost var t := Text(header, pad, reqs);
      EndMark(header, pad, reqs, t);
      s := FindEnd();
      assert t[s - 1] == shm[..][s - 1] && t[s] == shm[..][s];
      while shm[s] != '>'
        invariant |t| - 2 <= s <= |t| - 1
        invariant s == |t| - 2 ==> shm[s] == '>'
      {
        s := s - 1;
      }
      s := s + 1;
    }

    method Append(at: nat, str: string)
      requires at + |str| + 2 <= shm.Length
      modifies shm
      ensures shm[..] == Stored(old(shm[..]), at, str)
    {
      var s := at;
      Copy(s, str + "\0");
      s := s + |str|;
      shm[s] := '>';
      s := s + 1;
      shm[s] := '<';
    }

    /** `charcount` of '>': more than one exactly if a request is waiting. */
    method CharCount() returns (i: nat)
      requires Valid()
      ensures i == 1 + |reqs| && (i > 1 <==> reqs != [])
    {
      ghost var t := Text(header, pad, reqs);
      EndMark(header, pad, reqs, t);
      i := 0;
      var s := 0;
      while shm[s] != '<'
        invariant s <= |t| - 1 < shm.Length && i == Marks(t[..s]) && t <= shm[..]
        decreases shm.Length - s
      {
        assert t[s] == shm[..][s];
        assert t[..s + 1][..s] == t[..s];
        if shm[s] == '>' {
          i := i + 1;
        }
        s := s + 1;
        assert t[|t| - 1] == shm[..][|t| - 1];
      }
      assert t[s] == shm[..][s];
      assert t[..s] == Spaces(pad) + header + Body(reqs);
      CountMarks(header, pad, reqs);
    }

    /** The first half of `dequeueItem`: the oldest request, and the position of its end mark. */
    method ReadOldest() returns (str: string, s: nat)
      requires Valid() && reqs != []
      ensures str == reqs[0] && s == pad + 16 + |reqs[0]| && s + 1 < |Text(header, pad, reqs)|
    {
      ghost var t := Text(header, pad, reqs);
      FirstMark(header, pad, reqs, t);
      TextSplit(header, pad, reqs);
      s := 0;
      while shm[s] != '>'
        invariant s <= pad + 15 < |t| < shm.Length && t <= shm[..]
        decreases shm.Length - s
      {
        assert t[s] == shm[..][s];
        s := s + 1;
        assert t[pad + 15] == shm[..][pad + 15];
      }
      assert t[s] == shm[..][s];
      s := s + 1;
      str := "";
      while shm[s] != '>'
        invariant pad + 16 <= s <= pad + 16 + |reqs[0]| < |t| < shm.Length && t <= shm[..]
        invariant str == reqs[0][..s - pad - 16]
        decreases shm.Length - s
      {
        assert t[s] == shm[..][s];
        str := str + [shm[s]];
        s := s + 1;
      }
      assert t[s] == shm[..][s];
    }

    /** The second half: the header is written so as to end at `last`, and spaces before it. */
    method MoveHeader(last: nat)
      requires 15 <= last < shm.Length && HeaderOk(header)
      modifies shm
      ensures shm[..] == HeaderTo(header, old(shm[..]), last + 1)
    {
      ghost var m := shm[..];
      var s: int, r := last, |header|;
      while s != -1
        invariant -1 <= s <= last && r == if last - s < 16 then 16 - (last - s) else 0
        invariant forall i :: s < i <= last ==> shm[i] == if i < last - 15 then ' ' else header[i - (last - 15)]
        invariant forall i :: last < i < shm.Length ==> shm[i] == m[i]
        decreases s + 1
      {
        if r > 0 {
          shm[s] := header[r - 1];
          r := r - 1;
        } else {
          shm[s] := ' ';
        }
        s := s - 1;
      }
      assert shm[..last + 1] == Spaces(last - 15) + header;
      assert shm[last + 1..] == m[last + 1..];
      assert shm[..] == shm[..last + 1] + shm[last + 1..];
    }

    /** `dequeueItem`: the oldest request leaves the queue. */
    method DequeueItem() returns (str: string)
      requires Valid() && reqs != []
      modifies this, shm
      ensures Valid() && str == old(reqs)[0] && reqs == old(reqs)[1..] && total == old(total)
      ensures Now() == Do(header, old(Now()), Take)
    {
      ghost var q := Now();
      var s;
      str, s := ReadOldest();
      MoveHeader(s);
      pad, reqs := pad + |reqs[0]| + 1, reqs[1..];
      TakeKeeps(header, q, s + 1, Now());
    }
  }
}
