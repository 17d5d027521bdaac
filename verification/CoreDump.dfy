/**
 Writing the core file (`fs/coredump.c`, `fs/binfmt_elf.c`): offsets are computed in a first
 pass, and bytes are written in a second.  The file may be short of what was asked for at any
 point: writes may be cut short, refused by the limit, or interrupted.
 */
module CoreDump {
  import opened Wrappers
  import opened Sequences
  import opened ElfFormat
  import opened CoreFile
  import opened CoreLog

  /** Going from `before` to `after` wrote `x`, or a part of it when it failed. */
  predicate Wrote(before: seq<Byte>, after: seq<Byte>, x: seq<Byte>, ok: bool) {
    before <= after <= before + x && (ok ==> after == before + x)
  }

  lemma WroteBoth(f: seq<Byte>, g: seq<Byte>, h: seq<Byte>, x: seq<Byte>, y: seq<Byte>, ok: bool)
    requires Wrote(f, g, x, true) && Wrote(g, h, y, ok)
    ensures Wrote(f, h, x + y, ok)
  {
    assert f + (x + y) == (f + x) + y;
  }

  lemma WroteFirst(f: seq<Byte>, g: seq<Byte>, x: seq<Byte>, y: seq<Byte>)
    requires Wrote(f, g, x, false)
    ensures Wrote(f, g, x + y, false)
  {
    assert f + (x + y) == (f + x) + y;
  }

  lemma ZeroesAdd(a: nat, b: nat)
    ensures Zeroes(a) + Zeroes(b) == Zeroes(a + b)
  {
  }

  /** `k` more of the `left` zeroes still to come. */
  lemma SkipMore(f0: seq<Byte>, f: seq<Byte>, g: seq<Byte>, nr: nat, left: nat, k: nat, ok: bool)
    requires k <= left <= nr && f == f0 + Zeroes(nr - left) && Wrote(f, g, Zeroes(k), ok)
    ensures if ok then g == f0 + Zeroes(nr - (left - k)) else Wrote(f0, g, Zeroes(nr), false)
  {
    ZeroesAdd(nr - left, k);
    WroteBoth(f0, f, g, Zeroes(nr - left), Zeroes(k), ok);
    ZeroesAdd(nr - (left - k), left - k);
    if !ok {
      WroteFirst(f0, g, Zeroes(nr - (left - k)), Zeroes(left - k));
    }
  }

  // ----- notes of the process and of its other threads -----

  function Flat(threads: seq<seq<Note>>): seq<Note> { if threads == [] then [] else threads[0] + Flat(threads[1..]) }

  lemma {:induction false} SizeAppend(a: seq<Note>, b: seq<Note>)
    ensures NotesSize(a + b) == NotesSize(a) + NotesSize(b)
  {
    if a == [] {
      assert a + b == b;
    } else {
      assert (a + b)[1..] == a[1..] + b;
      SizeAppend(a[1..], b);
    }
  }

  lemma {:induction false} FlatSnoc(threads: seq<seq<Note>>, t: seq<Note>)
    ensures Flat(threads + [t]) == Flat(threads) + t
  {
    if threads == [] {
      assert [t][1..] == [];
      assert Flat([t]) == t + Flat([]);
    } else {
      assert (threads + [t])[1..] == threads[1..] + [t];
      FlatSnoc(threads[1..], t);
    }
  }

  /** The notes of the threads follow each other in the order of the threads. */
  lemma {:induction false} FlatAt(threads: seq<seq<Note>>, i: nat, j: nat)
    requires i < |threads| && j < |threads[i]|
    ensures |Flat(threads[..i])| + j < |Flat(threads)| && Flat(threads)[|Flat(threads[..i])| + j] == threads[i][j]
    decreases i
  {
    if i > 0 {
      FlatAt(threads[1..], i - 1, j);
      assert threads[..i][1..] == threads[1..][..i - 1];
    }
  }

  method SizeOf(ns: seq<Note>) returns (sz: nat)
    ensures sz == NotesSize(ns)
  {
    sz := 0;
    for i := 0 to |ns|
      invariant sz == NotesSize(ns[..i])
    {
      assert ns[..i + 1] == ns[..i] + [ns[i]] && [ns[i]][1..] == [];
      SizeAppend(ns[..i], [ns[i]]);
      assert NotesSize([ns[i]]) == NoteSize(ns[i]) + NotesSize([]);
      sz := sz + NoteSize(ns[i]);
    }
    assert ns[..|ns|] == ns;
  }

  /** `get_note_info_size`, with the thread sizes `fill_note_info` has added up. */
  method NoteInfoSize(own: seq<Note>, threads: seq<seq<Note>>) returns (sz: nat)
    ensures sz == NotesSize(own + Flat(threads))
  {
    var status := 0;
    for i := 0 to |threads|
      invariant status == NotesSize(Flat(threads[..i]))
    {
      var t := SizeOf(threads[i]);
      assert threads[..i + 1] == threads[..i] + [threads[i]];
      FlatSnoc(threads[..i], threads[i]);
      SizeAppend(Flat(threads[..i]), threads[i]);
      status := status + t;
    }
    assert threads[..|threads|] == threads;
    sz := SizeOf(own);
    SizeAppend(own, Flat(threads));
    sz := sz + status;
  }

  // ----- walking the mappings -----

  datatype Cursor = At(i: nat) | Gate | End

  /** `first_vma`. */
  function FirstVma(p: Process): Cursor { if p.mmap != [] then At(0) else if p.gate.Some? then Gate else End }

  /** `next_vma`. */
  function NextVma(p: Process, c: Cursor): Cursor
    requires c != End
  {
    if c.At? && c.i + 1 < |p.mmap| then At(c.i + 1)
    else if c == Gate then End
    else if p.gate.Some? then Gate else End
  }

  function Place(p: Process, k: nat): Cursor {
    if k < |p.mmap| then At(k) else if k == |p.mmap| && p.gate.Some? then Gate else End
  }

  /** The walk visits every mapping, and the gate mapping last. */
  lemma WalkVisits(p: Process, k: nat)
    ensures FirstVma(p) == Place(p, 0)
    ensures Place(p, k) != End <==> k < |Visited(p)|
    ensures k < |Visited(p)| ==> NextVma(p, Place(p, k)) == Place(p, k + 1)
  {
  }

  function VmaAt(p: Process, c: Cursor): Vma
    requires (c.At? && c.i < |p.mmap|) || (c == Gate && p.gate.Some?)
  {
    if c.At? then p.mmap[c.i] else p.gate.value
  }

  /** The first pass: what will be dumped of every mapping. */
  method Measure(p: Process) returns (sizes: array<nat>, total: nat)
    ensures fresh(sizes) && sizes.Length == |Visited(p)| && total == TotalSize(Visited(p))
    ensures forall k :: 0 <= k < sizes.Length ==> sizes[k] == FileSize(Visited(p)[k])
  {
    ghost var vs := Visited(p);
    sizes, total := new nat[|p.mmap| + if p.gate.Some? then 1 else 0], 0;
    var i, c := 0, FirstVma(p);
    while c != End
      invariant i <= |vs| == sizes.Length && c == Place(p, i) && total == TotalSize(vs[..i])
      invariant c != End ==> i < |vs|
      invariant forall k :: 0 <= k < i ==> sizes[k] == FileSize(vs[k])
      decreases |vs| - i
    {
      WalkVisits(p, i);
      var size := FileSize(VmaAt(p, c));
      TotalUpTo(FileSize, vs, i);
      sizes[i] := size;
      total := total + size;
      c := NextVma(p, c);
      i := i + 1;
      WalkVisits(p, i);
    }
    WalkVisits(p, i);
    assert vs[..i] == vs;
  }

  /** The limit, what the `i`-th write of `c` bytes returns, and whether dumping is interrupted or a seek works then. */
  datatype World = World(limit: nat, kwrite: (nat, nat) -> int, stopped: nat -> bool, seek: nat -> bool)

  /** A write never returns more than it was asked for. */
  ghost predicate WorldOk(w: World) { forall i, c {:trigger w.kwrite(i, c)} :: w.kwrite(i, c) <= c }

  /** Nothing fails, although writes may be short. */
  ghost predicate Calm(w: World) {
    (forall i :: !w.stopped(i)) && (forall i :: w.seek(i)) && forall i, c :: c > 0 ==> w.kwrite(i, c) > 0
  }

  /** What a file should hold, and how it was written. */
  datatype Trail = Trail(meant: seq<Byte>, rounds: seq<Round>)

  /**
   From `t0` to `t` the bytes `x` were due and written, or a part of them when that failed; and it
   fails only for the limit or the environment.
   */
  ghost predicate Went(w: World, t0: Trail, t: Trail, x: seq<Byte>, ok: bool) {
    && t0.rounds <= t.rounds && Wrote(t0.meant, t.meant, x, ok)
    && (Calm(w) && |t0.meant| + |x| <= w.limit ==> ok)
  }

  lemma WentNowhere(w: World, t: Trail)
    ensures Went(w, t, t, [], true)
  {
  }

  lemma WentBoth(w: World, t0: Trail, t1: Trail, t2: Trail, x: seq<Byte>, y: seq<Byte>, ok: bool)
    requires Went(w, t0, t1, x, true) && Went(w, t1, t2, y, ok)
    ensures Went(w, t0, t2, x + y, ok)
  {
    WroteBoth(t0.meant, t1.meant, t2.meant, x, y, ok);
  }

  lemma WentFirst(w: World, t0: Trail, t: Trail, x: seq<Byte>, y: seq<Byte>)
    requires Went(w, t0, t, x, false)
    ensures Went(w, t0, t, x + y, false)
  {
    WroteFirst(t0.meant, t.meant, x, y);
  }

  /** One part more of `whole` after `done`, or a piece of it. */
  lemma Extend(w: World, t0: Trail, t1: Trail, t2: Trail, done: seq<Byte>, x: seq<Byte>, more: seq<Byte>,
               rest: seq<Byte>, whole: seq<Byte>, ok: bool)
    requires Went(w, t0, t1, done, true) && Went(w, t1, t2, x, ok) && more == done + x && whole == more + rest
    ensures if ok then Went(w, t0, t2, more, true) else Went(w, t0, t2, whole, false)
  {
    WentBoth(w, t0, t1, t2, done, x, ok);
    if !ok {
      WentFirst(w, t0, t2, more, rest);
    }
  }

  /** The same for the parts of a concatenation. */
  lemma ExtendConcat<T>(w: World, t0: Trail, t1: Trail, t2: Trail, enc: T -> seq<Byte>, xs: seq<T>, i: nat, ok: bool)
    requires i < |xs| && Went(w, t0, t1, Concat(enc, xs[..i]), true) && Went(w, t1, t2, enc(xs[i]), ok)
    ensures if ok then Went(w, t0, t2, Concat(enc, xs[..i + 1]), true) else Went(w, t0, t2, Concat(enc, xs), false)
  {
    ConcatUpTo(enc, xs, i);
    ConcatSplit(enc, xs, i + 1);
    Extend(w, t0, t1, t2, Concat(enc, xs[..i]), enc(xs[i]), Concat(enc, xs[..i + 1]), Concat(enc, xs[i + 1..]),
      Concat(enc, xs), ok);
  }

  /** The same for encodings that depend on what comes before. */
  lemma ExtendRunning<T>(w: World, t0: Trail, t1: Trail, t2: Trail,
                         enc: (T, nat) -> seq<Byte>, size: T -> nat, xs: seq<T>,
                         i: nat, at: nat, ok: bool)
    requires i < |xs| && Went(w, t0, t1, Running(enc, size, xs[..i], at), true)
    requires Went(w, t1, t2, enc(xs[i], at + Total(size, xs[..i])), ok)
    ensures if ok then Went(w, t0, t2, Running(enc, size, xs[..i + 1], at), true)
            else Went(w, t0, t2, Running(enc, size, xs, at), false)
  {
    RunningUpTo(enc, size, xs, i, at);
    RunningSplit(enc, size, xs, i + 1, at);
    Extend(w, t0, t1, t2, Running(enc, size, xs[..i], at), enc(xs[i], at + Total(size, xs[..i])),
           Running(enc, size, xs[..i + 1], at), Running(enc, size, xs[i + 1..], at + Total(size, xs[..i + 1])),
           Running(enc, size, xs, at), ok);
  }

  /** What a call of `dump_emit` amounts to. */
  lemma EmittedWent(w: World, data: seq<Byte>, ns: seq<nat>, f0: seq<Byte>, f: seq<Byte>, t0: Trail, t: Trail, ok: bool)
    requires Emitting(data, ns, f0, f, t0.meant, t.meant, t0.rounds, t.rounds) && (ok ==> Sum(ns) == |data|)
    requires Calm(w) && |t0.meant| + |data| <= w.limit ==> ok
    ensures Went(w, t0, t, data, ok)
  {
    assert data[..|data|] == data;
  }

  class Coredump {
    var file: seq<Byte>             // cprm->pos is its length; skipped ranges read as zeroes
    var written: nat
    var calls: nat                  // of the environment
    const seekable: bool
    const world: World
    ghost var meant: seq<Byte>      // what the file should hold, place by place
    ghost var rounds: seq<Round>    // all writes, and seeks as writes of zeroes

    ghost predicate Valid()
      reads this
    {
      WorldOk(world) && Recorded(file, meant, rounds) && |file| == |meant| && written <= |file|
    }

    ghost function Now(): Trail
      reads `meant, `rounds
    {
      Trail(meant, rounds)
    }

    constructor (seekable: bool, world: World)
      requires WorldOk(world)
      ensures Valid() && file == meant == [] && rounds == [] && written == calls == 0
      ensures this.seekable == seekable && this.world == world
    {
      file, written, calls := [], 0, 0;
      this.seekable, this.world := seekable, world;
      meant, rounds := [], [];
    }

    /** One `__kernel_write` of `nr` bytes from the start of `data`, when `at` of them count as written. */
    method Put(data: seq<Byte>, nr: nat, ghost at: nat) returns (n: int)
      requires Valid() && 0 < nr && at + nr == |data|
      modifies this
      ensures Valid() && n == world.kwrite(old(calls), nr) <= nr && calls == old(calls) + 1
      ensures n <= 0 ==> meant == old(meant) && rounds == old(rounds) && file == old(file) && written == old(written)
      ensures n > 0 ==> written == old(written) + n && file == old(file) + Piece(Round(data, at, n))
      ensures n > 0 ==> meant == old(meant) + Due(Round(data, at, n)) && rounds == old(rounds) + [Round(data, at, n)]
    {
      n := world.kwrite(calls, nr);
      calls := calls + 1;
      if n > 0 {
        ghost var r := Round(data, at, n);
        RecordedMore(file, meant, rounds, r);
        file := file + data[..n];
        written := written + n;
        meant, rounds := meant + Due(r), rounds + [r];
      }
    }

    /** `dump_emit`; `ns` are the counts its writes returned. */
    method Emit(data: seq<Byte>) returns (ok: bool, ghost ns: seq<nat>)
      requires Valid()
      modifies this
      ensures Valid() && Emitting(data, ns, old(file), file, old(meant), meant, old(rounds), rounds)
      ensures (ok ==> Sum(ns) == |data|) && Went(world, old(Now()), Now(), data, ok)
      ensures written - old(written) == |file| - |old(file)|
      ensures old(written) + |data| > world.limit ==> !ok && ns == []
      ensures forall i :: 0 <= i < |ns| ==> ns[i] > 0
      ensures ok && data != [] ==> ns != [] && ns[0] == world.kwrite(old(calls), |data|)
    {
      ns := [];
      EmittingNone(data, file, meant, rounds);
      if written + |data| > world.limit {
        EmittedWent(world, data, ns, old(file), file, old(Now()), Now(), false);
        return false, ns;
      }
      var nr := |data|;
      while nr > 0
        invariant 0 <= nr == |data| - Sum(ns) && Valid() && written - old(written) == |file| - |old(file)|
        invariant Emitting(data, ns, old(file), file, old(meant), meant, old(rounds), rounds)
        invariant forall i :: 0 <= i < |ns| ==> ns[i] > 0
        invariant if ns == [] then calls == old(calls) else ns[0] == world.kwrite(old(calls), |data|)
      {
        if world.stopped(calls) {
          EmittedWent(world, data, ns, old(file), file, old(Now()), Now(), false);
          return false, ns;
        }
        ghost var f, m, r := file, meant, rounds;
        var n := Put(data, nr, Sum(ns));
        if n <= 0 {
          EmittedWent(world, data, ns, old(file), file, old(Now()), Now(), false);
          return false, ns;
        }
        EmittingMore(data, ns, n, old(file), f, old(meant), m, old(rounds), r);
        ns := ns + [n];
        nr := nr - n;
      }
      EmittedWent(world, data, ns, old(file), file, old(Now()), Now(), true);
      ok := true;
    }

    /** `dump_emit` with the counts left out. */
    method Write(data: seq<Byte>) returns (ok: bool)
      requires Valid()
      modifies this
      ensures Valid() && Went(world, old(Now()), Now(), data, ok)
    {
      ghost var ns;
      ok, ns := Emit(data);
    }

    /** A seek over `nr` bytes. */
    method Seek(nr: nat) returns (ok: bool)
      requires Valid()
      modifies this
      ensures Valid() && Wrote(old(file), file, Zeroes(nr), ok) && Went(world, old(Now()), Now(), Zeroes(nr), ok)
    {
      ok := !world.stopped(calls) && world.seek(calls);
      calls := calls + 1;
      if ok {
        ghost var r := Round(Zeroes(nr), 0, nr);
        RecordedMore(file, meant, rounds, r);
        assert Piece(r) == Due(r) == Zeroes(nr);
        file := file + Zeroes(nr);
        meant, rounds := meant + Zeroes(nr), rounds + [r];
      }
    }

    /** A page of zeroes, or less: however short the writes, zeroes are zeroes. */
    method EmitZeroes(nr: nat) returns (ok: bool)
      requires Valid()
      modifies this
      ensures Valid() && Wrote(old(file), file, Zeroes(nr), ok) && Went(world, old(Now()), Now(), Zeroes(nr), ok)
    {
      ghost var ns;
      ok, ns := Emit(Zeroes(nr));
      ZeroRounds(nr, 0, ns);
      assert Zeroes(Sum(ns)) == Zeroes(nr)[..Sum(ns)];
    }

    /** `dump_skip`. */
    method Skip(nr: nat) returns (ok: bool)
      requires Valid()
      modifies this
      ensures Valid() && Wrote(old(file), file, Zeroes(nr), ok) && Went(world, old(Now()), Now(), Zeroes(nr), ok)
    {
      if seekable {
        ok := Seek(nr);
        return;
      }
      var left := nr;
      assert Zeroes(0) == [];
      while left > PAGE
        invariant 0 <= left <= nr && Valid() && old(rounds) <= rounds
        invariant file == old(file) + Zeroes(nr - left) && meant == old(meant) + Zeroes(nr - left)
      {
        ghost var f, m := file, meant;
        ok := EmitZeroes(PAGE);
        SkipMore(old(file), f, file, nr, left, PAGE, ok);
        SkipMore(old(meant), m, meant, nr, left, PAGE, ok);
        if !ok {
          return;
        }
        left := left - PAGE;
      }
      ghost var f, m := file, meant;
      ok := EmitZeroes(left);
      SkipMore(old(file), f, file, nr, left, left, ok);
      SkipMore(old(meant), m, meant, nr, left, left, ok);
    }

    /** `dump_align` to 4 bytes. */
    method Align() returns (ok: bool)
      requires Valid()
      modifies this
      ensures var gap := Zeroes(RoundUp4(|old(file)|) - |old(file)|);
        Valid() && Wrote(old(file), file, gap, ok) && Went(world, old(Now()), Now(), gap, ok)
    {
      var mod := |file| % 4;
      if mod == 0 {
        assert RoundUp4(|file|) == |file|;
        return true;
      }
      assert RoundUp4(|file|) == |file| + 4 - mod;
      ok := Skip(4 - mod);
    }

    /** `writenote`, at a position that is a multiple of 4. */
    method WriteNote(n: Note, ghost w: nat) returns (ok: bool)
      requires Valid() && |file| == 4 * w
      modifies this
      ensures Valid() && Went(world, old(Now()), Now(), NoteBytes(n), ok)
    {
      ghost var t0 := Now();
      var head, name := NoteHead(|n.name| + 1, |n.desc|, n.kind), n.name + [0];
      assert NoteBytes(n) == head + (Padded(name) + Padded(n.desc));
      assert NoteBytes(n) == (head + Padded(name)) + Padded(n.desc);
      ok := Write(head);
      if !ok {
        WentFirst(world, t0, Now(), head, Padded(name) + Padded(n.desc));
        return;
      }
      ok := WriteField(name, w + 3, t0, head);
      if !ok {
        WentFirst(world, t0, Now(), head + Padded(name), Padded(n.desc));
        return;
      }
      ok := WriteField(n.desc, w + 3 + Words(|name|), t0, head + Padded(name));
    }

    /** `dump_align` after a field of `n` bytes that started at a multiple of 4. */
    method PadField(n: nat, ghost w: nat) returns (ok: bool)
      requires Valid() && |file| == 4 * w + n
      modifies this
      ensures Valid() && Went(world, old(Now()), Now(), Zeroes(RoundUp4(n) - n), ok)
    {
      assert RoundUp4(|file|) == 4 * w + RoundUp4(n);
      ok := Align();
    }

    /** One field of a note and the padding after it; `done` has been written since `t0`. */
    method WriteField(data: seq<Byte>, ghost w: nat, ghost t0: Trail, ghost done: seq<Byte>) returns (ok: bool)
      requires Valid() && |file| == 4 * w && Went(world, t0, Now(), done, true)
      modifies this
      ensures Valid() && Went(world, t0, Now(), done + Padded(data), ok)
    {
      ghost var t, pad := Now(), Zeroes(RoundUp4(|data|) - |data|);
      ok := Write(data);
      if !ok {
        WentFirst(world, t, Now(), data, pad);
      } else {
        ghost var u := Now();
        ok := PadField(|data|, w);
        WentBoth(world, t, u, Now(), data, pad, ok);
      }
      WentBoth(world, t0, t, Now(), done, data + pad, ok);
    }

    method WriteNotes(ns: seq<Note>, ghost w: nat) returns (ok: bool)
      requires Valid() && |file| == 4 * w
      modifies this
      ensures Valid() && Went(world, old(Now()), Now(), NotesBytes(ns), ok)
    {
      ghost var t0 := Now();
      WentNowhere(world, t0);
      for i := 0 to |ns|
        invariant Valid() && Went(world, t0, Now(), NotesBytes(ns[..i]), true)
      {
        NotesLength(ns[..i]);
        ghost var t := Now();
        ok := WriteNote(ns[i], w + NotesWords(ns[..i]));
        ExtendConcat(world, t0, t, Now(), NoteBytes, ns, i, ok);
        if !ok {
          return;
        }
      }
      assert ns[..|ns|] == ns;
      ok := true;
    }

    /** `write_note_info`. */
    method WriteNoteInfo(own: seq<Note>, threads: seq<seq<Note>>, ghost w: nat) returns (ok: bool)
      requires Valid() && |file| == 4 * w
      modifies this
      ensures Valid() && Went(world, old(Now()), Now(), NotesBytes(own + Flat(threads)), ok)
    {
      ghost var t0 := Now();
      ConcatAppend(NoteBytes, own, Flat(threads));
      ok := WriteNotes(own, w);
      if !ok {
        WentFirst(world, t0, Now(), NotesBytes(own), NotesBytes(Flat(threads)));
        return;
      }
      ghost var t1 := Now();
      NotesLength(own);
      ok := WriteThreads(threads, w + NotesWords(own));
      WentBoth(world, t0, t1, Now(), NotesBytes(own), NotesBytes(Flat(threads)), ok);
    }

    /** The notes of the other threads. */
    method WriteThreads(threads: seq<seq<Note>>, ghost w: nat) returns (ok: bool)
      requires Valid() && |file| == 4 * w
      modifies this
      ensures Valid() && Went(world, old(Now()), Now(), NotesBytes(Flat(threads)), ok)
    {
      ghost var t0 := Now();
      WentNowhere(world, t0);
      for i := 0 to |threads|
        invariant Valid() && Went(world, t0, Now(), NotesBytes(Flat(threads[..i])), true)
      {
        ghost var t, done := Now(), Flat(threads[..i]);
        NotesLength(done);
        ok := WriteNotes(threads[i], w + NotesWords(done));
        ThreadsUpTo(threads, i);
        ThreadsSplit(threads, i + 1);
        Extend(world, t0, t, Now(), NotesBytes(done), NotesBytes(threads[i]), NotesBytes(Flat(threads[..i + 1])),
               NotesBytes(Flat(threads[i + 1..])), NotesBytes(Flat(threads)), ok);
        if !ok {
          return;
        }
      }
      assert threads[..|threads|] == threads;
      ok := true;
    }

    /** One program header, behind the ones before it. */
    method WriteLoad(v: Vma, size: nat, offset: nat, ghost vs: seq<Vma>, ghost dataoff: nat, ghost i: nat,
                     ghost t0: Trail)
      returns (ok: bool)
      requires i < |vs| && v == vs[i] && size == FileSize(v) && offset == dataoff + TotalSize(vs[..i])
      requires Valid() && Went(world, t0, Now(), LoadBytes(vs[..i], dataoff), true)
      modifies this
      ensures Valid() && offset + size == dataoff + TotalSize(vs[..i + 1])
      ensures if ok then Went(world, t0, Now(), LoadBytes(vs[..i + 1], dataoff), true)
              else Went(world, t0, Now(), LoadBytes(vs, dataoff), false)
    {
      ghost var t := Now();
      ok := Write(PhdrBytes(Phdr(PT_LOAD, v.flags, offset, v.start, 0, size, PAGE * |v.pages|, PAGE)));
      ExtendRunning(world, t0, t, Now(), LoadHeader, FileSize, vs, i, dataoff, ok);
      TotalUpTo(FileSize, vs, i);
    }

    /** The program headers of the mappings, their offsets counted on from `dataoff`. */
    method WriteLoads(p: Process, sizes: array<nat>, dataoff: nat) returns (ok: bool)
      requires sizes.Length == |Visited(p)| && forall k :: 0 <= k < sizes.Length ==> sizes[k] == FileSize(Visited(p)[k])
      requires Valid()
      modifies this
      ensures Valid() && Went(world, old(Now()), Now(), LoadBytes(Visited(p), dataoff), ok)
    {
      ghost var t0, vs := Now(), Visited(p);
      WentNowhere(world, t0);
      var i, c, offset := 0, FirstVma(p), dataoff;
      while c != End
        invariant i <= |vs| && c == Place(p, i) && offset == dataoff + TotalSize(vs[..i])
        invariant c != End ==> i < |vs|
        invariant Valid() && Went(world, t0, Now(), LoadBytes(vs[..i], dataoff), true)
        decreases |vs| - i
      {
        WalkVisits(p, i);
        ok := WriteLoad(VmaAt(p, c), sizes[i], offset, vs, dataoff, i, t0);
        if !ok {
          return;
        }
        offset := offset + sizes[i];
        c := NextVma(p, c);
        i := i + 1;
        WalkVisits(p, i);
      }
      WalkVisits(p, i);
      assert vs[..i] == vs;
      ok := true;
    }

    /** One page, or the place of one that is absent. */
    method WritePage(page: Option<seq<Byte>>) returns (ok: bool)
      requires Valid() && (page.Some? ==> |page.value| == PAGE)
      modifies this
      ensures Valid() && Went(world, old(Now()), Now(), PageBytes(page), ok)
    {
      if page.Some? {
        ok := Write(page.value);
      } else {
        ok := Skip(PAGE);
      }
    }

    /** The pages of one mapping up to `filesz` bytes; absent pages are skipped over. */
    method WritePages(v: Vma, filesz: nat) returns (ok: bool)
      requires Valid() && VmaOk(v) && filesz == FileSize(v)
      modifies this
      ensures Valid() && Went(world, old(Now()), Now(), Data(v), ok)
    {
      ghost var t0, n, dumped := Now(), DumpPages(v), v.pages[..DumpPages(v)];
      WentNowhere(world, t0);
      var addr, end, k := v.start, v.start + filesz, 0;
      while addr < end
        invariant k <= n && addr == v.start + PAGE * k
        invariant Valid() && Went(world, t0, Now(), PagesBytes(v.pages[..k]), true)
      {
        assert k < n;
        ghost var t := Now();
        ok := WritePage(v.pages[k]);
        assert dumped[..k] == v.pages[..k] && dumped[..k + 1] == v.pages[..k + 1];
        ExtendConcat(world, t0, t, Now(), PageBytes, dumped, k, ok);
        if !ok {
          return;
        }
        addr, k := addr + PAGE, k + 1;
      }
      ok := true;
    }

    /** The contents of one mapping, behind those before it. */
    method WriteVma(v: Vma, size: nat, ghost vs: seq<Vma>, ghost i: nat, ghost t0: Trail) returns (ok: bool)
      requires i < |vs| && v == vs[i] && size == FileSize(v) && AllOk(vs)
      requires Valid() && Went(world, t0, Now(), AllData(vs[..i]), true)
      modifies this
      ensures Valid()
      ensures if ok then Went(world, t0, Now(), AllData(vs[..i + 1]), true)
            else Went(world, t0, Now(), AllData(vs), false)
    {
      ghost var t := Now();
      EachOk(vs, i);
      ok := WritePages(v, size);
      ExtendConcat(world, t0, t, Now(), Data, vs, i, ok);
    }

    /** The contents of the mappings. */
    method WriteData(p: Process, sizes: array<nat>) returns (ok: bool)
      requires sizes.Length == |Visited(p)| && forall k :: 0 <= k < sizes.Length ==> sizes[k] == FileSize(Visited(p)[k])
      requires Valid() && AllOk(Visited(p))
      modifies this
      ensures Valid() && Went(world, old(Now()), Now(), AllData(Visited(p)), ok)
    {
      ghost var t0, vs := Now(), Visited(p);
      WentNowhere(world, t0);
      var i, c := 0, FirstVma(p);
      while c != End
        invariant i <= |vs| && c == Place(p, i)
        invariant c != End ==> i < |vs|
        invariant Valid() && Went(world, t0, Now(), AllData(vs[..i]), true)
        decreases |vs| - i
      {
        WalkVisits(p, i);
        ok := WriteVma(VmaAt(p, c), sizes[i], vs, i, t0);
        if !ok {
          return;
        }
        c := NextVma(p, c);
        i := i + 1;
        WalkVisits(p, i);
      }
      WalkVisits(p, i);
      assert vs[..i] == vs;
      ok := true;
    }
  }

  /** The second pass of `elf_core_dump`: the ELF header, whose writes open the log, ... */
  method WriteHeader(d: Coredump, elf: seq<Byte>) returns (ok: bool)
    requires d.Valid() && d.rounds == [] && elf != []
    modifies d
    ensures d.Valid() && Went(d.world, old(d.Now()), d.Now(), elf, ok)
    ensures ok ==> Begins(d.rounds, elf, d.world.kwrite(old(d.calls), |elf|))
  {
    ghost var ns;
    ok, ns := d.Emit(elf);
    if ok {
      assert d.rounds == Rounds(elf, 0, ns);
      BeginsSo(elf, ns);
    }
  }

  /** ... the program headers, ... */
  method WriteHeaders(d: Coredump, p: Process, elf: seq<Byte>, note: Phdr, dataoff: nat, sizes: array<nat>,
                      ghost whole: seq<Byte>)
    returns (ok: bool)
    requires d.Valid() && d.rounds == [] && elf != []
    requires whole == elf + (PhdrBytes(note) + LoadBytes(Visited(p), dataoff))
    requires sizes.Length == |Visited(p)| && forall k :: 0 <= k < sizes.Length ==> sizes[k] == FileSize(Visited(p)[k])
    modifies d
    ensures d.Valid() && Went(d.world, old(d.Now()), d.Now(), whole, ok)
    ensures ok ==> Begins(d.rounds, elf, d.world.kwrite(old(d.calls), |elf|))
  {
    ghost var nh, lh, t0 := PhdrBytes(note), LoadBytes(Visited(p), dataoff), d.Now();
    assert whole == (elf + nh) + lh;
    ok := WriteHeader(d, elf);
    if !ok {
      WentFirst(d.world, t0, d.Now(), elf, nh + lh);
      return;
    }
    ghost var t1 := d.Now();
    ok := d.Write(PhdrBytes(note));
    Extend(d.world, t0, t1, d.Now(), elf, nh, elf + nh, lh, whole, ok);
    if !ok {
      return;
    }
    ghost var t2 := d.Now();
    ok := d.WriteLoads(p, sizes, dataoff);
    WentBoth(d.world, t0, t2, d.Now(), elf + nh, lh, ok);
    BeginsStill(t1.rounds, d.rounds, elf, d.world.kwrite(old(d.calls), |elf|));
  }

  /** ... the notes and the gap after them, ... */
  method WriteNotesAndGap(d: Coredump, own: seq<Note>, threads: seq<seq<Note>>, dataoff: nat, ghost w: nat,
                          ghost ns: seq<Note>, ghost whole: seq<Byte>) returns (ok: bool)
    requires d.Valid() && |d.file| == 4 * w && ns == own + Flat(threads) && |d.file| + NotesSize(ns) <= dataoff
    requires whole == NotesBytes(ns) + Zeroes(dataoff - |d.file| - NotesSize(ns))
    modifies d
    ensures d.Valid() && Went(d.world, old(d.Now()), d.Now(), whole, ok)
  {
    ghost var nb, gap, t0 := NotesBytes(ns), Zeroes(dataoff - |d.file| - NotesSize(ns)), d.Now();
    NotesLength(ns);
    ok := d.WriteNoteInfo(own, threads, w);
    if !ok {
      WentFirst(d.world, t0, d.Now(), nb, gap);
      return;
    }
    ghost var t := d.Now();
    ok := d.Skip(dataoff - |d.file|);
    WentBoth(d.world, t0, t, d.Now(), nb, gap, ok);
  }

  /** ... the memory, and the section header of extended numbering. */
  method WriteMemory(d: Coredump, p: Process, sizes: array<nat>, trailer: seq<Byte>) returns (ok: bool)
    requires sizes.Length == |Visited(p)| && forall k :: 0 <= k < sizes.Length ==> sizes[k] == FileSize(Visited(p)[k])
    requires d.Valid() && AllOk(Visited(p))
    modifies d
    ensures d.Valid() && Went(d.world, old(d.Now()), d.Now(), AllData(Visited(p)) + trailer, ok)
  {
    ghost var db, t0 := AllData(Visited(p)), d.Now();
    ok := d.WriteData(p, sizes);
    if !ok {
      WentFirst(d.world, t0, d.Now(), db, trailer);
      return;
    }
    if trailer == [] {
      assert db + trailer == db;
    } else {
      ghost var t := d.Now();
      ok := d.Write(trailer);
      WentBoth(d.world, t0, t, d.Now(), db, trailer, ok);
    }
  }

  // ----- what the log says about the first write -----

  /** The first write was one of `data` and returned `n`; if that was short, the next one went on with the same data. */
  predicate Begins(rs: seq<Round>, data: seq<Byte>, n: int) {
    && n > 0 && rs != [] && rs[0] == Round(data, 0, n)
    && (n < |data| ==> |rs| > 1 && rs[1] == Round(data, n, rs[1].n) && rs[1].n > 0)
  }

  lemma BeginsSo(data: seq<Byte>, ns: seq<nat>)
    requires ns != [] && Sum(ns) == |data| && forall i :: 0 <= i < |ns| ==> ns[i] > 0
    ensures Begins(Rounds(data, 0, ns), data, ns[0])
  {
    if |ns| > 1 {
      assert Rounds(data, ns[0], ns[1..])[0] == Round(data, ns[0], ns[1]);
    } else {
      assert ns[1..] == [];
    }
  }

  lemma BeginsStill(rs: seq<Round>, more: seq<Round>, data: seq<Byte>, n: int)
    requires Begins(rs, data, n) && rs <= more
    ensures Begins(more, data, n)
  {
  }

  // ----- the parts of the file -----

  lemma FileInThree(p: Process, a: seq<Byte>, b: seq<Byte>, c: seq<Byte>)
    requires a == EhdrBytes(Header(p)) + (PhdrBytes(NotePhdr(NoteOff(p), NotesSize(p.notes)))
          + LoadBytes(Visited(p), DataOff(p)))
    requires b == NotesBytes(p.notes) + Zeroes(DataOff(p) - NoteOff(p) - NotesSize(p.notes))
    requires c == AllData(Visited(p)) + Trailer(p)
    ensures File(p) == (a + b) + c
  {
    Regroup(EhdrBytes(Header(p)), PhdrBytes(NotePhdr(NoteOff(p), NotesSize(p.notes))),
      LoadBytes(Visited(p), DataOff(p)),
            NotesBytes(p.notes), Zeroes(DataOff(p) - NoteOff(p) - NotesSize(p.notes)), c);
  }

  lemma Regroup(a: seq<Byte>, b: seq<Byte>, c: seq<Byte>, d: seq<Byte>, e: seq<Byte>, r: seq<Byte>)
    ensures a + (b + (c + (d + (e + r)))) == ((a + (b + c)) + (d + e)) + r
  {
  }

  /** The first pass of `elf_core_dump`. */
  method Plan(p: Process, own: seq<Note>, threads: seq<seq<Note>>)
    returns (elf: Ehdr, note: Phdr, dataoff: nat, sizes: array<nat>, trailer: seq<Byte>)
    requires p.notes == own + Flat(threads)
    ensures elf == Header(p) && note == NotePhdr(NoteOff(p), NotesSize(p.notes)) && dataoff == DataOff(p)
    ensures trailer == Trailer(p)
    ensures sizes.Length == |Visited(p)| && forall k :: 0 <= k < sizes.Length ==> sizes[k] == FileSize(Visited(p)[k])
  {
    var segs := |p.mmap|;
    if p.gate.Some? {
      segs := segs + 1;
    }
    segs := segs + 1;
    var ePhnum := if segs > PN_XNUM then PN_XNUM else segs;
    elf := Ehdr(p.ident, p.common, EHDR, 0, p.eflags, EHDR, PHDR, ePhnum, 0, 0, 0);
    var offset := EHDR + PHDR * segs;
    var sz := NoteInfoSize(own, threads);
    note := NotePhdr(offset, sz);
    offset := offset + sz;
    offset := PAGE * Pages(offset);
    dataoff := offset;
    var total;
    sizes, total := Measure(p);
    offset := offset + total;
    trailer := [];
    if ePhnum == PN_XNUM {
      elf := elf.(shoff := offset, shentsize := SHDR, shnum := 1, shstrndx := 0);
      trailer := ShdrBytes(1, 0, segs);
    }
  }

  /** The second pass, into a file that is empty so far: headers `a`, notes and gap `b`, memory and trailer `c`. */
  method WriteParts(d: Coredump, p: Process, own: seq<Note>, threads: seq<seq<Note>>, elf: seq<Byte>, note: Phdr,
                    dataoff: nat,
                    sizes: array<nat>, trailer: seq<Byte>, ghost w: nat, ghost a: seq<Byte>, ghost b: seq<Byte>,
                      ghost c: seq<Byte>)
    returns (ok: bool)
    requires d.Valid() && d.rounds == [] && d.meant == [] && elf != [] && p.notes == own + Flat(threads)
    requires AllOk(Visited(p))
    requires sizes.Length == |Visited(p)| && forall k :: 0 <= k < sizes.Length ==> sizes[k] == FileSize(Visited(p)[k])
    requires a == elf + (PhdrBytes(note) + LoadBytes(Visited(p), dataoff)) && |a| == 4 * w
    requires |a| + NotesSize(p.notes) <= dataoff
    requires b == NotesBytes(p.notes) + Zeroes(dataoff - |a| - NotesSize(p.notes)) && c == AllData(Visited(p)) + trailer
    modifies d
    ensures d.Valid() && Went(d.world, old(d.Now()), d.Now(), (a + b) + c, ok)
    ensures ok ==> Begins(d.rounds, elf, d.world.kwrite(old(d.calls), |elf|))
  {
    ghost var t0 := d.Now();
    ok := WriteHeaders(d, p, elf, note, dataoff, sizes, a);
    if !ok {
      WentFirst(d.world, t0, d.Now(), a, b);
      WentFirst(d.world, t0, d.Now(), a + b, c);
      return;
    }
    ghost var t1 := d.Now();
    ok := WriteNotesAndGap(d, own, threads, dataoff, w, p.notes, b);
    Extend(d.world, t0, t1, d.Now(), a, b, a + b, c, (a + b) + c, ok);
    if !ok {
      return;
    }
    ghost var t2 := d.Now();
    ok := WriteMemory(d, p, sizes, trailer);
    WentBoth(d.world, t0, t2, d.Now(), a + b, c, ok);
    BeginsStill(t1.rounds, d.rounds, elf, d.world.kwrite(old(d.calls), |elf|));
  }

  method WriteFile(d: Coredump, p: Process, own: seq<Note>, threads: seq<seq<Note>>) returns (ok: bool)
    requires d.Valid() && d.rounds == [] && d.meant == [] && Dumpable(p) && p.notes == own + Flat(threads)
    modifies d
    ensures d.Valid() && Went(d.world, old(d.Now()), d.Now(), File(p), ok)
    ensures ok ==> Begins(d.rounds, EhdrBytes(Header(p)), d.world.kwrite(old(d.calls), EHDR))
  {
    var elf, note, dataoff, sizes, trailer := Plan(p, own, threads);
    var eh := EhdrBytes(elf);
    ghost var a := eh + (PhdrBytes(note) + LoadBytes(Visited(p), dataoff));
    ghost var b := NotesBytes(p.notes) + Zeroes(dataoff - NoteOff(p) - NotesSize(p.notes));
    ghost var c := AllData(Visited(p)) + trailer;
    assert File(p) == (a + b) + c by {
      FileInThree(p, a, b, c);
    }
    assert |a| == NoteOff(p) == 4 * (30 + 14 * |Visited(p)|) && |eh| == EHDR by {
      HeadersLength(p);
    }
    ok := WriteParts(d, p, own, threads, eh, note, dataoff, sizes, trailer, 30 + 14 * |Visited(p)|, a, b, c);
  }

  /**
   `elf_core_dump` after the information has been collected.  Every byte is counted at the place
   the headers give it, so a completed dump has the length of the core file and its parts start
   where they should.  It is the core file exactly if no short write spoilt a piece; without
   resumed writes what is there is the core file, or a part of it from the start.  It fails only
   for the limit or the environment.
   */
  method ElfCoreDump(d: Coredump, p: Process, own: seq<Note>, threads: seq<seq<Note>>) returns (ok: bool)
    requires d.Valid() && d.rounds == [] && Dumpable(p) && p.notes == own + Flat(threads)
    modifies d
    ensures d.Valid() && Wrote([], d.meant, File(p), ok)
    ensures ok ==> |d.file| == |File(p)| && (d.file == File(p) <==> Sound(d.rounds))
    ensures NeverResumed(d.rounds) ==> Wrote([], d.file, File(p), ok)
    ensures Calm(d.world) && |File(p)| <= d.world.limit ==> ok
    ensures ok ==> Begins(d.rounds, EhdrBytes(Header(p)), d.world.kwrite(old(d.calls), EHDR))
  {
    assert d.meant == [];
    ok := WriteFile(d, p, own, threads);
    RecordedIff(d.file, d.meant, d.rounds);
    if NeverResumed(d.rounds) {
      NeverResumedIsSound(d.rounds);
    }
  }

  /** Everything works, but the first write takes one byte only. */
  function OneShort(limit: nat): World {
    World(limit, (i: nat, c: nat) => if i == 0 && c > 1 then 1 else c, (i: nat) => false, (i: nat) => true)
  }

  /** After a short first write the header is resumed with its first byte where the second is due. */
  lemma HeaderSpoilt(p: Process, rs: seq<Round>)
    requires Dumpable(p) && p.ident[0] != p.ident[1] && AllRounds(rs) && Begins(rs, EhdrBytes(Header(p)), 1)
    ensures !Sound(rs)
  {
    var h := EhdrBytes(Header(p));
    HeadersLength(p);
    assert h[0] == p.ident[0] && h[1] == p.ident[1];
    ResumeSpoils(rs[1]);
  }

  /**
   A dump that succeeds and is spoilt: the first write takes one byte, everything else works.
   Wherever the first two bytes of the identification differ, as 0x7f and 'E' do, the file has
   the right length and the wrong contents.
   */
  method SpoiltDump(p: Process, own: seq<Note>, threads: seq<seq<Note>>) returns (file: seq<Byte>)
    requires Dumpable(p) && p.notes == own + Flat(threads) && p.ident[0] != p.ident[1]
    ensures |file| == |File(p)| && file != File(p)
  {
    var d := new Coredump(true, OneShort(|File(p)|));
    var ok := ElfCoreDump(d, p, own, threads);
    HeaderSpoilt(p, d.rounds);
    file := d.file;
  }

  lemma {:induction false} FlatSplit(threads: seq<seq<Note>>, i: nat)
    requires i <= |threads|
    ensures Flat(threads) == Flat(threads[..i]) + Flat(threads[i..])
  {
    if i > 0 {
      FlatSplit(threads[1..], i - 1);
      assert threads[..i][1..] == threads[1..][..i - 1] && threads[1..][i - 1..] == threads[i..];
    } else {
      assert threads[i..] == threads;
    }
  }

  lemma ThreadsUpTo(threads: seq<seq<Note>>, i: nat)
    requires i < |threads|
    ensures NotesBytes(Flat(threads[..i + 1])) == NotesBytes(Flat(threads[..i])) + NotesBytes(threads[i])
  {
    assert threads[..i + 1] == threads[..i] + [threads[i]];
    FlatSnoc(threads[..i], threads[i]);
    ConcatAppend(NoteBytes, Flat(threads[..i]), threads[i]);
  }

  lemma ThreadsSplit(threads: seq<seq<Note>>, i: nat)
    requires i <= |threads|
    ensures NotesBytes(Flat(threads)) == NotesBytes(Flat(threads[..i])) + NotesBytes(Flat(threads[i..]))
  {
    FlatSplit(threads, i);
    ConcatAppend(NoteBytes, Flat(threads[..i]), Flat(threads[i..]));
  }

  lemma {:induction false} EachOk(vs: seq<Vma>, i: nat)
    requires AllOk(vs) && i < |vs|
    ensures VmaOk(vs[i])
  {
    if i > 0 {
      EachOk(vs[1..], i - 1);
    }
  }
}
