/**
 What `dump_emit` really puts into a file.  Its loop hands the same address to `__kernel_write`
 every time, so that after a short write the start of the data is written again.
 */
module CoreLog {
  import opened ElfFormat

  /** One successful write: `n` bytes, when `at` bytes of `data` had been counted as written. */
  datatype Round = Round(data: seq<Byte>, at: nat, n: nat)

  predicate RoundOk(r: Round) { r.at + r.n <= |r.data| }

  /** What went into the file, and what was due at that place. */
  function Piece(r: Round): seq<Byte> { if r.n <= |r.data| then r.data[..r.n] else [] }

  function Due(r: Round): seq<Byte> { if RoundOk(r) then r.data[r.at..r.at + r.n] else [] }

  predicate AllRounds(rs: seq<Round>) { forall i :: 0 <= i < |rs| ==> RoundOk(rs[i]) }

  /** Every write put there what was due. */
  predicate Sound(rs: seq<Round>) { forall i :: 0 <= i < |rs| ==> Piece(rs[i]) == Due(rs[i]) }

  /** No write went on with data of which a part had been written. */
  predicate NeverResumed(rs: seq<Round>) { forall i :: 0 <= i < |rs| ==> rs[i].at == 0 }

  /** `file` is what the writes of `rs` left, and `meant` what they should have. */
  predicate Recorded(file: seq<Byte>, meant: seq<Byte>, rs: seq<Round>) {
    AllRounds(rs) && file == Concat(Piece, rs) && meant == Concat(Due, rs)
  }

  lemma Join(a: seq<Byte>, b: seq<Byte>, c: seq<Byte>, d: seq<Byte>)
    requires |a| == |c|
    ensures a + b == c + d <==> a == c && b == d
  {
    if a + b == c + d {
      assert a == (a + b)[..|a|] == (c + d)[..|a|] == c;
      assert b == (a + b)[|a|..] == (c + d)[|a|..] == d;
    }
  }

  /** Positions never suffer from short writes; contents survive them exactly if every piece is the one due. */
  lemma {:induction false} LogIff(rs: seq<Round>)
    requires AllRounds(rs)
    ensures |Concat(Piece, rs)| == |Concat(Due, rs)|
    ensures Concat(Piece, rs) == Concat(Due, rs) <==> Sound(rs)
  {
    if rs != [] {
      LogIff(rs[1..]);
      Join(Piece(rs[0]), Concat(Piece, rs[1..]), Due(rs[0]), Concat(Due, rs[1..]));
      assert Sound(rs) <==> Piece(rs[0]) == Due(rs[0]) && Sound(rs[1..]) by {
        assert rs == [rs[0]] + rs[1..];
      }
    }
  }

  lemma RecordedIff(file: seq<Byte>, meant: seq<Byte>, rs: seq<Round>)
    requires Recorded(file, meant, rs)
    ensures |file| == |meant| && (file == meant <==> Sound(rs))
  {
    LogIff(rs);
  }

  lemma RecordedMore(file: seq<Byte>, meant: seq<Byte>, rs: seq<Round>, r: Round)
    requires Recorded(file, meant, rs) && RoundOk(r)
    ensures Recorded(file + Piece(r), meant + Due(r), rs + [r])
  {
    ConcatSnoc(Piece, rs, r);
    ConcatSnoc(Due, rs, r);
  }

  lemma ConcatSnoc<T>(f: T -> seq<Byte>, xs: seq<T>, x: T)
    ensures Concat(f, xs + [x]) == Concat(f, xs) + f(x)
  {
    ConcatAppend(f, xs, [x]);
    assert [x][1..] == [];
    assert Concat(f, [x]) == f(x) + Concat(f, []);
  }

  /** Without resumed data everything is as it should be, whether the last write was short or not. */
  lemma NeverResumedIsSound(rs: seq<Round>)
    requires AllRounds(rs) && NeverResumed(rs)
    ensures Sound(rs)
  {
  }

  /** Data resumed where its next byte differs from its first is spoilt. */
  lemma ResumeSpoils(r: Round)
    requires RoundOk(r) && r.n > 0 && r.data[r.at] != r.data[0]
    ensures Piece(r) != Due(r)
  {
    assert Piece(r)[0] == r.data[0] && Due(r)[0] == r.data[r.at];
  }

  // ----- one call -----

  function Sum(ns: seq<nat>): nat { if ns == [] then 0 else ns[0] + Sum(ns[1..]) }

  /** The writes of one call that returned the counts `ns`, from `at` on. */
  function Rounds(data: seq<Byte>, at: nat, ns: seq<nat>): (rs: seq<Round>)
    ensures |rs| == |ns|
    decreases |ns|
  {
    if ns == [] then [] else [Round(data, at, ns[0])] + Rounds(data, at + ns[0], ns[1..])
  }

  lemma {:induction false} RoundAt(data: seq<Byte>, at: nat, ns: seq<nat>, i: nat)
    requires i < |ns|
    ensures Rounds(data, at, ns)[i] == Round(data, at + Sum(ns[..i]), ns[i])
    ensures Sum(ns[..i]) + ns[i] <= Sum(ns)
    decreases i
  {
    if i > 0 {
      RoundAt(data, at + ns[0], ns[1..], i - 1);
      assert ns[..i][1..] == ns[1..][..i - 1] && ns[..i][0] == ns[0];
    }
  }

  lemma {:induction false} RoundsDue(data: seq<Byte>, at: nat, ns: seq<nat>)
    requires at + Sum(ns) <= |data|
    ensures Concat(Due, Rounds(data, at, ns)) == data[at..at + Sum(ns)]
    decreases |ns|
  {
    if ns != [] {
      var r, rest := Round(data, at, ns[0]), Rounds(data, at + ns[0], ns[1..]);
      RoundsDue(data, at + ns[0], ns[1..]);
      assert ([r] + rest)[1..] == rest;
      assert Due(r) == data[at..at + ns[0]];
    }
  }

  /**
   A completed call, whatever the counts: as many bytes as were asked for, and they are the data
   exactly if every piece from the start of the data repeats the piece due at its place.
   */
  lemma EmitIff(data: seq<Byte>, ns: seq<nat>)
    requires Sum(ns) == |data|
    ensures var rs := Rounds(data, 0, ns);
      && (forall i :: 0 <= i < |ns| ==> rs[i] == Round(data, Sum(ns[..i]), ns[i]) && RoundOk(rs[i]))
      && |Concat(Piece, rs)| == |data| && (Concat(Piece, rs) == data <==> Sound(rs))
  {
    var rs := Rounds(data, 0, ns);
    forall i | 0 <= i < |ns|
      ensures rs[i] == Round(data, Sum(ns[..i]), ns[i]) && RoundOk(rs[i])
    {
      RoundAt(data, 0, ns, i);
    }
    RoundsDue(data, 0, ns);
    assert data[0..|data|] == data;
    LogIff(rs);
  }

  lemma {:induction false} SumSnoc(ns: seq<nat>, n: nat)
    ensures Sum(ns + [n]) == Sum(ns) + n
  {
    if ns == [] {
      assert [n][1..] == [];
    } else {
      assert (ns + [n])[1..] == ns[1..] + [n];
      SumSnoc(ns[1..], n);
    }
  }

  lemma {:induction false} RoundsSnoc(data: seq<Byte>, at: nat, ns: seq<nat>, n: nat)
    ensures Rounds(data, at, ns + [n]) == Rounds(data, at, ns) + [Round(data, at + Sum(ns), n)]
    decreases |ns|
  {
    if ns == [] {
      assert [n][1..] == [];
    } else {
      assert (ns + [n])[1..] == ns[1..] + [n];
      RoundsSnoc(data, at + ns[0], ns[1..], n);
    }
  }

  /** Part of a call: the counts `ns` so far have taken file, meaning and log from `f0`, `m0`, `r0` to `f`, `m`, `r`. */
  predicate Emitting(data: seq<Byte>, ns: seq<nat>, f0: seq<Byte>, f: seq<Byte>, m0: seq<Byte>, m: seq<Byte>,
                     r0: seq<Round>, r: seq<Round>) {
    && Sum(ns) <= |data| && r == r0 + Rounds(data, 0, ns)
    && f == f0 + Concat(Piece, Rounds(data, 0, ns)) && m == m0 + data[..Sum(ns)]
  }

  lemma EmittingNone(data: seq<Byte>, f: seq<Byte>, m: seq<Byte>, r: seq<Round>)
    ensures Emitting(data, [], f, f, m, m, r, r)
  {
  }

  /** One more write. */
  lemma EmittingMore(data: seq<Byte>, ns: seq<nat>, n: nat, f0: seq<Byte>, f: seq<Byte>, m0: seq<Byte>, m: seq<Byte>,
                     r0: seq<Round>, r: seq<Round>)
    requires Emitting(data, ns, f0, f, m0, m, r0, r) && n <= |data| - Sum(ns)
    ensures var q := Round(data, Sum(ns), n);
      && RoundOk(q) && Sum(ns + [n]) == Sum(ns) + n
      && Emitting(data, ns + [n], f0, f + Piece(q), m0, m + Due(q), r0, r + [q])
  {
    var q, rs := Round(data, Sum(ns), n), Rounds(data, 0, ns);
    SumSnoc(ns, n);
    RoundsSnoc(data, 0, ns, n);
    ConcatSnoc(Piece, rs, q);
    assert data[..Sum(ns)] + Due(q) == data[..Sum(ns) + n];
    Regrouped(f0, Concat(Piece, rs), Piece(q));
    Regrouped(m0, data[..Sum(ns)], Due(q));
    assert r0 + (rs + [q]) == (r0 + rs) + [q];
  }

  lemma Regrouped(a: seq<Byte>, b: seq<Byte>, c: seq<Byte>)
    ensures a + (b + c) == (a + b) + c
  {
  }

  lemma {:induction false} ZeroRounds(k: nat, at: nat, ns: seq<nat>)
    requires at + Sum(ns) <= k
    ensures Concat(Piece, Rounds(Zeroes(k), at, ns)) == Zeroes(Sum(ns))
    decreases |ns|
  {
    if ns != [] {
      var r, rest := Round(Zeroes(k), at, ns[0]), Rounds(Zeroes(k), at + ns[0], ns[1..]);
      ZeroRounds(k, at + ns[0], ns[1..]);
      assert ([r] + rest)[1..] == rest;
      assert Piece(r) == Zeroes(ns[0]);
    }
  }

  /** Two different bytes written one at a time: the first one comes out twice. */
  lemma ShortWriteRepeats(a: Byte, b: Byte)
    requires a != b
    ensures Concat(Piece, Rounds([a, b], 0, [1, 1])) == [a, a] != [a, b]
  {
    var data, ns := [a, b], [1, 1];
    assert ns[1..] == [1] && [1][1..] == [];
    assert Rounds(data, 1, [1]) == [Round(data, 1, 1)] + Rounds(data, 2, []);
    var rs := Rounds(data, 0, ns);
    assert rs == [Round(data, 0, 1), Round(data, 1, 1)];
    assert rs[1..] == [rs[1]] && [rs[1]][1..] == [];
    assert Concat(Piece, [rs[1]]) == Piece(rs[1]) + Concat(Piece, []);
    assert Piece(rs[0]) == [a] && Piece(rs[1]) == [a];
  }
}
