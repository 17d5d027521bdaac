/** Filling the NT_FILE note in place. */
module FilesNoteFill {
  import opened ElfFormat
  import opened FilesNote

  const MAX_FILE_NOTE_SIZE: nat := 0x40_0000

  /** `s` with `x` at position `at`. */
  function Patched(s: seq<Byte>, at: nat, x: seq<Byte>): (r: seq<Byte>)
    requires at + |x| <= |s|
    ensures |r| == |s|
  {
    s[..at] + x + s[at + |x|..]
  }

  lemma PatchedIs(s: seq<Byte>, r: seq<Byte>, at: nat, x: seq<Byte>)
    requires at + |x| <= |s| == |r| && r[..at] == s[..at] && r[at..at + |x|] == x && r[at + |x|..] == s[at + |x|..]
    ensures r == Patched(s, at, x)
  {
    assert r == r[..at] + r[at..at + |x|] + r[at + |x|..];
  }

  lemma PatchedHolds(s: seq<Byte>, at: nat, x: seq<Byte>)
    requires at + |x| <= |s|
    ensures Holds(Patched(s, at, x), at, x)
  {
  }

  /** What lies elsewhere stays. */
  lemma PatchedKeeps(s: seq<Byte>, at: nat, x: seq<Byte>, at2: nat, y: seq<Byte>)
    requires at + |x| <= |s| && Holds(s, at2, y) && (at2 + |y| <= at || at + |x| <= at2)
    ensures Holds(Patched(s, at, x), at2, y)
  {
    var r := Patched(s, at, x);
    assert r[at2..at2 + |y|] == s[at2..at2 + |y|];
  }

  lemma HoldsBefore(s: seq<Byte>, t: seq<Byte>, cur: nat, at: nat, x: seq<Byte>)
    requires cur <= |s| && cur <= |t| && t[..cur] == s[..cur] && Holds(s, at, x) && at + |x| <= cur
    ensures Holds(t, at, x)
  {
    assert t[at..at + |x|] == t[..cur][at..at + |x|];
    assert s[at..at + |x|] == s[..cur][at..at + |x|];
  }

  lemma HoldsJoin(s: seq<Byte>, at: nat, x: seq<Byte>, y: seq<Byte>)
    requires Holds(s, at, x) && Holds(s, at + |x|, y)
    ensures Holds(s, at, x + y)
  {
    assert s[at..at + |x + y|] == s[at..at + |x|] + s[at + |x|..at + |x| + |y|];
  }

  method Store(a: array<Byte>, at: nat, x: seq<Byte>)
    requires at + |x| <= a.Length
    modifies a
    ensures a[..] == Patched(old(a[..]), at, x)
  {
    ghost var s := a[..];
    for i := 0 to |x|
      invariant a[..] == Patched(s, at, x[..i])
    {
      a[at + i] := x[i];
      assert x[..i + 1] == x[..i] + [x[i]];
    }
    assert x[..|x|] == x;
  }

  lemma MovedIs(s: seq<Byte>, r: seq<Byte>, dst: nat, src: nat, n: nat)
    requires dst <= src && src + n <= |s| == |r|
    requires forall j :: dst <= j < dst + n ==> r[j] == s[j + (src - dst)]
    requires forall j :: 0 <= j < dst || dst + n <= j < |s| ==> r[j] == s[j]
    ensures r == Patched(s, dst, s[src..src + n])
  {
    var x := s[src..src + n];
    forall j | 0 <= j < n
      ensures r[dst..dst + n][j] == x[j]
    {
      assert r[dst + j] == s[(dst + j) + (src - dst)];
    }
    assert r[dst..dst + n] == x;
    PatchedIs(s, r, dst, x);
  }

  /** `memmove` to a lower address. */
  method MoveDown(a: array<Byte>, dst: nat, src: nat, n: nat)
    requires dst <= src && src + n <= a.Length
    modifies a
    ensures a[..] == Patched(old(a[..]), dst, old(a[src..src + n]))
  {
    ghost var s := a[..];
    for i := 0 to n
      invariant forall j :: dst <= j < dst + i ==> a[j] == s[j + (src - dst)]
      invariant forall j :: 0 <= j < dst || dst + i <= j < a.Length ==> a[j] == s[j]
    {
      a[dst + i] := a[src + i];
    }
    MovedIs(s, a[..], dst, src, n);
  }

  /** `file_path`: the name and its NUL at the very end of the free space, if they fit. */
  method FilePath(a: array<Byte>, at: nat, len: nat, name: seq<Byte>) returns (ok: bool, start: nat)
    requires at + len <= a.Length
    modifies a
    ensures ok <==> |name| + 1 <= len
    ensures ok ==> start == at + len - (|name| + 1) && a[..] == Patched(old(a[..]), start, name + [0])
    ensures !ok ==> a[..] == old(a[..])
  {
    if |name| + 1 > len {
      return false, 0;
    }
    start := at + len - (|name| + 1);
    Store(a, start, name + [0]);
    ok := true;
  }

  /** One name appended: filled in at the end of the free space and moved down to where it belongs. */
  method AddName(a: array<Byte>, cur: nat, remaining: nat, name: seq<Byte>) returns (ok: bool, cur': nat,
                 remaining': nat)
    requires cur + remaining == a.Length
    modifies a
    ensures ok <==> |name| + 1 <= remaining
    ensures !ok ==> a[..] == old(a[..])
    ensures ok ==> cur' == cur + |name| + 1 && cur' + remaining' == a.Length
    ensures ok ==> a[..cur] == old(a[..cur]) && Holds(a[..], cur, name + [0])
  {
    var filename;
    ok, filename := FilePath(a, cur, remaining, name);
    cur', remaining' := cur, remaining;
    if ok {
      ghost var s, t := old(a[..]), a[..];
      var n := cur + remaining - filename;
      remaining' := filename - cur;
      PatchedHolds(s, filename, name + [0]);
      assert a[filename..filename + n] == name + [0];
      MoveDown(a, cur, filename, n);
      PatchedHolds(t, cur, name + [0]);
      assert a[..cur] == t[..cur] == s[..cur];
      cur' := cur + n;
    }
  }

  lemma MappedNext(vs: seq<FileVma>, i: nat)
    requires i < |vs|
    ensures Mapped(vs[..i + 1]) == if vs[i].path.Named?
      then Mapped(vs[..i]) + [Mapping(vs[i].start, vs[i].end, vs[i].pgoff, vs[i].path.name)] else Mapped(vs[..i])
  {
    assert vs[..i + 1][..i] == vs[..i];
    assert Mapped(vs[..i]) + [] == Mapped(vs[..i]);
  }

  lemma {:induction false} NamesGrow(vs: seq<FileVma>, i: nat)
    requires i <= |vs|
    ensures |Names(Mapped(vs[..i]))| <= |Names(Mapped(vs))|
  {
    if i < |vs| {
      var w := vs[..|vs| - 1];
      NamesGrow(w, i);
      assert w[..i] == vs[..i];
      ConcatAppend(NameBytes, Mapped(w), Mapped(vs)[|Mapped(w)|..]);
      assert Mapped(vs) == Mapped(w) + Mapped(vs)[|Mapped(w)|..];
    } else {
      assert vs[..i] == vs;
    }
  }

  lemma OneMore(ms: seq<Mapping>, m: Mapping)
    ensures Table(ms + [m]) == Table(ms) + Triple(m) && Names(ms + [m]) == Names(ms) + NameBytes(m)
  {
    assert [m][1..] == [];
    ConcatAppend(Triple, ms, [m]);
    ConcatAppend(NameBytes, ms, [m]);
    assert Concat(Triple, [m]) == Triple(m) + Concat(Triple, []);
    assert Concat(NameBytes, [m]) == NameBytes(m) + Concat(NameBytes, []);
  }

  /** A table `tb` and names `nb` stand in the buffer. */
  predicate Built(s: seq<Byte>, namesOfs: nat, tb: seq<Byte>, nb: seq<Byte>) {
    Holds(s, 16, tb) && Holds(s, namesOfs, nb) && 16 + |tb| <= namesOfs
  }

  lemma BuiltMore(s: seq<Byte>, t: seq<Byte>, namesOfs: nat, tb: seq<Byte>, nb: seq<Byte>, x: seq<Byte>, y: seq<Byte>)
    requires Built(s, namesOfs, tb, nb) && 16 + |tb| + |x| <= namesOfs && |t| == |s|
    requires t[..namesOfs + |nb|] == s[..namesOfs + |nb|] && Holds(t, namesOfs + |nb|, y)
    ensures 16 + |tb| + |x| <= |t| && Built(Patched(t, 16 + |tb|, x), namesOfs, tb + x, nb + y)
  {
    var cur := namesOfs + |nb|;
    HoldsBefore(s, t, cur, 16, tb);
    HoldsBefore(s, t, cur, namesOfs, nb);
    HoldsJoin(t, namesOfs, nb, y);
    PatchedKeeps(t, 16 + |tb|, x, 16, tb);
    PatchedKeeps(t, 16 + |tb|, x, namesOfs, nb + y);
    PatchedHolds(t, 16 + |tb|, x);
    HoldsJoin(Patched(t, 16 + |tb|, x), 16, tb, x);
  }

  /** One mapping entered in names and table. */
  method AddMapping(a: array<Byte>, m: Mapping, namesOfs: nat, count: nat, cur: nat, remaining: nat,
                    ghost tb: seq<Byte>, ghost nb: seq<Byte>)
    returns (ok: bool, cur': nat, remaining': nat)
    requires cur + remaining == a.Length && cur == namesOfs + |nb| && 24 * count == |tb|
    requires Built(a[..], namesOfs, tb, nb) && 16 + |tb| + 24 <= namesOfs
    modifies a
    ensures ok <==> cur + |m.name| + 1 <= a.Length
    ensures ok ==> Built(a[..], namesOfs, tb + Triple(m), nb + NameBytes(m))
    ensures ok ==> cur' == cur + |m.name| + 1 && cur' + remaining' == a.Length
  {
    ghost var s := a[..];
    ok, cur', remaining' := AddName(a, cur, remaining, m.name);
    if ok {
      ghost var t := a[..];
      assert t[..cur] == s[..cur];
      var triple := Triple(m);
      BuiltMore(s, t, namesOfs, tb, nb, triple, m.name + [0]);
      Store(a, 16 + 24 * count, triple);
    }
  }

  /** The first `i` mappings have been entered. */
  predicate Filling(s: seq<Byte>, vs: seq<FileVma>, i: nat, namesOfs: nat, count: nat, cur: nat) {
    && i <= |vs| && count == |Mapped(vs[..i])| <= i && |Table(Mapped(vs[..i]))| == 24 * count
    && cur == namesOfs + |Names(Mapped(vs[..i]))| && Built(s, namesOfs, Table(Mapped(vs[..i])), Names(Mapped(vs[..i])))
  }

  lemma FillingNone(s: seq<Byte>, vs: seq<FileVma>, namesOfs: nat)
    requires 16 <= namesOfs <= |s|
    ensures Filling(s, vs, 0, namesOfs, 0, namesOfs)
  {
    assert vs[..0] == [];
  }

  lemma FillingAll(s: seq<Byte>, vs: seq<FileVma>, namesOfs: nat, count: nat, cur: nat)
    requires Filling(s, vs, |vs|, namesOfs, count, cur)
    ensures count == |Mapped(vs)| && cur == namesOfs + |Names(Mapped(vs))|
    ensures Built(s, namesOfs, Table(Mapped(vs)), Names(Mapped(vs)))
  {
    assert vs[..|vs|] == vs;
  }

  /** The body of the loop: a named mapping is entered, others are passed over. */
  method AddVma(a: array<Byte>, vs: seq<FileVma>, i: nat, namesOfs: nat, count: nat, cur: nat, remaining: nat)
    returns (ok: bool, count': nat, cur': nat, remaining': nat)
    requires i < |vs| && 16 + 24 * |vs| <= namesOfs && cur + remaining == a.Length
    requires Filling(a[..], vs, i, namesOfs, count, cur)
    modifies a
    ensures ok ==> cur' + remaining' == a.Length && Filling(a[..], vs, i + 1, namesOfs, count', cur')
    ensures !ok ==> namesOfs + |Names(Mapped(vs))| > a.Length
  {
    MappedNext(vs, i);
    ok, count', cur', remaining' := true, count, cur, remaining;
    if vs[i].path.Named? {
      var m := Mapping(vs[i].start, vs[i].end, vs[i].pgoff, vs[i].path.name);
      ghost var ms := Mapped(vs[..i]);
      OneMore(ms, m);
      NamesGrow(vs, i + 1);
      ok, cur', remaining' := AddMapping(a, m, namesOfs, count, cur, remaining, Table(ms), Names(ms));
      count' := count + 1;
    }
  }

  /** One pass over the mappings.  It fails exactly if the names do not fit. */
  method TryFill(a: array<Byte>, vs: seq<FileVma>, namesOfs: nat) returns (ok: bool, count: nat, cur: nat)
    requires 16 + 24 * |vs| <= namesOfs <= a.Length
    modifies a
    ensures ok <==> namesOfs + |Names(Mapped(vs))| <= a.Length
    ensures ok ==> count == |Mapped(vs)| && cur == namesOfs + |Names(Mapped(vs))|
    ensures ok ==> Built(a[..], namesOfs, Table(Mapped(vs)), Names(Mapped(vs)))
  {
    var remaining := a.Length - namesOfs;
    ok, cur, count := true, namesOfs, 0;
    FillingNone(a[..], vs, namesOfs);
    for i := 0 to |vs|
      invariant cur + remaining == a.Length && Filling(a[..], vs, i, namesOfs, count, cur)
    {
      ok, count, cur, remaining := AddVma(a, vs, i, namesOfs, count, cur, remaining);
      if !ok {
        return;
      }
    }
    FillingAll(a[..], vs, namesOfs, count, cur);
    ok := true;
  }

  /** Header, table and names stand in the buffer, the names at `at`. */
  predicate Complete(s: seq<Byte>, head: seq<Byte>, tb: seq<Byte>, at: nat, nb: seq<Byte>) {
    |head| == 16 && 16 + |tb| <= at && Holds(s, 0, head) && Holds(s, 16, tb) && Holds(s, at, nb)
  }

  method StoreHead(a: array<Byte>, head: seq<Byte>, ghost at: nat, ghost tb: seq<Byte>, ghost nb: seq<Byte>)
    requires |head| == 16 && Built(a[..], at, tb, nb)
    modifies a
    ensures Complete(a[..], head, tb, at, nb)
  {
    ghost var s := a[..];
    Store(a, 0, head);
    PatchedHolds(s, 0, head);
    PatchedKeeps(s, 0, head, 16, tb);
    PatchedKeeps(s, 0, head, at, nb);
  }

  /** The names move down by `shift`. */
  method CloseGap(a: array<Byte>, at: nat, shift: nat, n: nat, ghost head: seq<Byte>, ghost tb: seq<Byte>,
                  ghost nb: seq<Byte>)
    requires Complete(a[..], head, tb, at, nb) && n == |nb| && 16 + |tb| + shift <= at
    modifies a
    ensures Complete(a[..], head, tb, at - shift, nb)
  {
    ghost var t := a[..];
    assert a[at..at + n] == t[at..at + n] == nb;
    MoveDown(a, at - shift, at, n);
    PatchedHolds(t, at - shift, nb);
    PatchedKeeps(t, at - shift, nb, 0, head);
    PatchedKeeps(t, at - shift, nb, 16, tb);
  }

  /** The end of `fill_files_note`: the header is stored and the names close the gap after the table. */
  method Finish(a: array<Byte>, total: nat, count: nat, cur: nat, ghost tb: seq<Byte>,
                ghost nb: seq<Byte>) returns (size: nat)
    requires count <= total && |tb| == 24 * count && cur == 16 + 24 * total + |nb| <= a.Length
    requires Built(a[..], 16 + 24 * total, tb, nb)
    modifies a
    ensures size <= a.Length && a[..size] == Head(count) + (tb + nb)
  {
    var head, namesOfs := Head(count), 16 + 24 * total;
    StoreHead(a, head, namesOfs, tb, nb);
    size := cur;
    if total != count {
      var shift := 24 * (total - count);
      CloseGap(a, namesOfs, shift, cur - namesOfs, head, tb, nb);
      size := cur - shift;
    }
    WholeIs(a[..], head, tb, nb, 16 + 24 * count, size);
    assert a[..size] == a[..][..size];
  }

  /** A whole buffer from its three parts. */
  lemma WholeIs(s: seq<Byte>, head: seq<Byte>, tb: seq<Byte>, nb: seq<Byte>, at: nat, end: nat)
    requires Complete(s, head, tb, at, nb) && at == 16 + |tb| && end == at + |nb|
    ensures end <= |s| && s[..end] == head + (tb + nb)
  {
    HoldsJoin(s, 16, tb, nb);
    HoldsJoin(s, 0, head, tb + nb);
  }

  datatype Result = Filled(data: seq<Byte>) | EINVAL | ENOMEM

  function PageUp(n: nat): (r: nat)
    ensures n <= r < n + PAGE
  {
    (n + PAGE - 1) / PAGE * PAGE
  }

  /** The first estimate for `n` mappings and the offset of the names, as 32-bit numbers. */
  function Estimate(n: nat): nat { 64 * n % TWO32 }

  function NamesOffset(n: nat): nat { 8 * ((2 + 3 * n) % TWO32) % TWO32 }

  /** The estimate is neither refused for its size nor, as an empty buffer, by `vmalloc`. */
  predicate Tried(n: nat) { 0 < Estimate(n) < MAX_FILE_NOTE_SIZE }

  /** Below 2^26 mappings nothing wraps. */
  lemma NoWrap(n: nat)
    requires n < 0x400_0000
    ensures Estimate(n) == 64 * n && NamesOffset(n) == 16 + 24 * n
  {
  }

  /**
   The buffer of the first attempt holds the header and the table, for any `map_count`, if and
   only if there are fewer than 2^26 mappings or no attempt is made at all.
   */
  lemma TableFitsIff(n: nat)
    requires n < TWO32 / 2
    ensures (Tried(n) ==> 16 + 24 * n <= PageUp(Estimate(n))) <==> n < 0x400_0000 || !Tried(n)
  {
    if n < 0x400_0000 {
      NoWrap(n);
    } else {
      assert PageUp(Estimate(n)) < Estimate(n) + PAGE;
    }
  }

  /** With 2^26 + 1 mappings the estimate wraps to 64: one page for a table of 1.6 GB. */
  lemma WrapTried()
    ensures Tried(0x400_0001) && PageUp(Estimate(0x400_0001)) == PAGE && 16 + 24 * 0x400_0001 > PAGE
  {
  }

  /** One attempt with a buffer of `size` bytes. */
  method Attempt(vs: seq<FileVma>, namesOfs: nat, size: nat) returns (ok: bool, note: seq<Byte>)
    requires namesOfs == 16 + 24 * |vs| <= size
    ensures ok <==> namesOfs + |Names(Mapped(vs))| <= size
    ensures ok ==> note == Desc(Mapped(vs))
  {
    var data := new Byte[size];
    var count, cur;
    ok, count, cur := TryFill(data, vs, namesOfs);
    note := [];
    if ok {
      TableLength(Mapped(vs));
      var end := Finish(data, |vs|, count, cur, Table(Mapped(vs)), Names(Mapped(vs)));
      note := data[..end];
    }
  }

  /** The next size tried is larger, and four fifths of it were too few. */
  lemma Grown(size: nat, need: nat)
    requires 4 <= size < need
    ensures size < size * 5 / 4 && 5 * need > 4 * (size * 5 / 4)
  {
  }

  /** A buffer that is tried at all holds the header and the table. */
  lemma TableFits(n: nat, size: nat)
    requires 1 <= n && 64 * n <= size
    ensures PageUp(size) >= 4 && 16 + 24 * n <= PageUp(size)
  {
  }

  /**
   `fill_files_note`.  A finished note lists exactly the named mappings; the cap is hit only by
   very many mappings, or by names that would need more than four fifths of it.
   */
  method FillFilesNote(vs: seq<FileVma>) returns (r: Result)
    requires |vs| < TWO32 / 2 && (|vs| < 0x400_0000 || !Tried(|vs|))     // else the table is written past the buffer
    ensures r.Filled? ==> r.data == Desc(Mapped(vs))
    ensures r.EINVAL? ==> 64 * |vs| >= MAX_FILE_NOTE_SIZE
                          || 5 * (16 + 24 * |vs| + |Names(Mapped(vs))|) > 4 * MAX_FILE_NOTE_SIZE
    ensures |vs| >= 0x400_0000 ==> !r.Filled?
  {
    var size, namesOfs := Estimate(|vs|), NamesOffset(|vs|);
    ghost var need := 16 + 24 * |vs| + |Names(Mapped(vs))|;
    if |vs| < 0x400_0000 {
      NoWrap(|vs|);
    }
    while size < MAX_FILE_NOTE_SIZE
      invariant if |vs| < 0x400_0000 then 64 * |vs| <= size else size == Estimate(|vs|)
      invariant |vs| == 0 ==> size == 0
      invariant size == Estimate(|vs|) || 5 * need > 4 * size
      decreases MAX_FILE_NOTE_SIZE - size
    {
      ghost var before := size;
      size := PageUp(size);
      var got: bool := *;
      if size == 0 || !got {
        return ENOMEM;
      }
      assert before > 0;
      TableFits(|vs|, before);
      var ok, note := Attempt(vs, namesOfs, size);
      if ok {
        return Filled(note);
      }
      Grown(size, need);
      size := size * 5 / 4;
    }
    r := EINVAL;
  }
}
