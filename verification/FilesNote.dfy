/**
 The NT_FILE note (`fill_files_note` in `fs/binfmt_elf.c`): a table of mapped ranges and,
 after it, the names of the mapped files, built in one buffer that is enlarged and filled
 anew whenever the names do not fit.
 */
module FilesNote {
  import opened Wrappers
  import opened ElfFormat

  /** What `file_path` finds: no file, an error other than a lack of room, or a name without its NUL. */
  datatype Path = NoFile | BadPath | Named(name: seq<Byte>)

  datatype FileVma = FileVma(start: nat, end: nat, pgoff: nat, path: Path)

  datatype Mapping = Mapping(start: nat, end: nat, ofs: nat, name: seq<Byte>)

  /** The mappings the note is about, in order. */
  function Mapped(vs: seq<FileVma>): (ms: seq<Mapping>)
    ensures |ms| <= |vs|
  {
    if vs == [] then []
    else
      var v := vs[|vs| - 1];
      Mapped(vs[..|vs| - 1]) + if v.path.Named? then [Mapping(v.start, v.end, v.pgoff, v.path.name)] else []
  }

  /** How many of the mappings have a name. */
  function NamedCount(vs: seq<FileVma>): nat {
    if vs == [] then 0 else NamedCount(vs[..|vs| - 1]) + if vs[|vs| - 1].path.Named? then 1 else 0
  }

  /** Exactly the named mappings are listed, each with its range, offset and name, in their order. */
  lemma {:induction false} MappedAt(vs: seq<FileVma>, i: nat)
    requires i < |vs|
    ensures |Mapped(vs)| == NamedCount(vs)
    ensures vs[i].path.Named? ==>
      && NamedCount(vs[..i]) < |Mapped(vs)|
      && Mapped(vs)[NamedCount(vs[..i])] == Mapping(vs[i].start, vs[i].end, vs[i].pgoff, vs[i].path.name)
    decreases |vs|
  {
    var n := |vs| - 1;
    if n > 0 {
      MappedAt(vs[..n], if i < n then i else n - 1);
    } else {
      assert vs[..n] == [];
    }
    if i < n {
      assert vs[..n][..i] == vs[..i];
    }
  }

  function Triple(m: Mapping): (s: seq<Byte>)
    ensures |s| == 24
  {
    Le(m.start, 8) + (Le(m.end, 8) + Le(m.ofs, 8))
  }

  function NameBytes(m: Mapping): (s: seq<Byte>)
    ensures |s| == |m.name| + 1
  {
    m.name + [0]
  }

  function Table(ms: seq<Mapping>): seq<Byte> { Concat(Triple, ms) }

  function Names(ms: seq<Mapping>): seq<Byte> { Concat(NameBytes, ms) }

  function Head(count: nat): (s: seq<Byte>)
    ensures |s| == 16
  {
    Le(count, 8) + Le(PAGE, 8)
  }

  /** The finished note. */
  function Desc(ms: seq<Mapping>): seq<Byte> { Head(|ms|) + (Table(ms) + Names(ms)) }

  lemma {:induction false} TableLength(ms: seq<Mapping>)
    ensures |Table(ms)| == 24 * |ms|
  {
    if ms != [] {
      TableLength(ms[1..]);
    }
  }

  // ----- reading it back -----

  predicate MappingOk(m: Mapping) { m.start < TWO64 && m.end < TWO64 && m.ofs < TWO64 && 0 !in m.name }

  predicate AllOk(ms: seq<Mapping>) { ms == [] || (MappingOk(ms[0]) && AllOk(ms[1..])) }

  /** Position of the first NUL from `at` on, or the length. */
  function NulAt(s: seq<Byte>, at: nat): (i: nat)
    requires at <= |s|
    ensures at <= i <= |s|
    decreases |s| - at
  {
    if at == |s| || s[at] == 0 then at else NulAt(s, at + 1)
  }

  function EntryAt(s: seq<Byte>, t: nat, n: nat): Mapping
    requires t + 24 <= |s| && n <= |s|
  {
    Mapping(Field(s, t, 8), Field(s, t + 8, 8), Field(s, t + 16, 8), s[n..NulAt(s, n)])
  }

  function NextName(s: seq<Byte>, n: nat): (r: nat)
    requires n <= |s|
    ensures r <= |s|
  {
    if NulAt(s, n) < |s| then NulAt(s, n) + 1 else |s|
  }

  /** `count` entries, the table standing at `t` and the names at `n`. */
  function ReadEntries(s: seq<Byte>, t: nat, n: nat, count: nat): seq<Mapping>
    requires t + 24 * count <= |s| && n <= |s|
    decreases count
  {
    if count == 0 then [] else [EntryAt(s, t, n)] + ReadEntries(s, t + 24, NextName(s, n), count - 1)
  }

  function ReadDesc(s: seq<Byte>): Option<seq<Mapping>> {
    if |s| < 16 || 16 + 24 * Field(s, 0, 8) > |s| then None
    else Some(ReadEntries(s, 16, 16 + 24 * Field(s, 0, 8), Field(s, 0, 8)))
  }

  lemma {:induction false} NulAfter(s: seq<Byte>, at: nat, name: seq<Byte>)
    requires Holds(s, at, name + [0]) && 0 !in name
    ensures NulAt(s, at) == at + |name|
    decreases |name|
  {
    Cut(s, at, name, [0]);
    if name == [] {
      assert s[at] == s[at..at + 1][0] == 0;
    } else {
      assert s[at] == s[at..at + |name|][0] == name[0];
      assert name == [name[0]] + name[1..];
      assert name + [0] == [name[0]] + (name[1..] + [0]);
      Cut(s, at, [name[0]], name[1..] + [0]);
      NulAfter(s, at + 1, name[1..]);
    }
  }

  lemma EntryBack(m: Mapping, s: seq<Byte>, t: nat, n: nat)
    requires MappingOk(m) && Holds(s, t, Triple(m)) && Holds(s, n, NameBytes(m))
    ensures t + 24 <= |s| && n <= |s| && EntryAt(s, t, n) == m && NextName(s, n) == n + |NameBytes(m)|
  {
    Ranges();
    Take(s, t, m.start, 8, Le(m.end, 8) + Le(m.ofs, 8));
    Take(s, t + 8, m.end, 8, Le(m.ofs, 8));
    assert Le(m.ofs, 8) + [] == Le(m.ofs, 8);
    Take(s, t + 16, m.ofs, 8, []);
    NulAfter(s, n, m.name);
    Cut(s, n, m.name, [0]);
  }

  predicate Reads(s: seq<Byte>, t: nat, n: nat, ms: seq<Mapping>) {
    t + 24 * |ms| <= |s| && n <= |s| && ReadEntries(s, t, n, |ms|) == ms
  }

  lemma ReadsMore(ms: seq<Mapping>, s: seq<Byte>, t: nat, n: nat, n1: nat)
    requires ms != [] && t + 24 <= |s| && n <= |s| && EntryAt(s, t, n) == ms[0] && NextName(s, n) == n1
    requires Reads(s, t + 24, n1, ms[1..])
    ensures Reads(s, t, n, ms)
  {
    assert ms == [ms[0]] + ms[1..];
  }

  lemma EntriesCut(ms: seq<Mapping>, s: seq<Byte>, t: nat, n: nat)
    requires ms != [] && Holds(s, t, Table(ms)) && Holds(s, n, Names(ms))
    ensures Holds(s, t, Triple(ms[0])) && Holds(s, t + 24, Table(ms[1..]))
    ensures Holds(s, n, NameBytes(ms[0])) && Holds(s, n + |NameBytes(ms[0])|, Names(ms[1..]))
  {
    Cut(s, t, Triple(ms[0]), Table(ms[1..]));
    Cut(s, n, NameBytes(ms[0]), Names(ms[1..]));
  }

  lemma {:induction false} EntriesBack(ms: seq<Mapping>, s: seq<Byte>, t: nat, n: nat)
    requires AllOk(ms) && Holds(s, t, Table(ms)) && Holds(s, n, Names(ms))
    ensures Reads(s, t, n, ms)
    decreases |ms|
  {
    if ms != [] {
      var n1 := n + |NameBytes(ms[0])|;
      EntriesCut(ms, s, t, n);
      EntryBack(ms[0], s, t, n);
      EntriesBack(ms[1..], s, t + 24, n1);
      ReadsMore(ms, s, t, n, n1);
    }
  }

  lemma CountBack(count: nat, s: seq<Byte>, rest: seq<Byte>)
    requires count < TWO64 && s == Head(count) + rest
    ensures Field(s, 0, 8) == count && Holds(s, 16, rest)
  {
    Ranges();
    assert Holds(s, 0, Head(count) + rest);
    Cut(s, 0, Head(count), rest);
    Take(s, 0, count, 8, Le(PAGE, 8));
  }

  lemma DescParts(ms: seq<Mapping>, s: seq<Byte>)
    requires |ms| < TWO64 && s == Desc(ms)
    ensures |s| >= 16 && Field(s, 0, 8) == |ms| && Holds(s, 16, Table(ms)) && Holds(s, 16 + 24 * |ms|, Names(ms))
  {
    CountBack(|ms|, s, Table(ms) + Names(ms));
    Cut(s, 16, Table(ms), Names(ms));
    TableLength(ms);
  }

  lemma DescRead(s: seq<Byte>, k: nat, n: nat, ms: seq<Mapping>)
    requires |s| >= 16 && Field(s, 0, 8) == k && n == 16 + 24 * k <= |s| && ReadEntries(s, 16, n, k) == ms
    ensures ReadDesc(s) == Some(ms)
  {
  }

  lemma DescAt(ms: seq<Mapping>, s: seq<Byte>, k: nat, n: nat)
    requires AllOk(ms) && |s| >= 16 && Field(s, 0, 8) == k == |ms| && n == 16 + 24 * k
    requires Holds(s, 16, Table(ms)) && Holds(s, n, Names(ms))
    ensures ReadDesc(s) == Some(ms)
  {
    EntriesBack(ms, s, 16, n);
    DescRead(s, k, n, ms);
  }

  lemma DescWhole(ms: seq<Mapping>, s: seq<Byte>)
    requires AllOk(ms) && |s| >= 16 && Field(s, 0, 8) == |ms|
    requires Holds(s, 16, Table(ms)) && Holds(s, 16 + 24 * |ms|, Names(ms))
    ensures ReadDesc(s) == Some(ms)
  {
    DescAt(ms, s, |ms|, 16 + 24 * |ms|);
  }

  /** Decoding the note gives exactly the mappings it was made of, in order. */
  lemma DescBack(ms: seq<Mapping>, s: seq<Byte>)
    requires AllOk(ms) && |ms| < TWO64 && s == Desc(ms)
    ensures ReadDesc(s) == Some(ms)
  {
    DescParts(ms, s);
    DescWhole(ms, s);
  }
}
