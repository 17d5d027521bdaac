/**
 The 64-bit little-endian ELF structures of a core file, and how a reader takes them apart
 again.  Notes follow "Note Section" in chapter 5 of the System V ABI.
 */
module ElfFormat {
  import opened Sequences

  type Byte = x: int | 0 <= x < 256

  // ----- numbers -----

  function Range(w: nat): nat { if w == 0 then 1 else 256 * Range(w - 1) }

  /** Digit `i` of `n` in base 256. */
  function Digit(n: nat, i: nat): Byte { if i == 0 then n % 256 else Digit(n / 256, i - 1) }

  /** `n` in `w` bytes, the lowest first. */
  function Le(n: nat, w: nat): (s: seq<Byte>)
    ensures |s| == w
  {
    seq(w, (i: nat) => Digit(n, i))
  }

  function Num(s: seq<Byte>): nat { if s == [] then 0 else s[0] + 256 * Num(s[1..]) }

  lemma {:induction false} NumLe(n: nat, w: nat)
    requires n < Range(w)
    ensures Num(Le(n, w)) == n
  {
    if w > 0 {
      NumLe(n / 256, w - 1);
      assert Le(n, w)[1..] == Le(n / 256, w - 1);
    }
  }

  const TWO16 := 0x1_0000
  const TWO32 := 0x1_0000_0000
  const TWO64 := 0x1_0000_0000_0000_0000

  lemma Ranges()
    ensures Range(2) == TWO16 && Range(4) == TWO32 && Range(8) == TWO64
  {
    assert Range(1) == 256 && Range(3) == 0x100_0000;
    assert Range(5) == 0x100_0000_0000 && Range(6) == 0x1_0000_0000_0000 && Range(7) == 0x100_0000_0000_0000;
  }

  /** The number of `w` bytes at position `at`. */
  function Field(s: seq<Byte>, at: nat, w: nat): nat
    requires at + w <= |s|
  {
    Num(s[at..at + w])
  }

  /** How many 4-byte words `n` bytes take. */
  function Words(n: nat): (w: nat)
    ensures n <= 4 * w < n + 4
  {
    (n + 3) / 4
  }

  /** `roundup(n, 4)`. */
  function RoundUp4(n: nat): nat { 4 * Words(n) }

  function Zeroes(n: nat): (s: seq<Byte>)
    ensures |s| == n
  {
    seq(n, _ => 0)
  }

  // ----- concatenations -----

  function Concat<T>(f: T -> seq<Byte>, xs: seq<T>): seq<Byte> {
    if xs == [] then [] else f(xs[0]) + Concat(f, xs[1..])
  }

  lemma {:induction false} ConcatAppend<T>(f: T -> seq<Byte>, a: seq<T>, b: seq<T>)
    ensures Concat(f, a + b) == Concat(f, a) + Concat(f, b)
  {
    if a == [] {
      assert a + b == b;
    } else {
      assert (a + b)[1..] == a[1..] + b;
      ConcatAppend(f, a[1..], b);
    }
  }

  lemma ConcatSplit<T>(f: T -> seq<Byte>, xs: seq<T>, i: nat)
    requires i <= |xs|
    ensures Concat(f, xs) == Concat(f, xs[..i]) + Concat(f, xs[i..])
  {
    var a, b := xs[..i], xs[i..];
    assert xs == a + b;
    ConcatAppend(f, a, b);
  }

  /** Encodings one after the other, each depending on the sizes before it. */
  function Running<T>(enc: (T, nat) -> seq<Byte>, size: T -> nat, xs: seq<T>, at: nat): seq<Byte> {
    if xs == [] then [] else enc(xs[0], at) + Running(enc, size, xs[1..], at + size(xs[0]))
  }

  lemma {:induction false} RunningAppend<T>(enc: (T, nat) -> seq<Byte>, size: T -> nat, a: seq<T>, b: seq<T>, at: nat)
    ensures Running(enc, size, a + b, at) == Running(enc, size, a, at) + Running(enc, size, b, at + Total(size, a))
    decreases |a|
  {
    if a == [] {
      assert a + b == b;
    } else {
      assert (a + b)[0] == a[0] && (a + b)[1..] == a[1..] + b;
      RunningAppend(enc, size, a[1..], b, at + size(a[0]));
    }
  }

  lemma RunningSplit<T>(enc: (T, nat) -> seq<Byte>, size: T -> nat, xs: seq<T>, i: nat, at: nat)
    requires i <= |xs|
    ensures Running(enc, size, xs, at) == Running(enc, size, xs[..i], at)
          + Running(enc, size, xs[i..], at + Total(size, xs[..i]))
  {
    var a, b := xs[..i], xs[i..];
    assert xs == a + b;
    RunningAppend(enc, size, a, b, at);
  }

  lemma RunningUpTo<T>(enc: (T, nat) -> seq<Byte>, size: T -> nat, xs: seq<T>, i: nat, at: nat)
    requires i < |xs|
    ensures Running(enc, size, xs[..i + 1], at) == Running(enc, size, xs[..i], at)
          + enc(xs[i], at + Total(size, xs[..i]))
  {
    var a, b, next := xs[..i], [xs[i]], at + Total(size, xs[..i]);
    assert xs[..i + 1] == a + b && b[1..] == [];
    RunningAppend(enc, size, a, b, at);
    assert Running(enc, size, b, next) == enc(xs[i], next) + Running(enc, size, [], next + size(xs[i]));
  }

  lemma ConcatUpTo<T>(f: T -> seq<Byte>, xs: seq<T>, i: nat)
    requires i < |xs|
    ensures Concat(f, xs[..i + 1]) == Concat(f, xs[..i]) + f(xs[i])
  {
    assert xs[..i + 1] == xs[..i] + [xs[i]] && [xs[i]][1..] == [];
    ConcatAppend(f, xs[..i], [xs[i]]);
    assert Concat(f, [xs[i]]) == f(xs[i]) + Concat(f, []);
  }

  // ----- structures -----

  const EHDR: nat := 64
  const PHDR: nat := 56
  const SHDR: nat := 64
  const NHDR: nat := 12
  const PT_LOAD: nat := 1
  const PT_NOTE: nat := 4
  const PN_XNUM: nat := 0xffff
  const PAGE: nat := 4096

  datatype Phdr = Phdr(kind: nat, flags: nat, offset: nat, vaddr: nat, paddr: nat, filesz: nat, memsz: nat, align: nat)

  predicate Fits(p: Phdr) {
    && p.kind < TWO32 && p.flags < TWO32 && p.offset < TWO64 && p.vaddr < TWO64 && p.paddr < TWO64
    && p.filesz < TWO64 && p.memsz < TWO64 && p.align < TWO64
  }

  function PhdrBytes(p: Phdr): (s: seq<Byte>)
    ensures |s| == PHDR
  {
    Le(p.kind, 4) + (Le(p.flags, 4) + (Le(p.offset, 8)
      + (Le(p.vaddr, 8) + (Le(p.paddr, 8) + (Le(p.filesz, 8) + (Le(p.memsz, 8) + Le(p.align, 8)))))))
  }

  function ReadPhdr(s: seq<Byte>, at: nat): Phdr
    requires at + PHDR <= |s|
  {
    Phdr(Field(s, at, 4), Field(s, at + 4, 4), Field(s, at + 8, 8), Field(s, at + 16, 8), Field(s, at + 24, 8),
         Field(s, at + 32, 8), Field(s, at + 40, 8), Field(s, at + 48, 8))
  }

  /** `t` stands at position `at` of `s`. */
  predicate Holds(s: seq<Byte>, at: nat, t: seq<Byte>) { at + |t| <= |s| && s[at..at + |t|] == t }

  lemma Cut(s: seq<Byte>, at: nat, a: seq<Byte>, b: seq<Byte>)
    requires Holds(s, at, a + b)
    ensures Holds(s, at, a) && Holds(s, at + |a|, b)
  {
    var t := s[at..at + |a + b|];
    assert s[at..at + |a|] == t[..|a|] == a;
    assert s[at + |a|..at + |a| + |b|] == t[|a|..] == b;
  }

  /** A number at the front of what stands at `at`. */
  lemma Take(s: seq<Byte>, at: nat, n: nat, w: nat, rest: seq<Byte>)
    requires Holds(s, at, Le(n, w) + rest) && n < Range(w)
    ensures at + w <= |s| && Field(s, at, w) == n && Holds(s, at + w, rest)
  {
    Cut(s, at, Le(n, w), rest);
    NumLe(n, w);
  }

  lemma PhdrBack(p: Phdr, s: seq<Byte>, at: nat)
    requires Fits(p) && Holds(s, at, PhdrBytes(p))
    ensures ReadPhdr(s, at) == p
  {
    Ranges();
    var t7 := Le(p.align, 8);
    var t6 := Le(p.memsz, 8) + t7;
    var t5 := Le(p.filesz, 8) + t6;
    var t4 := Le(p.paddr, 8) + t5;
    var t3 := Le(p.vaddr, 8) + t4;
    var t2 := Le(p.offset, 8) + t3;
    var t1 := Le(p.flags, 4) + t2;
    Take(s, at, p.kind, 4, t1);
    Take(s, at + 4, p.flags, 4, t2);
    Take(s, at + 8, p.offset, 8, t3);
    Take(s, at + 16, p.vaddr, 8, t4);
    Take(s, at + 24, p.paddr, 8, t5);
    Take(s, at + 32, p.filesz, 8, t6);
    Take(s, at + 40, p.memsz, 8, t7);
    assert t7 + [] == t7;
    Take(s, at + 48, p.align, 8, []);
  }

  /** Fields of the ELF header; the identification bytes and constant fields are `ident` and `common`. */
  datatype Ehdr = Ehdr(ident: seq<Byte>, common: seq<Byte>, phoff: nat, shoff: nat, flags: nat, ehsize: nat,
                       phentsize: nat, phnum: nat, shentsize: nat, shnum: nat, shstrndx: nat)

  predicate EhdrFits(e: Ehdr) {
    && |e.ident| == 16 && |e.common| == 16
    && e.phoff < TWO64 && e.shoff < TWO64 && e.flags < TWO32 && e.ehsize < TWO16 && e.phentsize < TWO16
    && e.phnum < TWO16 && e.shentsize < TWO16 && e.shnum < TWO16 && e.shstrndx < TWO16
  }

  function EhdrBytes(e: Ehdr): (s: seq<Byte>)
    ensures |e.ident| == 16 && |e.common| == 16 ==> |s| == EHDR
  {
    (e.ident + e.common) + (Le(e.phoff, 8) + (Le(e.shoff, 8)
      + ((Le(e.flags, 4) + Le(e.ehsize, 2)) + (Le(e.phentsize, 2) + (Le(e.phnum, 2)
      + (Le(e.shentsize, 2) + (Le(e.shnum, 2) + Le(e.shstrndx, 2))))))))
  }

  lemma EhdrBack(e: Ehdr, s: seq<Byte>, at: nat)
    requires EhdrFits(e) && Holds(s, at, EhdrBytes(e))
    ensures at + EHDR <= |s| && s[at..at + 16] == e.ident && s[at + 16..at + 32] == e.common
    ensures Field(s, at + 32, 8) == e.phoff && Field(s, at + 40, 8) == e.shoff && Field(s, at + 48, 4) == e.flags
    ensures Field(s, at + 52, 2) == e.ehsize && Field(s, at + 54, 2) == e.phentsize && Field(s, at + 56, 2) == e.phnum
    ensures Field(s, at + 58, 2) == e.shentsize && Field(s, at + 60, 2) == e.shnum
  {
    Ranges();
    var t7 := Le(e.shnum, 2) + Le(e.shstrndx, 2);
    var t6 := Le(e.shentsize, 2) + t7;
    var t5 := Le(e.phnum, 2) + t6;
    var t4 := Le(e.phentsize, 2) + t5;
    var t3 := (Le(e.flags, 4) + Le(e.ehsize, 2)) + t4;
    var t2 := Le(e.shoff, 8) + t3;
    var t1 := Le(e.phoff, 8) + t2;
    Cut(s, at, e.ident + e.common, t1);
    Cut(s, at, e.ident, e.common);
    Take(s, at + 32, e.phoff, 8, t2);
    Take(s, at + 40, e.shoff, 8, t3);
    Cut(s, at + 48, Le(e.flags, 4) + Le(e.ehsize, 2), t4);
    Take(s, at + 48, e.flags, 4, Le(e.ehsize, 2));
    assert Le(e.ehsize, 2) + [] == Le(e.ehsize, 2);
    Take(s, at + 52, e.ehsize, 2, []);
    Take(s, at + 54, e.phentsize, 2, t5);
    Take(s, at + 56, e.phnum, 2, t6);
    Take(s, at + 58, e.shentsize, 2, t7);
    Take(s, at + 60, e.shnum, 2, Le(e.shstrndx, 2));
  }

  /** The section header of extended numbering: all zero but the size, the link and the count. */
  function ShdrBytes(shnum: nat, shstrndx: nat, segs: nat): (s: seq<Byte>)
    ensures |s| == SHDR
  {
    Zeroes(32) + (Le(shnum, 8) + (Le(shstrndx, 4) + (Le(segs, 4) + Zeroes(16))))
  }

  lemma ShdrBack(shnum: nat, shstrndx: nat, segs: nat, s: seq<Byte>, at: nat)
    requires shnum < TWO64 && shstrndx < TWO32 && segs < TWO32 && Holds(s, at, ShdrBytes(shnum, shstrndx, segs))
    ensures at + SHDR <= |s| && Field(s, at + 32, 8) == shnum && Field(s, at + 40, 4) == shstrndx
    ensures Field(s, at + 44, 4) == segs
  {
    Ranges();
    Cut(s, at, Zeroes(32), Le(shnum, 8) + (Le(shstrndx, 4) + (Le(segs, 4) + Zeroes(16))));
    Take(s, at + 32, shnum, 8, Le(shstrndx, 4) + (Le(segs, 4) + Zeroes(16)));
    Take(s, at + 40, shstrndx, 4, Le(segs, 4) + Zeroes(16));
    Take(s, at + 44, segs, 4, Zeroes(16));
  }

  // ----- notes -----

  /** `name` is without its terminating NUL. */
  datatype Note = Note(name: seq<Byte>, kind: nat, desc: seq<Byte>)

  predicate NoteFits(n: Note) { |n.name| + 1 < TWO32 && n.kind < TWO32 && |n.desc| < TWO32 }

  /** `notesize`. */
  function NoteSize(n: Note): nat { NHDR + RoundUp4(|n.name| + 1) + RoundUp4(|n.desc|) }

  function Padded(s: seq<Byte>): (r: seq<Byte>)
    ensures |r| == RoundUp4(|s|)
  {
    s + Zeroes(RoundUp4(|s|) - |s|)
  }

  function NoteHead(namesz: nat, descsz: nat, kind: nat): (s: seq<Byte>)
    ensures |s| == NHDR
  {
    Le(namesz, 4) + (Le(descsz, 4) + Le(kind, 4))
  }

  function NoteBytes(n: Note): (s: seq<Byte>)
    ensures |s| == NoteSize(n)
  {
    NoteHead(|n.name| + 1, |n.desc|, n.kind) + (Padded(n.name + [0]) + Padded(n.desc))
  }

  function NotesBytes(ns: seq<Note>): seq<Byte> { Concat(NoteBytes, ns) }

  function NotesSize(ns: seq<Note>): nat { if ns == [] then 0 else NoteSize(ns[0]) + NotesSize(ns[1..]) }

  lemma {:induction false} NotesLength(ns: seq<Note>)
    ensures |NotesBytes(ns)| == NotesSize(ns) == 4 * NotesWords(ns)
  {
    if ns != [] {
      NotesLength(ns[1..]);
    }
  }

  function NotesWords(ns: seq<Note>): nat {
    if ns == [] then 0 else 3 + Words(|ns[0].name| + 1) + Words(|ns[0].desc|) + NotesWords(ns[1..])
  }

  /** Where the note after the one at `at` starts, by the sizes in its header. */
  function NextNote(s: seq<Byte>, at: nat): nat
    requires at + NHDR <= |s|
  {
    at + NHDR + RoundUp4(Field(s, at, 4)) + RoundUp4(Field(s, at + 4, 4))
  }

  function NoteAt(s: seq<Byte>, at: nat): Note
    requires at + NHDR <= |s| && Field(s, at, 4) > 0 && NextNote(s, at) <= |s|
  {
    var namesz, descsz := Field(s, at, 4), Field(s, at + 4, 4);
    var desc := at + NHDR + RoundUp4(namesz);
    Note(s[at + NHDR..at + NHDR + namesz - 1], Field(s, at + 8, 4), s[desc..desc + descsz])
  }

  /** A reader of a note segment between positions `at` and `end`. */
  function ReadNotes(s: seq<Byte>, at: nat, end: nat): seq<Note>
    requires at <= end <= |s|
    decreases end - at
  {
    if at + NHDR > end || Field(s, at, 4) == 0 || NextNote(s, at) > end then []
    else [NoteAt(s, at)] + ReadNotes(s, NextNote(s, at), end)
  }

  lemma HeadBack(namesz: nat, descsz: nat, kind: nat, s: seq<Byte>, at: nat)
    requires namesz < TWO32 && descsz < TWO32 && kind < TWO32 && Holds(s, at, NoteHead(namesz, descsz, kind))
    ensures Field(s, at, 4) == namesz && Field(s, at + 4, 4) == descsz && Field(s, at + 8, 4) == kind
  {
    Ranges();
    Take(s, at, namesz, 4, Le(descsz, 4) + Le(kind, 4));
    Take(s, at + 4, descsz, 4, Le(kind, 4));
    assert Le(kind, 4) + [] == Le(kind, 4);
    Take(s, at + 8, kind, 4, []);
  }

  lemma PaddedBack(t: seq<Byte>, s: seq<Byte>, at: nat)
    requires Holds(s, at, Padded(t))
    ensures Holds(s, at, t)
  {
    Cut(s, at, t, Zeroes(RoundUp4(|t|) - |t|));
  }

  lemma NoteBack(n: Note, s: seq<Byte>, at: nat)
    requires NoteFits(n) && Holds(s, at, NoteBytes(n))
    ensures at + NoteSize(n) <= |s|
    ensures Field(s, at, 4) == |n.name| + 1 && Field(s, at + 4, 4) == |n.desc| && Field(s, at + 8, 4) == n.kind
    ensures Holds(s, at + NHDR, n.name) && Holds(s, at + NHDR + RoundUp4(|n.name| + 1), n.desc)
  {
    var name, desc := n.name + [0], n.desc;
    Cut(s, at, NoteHead(|name|, |desc|, n.kind), Padded(name) + Padded(desc));
    HeadBack(|name|, |desc|, n.kind, s, at);
    Cut(s, at + NHDR, Padded(name), Padded(desc));
    PaddedBack(name, s, at + NHDR);
    Cut(s, at + NHDR, n.name, [0]);
    PaddedBack(desc, s, at + NHDR + RoundUp4(|name|));
  }

  lemma NoteIsRead(n: Note, s: seq<Byte>, at: nat)
    requires NoteFits(n) && Holds(s, at, NoteBytes(n))
    ensures Field(s, at, 4) > 0 && NextNote(s, at) == at + NoteSize(n) <= |s| && NoteAt(s, at) == n
  {
    NoteBack(n, s, at);
  }

  lemma ReadOne(n: Note, s: seq<Byte>, at: nat, mid: nat, end: nat)
    requires NoteFits(n) && Holds(s, at, NoteBytes(n)) && mid == at + NoteSize(n) <= end <= |s|
    ensures ReadNotes(s, at, end) == [n] + ReadNotes(s, mid, end)
  {
    assert Field(s, at, 4) > 0 && NextNote(s, at) == mid && NoteAt(s, at) == n by {
      NoteIsRead(n, s, at);
    }
  }

  predicate AllFit(ns: seq<Note>) { ns == [] || (NoteFits(ns[0]) && AllFit(ns[1..])) }

  /** Reading from `at` to `end` gives `ns`. */
  predicate Gives(s: seq<Byte>, at: nat, end: nat, ns: seq<Note>) { at <= end <= |s| && ReadNotes(s, at, end) == ns }

  lemma ReadMore(ns: seq<Note>, s: seq<Byte>, at: nat, mid: nat, end: nat)
    requires ns != [] && NoteFits(ns[0]) && Holds(s, at, NoteBytes(ns[0])) && mid == at + NoteSize(ns[0])
    requires Gives(s, mid, end, ns[1..])
    ensures Gives(s, at, end, ns)
  {
    ReadOne(ns[0], s, at, mid, end);
    assert ns == [ns[0]] + ns[1..];
  }

  lemma NotesCut(ns: seq<Note>, s: seq<Byte>, at: nat)
    requires ns != [] && Holds(s, at, NotesBytes(ns))
    ensures |NotesBytes(ns)| == NoteSize(ns[0]) + |NotesBytes(ns[1..])|
    ensures Holds(s, at, NoteBytes(ns[0])) && Holds(s, at + NoteSize(ns[0]), NotesBytes(ns[1..]))
  {
    Cut(s, at, NoteBytes(ns[0]), NotesBytes(ns[1..]));
  }

  lemma {:induction false} NotesRead(ns: seq<Note>, s: seq<Byte>, at: nat, end: nat)
    requires Holds(s, at, NotesBytes(ns)) && end == at + |NotesBytes(ns)| && AllFit(ns)
    ensures Gives(s, at, end, ns)
    decreases |ns|
  {
    if ns != [] {
      NotesCut(ns, s, at);
      var mid := at + NoteSize(ns[0]);
      NotesRead(ns[1..], s, mid, end);
      ReadMore(ns, s, at, mid, end);
    }
  }

  /** Reading the notes back gives what was written. */
  lemma NotesBack(ns: seq<Note>, s: seq<Byte>, at: nat)
    requires Holds(s, at, NotesBytes(ns)) && AllFit(ns)
    ensures ReadNotes(s, at, at + |NotesBytes(ns)|) == ns
  {
    NotesRead(ns, s, at, at + |NotesBytes(ns)|);
  }
}
