/**
 The core file of a process as one sequence of bytes, and what a reader finds in it: its
 program headers point at exactly the notes and the memory they describe.
 */
module CoreFile {
  import opened Wrappers
  import opened Sequences
  import opened ElfFormat

  /** What `vma_dump_size` decides. */
  datatype Choice = Nothing | FirstPage | Whole

  /** A mapping; a page that `get_dump_page` does not return is `None` and reads as zeroes. */
  datatype Vma = Vma(start: nat, pages: seq<Option<seq<Byte>>>, flags: nat, choice: Choice)

  predicate VmaOk(v: Vma) {
    && v.pages != [] && v.start + PAGE * |v.pages| < TWO64 && v.flags < 8
    && forall i :: 0 <= i < |v.pages| && v.pages[i].Some? ==> |v.pages[i].value| == PAGE
  }

  function DumpPages(v: Vma): nat {
    match v.choice
    case Nothing => 0
    case FirstPage => if v.pages == [] then 0 else 1
    case Whole => |v.pages|
  }

  /** `vma_dump_size`. */
  function FileSize(v: Vma): nat { PAGE * DumpPages(v) }

  function PageBytes(p: Option<seq<Byte>>): seq<Byte> { if p.Some? then p.value else Zeroes(PAGE) }

  function PagesBytes(ps: seq<Option<seq<Byte>>>): seq<Byte> { Concat(PageBytes, ps) }

  function Data(v: Vma): seq<Byte> { PagesBytes(v.pages[..DumpPages(v)]) }

  lemma {:induction false} PagesLength(ps: seq<Option<seq<Byte>>>)
    requires forall i :: 0 <= i < |ps| && ps[i].Some? ==> |ps[i].value| == PAGE
    ensures |PagesBytes(ps)| == PAGE * |ps|
  {
    if ps != [] {
      PagesLength(ps[1..]);
    }
  }

  lemma DataLength(v: Vma)
    requires VmaOk(v)
    ensures |Data(v)| == FileSize(v)
  {
    PagesLength(v.pages[..DumpPages(v)]);
  }

  function AllData(vs: seq<Vma>): seq<Byte> { Concat(Data, vs) }

  function TotalSize(vs: seq<Vma>): nat { Total(FileSize, vs) }

  predicate AllOk(vs: seq<Vma>) { vs == [] || (VmaOk(vs[0]) && AllOk(vs[1..])) }

  lemma {:induction false} AllDataLength(vs: seq<Vma>)
    requires AllOk(vs)
    ensures |AllData(vs)| == TotalSize(vs)
  {
    if vs != [] {
      DataLength(vs[0]);
      AllDataLength(vs[1..]);
    }
  }

  // ----- program headers -----

  function LoadPhdr(v: Vma, offset: nat): Phdr {
    Phdr(PT_LOAD, v.flags, offset, v.start, 0, FileSize(v), PAGE * |v.pages|, PAGE)
  }

  function NotePhdr(offset: nat, size: nat): Phdr { Phdr(PT_NOTE, 0, offset, 0, 0, size, 0, 0) }

  function LoadHeader(v: Vma, offset: nat): seq<Byte> { PhdrBytes(LoadPhdr(v, offset)) }

  /** The headers of the mappings, the data of the first one at `offset`. */
  function LoadBytes(vs: seq<Vma>, offset: nat): seq<Byte> { Running(LoadHeader, FileSize, vs, offset) }

  lemma {:induction false} LoadLength(vs: seq<Vma>, offset: nat)
    ensures |LoadBytes(vs, offset)| == PHDR * |vs|
    decreases |vs|
  {
    if vs != [] {
      LoadLength(vs[1..], offset + FileSize(vs[0]));
    }
  }

  /** Where the data of mapping `i` goes when the first one's goes to `offset`. */
  function OffsetOf(vs: seq<Vma>, offset: nat, i: nat): (r: nat)
    requires i < |vs|
    ensures r >= offset
  {
    if i == 0 then offset else OffsetOf(vs[1..], offset + FileSize(vs[0]), i - 1)
  }

  lemma LoadCut(vs: seq<Vma>, offset: nat, s: seq<Byte>, at: nat)
    requires vs != [] && Holds(s, at, LoadBytes(vs, offset))
    ensures Holds(s, at, PhdrBytes(LoadPhdr(vs[0], offset)))
    ensures Holds(s, at + PHDR, LoadBytes(vs[1..], offset + FileSize(vs[0])))
  {
    Cut(s, at, PhdrBytes(LoadPhdr(vs[0], offset)), LoadBytes(vs[1..], offset + FileSize(vs[0])));
  }

  lemma {:induction false} LoadAt(vs: seq<Vma>, offset: nat, s: seq<Byte>, at: nat, i: nat, h: Phdr)
    requires i < |vs| && Holds(s, at, LoadBytes(vs, offset)) && h == LoadPhdr(vs[i], OffsetOf(vs, offset, i))
    ensures Holds(s, at + PHDR * i, PhdrBytes(h))
    decreases i
  {
    LoadCut(vs, offset, s, at);
    if i > 0 {
      LoadAt(vs[1..], offset + FileSize(vs[0]), s, at + PHDR, i - 1, h);
    }
  }

  /** The offsets recorded in the headers are where the data is. */
  lemma {:induction false} DataAt(vs: seq<Vma>, s: seq<Byte>, at: nat, i: nat)
    requires i < |vs| && AllOk(vs) && Holds(s, at, AllData(vs))
    ensures VmaOk(vs[i]) && Holds(s, OffsetOf(vs, at, i), Data(vs[i]))
    decreases i
  {
    DataLength(vs[0]);
    Cut(s, at, Data(vs[0]), AllData(vs[1..]));
    if i > 0 {
      DataAt(vs[1..], s, at + FileSize(vs[0]), i - 1);
    }
  }

  lemma {:induction false} OffsetAligned(vs: seq<Vma>, offset: nat, i: nat, k: nat)
    requires i < |vs| && offset == PAGE * k
    ensures OffsetOf(vs, offset, i) % PAGE == 0
    decreases i
  {
    if i > 0 {
      OffsetAligned(vs[1..], offset + FileSize(vs[0]), i - 1, k + DumpPages(vs[0]));
    }
  }

  // ----- the file -----

  /** `ident`, `common` and `eflags` are the parts of the ELF header the layout does not depend on. */
  datatype Process = Process(notes: seq<Note>, mmap: seq<Vma>, gate: Option<Vma>, ident: seq<Byte>,
                             common: seq<Byte>, eflags: nat)

  function Visited(p: Process): seq<Vma> { p.mmap + if p.gate.Some? then [p.gate.value] else [] }

  function Segs(p: Process): nat { |Visited(p)| + 1 }

  /** `e_phnum`. */
  function Phnum(segs: nat): nat { if segs > PN_XNUM then PN_XNUM else segs }

  function Pages(n: nat): (k: nat)
    ensures n <= PAGE * k < n + PAGE
  {
    (n + PAGE - 1) / PAGE
  }

  function NoteOff(p: Process): nat { EHDR + PHDR * Segs(p) }

  function DataOff(p: Process): nat { PAGE * Pages(NoteOff(p) + NotesSize(p.notes)) }

  function Shoff(p: Process): nat { DataOff(p) + TotalSize(Visited(p)) }

  function Header(p: Process): Ehdr {
    if Phnum(Segs(p)) == PN_XNUM
    then Ehdr(p.ident, p.common, EHDR, Shoff(p), p.eflags, EHDR, PHDR, PN_XNUM, SHDR, 1, 0)
    else Ehdr(p.ident, p.common, EHDR, 0, p.eflags, EHDR, PHDR, Segs(p), 0, 0, 0)
  }

  function Trailer(p: Process): seq<Byte> { if Phnum(Segs(p)) == PN_XNUM then ShdrBytes(1, 0, Segs(p)) else [] }

  function Assemble(eh: seq<Byte>, nh: seq<Byte>, lh: seq<Byte>, nb: seq<Byte>, gap: nat, db: seq<Byte>,
                    tb: seq<Byte>): seq<Byte> {
    eh + (nh + (lh + (nb + (Zeroes(gap) + (db + tb)))))
  }

  /** The parts of a file at the offsets their lengths give. */
  lemma Assembled(eh: seq<Byte>, nh: seq<Byte>, lh: seq<Byte>, nb: seq<Byte>, gap: nat, db: seq<Byte>, tb: seq<Byte>,
                  f: seq<Byte>,
                  nhAt: nat, lhAt: nat, nbAt: nat, dbAt: nat, tbAt: nat)
    requires f == Assemble(eh, nh, lh, nb, gap, db, tb)
    requires nhAt == |eh| && lhAt == nhAt + |nh| && nbAt == lhAt + |lh| && dbAt == nbAt + |nb| + gap
    requires tbAt == dbAt + |db|
    ensures Holds(f, 0, eh) && Holds(f, nhAt, nh) && Holds(f, lhAt, lh) && Holds(f, nbAt, nb)
    ensures Holds(f, dbAt, db) && Holds(f, tbAt, tb)
  {
    var t5 := db + tb;
    var t4 := Zeroes(gap) + t5;
    var t3 := nb + t4;
    var t2 := lh + t3;
    var t1 := nh + t2;
    assert Holds(f, 0, eh + t1);
    Cut(f, 0, eh, t1);
    Cut(f, nhAt, nh, t2);
    Cut(f, lhAt, lh, t3);
    Cut(f, nbAt, nb, t4);
    Cut(f, nbAt + |nb|, Zeroes(gap), t5);
    Cut(f, dbAt, db, tb);
  }

  function File(p: Process): seq<Byte> {
    Assemble(EhdrBytes(Header(p)), PhdrBytes(NotePhdr(NoteOff(p), NotesSize(p.notes))),
      LoadBytes(Visited(p), DataOff(p)),
             NotesBytes(p.notes), DataOff(p) - NoteOff(p) - NotesSize(p.notes), AllData(Visited(p)), Trailer(p))
  }

  predicate Dumpable(p: Process) {
    && |p.ident| == 16 && |p.common| == 16 && p.eflags < TWO32
    && AllFit(p.notes) && NotesSize(p.notes) < 0x8000_0000 && AllOk(Visited(p)) && Segs(p) < 0x8000_0000
    && Shoff(p) + SHDR < 0x8000_0000_0000_0000
  }

  /** A reader's count of program headers, by the rule for extended numbering. */
  function ReadCount(s: seq<Byte>): Option<nat> {
    if |s| < EHDR then None
    else if Field(s, 56, 2) != PN_XNUM then Some(Field(s, 56, 2))
    else if Field(s, 40, 8) + SHDR > |s| then None
    else Some(Field(s, Field(s, 40, 8) + 44, 4))
  }

  lemma HeadersLength(p: Process)
    requires Dumpable(p)
    ensures |EhdrBytes(Header(p))| == EHDR && |LoadBytes(Visited(p), DataOff(p))| == PHDR * |Visited(p)|
    ensures |NotesBytes(p.notes)| == NotesSize(p.notes) && |AllData(Visited(p))| == TotalSize(Visited(p))
  {
    LoadLength(Visited(p), DataOff(p));
    NotesLength(p.notes);
    AllDataLength(Visited(p));
  }

  /** The parts of the file, each at its place. */
  predicate Laid(p: Process, f: seq<Byte>) {
    && Holds(f, 0, EhdrBytes(Header(p)))
    && Holds(f, EHDR, PhdrBytes(NotePhdr(NoteOff(p), NotesSize(p.notes))))
    && Holds(f, EHDR + PHDR, LoadBytes(Visited(p), DataOff(p)))
    && Holds(f, NoteOff(p), NotesBytes(p.notes))
    && Holds(f, DataOff(p), AllData(Visited(p)))
    && Holds(f, Shoff(p), Trailer(p))
  }

  lemma Layout(p: Process, f: seq<Byte>)
    requires Dumpable(p) && f == File(p)
    ensures Laid(p, f)
  {
    var eh, nh, lh := EhdrBytes(Header(p)), PhdrBytes(NotePhdr(NoteOff(p), NotesSize(p.notes))),
          LoadBytes(Visited(p), DataOff(p));
    var gap := DataOff(p) - NoteOff(p) - NotesSize(p.notes);
    HeadersLength(p);
    Assembled(eh, nh, lh, NotesBytes(p.notes), gap, AllData(Visited(p)), Trailer(p), f,
              EHDR, EHDR + PHDR, NoteOff(p), DataOff(p), Shoff(p));
  }

  lemma CountIn(p: Process, f: seq<Byte>)
    requires Dumpable(p) && Holds(f, 0, EhdrBytes(Header(p))) && Holds(f, Shoff(p), Trailer(p))
    ensures ReadCount(f) == Some(Segs(p))
  {
    EhdrBack(Header(p), f, 0);
    if Phnum(Segs(p)) == PN_XNUM {
      ShdrBack(1, 0, Segs(p), f, Shoff(p));
    }
  }

  /** A reader counts one program header for the notes and one for every mapping visited. */
  lemma CountReadBack(p: Process)
    requires Dumpable(p)
    ensures ReadCount(File(p)) == Some(1 + |p.mmap| + if p.gate.Some? then 1 else 0)
  {
    Layout(p, File(p));
    CountIn(p, File(p));
  }

  lemma NotesIn(p: Process, f: seq<Byte>)
    requires Dumpable(p) && Holds(f, NoteOff(p), NotesBytes(p.notes))
    ensures Gives(f, NoteOff(p), NoteOff(p) + NotesSize(p.notes), p.notes)
  {
    NotesLength(p.notes);
    NotesRead(p.notes, f, NoteOff(p), NoteOff(p) + NotesSize(p.notes));
  }

  lemma NotesPoint(p: Process, f: seq<Byte>)
    requires Dumpable(p) && f == File(p)
    ensures EHDR + PHDR <= |f| && ReadPhdr(f, EHDR) == NotePhdr(NoteOff(p), NotesSize(p.notes))
    ensures Gives(f, NoteOff(p), NoteOff(p) + NotesSize(p.notes), p.notes)
  {
    assert Laid(p, f) by {
      Layout(p, f);
    }
    PhdrBack(NotePhdr(NoteOff(p), NotesSize(p.notes)), f, EHDR);
    NotesIn(p, f);
  }

  lemma NotesFrom(p: Process, f: seq<Byte>, h: Phdr)
    requires h == NotePhdr(NoteOff(p), NotesSize(p.notes))
    requires Gives(f, NoteOff(p), NoteOff(p) + NotesSize(p.notes), p.notes)
    ensures h.kind == 4 && h.flags == h.vaddr == h.paddr == h.memsz == h.align == 0
    ensures h.offset == 64 + 56 * (1 + |p.mmap| + if p.gate.Some? then 1 else 0)
    ensures Gives(f, h.offset, h.offset + h.filesz, p.notes)
  {
  }

  /** The first program header gives the place and size of the notes, and reading them there gives the notes. */
  lemma NotesReadBack(p: Process, f: seq<Byte>) returns (h: Phdr)
    requires Dumpable(p) && f == File(p)
    ensures |f| >= 64 + 56 && h == ReadPhdr(f, 64)
    ensures h.kind == 4 && h.flags == h.vaddr == h.paddr == h.memsz == h.align == 0
    ensures h.offset == 64 + 56 * (1 + |p.mmap| + if p.gate.Some? then 1 else 0)
    ensures Gives(f, h.offset, h.offset + h.filesz, p.notes)
  {
    NotesPoint(p, f);
    h := ReadPhdr(f, 64);
    NotesFrom(p, f, h);
  }

  lemma SegmentHeader(p: Process, f: seq<Byte>, i: nat)
    requires Dumpable(p) && Holds(f, EHDR + PHDR, LoadBytes(Visited(p), DataOff(p))) && i < |Visited(p)|
    requires VmaOk(Visited(p)[i])
    ensures EHDR + PHDR * (i + 2) <= |f|
    ensures ReadPhdr(f, EHDR + PHDR * (i + 1)) == LoadPhdr(Visited(p)[i], OffsetOf(Visited(p), DataOff(p), i))
  {
    var h := LoadPhdr(Visited(p)[i], OffsetOf(Visited(p), DataOff(p), i));
    LoadAt(Visited(p), DataOff(p), f, EHDR + PHDR, i, h);
    OffsetBound(Visited(p), DataOff(p), i);
    PhdrBack(h, f, EHDR + PHDR * (i + 1));
  }

  /** Header `i + 1` of `f` is that of `v`, and what is dumped of it lies at the offset given there. */
  predicate Points(f: seq<Byte>, i: nat, v: Vma) {
    && EHDR + PHDR * (i + 2) <= |f|
    && var h := ReadPhdr(f, EHDR + PHDR * (i + 1));
      && h == LoadPhdr(v, h.offset) && h.offset % PAGE == 0 && |Data(v)| == h.filesz && Holds(f, h.offset, Data(v))
  }

  lemma SegmentIn(p: Process, f: seq<Byte>, i: nat)
    requires Dumpable(p) && i < |Visited(p)|
    requires Holds(f, EHDR + PHDR, LoadBytes(Visited(p), DataOff(p))) && Holds(f, DataOff(p), AllData(Visited(p)))
    ensures VmaOk(Visited(p)[i]) && Points(f, i, Visited(p)[i])
  {
    DataAt(Visited(p), f, DataOff(p), i);
    assert |Data(Visited(p)[i])| == FileSize(Visited(p)[i]) by {
      DataLength(Visited(p)[i]);
    }
    SegmentHeader(p, f, i);
    OffsetAligned(Visited(p), DataOff(p), i, Pages(NoteOff(p) + NotesSize(p.notes)));
  }

  lemma SegmentPoints(p: Process, f: seq<Byte>, i: nat)
    requires Dumpable(p) && f == File(p) && i < |Visited(p)|
    ensures VmaOk(Visited(p)[i]) && Points(f, i, Visited(p)[i])
  {
    assert Laid(p, f) by {
      Layout(p, f);
    }
    SegmentIn(p, f, i);
  }

  /** Mapping `i` of a process: those of its list in order, and the gate mapping last. */
  function Mapping(p: Process, i: nat): Vma
    requires i < |p.mmap| + if p.gate.Some? then 1 else 0
  {
    if i < |p.mmap| then p.mmap[i] else p.gate.value
  }

  /**
   Every program header but the first describes its mapping field by field, and the range it gives
   lies inside the file at a multiple of the page size.
   */
  lemma SegmentReadBack(p: Process, f: seq<Byte>, i: nat)
    requires Dumpable(p) && f == File(p) && i < |p.mmap| + if p.gate.Some? then 1 else 0
    ensures 64 + 56 * (i + 2) <= |f|
    ensures var h, v := ReadPhdr(f, 64 + 56 * (i + 1)), Mapping(p, i);
      && h.kind == 1 && h.flags == v.flags && h.vaddr == v.start && h.paddr == 0
      && h.memsz == 4096 * |v.pages| && h.align == 4096
      && (h.filesz == match v.choice case Nothing => 0 case FirstPage => 4096 case Whole => 4096 * |v.pages|)
      && h.offset % 4096 == 0 && h.offset + h.filesz <= |f|
  {
    SegmentPoints(p, f, i);
  }

  lemma {:induction false} PageIn(ps: seq<Option<seq<Byte>>>, j: nat, b: nat)
    requires forall i :: 0 <= i < |ps| && ps[i].Some? ==> |ps[i].value| == PAGE
    requires j < |ps| && b < PAGE
    ensures |PagesBytes(ps)| == PAGE * |ps|
    ensures PAGE * j + b < |PagesBytes(ps)| && PagesBytes(ps)[PAGE * j + b] == if ps[j].Some? then ps[j].value[b] else 0
    decreases j
  {
    PagesLength(ps);
    if j > 0 {
      PageIn(ps[1..], j - 1, b);
      assert |PageBytes(ps[0])| == PAGE;
    }
  }

  lemma PageFound(f: seq<Byte>, i: nat, v: Vma, j: nat, b: nat)
    requires VmaOk(v) && Points(f, i, v) && j < DumpPages(v) && b < PAGE
    ensures var h := ReadPhdr(f, EHDR + PHDR * (i + 1));
      && h.offset + PAGE * j + b < |f|
      && f[h.offset + PAGE * j + b] == if v.pages[j].Some? then v.pages[j].value[b] else 0
  {
    var at, ps := ReadPhdr(f, EHDR + PHDR * (i + 1)).offset, v.pages[..DumpPages(v)];
    PageIn(ps, j, b);
    assert f[at..at + |Data(v)|][PAGE * j + b] == f[at + PAGE * j + b];
  }

  /** Every byte of every page dumped is where the header says: the page's own byte, or zero if the page was absent. */
  lemma PageReadBack(p: Process, f: seq<Byte>, i: nat, j: nat, b: nat)
    requires Dumpable(p) && f == File(p) && i < |p.mmap| + if p.gate.Some? then 1 else 0
    requires match Mapping(p, i).choice
      case Nothing => false case FirstPage => j == 0 case Whole => j < |Mapping(p, i).pages|
    requires b < 4096
    ensures 64 + 56 * (i + 2) <= |f| && j < |Mapping(p, i).pages|
    ensures var h, page := ReadPhdr(f, 64 + 56 * (i + 1)), Mapping(p, i).pages[j];
      && (page.Some? ==> |page.value| == 4096) && h.offset + 4096 * j + b < |f|
      && f[h.offset + 4096 * j + b] == if page.Some? then page.value[b] else 0
  {
    SegmentPoints(p, f, i);
    PageFound(f, i, Mapping(p, i), j, b);
  }

  lemma FileLength(p: Process)
    requires Dumpable(p)
    ensures |File(p)| == Shoff(p) + |Trailer(p)|
  {
    HeadersLength(p);
  }

  /** What the ELF header says when it is `e`. */
  predicate HeaderReads(f: seq<Byte>, p: Process, e: Ehdr) {
    && |f| >= 64 && f[..16] == p.ident && f[16..32] == p.common && Field(f, 48, 4) == p.eflags
    && Field(f, 32, 8) == 64 && Field(f, 52, 2) == 64 && Field(f, 54, 2) == 56
    && Field(f, 56, 2) == e.phnum && Field(f, 40, 8) == e.shoff && Field(f, 58, 2) == e.shentsize
    && Field(f, 60, 2) == e.shnum
  }

  lemma HeaderIn(p: Process, f: seq<Byte>)
    requires Dumpable(p) && Holds(f, 0, EhdrBytes(Header(p)))
    ensures HeaderReads(f, p, Header(p))
  {
    EhdrBack(Header(p), f, 0);
  }

  lemma TrailerIn(p: Process, f: seq<Byte>, at: nat)
    requires Dumpable(p) && Segs(p) >= PN_XNUM && at == Shoff(p) && Holds(f, at, Trailer(p))
    ensures at + 64 <= |f| && Field(f, at + 32, 8) == 1 && Field(f, at + 40, 4) == 0 && Field(f, at + 44, 4) == Segs(p)
  {
    ShdrBack(1, 0, Segs(p), f, at);
  }

  lemma HeaderFields(p: Process, f: seq<Byte>, segs: nat, end: nat)
    requires Dumpable(p) && segs == Segs(p) && end == |f| == Shoff(p) + |Trailer(p)|
    requires Holds(f, 0, EhdrBytes(Header(p))) && Holds(f, Shoff(p), Trailer(p))
    ensures |f| >= 64 && f[..16] == p.ident && f[16..32] == p.common && Field(f, 48, 4) == p.eflags
    ensures Field(f, 32, 8) == 64 && Field(f, 52, 2) == 64 && Field(f, 54, 2) == 56
    ensures segs < 0xffff ==>
      Field(f, 56, 2) == segs && Field(f, 40, 8) == 0 && Field(f, 58, 2) == 0 && Field(f, 60, 2) == 0
    ensures segs >= 0xffff ==>
      && Field(f, 56, 2) == 0xffff && Field(f, 40, 8) + 64 == end && Field(f, 58, 2) == 64 && Field(f, 60, 2) == 1
      && Field(f, end - 32, 8) == 1 && Field(f, end - 24, 4) == 0 && Field(f, end - 20, 4) == segs
  {
    HeaderIn(p, f);
    if segs >= 0xffff {
      TrailerIn(p, f, end - 64);
    }
  }

  /**
   The ELF header says where the tables are and how long their entries are; from 0xffff program
   headers on a section header at the very end of the file holds their number.
   */
  lemma HeaderReadBack(p: Process, f: seq<Byte>, segs: nat, end: nat)
    requires Dumpable(p) && f == File(p) && segs == 1 + |p.mmap| + (if p.gate.Some? then 1 else 0) && end == |f|
    ensures |f| >= 64 && f[..16] == p.ident && f[16..32] == p.common && Field(f, 48, 4) == p.eflags
    ensures Field(f, 32, 8) == 64 && Field(f, 52, 2) == 64 && Field(f, 54, 2) == 56
    ensures segs < 0xffff ==>
      Field(f, 56, 2) == segs && Field(f, 40, 8) == 0 && Field(f, 58, 2) == 0 && Field(f, 60, 2) == 0
    ensures segs >= 0xffff ==>
      && Field(f, 56, 2) == 0xffff && Field(f, 40, 8) + 64 == end && Field(f, 58, 2) == 64 && Field(f, 60, 2) == 1
      && Field(f, end - 32, 8) == 1 && Field(f, end - 24, 4) == 0 && Field(f, end - 20, 4) == segs
  {
    assert Laid(p, f) by {
      Layout(p, f);
    }
    FileLength(p);
    HeaderFields(p, f, segs, end);
  }

  lemma {:induction false} OffsetBound(vs: seq<Vma>, offset: nat, i: nat)
    requires i < |vs|
    ensures OffsetOf(vs, offset, i) + FileSize(vs[i]) <= offset + TotalSize(vs)
    decreases i
  {
    if i > 0 {
      OffsetBound(vs[1..], offset + FileSize(vs[0]), i - 1);
    }
  }
}
