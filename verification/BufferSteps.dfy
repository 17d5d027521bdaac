/**
 Runs of the buffer cache: pages gain, lose and free their buffers, users look blocks up and
 release them, and device lengths may change.
 */
module BufferSteps {
  import opened Wrappers
  import opened BufferLru
  import opened BufferCache

  datatype Action =
    | NewPage(p: nat, dev: nat, index: nat)
    | Attach(p: nat, ids: seq<nat>)          // alloc_page_buffers, link_dev_buffers, init_page_buffers
    | Regrow(p: nat)                         // init_page_buffers on buffers already there
    | Lookup(cpu: nat, dev: nat, block: nat, size: nat)   // __find_get_block: lookup_bh_lru, ...
    | Find(dev: nat, block: nat)             // ... on a miss __find_get_block_slow, ...
    | Install(cpu: nat, b: nat)              // ... and bh_lru_install of what that found
    | Release(b: nat)                        // brelse by a user
    | Discard(p: nat, from: nat, upto: nat)  // block_invalidatepage on part of a page
    | Truncate(p: nat)                       // on a whole page, which then leaves the cache
    | Drop(p: nat, busy: bool)               // drop_buffers; `busy` if some buffer is dirty or locked
    | InvalidateLru(cpu: nat)
    | Resize(dev: nat, end: Option<nat>)

  predicate Enabled(s: State, a: Action) {
    match a
    case NewPage(p, dev, index) =>
      && p !in s.pages && dev in s.geo
      && forall q :: q in s.pages ==> !(s.pages[q].cached && s.pages[q].dev == dev && s.pages[q].index == index)
    case Attach(p, ids) =>
      && p in s.pages && s.pages[p].cached && s.pages[p].bufs == [] && s.pages[p].dev in s.geo
      && |ids| == s.geo[s.pages[p].dev].perPage
      && Distinct(ids) && (forall i :: 0 <= i < |ids| ==> ids[i] != 0 && ids[i] !in s.bufs)
    case Regrow(p) => p in s.pages && s.pages[p].cached && s.pages[p].bufs != []
    case Lookup(cpu, dev, _, _) => cpu < |s.lrus| && dev in s.geo
    case Find(dev, _) => dev in s.geo
    case Install(cpu, b) => cpu < |s.lrus| && s.pend[b] > 0
    case Release(b) => s.held[b] > s.pend[b]
    case Discard(p, from, upto) => p in s.pages && s.pages[p].cached
    case Truncate(p) => p in s.pages && s.pages[p].cached
    case Drop(p, _) => p in s.pages && s.pages[p].bufs != []
    case InvalidateLru(cpu) => cpu < |s.lrus|
    case Resize(dev, _) => dev in s.ends
  }

  // ----- pages -----

  predicate Within(end: Option<nat>, block: nat) { end.None? || block < end.value }

  /** The body of the loop of `init_page_buffers`. */
  function Init(x: Buf, dev: nat, block: nat, end: Option<nat>): Buf {
    if x.mapped then x else x.(dev := dev, blocknr := block, mapped := Within(end, block))
  }

  function Added(s: State, p: nat, dev: nat, index: nat): (t: State)
    ensures t.geo == s.geo
  {
    s.(pages := s.pages[p := Page(dev, index, [], true)])
  }

  function Resized(s: State, dev: nat, end: Option<nat>): (t: State)
    ensures t.geo == s.geo
  {
    s.(ends := s.ends[dev := end])
  }

  /** New buffers for page `p`, numbered from block `first` on. */
  function NewBufs(p: nat, ids: seq<nat>, dev: nat, first: nat, size: nat, end: Option<nat>): map<nat, Buf> {
    map b | b in ids :: Init(Buf(p, Position(ids, b), 0, 0, size, false, 0), dev, first + Position(ids, b), end)
  }

  function Attached(s: State, p: nat, ids: seq<nat>): (t: State)
    requires p in s.pages && s.pages[p].dev in s.geo && s.pages[p].dev in s.ends
    ensures t.geo == s.geo
  {
    var g := s.pages[p];
    var geo := s.geo[g.dev];
    s.(pages := s.pages[p := g.(bufs := ids)],
       bufs := s.bufs + NewBufs(p, ids, g.dev, g.index * geo.perPage, geo.size, s.ends[g.dev]))
  }

  function Regrown(s: State, p: nat): (t: State)
    requires p in s.pages && s.pages[p].dev in s.geo && s.pages[p].dev in s.ends
    ensures t.geo == s.geo
  {
    var g := s.pages[p];
    var block, end := g.index * s.geo[g.dev].perPage, s.ends[g.dev];
    s.(bufs := map b | b in s.bufs ::
         if s.bufs[b].page == p then Init(s.bufs[b], g.dev, block + s.bufs[b].pos, end) else s.bufs[b])
  }

  /** `discard_buffer` on the buffers at positions `from` up to `upto` of a page. */
  function Discarded(s: State, p: nat, from: nat, upto: nat): (t: State)
    ensures t.geo == s.geo
  {
    s.(bufs := map b | b in s.bufs ::
         if s.bufs[b].page == p && from <= s.bufs[b].pos < upto then s.bufs[b].(dev := 0, mapped := false)
           else s.bufs[b])
  }

  function Truncated(s: State, p: nat): (t: State)
    requires p in s.pages
    ensures t.geo == s.geo
  {
    var t := Discarded(s, p, 0, |s.pages[p].bufs|);
    t.(pages := s.pages[p := s.pages[p].(cached := false)])
  }

  /** `buffer_busy` of no buffer of the page. */
  predicate Idle(s: State, p: nat)
    requires p in s.pages
  {
    forall i :: 0 <= i < |s.pages[p].bufs| && s.pages[p].bufs[i] in s.bufs ==> s.bufs[s.pages[p].bufs[i]].count == 0
  }

  function Dropped(s: State, p: nat, busy: bool): (t: State)
    requires p in s.pages
    ensures t.geo == s.geo
  {
    if busy || !Idle(s, p) then s
    else s.(pages := s.pages[p := s.pages[p].(bufs := [])], bufs := map b | b in s.bufs
      && s.bufs[b].page != p :: s.bufs[b])
  }

  // ----- references -----

  /** `get_bh` or `brelse` of a buffer that may be NULL. */
  function Adjust(bufs: map<nat, Buf>, b: nat, d: int): (r: map<nat, Buf>)
    ensures r.Keys == bufs.Keys
  {
    if b in bufs then bufs[b := bufs[b].(count := bufs[b].count + d)] else bufs
  }

  /** The loop of `invalidate_bh_lru`. */
  function ReleaseAll(bufs: map<nat, Buf>, l: seq<nat>): (r: map<nat, Buf>)
    ensures r.Keys == bufs.Keys
  {
    if l == [] then bufs else ReleaseAll(Adjust(bufs, l[0], -1), l[1..])
  }

  function Hit(s: State, cpu: nat, dev: nat, block: nat, size: nat): (t: State)
    requires cpu < |s.lrus| && LruSlot(s, s.lrus[cpu], dev, block, size) < |s.lrus[cpu]|
    ensures t.geo == s.geo
  {
    var l := s.lrus[cpu];
    var i := LruSlot(s, l, dev, block, size);
    s.(lrus := s.lrus[cpu := ToFront(l, i)], bufs := Adjust(s.bufs, l[i], 1), held := s.held[l[i] := s.held[l[i]] + 1])
  }

  /** The slow lookup returns `b` with a reference; installing it comes later. */
  function Found(s: State, b: nat): (t: State)
    ensures t.geo == s.geo
  {
    s.(bufs := Adjust(s.bufs, b, 1), held := s.held[b := s.held[b] + 1], pend := s.pend[b := s.pend[b] + 1])
  }

  /** `bh_lru_install`. */
  function InstalledAt(s: State, cpu: nat, b: nat): (t: State)
    requires cpu < |s.lrus| && |s.lrus[cpu]| == BH_LRU_SIZE && s.pend[b] > 0
    ensures t.geo == s.geo
  {
    var l := s.lrus[cpu];
    s.(lrus := s.lrus[cpu := Installed(l, b)], pend := s.pend[b := s.pend[b] - 1],
       bufs := if b in l then s.bufs else Adjust(Adjust(s.bufs, b, 1), l[BH_LRU_SIZE - 1], -1))
  }

  function Released(s: State, b: nat): (t: State)
    requires s.held[b] > s.pend[b]
    ensures t.geo == s.geo
  {
    s.(bufs := Adjust(s.bufs, b, -1), held := s.held[b := s.held[b] - 1])
  }

  function Invalidated(s: State, cpu: nat): (t: State)
    requires cpu < |s.lrus|
    ensures t.geo == s.geo
  {
    s.(bufs := ReleaseAll(s.bufs, s.lrus[cpu]), lrus := s.lrus[cpu := seq(BH_LRU_SIZE, _ => 0)])
  }

  /** `lookup_bh_lru`. */
  function LookedUp(s: State, cpu: nat, dev: nat, block: nat, size: nat): (t: State)
    requires cpu < |s.lrus|
    ensures t.geo == s.geo
  {
    if LruSlot(s, s.lrus[cpu], dev, block, size) < |s.lrus[cpu]| then Hit(s, cpu, dev, block, size) else s
  }

  /** `__find_get_block_slow` on a device. */
  ghost function FoundSlowly(s: State, dev: nat, block: nat): (t: State)
    requires Inv(s) && dev in s.geo && s.geo[dev].perPage >= 1
    ensures t.geo == s.geo
  {
    match Slow(s, dev, block)
    case None => s
    case Some(b) => Found(s, b)
  }

  // ----- every step keeps the invariant -----

  /** Only reference counts differ. */
  predicate OnlyCounts(bufs: map<nat, Buf>, r: map<nat, Buf>) {
    && r.Keys == bufs.Keys
    && forall b :: b in bufs ==> r[b] == bufs[b].(count := r[b].count)
  }

  lemma InvCounts(s: State, t: State)
    requires Inv(s) && t == s.(bufs := t.bufs, lrus := t.lrus, held := t.held, pend := t.pend)
    requires OnlyCounts(s.bufs, t.bufs)
    requires forall b: nat {:trigger t.held[b]} :: t.held[b] > 0 ==> b in s.bufs
    requires t.pend <= t.held
    requires forall c :: 0 <= c < |t.lrus| ==> LruOk(t, c)
    requires forall b :: b in t.bufs ==> t.bufs[b].count == t.held[b] + Slots(t.lrus, b)
    ensures Inv(t)
  {
    forall b | b in t.bufs
      ensures BufOk(t, b)
    {
      assert BufOk(s, b);
    }
    forall p | p in t.pages
      ensures PageOk(t, p)
    {
      assert PageOk(s, p);
    }
    forall p, q | p in t.pages && q in t.pages && Same(t, p, q)
      ensures p == q
    {
      assert Same(s, p, q);
    }
  }

  lemma {:induction false} ReleaseAllCounts(bufs: map<nat, Buf>, l: seq<nat>)
    requires 0 !in bufs && forall i, j :: 0 <= i < j < |l| && l[i] == l[j] ==> l[i] == 0
    ensures OnlyCounts(bufs, ReleaseAll(bufs, l))
    ensures forall b :: b in bufs ==> ReleaseAll(bufs, l)[b].count == bufs[b].count - if b in l then 1 else 0
  {
    if l != [] {
      ReleaseAllCounts(Adjust(bufs, l[0], -1), l[1..]);
      assert l == [l[0]] + l[1..];
    }
  }

  /** No buffer is in an LRU twice. */
  predicate Apart(l: seq<nat>) { forall i, j :: 0 <= i < j < |l| && l[i] == l[j] ==> l[i] == 0 }

  lemma FrontMembers(l: seq<nat>, t: seq<nat>, n: nat, b: nat)
    requires Shifted(l, t, n, b) && b != 0 && Apart(l) && (l[n] == b || b !in l)
    ensures Apart(t)
    ensures forall x :: x in t <==> x == b || (exists i :: 0 <= i < |l| && i != n && l[i] == x)
  {
    forall j | 0 <= j < |t|
      ensures j > 0 ==> t[j] == l[if j <= n then j - 1 else j]
    {
    }
    forall x | x == b || (exists i :: 0 <= i < |l| && i != n && l[i] == x)
      ensures x in t
    {
      if i :| 0 <= i < |l| && i != n && l[i] == x {
        assert t[if i < n then i + 1 else i] == x;
      } else {
        assert t[0] == x;
      }
    }
  }

  lemma FrontSlots(lrus: seq<seq<nat>>, c: nat, i: nat, b: nat)
    requires c < |lrus| && i < |lrus[c]| && lrus[c][i] != 0 && Apart(lrus[c])
    ensures Apart(ToFront(lrus[c], i)) && (b in ToFront(lrus[c], i) <==> b in lrus[c])
    ensures Slots(lrus[c := ToFront(lrus[c], i)], b) == Slots(lrus, b)
  {
    var l := lrus[c];
    FrontShifts(l, ToFront(l, i), i, l[i]);
    FrontMembers(l, ToFront(l, i), i, l[i]);
    SlotsUpdate(lrus, c, ToFront(l, i), b);
  }

  lemma HitLru(s: State, cpu: nat, dev: nat, block: nat, size: nat, c: nat)
    requires Inv(s) && cpu < |s.lrus| && LruSlot(s, s.lrus[cpu], dev, block, size) < |s.lrus[cpu]| && c < |s.lrus|
    ensures LruOk(Hit(s, cpu, dev, block, size), c)
  {
    assert LruOk(s, cpu);
    assert LruOk(s, c);
    var i, m := LruSlot(s, s.lrus[cpu], dev, block, size), Hit(s, cpu, dev, block, size).lrus[cpu];
    forall k | 0 <= k < |m|
      ensures m[k] == 0 || m[k] in s.bufs
    {
      FrontSlots(s.lrus, cpu, i, m[k]);
    }
    FrontSlots(s.lrus, cpu, i, 0);
  }

  lemma HitCounts(s: State, cpu: nat, dev: nat, block: nat, size: nat, b: nat)
    requires Inv(s) && cpu < |s.lrus| && LruSlot(s, s.lrus[cpu], dev, block, size) < |s.lrus[cpu]| && b in s.bufs
    ensures var t := Hit(s, cpu, dev, block, size); t.bufs[b].count == t.held[b] + Slots(t.lrus, b)
  {
    assert BufOk(s, b);
    assert LruOk(s, cpu);
    FrontSlots(s.lrus, cpu, LruSlot(s, s.lrus[cpu], dev, block, size), b);
  }

  lemma HitKeeps(s: State, cpu: nat, dev: nat, block: nat, size: nat)
    requires Inv(s) && cpu < |s.lrus| && LruSlot(s, s.lrus[cpu], dev, block, size) < |s.lrus[cpu]|
    ensures Inv(Hit(s, cpu, dev, block, size))
  {
    var t := Hit(s, cpu, dev, block, size);
    forall c | 0 <= c < |t.lrus|
      ensures LruOk(t, c)
    {
      HitLru(s, cpu, dev, block, size, c);
    }
    forall b | b in t.bufs
      ensures t.bufs[b].count == t.held[b] + Slots(t.lrus, b)
    {
      HitCounts(s, cpu, dev, block, size, b);
    }
    InvCounts(s, t);
  }

  lemma InstalledShifts(l: seq<nat>, b: nat) returns (n: nat)
    requires l != []
    ensures n < |l| && Shifted(l, Installed(l, b), n, b)
    ensures if b in l then l[n] == b else n == |l| - 1
  {
    var p := Position(l, b);
    n := if p < |l| then p else p - 1;
    assert p == |l| ==> Installed(l, b) == [b] + l[..n] + l[n + 1..];
    FrontShifts(l, Installed(l, b), n, b);
  }

  lemma InstalledMembers(l: seq<nat>, b: nat)
    requires |l| == BH_LRU_SIZE && b != 0 && Apart(l)
    ensures Apart(Installed(l, b))
    ensures forall x :: x != 0 ==> (x in Installed(l, b) <==> x == b || (x in l && (b in l || x != l[BH_LRU_SIZE - 1])))
  {
    var n := InstalledShifts(l, b);
    FrontMembers(l, Installed(l, b), n, b);
  }

  lemma InstalledCounts(s: State, cpu: nat, b: nat, x: nat)
    requires Inv(s) && cpu < |s.lrus| && |s.lrus[cpu]| == BH_LRU_SIZE && s.pend[b] > 0 && b in s.bufs && x in s.bufs
    ensures var t := InstalledAt(s, cpu, b); t.bufs[x].count == t.held[x] + Slots(t.lrus, x)
  {
    var l, t := s.lrus[cpu], InstalledAt(s, cpu, b);
    assert BufOk(s, x);
    assert LruOk(s, cpu);
    InstalledMembers(l, b);
    SlotsUpdate(s.lrus, cpu, t.lrus[cpu], x);
  }

  lemma InstalledLru(s: State, cpu: nat, b: nat, c: nat)
    requires Inv(s) && cpu < |s.lrus| && |s.lrus[cpu]| == BH_LRU_SIZE && s.pend[b] > 0 && b in s.bufs && c < |s.lrus|
    ensures LruOk(InstalledAt(s, cpu, b), c)
  {
    assert LruOk(s, c);
    assert LruOk(s, cpu);
    InstalledMembers(s.lrus[cpu], b);
  }

  /** A buffer that waits to be installed is held, so it is still there. */
  lemma InstalledKeeps(s: State, cpu: nat, b: nat)
    requires Inv(s) && cpu < |s.lrus| && s.pend[b] > 0
    ensures |s.lrus[cpu]| == BH_LRU_SIZE && b in s.bufs && Inv(InstalledAt(s, cpu, b))
  {
    assert LruOk(s, cpu);
    assert s.held[b] > 0;
    var t := InstalledAt(s, cpu, b);
    forall c | 0 <= c < |t.lrus|
      ensures LruOk(t, c)
    {
      InstalledLru(s, cpu, b, c);
    }
    forall x | x in t.bufs
      ensures t.bufs[x].count == t.held[x] + Slots(t.lrus, x)
    {
      InstalledCounts(s, cpu, b, x);
    }
    InvCounts(s, t);
  }

  lemma FoundKeeps(s: State, b: nat)
    requires Inv(s) && b in s.bufs
    ensures Inv(Found(s, b))
  {
    var t := Found(s, b);
    forall c | 0 <= c < |t.lrus|
      ensures LruOk(t, c)
    {
      assert LruOk(s, c);
    }
    forall x | x in t.bufs
      ensures t.bufs[x].count == t.held[x] + Slots(t.lrus, x)
    {
      assert BufOk(s, x);
    }
    InvCounts(s, t);
  }

  lemma ReleasedKeeps(s: State, b: nat)
    requires Inv(s) && s.held[b] > s.pend[b]
    ensures Inv(Released(s, b))
  {
    var t := Released(s, b);
    forall c | 0 <= c < |t.lrus|
      ensures LruOk(t, c)
    {
      assert LruOk(s, c);
    }
    forall x | x in t.bufs
      ensures t.bufs[x].count == t.held[x] + Slots(t.lrus, x)
    {
      assert BufOk(s, x);
    }
    InvCounts(s, t);
  }

  lemma InvalidatedKeeps(s: State, cpu: nat)
    requires Inv(s) && cpu < |s.lrus|
    ensures Inv(Invalidated(s, cpu))
  {
    var t := Invalidated(s, cpu);
    assert LruOk(s, cpu);
    ReleaseAllCounts(s.bufs, s.lrus[cpu]);
    forall c | 0 <= c < |t.lrus|
      ensures LruOk(t, c)
    {
      assert LruOk(s, c);
    }
    forall x | x in t.bufs
      ensures t.bufs[x].count == t.held[x] + Slots(t.lrus, x)
    {
      assert BufOk(s, x);
      SlotsUpdate(s.lrus, cpu, t.lrus[cpu], x);
    }
    InvCounts(s, t);
  }

  /** Re-establishing the invariant after a step on page `p` that leaves references alone. */
  lemma InvPages(s: State, t: State, p: nat)
    requires Inv(s) && t == s.(bufs := t.bufs, pages := t.pages) && t.pages.Keys == s.pages.Keys + {p} && 0 !in t.bufs
    requires forall b :: b in t.bufs ==> BufOk(t, b)
    requires PageOk(t, p)
    requires forall q :: q in s.pages && q != p ==> t.pages[q] == s.pages[q]
    requires forall b :: b in s.bufs && s.bufs[b].page != p ==> b in t.bufs && t.bufs[b] == s.bufs[b]
    requires forall b :: b in s.bufs && b !in t.bufs ==> s.bufs[b].count == 0
    requires p in s.pages ==> t.pages[p] == s.pages[p].(bufs := t.pages[p].bufs, cached := t.pages[p].cached)
                              && (t.pages[p].cached ==> s.pages[p].cached)
    requires p !in s.pages ==> forall q :: q in s.pages && s.pages[q].cached ==>
      !(s.pages[q].dev == t.pages[p].dev && s.pages[q].index == t.pages[p].index)
    ensures Inv(t)
  {
    forall q | q in t.pages
      ensures PageOk(t, q)
    {
      if q != p {
        assert PageOk(s, q);
      }
    }
    forall q, r | q in t.pages && r in t.pages && Same(t, q, r)
      ensures q == r
    {
      if p in s.pages || (q != p && r != p) {
        assert Same(s, q, r);
      }
    }
    forall b: nat | s.held[b] > 0
      ensures b in t.bufs
    {
      assert BufOk(s, b);
    }
    forall c | 0 <= c < |t.lrus|
      ensures LruOk(t, c)
    {
      LruStays(s, t, c);
    }
  }

  lemma LruStays(s: State, t: State, c: nat)
    requires Inv(s) && t.lrus == s.lrus && c < |s.lrus|
    requires forall b :: b in s.bufs && b !in t.bufs ==> s.bufs[b].count == 0
    ensures LruOk(t, c)
  {
    assert LruOk(s, c);
    forall i | 0 <= i < |t.lrus[c]| && t.lrus[c][i] != 0
      ensures t.lrus[c][i] in t.bufs
    {
      InSlots(s.lrus, c, t.lrus[c][i]);
      assert BufOk(s, t.lrus[c][i]);
    }
  }

  /** The slots of an unknown buffer: none. */
  lemma {:induction false} NoSlots(lrus: seq<seq<nat>>, b: nat)
    requires forall c :: 0 <= c < |lrus| ==> b !in lrus[c]
    ensures Slots(lrus, b) == 0
  {
    if lrus != [] {
      NoSlots(lrus[1..], b);
    }
  }

  lemma UnknownUnreferenced(s: State, b: nat)
    requires Inv(s) && b != 0 && b !in s.bufs
    ensures s.held[b] == 0 && Slots(s.lrus, b) == 0
  {
    forall c | 0 <= c < |s.lrus|
      ensures b !in s.lrus[c]
    {
      assert LruOk(s, c);
    }
    NoSlots(s.lrus, b);
  }

  lemma AddedKeeps(s: State, p: nat, dev: nat, index: nat)
    requires Inv(s) && Enabled(s, NewPage(p, dev, index)) && dev != 0 && s.geo[dev].perPage >= 1
    ensures Inv(Added(s, p, dev, index))
  {
    var t := Added(s, p, dev, index);
    forall b | b in t.bufs
      ensures BufOk(t, b) && s.bufs[b].page != p
    {
      assert BufOk(s, b);
    }
    InvPages(s, t, p);
  }

  predicate Distinct(ids: seq<nat>) { forall i, j :: 0 <= i < j < |ids| ==> ids[i] != ids[j] }

  lemma NewBufsAt(p: nat, ids: seq<nat>, dev: nat, first: nat, size: nat, end: Option<nat>, i: nat)
    requires Distinct(ids) && i < |ids|
    ensures var m := NewBufs(p, ids, dev, first, size, end);
      && ids[i] in m && m[ids[i]].page == p && m[ids[i]].pos == i && m[ids[i]].dev == dev
      && m[ids[i]].blocknr == first + i && m[ids[i]].size == size
      && (m[ids[i]].mapped <==> end.None? || first + i < end.value)
  {
    assert Position(ids, ids[i]) == i;
  }

  lemma AttachedNew(s: State, p: nat, ids: seq<nat>, b: nat)
    requires p in s.pages && PageOk(s, p) && Enabled(s, Attach(p, ids)) && s.pages[p].dev in s.ends
    requires b in ids && s.held[b] == 0 && Slots(s.lrus, b) == 0
    ensures BufOk(Attached(s, p, ids), b)
  {
  }

  lemma AttachedBuf(s: State, p: nat, ids: seq<nat>, b: nat)
    requires Inv(s) && Enabled(s, Attach(p, ids)) && s.pages[p].dev in s.ends
    requires b in Attached(s, p, ids).bufs
    ensures BufOk(Attached(s, p, ids), b)
  {
    assert PageOk(s, p);
    if b in ids {
      UnknownUnreferenced(s, b);
      AttachedNew(s, p, ids, b);
    } else {
      assert BufOk(s, b);
    }
  }

  lemma AttachedPage(s: State, p: nat, ids: seq<nat>)
    requires p in s.pages && PageOk(s, p) && Enabled(s, Attach(p, ids)) && s.pages[p].dev in s.ends
    ensures PageOk(Attached(s, p, ids), p)
  {
    var t, g := Attached(s, p, ids), s.pages[p];
    var geo := s.geo[g.dev];
    forall i | 0 <= i < |ids|
      ensures ids[i] in t.bufs && t.bufs[ids[i]].page == p && t.bufs[ids[i]].pos == i
    {
      NewBufsAt(p, ids, g.dev, g.index * geo.perPage, geo.size, s.ends[g.dev], i);
    }
  }

  lemma AttachedKeeps(s: State, p: nat, ids: seq<nat>)
    requires Inv(s) && Enabled(s, Attach(p, ids)) && s.pages[p].dev in s.ends
    ensures Inv(Attached(s, p, ids))
  {
    var t := Attached(s, p, ids);
    forall b | b in t.bufs
      ensures BufOk(t, b)
    {
      AttachedBuf(s, p, ids, b);
    }
    assert PageOk(s, p);
    AttachedPage(s, p, ids);
    assert 0 !in ids;
    forall b | b in s.bufs
      ensures b in t.bufs && t.bufs[b] == s.bufs[b]
    {
      assert b !in ids;
    }
    InvPages(s, t, p);
  }

  lemma RegrownBuf(s: State, p: nat, b: nat)
    requires Inv(s) && Enabled(s, Regrow(p)) && s.pages[p].dev in s.geo && s.pages[p].dev in s.ends && b in s.bufs
    ensures BufOk(Regrown(s, p), b)
  {
    assert PageOk(s, p);
    assert BufOk(s, b);
  }

  lemma RegrownKeeps(s: State, p: nat)
    requires Inv(s) && Enabled(s, Regrow(p)) && s.pages[p].dev in s.geo && s.pages[p].dev in s.ends
    ensures Inv(Regrown(s, p))
  {
    var t := Regrown(s, p);
    assert PageOk(s, p);
    forall b | b in t.bufs
      ensures BufOk(t, b)
    {
      RegrownBuf(s, p, b);
    }
    InvPages(s, t, p);
  }

  lemma DiscardedKeeps(s: State, p: nat, from: nat, upto: nat)
    requires Inv(s) && p in s.pages
    ensures Inv(Discarded(s, p, from, upto))
  {
    var t := Discarded(s, p, from, upto);
    assert PageOk(s, p);
    forall b | b in t.bufs
      ensures BufOk(t, b)
    {
      assert BufOk(s, b);
    }
    InvPages(s, t, p);
  }

  lemma TruncatedKeeps(s: State, p: nat)
    requires Inv(s) && p in s.pages && s.pages[p].cached
    ensures Inv(Truncated(s, p))
  {
    var t := Truncated(s, p);
    assert PageOk(s, p);
    forall b | b in t.bufs
      ensures BufOk(t, b)
    {
      assert BufOk(s, b);
    }
    InvPages(s, t, p);
  }

  /** Buffers are freed only when no user and no LRU holds them. */
  lemma DroppedKeeps(s: State, p: nat, busy: bool)
    requires Inv(s) && p in s.pages
    ensures Inv(Dropped(s, p, busy))
    ensures forall b :: b in s.bufs && s.held[b] + Slots(s.lrus, b) > 0 ==> b in Dropped(s, p, busy).bufs
  {
    var t := Dropped(s, p, busy);
    assert PageOk(s, p);
    if t != s {
      forall b | b in s.bufs
        ensures b !in t.bufs ==> s.bufs[b].count == 0 && s.held[b] + Slots(s.lrus, b) == 0
        ensures b in t.bufs ==> BufOk(t, b)
      {
        DroppedBuf(s, p, busy, b);
      }
      InvPages(s, t, p);
    }
  }

  lemma DroppedBuf(s: State, p: nat, busy: bool, b: nat)
    requires Inv(s) && p in s.pages && Dropped(s, p, busy) != s && b in s.bufs
    ensures b !in Dropped(s, p, busy).bufs ==> s.bufs[b].count == 0 && s.held[b] + Slots(s.lrus, b) == 0
    ensures b in Dropped(s, p, busy).bufs ==> BufOk(Dropped(s, p, busy), b)
  {
    assert PageOk(s, p);
    assert BufOk(s, b);
  }

  /**
   Nobody is stopped from going on: blocks can be looked up at any time, a reference found can be
   installed, any other given back, a cached page truncated, its buffers freed or given up.
   */
  lemma StepsPossible(s: State, cpu: nat, dev: nat, block: nat, b: nat, p: nat)
    requires cpu < |s.lrus| && dev in s.geo && dev in s.ends
    ensures forall size: nat :: Enabled(s, Lookup(cpu, dev, block, size))
    ensures Enabled(s, Find(dev, block)) && Enabled(s, InvalidateLru(cpu)) && Enabled(s, Resize(dev, Some(block)))
    ensures s.held[b] > 0 ==> Enabled(s, Install(cpu, b)) || Enabled(s, Release(b))
    ensures s.held[b] > s.pend[b] ==> Enabled(s, Release(b))
    ensures p in s.pages && s.pages[p].bufs != [] ==> Enabled(s, Drop(p, false))
    ensures p in s.pages && s.pages[p].cached ==> Enabled(s, Truncate(p)) && Enabled(s, Discard(p, 0, block))
    ensures p in s.pages && s.pages[p].cached && s.pages[p].bufs != [] ==> Enabled(s, Regrow(p))
  {
  }

  /** Buffers are freed exactly if none of the page is busy or referenced, and then all of that page and no others. */
  lemma DroppedExact(s: State, p: nat, busy: bool)
    requires Inv(s) && p in s.pages
    ensures var t := Dropped(s, p, busy);
      if !busy && (forall b :: b in s.bufs && s.bufs[b].page == p ==> s.held[b] + Slots(s.lrus, b) == 0)
      then t.pages[p].bufs == [] && forall b :: b in t.bufs <==> b in s.bufs && s.bufs[b].page != p
      else t == s
  {
    assert PageOk(s, p);
    forall b | b in s.bufs
      ensures BufOk(s, b)
    {
    }
  }

  lemma ResizedKeeps(s: State, dev: nat, end: Option<nat>)
    requires Inv(s) && dev in s.ends
    ensures Inv(Resized(s, dev, end))
  {
    var t := Resized(s, dev, end);
    forall b | b in s.bufs
      ensures BufOk(t, b)
    {
      assert BufOk(s, b);
    }
    forall p | p in s.pages
      ensures PageOk(t, p)
    {
      assert PageOk(s, p);
    }
    forall c | 0 <= c < |s.lrus|
      ensures LruOk(t, c)
    {
      assert LruOk(s, c);
    }
    forall p, q | p in s.pages && q in s.pages && Same(t, p, q)
      ensures p == q
    {
      assert Same(s, p, q);
    }
  }

  /** Devices have numbers other than 0, and at least one block fits a page. */
  predicate Geometries(s: State) { forall d {:trigger s.geo[d]} :: d in s.geo ==> d != 0 && s.geo[d].perPage >= 1 }

  predicate OnPage(a: Action) { a.NewPage? || a.Attach? || a.Regrow? || a.Discard? || a.Truncate? || a.Drop? }

  ghost function PageStep(s: State, a: Action): (t: State)
    requires Inv(s) && Geometries(s) && Enabled(s, a) && OnPage(a)
    ensures t.geo == s.geo
  {
    match a
    case NewPage(p, dev, index) => Added(s, p, dev, index)
    case Attach(p, ids) => Attached(s, p, ids)
    case Regrow(p) => assert PageOk(s, p); Regrown(s, p)
    case Discard(p, from, upto) => Discarded(s, p, from, upto)
    case Truncate(p) => Truncated(s, p)
    case Drop(p, busy) => Dropped(s, p, busy)
  }

  ghost function OtherStep(s: State, a: Action): (t: State)
    requires Inv(s) && Geometries(s) && Enabled(s, a) && !OnPage(a)
    ensures t.geo == s.geo
  {
    match a
    case Lookup(cpu, dev, block, size) => LookedUp(s, cpu, dev, block, size)
    case Find(dev, block) => FoundSlowly(s, dev, block)
    case Install(cpu, b) => InstalledKeeps(s, cpu, b); InstalledAt(s, cpu, b)
    case Release(b) => Released(s, b)
    case InvalidateLru(cpu) => Invalidated(s, cpu)
    case Resize(dev, end) => Resized(s, dev, end)
  }

  ghost function Apply(s: State, a: Action): (t: State)
    requires Inv(s) && Geometries(s) && Enabled(s, a)
    ensures t.geo == s.geo
  {
    if OnPage(a) then PageStep(s, a) else OtherStep(s, a)
  }

  lemma SlowFinds(s: State, dev: nat, block: nat)
    requires Inv(s) && dev in s.geo && s.geo[dev].perPage >= 1 && Slow(s, dev, block).Some?
    ensures Slow(s, dev, block).value in s.bufs && s.bufs[Slow(s, dev, block).value].mapped
  {
    var index := block / s.geo[dev].perPage;
    assert Cached(s, dev, index);
    var p :| p in s.pages && s.pages[p].cached && s.pages[p].dev == dev && s.pages[p].index == index;
    SlowIsScan(s, p, dev, block);
  }

  lemma FoundSlowlyKeeps(s: State, dev: nat, block: nat)
    requires Inv(s) && dev in s.geo && s.geo[dev].perPage >= 1
    ensures Inv(FoundSlowly(s, dev, block))
  {
    if Slow(s, dev, block).Some? {
      SlowFinds(s, dev, block);
      FoundKeeps(s, Slow(s, dev, block).value);
    }
  }

  lemma PageStepKeeps(s: State, a: Action)
    requires Inv(s) && Geometries(s) && Enabled(s, a) && OnPage(a)
    ensures Inv(PageStep(s, a))
  {
    match a
    case NewPage(p, dev, index) => AddedKeeps(s, p, dev, index);
    case Attach(p, ids) => AttachedKeeps(s, p, ids);
    case Regrow(p) => assert PageOk(s, p); RegrownKeeps(s, p);
    case Discard(p, from, upto) => DiscardedKeeps(s, p, from, upto);
    case Truncate(p) => TruncatedKeeps(s, p);
    case Drop(p, busy) => DroppedKeeps(s, p, busy);
  }

  lemma OtherStepKeeps(s: State, a: Action)
    requires Inv(s) && Geometries(s) && Enabled(s, a) && !OnPage(a)
    ensures Inv(OtherStep(s, a))
  {
    match a
    case Lookup(cpu, dev, block, size) =>
      if LruSlot(s, s.lrus[cpu], dev, block, size) < |s.lrus[cpu]| {
        HitKeeps(s, cpu, dev, block, size);
      }
    case Find(dev, block) => FoundSlowlyKeeps(s, dev, block);
    case Install(cpu, b) => InstalledKeeps(s, cpu, b);
    case Release(b) => ReleasedKeeps(s, b);
    case InvalidateLru(cpu) => InvalidatedKeeps(s, cpu);
    case Resize(dev, end) => ResizedKeeps(s, dev, end);
  }

  /** Every step keeps references, places and block numbers consistent. */
  lemma StepKeeps(s: State, a: Action)
    requires Inv(s) && Geometries(s) && Enabled(s, a)
    ensures Inv(Apply(s, a)) && Apply(s, a).geo == s.geo
  {
    if OnPage(a) {
      PageStepKeeps(s, a);
    } else {
      OtherStepKeeps(s, a);
    }
  }
}
