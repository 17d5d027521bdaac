/**
 Buffers of block-device pages, their references, and the per-CPU LRUs in front of the slow
 lookup (`fs/buffer.c`).  Each device has a fixed block size.
 */
module BufferCache {
  import opened Wrappers
  import opened Arithmetic
  import opened BufferLru

  /** `dev` 0 stands for a NULL `b_bdev`; `page` and `pos` say where on which page the buffer is attached. */
  datatype Buf = Buf(page: nat, pos: nat, dev: nat, blocknr: nat, size: nat, mapped: bool, count: int)

  /** A page of a device's page cache; `cached` is false once it has been truncated away. */
  datatype Page = Page(dev: nat, index: nat, bufs: seq<nat>, cached: bool)

  datatype Geometry = Geometry(size: nat, perPage: nat)

  /**
   In an LRU slot, 0 stands for NULL. `held` are the references of users, `pend` those of them that
   wait to be installed. `ends` is the device's length in blocks, none for an inode of size 0.
   */
  datatype State = State(pages: map<nat, Page>, bufs: map<nat, Buf>, lrus: seq<seq<nat>>,
                         held: multiset<nat>, pend: multiset<nat>, geo: map<nat, Geometry>, ends: map<nat, Option<nat>>)

  // ----- reference counts -----

  /** Number of LRUs holding `b`. */
  function Slots(lrus: seq<seq<nat>>, b: nat): nat {
    if lrus == [] then 0 else (if b in lrus[0] then 1 else 0) + Slots(lrus[1..], b)
  }

  lemma {:induction false} SlotsUpdate(lrus: seq<seq<nat>>, c: nat, s: seq<nat>, b: nat)
    requires c < |lrus|
    ensures Slots(lrus[c := s], b) == Slots(lrus, b) - (if b in lrus[c] then 1 else 0) + (if b in s then 1 else 0)
  {
    if c > 0 {
      assert lrus[c := s][1..] == lrus[1..][c - 1 := s];
      SlotsUpdate(lrus[1..], c - 1, s, b);
    } else {
      assert lrus[c := s][1..] == lrus[1..];
    }
  }

  lemma {:induction false} InSlots(lrus: seq<seq<nat>>, c: nat, b: nat)
    requires c < |lrus| && b in lrus[c]
    ensures Slots(lrus, b) > 0
  {
    if c > 0 {
      InSlots(lrus[1..], c - 1, b);
    }
  }

  // ----- the invariant -----

  /** The block number that belongs to a buffer's place. */
  function Number(s: State, x: Buf): nat
    requires x.page in s.pages && s.pages[x.page].dev in s.geo
  {
    s.pages[x.page].index * s.geo[s.pages[x.page].dev].perPage + x.pos
  }

  /** A buffer is attached where it says, and names a block only while its page is cached. */
  predicate BufOk(s: State, b: nat)
    requires b in s.bufs
  {
    var x := s.bufs[b];
    && x.page in s.pages && s.pages[x.page].dev in s.geo
    && x.pos < |s.pages[x.page].bufs| && s.pages[x.page].bufs[x.pos] == b
    && x.size == s.geo[s.pages[x.page].dev].size
    && (x.dev != 0 ==> s.pages[x.page].cached && x.dev == s.pages[x.page].dev && x.blocknr == Number(s, x))
    && (x.mapped ==> x.dev != 0)
    && x.count == s.held[b] + Slots(s.lrus, b)
  }

  predicate PageOk(s: State, p: nat)
    requires p in s.pages
  {
    var g := s.pages[p];
    && g.dev != 0 && g.dev in s.geo && s.geo[g.dev].perPage >= 1
    && (g.bufs == [] || |g.bufs| == s.geo[g.dev].perPage)
    && (forall i :: 0 <= i < |g.bufs| ==>
          g.bufs[i] in s.bufs && s.bufs[g.bufs[i]].page == p && s.bufs[g.bufs[i]].pos == i)
  }

  predicate LruOk(s: State, c: nat)
    requires c < |s.lrus|
  {
    var l := s.lrus[c];
    && |l| == BH_LRU_SIZE
    && (forall i, j :: 0 <= i < j < |l| && l[i] == l[j] ==> l[i] == 0)
    && (forall i :: 0 <= i < |l| ==> l[i] == 0 || l[i] in s.bufs)
  }

  predicate Same(s: State, p: nat, q: nat)
    requires p in s.pages && q in s.pages
  {
    s.pages[p].cached && s.pages[q].cached && s.pages[p].dev == s.pages[q].dev && s.pages[p].index == s.pages[q].index
  }

  ghost predicate Inv(s: State) {
    && 0 !in s.bufs
    && (forall b {:trigger BufOk(s, b)} :: b in s.bufs ==> BufOk(s, b))
    && (forall p {:trigger PageOk(s, p)} :: p in s.pages ==> PageOk(s, p))
    && (forall c {:trigger LruOk(s, c)} :: 0 <= c < |s.lrus| ==> LruOk(s, c))
    && (forall p, q {:trigger Same(s, p, q)} :: p in s.pages && q in s.pages && Same(s, p, q) ==> p == q)
    && (forall b: nat {:trigger s.held[b]} :: s.held[b] > 0 ==> b in s.bufs)
    && s.pend <= s.held
    && s.ends.Keys == s.geo.Keys
  }

  // ----- the two lookups -----

  predicate Matches(s: State, b: nat, dev: nat, block: nat, size: nat) {
    b in s.bufs && s.bufs[b].blocknr == block && s.bufs[b].dev == dev && s.bufs[b].size == size
  }

  /** `lookup_bh_lru`: the slot of the first buffer that matches. */
  function LruSlot(s: State, l: seq<nat>, dev: nat, block: nat, size: nat): (i: nat)
    ensures i <= |l|
    ensures i < |l| ==> Matches(s, l[i], dev, block, size)
  {
    if l == [] || Matches(s, l[0], dev, block, size) then 0 else 1 + LruSlot(s, l[1..], dev, block, size)
  }

  /** What the search gives: the first slot, if any, with a buffer of that device, block and size. */
  lemma {:induction false} LruSlotFirst(s: State, l: seq<nat>, dev: nat, block: nat, size: nat)
    ensures var i := LruSlot(s, l, dev, block, size);
      && (i < |l| ==> l[i] in s.bufs && s.bufs[l[i]].dev == dev && s.bufs[l[i]].blocknr == block)
      && (i < |l| ==> l[i] in s.bufs && s.bufs[l[i]].size == size)
      && forall k :: 0 <= k < i && l[k] in s.bufs ==>
            s.bufs[l[k]].dev != dev || s.bufs[l[k]].blocknr != block || s.bufs[l[k]].size != size
  {
    if l != [] {
      LruSlotFirst(s, l[1..], dev, block, size);
    }
  }

  /** The loop of `__find_get_block_slow` over the buffers of a page. */
  function Scan(s: State, ids: seq<nat>, block: nat): (r: Option<nat>)
    requires forall i :: 0 <= i < |ids| ==> ids[i] in s.bufs
    ensures r.Some? ==> r.value in ids && s.bufs[r.value].mapped && s.bufs[r.value].blocknr == block
    ensures r.None? ==> forall i :: 0 <= i < |ids| ==> !(s.bufs[ids[i]].mapped && s.bufs[ids[i]].blocknr == block)
  {
    if ids == [] then None
    else if s.bufs[ids[0]].mapped && s.bufs[ids[0]].blocknr == block then Some(ids[0])
    else Scan(s, ids[1..], block)
  }

  ghost predicate Cached(s: State, dev: nat, index: nat) {
    exists p :: p in s.pages && s.pages[p].cached && s.pages[p].dev == dev && s.pages[p].index == index
  }

  /** `__find_get_block_slow`. */
  ghost function Slow(s: State, dev: nat, block: nat): Option<nat>
    requires Inv(s) && dev in s.geo && s.geo[dev].perPage >= 1
  {
    var index := block / s.geo[dev].perPage;
    if !Cached(s, dev, index) then None
    else
      var p :| p in s.pages && s.pages[p].cached && s.pages[p].dev == dev && s.pages[p].index == index;
      assert PageOk(s, p);
      Scan(s, s.pages[p].bufs, block)
  }

  lemma SlowIsScan(s: State, p: nat, dev: nat, block: nat)
    requires Inv(s) && p in s.pages && s.pages[p].cached && s.pages[p].dev == dev && dev in s.geo
    requires s.geo[dev].perPage >= 1
    requires s.pages[p].index == block / s.geo[dev].perPage
    ensures (forall i :: 0 <= i < |s.pages[p].bufs| ==> s.pages[p].bufs[i] in s.bufs)
         && Slow(s, dev, block) == Scan(s, s.pages[p].bufs, block)
  {
    assert PageOk(s, p);
    var index := block / s.geo[dev].perPage;
    assert Cached(s, dev, index);
    var q :| q in s.pages && s.pages[q].cached && s.pages[q].dev == dev && s.pages[q].index == index
      && Slow(s, dev, block) == (assert PageOk(s, q); Scan(s, s.pages[q].bufs, block));
    assert Same(s, p, q);
  }

  /**
   A hit in any LRU is the buffer the slow lookup returns, exactly if the buffer is mapped;
   otherwise the slow lookup finds nothing.
   */
  lemma HitIsSlow(s: State, b: nat, dev: nat, block: nat, size: nat)
    requires Inv(s) && dev != 0 && dev in s.geo && Matches(s, b, dev, block, size)
    ensures s.geo[dev].perPage >= 1
    ensures Slow(s, dev, block) == if s.bufs[b].mapped then Some(b) else None
  {
    assert BufOk(s, b);
    var x := s.bufs[b];
    assert PageOk(s, x.page);
    var ids, per := s.pages[x.page].bufs, s.geo[dev].perPage;
    QuotientOf(block, per, s.pages[x.page].index, x.pos);
    SlowIsScan(s, x.page, dev, block);
    forall i | 0 <= i < |ids| && s.bufs[ids[i]].mapped && s.bufs[ids[i]].blocknr == block
      ensures i == x.pos
    {
      assert BufOk(s, ids[i]);
    }
    assert ids[x.pos] == b;
  }
}
