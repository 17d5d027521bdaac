/**
 The per-CPU buffer LRU (`fs/buffer.c`): sixteen slots, moved about by a swapping loop on
 insertion and by a shifting loop on a hit.
 */
module BufferLru {

  const BH_LRU_SIZE: nat := 16

  /** First position of `b`, or the length. */
  function Position<T(==)>(s: seq<T>, b: T): (i: nat)
    ensures i <= |s| && (i < |s| ==> s[i] == b) && (i == |s| <==> b !in s)
    ensures forall j :: 0 <= j < i ==> s[j] != b
  {
    if s == [] || s[0] == b then 0 else 1 + Position(s[1..], b)
  }

  /** Slot `i` moved to the front. */
  function ToFront<T>(s: seq<T>, i: nat): (r: seq<T>)
    requires i < |s|
    ensures |r| == |s|
  {
    [s[i]] + s[..i] + s[i + 1..]
  }

  /** The first `n` places moved up by one, with `b` in front. */
  predicate Shifted<T(==)>(s: seq<T>, t: seq<T>, n: nat, b: T) {
    && n < |s| == |t| && t[0] == b
    && (forall j :: 0 < j <= n ==> t[j] == s[j - 1])
    && (forall j :: n < j < |s| ==> t[j] == s[j])
  }

  lemma ShiftedIs<T>(s: seq<T>, t: seq<T>, n: nat, b: T)
    requires Shifted(s, t, n, b)
    ensures t == [b] + s[..n] + s[n + 1..]
  {
  }

  lemma FrontShifts<T>(s: seq<T>, t: seq<T>, n: nat, b: T)
    requires n < |s| && t == [b] + s[..n] + s[n + 1..]
    ensures Shifted(s, t, n, b)
  {
    forall j | 0 <= j < |s|
      ensures t[j] == if j == 0 then b else if j <= n then s[j - 1] else s[j]
    {
    }
  }

  lemma ShiftedInstalls<T>(s: seq<T>, t: seq<T>, n: nat, b: T)
    requires Shifted(s, t, n, b) && (Position(s, b) == n || (Position(s, b) == |s| && n == |s| - 1))
    ensures t == Installed(s, b)
  {
    ShiftedIs(s, t, n, b);
    assert [b] + s[..|s| - 1] + s[|s|..] == [b] + s[..|s| - 1];
  }

  /** `b` put in front; the last slot falls out, unless `b` was there already. */
  function Installed<T(==)>(s: seq<T>, b: T): (r: seq<T>)
    requires s != []
    ensures |r| == |s|
  {
    var i := Position(s, b);
    if i < |s| then ToFront(s, i) else [b] + s[..|s| - 1]
  }

  class BufferHead {
    var bdev: nat       // device number, 0 for NULL
    var blocknr: nat
    var size: nat
    var count: int      // b_count

    constructor (bdev: nat, blocknr: nat, size: nat)
      ensures this.bdev == bdev && this.blocknr == blocknr && this.size == size && count == 0
    {
      this.bdev, this.blocknr, this.size, this.count := bdev, blocknr, size, 0;
    }

    predicate Is(dev: nat, block: nat, sz: nat)
      reads `bdev, `blocknr, `size
    {
      blocknr == block && bdev == dev && size == sz
    }
  }

  predicate Hit(bh: BufferHead?, bdev: nat, block: nat, size: nat)
    reads if bh == null then {} else {bh}
  {
    bh != null && bh.Is(bdev, block, size)
  }

  class BhLru {
    const bhs: array<BufferHead?>

    constructor ()
      ensures fresh(bhs) && bhs.Length == BH_LRU_SIZE && forall i :: 0 <= i < bhs.Length ==> bhs[i] == null
    {
      bhs := new BufferHead?[BH_LRU_SIZE](_ => null);
    }

    /**
     `bh_lru_install`.  The new slots are those of `Installed`; a newly kept buffer gains the
     reference of its slot, and the one that fell out loses its own.
     */
    method Install(bh: BufferHead)
      requires bhs.Length == BH_LRU_SIZE
      modifies bhs, bh`count, (if bhs[BH_LRU_SIZE - 1] == null then {} else {bhs[BH_LRU_SIZE - 1]})`count
      ensures bhs[..] == Installed(old(bhs[..]), bh)
      ensures bh.count == old(bh.count) + if bh in old(bhs[..]) then 0 else 1
      ensures var out := old(bhs[BH_LRU_SIZE - 1]);
        out != null && out != bh ==> out.count == old(out.count) - if bh in old(bhs[..]) then 0 else 1
    {
      ghost var s: seq<BufferHead?> := bhs[..];
      var evictee: BufferHead? := bh;
      var i := 0;
      while i < BH_LRU_SIZE
        modifies bhs
        invariant 0 <= i <= BH_LRU_SIZE && i <= Position(s, bh)
        invariant i == 0 ==> bhs[..] == s && evictee == bh
        invariant i > 0 ==> evictee == s[i - 1] && Shifted(s, bhs[..], i - 1, bh)
      {
        evictee, bhs[i] := bhs[i], evictee;
        assert evictee == s[i] && Shifted(s, bhs[..], i, bh);
        if evictee == bh {
          ShiftedInstalls(s, bhs[..], i, bh);
          return;
        }
        i := i + 1;
      }
      ShiftedInstalls(s, bhs[..], i - 1, bh);
      bh.count := bh.count + 1;
      if evictee != null {
        evictee.count := evictee.count - 1;
      }
    }

    /** The shifting loop of a hit in slot `i`. */
    method MoveToFront(i: nat)
      requires i < bhs.Length
      modifies bhs
      ensures bhs[..] == ToFront(old(bhs[..]), i)
    {
      ghost var s := bhs[..];
      var bh, k := bhs[i], i;
      while k > 0
        invariant 0 <= k <= i
        invariant forall j :: 0 <= j <= k || i < j < bhs.Length ==> bhs[j] == s[j]
        invariant forall j :: k < j <= i ==> bhs[j] == s[j - 1]
      {
        bhs[k] := bhs[k - 1];
        k := k - 1;
      }
      bhs[0] := bh;
      ShiftedIs(s, bhs[..], i, bh);
    }

    /**
     `lookup_bh_lru`: the first slot that matches goes to the front, and its buffer is returned with
     one more reference.
     */
    method Lookup(bdev: nat, block: nat, size: nat) returns (ret: BufferHead?)
      requires bhs.Length == BH_LRU_SIZE
      modifies bhs, (set i: nat | i < bhs.Length && bhs[i] != null :: bhs[i])`count
      ensures ret == null ==> bhs[..] == old(bhs[..])
      ensures ret == null ==> forall j :: 0 <= j < BH_LRU_SIZE ==> !old(Hit(bhs[j], bdev, block, size))
      ensures ret != null ==> exists i: nat ::
        && i < BH_LRU_SIZE && ret == old(bhs[i]) && old(Hit(bhs[i], bdev, block, size))
        && (forall j :: 0 <= j < i ==> !old(Hit(bhs[j], bdev, block, size)))
        && bhs[..] == ToFront(old(bhs[..]), i)
      ensures ret != null ==> ret.count == old(ret.count) + 1
      ensures forall j :: 0 <= j < BH_LRU_SIZE && old(bhs[j]) != null && old(bhs[j]) != ret ==>
        old(bhs[j]).count == old(bhs[j].count)
    {
      ret := null;
      for i := 0 to BH_LRU_SIZE
        invariant forall j :: 0 <= j < i ==> !Hit(bhs[j], bdev, block, size)
        invariant bhs[..] == old(bhs[..])
        invariant unchanged(bhs, set j: nat | j < bhs.Length && bhs[j] != null :: bhs[j])
      {
        var bh := bhs[i];
        if bh != null && bh.Is(bdev, block, size) {
          if i > 0 {
            MoveToFront(i);
          } else {
            assert bhs[..] == ToFront(bhs[..], 0);
          }
          bh.count := bh.count + 1;
          return bh;
        }
      }
    }
  }
}
