/**
 Exclusive claims and open counts of a disk and its partitions (`fs/block_dev.c`).  Device 0
 is the whole disk.
 */
module BlockClaims {

  /** `bd_holder`; `MayClaim` is the marker a disk carries while only its partitions are held. */
  datatype Holder = Nobody | MayClaim | By(id: nat)

  datatype Dev = Dev(holder: Holder, holders: int, openers: int, partCount: int)

  /** `bd_may_claim`. */
  predicate BdMayClaim(devs: seq<Dev>, i: nat, h: nat)
    requires i < |devs|
  {
    if devs[i].holder == By(h) then true
    else if devs[i].holder != Nobody then false
    else if i == 0 then true
    else if devs[0].holder == MayClaim then true
    else devs[0].holder == Nobody
  }

  datatype Verdict = EBUSY | Wait | Granted

  /** One round of `bd_prepare_to_claim`. */
  function Prepare(devs: seq<Dev>, claiming: Holder, i: nat, h: nat): Verdict
    requires i < |devs|
  {
    if !BdMayClaim(devs, i, h) then EBUSY else if claiming != Nobody then Wait else Granted
  }

  /** The holder part of finishing a claim; for the whole disk both updates fall on device 0. */
  function Claimed(devs: seq<Dev>, i: nat, h: nat): (r: seq<Dev>)
    requires i < |devs|
    ensures |r| == |devs|
  {
    var d := devs[0 := devs[0].(holders := devs[0].holders + 1, holder := MayClaim)];
    d[i := d[i].(holders := d[i].holders + 1, holder := By(h))]
  }

  /** The holder part of `blkdev_put`. */
  function Unclaimed(devs: seq<Dev>, i: nat): (r: seq<Dev>)
    requires i < |devs|
    ensures |r| == |devs|
  {
    var d := devs[i := devs[i].(holders := devs[i].holders - 1)];
    var e := d[0 := d[0].(holders := d[0].holders - 1)];
    var f := if e[i].holders == 0 then e[i := e[i].(holder := Nobody)] else e;
    if f[0].holders == 0 then f[0 := f[0].(holder := Nobody)] else f
  }

  /** A successful `__blkdev_get`; the first open of a partition opens the disk too. */
  function Opened(devs: seq<Dev>, i: nat): (r: seq<Dev>)
    requires i < |devs|
    ensures |r| == |devs|
  {
    var d := if i > 0 && devs[i].openers == 0
      then devs[0 := devs[0].(openers := devs[0].openers + 1, partCount := devs[0].partCount + 1)] else devs;
    d[i := d[i].(openers := d[i].openers + 1)]
  }

  /** `__blkdev_put`; the last close of a partition closes the disk too. */
  function Closed(devs: seq<Dev>, i: nat): (r: seq<Dev>)
    requires i < |devs|
    ensures |r| == |devs|
  {
    var d := devs[i := devs[i].(openers := devs[i].openers - 1)];
    if i > 0 && d[i].openers == 0
    then d[0 := d[0].(openers := d[0].openers - 1, partCount := d[0].partCount - 1)] else d
  }

  /** An exclusive open under way: claiming started, device opened or not opened, claim not finished. */
  datatype Stage = Started | Ready | Failed

  datatype Pending = Pending(dev: nat, holder: nat, stage: Stage)

  /**
   `claims[i]` are the holders of exclusive opens of device `i` that have not been released;
   `opens[i]` counts all opens of the device itself, plain and exclusive.
   */
  datatype State = State(devs: seq<Dev>, claiming: Holder, pending: map<nat, Pending>,
                         claims: seq<multiset<nat>>, opens: seq<nat>)

  datatype Action =
    | StartClaim(t: nat, i: nat, h: nat)
    | Open(t: nat)                    // __blkdev_get of a claimer succeeds
    | FailOpen(t: nat)                // it fails
    | FinishClaim(t: nat)
    | AbortClaim(t: nat)
    | OpenPlain(i: nat)
    | ReleaseClaim(i: nat, h: nat)
    | Close(i: nat)

  predicate Typed(s: State) {
    && |s.devs| == |s.claims| == |s.opens| > 0
    && forall t :: t in s.pending ==> s.pending[t].dev < |s.devs|
  }

  /** 1 for the device a claimer has opened and not yet claimed. */
  function InHand(s: State, i: nat): nat {
    if exists t :: t in s.pending && s.pending[t].dev == i && s.pending[t].stage == Ready then 1 else 0
  }

  predicate Enabled(s: State, a: Action)
    requires Typed(s)
  {
    match a
    case StartClaim(t, i, h) => t !in s.pending && i < |s.devs| && Prepare(s.devs, s.claiming, i, h) == Granted
    case Open(t) => t in s.pending && s.pending[t].stage == Started
    case FailOpen(t) => t in s.pending && s.pending[t].stage == Started
    case FinishClaim(t) => t in s.pending && s.pending[t].stage == Ready
    case AbortClaim(t) => t in s.pending && s.pending[t].stage == Failed
    case OpenPlain(i) => i < |s.devs|
    case ReleaseClaim(i, h) => i < |s.devs| && h in s.claims[i]
    // a plain open, or a released exclusive one
    case Close(i) => i < |s.devs| && s.opens[i] > |s.claims[i]| + InHand(s, i)
  }

  function OpenedBy(s: State, t: nat): State
    requires Typed(s) && t in s.pending
  {
    var p := s.pending[t];
    s.(devs := Opened(s.devs, p.dev), opens := s.opens[p.dev := s.opens[p.dev] + 1],
      pending := s.pending[t := p.(stage := Ready)])
  }

  function Finished(s: State, t: nat): State
    requires Typed(s) && t in s.pending
  {
    var p := s.pending[t];
    s.(devs := Claimed(s.devs, p.dev, p.holder), claiming := Nobody, pending := s.pending - {t},
       claims := s.claims[p.dev := s.claims[p.dev] + multiset{p.holder}])
  }

  function Released(s: State, i: nat, h: nat): State
    requires Typed(s) && i < |s.devs|
  {
    s.(devs := Unclaimed(s.devs, i), claims := s.claims[i := s.claims[i] - multiset{h}])
  }

  function Apply(s: State, a: Action): State
    requires Typed(s) && Enabled(s, a)
  {
    match a
    case StartClaim(t, i, h) => s.(claiming := By(h), pending := s.pending[t := Pending(i, h, Started)])
    case Open(t) => OpenedBy(s, t)
    case FailOpen(t) => s.(pending := s.pending[t := s.pending[t].(stage := Failed)])
    case FinishClaim(t) => Finished(s, t)
    case AbortClaim(t) => s.(claiming := Nobody, pending := s.pending - {t})
    case OpenPlain(i) => s.(devs := Opened(s.devs, i), opens := s.opens[i := s.opens[i] + 1])
    case ReleaseClaim(i, h) => Released(s, i, h)
    case Close(i) => s.(devs := Closed(s.devs, i), opens := s.opens[i := s.opens[i] - 1])
  }

  // ----- the invariant: holders -----

  /** Claims on partitions. */
  function Parts(claims: seq<multiset<nat>>): nat {
    if |claims| <= 1 then 0 else |claims[|claims| - 1]| + Parts(claims[..|claims| - 1])
  }

  predicate OneHolder(m: multiset<nat>, h: nat) { forall x :: x in m ==> x == h }

  /** What `bd_holder` of a device says about its claims. */
  predicate HolderOk(devs: seq<Dev>, claims: seq<multiset<nat>>, i: nat)
    requires i < |devs| == |claims|
  {
    && (|claims[i]| > 0 ==> devs[i].holder.By? && OneHolder(claims[i], devs[i].holder.id))
    && (devs[i].holder.By? ==> |claims[i]| > 0)
    && (i > 0 ==> devs[i].holder != MayClaim && devs[i].holders == |claims[i]|)
  }

  predicate DiskOk(devs: seq<Dev>, claims: seq<multiset<nat>>)
    requires |devs| == |claims| > 0
  {
    && devs[0].holders == 2 * |claims[0]| + Parts(claims)
    && (|claims[0]| > 0 ==> Parts(claims) == 0)
    && (devs[0].holder == MayClaim <==> Parts(claims) > 0)
  }

  predicate Holders(devs: seq<Dev>, claims: seq<multiset<nat>>) {
    && |devs| == |claims| > 0 && DiskOk(devs, claims)
    && forall i {:trigger HolderOk(devs, claims, i)} :: 0 <= i < |devs| ==> HolderOk(devs, claims, i)
  }

  lemma {:induction false} PartsUpdate(claims: seq<multiset<nat>>, i: nat, m: multiset<nat>)
    requires i < |claims|
    ensures Parts(claims[i := m]) == if i == 0 then Parts(claims) else Parts(claims) - |claims[i]| + |m|
  {
    var n := |claims| - 1;
    if n > 0 {
      if i == n {
        assert claims[i := m][..n] == claims[..n];
      } else {
        assert claims[i := m][..n] == claims[..n][i := m];
        PartsUpdate(claims[..n], i, m);
      }
    }
  }

  lemma {:induction false} PartsAtLeast(claims: seq<multiset<nat>>, i: nat)
    requires 0 < i < |claims|
    ensures Parts(claims) >= |claims[i]|
  {
    var n := |claims| - 1;
    if i < n {
      PartsAtLeast(claims[..n], i);
    }
  }

  lemma ClaimDisk(devs: seq<Dev>, claims: seq<multiset<nat>>, i: nat, h: nat)
    requires Holders(devs, claims) && i < |devs| && BdMayClaim(devs, i, h)
    ensures DiskOk(Claimed(devs, i, h), claims[i := claims[i] + multiset{h}])
  {
    var c := claims[i := claims[i] + multiset{h}];
    PartsUpdate(claims, i, c[i]);
    assert |c[i]| == |claims[i]| + 1;
    assert HolderOk(devs, claims, i) && HolderOk(devs, claims, 0);
    if i > 0 {
      PartsAtLeast(claims, i);
    }
  }

  lemma ClaimHolder(devs: seq<Dev>, claims: seq<multiset<nat>>, i: nat, h: nat, j: nat)
    requires Holders(devs, claims) && i < |devs| && BdMayClaim(devs, i, h) && j < |devs|
    ensures HolderOk(Claimed(devs, i, h), claims[i := claims[i] + multiset{h}], j)
  {
    var c := claims[i := claims[i] + multiset{h}];
    assert |c[i]| == |claims[i]| + 1;
    assert HolderOk(devs, claims, j) && HolderOk(devs, claims, i) && HolderOk(devs, claims, 0);
    if i > 0 {
      PartsAtLeast(claims, i);
    }
  }

  /** Finishing a claim that may be made. */
  lemma ClaimKeeps(devs: seq<Dev>, claims: seq<multiset<nat>>, i: nat, h: nat)
    requires Holders(devs, claims) && i < |devs| && BdMayClaim(devs, i, h)
    ensures Holders(Claimed(devs, i, h), claims[i := claims[i] + multiset{h}])
  {
    var d, c := Claimed(devs, i, h), claims[i := claims[i] + multiset{h}];
    ClaimDisk(devs, claims, i, h);
    forall j | 0 <= j < |d|
      ensures HolderOk(d, c, j)
    {
      ClaimHolder(devs, claims, i, h, j);
    }
  }

  lemma ReleaseDisk(devs: seq<Dev>, claims: seq<multiset<nat>>, i: nat, h: nat)
    requires Holders(devs, claims) && i < |devs| && h in claims[i]
    ensures DiskOk(Unclaimed(devs, i), claims[i := claims[i] - multiset{h}])
  {
    assert |claims[i] - multiset{h}| == |claims[i]| - 1;
    PartsUpdate(claims, i, claims[i] - multiset{h});
    assert HolderOk(devs, claims, i) && HolderOk(devs, claims, 0);
    if i > 0 {
      PartsAtLeast(claims, i);
    }
  }

  lemma ReleaseHolder(devs: seq<Dev>, claims: seq<multiset<nat>>, i: nat, h: nat, j: nat)
    requires Holders(devs, claims) && i < |devs| && h in claims[i] && j < |devs|
    ensures HolderOk(Unclaimed(devs, i), claims[i := claims[i] - multiset{h}], j)
  {
    assert |claims[i] - multiset{h}| == |claims[i]| - 1;
    assert HolderOk(devs, claims, j) && HolderOk(devs, claims, i) && HolderOk(devs, claims, 0);
    if i > 0 {
      PartsAtLeast(claims, i);
    }
  }

  lemma ReleaseKeeps(devs: seq<Dev>, claims: seq<multiset<nat>>, i: nat, h: nat)
    requires Holders(devs, claims) && i < |devs| && h in claims[i]
    ensures Holders(Unclaimed(devs, i), claims[i := claims[i] - multiset{h}])
  {
    var d, c := Unclaimed(devs, i), claims[i := claims[i] - multiset{h}];
    ReleaseDisk(devs, claims, i, h);
    forall j | 0 <= j < |d|
      ensures HolderOk(d, c, j)
    {
      ReleaseHolder(devs, claims, i, h, j);
    }
  }

  lemma {:induction false} PartsZero(claims: seq<multiset<nat>>)
    ensures Parts(claims) == 0 <==> forall j :: 0 < j < |claims| ==> claims[j] == multiset{}
  {
    var n := |claims| - 1;
    if n > 0 {
      PartsZero(claims[..n]);
      assert claims[n] == multiset{} <==> |claims[n]| == 0;
    }
  }

  /** Who may claim, in terms of the claims there are. */
  predicate Claimable(claims: seq<multiset<nat>>, i: nat, h: nat)
    requires i < |claims|
  {
    && (forall x :: x in claims[i] ==> x == h)
    && (if i == 0 then forall j :: 0 < j < |claims| ==> claims[j] == multiset{} else claims[0] == multiset{})
  }

  /**
   `bd_may_claim` is exact: a claim may be made if and only if all claims on the device are by the
   same holder, and nobody claims the disk for a partition, or a partition for the disk.
   */
  lemma MayClaimIff(devs: seq<Dev>, claims: seq<multiset<nat>>, i: nat, h: nat)
    requires Holders(devs, claims) && i < |devs|
    ensures BdMayClaim(devs, i, h) <==> Claimable(claims, i, h)
  {
    assert HolderOk(devs, claims, i) && HolderOk(devs, claims, 0);
    PartsZero(claims);
    assert claims[0] == multiset{} <==> |claims[0]| == 0;
    if i > 0 {
      PartsAtLeast(claims, i);
    }
    if claims[i] != multiset{} {
      var x :| x in claims[i];
      assert |claims[i]| > 0 && devs[i].holder == By(x);
    }
  }

  /** A release never takes back a permission to claim. */
  lemma ReleaseLeavesClaimable(devs: seq<Dev>, claims: seq<multiset<nat>>, i: nat, h: nat, j: nat, g: nat)
    requires Holders(devs, claims) && i < |devs| && h in claims[i] && j < |devs| && BdMayClaim(devs, j, g)
    ensures BdMayClaim(Unclaimed(devs, i), j, g)
  {
    assert HolderOk(devs, claims, i) && HolderOk(devs, claims, j) && HolderOk(devs, claims, 0);
    if j > 0 {
      PartsAtLeast(claims, j);
    }
    if i > 0 {
      PartsAtLeast(claims, i);
    }
  }

  // ----- the invariant: open counts -----

  /** Partitions that are open. */
  function OpenParts(devs: seq<Dev>): nat {
    if |devs| <= 1 then 0 else (if devs[|devs| - 1].openers > 0 then 1 else 0) + OpenParts(devs[..|devs| - 1])
  }

  lemma {:induction false} OpenPartsUpdate(devs: seq<Dev>, i: nat, d: Dev)
    requires i < |devs|
    ensures OpenParts(devs[i := d]) == if i == 0 then OpenParts(devs)
      else OpenParts(devs) - (if devs[i].openers > 0 then 1 else 0) + (if d.openers > 0 then 1 else 0)
  {
    var n := |devs| - 1;
    if n > 0 {
      if i == n {
        assert devs[i := d][..n] == devs[..n];
      } else {
        assert devs[i := d][..n] == devs[..n][i := d];
        OpenPartsUpdate(devs[..n], i, d);
      }
    }
  }

  /** `bd_openers` and `bd_part_count`, given how often each device itself is open. */
  predicate Opens(devs: seq<Dev>, direct: seq<nat>) {
    && |devs| == |direct| > 0
    && devs[0].openers == direct[0] + OpenParts(devs) && devs[0].partCount == OpenParts(devs)
    && forall i :: 0 < i < |devs| ==> devs[i].openers == direct[i] && devs[i].partCount == 0
  }

  lemma OpenKeeps(devs: seq<Dev>, direct: seq<nat>, i: nat)
    requires Opens(devs, direct) && i < |devs|
    ensures Opens(Opened(devs, i), direct[i := direct[i] + 1])
  {
    var d := if i > 0 && devs[i].openers == 0
      then devs[0 := devs[0].(openers := devs[0].openers + 1, partCount := devs[0].partCount + 1)] else devs;
    OpenPartsUpdate(devs, 0, d[0]);
    OpenPartsUpdate(d, i, Opened(devs, i)[i]);
    assert i == 0 ==> devs[0 := devs[0]] == devs;
    assert d == devs[0 := d[0]];
  }

  lemma CloseKeeps(devs: seq<Dev>, direct: seq<nat>, i: nat)
    requires Opens(devs, direct) && i < |devs| && direct[i] > 0
    ensures Opens(Closed(devs, i), direct[i := direct[i] - 1])
  {
    var d := devs[i := devs[i].(openers := devs[i].openers - 1)];
    OpenPartsUpdate(devs, i, d[i]);
    OpenPartsUpdate(d, 0, Closed(devs, i)[0]);
    assert i > 0 ==> Closed(devs, i) == d[0 := Closed(devs, i)[0]];
  }

  /** Claims and opens touch different fields. */
  lemma {:induction false} SameOpens(devs: seq<Dev>, d: seq<Dev>, direct: seq<nat>)
    requires Opens(devs, direct) && |d| == |devs|
    requires forall i :: 0 <= i < |d| ==> d[i].openers == devs[i].openers && d[i].partCount == devs[i].partCount
    ensures Opens(d, direct)
  {
    SameOpenParts(devs, d);
  }

  lemma {:induction false} SameOpenParts(devs: seq<Dev>, d: seq<Dev>)
    requires |d| == |devs| && forall i :: 0 <= i < |d| ==> d[i].openers == devs[i].openers
    ensures OpenParts(d) == OpenParts(devs)
  {
    if |d| > 1 {
      SameOpenParts(devs[..|d| - 1], d[..|d| - 1]);
    }
  }

  lemma SameHolders(devs: seq<Dev>, d: seq<Dev>, claims: seq<multiset<nat>>)
    requires Holders(devs, claims) && |d| == |devs|
    requires forall i :: 0 <= i < |d| ==> d[i].holder == devs[i].holder && d[i].holders == devs[i].holders
    ensures Holders(d, claims)
  {
    forall i | 0 <= i < |d|
      ensures HolderOk(d, claims, i)
    {
      assert HolderOk(devs, claims, i);
    }
  }

  // ----- the invariant: claims in progress -----

  /** Nobody is claiming, or exactly one thread is, and it still may. */
  ghost predicate ClaimingOk(s: State)
    requires Typed(s)
  {
    if s.claiming == Nobody then s.pending == map[]
    else exists t :: t in s.pending && Claimer(s, t)
  }

  predicate Claimer(s: State, t: nat)
    requires Typed(s) && t in s.pending
  {
    s.pending == map[t := s.pending[t]] && s.claiming == By(s.pending[t].holder)
      && BdMayClaim(s.devs, s.pending[t].dev, s.pending[t].holder)
  }

  /** Every claim, and the claim in progress, has an open behind it. */
  predicate Backed(s: State, i: nat)
    requires Typed(s) && i < |s.devs|
  {
    s.opens[i] >= |s.claims[i]| + InHand(s, i)
  }

  ghost predicate Inv(s: State) {
    && Typed(s) && Holders(s.devs, s.claims) && ClaimingOk(s) && Opens(s.devs, s.opens)
    && forall i {:trigger Backed(s, i)} :: 0 <= i < |s.devs| ==> Backed(s, i)
  }

  lemma StartKeeps(s: State, t: nat, i: nat, h: nat)
    requires Inv(s) && Enabled(s, StartClaim(t, i, h))
    ensures Inv(Apply(s, StartClaim(t, i, h)))
  {
    var u := Apply(s, StartClaim(t, i, h));
    assert u.pending == map[t := Pending(i, h, Started)];
    assert Claimer(u, t);
    forall j | 0 <= j < |u.devs|
      ensures Backed(u, j)
    {
      assert Backed(s, j);
    }
  }

  lemma OpenClaimedKeeps(s: State, t: nat)
    requires Inv(s) && Enabled(s, Open(t))
    ensures Inv(OpenedBy(s, t))
  {
    var u, i := OpenedBy(s, t), s.pending[t].dev;
    assert Claimer(s, t);
    OpenKeeps(s.devs, s.opens, i);
    SameHolders(s.devs, u.devs, s.claims);
    assert u.pending == map[t := u.pending[t]];
    assert Claimer(u, t);
    forall j | 0 <= j < |u.devs|
      ensures Backed(u, j)
    {
      assert Backed(s, j);
    }
  }

  lemma FailKeeps(s: State, t: nat)
    requires Inv(s) && Enabled(s, FailOpen(t))
    ensures Inv(Apply(s, FailOpen(t)))
  {
    var u := Apply(s, FailOpen(t));
    assert Claimer(s, t);
    assert u.pending == map[t := u.pending[t]];
    assert Claimer(u, t);
    forall j | 0 <= j < |u.devs|
      ensures Backed(u, j)
    {
      assert Backed(s, j);
    }
  }

  /** At the finish the assertions hold: the device may still be claimed, and it is this holder that is claiming. */
  lemma FinishKeeps(s: State, t: nat)
    requires Inv(s) && Enabled(s, FinishClaim(t))
    ensures BdMayClaim(s.devs, s.pending[t].dev, s.pending[t].holder) && s.claiming == By(s.pending[t].holder)
    ensures Inv(Finished(s, t))
  {
    var u, p := Finished(s, t), s.pending[t];
    assert Claimer(s, t);
    ClaimKeeps(s.devs, s.claims, p.dev, p.holder);
    assert u.pending == map[];
    forall j | 0 <= j < |u.devs|
      ensures Backed(u, j)
    {
      assert Backed(s, j);
    }
    SameOpens(s.devs, u.devs, s.opens);
  }

  lemma AbortKeeps(s: State, t: nat)
    requires Inv(s) && Enabled(s, AbortClaim(t))
    ensures s.claiming == By(s.pending[t].holder)
    ensures Inv(Apply(s, AbortClaim(t)))
  {
    var u := Apply(s, AbortClaim(t));
    assert Claimer(s, t);
    assert u.pending == map[];
    forall j | 0 <= j < |u.devs|
      ensures Backed(u, j)
    {
      assert Backed(s, j);
    }
  }

  lemma StillClaiming(s: State, u: State)
    requires Typed(s) && Typed(u) && ClaimingOk(s) && u.pending == s.pending && u.claiming == s.claiming
    requires |u.devs| == |s.devs|
    requires forall t :: t in s.pending && BdMayClaim(s.devs, s.pending[t].dev, s.pending[t].holder) ==>
      BdMayClaim(u.devs, s.pending[t].dev, s.pending[t].holder)
    ensures ClaimingOk(u)
  {
    if s.claiming != Nobody {
      var t :| t in s.pending && Claimer(s, t);
      assert Claimer(u, t);
    }
  }

  lemma PlainKeeps(s: State, i: nat)
    requires Inv(s) && i < |s.devs|
    ensures Inv(Apply(s, OpenPlain(i)))
  {
    var u := Apply(s, OpenPlain(i));
    OpenKeeps(s.devs, s.opens, i);
    SameHolders(s.devs, u.devs, s.claims);
    StillClaiming(s, u);
    forall j | 0 <= j < |u.devs|
      ensures Backed(u, j)
    {
      assert Backed(s, j);
    }
  }

  lemma ClosedKeeps(s: State, i: nat)
    requires Inv(s) && Enabled(s, Close(i))
    ensures Inv(Apply(s, Close(i)))
  {
    var u := Apply(s, Close(i));
    CloseKeeps(s.devs, s.opens, i);
    SameHolders(s.devs, u.devs, s.claims);
    StillClaiming(s, u);
    forall j | 0 <= j < |u.devs|
      ensures Backed(u, j)
    {
      assert Backed(s, j);
    }
  }

  lemma ReleasedClaiming(s: State, i: nat, h: nat)
    requires Inv(s) && Enabled(s, ReleaseClaim(i, h))
    ensures ClaimingOk(Released(s, i, h))
  {
    var u := Released(s, i, h);
    if s.claiming != Nobody {
      var t :| t in s.pending && Claimer(s, t);
      ReleaseLeavesClaimable(s.devs, s.claims, i, h, s.pending[t].dev, s.pending[t].holder);
      assert Claimer(u, t);
    }
  }

  lemma UnclaimedOpens(devs: seq<Dev>, direct: seq<nat>, i: nat)
    requires Opens(devs, direct) && i < |devs|
    ensures Opens(Unclaimed(devs, i), direct)
  {
    SameOpens(devs, Unclaimed(devs, i), direct);
  }

  lemma ReleasedBacked(s: State, i: nat, h: nat, j: nat)
    requires Typed(s) && i < |s.devs| && j < |s.devs| && Backed(s, j)
    ensures Typed(Released(s, i, h)) && Backed(Released(s, i, h), j)
  {
    assert |s.claims[i] - multiset{h}| <= |s.claims[i]|;
  }

  lemma ReleasedKeeps(s: State, i: nat, h: nat)
    requires Inv(s) && Enabled(s, ReleaseClaim(i, h))
    ensures Inv(Released(s, i, h))
  {
    var u := Released(s, i, h);
    ReleaseKeeps(s.devs, s.claims, i, h);
    ReleasedClaiming(s, i, h);
    UnclaimedOpens(s.devs, s.opens, i);
    forall j | 0 <= j < |u.devs|
      ensures Backed(u, j)
    {
      ReleasedBacked(s, i, h, j);
    }
  }

  lemma StepKeeps(s: State, a: Action)
    requires Inv(s) && Enabled(s, a)
    ensures Inv(Apply(s, a))
  {
    match a
    case StartClaim(t, i, h) => StartKeeps(s, t, i, h);
    case Open(t) => OpenClaimedKeeps(s, t);
    case FailOpen(t) => FailKeeps(s, t);
    case FinishClaim(t) => FinishKeeps(s, t);
    case AbortClaim(t) => AbortKeeps(s, t);
    case OpenPlain(i) => PlainKeeps(s, i);
    case ReleaseClaim(i, h) => ReleasedKeeps(s, i, h);
    case Close(i) => ClosedKeeps(s, i);
  }

  // ----- runs -----

  predicate Runs(s: State, run: seq<Action>, t: State)
    decreases |run|
  {
    if run == [] then s == t
    else Typed(s) && Enabled(s, run[0]) && Runs(Apply(s, run[0]), run[1..], t)
  }

  lemma {:induction false} RunKeeps(s: State, run: seq<Action>, t: State)
    requires Inv(s) && Runs(s, run, t)
    ensures Inv(t)
    decreases |run|
  {
    if run != [] {
      StepKeeps(s, run[0]);
      RunKeeps(Apply(s, run[0]), run[1..], t);
    }
  }

  /** A disk nobody has opened. */
  function Fresh(n: nat): State
    requires n > 0
  {
    State(seq(n, _ => Dev(Nobody, 0, 0, 0)), Nobody, map[], seq(n, _ => multiset{}), seq(n, _ => 0))
  }

  lemma {:induction false} NoneYet(claims: seq<multiset<nat>>, devs: seq<Dev>)
    requires |claims| == |devs| && forall i :: 0 <= i < |devs| ==> claims[i] == multiset{} && devs[i].openers == 0
    ensures Parts(claims) == 0 && OpenParts(devs) == 0
  {
    if |devs| > 1 {
      NoneYet(claims[..|devs| - 1], devs[..|devs| - 1]);
    }
  }

  lemma FreshOk(n: nat)
    requires n > 0
    ensures Inv(Fresh(n))
  {
    var s := Fresh(n);
    NoneYet(s.claims, s.devs);
    forall i | 0 <= i < n
      ensures HolderOk(s.devs, s.claims, i) && Backed(s, i)
    {
    }
  }

  /**
   In every state of every run: no device is held by two, a disk held by somebody has no held
   partition, and the counts balance, a claim on the disk itself counting twice.
   */
  lemma Exclusive(n: nat, run: seq<Action>, t: State)
    requires n > 0 && Runs(Fresh(n), run, t)
    ensures |t.devs| == |t.claims| > 0
    ensures forall i, g, h :: 0 <= i < |t.claims| && g in t.claims[i] && h in t.claims[i] ==>
          g == h && t.devs[i].holder == By(g)
    ensures t.claims[0] != multiset{} ==> forall i :: 0 < i < |t.claims| ==> t.claims[i] == multiset{}
    ensures t.devs[0].holders == 2 * |t.claims[0]| + Parts(t.claims)
    ensures forall i :: 0 < i < |t.devs| ==> t.devs[i].holders == |t.claims[i]|
  {
    FreshOk(n);
    RunKeeps(Fresh(n), run, t);
    forall i | 0 <= i < |t.claims|
      ensures HolderOk(t.devs, t.claims, i) && (i > 0 ==> Parts(t.claims) >= |t.claims[i]|)
    {
      if i > 0 {
        PartsAtLeast(t.claims, i);
      }
    }
    if t.claims[0] != multiset{} {
      forall i | 0 < i < |t.claims|
        ensures t.claims[i] == multiset{}
      {
        PartsAtLeast(t.claims, i);
      }
    }
  }

  /** A claim under way can always be ended: opened or failed, then finished or given up, which lets others claim. */
  lemma ClaimEnds(s: State, t: nat)
    requires Inv(s) && t in s.pending
    ensures match s.pending[t].stage
      case Started => Enabled(s, Open(t)) && Apply(s, Open(t)).pending[t].stage == Ready
                      && Enabled(s, FailOpen(t)) && Apply(s, FailOpen(t)).pending[t].stage == Failed
      case Ready => Enabled(s, FinishClaim(t)) && Apply(s, FinishClaim(t)).pending == map[]
                    && Apply(s, FinishClaim(t)).claiming == Nobody
      case Failed => Enabled(s, AbortClaim(t)) && Apply(s, AbortClaim(t)).pending == map[]
                     && Apply(s, AbortClaim(t)).claiming == Nobody
  {
  }

  /** A holder can always let go, and then close. */
  lemma HolderLetsGo(s: State, i: nat, h: nat)
    requires Inv(s) && i < |s.claims| && h in s.claims[i]
    ensures Enabled(s, ReleaseClaim(i, h)) && Typed(Released(s, i, h)) && Enabled(Released(s, i, h), Close(i))
  {
    StepKeeps(s, ReleaseClaim(i, h));
    assert Backed(s, i);
    assert |s.claims[i] - multiset{h}| == |s.claims[i]| - 1;
    assert Released(s, i, h).pending == s.pending;
  }

  /** In every state of every run: how often each device is open, with one more open of the disk per open partition. */
  lemma OpenCounts(n: nat, run: seq<Action>, t: State)
    requires n > 0 && Runs(Fresh(n), run, t)
    ensures |t.devs| == |t.opens| == n && t.devs[0].partCount == OpenParts(t.devs)
    ensures t.devs[0].openers == t.opens[0] + OpenParts(t.devs)
    ensures forall i :: 0 < i < n ==> t.devs[i].openers == t.opens[i] && t.devs[i].partCount == 0
  {
    FreshOk(n);
    RunKeeps(Fresh(n), run, t);
    RunSize(Fresh(n), run, t);
  }

  lemma {:induction false} RunSize(s: State, run: seq<Action>, t: State)
    requires Inv(s) && Runs(s, run, t)
    ensures |t.devs| == |s.devs|
    decreases |run|
  {
    if run != [] {
      StepKeeps(s, run[0]);
      RunSize(Apply(s, run[0]), run[1..], t);
    }
  }

  /**
   In every state of every run: a claim is granted exactly if it is claimable and no other claim is
   under way, refused with EBUSY exactly if it is not claimable, and waits otherwise.
   */
  lemma GrantedIff(n: nat, run: seq<Action>, t: State, i: nat, h: nat)
    requires n > 0 && Runs(Fresh(n), run, t) && i < |t.devs|
    ensures |t.devs| == |t.claims|
    ensures Prepare(t.devs, t.claiming, i, h) == Granted <==> Claimable(t.claims, i, h) && t.pending == map[]
    ensures Prepare(t.devs, t.claiming, i, h) == EBUSY <==> !Claimable(t.claims, i, h)
    ensures Typed(t) && forall u :: Enabled(t, StartClaim(u, i, h)) <==> Claimable(t.claims, i, h) && t.pending == map[]
  {
    FreshOk(n);
    RunKeeps(Fresh(n), run, t);
    MayClaimIff(t.devs, t.claims, i, h);
  }

  /** Whatever was released between start and finish, both assertions of the finish hold. */
  lemma NoBug(n: nat, run: seq<Action>, t: State, k: nat)
    requires n > 0 && Runs(Fresh(n), run, t) && k in t.pending
    ensures Typed(t)
    ensures t.claiming == By(t.pending[k].holder)
    ensures BdMayClaim(t.devs, t.pending[k].dev, t.pending[k].holder)
    ensures t.pending.Keys == {k}
  {
    FreshOk(n);
    RunKeeps(Fresh(n), run, t);
    assert Claimer(t, k);
  }

  /** A device that is no longer open has no holder, so closing it last finds no holders left. */
  lemma ClosedUnheld(n: nat, run: seq<Action>, t: State, i: nat)
    requires n > 0 && Runs(Fresh(n), run, t) && i < |t.devs|
    ensures t.devs[i].openers >= 0 && (t.devs[i].openers == 0 ==> t.devs[i].holders == 0 && t.devs[i].holder == Nobody)
  {
    FreshOk(n);
    RunKeeps(Fresh(n), run, t);
    assert HolderOk(t.devs, t.claims, i);
    forall j | 0 <= j < |t.devs|
      ensures t.opens[j] >= |t.claims[j]|
    {
      assert Backed(t, j);
    }
    if i == 0 && t.devs[0].openers == 0 {
      NoOpenParts(t.devs, t.claims, t.opens);
    }
  }

  lemma {:induction false} NoOpenParts(devs: seq<Dev>, claims: seq<multiset<nat>>, direct: seq<nat>)
    requires |devs| == |claims| == |direct| && OpenParts(devs) == 0
    requires forall i :: 0 < i < |devs| ==> devs[i].openers == direct[i] >= |claims[i]|
    ensures Parts(claims) == 0
  {
    var n := |devs| - 1;
    if n > 0 {
      NoOpenParts(devs[..n], claims[..n], direct[..n]);
    }
  }

  /** Opening and closing, and claiming and releasing, undo each other. */
  lemma RoundTrips(devs: seq<Dev>, claims: seq<multiset<nat>>, i: nat, h: nat)
    requires Holders(devs, claims) && i < |devs|
    ensures devs[i].openers >= 0 ==> Closed(Opened(devs, i), i) == devs
    ensures BdMayClaim(devs, i, h) ==> Unclaimed(Claimed(devs, i, h), i) == devs
  {
    assert HolderOk(devs, claims, i) && HolderOk(devs, claims, 0);
    if i > 0 {
      PartsAtLeast(claims, i);
    }
  }
}
