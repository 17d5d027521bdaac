/**
 The block devices themselves, updated in place.  A whole disk is its own container, so the
 updates of a claim may fall twice on the same device.
 */
module BlockDevices {
  import opened BlockClaims

  class BlockDevice {
    var holder: Holder
    var holders: int
    var openers: int
    var partCount: int
    var claiming: Holder           // of the whole disk
    var contains: BlockDevice?     // set while open

    ghost predicate Is(d: Dev, whole: BlockDevice)
      reads this
    {
      && holder == d.holder && holders == d.holders && openers == d.openers && partCount == d.partCount
      && (openers > 0 ==> contains == whole)
    }
  }

  ghost predicate Once(ds: seq<BlockDevice>, i: nat)
    requires i < |ds|
  {
    forall j :: 0 <= j < |ds| && ds[j] == ds[i] ==> j == i
  }

  /** The devices `ds` of one disk have the fields `devs`. */
  ghost predicate Shown(ds: seq<BlockDevice>, devs: seq<Dev>)
    reads ds
  {
    |ds| == |devs| > 0 && forall j :: 0 <= j < |ds| ==> ds[j].Is(devs[j], ds[0])
  }

  /** `bd_may_claim`, reading the devices. */
  method MayClaimNow(bdev: BlockDevice, whole: BlockDevice, h: nat, ghost ds: seq<BlockDevice>, ghost devs: seq<Dev>,
                     ghost i: nat)
    returns (ok: bool)
    requires Shown(ds, devs) && i < |ds| && bdev == ds[i] && whole == ds[0] && Once(ds, 0)
    ensures ok == BdMayClaim(devs, i, h)
  {
    if bdev.holder == By(h) {
      return true;
    } else if bdev.holder != Nobody {
      return false;
    } else if whole == bdev {
      return true;
    } else if whole.holder == MayClaim {
      return true;
    } else if whole.holder != Nobody {
      return false;
    }
    return true;
  }

  /** One round of `bd_prepare_to_claim` and, when granted, the mark of `bd_start_claiming`. */
  method StartClaiming(bdev: BlockDevice, whole: BlockDevice, h: nat, ghost ds: seq<BlockDevice>,
                       ghost devs: seq<Dev>, ghost i: nat)
    returns (v: Verdict)
    requires Shown(ds, devs) && i < |ds| && bdev == ds[i] && whole == ds[0] && Once(ds, 0)
    modifies whole`claiming
    ensures v == Prepare(devs, old(whole.claiming), i, h) && Shown(ds, devs)
    ensures whole.claiming == if v == Granted then By(h) else old(whole.claiming)
  {
    var may := MayClaimNow(bdev, whole, h, ds, devs, i);
    if !may {
      return EBUSY;
    }
    if whole.claiming != Nobody {
      return Wait;
    }
    whole.claiming := By(h);
    v := Granted;
  }

  /** The end of `blkdev_get`: the claim is made if the open succeeded, and claiming ends either way. */
  method FinishClaiming(bdev: BlockDevice, whole: BlockDevice, h: nat, got: bool,
                        ghost ds: seq<BlockDevice>, ghost devs: seq<Dev>, ghost i: nat)
    requires Shown(ds, devs) && i < |ds| && bdev == ds[i] && whole == ds[0] && Once(ds, 0) && Once(ds, i)
    requires whole.claiming == By(h) && (got ==> BdMayClaim(devs, i, h))
    modifies whole, bdev
    ensures Shown(ds, if got then Claimed(devs, i, h) else devs) && whole.claiming == Nobody
  {
    if got {
      whole.holders := whole.holders + 1;
      whole.holder := MayClaim;
      bdev.holders := bdev.holders + 1;
      bdev.holder := By(h);
    }
    whole.claiming := Nobody;
  }

  /** The release of a claim in `blkdev_put`. */
  method ReleaseClaim(bdev: BlockDevice, ghost ds: seq<BlockDevice>, ghost devs: seq<Dev>, ghost i: nat)
    requires Shown(ds, devs) && i < |ds| && bdev == ds[i] && bdev.openers > 0 && Once(ds, 0) && Once(ds, i)
    modifies ds[0], bdev
    ensures Shown(ds, Unclaimed(devs, i))
  {
    var whole := bdev.contains;
    bdev.holders := bdev.holders - 1;
    whole.holders := whole.holders - 1;
    if bdev.holders == 0 {
      bdev.holder := Nobody;
    }
    if whole.holders == 0 {
      whole.holder := Nobody;
    }
  }

  /**
   `__blkdev_get`.  Opening the disk under a partition may fail (`diskOk`), and so may what
   comes after it (`restOk`): the disk is then closed again, and nothing has changed.
   */
  method Get(bdev: BlockDevice, whole: BlockDevice, diskOk: bool, restOk: bool,
             ghost ds: seq<BlockDevice>, ghost devs: seq<Dev>, ghost i: nat) returns (ok: bool)
    requires Shown(ds, devs) && i < |ds| && bdev == ds[i] && whole == ds[0] && Once(ds, 0) && Once(ds, i)
    requires devs[0].openers >= 0 && devs[i].openers >= 0
    modifies whole, bdev
    ensures Shown(ds, if ok then Opened(devs, i) else devs)
    ensures ok <==> if i == 0 then restOk else devs[i].openers > 0 || (diskOk && restOk)
  {
    if bdev.openers == 0 {
      bdev.contains := bdev;
      if bdev == whole {
        if !restOk {
          bdev.contains := null;
          return false;
        }
      } else {
        if !diskOk {
          bdev.contains := null;
          return false;
        }
        OpenDisk(whole);
        bdev.contains := whole;
        if !restOk {
          CloseDisk(whole);
          bdev.contains := null;
          return false;
        }
      }
    } else if bdev.contains == bdev && !restOk {
      return false;
    }
    bdev.openers := bdev.openers + 1;
    ok := true;
  }

  /** `__blkdev_get` of a disk for one of its partitions. */
  method OpenDisk(whole: BlockDevice)
    requires whole.openers >= 0 && (whole.openers > 0 ==> whole.contains == whole)
    modifies whole
    ensures whole.openers == old(whole.openers) + 1 && whole.partCount == old(whole.partCount) + 1
    ensures whole.contains == whole
    ensures whole.holder == old(whole.holder) && whole.holders == old(whole.holders)
  {
    if whole.openers == 0 {
      whole.contains := whole;
    }
    whole.openers := whole.openers + 1;
    whole.partCount := whole.partCount + 1;
  }

  /** `__blkdev_put` of a disk for one of its partitions. */
  method CloseDisk(whole: BlockDevice)
    requires whole.openers > 0 && whole.contains == whole
    modifies whole
    ensures whole.openers == old(whole.openers) - 1 && whole.partCount == old(whole.partCount) - 1
    ensures whole.openers > 0 ==> whole.contains == whole
    ensures whole.holder == old(whole.holder) && whole.holders == old(whole.holders)
  {
    whole.partCount := whole.partCount - 1;
    whole.openers := whole.openers - 1;
    if whole.openers == 0 {
      whole.contains := null;
    }
  }

  /** `__blkdev_put`. */
  method Put(bdev: BlockDevice, ghost ds: seq<BlockDevice>, ghost devs: seq<Dev>, ghost i: nat)
    requires Shown(ds, devs) && i < |ds| && bdev == ds[i] && Once(ds, 0) && Once(ds, i)
    requires devs[i].openers > 0 && devs[0].openers > 0
    modifies ds[0], bdev
    ensures Shown(ds, Closed(devs, i))
  {
    bdev.openers := bdev.openers - 1;
    var victim: BlockDevice? := null;
    if bdev.openers == 0 {
      if bdev != bdev.contains {
        victim := bdev.contains;
      }
      bdev.contains := null;
    }
    if victim != null {
      CloseDisk(victim);
    }
  }
}
