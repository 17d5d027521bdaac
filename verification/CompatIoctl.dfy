/**
 The table of 32-bit ioctl numbers (`fs/compat_ioctl.c`): numbers are transformed so that they
 spread evenly, sorted, and looked up from a guessed place.
 */
module CompatIoctl {
  import opened Arithmetic

  /** `XFORM`. */
  function Xform(i: bv32): bv32 { i ^ (i << 27) ^ (i << 17) }

  /** Transforming twice gives the number back: every cross term is shifted out or cancels. */
  lemma XformInvolution(i: bv32)
    ensures Xform(Xform(i)) == i
  {
  }

  /** The low 17 bits stay; above them the low bits come in shifted by 17, and from bit 27 on also shifted by 27. */
  lemma XformBits(i: bv32)
    ensures Xform(i) & 0x1_ffff == i & 0x1_ffff
    ensures (Xform(i) >> 17) & 0x3ff == ((i >> 17) ^ i) & 0x3ff
    ensures (Xform(i) >> 27) & 0x1f == ((i >> 27) ^ (i >> 10) ^ i) & 0x1f
  {
  }

  predicate Sorted(table: seq<nat>) { forall i, j :: 0 <= i <= j < |table| ==> table[i] <= table[j] }

  lemma GuessInRange(hi: nat, max: nat)
    requires hi < 0x1_0000
    ensures hi * max / 0x1_0000 <= max
  {
    if max > 0 {
      MulOrder(hi, 0xffff, max);
    }
  }

  /** The place to start from is in the table. */
  function Guess(xcmd: nat, max: nat): (i: nat)
    requires xcmd < 0x1_0000_0000
    ensures i <= max && 0x1_0000 * i <= xcmd / 0x1_0000 * max < 0x1_0000 * (i + 1)
  {
    GuessInRange(xcmd / 0x1_0000, max);
    xcmd / 0x1_0000 * max / 0x1_0000
  }

  /**
   `compat_ioctl_check_table`: from a place guessed by the upper half of the number, up while
   the entries are smaller, then down while they are greater.
   */
  method CheckTable(table: seq<nat>, xcmd: nat) returns (found: bool)
    requires 0 < |table| <= 0x1_0000 && Sorted(table) && xcmd < 0x1_0000_0000
    ensures found <==> xcmd in table
  {
    var max := |table| - 1;
    var i := Guess(xcmd, max);
    while table[i] < xcmd && i < max
      invariant 0 <= i <= max
    {
      i := i + 1;
    }
    while table[i] > xcmd && i > 0
      invariant 0 <= i <= max
      invariant table[i] < xcmd ==> forall j :: i < j <= max ==> table[j] > xcmd
    {
      i := i - 1;
    }
    found := table[i] == xcmd;
  }

  /** The table has exactly the entries made for `cmds`: transformed numbers, as naturals. */
  ghost predicate TableOf<T(!new), U(!new)>(table: seq<nat>, xform: T -> U, value: U -> nat, cmds: seq<T>) {
    && (forall k :: 0 <= k < |cmds| ==> value(xform(cmds[k])) in table)
    && (forall i :: 0 <= i < |table| ==> exists k :: 0 <= k < |cmds| && table[i] == value(xform(cmds[k])))
  }

  lemma InjectiveLookup<T(!new), U(!new)>(table: seq<nat>, xform: T -> U, value: U -> nat, cmds: seq<T>, cmd: T)
    requires TableOf(table, xform, value, cmds)
    requires (forall a, b :: xform(a) == xform(b) ==> a == b) && forall x, y :: value(x) == value(y) ==> x == y
    ensures value(xform(cmd)) in table <==> cmd in cmds
  {
    if value(xform(cmd)) in table {
      var i :| 0 <= i < |table| && table[i] == value(xform(cmd));
      var k :| 0 <= k < |cmds| && table[i] == value(xform(cmds[k]));
      assert xform(cmds[k]) == xform(cmd);
    }
  }

  function Value(x: bv32): nat { x as nat }

  lemma ValueInjective(x: bv32, y: bv32)
    requires Value(x) == Value(y)
    ensures x == y
  {
    assert (x as nat) as bv32 == x;
    assert (y as nat) as bv32 == y;
  }

  lemma XformInjective(a: bv32, b: bv32)
    requires Xform(a) == Xform(b)
    ensures a == b
  {
    XformInvolution(a);
    XformInvolution(b);
  }

  /** Looking the transformed number up decides whether the number itself is listed. */
  lemma LookupDecides(table: seq<nat>, cmds: seq<bv32>, cmd: bv32)
    requires TableOf(table, Xform, Value, cmds)
    ensures Value(Xform(cmd)) in table <==> cmd in cmds
  {
    forall a, b | Xform(a) == Xform(b)
      ensures a == b
    {
      XformInjective(a, b);
    }
    forall x, y | Value(x) == Value(y)
      ensures x == y
    {
      ValueInjective(x, y);
    }
    InjectiveLookup(table, Xform, Value, cmds, cmd);
  }
}
