/**
 * The permission bitmask of the blog: five power-of-two flags, Python's
 * bitwise `&` and `|` on non-negative integers, and the value-level
 * behaviour of a role's add/has/remove operations.
 */
module Permissions {

  // The five flags of the `Permission` class.
  const LOGIN: nat := 1
  const COMMENT: nat := 2
  const WRITE: nat := 4
  const MODERATE: nat := 8
  const ADMIN: nat := 16

  /** The union of all five flags. */
  const ALL_FLAGS: nat := 31

  function Pow2(k: nat): (r: nat)
    ensures r >= 1
  {
    if k == 0 then 1 else 2 * Pow2(k - 1)
  }

  /** True when `p` is one of the five defined flags. */
  predicate IsFlag(p: nat) {
    p == LOGIN || p == COMMENT || p == WRITE || p == MODERATE || p == ADMIN
  }

  /** The bit position of a defined flag. */
  function FlagBit(p: nat): (k: nat)
    requires IsFlag(p)
    ensures k < 5 && Pow2(k) == p
  {
    if p == LOGIN then 0
    else if p == COMMENT then 1
    else if p == WRITE then 2
    else if p == MODERATE then 3
    else 4
  }

  /** Bit `k` of `m` (bit 0 is the least significant). */
  predicate TestBit(m: nat, k: nat)
    decreases k
  {
    if k == 0 then m % 2 == 1 else TestBit(m / 2, k - 1)
  }

  /** Python's `a & b` for non-negative integers. */
  function BitAnd(a: nat, b: nat): (r: nat)
    ensures r <= a && r <= b
    decreases b
  {
    if b == 0 then 0
    else 2 * BitAnd(a / 2, b / 2) + (if a % 2 == 1 && b % 2 == 1 then 1 else 0)
  }

  /** Python's `a | b` for non-negative integers. */
  function BitOr(a: nat, b: nat): (r: nat)
    ensures a <= r && b <= r && r <= a + b
    decreases b
  {
    if b == 0 then a
    else if a == 0 then b
    else 2 * BitOr(a / 2, b / 2) + (if a % 2 == 1 || b % 2 == 1 then 1 else 0)
  }

  /** Every bit set in `p` is also set in `m`. */
  predicate Covers(m: nat, p: nat)
    decreases p
  {
    p == 0 || ((p % 2 == 0 || m % 2 == 1) && Covers(m / 2, p / 2))
  }

  /** `Role.has_permission`: `permissions & perm == perm`. */
  predicate Has(m: nat, p: nat) {
    BitAnd(m, p) == p
  }

  /** `Role.add_permission` as written: adds `p` arithmetically unless already contained. */
  function AddAsWritten(m: nat, p: nat): nat {
    if Has(m, p) then m else m + p
  }

  /** `Role.remove_permission`: subtracts `p` when contained. */
  function Removed(m: nat, p: nat): (r: nat)
    ensures r <= m
  {
    if Has(m, p) then m - p else m
  }

  /** The evidently intended `add_permission`: bitwise union. */
  function Grant(m: nat, p: nat): nat {
    BitOr(m, p)
  }

  // ---------------------------------------------------------------------
  // Containment

  /** `has_permission(p)` holds exactly when every bit of `p` is held:
      a compound permission needs all of its bits. */
  lemma {:induction false} HasIffCovers(m: nat, p: nat)
    ensures Has(m, p) <==> Covers(m, p)
    decreases p
  {
    if p != 0 {
      HasIffCovers(m / 2, p / 2);
      var x := BitAnd(m / 2, p / 2);
      assert BitAnd(m, p) == 2 * x + (if m % 2 == 1 && p % 2 == 1 then 1 else 0);
      assert p == 2 * (p / 2) + p % 2;
    }
  }

  /** For a single bit, covering it is testing it. */
  lemma {:induction false} CoversBitIffTestBit(m: nat, k: nat)
    ensures Covers(m, Pow2(k)) <==> TestBit(m, k)
    decreases k
  {
    if k == 0 {
      assert Covers(m / 2, 0);
    } else {
      CoversBitIffTestBit(m / 2, k - 1);
      assert Pow2(k) / 2 == Pow2(k - 1) && Pow2(k) % 2 == 0;
    }
  }

  /** `has_permission` of a defined flag is the test of its bit. */
  lemma {:induction false} HasFlagIffBit(m: nat, p: nat)
    requires IsFlag(p)
    ensures Has(m, p) <==> TestBit(m, FlagBit(p))
  {
    HasIffCovers(m, p);
    CoversBitIffTestBit(m, FlagBit(p));
  }

  /** A compound mask is held exactly when each of its parts is held. */
  lemma {:induction false} CoversUnion(m: nat, p: nat, q: nat)
    ensures Covers(m, BitOr(p, q)) <==> Covers(m, p) && Covers(m, q)
    decreases q
  {
    if q != 0 && p != 0 {
      CoversUnion(m / 2, p / 2, q / 2);
      var o := BitOr(p / 2, q / 2);
      assert BitOr(p, q) / 2 == o;
      assert BitOr(p, q) % 2 == (if p % 2 == 1 || q % 2 == 1 then 1 else 0);
    }
  }

  // ---------------------------------------------------------------------
  // Bit effects of adding and subtracting one flag

  /** Adding an unheld bit arithmetically sets exactly that bit. */
  lemma {:induction false} AddBitEffect(m: nat, k: nat, j: nat)
    requires !TestBit(m, k)
    ensures TestBit(m + Pow2(k), j) <==> (j == k || TestBit(m, j))
    decreases k
  {
    if k == 0 {
      if j != 0 {
        assert (m + 1) / 2 == m / 2;
      }
    } else {
      assert Pow2(k) == 2 * Pow2(k - 1);
      assert (m + Pow2(k)) / 2 == m / 2 + Pow2(k - 1);
      assert (m + Pow2(k)) % 2 == m % 2;
      if j != 0 {
        AddBitEffect(m / 2, k - 1, j - 1);
      }
    }
  }

  /** Subtracting a held bit arithmetically clears exactly that bit. */
  lemma {:induction false} SubBitEffect(m: nat, k: nat, j: nat)
    requires TestBit(m, k)
    ensures Pow2(k) <= m
    ensures TestBit(m - Pow2(k), j) <==> (j != k && TestBit(m, j))
    decreases k
  {
    if k == 0 {
      if j != 0 {
        assert (m - 1) / 2 == m / 2;
      }
    } else {
      SubBitEffect(m / 2, k - 1, if j == 0 then 0 else j - 1);
      assert Pow2(k) == 2 * Pow2(k - 1);
      assert (m - Pow2(k)) / 2 == m / 2 - Pow2(k - 1);
      assert (m - Pow2(k)) % 2 == m % 2;
    }
  }

  // ---------------------------------------------------------------------
  // add_permission / remove_permission for a single flag

  /** After `add_permission(p)` of a flag, the flag is held and no other bit changed. */
  lemma {:induction false} AddFlag(m: nat, p: nat, j: nat)
    requires IsFlag(p)
    ensures Has(AddAsWritten(m, p), p)
    ensures TestBit(AddAsWritten(m, p), j) <==> (j == FlagBit(p) || TestBit(m, j))
  {
    var k := FlagBit(p);
    var r := AddAsWritten(m, p);
    HasFlagIffBit(m, p);
    assert TestBit(r, j) <==> (j == k || TestBit(m, j)) by {
      if !Has(m, p) { AddBitEffect(m, k, j); }
    }
    assert TestBit(r, k) by {
      if !Has(m, p) { AddBitEffect(m, k, k); }
    }
    HasFlagIffBit(r, p);
  }

  /** After `remove_permission(p)` of a flag, the flag is not held and no other bit changed. */
  lemma {:induction false} RemoveFlag(m: nat, p: nat, j: nat)
    requires IsFlag(p)
    ensures !Has(Removed(m, p), p)
    ensures TestBit(Removed(m, p), j) <==> (j != FlagBit(p) && TestBit(m, j))
  {
    var k := FlagBit(p);
    var r := Removed(m, p);
    HasFlagIffBit(m, p);
    assert TestBit(r, j) <==> (j != k && TestBit(m, j)) by {
      if Has(m, p) { SubBitEffect(m, k, j); }
    }
    assert !TestBit(r, k) by {
      if Has(m, p) { SubBitEffect(m, k, k); }
    }
    HasFlagIffBit(r, p);
  }

  /** Adding a flag whose bit is set, or removing one whose bit is clear, changes nothing. */
  lemma {:induction false} RedundantUpdateIsNoOp(m: nat, p: nat)
    requires IsFlag(p)
    ensures TestBit(m, FlagBit(p)) ==> AddAsWritten(m, p) == m
    ensures !TestBit(m, FlagBit(p)) ==> Removed(m, p) == m
  {
    HasFlagIffBit(m, p);
  }

  /** Add followed by remove restores the bitmask when the flag was not held. */
  lemma AddThenRemove(m: nat, p: nat)
    requires IsFlag(p) && !Has(m, p)
    ensures Removed(AddAsWritten(m, p), p) == m
  {
    AddFlag(m, p, 0);
  }

  /** Remove followed by add restores the bitmask when the flag was held. */
  lemma RemoveThenAdd(m: nat, p: nat)
    requires IsFlag(p) && Has(m, p)
    ensures AddAsWritten(Removed(m, p), p) == m
  {
    RemoveFlag(m, p, 0);
  }

  // ---------------------------------------------------------------------
  // The corrected add: bitwise union

  /** After a corrected add the permission is held, whatever its shape. */
  lemma {:induction false} GrantHolds(m: nat, p: nat)
    ensures Covers(Grant(m, p), p) && Covers(Grant(m, p), m)
    ensures Has(Grant(m, p), p) && Has(Grant(m, p), m)
    decreases p
  {
    if p != 0 && m != 0 {
      GrantHolds(m / 2, p / 2);
      assert BitOr(m, p) / 2 == BitOr(m / 2, p / 2);
    } else if p != 0 {
      CoversSelf(p);
    } else {
      CoversSelf(m);
    }
    HasIffCovers(Grant(m, p), p);
    HasIffCovers(Grant(m, p), m);
  }

  lemma {:induction false} CoversSelf(m: nat)
    ensures Covers(m, m)
    decreases m
  {
    if m != 0 {
      CoversSelf(m / 2);
    }
  }

  /** Granting an already-held permission leaves the bitmask unchanged. */
  lemma {:induction false} GrantHeldIsNoOp(m: nat, p: nat)
    requires Covers(m, p)
    ensures Grant(m, p) == m
    decreases p
  {
    if p != 0 {
      GrantHeldIsNoOp(m / 2, p / 2);
      assert m == 2 * (m / 2) + m % 2;
    }
  }

  /** For a single unheld bit, union and arithmetic addition agree. */
  lemma {:induction false} GrantBitIsSum(m: nat, k: nat)
    requires !TestBit(m, k)
    ensures Grant(m, Pow2(k)) == m + Pow2(k)
    decreases k
  {
    if k != 0 && m != 0 {
      GrantBitIsSum(m / 2, k - 1);
      assert Pow2(k) == 2 * Pow2(k - 1);
    }
  }

  /** For every defined flag the source's add and the corrected add coincide. */
  lemma {:induction false} AddFlagIsGrant(m: nat, p: nat)
    requires IsFlag(p)
    ensures AddAsWritten(m, p) == Grant(m, p)
  {
    HasIffCovers(m, p);
    HasFlagIffBit(m, p);
    if Has(m, p) {
      GrantHeldIsNoOp(m, p);
    } else {
      GrantBitIsSum(m, FlagBit(p));
    }
  }

  /** The corrected add keeps the bitmask a union of defined flags. */
  lemma {:induction false} GrantKeepsFlagUnion(a: nat, m: nat, p: nat)
    requires Covers(a, m) && Covers(a, p)
    ensures Covers(a, Grant(m, p))
    decreases p
  {
    if p != 0 && m != 0 {
      GrantKeepsFlagUnion(a / 2, m / 2, p / 2);
      assert BitOr(m, p) / 2 == BitOr(m / 2, p / 2);
    }
  }

  // ---------------------------------------------------------------------
  // The as-written add on a compound permission

  /** With COMMENT held, adding COMMENT|WRITE as written yields MODERATE:
      the requested permission is still not held and an unrequested flag appears. */
  lemma CompoundAddDoubleCounts()
    ensures AddAsWritten(COMMENT, COMMENT + WRITE) == MODERATE
    ensures !Has(AddAsWritten(COMMENT, COMMENT + WRITE), COMMENT + WRITE)
    ensures !Has(AddAsWritten(COMMENT, COMMENT + WRITE), COMMENT)
    ensures Has(Grant(COMMENT, COMMENT + WRITE), COMMENT + WRITE)
  {
    assert BitAnd(2, 1) == 0;
    assert BitAnd(4, 3) == 0;
    assert BitAnd(8, 6) == 0;
    GrantHolds(COMMENT, COMMENT + WRITE);
  }

  /** With ADMIN held, adding MODERATE|ADMIN as written leaves the set of defined flags. */
  lemma CompoundAddLeavesFlags()
    ensures AddAsWritten(ADMIN, MODERATE + ADMIN) == 40
    ensures !Covers(ALL_FLAGS, AddAsWritten(ADMIN, MODERATE + ADMIN))
  {
  }
}
