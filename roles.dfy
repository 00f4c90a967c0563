/**
 * Roles: a named permission bitmask updated in place, and the table of
 * roles that `init_roles` seeds from a fixed list.
 */
module Roles {
  import opened Optional
  import opened Permissions

  /** The name of the role new users receive. */
  const DEFAULT_ROLE := "User"

  /** The names of the seeded roles, in the order they are seeded. */
  const SEED_NAMES: seq<string> := ["User", "Moderator", "Administrator"]

  /** The permissions listed for each seeded role. */
  const ROLE_TABLE: map<string, seq<nat>> := map[
    "User" := [COMMENT],
    "Moderator" := [COMMENT, WRITE, MODERATE],
    "Administrator" := [COMMENT, WRITE, MODERATE, ADMIN]
  ]

  /** The bitmask left by adding each permission of `perms`, in order, to `m`. */
  function AddAll(m: nat, perms: seq<nat>): nat
    decreases |perms|
  {
    if perms == [] then m else AddAsWritten(AddAll(m, perms[..|perms| - 1]), perms[|perms| - 1])
  }

  /** The bitmask `init_roles` gives the role called `name`. */
  function SeedMask(name: string): nat {
    if name in ROLE_TABLE then AddAll(0, ROLE_TABLE[name]) else 0
  }

  predicate AllFlags(perms: seq<nat>) {
    forall q :: q in perms ==> IsFlag(q)
  }

  /** Adding a list of defined flags sets exactly the listed bits on top of those already held. */
  lemma {:induction false} AddAllBits(m: nat, perms: seq<nat>, j: nat)
    requires AllFlags(perms)
    ensures TestBit(AddAll(m, perms), j) <==>
              TestBit(m, j) || exists q :: q in perms && IsFlag(q) && FlagBit(q) == j
    decreases |perms|
  {
    if perms != [] {
      var init, last := perms[..|perms| - 1], perms[|perms| - 1];
      assert perms == init + [last];
      AddAllBits(m, init, j);
      AddFlag(AddAll(m, init), last, j);
    }
  }

  /** The seeded bitmasks are User = 2, Moderator = 14 and Administrator = 30,
      and the default role is one of the seeded names. */
  lemma SeedMasks()
    ensures SeedMask("User") == COMMENT == 2
    ensures SeedMask("Moderator") == COMMENT + WRITE + MODERATE == 14
    ensures SeedMask("Administrator") == COMMENT + WRITE + MODERATE + ADMIN == 30
    ensures DEFAULT_ROLE in SEED_NAMES && SEED_NAMES[0] == DEFAULT_ROLE
  {
    assert [COMMENT, WRITE, MODERATE, ADMIN][..3] == [COMMENT, WRITE, MODERATE];
    assert [COMMENT, WRITE, MODERATE][..2] == [COMMENT, WRITE];
    assert [COMMENT, WRITE][..1] == [COMMENT];
    assert [COMMENT][..0] == [];
    assert BitAnd(0, 2) == 0 && AddAll(0, [COMMENT]) == 2;
    assert BitAnd(2, 4) == 0 && AddAll(0, [COMMENT, WRITE]) == 6;
    assert BitAnd(6, 8) == 0 && AddAll(0, [COMMENT, WRITE, MODERATE]) == 14;
    assert BitAnd(14, 16) == 0 && AddAll(0, [COMMENT, WRITE, MODERATE, ADMIN]) == 30;
  }

  /** The seeded names are pairwise distinct and each has a row in the seed table. */
  lemma SeedNamesDistinct()
    ensures forall i, j :: 0 <= i < j < |SEED_NAMES| ==> SEED_NAMES[i] != SEED_NAMES[j]
    ensures forall n :: n in SEED_NAMES ==> n in ROLE_TABLE
  {
  }

  /** A role row: `Role` with its `permissions` bitmask updated in place. */
  class Role {
    const name: string
    var isDefault: bool
    var permissions: nat

    /** `Role(name=..., permissions=...)`: the bitmask is 0 when none was supplied. */
    constructor (name: string, permissions: Option<nat>)
      ensures this.name == name && !isDefault
      ensures this.permissions == (if permissions.Some? then permissions.value else 0)
    {
      this.name := name;
      this.isDefault := false;
      this.permissions := if permissions.Some? then permissions.value else 0;
    }

    /** `has_permission`: every bit of `perm` is held. */
    predicate HasPermission(perm: nat)
      reads this
      ensures HasPermission(perm) <==> Covers(permissions, perm)
    {
      HasIffCovers(permissions, perm);
      Has(permissions, perm)
    }

    method AddPermission(perm: nat)
      modifies this`permissions
      ensures permissions == AddAsWritten(old(permissions), perm)
      ensures IsFlag(perm) ==> permissions == Grant(old(permissions), perm) && HasPermission(perm)
    {
      if !HasPermission(perm) {
        permissions := permissions + perm;
      }
      if IsFlag(perm) {
        AddFlagIsGrant(old(permissions), perm);
        AddFlag(old(permissions), perm, 0);
      }
    }

    method RemovePermission(perm: nat)
      modifies this`permissions
      ensures permissions == Removed(old(permissions), perm)
      ensures permissions <= old(permissions)
      ensures IsFlag(perm) ==> !HasPermission(perm)
    {
      if HasPermission(perm) {
        permissions := permissions - perm;
      }
      if IsFlag(perm) {
        RemoveFlag(old(permissions), perm, 0);
      }
    }

    /** The evidently intended `add_permission`: bitwise union, so that every bit of
        `perm` is held afterwards and none held before is lost. */
    method GrantPermission(perm: nat)
      modifies this`permissions
      ensures permissions == Grant(old(permissions), perm)
      ensures HasPermission(perm) && Covers(permissions, old(permissions))
      ensures old(HasPermission(perm)) ==> permissions == old(permissions)
    {
      GrantHolds(permissions, perm);
      if HasPermission(perm) {
        GrantHeldIsNoOp(permissions, perm);
      }
      permissions := Grant(permissions, perm);
    }

    /** The body of `init_roles` for one role: reset the bitmask, then add each listed permission. */
    method ReseedPermissions(perms: seq<nat>)
      modifies this`permissions
      ensures permissions == AddAll(0, perms)
    {
      ResetPermissions();
      var k := 0;
      while k < |perms|
        invariant 0 <= k <= |perms|
        invariant permissions == AddAll(0, perms[..k])
      {
        assert perms[..k + 1][..k] == perms[..k];
        AddPermission(perms[k]);
        k := k + 1;
      }
      assert perms[..k] == perms;
    }

    method ResetPermissions()
      modifies this`permissions
      ensures permissions == 0
      ensures forall p: nat :: HasPermission(p) <==> p == 0
    {
      permissions := 0;
      forall p: nat ensures HasPermission(p) <==> p == 0 {
        NothingCoveredByZero(p);
      }
    }
  }

  lemma {:induction false} NothingCoveredByZero(p: nat)
    ensures Covers(0, p) <==> p == 0
    decreases p
  {
    if p != 0 {
      NothingCoveredByZero(p / 2);
    }
  }

  /** The index of the first row called `name`, or -1. */
  function FindName(rs: seq<Role>, name: string): (i: int)
    ensures -1 <= i < |rs|
    ensures 0 <= i ==> rs[i].name == name && forall j :: 0 <= j < i ==> rs[j].name != name
    ensures i < 0 <==> forall j :: 0 <= j < |rs| ==> rs[j].name != name
    decreases |rs|
  {
    if rs == [] then -1
    else if rs[0].name == name then 0
    else var i := FindName(rs[1..], name); if i < 0 then -1 else i + 1
  }

  /** The index of the first row marked default, or -1. */
  function FindDefault(rs: seq<Role>): (i: int)
    reads rs
    ensures -1 <= i < |rs|
    ensures 0 <= i ==> rs[i].isDefault && forall j :: 0 <= j < i ==> !rs[j].isDefault
    ensures i < 0 <==> forall j :: 0 <= j < |rs| ==> !rs[j].isDefault
    decreases |rs|
  {
    if rs == [] then -1
    else if rs[0].isDefault then 0
    else var i := FindDefault(rs[1..]); if i < 0 then -1 else i + 1
  }

  /** The `roles` table. */
  class RoleTable {
    var rows: seq<Role>

    /** Rows are distinct objects with distinct names, as the unique `name` column keeps them. */
    ghost predicate Valid()
      reads this
    {
      forall i, j :: 0 <= i < j < |rows| ==> rows[i] != rows[j] && rows[i].name != rows[j].name
    }

    constructor ()
      ensures Valid() && rows == []
    {
      rows := [];
    }

    /** `Role.query.filter_by(name=name).first()`. */
    function ByName(name: string): (r: Role?)
      reads this
      ensures r != null ==> r in rows && r.name == name
      ensures r == null <==> forall j :: 0 <= j < |rows| ==> rows[j].name != name
    {
      var i := FindName(rows, name);
      if i < 0 then null else rows[i]
    }

    /** `Role.query.filter_by(default=True).first()`. */
    function DefaultRole(): (r: Role?)
      reads this, rows
      ensures r != null ==> r in rows && r.isDefault
      ensures r == null <==> forall j :: 0 <= j < |rows| ==> !rows[j].isDefault
    {
      var i := FindDefault(rows);
      if i < 0 then null else rows[i]
    }

    /** The row called `name`, created and appended when there is none. */
    method FetchOrCreate(name: string) returns (role: Role)
      requires Valid()
      modifies this
      ensures Valid() && role.name == name && ByName(name) == role
      ensures old(ByName(name)) != null ==> role == old(ByName(name)) && rows == old(rows)
      ensures old(ByName(name)) == null ==> fresh(role) && rows == old(rows) + [role]
      ensures old(ByName(name)) == null ==> role.permissions == 0 && !role.isDefault
      ensures forall n :: n != name ==> ByName(n) == old(ByName(n))
    {
      var found := ByName(name);
      if found == null {
        role := new Role(name, None);
        forall n | n != name ensures FindName(rows + [role], n) == FindName(rows, n) {
          FindNameAppend(rows, role, n);
        }
        FindNameAppend(rows, role, name);
        rows := rows + [role];
      } else {
        role := found;
      }
    }

    /** The row holds what `init_roles` gives a seeded role. */
    ghost predicate Seeded(r: Role)
      reads r
    {
      r.permissions == SeedMask(r.name) && r.isDefault == (r.name == DEFAULT_ROLE)
    }

    /** One iteration of `init_roles`: fetch or create the role called `name`,
        reset its bitmask, add its listed permissions and set its default flag. */
    method SeedRole(name: string)
      requires Valid() && name in ROLE_TABLE
      modifies this, ByName(name)
      ensures Valid()
      ensures ByName(name) != null && Seeded(ByName(name))
      ensures forall n :: n != name ==> ByName(n) == old(ByName(n))
      ensures old(ByName(name)) != null ==> rows == old(rows)
      ensures old(ByName(name)) == null ==> rows == old(rows) + [ByName(name)]
      ensures old(rows) <= rows && forall r :: r in rows ==> r in old(rows) || r.name == name
      ensures forall n :: n != name && old(NameSeeded(n)) ==> NameSeeded(n)
      ensures forall r :: r in rows && r !in old(rows) ==> fresh(r)
    {
      var role := FetchOrCreate(name);
      label fetched:
      role.ReseedPermissions(ROLE_TABLE[name]);
      role.isDefault := role.name == DEFAULT_ROLE;
      assert rows == old@fetched(rows);
      forall n | n != name && old(NameSeeded(n)) ensures NameSeeded(n) {
        assert ByName(n) == old(ByName(n)) != role;
      }
    }

    /** The row called `n` exists and holds what `init_roles` gives it. */
    ghost predicate NameSeeded(n: string)
      reads this, rows
    {
      ByName(n) != null && Seeded(ByName(n))
    }

    /** The existing rows `init_roles` may update: those with a seeded name. */
    function SeedRows(): set<Role>
      reads this
    {
      set r | r in rows && r.name in SEED_NAMES
    }

    /** Every row not among `orig` carries a seeded name. */
    ghost predicate AddedRowsSeedNamed(orig: seq<Role>)
      reads this
    {
      forall r :: r in rows ==> r in orig || r.name in SEED_NAMES
    }

    /** The names `names` are all present and seeded. */
    ghost predicate AllSeeded(names: seq<string>)
      reads this, rows
    {
      forall n :: n in names ==> NameSeeded(n)
    }

    /** Looking up any of `names` still gives what `before` recorded. */
    ghost predicate Untouched(names: seq<string>, before: map<string, Role?>)
      reads this
    {
      forall n :: n in names ==> n in before && ByName(n) == before[n]
    }

    /** When every seeded name was present to begin with, no row has been added. */
    ghost predicate NoRowAdded(orig: seq<Role>, before: map<string, Role?>)
      reads this
    {
      (forall n :: n in before ==> before[n] != null) ==> rows == orig
    }

    /** What the first `i` iterations of `init_roles` have established, against the
        rows `orig` and the lookups `before` the loop started from. */
    ghost predicate SeededUpTo(i: nat, orig: seq<Role>, before: map<string, Role?>)
      reads this, rows
    {
      i <= |SEED_NAMES| && orig <= rows && AddedRowsSeedNamed(orig) &&
      AllSeeded(SEED_NAMES[..i]) && Untouched(SEED_NAMES[i..], before) && NoRowAdded(orig, before)
    }

    /** One iteration of the `init_roles` loop. */
    method SeedNext(i: nat, ghost orig: seq<Role>, ghost before: map<string, Role?>)
      requires i < |SEED_NAMES| && Valid() && SeededUpTo(i, orig, before)
      modifies this, ByName(SEED_NAMES[i])
      ensures Valid() && SeededUpTo(i + 1, orig, before)
      ensures forall r :: r in rows && r !in old(rows) ==> fresh(r)
    {
      var name := SEED_NAMES[i];
      SeedSplit(i);
      ghost var wasPresent := ByName(name) != null;
      assert NoRowAdded(orig, before) && Untouched(SEED_NAMES[i..], before);
      assert (forall n :: n in before ==> before[n] != null) ==> wasPresent;
      SeedRole(name);
      assert orig <= rows;
      assert AddedRowsSeedNamed(orig);
      assert AllSeeded(SEED_NAMES[..i + 1]);
      assert Untouched(SEED_NAMES[i + 1..], before);
      assert NoRowAdded(orig, before);
    }

    /** `Role.init_roles`: seed every role of the fixed table, in order. Only the
        rows with a seeded name are modified; others keep their bitmask and flag. */
    method InitRoles()
      requires Valid()
      modifies this, SeedRows()
      ensures Valid()
      ensures old(rows) <= rows
      ensures forall r :: r in rows ==> r in old(rows) || r.name in SEED_NAMES
      ensures forall n :: n in SEED_NAMES ==> ByName(n) != null && Seeded(ByName(n))
      ensures (forall n :: n in SEED_NAMES ==> old(ByName(n)) != null) ==> rows == old(rows)
      ensures forall r :: r in rows && r !in old(rows) ==> fresh(r)
    {
      ghost var before := map n | n in SEED_NAMES :: ByName(n);
      ghost var seedRows := SeedRows();
      var i := 0;
      while i < |SEED_NAMES|
        invariant 0 <= i <= |SEED_NAMES|
        invariant Valid() && SeededUpTo(i, old(rows), before)
        invariant forall n :: n in before ==> before[n] == null || before[n] in seedRows
        invariant forall r :: r in rows && r !in old(rows) ==> fresh(r)
      {
        SeedNext(i, old(rows), before);
        i := i + 1;
      }
      assert SEED_NAMES[..i] == SEED_NAMES;
    }
  }

  /** Step `i` moves `SEED_NAMES[i]` from the names still to seed to the names seeded. */
  lemma SeedSplit(i: nat)
    requires i < |SEED_NAMES|
    ensures forall n :: n in SEED_NAMES[..i + 1] <==> n in SEED_NAMES[..i] || n == SEED_NAMES[i]
    ensures forall n :: n in SEED_NAMES[i + 1..] <==> n in SEED_NAMES[i..] && n != SEED_NAMES[i]
  {
    SeedNamesDistinct();
    assert SEED_NAMES[..i + 1] == SEED_NAMES[..i] + [SEED_NAMES[i]];
    assert SEED_NAMES[i..] == [SEED_NAMES[i]] + SEED_NAMES[i + 1..];
  }

  lemma {:induction false} FindNameAppend(rs: seq<Role>, r: Role, n: string)
    ensures n != r.name ==> FindName(rs + [r], n) == FindName(rs, n)
    ensures n == r.name && FindName(rs, n) < 0 ==> FindName(rs + [r], n) == |rs|
    decreases |rs|
  {
    if rs != [] {
      assert (rs + [r])[1..] == rs[1..] + [r];
      FindNameAppend(rs[1..], r, n);
    }
  }
}
