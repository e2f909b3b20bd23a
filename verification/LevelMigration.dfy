/** The migration that replaces a membership's level by a reference to a role of its company. */
module LevelMigration {
  import opened Prelude
  import opened LegacySchema

  /** The role keys that memberships need and the role table lacks. */
  function Missing(roles: seq<RoleRow>, members: seq<LevelMember>): set<(Key, string)> {
    NeededKeys(members) - Elements(RoleKeys(roles))
  }

  function NeededKeys(members: seq<LevelMember>): set<(Key, string)> {
    set i | 0 <= i < |members| :: (members[i].company, LevelName(members[i].level))
  }

  lemma {:induction false} KeysAreFew(members: seq<LevelMember>)
    ensures |NeededKeys(members)| <= |members|
  {
    if members != [] {
      var n := |members| - 1;
      KeysAreFew(members[..n]);
      var k := (members[n].company, LevelName(members[n].level));
      assert NeededKeys(members) == NeededKeys(members[..n]) + {k} by {
        assert members == members[..n] + [members[n]];
      }
    }
  }

  /** The upgraded database: new roles, in any order, after the old ones; memberships row by row. */
  ghost predicate Upgrades(before: LevelDb, after: NamedDb) {
    && after.users == before.users && after.companies == before.companies
    && after.members == NamedAll(before.members)
    && |before.roles| <= |after.roles| && after.roles[..|before.roles|] == before.roles
    && (forall i | |before.roles| <= i < |after.roles| ::
          after.roles[i].description.None? && IsOpen(after.roles[i].rest))
    && AddsExactly(RoleKeys(after.roles[|before.roles|..]), Missing(before.roles, before.members))
  }

  ghost predicate AddsExactly<T(!new)>(s: seq<T>, wanted: set<T>) {
    Distinct(s) && Elements(s) == wanted
  }

  function LevelOf(m: NamedMember): LevelMember {
    LevelMember(m.user, m.company, Some(m.role), m.secondary, m.rest)
  }

  method Upgrade(db: LevelDb) returns (after: NamedDb)
    ensures Upgrades(db, after)
  {
    var missing := Missing(db.roles, db.members);
    var added := InsertMissing(missing);
    var members := [];
    for i := 0 to |db.members|
      invariant members == NamedAll(db.members)[..i]
    {
      members := members + [Named(db.members[i])];
    }
    after := NamedDb(db.users, db.companies, db.roles + added, members);
    assert after.roles[|db.roles|..] == added;
  }

  /** One row per missing key, in whatever order the database yields them. */
  method InsertMissing(missing: set<(Key, string)>) returns (added: seq<RoleRow>)
    ensures AddsExactly(RoleKeys(added), missing)
    ensures forall i | 0 <= i < |added| :: added[i].description.None? && IsOpen(added[i].rest)
  {
    added := [];
    var left := missing;
    while left != {}
      invariant left <= missing
      invariant AddsExactly(RoleKeys(added), missing - left)
      invariant forall i | 0 <= i < |added| :: added[i].description.None? && IsOpen(added[i].rest)
    {
      var k :| k in left;
      var next := added + [RoleRow(k.0, k.1, None, map[])];
      assert RoleKeys(next) == RoleKeys(added) + [k];
      ElementsAppend(RoleKeys(added), k);
      assert missing - (left - {k}) == missing - left + {k};
      added := next;
      left := left - {k};
    }
  }

  /** The level column comes back; the roles stay. */
  method Downgrade(db: NamedDb) returns (before: LevelDb)
    ensures before == LevelDb(db.users, db.companies, db.roles,
      seq(|db.members|, i requires 0 <= i < |db.members| => LevelOf(db.members[i])))
  {
    var members := [];
    for i := 0 to |db.members|
      invariant |members| == i && forall j | 0 <= j < i :: members[j] == LevelOf(db.members[j])
    {
      members := members + [LevelOf(db.members[i])];
    }
    before := LevelDb(db.users, db.companies, db.roles, members);
  }

  lemma RoleKeysSplit(roles: seq<RoleRow>, n: nat)
    requires n <= |roles|
    ensures RoleKeys(roles) == RoleKeys(roles[..n]) + RoleKeys(roles[n..])
  {
  }

  /** Every membership finds its role after the upgrade, and role keys stay unique. */
  lemma UpgradeResolvesRoles(before: LevelDb, after: NamedDb)
    requires Upgrades(before, after) && Distinct(RoleKeys(before.roles))
    ensures RoleNamesResolve(after.members, after.roles) && Distinct(RoleKeys(after.roles))
  {
    var n := |before.roles|;
    RoleKeysSplit(after.roles, n);
    var added := RoleKeys(after.roles[n..]);
    DistinctConcat(RoleKeys(before.roles), added);
    forall i | 0 <= i < |after.members|
      ensures (after.members[i].company, after.members[i].role) in RoleKeys(after.roles)
    {
      var k := (before.members[i].company, LevelName(before.members[i].level));
      assert k in Elements(RoleKeys(before.roles)) || k in Missing(before.roles, before.members);
      assert k in Elements(added) ==> k in added;
    }
    assert forall k | k in added :: k in Elements(added);
    assert forall k | k in RoleKeys(before.roles) :: k in Elements(RoleKeys(before.roles));
  }

  lemma UpgradeResolvesCompanies(before: LevelDb, after: NamedDb)
    requires Upgrades(before, after)
    requires RolesResolve(before.roles, before.companies)
    requires PeopleResolve(NamedAll(before.members), before.users, before.companies)
    ensures RolesResolve(after.roles, after.companies)
  {
    var n := |before.roles|;
    forall i | 0 <= i < |after.roles|
      ensures after.roles[i].company in CompanyIds(after.companies)
    {
      if i < n {
        assert after.roles[i] == after.roles[..n][i];
      } else {
        var added := after.roles[n..];
        assert after.roles[i] == added[i - n];
        assert RoleKeys(added)[i - n] in Elements(RoleKeys(added));
        var j :| 0 <= j < |before.members|
          && RoleKeys(added)[i - n] == (before.members[j].company, LevelName(before.members[j].level));
        assert NamedAll(before.members)[j].company == after.roles[i].company;
      }
    }
  }

  lemma AddedRolesAreMissing(before: LevelDb, after: NamedDb)
    requires Upgrades(before, after)
    ensures forall i | |before.roles| <= i < |after.roles| ::
      && (after.roles[i].company, after.roles[i].name) in NeededKeys(before.members)
      && (after.roles[i].company, after.roles[i].name) !in RoleKeys(before.roles)
  {
    var added := RoleKeys(after.roles[|before.roles|..]);
    forall i | |before.roles| <= i < |after.roles|
      ensures (after.roles[i].company, after.roles[i].name) in Missing(before.roles, before.members)
    {
      assert added[i - |before.roles|] == (after.roles[i].company, after.roles[i].name);
      assert added[i - |before.roles|] in Elements(added);
    }
  }

  /** A well-formed database upgrades to a well-formed one with the same facts. */
  lemma UpgradeIsSound(before: LevelDb, after: NamedDb)
    requires Upgrades(before, after) && WellFormedLevels(before)
    ensures WellFormed(after)
    ensures Facts(after.users, after.companies, after.members)
         == Facts(before.users, before.companies, NamedAll(before.members))
    ensures after.users == before.users && after.companies == before.companies
    ensures |after.members| == |before.members| && forall i | 0 <= i < |before.members| ::
      var was := before.members[i];
      after.members[i] == NamedMember(was.user, was.company, if was.level.Some? then was.level.value else "Member",
        was.secondary, was.rest)
    ensures |before.roles| <= |after.roles| && after.roles[..|before.roles|] == before.roles
    ensures forall i | |before.roles| <= i < |after.roles| ::
      && after.roles[i].description == None && IsOpen(after.roles[i].rest)
      && (after.roles[i].company, after.roles[i].name) in NeededKeys(before.members)
      && (after.roles[i].company, after.roles[i].name) !in RoleKeys(before.roles)
  {
    AddedRolesAreMissing(before, after);
    UpgradeResolvesRoles(before, after);
    UpgradeResolvesCompanies(before, after);
  }

  /** Upgrading what a downgrade left returns to the same database: no role is missing then. */
  lemma UpgradeUndoesDowngrade(db: NamedDb, before: LevelDb, after: NamedDb)
    requires WellFormed(db)
    requires before == LevelDb(db.users, db.companies, db.roles,
      seq(|db.members|, i requires 0 <= i < |db.members| => LevelOf(db.members[i])))
    requires Upgrades(before, after)
    ensures after == db
  {
    assert NamedAll(before.members) == db.members;
    forall i | 0 <= i < |before.members|
      ensures (before.members[i].company, LevelName(before.members[i].level)) in Elements(RoleKeys(db.roles))
    {
      assert (db.members[i].company, db.members[i].role) in RoleKeys(db.roles);
    }
    assert Missing(before.roles, before.members) == {};
    NoElements(RoleKeys(after.roles[|db.roles|..]));
    assert after.roles == after.roles[..|db.roles|];
  }

  /** At most one role is added per membership. */
  lemma UpgradeAddsFew(before: LevelDb, after: NamedDb)
    requires Upgrades(before, after)
    ensures |after.roles| <= |before.roles| + |before.members|
  {
    var added := RoleKeys(after.roles[|before.roles|..]);
    DistinctCount(added);
    KeysAreFew(before.members);
    SubsetCount(Missing(before.roles, before.members), NeededKeys(before.members));
  }
}
