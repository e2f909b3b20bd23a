/** For which legacy databases every open membership works after the chain, whatever the orders of the reads. */
module ChainOrders {
  import opened Prelude
  import opened RowOrder
  import opened LegacySchema
  import opened MigrationReads
  import opened RoleMigration
  import opened MigratedAccess
  import opened ChainAccess
  import opened MigrationChain
  import LevelMigration
  import IdMigration

  // Each migration can run ---------------------------------------------------------------------------

  lemma {:induction false} SomeListing<T(!new)>(wanted: set<T>) returns (s: seq<T>)
    ensures LevelMigration.AddsExactly(s, wanted)
    decreases |wanted|
  {
    if wanted == {} {
      s := [];
    } else {
      var x :| x in wanted;
      var rest := SomeListing(wanted - {x});
      assert forall y :: y in rest <==> y in Elements(rest);
      s := rest + [x];
      ElementsAppend(rest, x);
    }
  }

  lemma SomeLevelUpgrade(db: LevelDb) returns (named: NamedDb)
    ensures LevelMigration.Upgrades(db, named)
  {
    var keys := SomeListing(LevelMigration.Missing(db.roles, db.members));
    var added := seq(|keys|, i requires 0 <= i < |keys| => RoleRow(keys[i].0, keys[i].1, None, map[]));
    assert RoleKeys(added) == keys;
    named := NamedDb(db.users, db.companies, db.roles + added, NamedAll(db.members));
    assert named.roles[|db.roles|..] == added;
  }

  ghost function NewId(roles: seq<RoleRow>, draws: seq<string>, name: string): Key
    requires |roles| <= |draws|
  {
    NamesAreDistinct(roles);
    if name in NamesOf(roles) then IdOf(roles, draws, name) else Uuid("")
  }

  lemma SomeNormalisation(db: NamedDb, draws: seq<string>) returns (after: GlobalDb)
    requires |db.roles| <= |draws| && RoleNamesResolve(db.members, db.roles)
    ensures Normalises(db, draws, after)
  {
    NamesAreDistinct(db.roles);
    var companyRoles := seq(|db.roles|, i requires 0 <= i < |db.roles| =>
      CompanyRoleRow(db.roles[i].company, NewId(db.roles, draws, db.roles[i].name), db.roles[i].rest));
    var members := seq(|db.members|, i requires 0 <= i < |db.members| =>
      var m := db.members[i];
      RoleMember(m.user, m.company, NewId(db.roles, draws, m.role), m.secondary[LEGACY_KEY := m.role], m.rest));
    after := GlobalDb(db.users, db.companies, Catalogue(db.roles, draws), companyRoles, members);
    forall i | 0 <= i < |db.roles|
      ensures CompanyRoleMoved(db.roles, draws, i, companyRoles[i])
    {
      NameIsListed(db.roles, i);
    }
    forall i | 0 <= i < |db.members|
      ensures MemberMoved(db.members[i], db.roles, draws, members[i])
    {
      var j :| 0 <= j < |db.roles| && RoleKeys(db.roles)[j] == (db.members[i].company, db.members[i].role);
      NameIsListed(db.roles, j);
    }
  }

  /** The chain can read the roles last with any row of its choice in front. */
  lemma SomeChain(db: LevelDb, draws: Draws, front: nat) returns (s: Steps, after: GlobalDb)
    requires WellFormedLevels(db) && Enough(db, draws) && front < |db.roles|
    ensures ChainGives(db, draws, s, after)
    ensures s.read == s.named && s.again == s.moved.(roles := Foremost(s.moved.roles, front))
  {
    var named := SomeLevelUpgrade(db);
    LevelMigration.UpgradeIsSound(db, named);
    LevelMigration.UpgradeAddsFew(db, named);
    var moved := IdMigration.UpgradedDb(named, draws.users, draws.companies);
    IdMigration.UpgradeIsIsomorphism(named, draws.users, draws.companies);
    ForemostIsSameRows(moved.roles, front);
    var again := moved.(roles := Foremost(moved.roles, front));
    ReadSizes(moved, again);
    ReadKeeps(moved, again);
    after := SomeNormalisation(again, draws.roles);
    s := Steps(named, named, moved, again);
  }

  // The theorem --------------------------------------------------------------------------------------

  ghost predicate WorksInEveryOrder(db: LevelDb, draws: Draws) {
    forall s, after | ChainGives(db, draws, s, after) :: MembersUsable(after)
  }

  /**
   * Every open membership works after every possible chain exactly if no role row, in whichever company, with the
   * name of an open membership's level is closed.
   */
  lemma WorksInEveryOrderIff(db: LevelDb, draws: Draws)
    requires WellFormedLevels(db) && Enough(db, draws)
    ensures WorksInEveryOrder(db, draws) <==> EveryRowOpen(db)
  {
    if EveryRowOpen(db) {
      forall s, after | ChainGives(db, draws, s, after)
        ensures MembersUsable(after)
      {
        ChainKeeps(db, draws, s, after);
      }
    } else {
      var i :| 0 <= i < |db.members| && IsOpen(db.members[i].rest)
        && !NameOpen(db.roles, LevelName(db.members[i].level));
      var k :| 0 <= k < |db.roles| && db.roles[k].name == LevelName(db.members[i].level) && !IsOpen(db.roles[k].rest);
      var s, after := ClosedRowFails(db, draws, i, k);
    }
  }

  /** If the last migration reads a closed row first, open memberships of its name stop working. */
  lemma ClosedRowFails(db: LevelDb, draws: Draws, i: nat, k: nat) returns (s: Steps, after: GlobalDb)
    requires WellFormedLevels(db) && Enough(db, draws)
    requires i < |db.members| && IsOpen(db.members[i].rest)
    requires k < |db.roles| && db.roles[k].name == LevelName(db.members[i].level) && !IsOpen(db.roles[k].rest)
    ensures ChainGives(db, draws, s, after) && !MembersUsable(after)
  {
    s, after := SomeChain(db, draws, k);
    ChainKeeps(db, draws, s, after);
    assert s.moved.roles[k].name == s.named.roles[k].name == db.roles[k].name;
    assert s.moved.roles[k].rest == db.roles[k].rest;
    ClosedRowFirst(s.moved.roles, k);
    assert s.again.members[i].role == LevelName(db.members[i].level) && s.again.members[i].rest == db.members[i].rest;
  }

  // Reading in stored order is not enough --------------------------------------------------------------

  /** When nothing is reordered, only the first row of a name and a company's own row matter. */
  lemma InOrderUsableIff(db: LevelDb, draws: Draws, s: Steps, after: GlobalDb)
    requires WellFormedLevels(db) && Enough(db, draws) && ChainGives(db, draws, s, after)
    requires s.read == s.named && s.again == s.moved
    ensures MembersUsable(after) <==> LegacyRowsOpen(db)
  {
    LevelMigration.UpgradeIsSound(db, s.named);
    LevelStep(db, s.named);
    IdStep(s.named, draws.users, draws.companies);
    MembersUsableIff(s.again, draws.roles, after);
  }

  const CLOSED_LATER := LevelDb(
    [UserRow(Number(1), "person@example.com", map[])],
    [CompanyRow(Number(1), "first@example.com", map[]), CompanyRow(Number(2), "second@example.com", map[])],
    [RoleRow(Number(1), "Auditor", None, map[]),
     RoleRow(Number(2), "Auditor", None, map[CLOSED_KEY := "2026-01-01"])],
    [LevelMember(Number(1), Number(1), Some("Auditor"), map[], map[])])

  /** The same database: one order of the rows leaves the open membership working, another does not. */
  lemma OrderDecides(draws: Draws) returns (s: Steps, works: GlobalDb, t: Steps, fails: GlobalDb)
    requires Enough(CLOSED_LATER, draws)
    ensures WellFormedLevels(CLOSED_LATER) && LegacyRowsOpen(CLOSED_LATER) && !EveryRowOpen(CLOSED_LATER)
    ensures ChainGives(CLOSED_LATER, draws, s, works) && MembersUsable(works)
    ensures ChainGives(CLOSED_LATER, draws, t, fails) && !MembersUsable(fails)
  {
    ClosedLaterIsWellFormed();
    OnlyInOrder();
    s, works := StoredOrderChain(CLOSED_LATER, draws);
    InOrderUsableIff(CLOSED_LATER, draws, s, works);
    t, fails := ClosedRowFails(CLOSED_LATER, draws, 0, 1);
  }

  lemma StoredOrderChain(db: LevelDb, draws: Draws) returns (s: Steps, after: GlobalDb)
    requires WellFormedLevels(db) && Enough(db, draws) && db.roles != []
    ensures ChainGives(db, draws, s, after) && s.read == s.named && s.again == s.moved
  {
    s, after := SomeChain(db, draws, 0);
    assert Foremost(s.moved.roles, 0) == s.moved.roles;
  }

  lemma ClosedLaterIsWellFormed()
    ensures WellFormedLevels(CLOSED_LATER)
  {
    assert UserIds(CLOSED_LATER.users)[0] == Number(1);
    assert CompanyIds(CLOSED_LATER.companies)[0] == Number(1) && CompanyIds(CLOSED_LATER.companies)[1] == Number(2);
  }

  lemma OnlyInOrder()
    ensures LegacyRowsOpen(CLOSED_LATER) && !EveryRowOpen(CLOSED_LATER)
  {
    var roles := CLOSED_LATER.roles;
    assert roles[1] in roles && !NameOpen(roles, "Auditor");
    assert CLOSED_LATER.members[0].level == Some("Auditor");
    assert IsFirstRow(roles, "Auditor", 0) && !IsFirstRow(roles, "Auditor", 1);
  }
}
