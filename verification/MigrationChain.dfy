/** The three data migrations, one after the other, each reading the tables in whatever order it gets them. */
module MigrationChain {
  import opened Prelude
  import opened RowOrder
  import opened LegacySchema
  import opened MigrationReads
  import opened RoleMigration
  import LevelMigration
  import IdMigration
  import MigratedAccess
  import MigratedStore
  import ChainAccess

  /** The new values that the chain draws: one UUID per user, per company and per role name. */
  datatype Draws = Draws(users: seq<string>, companies: seq<string>, roles: seq<string>)

  /** Enough fresh UUIDs for every row: a level adds at most one role per membership. */
  ghost predicate Enough(db: LevelDb, draws: Draws) {
    && |draws.users| == |db.users| && Distinct(draws.users)
    && |draws.companies| == |db.companies| && Distinct(draws.companies)
    && |db.roles| + |db.members| <= |draws.roles| && Distinct(draws.roles)
  }

  /** What lies between: written by the first, read by the second, written by the second, read by the third. */
  datatype Steps = Steps(named: NamedDb, read: NamedDb, moved: NamedDb, again: NamedDb)

  /** The chain may turn db into after, by these steps. */
  ghost predicate ChainGives(db: LevelDb, draws: Draws, s: Steps, after: GlobalDb) {
    && LevelMigration.Upgrades(db, s.named)
    && Reads(s.named, s.read)
    && |draws.users| == |s.read.users| && |draws.companies| == |s.read.companies|
    && s.moved == IdMigration.UpgradedDb(s.read, draws.users, draws.companies)
    && Reads(s.moved, s.again)
    && |s.again.roles| <= |draws.roles|
    && Normalises(s.again, draws.roles, after)
  }

  /** One membership per old one, in some order: same people, same company, the role its level named. */
  ghost predicate SameMemberships(before: LevelDb, after: GlobalDb) {
    && |after.members| == |before.members|
    && exists order: seq<nat> :: IsOrder(order, |before.members|) && MembershipsFollow(before, after, order)
  }

  ghost predicate MembershipsFollow(before: LevelDb, after: GlobalDb, order: seq<nat>)
    requires |after.members| == |before.members| && IsOrder(order, |before.members|)
  {
    forall i | 0 <= i < |before.members| :: SameMembership(before, before.members[order[i]], after, after.members[i])
  }

  ghost predicate SameMembership(before: LevelDb, was: LevelMember, after: GlobalDb, now: RoleMember) {
    && UserEmail(before.users, was.user).Some? && CompanyEmail(before.companies, was.company).Some?
    && UserEmail(after.users, now.user) == UserEmail(before.users, was.user)
    && CompanyEmail(after.companies, now.company) == CompanyEmail(before.companies, was.company)
    && HasCompanyRole(after.companyRoles, now.company, now.role)
    && var role := if was.level.Some? then was.level.value else "Member";
    && RoleName(after.roles, now.role) == Some(role)
    && now.rest == was.rest && now.secondary == was.secondary["_legacy_role_name" := role]
  }

  /** Every well-formed legacy database survives the chain with its meaning. */
  method UpgradeAll(db: LevelDb, draws: Draws) returns (ghost steps: Steps, after: Option<GlobalDb>)
    requires WellFormedLevels(db) && Enough(db, draws)
    ensures after.Some? && ChainGives(db, draws, steps, after.value)
    ensures SameMemberships(db, after.value)
    ensures DistinctIds(after.value.roles) && DistinctNames(after.value.roles)
    ensures DistinctCompanyRoles(after.value.companyRoles) && DistinctMembers(after.value.members)
    ensures MigratedStore.UuidKeys(after.value) && MigratedStore.UniqueKeys(after.value)
    ensures MigratedAccess.MembersUsable(after.value) <==>
      MigratedAccess.RowsOpenFor(steps.again.roles, steps.again.members)
    ensures MigratedStore.ServiceMembersOk(after.value) <==> MigratedAccess.MembersUsable(after.value)
    ensures ChainAccess.EveryRowOpen(db) ==> MigratedAccess.MembersUsable(after.value)
  {
    var named := LevelMigration.Upgrade(db);
    LevelMigration.UpgradeIsSound(db, named);
    LevelMigration.UpgradeAddsFew(db, named);
    var read := ReadAll(named);
    ReadSizes(named, read);
    ReadKeeps(named, read);
    var moved := IdMigration.Upgrade(read, draws.users, draws.companies);
    IdMigration.UpgradeSucceedsIff(read, draws.users, draws.companies);
    IdMigration.UpgradeIsIsomorphism(read, draws.users, draws.companies);
    var again := ReadAll(moved.value);
    ReadSizes(moved.value, again);
    ReadKeeps(moved.value, again);
    after := RoleMigration.Upgrade(again, draws.roles);
    steps := Steps(named, read, moved.value, again);
    ChainKeeps(db, draws, steps, after.value);
  }

  lemma ReadSizes(stored: NamedDb, read: NamedDb)
    requires Reads(stored, read)
    ensures |read.users| == |stored.users| && |read.companies| == |stored.companies|
    ensures |read.roles| == |stored.roles| && |read.members| == |stored.members|
  {
    SameRowsMembers(stored.users, read.users);
    SameRowsMembers(stored.companies, read.companies);
    SameRowsMembers(stored.roles, read.roles);
    SameRowsMembers(stored.members, read.members);
  }

  lemma StepsAreWellFormed(db: LevelDb, draws: Draws, s: Steps, after: GlobalDb)
    requires WellFormedLevels(db) && Enough(db, draws) && ChainGives(db, draws, s, after)
    ensures WellFormed(s.named) && WellFormed(s.read) && WellFormed(s.moved) && WellFormed(s.again)
  {
    LevelMigration.UpgradeIsSound(db, s.named);
    ReadKeeps(s.named, s.read);
    IdMigration.UpgradeIsIsomorphism(s.read, draws.users, draws.companies);
    ReadKeeps(s.moved, s.again);
  }

  /** What every chain keeps, whatever the orders of its reads. */
  lemma ChainKeeps(db: LevelDb, draws: Draws, s: Steps, after: GlobalDb)
    requires WellFormedLevels(db) && Enough(db, draws) && ChainGives(db, draws, s, after)
    ensures SameMemberships(db, after)
    ensures DistinctIds(after.roles) && DistinctNames(after.roles)
    ensures DistinctCompanyRoles(after.companyRoles) && DistinctMembers(after.members)
    ensures MigratedStore.UuidKeys(after) && MigratedStore.UniqueKeys(after)
    ensures MigratedAccess.MembersUsable(after) <==> MigratedAccess.RowsOpenFor(s.again.roles, s.again.members)
    ensures MigratedStore.ServiceMembersOk(after) <==> MigratedAccess.MembersUsable(after)
    ensures ChainAccess.EveryRowOpen(db) ==> MigratedAccess.MembersUsable(after)
  {
    StepsAreWellFormed(db, draws, s, after);
    ChainKeepsMemberships(db, draws, s, after);
    KeysStayUnique(s.again, draws.roles, after);
    ChainAccess.KeysAreUuids(s.read, draws.users, draws.companies, s.again, draws.roles, after);
    MigratedStore.MembersOkIff(after);
    MigratedAccess.MembersUsableIff(s.again, draws.roles, after);
    if ChainAccess.EveryRowOpen(db) {
      NamesStayOpen(db, draws, s, after);
      MigratedAccess.OpenNamesSuffice(s.again);
    }
  }

  lemma NamesStayOpen(db: LevelDb, draws: Draws, s: Steps, after: GlobalDb)
    requires ChainGives(db, draws, s, after)
    ensures MigratedAccess.NamesOpenFor(s.again.roles, s.again.members) <==> ChainAccess.EveryRowOpen(db)
  {
    ChainAccess.LevelKeepsNames(db, s.named);
    ChainAccess.ReadKeepsNames(s.named, s.read);
    ChainAccess.RenamingKeepsNames(s.read,
      IdMigration.MapOf(UserIds(s.read.users), IdMigration.Uuids(draws.users)),
      IdMigration.MapOf(CompanyIds(s.read.companies), IdMigration.Uuids(draws.companies)));
    ChainAccess.ReadKeepsNames(s.moved, s.again);
  }

  lemma ChainKeepsMemberships(db: LevelDb, draws: Draws, s: Steps, after: GlobalDb)
    requires WellFormedLevels(db) && Enough(db, draws) && ChainGives(db, draws, s, after)
    ensures SameMemberships(db, after)
  {
    StepsAreWellFormed(db, draws, s, after);
    LevelMigration.UpgradeIsSound(db, s.named);
    var o1 := OrdersOf(s.named, s.read);
    FactsReordered(s.named, o1);
    IdMigration.UpgradeIsIsomorphism(s.read, draws.users, draws.companies);
    var o2 := OrdersOf(s.moved, s.again);
    FactsReordered(s.moved, o2);
    FactsSurvive(s.again, draws.roles, after);
    MembersKeepTheirRoles(s.again, draws.roles, after);
    var facts := Facts(db.users, db.companies, NamedAll(db.members));
    ComposeIsOrder(facts, o1.members, o2.members);
    var order := Compose(o1.members, o2.members);
    forall i | 0 <= i < |after.members|
      ensures after.members[i].rest == db.members[order[i]].rest
      ensures after.members[i].secondary ==
        db.members[order[i]].secondary[LEGACY_KEY := LevelName(db.members[order[i]].level)]
    {
      assert MemberMoved(s.again.members[i], s.again.roles, draws.roles, after.members[i]);
    }
    FactsMean(db, after, order);
  }

  /** Equal facts are equal memberships. */
  lemma FactsMean(before: LevelDb, after: GlobalDb, order: seq<nat>)
    requires WellFormedLevels(before) && IsOrder(order, |before.members|) && |after.members| == |before.members|
    requires GlobalFacts(after) == Reorder(Facts(before.users, before.companies, NamedAll(before.members)), order)
    requires forall m | m in after.members :: HasCompanyRole(after.companyRoles, m.company, m.role)
    requires forall i | 0 <= i < |after.members| ::
      var was := before.members[order[i]];
      && after.members[i].rest == was.rest
      && after.members[i].secondary == was.secondary[LEGACY_KEY := LevelName(was.level)]
    ensures MembershipsFollow(before, after, order)
  {
    forall i | 0 <= i < |before.members|
      ensures SameMembership(before, before.members[order[i]], after, after.members[i])
    {
      var named := NamedAll(before.members);
      assert GlobalFacts(after)[i] == Facts(before.users, before.companies, named)[order[i]];
      assert named[order[i]].user in UserIds(before.users) && named[order[i]].company in CompanyIds(before.companies);
      ResolvedUserHasEmail(before.users, named[order[i]].user);
      ResolvedCompanyHasEmail(before.companies, named[order[i]].company);
      assert after.members[i] in after.members;
    }
  }
}
