/** Closing times and keys through the three data migrations. */
module ChainAccess {
  import opened Prelude
  import opened RowOrder
  import opened LegacySchema
  import opened MigrationReads
  import opened RoleMigration
  import opened MigratedAccess
  import MigratedStore
  import LevelMigration
  import IdMigration

  // Whatever the order of the rows: each name an open membership uses has no closed row ----------------------

  /** No row of the name of an open membership's level is closed, in whichever company. */
  ghost predicate EveryRowOpen(db: LevelDb) {
    forall i | 0 <= i < |db.members| && IsOpen(db.members[i].rest) ::
      NameOpen(db.roles, LevelName(db.members[i].level))
  }

  lemma LevelKeepsNames(before: LevelDb, named: NamedDb)
    requires LevelMigration.Upgrades(before, named)
    ensures NamesOpenFor(named.roles, named.members) <==> EveryRowOpen(before)
  {
    var n := |before.roles|;
    assert forall k | 0 <= k < n :: named.roles[k] == before.roles[k];
    forall i | 0 <= i < |before.members|
      ensures named.members[i].role == LevelName(before.members[i].level)
      ensures NameOpen(named.roles, named.members[i].role) <==> NameOpen(before.roles, named.members[i].role)
    {
      var name := named.members[i].role;
      if NameOpen(named.roles, name) {
        forall k | 0 <= k < n && before.roles[k].name == name
          ensures IsOpen(before.roles[k].rest)
        {
          assert named.roles[k] in named.roles;
        }
      }
    }
  }

  lemma ReadKeepsNames(stored: NamedDb, read: NamedDb)
    requires Reads(stored, read)
    ensures NamesOpenFor(read.roles, read.members) <==> NamesOpenFor(stored.roles, stored.members)
  {
    SameRowsMembers(stored.roles, read.roles);
    SameRowsMembers(stored.members, read.members);
    forall name
      ensures NameOpen(read.roles, name) <==> NameOpen(stored.roles, name)
    {
    }
    assert forall i | 0 <= i < |read.members| :: read.members[i] in stored.members;
    assert forall i | 0 <= i < |stored.members| :: stored.members[i] in read.members;
  }

  lemma RenamingKeepsNames(db: NamedDb, um: IdMigration.IdMap, cm: IdMigration.IdMap)
    ensures
      var moved := IdMigration.Renamed(db, um, cm);
      NamesOpenFor(moved.roles, moved.members) <==> NamesOpenFor(db.roles, db.members)
  {
    var moved := IdMigration.Renamed(db, um, cm);
    forall i | 0 <= i < |db.members|
      ensures NameOpen(moved.roles, moved.members[i].role) <==> NameOpen(db.roles, db.members[i].role)
    {
      var name := db.members[i].role;
      if NameOpen(moved.roles, name) {
        forall k | 0 <= k < |db.roles| && db.roles[k].name == name
          ensures IsOpen(db.roles[k].rest)
        {
          assert moved.roles[k] in moved.roles;
        }
      }
    }
  }

  // When every table is read in its stored order -------------------------------------------------------------

  /** For each open membership: no closed row comes first for its name, and its company has no closed row of it. */
  ghost predicate LegacyRowsOpen(db: LevelDb) {
    forall i | 0 <= i < |db.members| && IsOpen(db.members[i].rest) ::
      LegacyRowOpen(db.roles, db.members[i].company, LevelName(db.members[i].level))
  }

  ghost predicate LegacyRowOpen(roles: seq<RoleRow>, company: Key, name: string) {
    && (forall k | 0 <= k < |roles| && IsFirstRow(roles, name, k) :: IsOpen(roles[k].rest))
    && (forall k | 0 <= k < |roles| && roles[k].company == company && roles[k].name == name :: IsOpen(roles[k].rest))
  }

  /** Rows added at the end are open, so only the old rows can spoil a name. */
  lemma AddedRowsAreOpen(legacy: seq<RoleRow>, roles: seq<RoleRow>, company: Key, name: string)
    requires |legacy| <= |roles| && roles[..|legacy|] == legacy
    requires forall i | |legacy| <= i < |roles| :: IsOpen(roles[i].rest)
    requires Distinct(RoleKeys(roles)) && (company, name) in RoleKeys(roles)
    ensures FirstRowOpen(roles, name) && OwnRowOpen(roles, company, name) <==> LegacyRowOpen(legacy, company, name)
  {
    assert forall k | 0 <= k < |legacy| :: roles[k] == legacy[k];
    var own :| 0 <= own < |roles| && RoleKeys(roles)[own] == (company, name);
    NameIsListed(roles, own);
    var first := FirstRowExists(roles, name);
    assert forall k | 0 <= k < |roles| && IsFirstRow(roles, name, k) :: k == first;
    assert forall k | 0 <= k < |legacy| && IsFirstRow(legacy, name, k) :: IsFirstRow(roles, name, k);
    assert first < |legacy| ==> IsFirstRow(legacy, name, first);
    forall k | 0 <= k < |roles| && roles[k].company == company && roles[k].name == name
      ensures k == own
    {
      assert RoleKeys(roles)[k] == RoleKeys(roles)[own];
    }
    assert roles[own] in roles;
  }

  lemma LevelStep(before: LevelDb, named: NamedDb)
    requires LevelMigration.Upgrades(before, named) && WellFormedLevels(before)
    ensures RowsOpenFor(named.roles, named.members) <==> LegacyRowsOpen(before)
  {
    LevelMigration.UpgradeIsSound(before, named);
    forall i | 0 <= i < |before.members|
      ensures FirstRowOpen(named.roles, named.members[i].role)
          && OwnRowOpen(named.roles, named.members[i].company, named.members[i].role)
        <==> LegacyRowOpen(before.roles, before.members[i].company, LevelName(before.members[i].level))
    {
      AddedRowsAreOpen(before.roles, named.roles, named.members[i].company, named.members[i].role);
    }
  }

  lemma FirstRowRenamed(roles: seq<RoleRow>, m: IdMigration.IdMap, name: string)
    ensures FirstRowOpen(IdMigration.RenamedRoles(roles, m), name) <==> FirstRowOpen(roles, name)
  {
    var moved := IdMigration.RenamedRoles(roles, m);
    forall i | 0 <= i < |roles|
      ensures IsFirstRow(moved, name, i) <==> IsFirstRow(roles, name, i)
    {
      assert forall j | 0 <= j < |roles| :: moved[j].name == roles[j].name;
    }
  }

  lemma OwnRowRenamed(roles: seq<RoleRow>, companies: seq<CompanyRow>, m: IdMigration.IdMap, company: Key, name: string)
    requires IdMigration.Renames(m, CompanyIds(companies)) && RolesResolve(roles, companies)
    requires company in CompanyIds(companies)
    ensures OwnRowOpen(IdMigration.RenamedRoles(roles, m), IdMigration.To(m, company), name) <==>
      OwnRowOpen(roles, company, name)
  {
    var moved := IdMigration.RenamedRoles(roles, m);
    if OwnRowOpen(roles, company, name) {
      var i :| 0 <= i < |roles| && roles[i].company == company && roles[i].name == name && IsOpen(roles[i].rest);
      assert moved[i] in moved;
    }
    if OwnRowOpen(moved, IdMigration.To(m, company), name) {
      var i :| 0 <= i < |moved| && moved[i].company == IdMigration.To(m, company) && moved[i].name == name
        && IsOpen(moved[i].rest);
      assert roles[i] in roles;
    }
  }

  lemma RenamedStep(db: NamedDb, um: IdMigration.IdMap, cm: IdMigration.IdMap)
    requires WellFormed(db) && IdMigration.Renames(cm, CompanyIds(db.companies))
    ensures
      var moved := IdMigration.Renamed(db, um, cm);
      RowsOpenFor(moved.roles, moved.members) <==> RowsOpenFor(db.roles, db.members)
  {
    var moved := IdMigration.Renamed(db, um, cm);
    forall i | 0 <= i < |db.members|
      ensures FirstRowOpen(moved.roles, moved.members[i].role) <==> FirstRowOpen(db.roles, db.members[i].role)
      ensures OwnRowOpen(moved.roles, moved.members[i].company, moved.members[i].role)
        <==> OwnRowOpen(db.roles, db.members[i].company, db.members[i].role)
    {
      FirstRowRenamed(db.roles, cm, db.members[i].role);
      OwnRowRenamed(db.roles, db.companies, cm, db.members[i].company, db.members[i].role);
    }
  }

  lemma IdStep(db: NamedDb, userDraws: seq<string>, companyDraws: seq<string>)
    requires WellFormed(db) && |userDraws| == |db.users| && |companyDraws| == |db.companies|
    requires Distinct(companyDraws)
    ensures
      var moved := IdMigration.UpgradedDb(db, userDraws, companyDraws);
      RowsOpenFor(moved.roles, moved.members) <==> RowsOpenFor(db.roles, db.members)
  {
    IdMigration.DrawsAreDistinct(companyDraws);
    IdMigration.MapOfRenames(CompanyIds(db.companies), IdMigration.Uuids(companyDraws));
    RenamedStep(db, IdMigration.MapOf(UserIds(db.users), IdMigration.Uuids(userDraws)),
      IdMigration.MapOf(CompanyIds(db.companies), IdMigration.Uuids(companyDraws)));
  }

  // Keys ------------------------------------------------------------------------------------------------

  lemma NewKeyIsUuid(ids: seq<Key>, draws: seq<string>, k: Key)
    requires |ids| == |draws| && Distinct(ids) && k in ids
    ensures IdMigration.To(IdMigration.MapOf(ids, IdMigration.Uuids(draws)), k).Uuid?
  {
    var i :| 0 <= i < |ids| && ids[i] == k;
    IdMigration.MapOfAt(ids, IdMigration.Uuids(draws), i);
  }

  /** After the chain every key of the role tables is a UUID. */
  lemma KeysAreUuids(db: NamedDb, userDraws: seq<string>, companyDraws: seq<string>, read: NamedDb,
                     draws: seq<string>, after: GlobalDb)
    requires WellFormed(db) && |userDraws| == |db.users| && |companyDraws| == |db.companies|
    requires Reads(IdMigration.UpgradedDb(db, userDraws, companyDraws), read)
    requires |read.roles| <= |draws| && Normalises(read, draws, after)
    ensures MigratedStore.UuidKeys(after)
  {
    var moved := IdMigration.UpgradedDb(db, userDraws, companyDraws);
    SameRowsMembers(moved.roles, read.roles);
    SameRowsMembers(moved.members, read.members);
    forall i | 0 <= i < |after.companyRoles|
      ensures after.companyRoles[i].company.Uuid? && after.companyRoles[i].role.Uuid?
    {
      assert CompanyRoleMoved(read.roles, draws, i, after.companyRoles[i]);
      assert read.roles[i] in moved.roles;
      var j :| 0 <= j < |moved.roles| && moved.roles[j] == read.roles[i];
      NewKeyIsUuid(CompanyIds(db.companies), companyDraws, db.roles[j].company);
    }
    forall i | 0 <= i < |after.members|
      ensures after.members[i].user.Uuid? && after.members[i].company.Uuid? && after.members[i].role.Uuid?
    {
      assert MemberMoved(read.members[i], read.roles, draws, after.members[i]);
      assert read.members[i] in moved.members;
      var j :| 0 <= j < |moved.members| && moved.members[j] == read.members[i];
      NewKeyIsUuid(UserIds(db.users), userDraws, db.members[j].user);
      NewKeyIsUuid(CompanyIds(db.companies), companyDraws, db.members[j].company);
    }
  }
}
