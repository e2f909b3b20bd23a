/** The migration of user and company ids between integers and UUIDs. */
module IdMigration {
  import opened Prelude
  import opened LegacySchema

  type IdMap = map<Key, Key>

  /** The map built by a loop over the rows: later rows overwrite earlier ones of the same id. */
  function MapOf(ids: seq<Key>, targets: seq<Key>): IdMap
    requires |ids| == |targets|
  {
    if ids == [] then map[]
    else
      var n := |ids| - 1;
      MapOf(ids[..n], targets[..n])[ids[n] := targets[n]]
  }

  function To(m: IdMap, k: Key): Key {
    if k in m then m[k] else k
  }

  function RenamedUsers(users: seq<UserRow>, m: IdMap): seq<UserRow> {
    seq(|users|, i requires 0 <= i < |users| => users[i].(id := To(m, users[i].id)))
  }

  function RenamedCompanies(companies: seq<CompanyRow>, m: IdMap): seq<CompanyRow> {
    seq(|companies|, i requires 0 <= i < |companies| => companies[i].(id := To(m, companies[i].id)))
  }

  function RenamedRoles(roles: seq<RoleRow>, m: IdMap): seq<RoleRow> {
    seq(|roles|, i requires 0 <= i < |roles| => roles[i].(company := To(m, roles[i].company)))
  }

  function RenamedMembers(members: seq<NamedMember>, um: IdMap, cm: IdMap): seq<NamedMember> {
    seq(|members|, i requires 0 <= i < |members| =>
      members[i].(user := To(um, members[i].user), company := To(cm, members[i].company)))
  }

  function Renamed(db: NamedDb, um: IdMap, cm: IdMap): NamedDb {
    NamedDb(RenamedUsers(db.users, um), RenamedCompanies(db.companies, cm),
      RenamedRoles(db.roles, cm), RenamedMembers(db.members, um, cm))
  }

  function Uuids(draws: seq<string>): seq<Key> {
    seq(|draws|, i requires 0 <= i < |draws| => Uuid(draws[i]))
  }

  /** 1, 2, ..., n. */
  function Numbers(n: nat): seq<Key> {
    seq(n, i => Number(i + 1))
  }

  /** The database under the drawn UUIDs. */
  function UpgradedDb(db: NamedDb, userDraws: seq<string>, companyDraws: seq<string>): NamedDb
    requires |userDraws| == |db.users| && |companyDraws| == |db.companies|
  {
    Renamed(db, MapOf(UserIds(db.users), Uuids(userDraws)), MapOf(CompanyIds(db.companies), Uuids(companyDraws)))
  }

  /** The database under row numbers. */
  function DowngradedDb(db: NamedDb): NamedDb {
    Renamed(db, MapOf(UserIds(db.users), Numbers(|db.users|)), MapOf(CompanyIds(db.companies), Numbers(|db.companies|)))
  }

  // The loops -------------------------------------------------------------------------------

  /** Fills an id map row by row. */
  method BuildMap(ids: seq<Key>, targets: seq<Key>) returns (m: IdMap)
    requires |ids| == |targets|
    ensures m == MapOf(ids, targets)
  {
    m := map[];
    for i := 0 to |ids|
      invariant m == MapOf(ids[..i], targets[..i])
    {
      assert ids[..i + 1][..i] == ids[..i] && targets[..i + 1][..i] == targets[..i];
      m := m[ids[i] := targets[i]];
    }
    assert ids[..|ids|] == ids && targets[..|targets|] == targets;
  }

  /** Inserts the role rows under their new company ids; None is the lookup error of a dangling reference. */
  method MoveRoles(roles: seq<RoleRow>, m: IdMap) returns (moved: Option<seq<RoleRow>>)
    ensures moved.Some? <==> forall i | 0 <= i < |roles| :: roles[i].company in m
    ensures moved.Some? ==> moved.value == RenamedRoles(roles, m)
  {
    var target := [];
    for i := 0 to |roles|
      invariant target == RenamedRoles(roles, m)[..i]
      invariant forall j | 0 <= j < i :: roles[j].company in m
    {
      if roles[i].company !in m {
        return None;
      }
      target := target + [roles[i].(company := m[roles[i].company])];
    }
    moved := Some(target);
  }

  /** The new row can be inserted: both ids are mapped, and the new role table has the company's role of that name. */
  predicate CanInsert(m: NamedMember, roles: seq<RoleRow>, um: IdMap, cm: IdMap) {
    m.user in um && m.company in cm && (To(cm, m.company), m.role) in RoleKeys(roles)
  }

  /** None is the lookup error of a dangling id, or the database's refusal of a row without a role. */
  method MoveMembers(members: seq<NamedMember>, roles: seq<RoleRow>, um: IdMap, cm: IdMap)
    returns (moved: Option<seq<NamedMember>>)
    ensures moved.Some? <==> forall i | 0 <= i < |members| :: CanInsert(members[i], roles, um, cm)
    ensures moved.Some? ==> moved.value == RenamedMembers(members, um, cm)
  {
    var target := [];
    for i := 0 to |members|
      invariant target == RenamedMembers(members, um, cm)[..i]
      invariant forall j | 0 <= j < i :: CanInsert(members[j], roles, um, cm)
    {
      var row := members[i];
      if row.user !in um || row.company !in cm {
        return None;
      }
      var next := row.(user := um[row.user], company := cm[row.company]);
      if (next.company, next.role) !in RoleKeys(roles) {
        return None;
      }
      target := target + [next];
    }
    moved := Some(target);
  }

  /** Every foreign key of the rows to be moved resolves, the composite key in the new role table. */
  ghost predicate Movable(db: NamedDb, um: IdMap, cm: IdMap) {
    && RolesResolve(db.roles, db.companies) && PeopleResolve(db.members, db.users, db.companies)
    && RoleNamesResolve(RenamedMembers(db.members, um, cm), RenamedRoles(db.roles, cm))
  }

  /** The common part of both directions: users and companies under their new ids, then what refers to them. */
  method MoveAll(db: NamedDb, um: IdMap, cm: IdMap) returns (moved: Option<NamedDb>)
    requires um.Keys == Elements(UserIds(db.users)) && cm.Keys == Elements(CompanyIds(db.companies))
    ensures moved.Some? <==> Movable(db, um, cm)
    ensures moved.Some? ==> moved.value == Renamed(db, um, cm)
  {
    var users := [];
    for i := 0 to |db.users|
      invariant users == RenamedUsers(db.users, um)[..i]
    {
      assert UserIds(db.users)[i] in Elements(UserIds(db.users));
      users := users + [db.users[i].(id := um[db.users[i].id])];
    }
    var companies := [];
    for i := 0 to |db.companies|
      invariant companies == RenamedCompanies(db.companies, cm)[..i]
    {
      assert CompanyIds(db.companies)[i] in Elements(CompanyIds(db.companies));
      companies := companies + [db.companies[i].(id := cm[db.companies[i].id])];
    }
    var roles := MoveRoles(db.roles, cm);
    assert forall k :: k in CompanyIds(db.companies) <==> k in Elements(CompanyIds(db.companies));
    assert forall k :: k in UserIds(db.users) <==> k in Elements(UserIds(db.users));
    if roles.None? {
      return None;
    }
    var members := MoveMembers(db.members, roles.value, um, cm);
    InsertableIff(db, um, cm);
    if members.None? {
      return None;
    }
    moved := Some(NamedDb(users, companies, roles.value, members.value));
  }

  lemma InsertableIff(db: NamedDb, um: IdMap, cm: IdMap)
    requires um.Keys == Elements(UserIds(db.users)) && cm.Keys == Elements(CompanyIds(db.companies))
    ensures
      (forall i | 0 <= i < |db.members| :: CanInsert(db.members[i], RenamedRoles(db.roles, cm), um, cm)) <==>
        && PeopleResolve(db.members, db.users, db.companies)
        && RoleNamesResolve(RenamedMembers(db.members, um, cm), RenamedRoles(db.roles, cm))
  {
    var moved := RenamedMembers(db.members, um, cm);
    forall i | 0 <= i < |db.members|
      ensures CanInsert(db.members[i], RenamedRoles(db.roles, cm), um, cm) <==>
        && db.members[i].user in UserIds(db.users) && db.members[i].company in CompanyIds(db.companies)
        && (moved[i].company, moved[i].role) in RoleKeys(RenamedRoles(db.roles, cm))
    {
      assert db.members[i].user in um <==> db.members[i].user in Elements(UserIds(db.users));
      assert db.members[i].company in cm <==> db.members[i].company in Elements(CompanyIds(db.companies));
    }
  }

  /** Integer ids to drawn UUIDs. */
  method Upgrade(db: NamedDb, userDraws: seq<string>, companyDraws: seq<string>) returns (moved: Option<NamedDb>)
    requires |userDraws| == |db.users| && |companyDraws| == |db.companies|
    ensures moved.Some? <==>
      Movable(db, MapOf(UserIds(db.users), Uuids(userDraws)), MapOf(CompanyIds(db.companies), Uuids(companyDraws)))
    ensures moved.Some? ==> moved.value == UpgradedDb(db, userDraws, companyDraws)
  {
    MapOfKeys(UserIds(db.users), Uuids(userDraws));
    MapOfKeys(CompanyIds(db.companies), Uuids(companyDraws));
    var um := BuildMap(UserIds(db.users), Uuids(userDraws));
    var cm := BuildMap(CompanyIds(db.companies), Uuids(companyDraws));
    moved := MoveAll(db, um, cm);
  }

  /** UUIDs to the row numbers 1..n. */
  method Downgrade(db: NamedDb) returns (moved: Option<NamedDb>)
    ensures
      var um := MapOf(UserIds(db.users), Numbers(|db.users|));
      var cm := MapOf(CompanyIds(db.companies), Numbers(|db.companies|));
      moved.Some? <==> Movable(db, um, cm)
    ensures moved.Some? ==> moved.value == DowngradedDb(db)
  {
    MapOfKeys(UserIds(db.users), Numbers(|db.users|));
    MapOfKeys(CompanyIds(db.companies), Numbers(|db.companies|));
    var um := BuildMap(UserIds(db.users), Numbers(|db.users|));
    var cm := BuildMap(CompanyIds(db.companies), Numbers(|db.companies|));
    moved := MoveAll(db, um, cm);
  }

  // The maps ----------------------------------------------------------------------------------

  lemma {:induction false} MapOfKeys(ids: seq<Key>, targets: seq<Key>)
    requires |ids| == |targets|
    ensures MapOf(ids, targets).Keys == Elements(ids)
  {
    if ids != [] {
      var n := |ids| - 1;
      MapOfKeys(ids[..n], targets[..n]);
      assert ids == ids[..n] + [ids[n]];
      ElementsAppend(ids[..n], ids[n]);
    }
  }

  lemma {:induction false} MapOfAt(ids: seq<Key>, targets: seq<Key>, i: nat)
    requires |ids| == |targets| && Distinct(ids) && i < |ids|
    ensures ids[i] in MapOf(ids, targets) && MapOf(ids, targets)[ids[i]] == targets[i]
  {
    var n := |ids| - 1;
    if i < n {
      MapOfAt(ids[..n], targets[..n], i);
    }
  }

  /** The map covers the ids, and no two of them share a target. */
  ghost predicate Renames(m: IdMap, ids: seq<Key>) {
    && (forall k | k in ids :: k in m)
    && (forall a, b | a in ids && b in ids && To(m, a) == To(m, b) :: a == b)
  }

  lemma MapOfRenames(ids: seq<Key>, targets: seq<Key>)
    requires |ids| == |targets| && Distinct(ids) && Distinct(targets)
    ensures Renames(MapOf(ids, targets), ids)
  {
    forall i | 0 <= i < |ids|
      ensures ids[i] in MapOf(ids, targets) && MapOf(ids, targets)[ids[i]] == targets[i]
    {
      MapOfAt(ids, targets, i);
    }
  }

  lemma DrawsAreDistinct(draws: seq<string>)
    requires Distinct(draws)
    ensures Distinct(Uuids(draws))
  {
  }

  // Renaming is an isomorphism -------------------------------------------------------------------

  lemma {:induction false} UserEmailRenamed(users: seq<UserRow>, m: IdMap, id: Key)
    requires forall k | k in UserIds(users) && To(m, k) == To(m, id) :: k == id
    ensures UserEmail(RenamedUsers(users, m), To(m, id)) == UserEmail(users, id)
  {
    if users != [] {
      assert RenamedUsers(users, m)[1..] == RenamedUsers(users[1..], m);
      assert UserIds(users)[0] == users[0].id;
      forall k | k in UserIds(users[1..])
        ensures k in UserIds(users)
      {
        var i :| 0 <= i < |users[1..]| && users[1..][i].id == k;
        assert UserIds(users)[i + 1] == k;
      }
      UserEmailRenamed(users[1..], m, id);
    }
  }

  lemma {:induction false} CompanyEmailRenamed(companies: seq<CompanyRow>, m: IdMap, id: Key)
    requires forall k | k in CompanyIds(companies) && To(m, k) == To(m, id) :: k == id
    ensures CompanyEmail(RenamedCompanies(companies, m), To(m, id)) == CompanyEmail(companies, id)
  {
    if companies != [] {
      assert RenamedCompanies(companies, m)[1..] == RenamedCompanies(companies[1..], m);
      assert CompanyIds(companies)[0] == companies[0].id;
      forall k | k in CompanyIds(companies[1..])
        ensures k in CompanyIds(companies)
      {
        var i :| 0 <= i < |companies[1..]| && companies[1..][i].id == k;
        assert CompanyIds(companies)[i + 1] == k;
      }
      CompanyEmailRenamed(companies[1..], m, id);
    }
  }

  lemma RenamedFacts(db: NamedDb, um: IdMap, cm: IdMap)
    requires Renames(um, UserIds(db.users)) && Renames(cm, CompanyIds(db.companies))
    requires PeopleResolve(db.members, db.users, db.companies)
    ensures var after := Renamed(db, um, cm);
      Facts(after.users, after.companies, after.members) == Facts(db.users, db.companies, db.members)
  {
    var after := Renamed(db, um, cm);
    forall i | 0 <= i < |db.members|
      ensures FactOf(after.users, after.companies, after.members[i]) == FactOf(db.users, db.companies, db.members[i])
    {
      UserEmailRenamed(db.users, um, db.members[i].user);
      CompanyEmailRenamed(db.companies, cm, db.members[i].company);
    }
  }

  lemma RenamedRoleFacts(db: NamedDb, um: IdMap, cm: IdMap)
    requires Renames(cm, CompanyIds(db.companies)) && RolesResolve(db.roles, db.companies)
    ensures var after := Renamed(db, um, cm);
      RoleFacts(after.companies, after.roles) == RoleFacts(db.companies, db.roles)
  {
    var after := Renamed(db, um, cm);
    forall i | 0 <= i < |db.roles|
      ensures CompanyEmail(after.companies, after.roles[i].company) == CompanyEmail(db.companies, db.roles[i].company)
    {
      CompanyEmailRenamed(db.companies, cm, db.roles[i].company);
    }
  }

  lemma RenamedUserKeys(users: seq<UserRow>, m: IdMap)
    requires Renames(m, UserIds(users)) && Distinct(UserIds(users))
    ensures Distinct(UserIds(RenamedUsers(users, m)))
    ensures forall k | k in UserIds(users) :: To(m, k) in UserIds(RenamedUsers(users, m))
  {
    forall i, j | 0 <= i < j < |users|
      ensures To(m, users[i].id) != To(m, users[j].id)
    {
      assert UserIds(users)[i] in UserIds(users) && UserIds(users)[j] in UserIds(users);
    }
    forall k | k in UserIds(users)
      ensures To(m, k) in UserIds(RenamedUsers(users, m))
    {
      var i :| 0 <= i < |users| && users[i].id == k;
      assert UserIds(RenamedUsers(users, m))[i] == To(m, k);
    }
  }

  lemma RenamedCompanyKeys(companies: seq<CompanyRow>, m: IdMap)
    requires Renames(m, CompanyIds(companies)) && Distinct(CompanyIds(companies))
    ensures Distinct(CompanyIds(RenamedCompanies(companies, m)))
    ensures forall k | k in CompanyIds(companies) :: To(m, k) in CompanyIds(RenamedCompanies(companies, m))
  {
    forall i, j | 0 <= i < j < |companies|
      ensures To(m, companies[i].id) != To(m, companies[j].id)
    {
      assert CompanyIds(companies)[i] in CompanyIds(companies) && CompanyIds(companies)[j] in CompanyIds(companies);
    }
    forall k | k in CompanyIds(companies)
      ensures To(m, k) in CompanyIds(RenamedCompanies(companies, m))
    {
      var i :| 0 <= i < |companies| && companies[i].id == k;
      assert CompanyIds(RenamedCompanies(companies, m))[i] == To(m, k);
    }
  }

  lemma RenamedRoleKeys(roles: seq<RoleRow>, companies: seq<CompanyRow>, m: IdMap)
    requires Renames(m, CompanyIds(companies)) && RolesResolve(roles, companies) && Distinct(RoleKeys(roles))
    ensures Distinct(RoleKeys(RenamedRoles(roles, m)))
    ensures forall c, name | (c, name) in RoleKeys(roles) :: (To(m, c), name) in RoleKeys(RenamedRoles(roles, m))
  {
    var after := RoleKeys(RenamedRoles(roles, m));
    forall i, j | 0 <= i < j < |roles|
      ensures after[i] != after[j]
    {
      assert RoleKeys(roles)[i] != RoleKeys(roles)[j];
    }
    forall c, name | (c, name) in RoleKeys(roles)
      ensures (To(m, c), name) in after
    {
      var i :| 0 <= i < |roles| && RoleKeys(roles)[i] == (c, name);
      assert after[i] == (To(m, c), name);
    }
  }

  lemma RenamedMemberKeys(db: NamedDb, um: IdMap, cm: IdMap)
    requires Renames(um, UserIds(db.users)) && Renames(cm, CompanyIds(db.companies))
    requires PeopleResolve(db.members, db.users, db.companies) && DistinctPairs(db.members)
    ensures DistinctPairs(RenamedMembers(db.members, um, cm))
  {
  }

  lemma RenamedStaysWellFormed(db: NamedDb, um: IdMap, cm: IdMap)
    requires WellFormed(db) && Renames(um, UserIds(db.users)) && Renames(cm, CompanyIds(db.companies))
    ensures WellFormed(Renamed(db, um, cm))
  {
    RenamedUserKeys(db.users, um);
    RenamedCompanyKeys(db.companies, cm);
    RenamedRoleKeys(db.roles, db.companies, cm);
    RenamedMemberKeys(db, um, cm);
  }

  /** When company ids stay apart, the rows can be moved exactly if every old foreign key resolves. */
  lemma MovableIff(db: NamedDb, um: IdMap, cm: IdMap)
    requires Renames(cm, CompanyIds(db.companies))
    ensures Movable(db, um, cm) <==>
      && RolesResolve(db.roles, db.companies) && PeopleResolve(db.members, db.users, db.companies)
      && RoleNamesResolve(db.members, db.roles)
  {
    var moved := RenamedMembers(db.members, um, cm);
    if RolesResolve(db.roles, db.companies) && PeopleResolve(db.members, db.users, db.companies) {
      forall i | 0 <= i < |db.members|
        ensures (moved[i].company, moved[i].role) in RoleKeys(RenamedRoles(db.roles, cm)) <==>
          (db.members[i].company, db.members[i].role) in RoleKeys(db.roles)
      {
        RenamedKeyIff(db.roles, db.companies, cm, db.members[i].company, db.members[i].role);
      }
    }
  }

  lemma RenamedKeyIff(roles: seq<RoleRow>, companies: seq<CompanyRow>, m: IdMap, company: Key, name: string)
    requires Renames(m, CompanyIds(companies)) && RolesResolve(roles, companies) && company in CompanyIds(companies)
    ensures (To(m, company), name) in RoleKeys(RenamedRoles(roles, m)) <==> (company, name) in RoleKeys(roles)
  {
    var after := RoleKeys(RenamedRoles(roles, m));
    if (company, name) in RoleKeys(roles) {
      var i :| 0 <= i < |roles| && RoleKeys(roles)[i] == (company, name);
      assert after[i] == (To(m, company), name);
    }
    if (To(m, company), name) in after {
      var i :| 0 <= i < |roles| && after[i] == (To(m, company), name);
      assert RoleKeys(roles)[i] == (company, name);
    }
  }

  /** With unique ids and fresh UUIDs the upgrade succeeds exactly if every foreign key resolves. */
  lemma UpgradeSucceedsIff(db: NamedDb, userDraws: seq<string>, companyDraws: seq<string>)
    requires |userDraws| == |db.users| && |companyDraws| == |db.companies|
    requires Distinct(CompanyIds(db.companies)) && Distinct(companyDraws)
    ensures
      Movable(db, MapOf(UserIds(db.users), Uuids(userDraws)), MapOf(CompanyIds(db.companies), Uuids(companyDraws))) <==>
        && RolesResolve(db.roles, db.companies) && PeopleResolve(db.members, db.users, db.companies)
        && RoleNamesResolve(db.members, db.roles)
  {
    DrawsAreDistinct(companyDraws);
    MapOfRenames(CompanyIds(db.companies), Uuids(companyDraws));
    MovableIff(db, MapOf(UserIds(db.users), Uuids(userDraws)), MapOf(CompanyIds(db.companies), Uuids(companyDraws)));
  }

  lemma DowngradeSucceedsIff(db: NamedDb)
    requires Distinct(CompanyIds(db.companies))
    ensures
      var um := MapOf(UserIds(db.users), Numbers(|db.users|));
      var cm := MapOf(CompanyIds(db.companies), Numbers(|db.companies|));
      Movable(db, um, cm) <==>
        && RolesResolve(db.roles, db.companies) && PeopleResolve(db.members, db.users, db.companies)
        && RoleNamesResolve(db.members, db.roles)
  {
    MapOfRenames(CompanyIds(db.companies), Numbers(|db.companies|));
    var um := MapOf(UserIds(db.users), Numbers(|db.users|));
    var cm := MapOf(CompanyIds(db.companies), Numbers(|db.companies|));
    MovableIff(db, um, cm);
  }

  /** The upgrade keeps keys unique, references resolved, and every fact about members and roles. */
  lemma UpgradeIsIsomorphism(db: NamedDb, userDraws: seq<string>, companyDraws: seq<string>)
    requires WellFormed(db) && |userDraws| == |db.users| && |companyDraws| == |db.companies|
    requires Distinct(userDraws) && Distinct(companyDraws)
    ensures var up := UpgradedDb(db, userDraws, companyDraws);
      && WellFormed(up)
      && Facts(up.users, up.companies, up.members) == Facts(db.users, db.companies, db.members)
      && RoleFacts(up.companies, up.roles) == RoleFacts(db.companies, db.roles)
  {
    DrawsAreDistinct(userDraws);
    DrawsAreDistinct(companyDraws);
    MapOfRenames(UserIds(db.users), Uuids(userDraws));
    MapOfRenames(CompanyIds(db.companies), Uuids(companyDraws));
    var um, cm := MapOf(UserIds(db.users), Uuids(userDraws)), MapOf(CompanyIds(db.companies), Uuids(companyDraws));
    RenamedStaysWellFormed(db, um, cm);
    RenamedFacts(db, um, cm);
    RenamedRoleFacts(db, um, cm);
  }

  lemma DowngradeIsIsomorphism(db: NamedDb)
    requires WellFormed(db)
    ensures var down := DowngradedDb(db);
      && WellFormed(down)
      && Facts(down.users, down.companies, down.members) == Facts(db.users, db.companies, db.members)
      && RoleFacts(down.companies, down.roles) == RoleFacts(db.companies, db.roles)
  {
    MapOfRenames(UserIds(db.users), Numbers(|db.users|));
    MapOfRenames(CompanyIds(db.companies), Numbers(|db.companies|));
    var um := MapOf(UserIds(db.users), Numbers(|db.users|));
    var cm := MapOf(CompanyIds(db.companies), Numbers(|db.companies|));
    RenamedStaysWellFormed(db, um, cm);
    RenamedFacts(db, um, cm);
    RenamedRoleFacts(db, um, cm);
  }

  /** Downgraded ids are exactly 1, 2, ..., n in row order. */
  lemma DowngradeNumbersRows(db: NamedDb)
    requires WellFormed(db)
    ensures UserIds(DowngradedDb(db).users) == Numbers(|db.users|)
    ensures CompanyIds(DowngradedDb(db).companies) == Numbers(|db.companies|)
  {
    forall i | 0 <= i < |db.users|
      ensures UserIds(DowngradedDb(db).users)[i] == Number(i + 1)
    {
      MapOfAt(UserIds(db.users), Numbers(|db.users|), i);
    }
    forall i | 0 <= i < |db.companies|
      ensures CompanyIds(DowngradedDb(db).companies)[i] == Number(i + 1)
    {
      MapOfAt(CompanyIds(db.companies), Numbers(|db.companies|), i);
    }
  }
}
