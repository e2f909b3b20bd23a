/** What a migration reads: all rows of all tables, in any order, and nothing of their meaning changed. */
module MigrationReads {
  import opened Prelude
  import opened RowOrder
  import opened LegacySchema

  ghost predicate Reads(stored: NamedDb, read: NamedDb) {
    && SameRows(stored.users, read.users) && SameRows(stored.companies, read.companies)
    && SameRows(stored.roles, read.roles) && SameRows(stored.members, read.members)
  }

  /** The four selects of a migration. */
  method ReadAll(stored: NamedDb) returns (read: NamedDb)
    ensures Reads(stored, read)
  {
    var users := ReadRows(stored.users);
    var companies := ReadRows(stored.companies);
    var roles := ReadRows(stored.roles);
    var members := ReadRows(stored.members);
    read := NamedDb(users, companies, roles, members);
  }

  /** The place of each row that was read. */
  datatype Orders = Orders(users: seq<nat>, companies: seq<nat>, roles: seq<nat>, members: seq<nat>)

  ghost predicate AreOrders(o: Orders, db: NamedDb) {
    && IsOrder(o.users, |db.users|) && IsOrder(o.companies, |db.companies|)
    && IsOrder(o.roles, |db.roles|) && IsOrder(o.members, |db.members|)
  }

  ghost function Reordered(db: NamedDb, o: Orders): NamedDb
    requires AreOrders(o, db)
  {
    NamedDb(Reorder(db.users, o.users), Reorder(db.companies, o.companies),
      Reorder(db.roles, o.roles), Reorder(db.members, o.members))
  }

  lemma OrdersOf(stored: NamedDb, read: NamedDb) returns (o: Orders)
    requires Reads(stored, read)
    ensures AreOrders(o, stored) && read == Reordered(stored, o)
  {
    var users := OrderOf(stored.users, read.users);
    var companies := OrderOf(stored.companies, read.companies);
    var roles := OrderOf(stored.roles, read.roles);
    var members := OrderOf(stored.members, read.members);
    o := Orders(users, companies, roles, members);
  }

  // Keys and references -------------------------------------------------------------------------------

  lemma UserIdsReordered(users: seq<UserRow>, order: seq<nat>)
    requires IsOrder(order, |users|)
    ensures UserIds(Reorder(users, order)) == Reorder(UserIds(users), order)
    ensures forall k :: k in UserIds(Reorder(users, order)) <==> k in UserIds(users)
  {
    assert UserIds(Reorder(users, order)) == Reorder(UserIds(users), order);
    ReorderIsSameRows(UserIds(users), order);
    SameRowsMembers(UserIds(users), UserIds(Reorder(users, order)));
  }

  lemma CompanyIdsReordered(companies: seq<CompanyRow>, order: seq<nat>)
    requires IsOrder(order, |companies|)
    ensures CompanyIds(Reorder(companies, order)) == Reorder(CompanyIds(companies), order)
    ensures forall k :: k in CompanyIds(Reorder(companies, order)) <==> k in CompanyIds(companies)
  {
    assert CompanyIds(Reorder(companies, order)) == Reorder(CompanyIds(companies), order);
    ReorderIsSameRows(CompanyIds(companies), order);
    SameRowsMembers(CompanyIds(companies), CompanyIds(Reorder(companies, order)));
  }

  lemma RoleKeysReordered(roles: seq<RoleRow>, order: seq<nat>)
    requires IsOrder(order, |roles|)
    ensures RoleKeys(Reorder(roles, order)) == Reorder(RoleKeys(roles), order)
    ensures forall k :: k in RoleKeys(Reorder(roles, order)) <==> k in RoleKeys(roles)
  {
    assert RoleKeys(Reorder(roles, order)) == Reorder(RoleKeys(roles), order);
    ReorderIsSameRows(RoleKeys(roles), order);
    SameRowsMembers(RoleKeys(roles), RoleKeys(Reorder(roles, order)));
  }

  lemma PairsReordered(members: seq<NamedMember>, order: seq<nat>)
    requires IsOrder(order, |members|) && DistinctPairs(members)
    ensures DistinctPairs(Reorder(members, order))
  {
    var read := Reorder(members, order);
    forall i, j | 0 <= i < j < |read|
      ensures read[i].user != read[j].user || read[i].company != read[j].company
    {
      assert order[i] != order[j];
      assert read[i] == members[order[i]] && read[j] == members[order[j]];
    }
  }

  lemma ReferencesReordered(db: NamedDb, o: Orders)
    requires AreOrders(o, db) && WellFormed(db)
    ensures var read := Reordered(db, o);
      && RolesResolve(read.roles, read.companies) && PeopleResolve(read.members, read.users, read.companies)
      && RoleNamesResolve(read.members, read.roles)
  {
    UserIdsReordered(db.users, o.users);
    CompanyIdsReordered(db.companies, o.companies);
    RoleKeysReordered(db.roles, o.roles);
  }

  lemma ReorderedIsWellFormed(db: NamedDb, o: Orders)
    requires AreOrders(o, db) && WellFormed(db)
    ensures WellFormed(Reordered(db, o))
  {
    UserIdsReordered(db.users, o.users);
    CompanyIdsReordered(db.companies, o.companies);
    RoleKeysReordered(db.roles, o.roles);
    DistinctReordered(UserIds(db.users), o.users);
    DistinctReordered(CompanyIds(db.companies), o.companies);
    DistinctReordered(RoleKeys(db.roles), o.roles);
    PairsReordered(db.members, o.members);
    ReferencesReordered(db, o);
  }

  // Meaning -----------------------------------------------------------------------------------------------

  lemma {:induction false} UserEmailAt(users: seq<UserRow>, i: nat)
    requires Distinct(UserIds(users)) && i < |users|
    ensures UserEmail(users, users[i].id) == Some(users[i].email)
  {
    if i > 0 {
      assert UserIds(users)[0] != UserIds(users)[i];
      assert UserIds(users[1..]) == UserIds(users)[1..];
      UserEmailAt(users[1..], i - 1);
    }
  }

  lemma {:induction false} CompanyEmailAt(companies: seq<CompanyRow>, i: nat)
    requires Distinct(CompanyIds(companies)) && i < |companies|
    ensures CompanyEmail(companies, companies[i].id) == Some(companies[i].email)
  {
    if i > 0 {
      assert CompanyIds(companies)[0] != CompanyIds(companies)[i];
      assert CompanyIds(companies[1..]) == CompanyIds(companies)[1..];
      CompanyEmailAt(companies[1..], i - 1);
    }
  }

  lemma UserEmailReordered(users: seq<UserRow>, order: seq<nat>, id: Key)
    requires IsOrder(order, |users|) && Distinct(UserIds(users)) && id in UserIds(users)
    ensures UserEmail(Reorder(users, order), id) == UserEmail(users, id)
  {
    var read := Reorder(users, order);
    UserIdsReordered(users, order);
    DistinctReordered(UserIds(users), order);
    var i :| 0 <= i < |read| && UserIds(read)[i] == id;
    UserEmailAt(read, i);
    UserEmailAt(users, order[i]);
  }

  lemma CompanyEmailReordered(companies: seq<CompanyRow>, order: seq<nat>, id: Key)
    requires IsOrder(order, |companies|) && Distinct(CompanyIds(companies)) && id in CompanyIds(companies)
    ensures CompanyEmail(Reorder(companies, order), id) == CompanyEmail(companies, id)
  {
    var read := Reorder(companies, order);
    CompanyIdsReordered(companies, order);
    DistinctReordered(CompanyIds(companies), order);
    var i :| 0 <= i < |read| && CompanyIds(read)[i] == id;
    CompanyEmailAt(read, i);
    CompanyEmailAt(companies, order[i]);
  }

  lemma FactsReordered(db: NamedDb, o: Orders)
    requires AreOrders(o, db) && WellFormed(db)
    ensures var read := Reordered(db, o);
      Facts(read.users, read.companies, read.members) == Reorder(Facts(db.users, db.companies, db.members), o.members)
  {
    var read := Reordered(db, o);
    forall i | 0 <= i < |db.members|
      ensures FactOf(read.users, read.companies, read.members[i])
           == FactOf(db.users, db.companies, db.members[o.members[i]])
    {
      UserEmailReordered(db.users, o.users, read.members[i].user);
      CompanyEmailReordered(db.companies, o.companies, read.members[i].company);
    }
  }

  lemma RoleFactsReordered(db: NamedDb, o: Orders)
    requires AreOrders(o, db) && WellFormed(db)
    ensures var read := Reordered(db, o);
      RoleFacts(read.companies, read.roles) == Reorder(RoleFacts(db.companies, db.roles), o.roles)
  {
    var read := Reordered(db, o);
    forall i | 0 <= i < |db.roles|
      ensures CompanyEmail(read.companies, read.roles[i].company)
           == CompanyEmail(db.companies, db.roles[o.roles[i]].company)
    {
      CompanyEmailReordered(db.companies, o.companies, read.roles[i].company);
    }
  }

  /** Reading changes neither keys nor references nor any fact about members and roles. */
  lemma ReadKeeps(stored: NamedDb, read: NamedDb)
    requires Reads(stored, read) && WellFormed(stored)
    ensures WellFormed(read)
    ensures SameRows(Facts(stored.users, stored.companies, stored.members),
      Facts(read.users, read.companies, read.members))
    ensures SameRows(RoleFacts(stored.companies, stored.roles), RoleFacts(read.companies, read.roles))
  {
    var o := OrdersOf(stored, read);
    ReorderedIsWellFormed(stored, o);
    FactsReordered(stored, o);
    RoleFactsReordered(stored, o);
    ReorderIsSameRows(Facts(stored.users, stored.companies, stored.members), o.members);
    ReorderIsSameRows(RoleFacts(stored.companies, stored.roles), o.roles);
  }
}
