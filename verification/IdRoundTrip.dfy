/** Integer ids to UUIDs and back: each migration reads the tables in whatever order the database gives. */
module IdRoundTrip {
  import opened Prelude
  import opened RowOrder
  import opened LegacySchema
  import opened MigrationReads
  import opened IdMigration

  /** The upgrade reads first and writes UUIDs; the downgrade reads second and writes back. */
  ghost predicate RoundTrip(db: NamedDb, first: NamedDb, userDraws: seq<string>, companyDraws: seq<string>,
                            second: NamedDb, back: NamedDb) {
    && Reads(db, first)
    && |userDraws| == |first.users| && |companyDraws| == |first.companies|
    && Distinct(userDraws) && Distinct(companyDraws)
    && Reads(UpgradedDb(first, userDraws, companyDraws), second)
    && back == DowngradedDb(second)
  }

  /** Whatever the orders, the round trip keeps keys, references and facts, and numbers the rows 1..n. */
  lemma RoundTripKeepsFacts(db: NamedDb, first: NamedDb, userDraws: seq<string>, companyDraws: seq<string>,
                            second: NamedDb, back: NamedDb)
    requires WellFormed(db) && RoundTrip(db, first, userDraws, companyDraws, second, back)
    ensures WellFormed(second) && WellFormed(back)
    ensures SameRows(Facts(db.users, db.companies, db.members), Facts(back.users, back.companies, back.members))
    ensures SameRows(RoleFacts(db.companies, db.roles), RoleFacts(back.companies, back.roles))
    ensures UserIds(back.users) == Numbers(|db.users|) && CompanyIds(back.companies) == Numbers(|db.companies|)
  {
    ReadKeeps(db, first);
    UpgradeIsIsomorphism(first, userDraws, companyDraws);
    ReadKeeps(UpgradedDb(first, userDraws, companyDraws), second);
    DowngradeIsIsomorphism(second);
    DowngradeNumbersRows(second);
    SameRowsMembers(db.users, first.users);
    SameRowsMembers(db.companies, first.companies);
    SameRowsMembers(UpgradedDb(first, userDraws, companyDraws).users, second.users);
    SameRowsMembers(UpgradedDb(first, userDraws, companyDraws).companies, second.companies);
  }

  // When the same rows come back ------------------------------------------------------------------------

  ghost predicate UniqueEmails(db: NamedDb) {
    && (forall i, j | 0 <= i < j < |db.users| :: db.users[i].email != db.users[j].email)
    && (forall i, j | 0 <= i < j < |db.companies| :: db.companies[i].email != db.companies[j].email)
  }

  /** The old ids are 1..n, and the rows read are those of 1, 2, ..., n in this order. */
  ghost predicate NumberedAsRead(db: NamedDb, read: NamedDb) {
    && |read.users| == |db.users| && |read.companies| == |db.companies|
    && (forall j: nat | j < |read.users| :: UserEmail(db.users, Number(j + 1)) == Some(read.users[j].email))
    && (forall j: nat | j < |read.companies| ::
          CompanyEmail(db.companies, Number(j + 1)) == Some(read.companies[j].email))
  }

  /**
   * The same rows come back exactly if the ids were 1..n and the downgrade reads users and companies in the order
   * of those numbers.
   */
  lemma RoundTripIsIdentityIff(db: NamedDb, first: NamedDb, userDraws: seq<string>, companyDraws: seq<string>,
                               second: NamedDb, back: NamedDb)
    requires WellFormed(db) && UniqueEmails(db)
    requires RoundTrip(db, first, userDraws, companyDraws, second, back)
    ensures Reads(db, back) <==> NumberedAsRead(db, second)
  {
    RoundTripKeepsFacts(db, first, userDraws, companyDraws, second, back);
    if Reads(db, back) {
      SameRowsAreNumbered(db, second, back);
    }
    if NumberedAsRead(db, second) {
      NumberedRowsReturn(db, first, userDraws, companyDraws, second, back);
    }
  }

  lemma SameRowsAreNumbered(db: NamedDb, second: NamedDb, back: NamedDb)
    requires WellFormed(db) && back == DowngradedDb(second) && Reads(db, back)
    requires UserIds(back.users) == Numbers(|db.users|) && CompanyIds(back.companies) == Numbers(|db.companies|)
    ensures NumberedAsRead(db, second)
  {
    SameRowsMembers(db.users, back.users);
    SameRowsMembers(db.companies, back.companies);
    forall j: nat | j < |second.users|
      ensures UserEmail(db.users, Number(j + 1)) == Some(second.users[j].email)
    {
      assert back.users[j] in db.users && UserIds(back.users)[j] == Number(j + 1);
      var i :| 0 <= i < |db.users| && db.users[i] == back.users[j];
      UserEmailAt(db.users, i);
    }
    forall j: nat | j < |second.companies|
      ensures CompanyEmail(db.companies, Number(j + 1)) == Some(second.companies[j].email)
    {
      assert back.companies[j] in db.companies && CompanyIds(back.companies)[j] == Number(j + 1);
      var i :| 0 <= i < |db.companies| && db.companies[i] == back.companies[j];
      CompanyEmailAt(db.companies, i);
    }
  }

  /** The email of an id belongs to a row of that id. */
  lemma {:induction false} UserOfId(users: seq<UserRow>, id: Key) returns (i: nat)
    requires UserEmail(users, id).Some?
    ensures i < |users| && users[i].id == id && UserEmail(users, id) == Some(users[i].email)
  {
    if users[0].id == id {
      i := 0;
    } else {
      i := UserOfId(users[1..], id);
      i := i + 1;
    }
  }

  lemma {:induction false} CompanyOfId(companies: seq<CompanyRow>, id: Key) returns (i: nat)
    requires CompanyEmail(companies, id).Some?
    ensures i < |companies| && companies[i].id == id && CompanyEmail(companies, id) == Some(companies[i].email)
  {
    if companies[0].id == id {
      i := 0;
    } else {
      i := CompanyOfId(companies[1..], id);
      i := i + 1;
    }
  }

  /** An id whose row the downgrade reads at the place of its number comes back. */
  lemma IdReturns(ids: seq<Key>, m: IdMap, read: seq<Key>, order: seq<nat>, k: Key)
    requires IsOrder(order, |ids|) && |read| == |ids| && Distinct(read) && k in ids
    requires forall j | 0 <= j < |ids| :: read[j] == To(m, ids[order[j]]) && ids[order[j]] == Number(j + 1)
    ensures To(MapOf(read, Numbers(|read|)), To(m, k)) == k
  {
    var i :| 0 <= i < |ids| && ids[i] == k;
    EveryPlaceIsListed(order, |ids|, i);
    var j :| 0 <= j < |order| && order[j] == i;
    MapOfAt(read, Numbers(|read|), j);
  }

  lemma NumberedRowsReturn(db: NamedDb, first: NamedDb, userDraws: seq<string>, companyDraws: seq<string>,
                           second: NamedDb, back: NamedDb)
    requires WellFormed(db) && UniqueEmails(db) && WellFormed(second)
    requires RoundTrip(db, first, userDraws, companyDraws, second, back)
    requires NumberedAsRead(db, second)
    ensures Reads(db, back)
  {
    var up := UpgradedDb(first, userDraws, companyDraws);
    var um := MapOf(UserIds(first.users), Uuids(userDraws));
    var cm := MapOf(CompanyIds(first.companies), Uuids(companyDraws));
    var o1 := OrdersOf(db, first);
    var o2 := OrdersOf(up, second);
    var o := Composed(db, first, um, cm, second, o1, o2);
    UsersNumbered(db, um, cm, second, o);
    CompaniesNumbered(db, um, cm, second, o);
    NumberedIdsReturn(db, um, cm, second, o, back);
    ReorderIsSameRows(db.users, o.users);
    ReorderIsSameRows(db.companies, o.companies);
    ReorderIsSameRows(db.roles, o.roles);
    ReorderIsSameRows(db.members, o.members);
  }

  /** The rows of the second read are the old ones, in one order, under their new ids. */
  lemma Composed(db: NamedDb, first: NamedDb, um: IdMap, cm: IdMap, second: NamedDb, o1: Orders, o2: Orders)
    returns (o: Orders)
    requires AreOrders(o1, db) && first == Reordered(db, o1)
    requires AreOrders(o2, first) && second == Reordered(Renamed(first, um, cm), o2)
    ensures AreOrders(o, db) && second == Renamed(Reordered(db, o), um, cm)
  {
    ComposeIsOrder(db.users, o1.users, o2.users);
    ComposeIsOrder(db.companies, o1.companies, o2.companies);
    ComposeIsOrder(db.roles, o1.roles, o2.roles);
    ComposeIsOrder(db.members, o1.members, o2.members);
    o := Orders(Compose(o1.users, o2.users), Compose(o1.companies, o2.companies),
      Compose(o1.roles, o2.roles), Compose(o1.members, o2.members));
  }

  lemma UsersNumbered(db: NamedDb, um: IdMap, cm: IdMap, second: NamedDb, o: Orders)
    requires AreOrders(o, db) && second == Renamed(Reordered(db, o), um, cm)
    requires UniqueEmails(db) && NumberedAsRead(db, second)
    ensures forall j: nat | j < |db.users| :: db.users[o.users[j]].id == Number(j + 1)
  {
    forall j: nat | j < |db.users|
      ensures db.users[o.users[j]].id == Number(j + 1)
    {
      assert second.users[j].email == db.users[o.users[j]].email;
      var i := UserOfId(db.users, Number(j + 1));
      assert i == o.users[j];
    }
  }

  lemma CompaniesNumbered(db: NamedDb, um: IdMap, cm: IdMap, second: NamedDb, o: Orders)
    requires AreOrders(o, db) && second == Renamed(Reordered(db, o), um, cm)
    requires UniqueEmails(db) && NumberedAsRead(db, second)
    ensures forall j: nat | j < |db.companies| :: db.companies[o.companies[j]].id == Number(j + 1)
  {
    forall j: nat | j < |db.companies|
      ensures db.companies[o.companies[j]].id == Number(j + 1)
    {
      assert second.companies[j].email == db.companies[o.companies[j]].email;
      var i := CompanyOfId(db.companies, Number(j + 1));
      assert i == o.companies[j];
    }
  }

  lemma NumberedIdsReturn(db: NamedDb, um: IdMap, cm: IdMap, second: NamedDb, o: Orders, back: NamedDb)
    requires WellFormed(db) && WellFormed(second)
    requires AreOrders(o, db) && second == Renamed(Reordered(db, o), um, cm) && back == DowngradedDb(second)
    requires forall j: nat | j < |db.users| :: db.users[o.users[j]].id == Number(j + 1)
    requires forall j: nat | j < |db.companies| :: db.companies[o.companies[j]].id == Number(j + 1)
    ensures back == Reordered(db, o)
  {
    var um2 := MapOf(UserIds(second.users), Numbers(|second.users|));
    var cm2 := MapOf(CompanyIds(second.companies), Numbers(|second.companies|));
    forall k | k in UserIds(db.users)
      ensures To(um2, To(um, k)) == k
    {
      IdReturns(UserIds(db.users), um, UserIds(second.users), o.users, k);
    }
    forall k | k in CompanyIds(db.companies)
      ensures To(cm2, To(cm, k)) == k
    {
      IdReturns(CompanyIds(db.companies), cm, CompanyIds(second.companies), o.companies, k);
    }
    RenamedBack(db, um, cm, um2, cm2, o);
  }

  lemma RenamedBack(db: NamedDb, um: IdMap, cm: IdMap, um2: IdMap, cm2: IdMap, o: Orders)
    requires AreOrders(o, db) && WellFormed(db)
    requires forall k | k in UserIds(db.users) :: To(um2, To(um, k)) == k
    requires forall k | k in CompanyIds(db.companies) :: To(cm2, To(cm, k)) == k
    ensures Renamed(Renamed(Reordered(db, o), um, cm), um2, cm2) == Reordered(db, o)
  {
    var read := Reordered(db, o);
    var back := Renamed(Renamed(read, um, cm), um2, cm2);
    UserIdsReordered(db.users, o.users);
    CompanyIdsReordered(db.companies, o.companies);
    ReferencesReordered(db, o);
    forall i | 0 <= i < |read.users|
      ensures back.users[i] == read.users[i]
    {
      assert UserIds(read.users)[i] in UserIds(read.users);
    }
    forall i | 0 <= i < |read.companies|
      ensures back.companies[i] == read.companies[i]
    {
      assert CompanyIds(read.companies)[i] in CompanyIds(read.companies);
    }
    assert back.users == read.users && back.companies == read.companies;
    assert back.roles == read.roles;
    assert back.members == read.members;
  }

  // An order in which ids change hands ------------------------------------------------------------------------

  /** With two users or more, the downgrade can always read the rows so that they do not all come back. */
  lemma SomeReadChangesIds(db: NamedDb, first: NamedDb, userDraws: seq<string>, companyDraws: seq<string>)
    returns (second: NamedDb, back: NamedDb)
    requires WellFormed(db) && UniqueEmails(db) && |db.users| >= 2
    requires Reads(db, first) && |userDraws| == |first.users| && |companyDraws| == |first.companies|
    requires Distinct(userDraws) && Distinct(companyDraws)
    ensures RoundTrip(db, first, userDraws, companyDraws, second, back) && !Reads(db, back)
  {
    var up := UpgradedDb(first, userDraws, companyDraws);
    SameRowsMembers(db.users, first.users);
    second, back := up, DowngradedDb(up);
    RoundTripIsIdentityIff(db, first, userDraws, companyDraws, second, back);
    if NumberedAsRead(db, up) {
      ForemostIsSameRows(up.users, 1);
      second := up.(users := Foremost(up.users, 1));
      back := DowngradedDb(second);
      EmailsStayUnique(db, first);
      RoundTripIsIdentityIff(db, first, userDraws, companyDraws, second, back);
      assert second.users[0].email == first.users[1].email != first.users[0].email == up.users[0].email;
      assert UserEmail(db.users, Number(0 + 1)) == Some(up.users[0].email);
      assert UserEmail(db.users, Number(0 + 1)) != Some(second.users[0].email);
    }
  }

  lemma EmailsStayUnique(db: NamedDb, first: NamedDb)
    requires UniqueEmails(db) && Reads(db, first)
    ensures UniqueEmails(first)
  {
    var o := OrdersOf(db, first);
    forall i, j | 0 <= i < j < |first.users|
      ensures first.users[i].email != first.users[j].email
    {
      assert o.users[i] != o.users[j];
    }
    forall i, j | 0 <= i < j < |first.companies|
      ensures first.companies[i].email != first.companies[j].email
    {
      assert o.companies[i] != o.companies[j];
    }
  }
}
