/** The company authorisation check, and what the listing of a user's companies shows. */
module Authorization {
  import opened Prelude
  import opened Store
  import opened EffectivePermissions
  import PermissionListing

  /** One row of the six-table join, by the keys of its six parts, with every filter of the query. */
  predicate JoinRow(db: Db, u: Id, c: Id, d: Definition, m: MemberKey, ck: Id, cr: CompanyRoleKey, r: Id, l: LinkKey,
                    g: Id) {
    && m in db.members && ck in db.companies && cr in db.companyRoles
    && r in db.roles && l in db.links && g in db.globalPerms
    // the join conditions
    && ck == m.company
    && cr.company == m.company && cr.role == db.members[m].role
    && r == db.members[m].role
    && l.role == db.members[m].role
    && g == l.permission
    // the filters
    && m.user == u && m.company == c
    && db.members[m].life.Open? && db.companies[ck].life.Open? && db.companyRoles[cr].Open?
    && db.roles[r].life.Open? && db.links[l].Open?
    && g == d.id && db.globalPerms[g].name == d.name && db.globalPerms[g].life.Open?
  }

  ghost predicate JoinHasRow(db: Db, u: Id, c: Id, d: Definition) {
    exists m, ck, cr, r, l, g :: JoinRow(db, u, c, d, m, ck, cr, r, l, g)
  }

  ghost function Require(db: Db, u: Id, superuser: bool, c: Id, d: Definition): Outcome {
    if superuser || JoinHasRow(db, u, c, d) then Done else Refused(Forbidden)
  }

  /** The check of a request: the flag of the user's own row first, the join only without it. */
  class CompanyAuthorizationService {
    const db: Db
    const user: Id

    constructor (db: Db, user: Id)
      ensures this.db == db && this.user == user
    {
      this.db := db;
      this.user := user;
    }

    method RequirePermission(c: Id, d: Definition) returns (o: Outcome)
      requires user in db.users
      ensures o == Require(db, user, db.users[user].superuser, c, d)
    {
      if db.users[user].superuser {
        return Done;
      }
      var authorized := exists m, ck, cr, r, l, g
        | m in db.members && ck in db.companies && cr in db.companyRoles && r in db.roles && l in db.links
          && g in db.globalPerms :: JoinRow(db, user, c, d, m, ck, cr, r, l, g);
      o := if authorized then Done else Refused(Forbidden);
    }
  }

  /** The role that a membership row names. */
  function RoleOf(db: Db, u: Id, c: Id): Id
    requires MemberKey(u, c) in db.members
  {
    db.members[MemberKey(u, c)].role
  }

  /** The simple test: an active member of an open company whose role is linked to the permission. */
  predicate MayUse(db: Db, u: Id, c: Id, permission: Id) {
    OpenCompany(db, c) && ActiveMember(db, u, c) && LinkKey(RoleOf(db, u, c), permission) in db.links
  }

  /** The user and the company determine the row of the join, so the check asks for six open rows by their keys. */
  lemma RequireNeedsSixRows(db: Db, u: Id, c: Id, d: Definition)
    ensures Require(db, u, false, c, d).Done? <==>
      && MemberKey(u, c) in db.members && db.members[MemberKey(u, c)].life == Open
      && c in db.companies && db.companies[c].life == Open
      && var r := db.members[MemberKey(u, c)].role;
      && r in db.roles && db.roles[r].life == Open
      && CompanyRoleKey(c, r) in db.companyRoles && db.companyRoles[CompanyRoleKey(c, r)] == Open
      && LinkKey(r, d.id) in db.links && db.links[LinkKey(r, d.id)] == Open
      && d.id in db.globalPerms && db.globalPerms[d.id].life == Open && db.globalPerms[d.id].name == d.name
  {
    var m := MemberKey(u, c);
    if m in db.members {
      var r := db.members[m].role;
      assert JoinRow(db, u, c, d, m, c, CompanyRoleKey(c, r), r, LinkKey(r, d.id), d.id) ==>
        JoinHasRow(db, u, c, d);
    }
  }

  /** In every state that satisfies the invariant the six-table join is the simple test. */
  lemma JoinIsSimpleTest(p: Policy, db: Db, u: Id, c: Id, d: Definition)
    requires Inv(p, db) && d in p.catalogue
    ensures JoinHasRow(db, u, c, d) <==> MayUse(db, u, c, d.id)
  {
    if MayUse(db, u, c, d.id) {
      SimpleTestJoins(p, db, u, c, d);
    }
  }

  lemma SimpleTestJoins(p: Policy, db: Db, u: Id, c: Id, d: Definition)
    requires Inv(p, db) && d in p.catalogue && MayUse(db, u, c, d.id)
    ensures JoinHasRow(db, u, c, d)
  {
    var r := RoleOf(db, u, c);
    assert JoinRow(db, u, c, d, MemberKey(u, c), c, CompanyRoleKey(c, r), r, LinkKey(r, d.id), d.id);
  }

  /** In every state of the service the check accepts superusers and those who pass the simple test, and nobody else. */
  lemma RequireIff(p: Policy, db: Db, u: Id, c: Id, d: Definition)
    requires Inv(p, db) && d in p.catalogue && u in db.users
    ensures Require(db, u, db.users[u].superuser, c, d) ==
      if db.users[u].superuser || MayUse(db, u, c, d.id) then Done else Refused(Forbidden)
  {
    JoinIsSimpleTest(p, db, u, c, d);
  }

  // The companies of a user -----------------------------------------------------------

  datatype CompanyListing = CompanyListing(role: Id, permissions: seq<PermissionRead>)

  /** The companies that the listing shows: open ones in which the user is an active member. */
  function CompaniesOf(db: Db, u: Id): set<Id> {
    set k | k in db.members && k.user == u && db.members[k].life.Open?
      && OpenCompany(db, k.company) && db.members[k].role in db.roles :: k.company
  }

  class CompanyReader {
    const db: Db

    constructor (db: Db)
      ensures this.db == db
    {
      this.db := db;
    }

    /** All pages of the listing, one entry per company, with the permissions of the user's role there. */
    method GetUserCompanies(u: Id) returns (result: map<Id, CompanyListing>)
      ensures result.Keys == CompaniesOf(db, u)
      ensures forall c | c in result :: MemberKey(u, c) in db.members && result[c].role == RoleOf(db, u, c)
      ensures forall c | c in result :: ListingOf(result[c].permissions, Effective(db, c, RoleOf(db, u, c)))
    {
      var reader := new PermissionListing.PermissionReader(db);
      var shown := CompaniesOf(db, u);
      var assignments := AssignmentsOf(u, shown);
      var lists := reader.EffectivePermissionsByAssignments(assignments);
      forall c | c in shown
        ensures (c, RoleOf(db, u, c)) in lists
          && ListingOf(lists[(c, RoleOf(db, u, c))].items, Effective(db, c, RoleOf(db, u, c)))
      {
        assert (c, RoleOf(db, u, c)) in assignments;
        ItemsAre(lists, (c, RoleOf(db, u, c)));
      }
      result := Assemble(u, shown, lists);
    }

    method Assemble(u: Id, shown: set<Id>, lists: map<(Id, Id), PermissionListing.PermissionList>)
      returns (result: map<Id, CompanyListing>)
      requires forall c | c in shown :: MemberKey(u, c) in db.members && (c, RoleOf(db, u, c)) in lists
      requires forall c | c in shown ::
        ListingOf(lists[(c, RoleOf(db, u, c))].items, Effective(db, c, RoleOf(db, u, c)))
      ensures result.Keys == shown
      ensures forall c | c in result :: result[c].role == RoleOf(db, u, c)
      ensures forall c | c in result :: ListingOf(result[c].permissions, Effective(db, c, RoleOf(db, u, c)))
    {
      result := map[];
      var left := shown;
      while left != {}
        invariant left <= shown && result.Keys == shown - left
        invariant forall c | c in result :: result[c].role == RoleOf(db, u, c)
        invariant forall c | c in result :: ListingOf(result[c].permissions, Effective(db, c, RoleOf(db, u, c)))
      {
        var c :| c in left;
        var r := RoleOf(db, u, c);
        result := result[c := CompanyListing(r, lists[(c, r)].items)];
        left := left - {c};
      }
    }

    method AssignmentsOf(u: Id, shown: set<Id>) returns (assignments: seq<(Id, Id)>)
      requires forall c | c in shown :: MemberKey(u, c) in db.members
      ensures forall c | c in shown :: (c, RoleOf(db, u, c)) in assignments
    {
      assignments := [];
      var left := shown;
      while left != {}
        invariant left <= shown
        invariant forall c | c in shown - left :: (c, RoleOf(db, u, c)) in assignments
      {
        var c :| c in left;
        assignments := assignments + [(c, RoleOf(db, u, c))];
        left := left - {c};
      }
    }
  }

  lemma ItemsAre(lists: map<(Id, Id), PermissionListing.PermissionList>, p: (Id, Id))
    requires p in lists
    ensures PermissionListing.Items(lists)[p] == lists[p].items
  {
  }

  /** The listing names a permission with global scope for the company. */
  ghost predicate ListsGlobally(listings: map<Id, CompanyListing>, c: Id, permission: Id) {
    c in listings && exists x | x in listings[c].permissions :: x.scope.GlobalScope? && x.id == permission
  }

  lemma GlobalReadsAreLinks(p: Policy, db: Db, c: Id, r: Id, permission: Id)
    requires Inv(p, db)
    ensures (exists x | x in Effective(db, c, r) :: x.scope.GlobalScope? && x.id == permission)
      <==> LinkKey(r, permission) in db.links
  {
    var k := LinkKey(r, permission);
    if k in db.links {
      assert k in LinkRows(db, {r});
      assert ReadLink(db, k) in Effective(db, c, r);
    }
    if x :| x in Effective(db, c, r) && x.scope.GlobalScope? && x.id == permission {
      assert x !in CompanyOf(db, c, r);
    }
  }

  /**
   * The check accepts a user who is no superuser exactly when the listing of that user's companies shows
   * the permission, with global scope, for that company.
   */
  lemma CheckMatchesListing(p: Policy, db: Db, u: Id, c: Id, d: Definition, listings: map<Id, CompanyListing>)
    requires Inv(p, db) && d in p.catalogue
    requires listings.Keys == CompaniesOf(db, u)
    requires forall k | k in listings :: MemberKey(u, k) in db.members
    requires forall k | k in listings :: ListingOf(listings[k].permissions, Effective(db, k, RoleOf(db, u, k)))
    ensures Require(db, u, false, c, d).Done? <==> ListsGlobally(listings, c, d.id)
  {
    JoinIsSimpleTest(p, db, u, c, d);
    ShownExactly(p, db, u, c);
    if c in listings {
      var r := RoleOf(db, u, c);
      GlobalReadsAreLinks(p, db, c, r, d.id);
      ListingMembers(listings[c].permissions, Effective(db, c, r));
    }
  }

  lemma ShownExactly(p: Policy, db: Db, u: Id, c: Id)
    requires Inv(p, db)
    ensures c in CompaniesOf(db, u) <==> OpenCompany(db, c) && ActiveMember(db, u, c)
  {
    if OpenCompany(db, c) && ActiveMember(db, u, c) {
      assert MemberKey(u, c) in db.members && MemberKey(u, c).company == c;
    }
  }

  lemma ListingMembers(s: seq<PermissionRead>, xs: set<PermissionRead>)
    requires Enumerates(s, xs)
    ensures forall x :: x in s <==> x in xs
  {
    assert forall x :: x in s <==> x in multiset(s);
    assert forall x :: x in xs <==> x in multiset(xs);
  }
}
