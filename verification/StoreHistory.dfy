/** What later requests can never undo: closed rows stay closed, and the catalogue stays complete. */
module StoreHistory {
  import opened Prelude
  import opened Users
  import opened Store
  import CompanyRoles
  import Members
  import Permissions
  import Companies
  import StoreInvariant
  import CompanyCreation
  import DefaultRoles
  import Authorization
  import opened Service

  // Rows are never dropped, and a closed row never changes back.

  ghost predicate RolesGrow(a: map<Id, Role>, b: map<Id, Role>) {
    forall r | r in a :: r in b && (a[r].life.Closed? ==> b[r].life.Closed? && b[r].name == a[r].name)
  }

  ghost predicate CompaniesGrow(a: map<Id, Company>, b: map<Id, Company>) {
    forall c | c in a :: c in b && (a[c].life.Closed? ==> b[c].life.Closed?)
  }

  ghost predicate EnablingGrows(a: map<CompanyRoleKey, Life>, b: map<CompanyRoleKey, Life>) {
    forall k | k in a :: k in b && (a[k].Closed? ==> b[k].Closed?)
  }

  ghost predicate MembersGrow(a: map<MemberKey, Member>, b: map<MemberKey, Member>) {
    forall k | k in a :: k in b && (a[k].life.Closed? ==> b[k] == a[k])
  }

  ghost predicate CatalogueKept(p: Policy, a: map<Id, GlobalPermission>, b: map<Id, GlobalPermission>) {
    Permissions.CatalogueComplete(a, p.catalogue) ==> Permissions.CatalogueComplete(b, p.catalogue)
  }

  ghost predicate Follows(p: Policy, a: Db, b: Db) {
    && RolesGrow(a.roles, b.roles) && CompaniesGrow(a.companies, b.companies)
    && EnablingGrows(a.companyRoles, b.companyRoles) && MembersGrow(a.members, b.members)
    && CatalogueKept(p, a.globalPerms, b.globalPerms)
  }

  ghost predicate AllFollow(p: Policy, db: Db, trail: seq<Db>) {
    forall i | 0 <= i < |trail| :: Follows(p, db, trail[i])
  }

  lemma FollowsTransitive(p: Policy, a: Db, b: Db, c: Db)
    requires Follows(p, a, b) && Follows(p, b, c)
    ensures Follows(p, a, c)
  {
  }

  lemma AllFollowTransitive(p: Policy, a: Db, b: Db, trail: seq<Db>)
    requires Follows(p, a, b) && AllFollow(p, b, trail)
    ensures AllFollow(p, a, trail)
  {
    forall i | 0 <= i < |trail|
      ensures Follows(p, a, trail[i])
    {
      FollowsTransitive(p, a, b, trail[i]);
    }
  }

  lemma FollowsSelf(p: Policy, db: Db)
    ensures Follows(p, db, db)
  {
  }

  lemma LatestFollows(p: Policy, db: Db, trail: seq<Db>)
    requires AllFollow(p, db, trail)
    ensures Follows(p, db, Latest(db, trail))
  {
    FollowsSelf(p, db);
  }

  lemma InsertCompanyRoleFollows(p: Policy, db: Db, c: Id, r: Id)
    ensures AllFollow(p, db, CompanyRoles.InsertCompanyRole(db, c, r).trail)
  {
  }

  lemma {:induction false} AssignEachFollows(p: Policy, db: Db, r: Id, companies: seq<Id>)
    ensures AllFollow(p, db, CompanyRoles.AssignEach(db, r, companies).trail)
  {
    if companies != [] {
      var n := |companies| - 1;
      AssignEachFollows(p, db, r, companies[..n]);
      var before := CompanyRoles.AssignEach(db, r, companies[..n]).trail;
      LatestFollows(p, db, before);
      var insert := CompanyRoles.InsertCompanyRole(Latest(db, before), companies[n], r);
      InsertCompanyRoleFollows(p, Latest(db, before), companies[n], r);
      AllFollowTransitive(p, db, Latest(db, before), insert.trail);
    }
  }

  lemma DeleteRoleFollows(p: Policy, db: Db, r: Id)
    ensures AllFollow(p, db, CompanyRoles.DeleteRole(db, r).trail)
  {
  }

  lemma ReplaceRoleFollows(p: Policy, db: Db, c: Id, oldName: string, newName: string)
    ensures AllFollow(p, db, CompanyRoles.ReplaceRole(p, db, c, oldName, newName).trail)
  {
  }

  lemma RoleOpFollows(p: Policy, db: Db, op: RoleOp)
    ensures AllFollow(p, db, ApplyRole(p, db, op).trail)
  {
    match op
    case DeleteRole(r) => DeleteRoleFollows(p, db, r);
    case AssignRole(c, r) => InsertCompanyRoleFollows(p, db, c, r);
    case AssignRoleToCompanies(r, companies) => AssignEachFollows(p, db, r, companies);
    case ReplaceRole(c, oldName, newName) => ReplaceRoleFollows(p, db, c, oldName, newName);
    case CreateRole(_, _, _) =>
    case UpdateRole(_, _, _) =>
    case UpdateCompanyRole(_, _, _, _) =>
    case UnassignRole(_, _) =>
  }

  lemma MemberOpFollows(p: Policy, db: Db, op: MemberOp)
    ensures AllFollow(p, db, ApplyMember(db, op).trail)
  {
  }

  lemma PermissionOpFollows(p: Policy, db: Db, op: PermissionOp)
    ensures AllFollow(p, db, ApplyPermission(p, db, op).trail)
  {
  }

  lemma GrantOpFollows(p: Policy, db: Db, op: GrantOp)
    ensures AllFollow(p, db, ApplyGrant(db, op).trail)
  {
  }

  lemma ThenFollows(p: Policy, db: Db, first: Step, second: Step)
    requires AllFollow(p, db, first.trail)
    requires !first.outcome.Refused? ==> AllFollow(p, Latest(db, first.trail), second.trail)
    ensures AllFollow(p, db, Companies.Then(first, second).trail)
  {
    if !first.outcome.Refused? {
      LatestFollows(p, db, first.trail);
      AllFollowTransitive(p, db, Latest(db, first.trail), second.trail);
    }
  }

  lemma SurvivorsGrow(a: map<Id, Role>, b: map<Id, Role>)
    requires DefaultRoles.RolesSurvive(a, b)
    ensures RolesGrow(a, b)
  {
  }

  lemma SeedNewRolesFollows(p: Policy, db: Db, chosen: map<string, Id>, created: set<string>)
    requires ValidPolicy(p) && Inv(p, db)
    ensures AllFollow(p, db, Companies.SeedNewRoles(p, db, chosen, created).trail)
  {
    DefaultRoles.FillPermsKeeps(p, db);
  }

  lemma EnsureDefaultRolesFollows(p: Policy, db: Db, ids: seq<Id>)
    requires ValidPolicy(p) && Inv(p, db) && |ids| == |p.defaults|
    ensures AllFollow(p, db, Companies.EnsureDefaultRoles(p, db, ids).trail)
  {
    DefaultRoles.DefaultsInPlace(p, db.roles, ids, |p.defaults|);
    var end := Companies.EnsureDefaults(db.roles, p.defaults, ids, |p.defaults|);
    if end.Some? {
      SurvivorsGrow(db.roles, end.value.roles);
      StoreInvariant.SwapRolesKeeps(p, db, end.value.roles);
      var now := db.(roles := end.value.roles);
      SeedNewRolesFollows(p, now, end.value.chosen, end.value.created);
      assert Follows(p, db, now);
      AllFollowTransitive(p, db, now, Companies.SeedNewRoles(p, now, end.value.chosen, end.value.created).trail);
    }
  }

  lemma EnableDefaultsFollows(p: Policy, db: Db, c: Id, chosen: set<Id>)
    ensures AllFollow(p, db, Companies.EnableDefaults(db, c, chosen).trail)
  {
  }

  lemma InsertCompanyFollows(p: Policy, db: Db, c: Id, email: string)
    ensures AllFollow(p, db, Companies.InsertCompany(db, c, email).trail)
  {
  }

  lemma CreateCompanyFollows(p: Policy, db: Db, c: Id, email: string, ids: seq<Id>, creator: string)
    requires ValidPolicy(p) && Inv(p, db) && |ids| == |p.defaults|
    ensures AllFollow(p, db, Companies.CreateCompany(p, db, c, email, ids, creator).trail)
  {
    var insert := Companies.InsertCompany(db, c, email);
    var db1 := Latest(db, insert.trail);
    InsertCompanyFollows(p, db, c, email);
    StoreInvariant.InsertCompanyKeeps(p, db, c, email);
    CompanyCreation.LatestInv(p, db, insert.trail);
    EnsureDefaultRolesFollows(p, db1, ids);
    ThenFollows(p, db, insert, Companies.EnsureDefaultRoles(p, db1, ids));
    var first := Companies.WithDefaults(p, db, c, email, ids);
    var chosen := Companies.DefaultsFor(p, db, c, email, ids);
    EnableDefaultsFollows(p, Latest(db, first.trail), c, chosen);
    ThenFollows(p, db, first, Companies.EnableDefaults(Latest(db, first.trail), c, chosen));
    var second := Companies.WithEnabledDefaults(p, db, c, email, ids);
    MemberOpFollows(p, Latest(db, second.trail), AddMember(c, creator, Members.OWNER));
    ThenFollows(p, db, second, Members.AddMember(Latest(db, second.trail), c, creator, Members.OWNER));
  }

  lemma DeleteCompanyFollows(p: Policy, db: Db, c: Id)
    ensures AllFollow(p, db, Companies.DeleteCompany(db, c).trail)
  {
  }

  lemma AccountsFollow(p: Policy, db: Db, users: map<Id, User>)
    ensures AllFollow(p, db, ApplyAccounts(db, users).trail)
  {
  }

  lemma ApplyFollows(p: Policy, db: Db, op: Op)
    requires ValidPolicy(p) && Inv(p, db) && Drawn(p, op)
    ensures AllFollow(p, db, Apply(p, db, op).trail)
  {
    match op
    case OnRoles(role) => RoleOpFollows(p, db, role);
    case OnMembers(member) => MemberOpFollows(p, db, member);
    case OnPermissions(permission) => PermissionOpFollows(p, db, permission);
    case OnGrants(grant) => GrantOpFollows(p, db, grant);
    case CreateCompany(c, email, ids, creator) => CreateCompanyFollows(p, db, c, email, ids, creator);
    case DeleteCompany(c) => DeleteCompanyFollows(p, db, c);
    case Accounts(users) => AccountsFollow(p, db, users);
  }

  /**
   * From any state on, whatever requests follow: a deleted role or company, a disabled role and a removed
   * membership stay so, and a complete catalogue stays complete.
   */
  lemma {:induction false} RunFollows(p: Policy, db: Db, ops: seq<Op>)
    requires ValidPolicy(p) && Inv(p, db) && AllDrawn(p, ops)
    ensures AllFollow(p, db, States(p, db, ops))
  {
    if ops != [] {
      var n := |ops| - 1;
      RunFollows(p, db, ops[..n]);
      RunKeeps(p, db, ops[..n]);
      var before := States(p, db, ops[..n]);
      CompanyCreation.LatestInv(p, db, before);
      LatestFollows(p, db, before);
      ApplyFollows(p, Latest(db, before), ops[n]);
      AllFollowTransitive(p, db, Latest(db, before), Apply(p, Latest(db, before), ops[n]).trail);
    }
  }

  /** A removed member never regains any permission in that company: the closed row blocks a new one. */
  lemma RemovalIsFinal(p: Policy, db: Db, ops: seq<Op>, u: Id, c: Id, permission: Id, i: nat)
    requires ValidPolicy(p) && Inv(p, db) && AllDrawn(p, ops)
    requires MemberKey(u, c) in db.members && db.members[MemberKey(u, c)].life.Closed?
    requires i < |States(p, db, ops)|
    ensures !ActiveMember(States(p, db, ops)[i], u, c)
    ensures !Authorization.MayUse(States(p, db, ops)[i], u, c, permission)
  {
    RunFollows(p, db, ops);
    assert Follows(p, db, States(p, db, ops)[i]);
  }

  /** With a complete catalogue no later state renames or drops an entry, or gives its name to another row. */
  lemma CatalogueIsProtected(p: Policy, db: Db, ops: seq<Op>, i: nat, d: Definition, g: Id)
    requires ValidPolicy(p) && Inv(p, db) && AllDrawn(p, ops) && i < |States(p, db, ops)|
    requires Permissions.CatalogueComplete(db.globalPerms, p.catalogue) && d in p.catalogue
    ensures var perms := States(p, db, ops)[i].globalPerms;
      && d.id in perms && perms[d.id].name == d.name && perms[d.id].life.Open?
      && (g in perms && perms[g].name == d.name ==> g == d.id)
  {
    RunFollows(p, db, ops);
    RunKeeps(p, db, ops);
    var state := States(p, db, ops)[i];
    assert Follows(p, db, state) && Inv(p, state);
    var j :| 0 <= j < |p.catalogue| && p.catalogue[j] == d;
    assert state.globalPerms[p.catalogue[j].id].name == d.name;
  }

  /** The state that the next request of a run meets: it satisfies the invariant and follows the first one. */
  lemma NextState(p: Policy, db: Db, ops: seq<Op>)
    requires ValidPolicy(p) && Inv(p, db) && AllDrawn(p, ops)
    ensures Inv(p, Latest(db, States(p, db, ops))) && Follows(p, db, Latest(db, States(p, db, ops)))
  {
    RunFollows(p, db, ops);
    RunKeeps(p, db, ops);
    CompanyCreation.LatestInv(p, db, States(p, db, ops));
    LatestFollows(p, db, States(p, db, ops));
  }

  /** A role can be enabled for a company exactly if role and company exist, the role is open, and no row links them. */
  lemma AssignRoleIff(db: Db, c: Id, r: Id)
    ensures CompanyRoles.AssignRole(db, c, r).outcome.Done? <==>
      OpenRole(db, r) && c in db.companies && CompanyRoleKey(c, r) !in db.companyRoles
  {
  }

  /** A role once disabled for a company stays disabled there, and every later request to enable it is refused. */
  lemma UnassignIsFinal(p: Policy, db: Db, c: Id, r: Id, ops: seq<Op>)
    requires ValidPolicy(p) && Inv(p, db) && CompanyRoles.UnassignRole(db, c, r).outcome.Done?
    requires AllDrawn(p, ops)
    ensures
      var after := CompanyRoles.UnassignRole(db, c, r).trail[0];
      var now := Latest(after, States(p, after, ops));
      !Enabled(now, c, r) && CompanyRoles.AssignRole(now, c, r).outcome.Refused?
  {
    var after := UnassignCloses(p, db, c, r);
    DisabledForever(p, after, c, r, ops);
  }

  lemma UnassignCloses(p: Policy, db: Db, c: Id, r: Id) returns (after: Db)
    requires Inv(p, db) && CompanyRoles.UnassignRole(db, c, r).outcome.Done?
    ensures CompanyRoles.UnassignRole(db, c, r).trail == [after] && Inv(p, after)
    ensures CompanyRoleKey(c, r) in after.companyRoles && after.companyRoles[CompanyRoleKey(c, r)].Closed?
  {
    StoreInvariant.UnassignRoleKeeps(p, db, c, r);
    after := CompanyRoles.UnassignRole(db, c, r).trail[0];
  }

  /** A closed row of company and role refuses every later request to enable the role there. */
  lemma DisabledForever(p: Policy, db: Db, c: Id, r: Id, ops: seq<Op>)
    requires ValidPolicy(p) && Inv(p, db) && AllDrawn(p, ops)
    requires CompanyRoleKey(c, r) in db.companyRoles && db.companyRoles[CompanyRoleKey(c, r)].Closed?
    ensures
      var now := Latest(db, States(p, db, ops));
      !Enabled(now, c, r) && CompanyRoles.AssignRole(now, c, r).outcome.Refused?
  {
    NextState(p, db, ops);
    ClosedRowRefuses(db, Latest(db, States(p, db, ops)), c, r);
  }

  lemma ClosedRowRefuses(db: Db, now: Db, c: Id, r: Id)
    requires EnablingGrows(db.companyRoles, now.companyRoles)
    requires CompanyRoleKey(c, r) in db.companyRoles && db.companyRoles[CompanyRoleKey(c, r)].Closed?
    ensures !Enabled(now, c, r) && CompanyRoles.AssignRole(now, c, r).outcome.Refused?
  {
  }
}
