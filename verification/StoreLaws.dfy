/** What single requests achieve and what they leave alone, in terms of permissions and access. */
module StoreLaws {
  import opened Prelude
  import opened Users
  import opened Store
  import opened EffectivePermissions
  import opened Authorization
  import opened Service
  import Companies
  import CompanyRoles
  import Members
  import Permissions

  // Isolation of companies ------------------------------------------------------------

  ghost predicate SameMembers(a: map<MemberKey, Member>, b: map<MemberKey, Member>, c: Id) {
    forall k: MemberKey | k.company == c :: (k in a <==> k in b) && (k in a ==> a[k] == b[k])
  }

  ghost predicate SameEnabling(a: map<CompanyRoleKey, Life>, b: map<CompanyRoleKey, Life>, c: Id) {
    forall k: CompanyRoleKey | k.company == c :: (k in a <==> k in b) && (k in a ==> a[k] == b[k])
  }

  ghost predicate SameGrants(a: map<GrantKey, Life>, b: map<GrantKey, Life>, c: Id) {
    forall k: GrantKey | k.company == c :: (k in a <==> k in b) && (k in a ==> a[k] == b[k])
  }

  predicate OwnedBy(perms: map<Id, CompanyPermission>, q: Id, c: Id) {
    q in perms && perms[q].company == c
  }

  ghost predicate SamePermissions(a: map<Id, CompanyPermission>, b: map<Id, CompanyPermission>, c: Id) {
    && (forall q | OwnedBy(a, q, c) :: OwnedBy(b, q, c) && a[q] == b[q])
    && (forall q | OwnedBy(b, q, c) :: OwnedBy(a, q, c))
  }

  /** The two states hold the same rows as far as one company is concerned. */
  ghost predicate SameFor(a: Db, b: Db, c: Id) {
    && a.companies == b.companies && a.roles == b.roles && a.links == b.links && a.globalPerms == b.globalPerms
    && SameMembers(a.members, b.members, c) && SameEnabling(a.companyRoles, b.companyRoles, c)
    && SameGrants(a.grants, b.grants, c) && SamePermissions(a.companyPerms, b.companyPerms, c)
  }

  /** The companies that a member, role-assignment or permission request is about. */
  function CompanyScope(op: Op): Option<set<Id>> {
    match op
    case OnRoles(AssignRole(c, _)) => Some({c})
    case OnRoles(AssignRoleToCompanies(_, companies)) => Some(Elements(companies))
    case OnRoles(UnassignRole(c, _)) => Some({c})
    case OnRoles(ReplaceRole(c, _, _)) => Some({c})
    case OnMembers(AddMember(c, _, _)) => Some({c})
    case OnMembers(RemoveMember(c, _, _)) => Some({c})
    case OnMembers(UpdateMemberRole(c, _, _)) => Some({c})
    case OnPermissions(CreateForCompany(c, _, _, _)) => Some({c})
    case OnPermissions(UpdateForCompany(c, _, _)) => Some({c})
    case OnPermissions(DeleteForCompany(c, _)) => Some({c})
    case OnGrants(AssignCompany(c, _, _)) => Some({c})
    case OnGrants(RemoveCompany(c, _, _)) => Some({c})
    case _ => None
  }

  /** The request is about companies, but not about this one. */
  predicate Spares(op: Op, c: Id) {
    CompanyScope(op).Some? && c !in CompanyScope(op).value
  }

  ghost predicate AllSameFor(db: Db, trail: seq<Db>, c: Id) {
    forall i | 0 <= i < |trail| :: SameFor(db, trail[i], c)
  }

  lemma RoleScope(p: Policy, db: Db, op: RoleOp, c: Id)
    requires Spares(OnRoles(op), c)
    ensures AllSameFor(db, ApplyRole(p, db, op).trail, c)
  {
    match op
    case AssignRole(e, r) => assert AllSameFor(db, CompanyRoles.AssignRole(db, e, r).trail, c);
    case AssignRoleToCompanies(r, companies) => AssignEachScope(db, r, companies, c);
    case UnassignRole(e, r) => assert AllSameFor(db, CompanyRoles.UnassignRole(db, e, r).trail, c);
    case ReplaceRole(e, oldName, replacement) => ReplaceScope(p, db, e, oldName, replacement, c);
  }

  /** Enabling a role for companies one by one touches none that is not in the list. */
  lemma {:induction false} AssignEachScope(db: Db, r: Id, companies: seq<Id>, c: Id)
    requires c !in companies
    ensures AllSameFor(db, CompanyRoles.AssignEach(db, r, companies).trail, c)
  {
    if companies != [] {
      var n := |companies| - 1;
      AssignEachScope(db, r, companies[..n], c);
      var before := CompanyRoles.AssignEach(db, r, companies[..n]).trail;
      InsertScope(db, Latest(db, before), companies[n], r, c);
    }
  }

  lemma InsertScope(db: Db, now: Db, e: Id, r: Id, c: Id)
    requires e != c && SameFor(db, now, c)
    ensures AllSameFor(db, CompanyRoles.InsertCompanyRole(now, e, r).trail, c)
  {
  }

  /** The tables after the holders of `r` have moved to `t` and `r` is disabled. */
  function MovedOver(db: Db, e: Id, r: Id, t: Id): Db {
    CompanyRoles.WithoutCompanyRole(
      db.(members := CompanyRoles.MoveMembers(db.members, CompanyRoles.Holders(db, e, r), t)), e, r)
  }

  lemma MovedOverIsSame(db: Db, e: Id, r: Id, t: Id, c: Id)
    requires e != c
    ensures SameFor(db, MovedOver(db, e, r, t), c)
  {
  }

  lemma ReplacementIs(db: Db, e: Id, oldName: string, newName: string)
    ensures
      var step := CompanyRoles.ReplaceAssigned(db, e, oldName, newName);
      || step == Refuse(BadRequest)
      || (exists r, t :: RoleNamed(db, e, oldName) == Some(r) && RoleNamed(db, e, newName) == Some(t)
            && step == Step([MovedOver(db, e, r, t)], Reassigned(|CompanyRoles.Holders(db, e, r)|)))
  {
  }

  lemma ReplaceScope(p: Policy, db: Db, e: Id, oldName: string, replacement: string, c: Id)
    requires e != c
    ensures AllSameFor(db, CompanyRoles.ReplaceRole(p, db, e, oldName, replacement).trail, c)
  {
    ReplacementIs(db, e, oldName, replacement);
    var step := CompanyRoles.ReplaceAssigned(db, e, oldName, replacement);
    if step != Refuse(BadRequest) {
      var r, t :| step == Step([MovedOver(db, e, r, t)], Reassigned(|CompanyRoles.Holders(db, e, r)|));
      MovedOverIsSame(db, e, r, t, c);
    }
  }

  lemma AddMemberScope(db: Db, e: Id, email: string, role: string, c: Id)
    requires e != c
    ensures AllSameFor(db, Members.AddMember(db, e, email, role).trail, c)
  {
  }

  lemma RemoveMemberScope(db: Db, e: Id, u: Id, actor: Id, c: Id)
    requires e != c
    ensures AllSameFor(db, Members.RemoveMember(db, e, u, actor).trail, c)
  {
    RemovalIs(db, e, u, actor, c);
    var step := Members.RemoveMember(db, e, u, actor);
    if step.trail != [] {
      MembersOnly(db, step.trail[0].members, c);
    }
  }

  /** A removal touches one membership row of the company, if any. */
  lemma RemovalIs(db: Db, e: Id, u: Id, actor: Id, c: Id)
    requires e != c
    ensures
      var trail := Members.RemoveMember(db, e, u, actor).trail;
      trail != [] ==>
        && |trail| == 1 && trail[0] == db.(members := trail[0].members)
        && SameMembers(db.members, trail[0].members, c)
  {
  }

  lemma MembersOnly(db: Db, members: map<MemberKey, Member>, c: Id)
    requires SameMembers(db.members, members, c)
    ensures SameFor(db, db.(members := members), c)
  {
  }

  lemma UpdateMemberScope(db: Db, e: Id, u: Id, role: string, c: Id)
    requires e != c
    ensures AllSameFor(db, Members.UpdateMemberRole(db, e, u, role).trail, c)
  {
  }

  lemma MemberScope(db: Db, op: MemberOp, c: Id)
    requires Spares(OnMembers(op), c)
    ensures AllSameFor(db, ApplyMember(db, op).trail, c)
  {
    match op
    case AddMember(e, email, role) => AddMemberScope(db, e, email, role, c);
    case RemoveMember(e, u, actor) => RemoveMemberScope(db, e, u, actor, c);
    case UpdateMemberRole(e, u, role) => UpdateMemberScope(db, e, u, role, c);
  }

  lemma PermissionScope(p: Policy, db: Db, op: PermissionOp, c: Id)
    requires Spares(OnPermissions(op), c)
    ensures AllSameFor(db, ApplyPermission(p, db, op).trail, c)
  {
    match op
    case CreateForCompany(e, id, name, description) => CreatePermissionScope(db, e, id, name, description, c);
    case UpdateForCompany(e, q, edit) => UpdatePermissionScope(db, e, q, edit, c);
    case DeleteForCompany(e, q) => DeletePermissionScope(db, e, q, c);
  }

  lemma CreatePermissionScope(db: Db, e: Id, id: Id, name: string, description: Option<string>, c: Id)
    requires e != c
    ensures AllSameFor(db, Permissions.CreateCompanyPermission(db, e, id, name, description).trail, c)
  {
  }

  lemma UpdatePermissionScope(db: Db, e: Id, q: Id, edit: Permissions.PermissionEdit, c: Id)
    requires e != c
    ensures AllSameFor(db, Permissions.UpdateCompanyPermission(db, e, q, edit).trail, c)
  {
  }

  lemma DeletePermissionScope(db: Db, e: Id, q: Id, c: Id)
    requires e != c
    ensures AllSameFor(db, Permissions.DeleteCompanyPermission(db, e, q).trail, c)
  {
  }

  lemma GrantScope(db: Db, op: GrantOp, c: Id)
    requires Spares(OnGrants(op), c)
    ensures AllSameFor(db, ApplyGrant(db, op).trail, c)
  {
  }

  lemma SameRowsSameEffective(a: Db, b: Db, c: Id, r: Id)
    requires SameFor(a, b, c)
    ensures Effective(a, c, r) == Effective(b, c, r)
  {
    assert GlobalOf(a, r) == GlobalOf(b, r) by {
      assert LinkRows(a, {r}) == LinkRows(b, {r});
    }
    SameRowsSameGrants(a, b, c, r);
  }

  lemma SameRowsSameGrants(a: Db, b: Db, c: Id, r: Id)
    requires SameFor(a, b, c)
    ensures CompanyOf(a, c, r) == CompanyOf(b, c, r)
  {
    forall k | k in GrantRows(a, {(c, r)})
      ensures k in GrantRows(b, {(c, r)}) && ReadGrant(a, k) == ReadGrant(b, k)
    {
      assert OwnedBy(a.companyPerms, k.permission, c);
    }
    forall k | k in GrantRows(b, {(c, r)})
      ensures k in GrantRows(a, {(c, r)})
    {
      assert OwnedBy(b.companyPerms, k.permission, c);
    }
  }

  lemma SameRowsSameJoin(a: Db, b: Db, c: Id, u: Id, d: Definition)
    requires SameFor(a, b, c)
    ensures JoinHasRow(a, u, c, d) == JoinHasRow(b, u, c, d)
  {
    if m, ck, cr, r, l, g :| JoinRow(a, u, c, d, m, ck, cr, r, l, g) {
      assert JoinRow(b, u, c, d, m, ck, cr, r, l, g);
    }
    if m, ck, cr, r, l, g :| JoinRow(b, u, c, d, m, ck, cr, r, l, g) {
      assert JoinRow(a, u, c, d, m, ck, cr, r, l, g);
    }
  }

  /**
   * A request about one company, or several, leaves every other company's effective permissions and every
   * authorisation answer for another company as they were, at each of its commits.
   */
  lemma CompaniesAreIsolated(p: Policy, db: Db, op: Op, c: Id, i: nat, u: Id, r: Id, d: Definition)
    requires Drawn(p, op) && Spares(op, c)
    requires i < |Apply(p, db, op).trail|
    ensures Effective(Apply(p, db, op).trail[i], c, r) == Effective(db, c, r)
    ensures Require(Apply(p, db, op).trail[i], u, false, c, d) == Require(db, u, false, c, d)
  {
    match op {
      case OnRoles(role) => RoleScope(p, db, role, c);
      case OnMembers(member) => MemberScope(db, member, c);
      case OnPermissions(permission) => PermissionScope(p, db, permission, c);
      case OnGrants(grant) => GrantScope(db, grant, c);
    }
    var after := Apply(p, db, op).trail[i];
    assert SameFor(db, after, c);
    SameRowsSameEffective(db, after, c, r);
    SameRowsSameJoin(db, after, c, u, d);
  }

  /** Platform roles open no company door: assigning or removing them changes no authorisation answer. */
  lemma PlatformRolesDoNotReachCompanies(db: Db, op: GrantOp, i: nat, c: Id, u: Id, r: Id, d: Definition)
    requires op.AssignPlatform? || op.RemovePlatform?
    requires i < |ApplyGrant(db, op).trail|
    ensures Require(ApplyGrant(db, op).trail[i], u, false, c, d) == Require(db, u, false, c, d)
    ensures Effective(ApplyGrant(db, op).trail[i], c, r) == Effective(db, c, r)
  {
    var after := ApplyGrant(db, op).trail[i];
    assert SameFor(db, after, c);
    SameRowsSameJoin(db, after, c, u, d);
    SameRowsSameEffective(db, after, c, r);
  }

  /**
   * Renaming a role through one company changes no permission and no authorisation answer in any company,
   * for the row is shared: what changes, for every company that has the role, is the name it is found by.
   */
  lemma UpdateCompanyRoleEffect(db: Db, c: Id, role: string, newName: Option<string>, newDescription: Option<string>,
                                r: Id, e: Id, s: Id, name: string)
    requires UniqueRoleNames(db.roles) && AssignedRole(db, c, role, r)
    requires CompanyRoles.UpdateCompanyRole(db, c, role, newName, newDescription).outcome.Done?
    ensures
      var step := CompanyRoles.UpdateCompanyRole(db, c, role, newName, newDescription);
      && |step.trail| == 1
      && Effective(step.trail[0], e, s) == Effective(db, e, s)
      && (AssignedRole(step.trail[0], e, name, s) <==>
            && OpenRole(db, s) && Enabled(db, e, s)
            && name == if s == r && newName.Some? && newName.value != "" then newName.value else db.roles[s].name)
  {
    RoleNamedIs(db, c, role, r);
    var after := CompanyRoles.UpdateCompanyRole(db, c, role, newName, newDescription).trail[0];
    assert after == db.(roles := after.roles);
    RolesDoNotMatter(db, after.roles, e, s);
  }

  lemma RolesDoNotMatter(db: Db, roles: map<Id, Role>, e: Id, s: Id)
    ensures Effective(db.(roles := roles), e, s) == Effective(db, e, s)
  {
    var after := db.(roles := roles);
    assert LinkRows(after, {s}) == LinkRows(db, {s});
    assert GrantRows(after, {(e, s)}) == GrantRows(db, {(e, s)});
  }

  lemma UpdateCompanyRoleKeepsAnswers(db: Db, c: Id, role: string, newName: Option<string>,
                                      newDescription: Option<string>, u: Id, e: Id, d: Definition)
    requires CompanyRoles.UpdateCompanyRole(db, c, role, newName, newDescription).outcome.Done?
    ensures
      var step := CompanyRoles.UpdateCompanyRole(db, c, role, newName, newDescription);
      |step.trail| == 1 && Require(step.trail[0], u, false, e, d) == Require(db, u, false, e, d)
  {
    var after := CompanyRoles.UpdateCompanyRole(db, c, role, newName, newDescription).trail[0];
    assert after == db.(roles := after.roles);
    assert forall r :: IsOpenRole(after.roles, r) <==> IsOpenRole(db.roles, r);
    if m, ck, cr, r, l, g :| JoinRow(db, u, e, d, m, ck, cr, r, l, g) {
      assert JoinRow(after, u, e, d, m, ck, cr, r, l, g);
    }
    if m, ck, cr, r, l, g :| JoinRow(after, u, e, d, m, ck, cr, r, l, g) {
      assert JoinRow(db, u, e, d, m, ck, cr, r, l, g);
    }
  }

  // Replacing a role ---------------------------------------------------------------------

  /** A replacement is refused, with nothing committed, exactly in these cases. */
  lemma ReplaceRoleRefusedIff(p: Policy, db: Db, c: Id, oldName: string, newName: string)
    requires Inv(p, db)
    ensures
      var step := CompanyRoles.ReplaceRole(p, db, c, oldName, newName);
      && (step.outcome.Refused? <==>
            || (exists i | 0 <= i < |p.defaults| :: p.defaults[i].name == oldName)
            || oldName == newName
            || (forall r :: !AssignedRole(db, c, oldName, r))
            || (forall s :: !AssignedRole(db, c, newName, s)))
      && (step.outcome.Refused? ==> step.trail == [])
      && (!step.outcome.Refused? ==> |step.trail| == 1)
  {
  }

  /** The state after a successful replacement of the role `r` by `s`. */
  ghost predicate Replaced(p: Policy, db: Db, c: Id, oldName: string, newName: string, r: Id, s: Id, after: Db,
                           count: nat) {
    && AssignedRole(db, c, oldName, r) && AssignedRole(db, c, newName, s)
    && CompanyRoles.ReplaceRole(p, db, c, oldName, newName) == Step([after], Reassigned(count))
  }

  lemma ReplacedIs(p: Policy, db: Db, c: Id, oldName: string, newName: string, r: Id, s: Id)
    requires RoleNamed(db, c, oldName) == Some(r) && RoleNamed(db, c, newName) == Some(s)
    requires CompanyRoles.ReplaceRole(p, db, c, oldName, newName).outcome.Reassigned?
    ensures oldName != newName
    ensures CompanyRoles.ReplaceRole(p, db, c, oldName, newName) ==
      Step([MovedOver(db, c, r, s)], Reassigned(|CompanyRoles.Holders(db, c, r)|))
  {
  }

  lemma ReplacedTables(p: Policy, db: Db, c: Id, oldName: string, newName: string, r: Id, s: Id, after: Db, count: nat)
    requires UniqueRoleNames(db.roles) && Replaced(p, db, c, oldName, newName, r, s, after, count)
    ensures r != s && count == |CompanyRoles.Holders(db, c, r)| && after == MovedOver(db, c, r, s)
  {
    RoleNamedIs(db, c, oldName, r);
    RoleNamedIs(db, c, newName, s);
    ReplacedIs(p, db, c, oldName, newName, r, s);
    assert CompanyRoles.ReplaceRole(p, db, c, oldName, newName).trail[0] == after;
  }

  /**
   * A replacement keeps the company's active members, moves exactly the holders of the old role to the
   * new one and reports their number, and leaves no active member, grant or enabling on the old role.
   */
  lemma ReplaceRoleEffect(p: Policy, db: Db, c: Id, oldName: string, newName: string, r: Id, s: Id, after: Db,
                          count: nat, u: Id)
    requires Inv(p, db) && Replaced(p, db, c, oldName, newName, r, s, after, count)
    ensures ActiveMember(after, u, c) <==> ActiveMember(db, u, c)
    ensures ActiveMember(db, u, c) ==> RoleOf(after, u, c) == if RoleOf(db, u, c) == r then s else RoleOf(db, u, c)
    ensures count == |set k | k in db.members && k.company == c && db.members[k].life.Open? && db.members[k].role == r|
    ensures !CompanyRoles.HeldInCompany(after, c, r) && !Enabled(after, c, r) && Enabled(after, c, s)
    ensures forall k | k in after.grants :: !(k.company == c && k.role == r)
    ensures forall k: GrantKey | !(k.company == c && k.role == r) :: k in after.grants <==> k in db.grants
  {
    ReplacedTables(p, db, c, oldName, newName, r, s, after, count);
    MovedMembers(db, c, r, s, u);
    MovedGrants(db, c, r, s);
    assert CompanyRoles.Holders(db, c, r) ==
      set k | k in db.members && k.company == c && db.members[k].life.Open? && db.members[k].role == r;
  }

  lemma MovedMembers(db: Db, c: Id, r: Id, s: Id, u: Id)
    requires r != s
    ensures
      var after := MovedOver(db, c, r, s);
      && (ActiveMember(after, u, c) <==> ActiveMember(db, u, c))
      && (ActiveMember(db, u, c) ==> RoleOf(after, u, c) == if RoleOf(db, u, c) == r then s else RoleOf(db, u, c))
      && !CompanyRoles.HeldInCompany(after, c, r)
  {
  }

  lemma MovedGrants(db: Db, c: Id, r: Id, s: Id)
    requires r != s
    ensures
      var after := MovedOver(db, c, r, s);
      && !Enabled(after, c, r) && (Enabled(after, c, s) <==> Enabled(db, c, s))
      && (forall k | k in after.grants :: !(k.company == c && k.role == r))
      && (forall k: GrantKey | !(k.company == c && k.role == r) :: k in after.grants <==> k in db.grants)
  {
  }

  // Memberships and access ---------------------------------------------------------------

  /** Adding succeeds exactly when the email is known, the role is enabled, and no row, even closed, exists. */
  lemma AddMemberIff(p: Policy, db: Db, c: Id, u: Id, email: string, r: Id, role: string)
    requires Inv(p, db)
    requires u in db.users && db.users[u].email == email && AssignedRole(db, c, role, r)
    ensures Members.AddMember(db, c, email, role).outcome.Done? <==> MemberKey(u, c) !in db.members
    ensures Members.AddMember(db, c, email, role).outcome.Refused? ==> Members.AddMember(db, c, email, role).trail == []
  {
    assert UserWithEmail(db, email) == Some(u);
    RoleNamedIs(db, c, role, r);
  }

  /** What a new member may use is exactly what the role is linked to; nobody else's access changes. */
  lemma AddMemberEffect(p: Policy, db: Db, c: Id, u: Id, email: string, r: Id, role: string, v: Id, e: Id,
                        permission: Id)
    requires Inv(p, db)
    requires u in db.users && db.users[u].email == email
    requires AssignedRole(db, c, role, r) && MemberKey(u, c) !in db.members
    ensures
      var step := Members.AddMember(db, c, email, role);
      && |step.trail| == 1
      && (MayUse(step.trail[0], u, c, permission) <==> OpenCompany(db, c) && LinkKey(r, permission) in db.links)
      && ((v, e) != (u, c) ==> (MayUse(step.trail[0], v, e, permission) <==> MayUse(db, v, e, permission)))
  {
    AddMemberRow(db, c, u, email, r, role);
    NewMemberMayUse(db, c, u, r, v, e, permission);
  }

  lemma NewMemberMayUse(db: Db, c: Id, u: Id, r: Id, v: Id, e: Id, permission: Id)
    ensures
      var after := db.(members := db.members[MemberKey(u, c) := Member(r, Open)]);
      && (MayUse(after, u, c, permission) <==> OpenCompany(db, c) && LinkKey(r, permission) in db.links)
      && ((v, e) != (u, c) ==> (MayUse(after, v, e, permission) <==> MayUse(db, v, e, permission)))
  {
  }

  lemma AddMemberRow(db: Db, c: Id, u: Id, email: string, r: Id, role: string)
    requires UniqueEmails(db.users) && UniqueRoleNames(db.roles)
    requires u in db.users && db.users[u].email == email
    requires AssignedRole(db, c, role, r) && MemberKey(u, c) !in db.members
    ensures Members.AddMember(db, c, email, role) ==
      Commit(db.(members := db.members[MemberKey(u, c) := Member(r, Open)]))
  {
    assert UserWithEmail(db, email) == Some(u);
    RoleNamedIs(db, c, role, r);
  }

  /** Removal takes away everything the member could use there and nothing else. */
  lemma RemoveMemberEffect(db: Db, c: Id, u: Id, actor: Id, v: Id, e: Id, permission: Id)
    requires Members.RemoveMember(db, c, u, actor).outcome.Done?
    ensures
      var step := Members.RemoveMember(db, c, u, actor);
      && |step.trail| == 1
      && !MayUse(step.trail[0], u, c, permission)
      && ((v, e) != (u, c) ==> (MayUse(step.trail[0], v, e, permission) <==> MayUse(db, v, e, permission)))
  {
  }

  /** Removal is refused exactly for non-members, owners, and administrators acting on themselves. */
  lemma RemoveMemberRefusedIff(p: Policy, db: Db, c: Id, u: Id, actor: Id)
    requires Inv(p, db)
    ensures Members.RemoveMember(db, c, u, actor).outcome.Refused? <==>
      || !ActiveMember(db, u, c)
      || AssignedRole(db, c, Members.OWNER, RoleOf(db, u, c))
      || (u == actor && AssignedRole(db, c, Members.ADMINISTRATOR, RoleOf(db, u, c)))
  {
  }

  /** A new role gives the member exactly what that role is linked to; nobody else's access changes. */
  lemma UpdateMemberRoleEffect(p: Policy, db: Db, c: Id, u: Id, r: Id, role: string, v: Id, e: Id, permission: Id)
    requires Inv(p, db) && ActiveMember(db, u, c) && AssignedRole(db, c, role, r)
    ensures
      var step := Members.UpdateMemberRole(db, c, u, role);
      && step.outcome.Done? && |step.trail| == 1
      && (MayUse(step.trail[0], u, c, permission) <==> OpenCompany(db, c) && LinkKey(r, permission) in db.links)
      && ((v, e) != (u, c) ==> (MayUse(step.trail[0], v, e, permission) <==> MayUse(db, v, e, permission)))
  {
    RoleNamedIs(db, c, role, r);
    NewMemberMayUse(db, c, u, r, v, e, permission);
  }

  /** Closing a company takes away all access there and none elsewhere. */
  lemma DeleteCompanyEffect(db: Db, c: Id, v: Id, e: Id, permission: Id)
    requires OpenCompany(db, c)
    ensures
      var step := Companies.DeleteCompany(db, c);
      && step.outcome.Done? && |step.trail| == 1
      && (MayUse(step.trail[0], v, e, permission) <==> e != c && MayUse(db, v, e, permission))
  {
  }

  /** Deleting a role is refused while anybody active holds it, so it takes no access from anyone. */
  lemma DeleteRoleTakesNoAccess(db: Db, r: Id, u: Id, c: Id, permission: Id)
    requires CompanyRoles.DeleteRole(db, r).outcome.Done?
    ensures
      var step := CompanyRoles.DeleteRole(db, r);
      && |step.trail| == 1 && !OpenRole(step.trail[0], r)
      && (MayUse(step.trail[0], u, c, permission) <==> MayUse(db, u, c, permission))
  {
    if ActiveMember(db, u, c) {
      assert RoleOf(db, u, c) != r;
    }
  }

  /** Disabling a role for a company likewise takes no access from anyone. */
  lemma UnassignTakesNoAccess(db: Db, c: Id, r: Id, u: Id, e: Id, permission: Id)
    requires CompanyRoles.UnassignRole(db, c, r).outcome.Done?
    ensures
      var step := CompanyRoles.UnassignRole(db, c, r);
      && |step.trail| == 1 && !Enabled(step.trail[0], c, r) && !CompanyRoles.HeldInCompany(db, c, r)
      && (MayUse(step.trail[0], u, e, permission) <==> MayUse(db, u, e, permission))
      && JoinUntouched(db, step.trail[0], u, e)
  {
  }

  /** The rows that the join reads for an active member are the same in both states. */
  predicate JoinUntouched(a: Db, b: Db, u: Id, e: Id) {
    ActiveMember(a, u, e) ==>
      && ActiveMember(b, u, e) && RoleOf(a, u, e) == RoleOf(b, u, e)
      && Enabled(a, e, RoleOf(a, u, e)) == Enabled(b, e, RoleOf(a, u, e))
  }

  /** Deleting a permission changes no answer about a permission of the catalogue. */
  lemma DeletePermissionTakesNoAccess(p: Policy, db: Db, g: Id, u: Id, c: Id, d: Definition)
    requires d in p.catalogue && Permissions.DeleteGlobal(p, db, g).outcome.Done?
    ensures
      var step := Permissions.DeleteGlobal(p, db, g);
      && |step.trail| == 1 && g !in step.trail[0].globalPerms && g != d.id
      && (MayUse(step.trail[0], u, c, d.id) <==> MayUse(db, u, c, d.id))
  {
    var i :| 0 <= i < |p.catalogue| && p.catalogue[i] == d;
    assert g == d.id ==> IsSystemId(p, g);
  }

  // Permissions on roles -------------------------------------------------------------------

  lemma LinkAddsRead(db: Db, k: LinkKey, s: Id)
    requires k !in db.links && k.permission in db.globalPerms && db.globalPerms[k.permission].life.Open?
    ensures
      var after := db.(links := db.links[k := Open]);
      GlobalOf(after, s) == GlobalOf(db, s) + if s == k.role then {ReadLink(db, k)} else {}
  {
    var after := db.(links := db.links[k := Open]);
    assert LinkRows(after, {s}) == LinkRows(db, {s}) + (if s == k.role then {k} else {});
  }

  lemma LinksLeaveGrants(db: Db, links: map<LinkKey, Life>, c: Id, s: Id)
    ensures CompanyOf(db.(links := links), c, s) == CompanyOf(db, c, s)
  {
    assert GrantRows(db.(links := links), {(c, s)}) == GrantRows(db, {(c, s)});
  }

  lemma NewLinkIsNew(db: Db, k: LinkKey, c: Id)
    requires k !in db.links && k.permission in db.globalPerms
    ensures ReadLink(db, k) !in Effective(db, c, k.role)
  {
    GlobalOfHas(db, k.role, ReadLink(db, k));
  }

  /** Linking a permission to a role gives it to that role in every company, and changes nothing else. */
  lemma AssignGlobalEffect(p: Policy, db: Db, r: Id, g: Id, c: Id, s: Id)
    requires Inv(p, db) && Permissions.AssignGlobal(db, r, g).outcome.Done?
    ensures
      var step := Permissions.AssignGlobal(db, r, g);
      && |step.trail| == 1
      && Effective(step.trail[0], c, s) ==
         Effective(db, c, s) + (if s == r then {ReadGlobal(g, db.globalPerms[g])} else {})
      && ReadGlobal(g, db.globalPerms[g]) !in Effective(db, c, r)
  {
    LinkAddsRead(db, LinkKey(r, g), s);
    LinksLeaveGrants(db, db.links[LinkKey(r, g) := Open], c, s);
    NewLinkIsNew(db, LinkKey(r, g), c);
  }

  lemma GrantAddsRow(db: Db, k: GrantKey, e: Id, s: Id)
    requires k !in db.grants && k.permission in db.companyPerms
    requires db.companyPerms[k.permission].company == k.company && db.companyPerms[k.permission].life.Open?
    ensures
      var after := db.(grants := db.grants[k := Open]);
      GrantRows(after, {(e, s)}) == GrantRows(db, {(e, s)}) + if (e, s) == (k.company, k.role) then {k} else {}
  {
  }

  lemma GrantAddsRead(db: Db, k: GrantKey, e: Id, s: Id)
    requires k !in db.grants && k.permission in db.companyPerms
    requires db.companyPerms[k.permission].company == k.company && db.companyPerms[k.permission].life.Open?
    ensures
      var after := db.(grants := db.grants[k := Open]);
      CompanyOf(after, e, s) == CompanyOf(db, e, s) + if (e, s) == (k.company, k.role) then {ReadGrant(db, k)} else {}
  {
    GrantAddsRow(db, k, e, s);
  }

  lemma GrantsLeaveGlobals(db: Db, grants: map<GrantKey, Life>, s: Id)
    ensures GlobalOf(db.(grants := grants), s) == GlobalOf(db, s)
  {
    assert LinkRows(db.(grants := grants), {s}) == LinkRows(db, {s});
  }

  /** A grant adds one company permission to one role of that company. */
  lemma AssignCompanyEffect(p: Policy, db: Db, c: Id, r: Id, q: Id, e: Id, s: Id)
    requires Inv(p, db) && Permissions.AssignCompany(db, c, r, q).outcome.Done?
    ensures
      var step := Permissions.AssignCompany(db, c, r, q);
      && |step.trail| == 1
      && Effective(step.trail[0], e, s) ==
         Effective(db, e, s) + if (e, s) == (c, r) then {ReadCompany(q, db.companyPerms[q])} else {}
  {
    GrantAddsRead(db, GrantKey(c, r, q), e, s);
    GrantsLeaveGlobals(db, db.grants[GrantKey(c, r, q) := Open], s);
  }

  /** Removing a link that was just assigned restores the store, and the other way round. */
  lemma GlobalAssignmentRoundTrip(p: Policy, db: Db, r: Id, g: Id)
    requires Inv(p, db)
    ensures
      var step := Permissions.AssignGlobal(db, r, g);
      step.outcome.Done? ==> Permissions.RemoveGlobal(step.trail[0], r, g) == Commit(db)
    ensures
      var step := Permissions.RemoveGlobal(db, r, g);
      step.outcome.Done? ==> Permissions.AssignGlobal(step.trail[0], r, g) == Commit(db)
  {
    var k := LinkKey(r, g);
    if k in db.links {
      assert (db.links - {k})[k := Open] == db.links;
    } else {
      assert db.links[k := Open] - {k} == db.links;
    }
  }

  lemma CompanyAssignmentRoundTrip(p: Policy, db: Db, c: Id, r: Id, q: Id)
    requires Inv(p, db)
    ensures
      var step := Permissions.AssignCompany(db, c, r, q);
      step.outcome.Done? ==> Permissions.RemoveCompany(step.trail[0], c, r, q) == Commit(db)
    ensures
      var step := Permissions.RemoveCompany(db, c, r, q);
      step.outcome.Done? ==> Permissions.AssignCompany(step.trail[0], c, r, q) == Commit(db)
  {
    if GrantKey(c, r, q) in db.grants {
      RemoveThenAssign(db, c, r, q);
    } else {
      AssignThenRemove(db, c, r, q);
    }
  }

  lemma AssignThenRemove(db: Db, c: Id, r: Id, q: Id)
    ensures
      var step := Permissions.AssignCompany(db, c, r, q);
      step.outcome.Done? ==> Permissions.RemoveCompany(step.trail[0], c, r, q) == Commit(db)
  {
    var k := GrantKey(c, r, q);
    if k !in db.grants {
      assert db.grants[k := Open] - {k} == db.grants;
    }
  }

  lemma RemoveThenAssign(db: Db, c: Id, r: Id, q: Id)
    requires GrantKey(c, r, q) in db.grants ==> db.grants[GrantKey(c, r, q)].Open?
    ensures
      var step := Permissions.RemoveCompany(db, c, r, q);
      step.outcome.Done? ==> Permissions.AssignCompany(step.trail[0], c, r, q) == Commit(db)
  {
    var k := GrantKey(c, r, q);
    if k in db.grants {
      assert (db.grants - {k})[k := Open] == db.grants;
    }
  }

  lemma PlatformAssignmentRoundTrip(p: Policy, db: Db, u: Id, r: Id)
    requires Inv(p, db)
    ensures
      var step := Permissions.AssignPlatform(db, u, r);
      step.outcome.Done? ==> Permissions.RemovePlatform(step.trail[0], u, r) == Commit(db)
    ensures
      var step := Permissions.RemovePlatform(db, u, r);
      step.outcome.Done? ==> Permissions.AssignPlatform(step.trail[0], u, r) == Commit(db)
  {
    var k := PlatformKey(u, r);
    if k in db.platformRoles {
      assert (db.platformRoles - {k})[k := Open] == db.platformRoles;
    } else {
      assert db.platformRoles[k := Open] - {k} == db.platformRoles;
    }
  }
}
