/** Runs of the whole service: every committed state, whatever requests arrive and however they end. */
module Service {
  import opened Prelude
  import opened Users
  import opened Store
  import CompanyRoles
  import Members
  import Permissions
  import Companies
  import StoreInvariant
  import CompanyCreation

  datatype RoleOp =
    | CreateRole(id: Id, name: string, description: Option<string>)
    | UpdateRole(r: Id, newName: Option<string>, newDescription: Option<string>)
    | UpdateCompanyRole(c: Id, role: string, newName: Option<string>, newDescription: Option<string>)
    | DeleteRole(r: Id)
    | AssignRole(c: Id, r: Id)
    | AssignRoleToCompanies(r: Id, companies: seq<Id>)
    | UnassignRole(c: Id, r: Id)
    | ReplaceRole(c: Id, oldName: string, replacement: string)

  datatype MemberOp =
    | AddMember(c: Id, email: string, role: string)
    | RemoveMember(c: Id, u: Id, actor: Id)
    | UpdateMemberRole(c: Id, u: Id, role: string)

  datatype PermissionOp =
    | CreateGlobal(id: Id, name: string, description: Option<string>)
    | UpdateGlobal(g: Id, edit: Permissions.PermissionEdit)
    | DeleteGlobal(g: Id)
    | CreateForCompany(c: Id, id: Id, name: string, description: Option<string>)
    | UpdateForCompany(c: Id, q: Id, edit: Permissions.PermissionEdit)
    | DeleteForCompany(c: Id, q: Id)

  datatype GrantOp =
    | AssignGlobal(r: Id, g: Id)
    | RemoveGlobal(r: Id, g: Id)
    | AssignCompany(c: Id, r: Id, q: Id)
    | RemoveCompany(c: Id, r: Id, q: Id)
    | AssignPlatform(u: Id, r: Id)
    | RemovePlatform(u: Id, r: Id)

  /** Accounts stands for any change of account rows: rows are added or edited, never dropped. */
  datatype Op =
    | OnRoles(role: RoleOp)
    | OnMembers(member: MemberOp)
    | OnPermissions(permission: PermissionOp)
    | OnGrants(grant: GrantOp)
    | CreateCompany(c: Id, email: string, ids: seq<Id>, creator: string)
    | DeleteCompany(c: Id)
    | Accounts(users: map<Id, User>)

  ghost function ApplyRole(p: Policy, db: Db, op: RoleOp): Step {
    match op
    case CreateRole(id, name, description) => CompanyRoles.CreateRole(db, id, name, description)
    case UpdateRole(r, name, description) => CompanyRoles.UpdateRole(db, r, name, description)
    case UpdateCompanyRole(c, role, name, description) => CompanyRoles.UpdateCompanyRole(db, c, role, name, description)
    case DeleteRole(r) => CompanyRoles.DeleteRole(db, r)
    case AssignRole(c, r) => CompanyRoles.AssignRole(db, c, r)
    case AssignRoleToCompanies(r, companies) => CompanyRoles.AssignRoleToCompanies(db, r, companies)
    case UnassignRole(c, r) => CompanyRoles.UnassignRole(db, c, r)
    case ReplaceRole(c, oldName, replacement) => CompanyRoles.ReplaceRole(p, db, c, oldName, replacement)
  }

  ghost function ApplyMember(db: Db, op: MemberOp): Step {
    match op
    case AddMember(c, email, role) => Members.AddMember(db, c, email, role)
    case RemoveMember(c, u, actor) => Members.RemoveMember(db, c, u, actor)
    case UpdateMemberRole(c, u, role) => Members.UpdateMemberRole(db, c, u, role)
  }

  function ApplyPermission(p: Policy, db: Db, op: PermissionOp): Step {
    match op
    case CreateGlobal(id, name, description) => Permissions.CreateGlobal(db, id, name, description)
    case UpdateGlobal(g, edit) => Permissions.UpdateGlobal(p, db, g, edit)
    case DeleteGlobal(g) => Permissions.DeleteGlobal(p, db, g)
    case CreateForCompany(c, id, name, description) => Permissions.CreateCompanyPermission(db, c, id, name, description)
    case UpdateForCompany(c, q, edit) => Permissions.UpdateCompanyPermission(db, c, q, edit)
    case DeleteForCompany(c, q) => Permissions.DeleteCompanyPermission(db, c, q)
  }

  function ApplyGrant(db: Db, op: GrantOp): Step {
    match op
    case AssignGlobal(r, g) => Permissions.AssignGlobal(db, r, g)
    case RemoveGlobal(r, g) => Permissions.RemoveGlobal(db, r, g)
    case AssignCompany(c, r, q) => Permissions.AssignCompany(db, c, r, q)
    case RemoveCompany(c, r, q) => Permissions.RemoveCompany(db, c, r, q)
    case AssignPlatform(u, r) => Permissions.AssignPlatform(db, u, r)
    case RemovePlatform(u, r) => Permissions.RemovePlatform(db, u, r)
  }

  ghost function ApplyAccounts(db: Db, users: map<Id, User>): Step {
    if UniqueEmails(users) && db.users.Keys <= users.Keys then Commit(db.(users := users)) else Refuse(Conflict)
  }

  /** Identifiers drawn for new rows are never the name-based ones of the catalogue. */
  predicate Drawn(p: Policy, op: Op) {
    && (op.OnPermissions? && op.permission.CreateGlobal? ==> !IsSystemId(p, op.permission.id))
    && (op.CreateCompany? ==> |op.ids| == |p.defaults|)
  }

  ghost function Apply(p: Policy, db: Db, op: Op): Step
    requires Drawn(p, op)
  {
    match op
    case OnRoles(role) => ApplyRole(p, db, role)
    case OnMembers(member) => ApplyMember(db, member)
    case OnPermissions(permission) => ApplyPermission(p, db, permission)
    case OnGrants(grant) => ApplyGrant(db, grant)
    case CreateCompany(c, email, ids, creator) => Companies.CreateCompany(p, db, c, email, ids, creator)
    case DeleteCompany(c) => Companies.DeleteCompany(db, c)
    case Accounts(users) => ApplyAccounts(db, users)
  }

  ghost predicate AllDrawn(p: Policy, ops: seq<Op>) {
    forall i | 0 <= i < |ops| :: Drawn(p, ops[i])
  }

  /** Every state committed by a run of requests, in order. */
  ghost function States(p: Policy, db: Db, ops: seq<Op>): seq<Db>
    requires AllDrawn(p, ops)
  {
    if ops == [] then []
    else
      var n := |ops| - 1;
      var before := States(p, db, ops[..n]);
      before + Apply(p, Latest(db, before), ops[n]).trail
  }

  // The invariant ----------------------------------------------------------------------

  lemma RoleOpKeeps(p: Policy, db: Db, op: RoleOp)
    requires Inv(p, db)
    ensures AllInv(p, ApplyRole(p, db, op).trail)
  {
    match op
    case CreateRole(id, name, description) => StoreInvariant.CreateRoleKeeps(p, db, id, name, description);
    case UpdateRole(r, name, description) => StoreInvariant.UpdateRoleKeeps(p, db, r, name, description);
    case UpdateCompanyRole(c, role, name, description) =>
      StoreInvariant.UpdateCompanyRoleKeeps(p, db, c, role, name, description);
    case DeleteRole(r) => StoreInvariant.DeleteRoleKeeps(p, db, r);
    case AssignRole(c, r) => StoreInvariant.AssignRoleKeeps(p, db, c, r);
    case AssignRoleToCompanies(r, companies) => StoreInvariant.AssignRoleToCompaniesKeeps(p, db, r, companies);
    case UnassignRole(c, r) => StoreInvariant.UnassignRoleKeeps(p, db, c, r);
    case ReplaceRole(c, oldName, replacement) => StoreInvariant.ReplaceRoleKeeps(p, db, c, oldName, replacement);
  }

  lemma MemberOpKeeps(p: Policy, db: Db, op: MemberOp)
    requires Inv(p, db)
    ensures AllInv(p, ApplyMember(db, op).trail)
  {
    match op
    case AddMember(c, email, role) => StoreInvariant.AddMemberKeeps(p, db, c, email, role);
    case RemoveMember(c, u, actor) => StoreInvariant.RemoveMemberKeeps(p, db, c, u, actor);
    case UpdateMemberRole(c, u, role) => StoreInvariant.UpdateMemberRoleKeeps(p, db, c, u, role);
  }

  lemma PermissionOpKeeps(p: Policy, db: Db, op: PermissionOp)
    requires Inv(p, db) && Drawn(p, OnPermissions(op))
    ensures AllInv(p, ApplyPermission(p, db, op).trail)
  {
    match op
    case CreateGlobal(id, name, description) => StoreInvariant.CreateGlobalKeeps(p, db, id, name, description);
    case UpdateGlobal(g, edit) => StoreInvariant.UpdateGlobalKeeps(p, db, g, edit);
    case DeleteGlobal(g) => StoreInvariant.DeleteGlobalKeeps(p, db, g);
    case CreateForCompany(c, id, name, description) =>
      StoreInvariant.CompanyPermissionKeeps(p, db, c, id, name, description);
    case UpdateForCompany(c, q, edit) => StoreInvariant.UpdateCompanyPermissionKeeps(p, db, c, q, edit);
    case DeleteForCompany(c, q) => StoreInvariant.DeleteCompanyPermissionKeeps(p, db, c, q);
  }

  lemma GrantOpKeeps(p: Policy, db: Db, op: GrantOp)
    requires Inv(p, db)
    ensures AllInv(p, ApplyGrant(db, op).trail)
  {
    match op
    case AssignGlobal(r, g) => StoreInvariant.AssignGlobalKeeps(p, db, r, g);
    case RemoveGlobal(r, g) => StoreInvariant.RemoveGlobalKeeps(p, db, r, g);
    case AssignCompany(c, r, q) => StoreInvariant.AssignCompanyKeeps(p, db, c, r, q);
    case RemoveCompany(c, r, q) => StoreInvariant.RemoveCompanyKeeps(p, db, c, r, q);
    case AssignPlatform(u, r) => StoreInvariant.AssignPlatformKeeps(p, db, u, r);
    case RemovePlatform(u, r) => StoreInvariant.RemovePlatformKeeps(p, db, u, r);
  }

  lemma AccountsKeep(p: Policy, db: Db, users: map<Id, User>)
    requires Inv(p, db)
    ensures AllInv(p, ApplyAccounts(db, users).trail)
  {
  }

  lemma ApplyKeeps(p: Policy, db: Db, op: Op)
    requires ValidPolicy(p) && Inv(p, db) && Drawn(p, op)
    ensures AllInv(p, Apply(p, db, op).trail)
  {
    match op
    case OnRoles(role) => RoleOpKeeps(p, db, role);
    case OnMembers(member) => MemberOpKeeps(p, db, member);
    case OnPermissions(permission) => PermissionOpKeeps(p, db, permission);
    case OnGrants(grant) => GrantOpKeeps(p, db, grant);
    case CreateCompany(c, email, ids, creator) => CompanyCreation.CreateCompanyKeeps(p, db, c, email, ids, creator);
    case DeleteCompany(c) => StoreInvariant.DeleteCompanyKeeps(p, db, c);
    case Accounts(users) => AccountsKeep(p, db, users);
  }

  lemma {:induction false} RunKeeps(p: Policy, db: Db, ops: seq<Op>)
    requires ValidPolicy(p) && Inv(p, db) && AllDrawn(p, ops)
    ensures AllInv(p, States(p, db, ops))
  {
    if ops != [] {
      var n := |ops| - 1;
      RunKeeps(p, db, ops[..n]);
      var before := States(p, db, ops[..n]);
      CompanyCreation.LatestInv(p, db, before);
      ApplyKeeps(p, Latest(db, before), ops[n]);
    }
  }

  /** Every state that any run of requests from the empty store ever commits satisfies the invariant. */
  lemma EveryCommitSatisfiesInv(p: Policy, ops: seq<Op>)
    requires ValidPolicy(p) && AllDrawn(p, ops)
    ensures AllInv(p, States(p, EMPTY, ops))
  {
    EmptySatisfiesInv(p);
    RunKeeps(p, EMPTY, ops);
  }
}
