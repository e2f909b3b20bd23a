/** Every operation keeps the store invariant at every state that it commits. */
module StoreInvariant {
  import opened Prelude
  import opened Store
  import CompanyRoles
  import Members
  import Permissions
  import Companies

  // Global roles and company roles -------------------------------------------------

  /** The role table may change freely as long as names stay unique and open roles stay open. */
  lemma SwapRolesKeeps(p: Policy, db: Db, roles: map<Id, Role>)
    requires Inv(p, db)
    requires UniqueRoleNames(roles) && db.roles.Keys <= roles.Keys
    requires forall r | IsOpenRole(db.roles, r) :: IsOpenRole(roles, r)
    ensures Inv(p, db.(roles := roles))
  {
  }

  lemma CreateRoleKeeps(p: Policy, db: Db, id: Id, name: string, description: Option<string>)
    requires Inv(p, db)
    ensures AllInv(p, CompanyRoles.CreateRole(db, id, name, description).trail)
  {
    if !CompanyRoles.RoleNameTaken(db, name) && id !in db.roles {
      SwapRolesKeeps(p, db, db.roles[id := Role(name, description, Open)]);
    }
  }

  lemma EditRoleKeeps(p: Policy, db: Db, r: Id, name: Option<string>, description: Option<string>)
    requires Inv(p, db) && r in db.roles
    ensures AllInv(p, CompanyRoles.EditRole(db, r, name, description).trail)
  {
    var role := CompanyRoles.Edited(db.roles[r], name, description);
    if !CompanyRoles.ClashesWithOther(db, r, role.name) {
      SwapRolesKeeps(p, db, db.roles[r := role]);
    }
  }

  lemma UpdateRoleKeeps(p: Policy, db: Db, r: Id, name: Option<string>, description: Option<string>)
    requires Inv(p, db)
    ensures AllInv(p, CompanyRoles.UpdateRole(db, r, name, description).trail)
  {
    if OpenRole(db, r) {
      EditRoleKeeps(p, db, r, name, description);
    }
  }

  lemma UpdateCompanyRoleKeeps(p: Policy, db: Db, c: Id, role: string, name: Option<string>,
                               description: Option<string>)
    requires Inv(p, db)
    ensures AllInv(p, CompanyRoles.UpdateCompanyRole(db, c, role, name, description).trail)
  {
    var found := RoleNamed(db, c, role);
    if found.Some? && found.value in db.roles {
      EditRoleKeeps(p, db, found.value, name, description);
    }
  }

  function Close(roles: map<Id, Role>, r: Id): map<Id, Role>
    requires r in roles
  {
    roles[r := roles[r].(life := Closed)]
  }

  lemma CloseSparesMembers(members: map<MemberKey, Member>, roles: map<Id, Role>, enabled: map<CompanyRoleKey, Life>,
                           r: Id)
    requires r in roles && MembersOk(members, roles, enabled)
    requires forall k | k in members :: members[k].role == r ==> members[k].life.Closed?
    ensures MembersOk(members, Close(roles, r), enabled)
  {
  }

  lemma CloseSparesLinks(links: map<LinkKey, Life>, roles: map<Id, Role>, perms: set<Id>, r: Id)
    requires r in roles && LinksOk(links, roles, perms)
    ensures LinksOk(map k | k in links && k.role != r :: links[k], Close(roles, r), perms)
  {
  }

  lemma CloseSparesGrants(grants: map<GrantKey, Life>, roles: map<Id, Role>, enabled: map<CompanyRoleKey, Life>,
                          perms: map<Id, CompanyPermission>, r: Id)
    requires r in roles && GrantsOk(grants, roles, enabled, perms)
    ensures GrantsOk(map k | k in grants && k.role != r :: grants[k], Close(roles, r), enabled, perms)
  {
  }

  lemma CloseSparesPlatform(rows: map<PlatformKey, Life>, users: set<Id>, roles: map<Id, Role>, r: Id)
    requires r in roles && PlatformOk(rows, users, roles)
    ensures PlatformOk(map k | k in rows && k.role != r :: rows[k], users, Close(roles, r))
  {
  }

  lemma DeleteRoleKeeps(p: Policy, db: Db, r: Id)
    requires Inv(p, db)
    ensures AllInv(p, CompanyRoles.DeleteRole(db, r).trail)
  {
    if CompanyRoles.DeleteRole(db, r).outcome.Done? {
      CloseSparesMembers(db.members, db.roles, db.companyRoles, r);
      CloseSparesLinks(db.links, db.roles, db.globalPerms.Keys, r);
      CloseSparesGrants(db.grants, db.roles, db.companyRoles, db.companyPerms, r);
      CloseSparesPlatform(db.platformRoles, db.users.Keys, db.roles, r);
    }
  }

  lemma InsertCompanyRoleKeeps(p: Policy, db: Db, c: Id, r: Id)
    requires Inv(p, db) && r in db.roles
    ensures AllInv(p, CompanyRoles.InsertCompanyRole(db, c, r).trail)
  {
  }

  lemma {:induction false} AssignEachKeeps(p: Policy, db: Db, r: Id, companies: seq<Id>)
    requires Inv(p, db) && r in db.roles
    ensures AllInv(p, CompanyRoles.AssignEach(db, r, companies).trail)
    ensures r in Latest(db, CompanyRoles.AssignEach(db, r, companies).trail).roles
  {
    if companies != [] {
      var n := |companies| - 1;
      AssignEachKeeps(p, db, r, companies[..n]);
      var now := Latest(db, CompanyRoles.AssignEach(db, r, companies[..n]).trail);
      InsertCompanyRoleKeeps(p, now, companies[n], r);
    }
  }

  lemma WithoutCompanyRoleKeeps(p: Policy, db: Db, c: Id, r: Id)
    requires Inv(p, db) && Enabled(db, c, r) && !CompanyRoles.HeldInCompany(db, c, r)
    ensures Inv(p, CompanyRoles.WithoutCompanyRole(db, c, r))
  {
  }

  lemma AssignRoleKeeps(p: Policy, db: Db, c: Id, r: Id)
    requires Inv(p, db)
    ensures AllInv(p, CompanyRoles.AssignRole(db, c, r).trail)
  {
    if OpenRole(db, r) {
      InsertCompanyRoleKeeps(p, db, c, r);
    }
  }

  lemma AssignRoleToCompaniesKeeps(p: Policy, db: Db, r: Id, companies: seq<Id>)
    requires Inv(p, db)
    ensures AllInv(p, CompanyRoles.AssignRoleToCompanies(db, r, companies).trail)
  {
    if OpenRole(db, r) {
      AssignEachKeeps(p, db, r, companies);
    }
  }

  lemma UnassignRoleKeeps(p: Policy, db: Db, c: Id, r: Id)
    requires Inv(p, db)
    ensures AllInv(p, CompanyRoles.UnassignRole(db, c, r).trail)
  {
    if Enabled(db, c, r) && !CompanyRoles.HeldInCompany(db, c, r) {
      WithoutCompanyRoleKeeps(p, db, c, r);
    }
  }

  lemma MoveMembersKeeps(p: Policy, db: Db, c: Id, r: Id, s: Id)
    requires Inv(p, db) && OpenRole(db, s) && Enabled(db, c, s) && r != s
    ensures var moved := db.(members := CompanyRoles.MoveMembers(db.members, CompanyRoles.Holders(db, c, r), s));
      Inv(p, moved) && !CompanyRoles.HeldInCompany(moved, c, r)
  {
  }

  lemma ReplaceRoleKeeps(p: Policy, db: Db, c: Id, oldName: string, newName: string)
    requires Inv(p, db)
    ensures AllInv(p, CompanyRoles.ReplaceRole(p, db, c, oldName, newName).trail)
  {
    var r, s := RoleNamed(db, c, oldName), RoleNamed(db, c, newName);
    if oldName != newName && r.Some? && s.Some? {
      MoveMembersKeeps(p, db, c, r.value, s.value);
      var moved := db.(members :=
        CompanyRoles.MoveMembers(db.members, CompanyRoles.Holders(db, c, r.value), s.value));
      WithoutCompanyRoleKeeps(p, moved, c, r.value);
    }
  }

  // Memberships ---------------------------------------------------------------------

  lemma AddMemberKeeps(p: Policy, db: Db, c: Id, email: string, role: string)
    requires Inv(p, db)
    ensures AllInv(p, Members.AddMember(db, c, email, role).trail)
  {
  }

  lemma RemoveMemberKeeps(p: Policy, db: Db, c: Id, u: Id, actor: Id)
    requires Inv(p, db)
    ensures AllInv(p, Members.RemoveMember(db, c, u, actor).trail)
  {
  }

  lemma UpdateMemberRoleKeeps(p: Policy, db: Db, c: Id, u: Id, role: string)
    requires Inv(p, db)
    ensures AllInv(p, Members.UpdateMemberRole(db, c, u, role).trail)
  {
  }

  // Permissions -----------------------------------------------------------------------

  /** A newly drawn identifier never collides with the name-based ones of the catalogue. */
  lemma CreateGlobalKeeps(p: Policy, db: Db, id: Id, name: string, description: Option<string>)
    requires Inv(p, db) && !IsSystemId(p, id)
    ensures AllInv(p, Permissions.CreateGlobal(db, id, name, description).trail)
  {
  }

  lemma UpdateGlobalKeeps(p: Policy, db: Db, g: Id, edit: Permissions.PermissionEdit)
    requires Inv(p, db)
    ensures AllInv(p, Permissions.UpdateGlobal(p, db, g, edit).trail)
  {
  }

  lemma DeleteGlobalKeeps(p: Policy, db: Db, g: Id)
    requires Inv(p, db)
    ensures AllInv(p, Permissions.DeleteGlobal(p, db, g).trail)
  {
  }

  lemma CompanyPermissionKeeps(p: Policy, db: Db, c: Id, id: Id, name: string, description: Option<string>)
    requires Inv(p, db)
    ensures AllInv(p, Permissions.CreateCompanyPermission(db, c, id, name, description).trail)
  {
  }

  lemma UpdateCompanyPermissionKeeps(p: Policy, db: Db, c: Id, q: Id, edit: Permissions.PermissionEdit)
    requires Inv(p, db)
    ensures AllInv(p, Permissions.UpdateCompanyPermission(db, c, q, edit).trail)
  {
  }

  lemma DeleteCompanyPermissionKeeps(p: Policy, db: Db, c: Id, q: Id)
    requires Inv(p, db)
    ensures AllInv(p, Permissions.DeleteCompanyPermission(db, c, q).trail)
  {
  }

  lemma AssignGlobalKeeps(p: Policy, db: Db, r: Id, g: Id)
    requires Inv(p, db)
    ensures AllInv(p, Permissions.AssignGlobal(db, r, g).trail)
  {
  }

  lemma RemoveGlobalKeeps(p: Policy, db: Db, r: Id, g: Id)
    requires Inv(p, db)
    ensures AllInv(p, Permissions.RemoveGlobal(db, r, g).trail)
  {
  }

  lemma AssignCompanyKeeps(p: Policy, db: Db, c: Id, r: Id, q: Id)
    requires Inv(p, db)
    ensures AllInv(p, Permissions.AssignCompany(db, c, r, q).trail)
  {
  }

  lemma RemoveCompanyKeeps(p: Policy, db: Db, c: Id, r: Id, q: Id)
    requires Inv(p, db)
    ensures AllInv(p, Permissions.RemoveCompany(db, c, r, q).trail)
  {
  }

  lemma AssignPlatformKeeps(p: Policy, db: Db, u: Id, r: Id)
    requires Inv(p, db)
    ensures AllInv(p, Permissions.AssignPlatform(db, u, r).trail)
  {
  }

  lemma RemovePlatformKeeps(p: Policy, db: Db, u: Id, r: Id)
    requires Inv(p, db)
    ensures AllInv(p, Permissions.RemovePlatform(db, u, r).trail)
  {
  }

  // Companies ---------------------------------------------------------------------------

  lemma InsertCompanyKeeps(p: Policy, db: Db, c: Id, email: string)
    requires Inv(p, db)
    ensures AllInv(p, Companies.InsertCompany(db, c, email).trail)
  {
  }

  lemma DeleteCompanyKeeps(p: Policy, db: Db, c: Id)
    requires Inv(p, db)
    ensures AllInv(p, Companies.DeleteCompany(db, c).trail)
  {
  }
}
