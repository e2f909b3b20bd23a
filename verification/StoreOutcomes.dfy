/** What the requests on roles, members and permissions answer, and which rows they write: table by table. */
module StoreOutcomes {
  import opened Prelude
  import opened Users
  import opened Store
  import CompanyRoles
  import Members
  import Permissions
  import Companies

  predicate IsOpenRoleRow(db: Db, r: Id) {
    r in db.roles && db.roles[r].life == Open
  }

  /** An open role of this name that is enabled for the company. */
  predicate IsCompanyRole(db: Db, c: Id, name: string, r: Id) {
    && IsOpenRoleRow(db, r) && db.roles[r].name == name
    && CompanyRoleKey(c, r) in db.companyRoles && db.companyRoles[CompanyRoleKey(c, r)] == Open
  }

  lemma CompanyRoleFound(db: Db, c: Id, name: string, r: Id)
    requires UniqueRoleNames(db.roles) && IsCompanyRole(db, c, name, r)
    ensures RoleNamed(db, c, name) == Some(r)
  {
    RoleNamedIs(db, c, name, r);
  }

  lemma NoCompanyRoleFound(db: Db, c: Id, name: string)
    requires forall r :: !IsCompanyRole(db, c, name, r)
    ensures RoleNamed(db, c, name) == None
  {
    FoundIsCompanyRole(db, c, name);
  }

  lemma FoundIsCompanyRole(db: Db, c: Id, name: string)
    ensures RoleNamed(db, c, name).Some? ==> IsCompanyRole(db, c, name, RoleNamed(db, c, name).value)
  {
  }

  // Roles -----------------------------------------------------------------------------------------------

  /** A new role is open, and its name must be unused, closed roles included. */
  lemma RoleIsCreated(db: Db, id: Id, name: string, description: Option<string>)
    ensures
      var taken := id in db.roles || exists r | r in db.roles :: db.roles[r].name == name;
      CompanyRoles.CreateRole(db, id, name, description) ==
        if taken then Refuse(Conflict)
        else Commit(db.(roles := db.roles[id := Role(name, description, Open)]))
  {
  }

  /** The row after an edit: a non-empty name and a given description replace the old ones. */
  ghost predicate RoleEdited(before: Role, after: Role, name: Option<string>, description: Option<string>) {
    && after.life == before.life
    && (name == None || name == Some("") ==> after.name == before.name)
    && (name.Some? && name.value != "" ==> after.name == name.value)
    && (description == None ==> after.description == before.description)
    && (description.Some? ==> after.description == description)
  }

  ghost predicate NameFree(db: Db, r: Id, name: Option<string>) {
    name.Some? && name.value != "" ==> forall s | s in db.roles && s != r :: db.roles[s].name != name.value
  }

  /** An edit of an open role succeeds exactly if its new name is free, and writes that row alone. */
  lemma RoleIsEdited(p: Policy, db: Db, r: Id, name: Option<string>, description: Option<string>)
    requires Inv(p, db) && IsOpenRoleRow(db, r)
    ensures
      var step := CompanyRoles.UpdateRole(db, r, name, description);
      && (NameFree(db, r, name) ==>
            && step.outcome == Done && |step.trail| == 1 && r in step.trail[0].roles
            && step.trail[0] == db.(roles := db.roles[r := step.trail[0].roles[r]])
            && RoleEdited(db.roles[r], step.trail[0].roles[r], name, description))
      && (!NameFree(db, r, name) ==> step == Refuse(BadRequest))
  {
  }

  lemma ClosedRoleIsNotEdited(db: Db, r: Id, name: Option<string>, description: Option<string>)
    requires !IsOpenRoleRow(db, r)
    ensures CompanyRoles.UpdateRole(db, r, name, description) == Refuse(BadRequest)
  {
  }

  /** An edit through a company is an edit of the role that the company has under that name. */
  lemma CompanyRoleIsEdited(p: Policy, db: Db, c: Id, role: string, r: Id, name: Option<string>,
                            description: Option<string>)
    requires Inv(p, db) && IsCompanyRole(db, c, role, r)
    ensures CompanyRoles.UpdateCompanyRole(db, c, role, name, description) ==
      CompanyRoles.UpdateRole(db, r, name, description)
  {
    CompanyRoleFound(db, c, role, r);
  }

  lemma UnknownCompanyRoleIsNotEdited(db: Db, c: Id, role: string, name: Option<string>, description: Option<string>)
    requires forall r :: !IsCompanyRole(db, c, role, r)
    ensures CompanyRoles.UpdateCompanyRole(db, c, role, name, description) == Refuse(BadRequest)
  {
    NoCompanyRoleFound(db, c, role);
  }

  /** Some active member, or some open account with a platform assignment, holds the role. */
  ghost predicate InUse(db: Db, r: Id) {
    || (exists k | k in db.members :: db.members[k].role == r && db.members[k].life == Open)
    || (exists k | k in db.platformRoles :: k.role == r && k.user in db.users && db.users[k.user].life == Open)
  }

  /** A role is deleted exactly if it is open and nobody uses it; its links, grants and assignments go with it. */
  lemma RoleIsDeleted(p: Policy, db: Db, r: Id)
    requires Inv(p, db)
    ensures
      var step := CompanyRoles.DeleteRole(db, r);
      if !IsOpenRoleRow(db, r) || InUse(db, r) then step == Refuse(BadRequest)
      else
        && step.outcome == Done && |step.trail| == 1
        && var after := step.trail[0];
        && after == db.(roles := after.roles, links := after.links, grants := after.grants,
             platformRoles := after.platformRoles)
        && after.roles == db.roles[r := db.roles[r].(life := Closed)]
        && (forall k :: k in after.links <==> k in db.links && k.role != r)
        && (forall k :: k in after.grants <==> k in db.grants && k.role != r)
        && (forall k :: k in after.platformRoles <==> k in db.platformRoles && k.role != r)
  {
  }

  /** A role is disabled for a company exactly if it is enabled and no active member there holds it. */
  lemma RoleIsUnassigned(db: Db, c: Id, r: Id)
    ensures
      var key := CompanyRoleKey(c, r);
      var held := exists k | k in db.members :: k.company == c && db.members[k].role == r && db.members[k].life == Open;
      var step := CompanyRoles.UnassignRole(db, c, r);
      if key !in db.companyRoles || db.companyRoles[key] == Closed then step == Refuse(NotFound)
      else if held then step == Refuse(BadRequest)
      else
        && step.outcome == Done && |step.trail| == 1
        && var after := step.trail[0];
        && after == db.(companyRoles := db.companyRoles[key := Closed], grants := after.grants)
        && (forall k :: k in after.grants <==> k in db.grants && (k.company != c || k.role != r))
  {
  }

  /** Enabling a role for a company inserts one open row, and says why it does not. */
  lemma RoleIsAssigned(db: Db, c: Id, r: Id)
    ensures
      var key := CompanyRoleKey(c, r);
      CompanyRoles.AssignRole(db, c, r) ==
        if !IsOpenRoleRow(db, r) then Refuse(NotFound)
        else if key in db.companyRoles && db.companyRoles[key] == Open then Refuse(BadRequest)
        else if key in db.companyRoles || c !in db.companies then Refuse(IntegrityError)
        else Commit(db.(companyRoles := db.companyRoles[key := Open]))
  {
  }

  // Members -----------------------------------------------------------------------------------------------

  /** A membership is added as an open row with the role that the company has under that name. */
  lemma MemberIsAdded(p: Policy, db: Db, c: Id, u: Id, email: string, role: string, r: Id)
    requires Inv(p, db) && u in db.users && db.users[u].email == email && IsCompanyRole(db, c, role, r)
    ensures
      var key := MemberKey(u, c);
      Members.AddMember(db, c, email, role) ==
        if key in db.members && db.members[key].life == Open then Refuse(BadRequest)
        else if key in db.members then Refuse(IntegrityError)
        else Commit(db.(members := db.members[key := Member(r, Open)]))
  {
    CompanyRoleFound(db, c, role, r);
    assert UserWithEmail(db, email) == Some(u);
  }

  lemma UnknownIsNotAdded(db: Db, c: Id, email: string, role: string)
    ensures (forall u | u in db.users :: db.users[u].email != email) ==>
      Members.AddMember(db, c, email, role) == Refuse(NotFound)
    ensures (exists u | u in db.users :: db.users[u].email == email) && (forall r :: !IsCompanyRole(db, c, role, r)) ==>
      Members.AddMember(db, c, email, role) == Refuse(BadRequest)
  {
    FoundIsCompanyRole(db, c, role);
  }

  /** A removal closes the row and keeps its role; owners stay, and administrators do not remove themselves. */
  lemma MemberIsRemoved(p: Policy, db: Db, c: Id, u: Id, actor: Id)
    requires Inv(p, db)
    ensures
      var key := MemberKey(u, c);
      var step := Members.RemoveMember(db, c, u, actor);
      if key !in db.members || db.members[key].life == Closed then step == Refuse(Forbidden)
      else
        var role := db.roles[db.members[key].role].name;
        if role == "Owner" || (role == "Administrator" && u == actor) then step == Refuse(BadRequest)
        else step == Commit(db.(members := db.members[key := Member(db.members[key].role, Closed)]))
  {
  }

  /** A new role is written into an active membership. */
  lemma MemberRoleIsUpdated(p: Policy, db: Db, c: Id, u: Id, role: string, r: Id)
    requires Inv(p, db) && IsCompanyRole(db, c, role, r)
    ensures
      var key := MemberKey(u, c);
      Members.UpdateMemberRole(db, c, u, role) ==
        if key !in db.members || db.members[key].life == Closed then Refuse(NotFound)
        else Commit(db.(members := db.members[key := Member(r, Open)]))
  {
    CompanyRoleFound(db, c, role, r);
  }

  lemma UnknownRoleIsNotGiven(db: Db, c: Id, u: Id, role: string)
    requires forall r :: !IsCompanyRole(db, c, role, r)
    ensures Members.UpdateMemberRole(db, c, u, role) == Refuse(BadRequest)
  {
    NoCompanyRoleFound(db, c, role);
  }

  // Permissions -------------------------------------------------------------------------------------------

  /** The fields after an edit: what the payload carries replaces, what it leaves out stays. */
  predicate FieldsEdited(name: string, description: Option<string>, edit: Permissions.PermissionEdit, newName: string,
                         newDescription: Option<string>)
  {
    && (edit.name == None ==> newName == name) && (edit.name.Some? ==> edit.name == Some(newName))
    && (edit.description == None ==> newDescription == description)
    && (edit.description.Some? ==> edit.description == Some(newDescription))
  }

  predicate IsCatalogueId(p: Policy, g: Id) {
    exists i | 0 <= i < |p.catalogue| :: p.catalogue[i].id == g
  }

  lemma GlobalPermissionIsCreated(db: Db, id: Id, name: string, description: Option<string>)
    ensures
      var taken := id in db.globalPerms || exists g | g in db.globalPerms :: db.globalPerms[g].name == name;
      Permissions.CreateGlobal(db, id, name, description) ==
        if taken then Refuse(Conflict)
        else Commit(db.(globalPerms := db.globalPerms[id := GlobalPermission(name, description, Open)]))
  {
  }

  /** An edit writes exactly the given fields of one row; a catalogue row keeps its name, and names stay unique. */
  lemma GlobalPermissionIsEdited(p: Policy, db: Db, g: Id, edit: Permissions.PermissionEdit)
    requires Inv(p, db) && g in db.globalPerms
    ensures
      var row := db.globalPerms[g];
      var renamed := edit.name.Some? && edit.name.value != row.name;
      var clash := renamed && exists h | h in db.globalPerms :: db.globalPerms[h].name == edit.name.value;
      var step := Permissions.UpdateGlobal(p, db, g, edit);
      if renamed && (IsCatalogueId(p, g) || clash) then step == Refuse(Conflict)
      else
        && step.outcome == Done && |step.trail| == 1 && g in step.trail[0].globalPerms
        && var after := step.trail[0].globalPerms[g];
        && step.trail[0] == db.(globalPerms := db.globalPerms[g := after]) && after.life == row.life
        && FieldsEdited(row.name, row.description, edit, after.name, after.description)
  {
    assert IsSystemId(p, g) <==> IsCatalogueId(p, g);
  }

  /** A permission that is not in the catalogue is deleted with its links. */
  lemma GlobalPermissionIsDeleted(p: Policy, db: Db, g: Id)
    requires Inv(p, db)
    ensures
      var step := Permissions.DeleteGlobal(p, db, g);
      if g !in db.globalPerms then step == Refuse(NotFound)
      else if IsCatalogueId(p, g) then step == Refuse(Conflict)
      else
        && step.outcome == Done && |step.trail| == 1
        && var after := step.trail[0];
        && after == db.(links := after.links, globalPerms := after.globalPerms)
        && (forall h :: h in after.globalPerms <==> h in db.globalPerms && h != g)
        && (forall h | h in after.globalPerms :: after.globalPerms[h] == db.globalPerms[h])
        && (forall k :: k in after.links <==> k in db.links && k.permission != g)
  {
    assert IsSystemId(p, g) <==> IsCatalogueId(p, g);
  }

  lemma CompanyPermissionIsCreated(db: Db, c: Id, id: Id, name: string, description: Option<string>)
    ensures
      var taken := id in db.companyPerms
        || exists q | q in db.companyPerms :: db.companyPerms[q].company == c && db.companyPerms[q].name == name;
      Permissions.CreateCompanyPermission(db, c, id, name, description) ==
        if c !in db.companies || db.companies[c].life == Closed then Refuse(NotFound)
        else if taken then Refuse(Conflict)
        else Commit(db.(companyPerms := db.companyPerms[id := CompanyPermission(c, name, description, Open)]))
  {
  }

  predicate BelongsTo(db: Db, q: Id, c: Id) {
    q in db.companyPerms && db.companyPerms[q].company == c
  }

  /** A company edits its own permissions only, and their names stay unique within it. */
  lemma CompanyPermissionIsEdited(p: Policy, db: Db, c: Id, q: Id, edit: Permissions.PermissionEdit)
    requires Inv(p, db) && BelongsTo(db, q, c)
    ensures
      var row := db.companyPerms[q];
      var clash := edit.name.Some? && exists h | h in db.companyPerms ::
        h != q && db.companyPerms[h].company == c && db.companyPerms[h].name == edit.name.value;
      var step := Permissions.UpdateCompanyPermission(db, c, q, edit);
      if clash then step == Refuse(Conflict)
      else
        && step.outcome == Done && |step.trail| == 1 && q in step.trail[0].companyPerms
        && var after := step.trail[0].companyPerms[q];
        && step.trail[0] == db.(companyPerms := db.companyPerms[q := after])
        && after.life == row.life && after.company == c
        && FieldsEdited(row.name, row.description, edit, after.name, after.description)
  {
  }

  /** A company deletes its own permissions only, with its grants of them. */
  lemma CompanyPermissionIsDeleted(p: Policy, db: Db, c: Id, q: Id)
    requires Inv(p, db) && BelongsTo(db, q, c)
    ensures
      var step := Permissions.DeleteCompanyPermission(db, c, q);
      && step.outcome == Done && |step.trail| == 1
      && var after := step.trail[0];
      && after == db.(grants := after.grants, companyPerms := after.companyPerms)
      && (forall h :: h in after.companyPerms <==> h in db.companyPerms && h != q)
      && (forall h | h in after.companyPerms :: after.companyPerms[h] == db.companyPerms[h])
      && (forall k :: k in after.grants <==> k in db.grants && k.permission != q)
  {
  }

  lemma ForeignPermissionIsRefused(db: Db, c: Id, q: Id, edit: Permissions.PermissionEdit, r: Id)
    requires !BelongsTo(db, q, c)
    ensures Permissions.UpdateCompanyPermission(db, c, q, edit) == Refuse(NotFound)
    ensures Permissions.DeleteCompanyPermission(db, c, q) == Refuse(NotFound)
    ensures Permissions.AssignCompany(db, c, r, q) == Refuse(NotFound)
    ensures Permissions.RemoveCompany(db, c, r, q) == Refuse(NotFound)
  {
  }

  // Assignments ---------------------------------------------------------------------------------------------

  /** A link needs an open role and an existing permission, and is either there or not. */
  lemma LinkAnswers(p: Policy, db: Db, r: Id, g: Id)
    requires Inv(p, db)
    ensures
      var key := LinkKey(r, g);
      var known := IsOpenRoleRow(db, r) && g in db.globalPerms;
      && Permissions.AssignGlobal(db, r, g) ==
           (if !known then Refuse(NotFound) else if key in db.links then Refuse(Conflict)
            else Commit(db.(links := db.links[key := Open])))
      && Permissions.RemoveGlobal(db, r, g) ==
           (if key !in db.links then Refuse(NotFound) else Commit(db.(links := db.links - {key})))
  {
  }

  /** A grant needs an enabled open role and a permission of the same company. */
  lemma GrantAnswers(p: Policy, db: Db, c: Id, r: Id, q: Id)
    requires Inv(p, db) && BelongsTo(db, q, c)
    ensures
      var key := GrantKey(c, r, q);
      var enabled := IsOpenRoleRow(db, r)
        && CompanyRoleKey(c, r) in db.companyRoles && db.companyRoles[CompanyRoleKey(c, r)] == Open;
      && Permissions.AssignCompany(db, c, r, q) ==
           (if !enabled then Refuse(NotFound) else if key in db.grants then Refuse(Conflict)
            else Commit(db.(grants := db.grants[key := Open])))
      && Permissions.RemoveCompany(db, c, r, q) ==
           (if key !in db.grants then Refuse(NotFound) else Commit(db.(grants := db.grants - {key})))
  {
  }

  /** A platform role goes to open accounts with the status "Active" only. */
  lemma PlatformAnswers(p: Policy, db: Db, u: Id, r: Id)
    requires Inv(p, db)
    ensures
      var key := PlatformKey(u, r);
      var active := u in db.users && db.users[u].life == Open
        && "status" in db.users[u].meta && db.users[u].meta["status"] == Text("Active");
      && Permissions.AssignPlatform(db, u, r) ==
           (if !active || !IsOpenRoleRow(db, r) then Refuse(NotFound)
            else if key in db.platformRoles then Refuse(Conflict)
            else Commit(db.(platformRoles := db.platformRoles[key := Open])))
      && Permissions.RemovePlatform(db, u, r) ==
           (if !active || key !in db.platformRoles then Refuse(NotFound)
            else Commit(db.(platformRoles := db.platformRoles - {key})))
  {
  }

  // Companies -------------------------------------------------------------------------------------------------

  /** A deletion closes the company's row and nothing else; a closed or unknown company is refused. */
  lemma CompanyIsClosed(db: Db, c: Id)
    ensures
      Companies.DeleteCompany(db, c) ==
        if c !in db.companies || db.companies[c].life == Closed then Refuse(NotFound)
        else Commit(db.(companies := db.companies[c := Company(db.companies[c].email, Closed)]))
  {
  }

  /** The row of a new company: its email must be unused, closed companies included. */
  lemma CompanyIsInserted(db: Db, c: Id, email: string)
    ensures
      var taken := c in db.companies || exists e | e in db.companies :: db.companies[e].email == email;
      Companies.InsertCompany(db, c, email) ==
        if taken then Refuse(Conflict) else Commit(db.(companies := db.companies[c := Company(email, Open)]))
  {
  }
}
