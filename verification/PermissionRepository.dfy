/** The permission repositories: the operations of Permissions carried out against a session. */
module PermissionRepository {
  import opened Prelude
  import opened Store
  import Spec = Permissions

  class GlobalPermissionRepository {
    const session: Session
    const policy: Policy

    constructor (session: Session, policy: Policy)
      ensures this.session == session && this.policy == policy
    {
      this.session, this.policy := session, policy;
    }

    method CreatePermission(id: Id, name: string, description: Option<string>) returns (o: Outcome)
      requires session.Clean()
      modifies session
      ensures session.Clean()
      ensures var step := Spec.CreateGlobal(old(session.db), id, name, description);
        session.Performed(step) && o == step.outcome
    {
      var db := session.db;
      var clash := Spec.PermissionNameTaken(db.globalPerms, name) || id in db.globalPerms;
      session.db := db.(globalPerms := db.globalPerms[id := GlobalPermission(name, description, Open)]);
      if clash {
        session.Rollback();
        return Refused(Conflict);
      }
      session.CommitWork();
      o := Done;
    }

    method UpdatePermission(g: Id, edit: Spec.PermissionEdit) returns (o: Outcome)
      requires session.Clean()
      modifies session
      ensures session.Clean()
      ensures var step := Spec.UpdateGlobal(policy, old(session.db), g, edit);
        session.Performed(step) && o == step.outcome
    {
      var db := session.db;
      if !Spec.OpenGlobal(db, g) {
        return Refused(NotFound);
      }
      var row := db.globalPerms[g];
      if IsSystemId(policy, g) && edit.name.Some? && edit.name.value != row.name {
        return Refused(Conflict);
      }
      if edit.name.Some? {
        row := row.(name := edit.name.value);
      }
      if edit.description.Some? {
        row := row.(description := edit.description.value);
      }
      var clash := exists h | h in db.globalPerms :: h != g && db.globalPerms[h].name == row.name;
      session.db := db.(globalPerms := db.globalPerms[g := row]);
      if clash {
        session.Rollback();
        return Refused(Conflict);
      }
      session.CommitWork();
      o := Done;
    }

    method DeletePermission(g: Id) returns (o: Outcome)
      requires session.Clean()
      modifies session
      ensures session.Clean()
      ensures var step := Spec.DeleteGlobal(policy, old(session.db), g);
        session.Performed(step) && o == step.outcome
    {
      var db := session.db;
      if !Spec.OpenGlobal(db, g) {
        return Refused(NotFound);
      }
      if IsSystemId(policy, g) {
        return Refused(Conflict);
      }
      session.db := session.db.(links := map k | k in db.links && k.permission != g :: db.links[k]);
      session.db := session.db.(globalPerms := db.globalPerms - {g});
      session.CommitWork();
      o := Done;
    }
  }

  class SystemPermissionRepository {
    const session: Session
    const policy: Policy

    constructor (session: Session, policy: Policy)
      ensures this.session == session && this.policy == policy
    {
      this.session, this.policy := session, policy;
    }

    /** Adds the missing catalogue rows to the transaction; false reports a conflict. */
    method EnsurePermissions() returns (ok: bool)
      modifies session
      ensures session.trail == old(session.trail) && session.committed == old(session.committed)
      ensures var after := Spec.Ensured(old(session.db).globalPerms, policy.catalogue, |policy.catalogue|);
        && (ok <==> after.Some?)
        && (ok ==> session.db == old(session.db).(globalPerms := after.value))
    {
      ghost var start := session.db;
      for i := 0 to |policy.catalogue|
        invariant session.trail == old(session.trail) && session.committed == old(session.committed)
        invariant Spec.Ensured(start.globalPerms, policy.catalogue, i).Some?
        invariant session.db ==
          start.(globalPerms := Spec.Ensured(start.globalPerms, policy.catalogue, i).value)
      {
        var d := policy.catalogue[i];
        var resolution := ResolveDefinition(d, Spec.Matches(session.db.globalPerms, d));
        if resolution.Clash? {
          NoLaterSuccess(start.globalPerms, policy.catalogue, i + 1, |policy.catalogue|);
          return false;
        }
        if resolution.Missing? {
          var row := GlobalPermission(d.name, Some(d.description), Open);
          session.db := session.db.(globalPerms := session.db.globalPerms[d.id := row]);
        }
      }
      ok := true;
    }

    /** No row, one row that is the definition's own, or a conflict. */
    method ResolveDefinition(d: Definition, records: set<Id>) returns (r: Spec.Resolution)
      requires records == Spec.Matches(session.db.globalPerms, d)
      ensures r == Spec.Resolve(session.db.globalPerms, d)
    {
      if records == {} {
        return Spec.Missing;
      }
      if |records| != 1 {
        return Spec.Clash;
      }
      var g :| g in records;
      assert records == {g} by {
        forall h | h in records
          ensures h == g
        {
          assert |records - {g}| == 0;
        }
      }
      if g != d.id || session.db.globalPerms[g].name != d.name {
        return Spec.Clash;
      }
      r := Spec.Present;
    }
  }

  lemma {:induction false} NoLaterSuccess(perms: map<Id, GlobalPermission>, catalogue: seq<Definition>, i: nat, n: nat)
    requires i <= n <= |catalogue|
    requires Spec.Ensured(perms, catalogue, i).None?
    ensures Spec.Ensured(perms, catalogue, n).None?
  {
    if i < n {
      NoLaterSuccess(perms, catalogue, i, n - 1);
    }
  }

  class CompanyPermissionRepository {
    const session: Session
    const company: Id

    constructor (session: Session, company: Id)
      ensures this.session == session && this.company == company
    {
      this.session, this.company := session, company;
    }

    method CreatePermission(id: Id, name: string, description: Option<string>) returns (o: Outcome)
      requires session.Clean()
      modifies session
      ensures session.Clean()
      ensures var step := Spec.CreateCompanyPermission(old(session.db), company, id, name, description);
        session.Performed(step) && o == step.outcome
    {
      var db := session.db;
      if !OpenCompany(db, company) {
        return Refused(NotFound);
      }
      var clash := Spec.CompanyNameTaken(db, company, name) || id in db.companyPerms;
      session.db := db.(companyPerms := db.companyPerms[id := CompanyPermission(company, name, description, Open)]);
      if clash {
        session.Rollback();
        return Refused(Conflict);
      }
      session.CommitWork();
      o := Done;
    }

    method UpdatePermission(q: Id, edit: Spec.PermissionEdit) returns (o: Outcome)
      requires session.Clean()
      modifies session
      ensures session.Clean()
      ensures var step := Spec.UpdateCompanyPermission(old(session.db), company, q, edit);
        session.Performed(step) && o == step.outcome
    {
      var db := session.db;
      if !Spec.OpenCompanyPermission(db, company, q) {
        return Refused(NotFound);
      }
      var row := db.companyPerms[q];
      if edit.name.Some? {
        row := row.(name := edit.name.value);
      }
      if edit.description.Some? {
        row := row.(description := edit.description.value);
      }
      var clash := exists h | h in db.companyPerms ::
        h != q && db.companyPerms[h].company == company && db.companyPerms[h].name == row.name;
      session.db := db.(companyPerms := db.companyPerms[q := row]);
      if clash {
        session.Rollback();
        return Refused(Conflict);
      }
      session.CommitWork();
      o := Done;
    }

    method DeletePermission(q: Id) returns (o: Outcome)
      requires session.Clean()
      modifies session
      ensures session.Clean()
      ensures var step := Spec.DeleteCompanyPermission(old(session.db), company, q);
        session.Performed(step) && o == step.outcome
    {
      var db := session.db;
      if !Spec.OpenCompanyPermission(db, company, q) {
        return Refused(NotFound);
      }
      session.db := session.db.(grants := map k | k in db.grants
        && !(k.company == company && k.permission == q) :: db.grants[k]);
      session.db := session.db.(companyPerms := db.companyPerms - {q});
      session.CommitWork();
      o := Done;
    }
  }

  class RolePermissionRepository {
    const session: Session

    constructor (session: Session)
      ensures this.session == session
    {
      this.session := session;
    }

    method AssignGlobalPermission(r: Id, g: Id) returns (o: Outcome)
      requires session.Clean()
      modifies session
      ensures session.Clean()
      ensures var step := Spec.AssignGlobal(old(session.db), r, g);
        session.Performed(step) && o == step.outcome
    {
      if !OpenRole(session.db, r) {
        return Refused(NotFound);
      }
      if !Spec.OpenGlobal(session.db, g) {
        return Refused(NotFound);
      }
      if LinkKey(r, g) in session.db.links {
        return Refused(Conflict);
      }
      session.db := session.db.(links := session.db.links[LinkKey(r, g) := Open]);
      session.CommitWork();
      o := Done;
    }

    method RemoveGlobalPermission(r: Id, g: Id) returns (o: Outcome)
      requires session.Clean()
      modifies session
      ensures session.Clean()
      ensures var step := Spec.RemoveGlobal(old(session.db), r, g);
        session.Performed(step) && o == step.outcome
    {
      if !OpenRole(session.db, r) {
        return Refused(NotFound);
      }
      if !Spec.OpenGlobal(session.db, g) {
        return Refused(NotFound);
      }
      if LinkKey(r, g) !in session.db.links {
        return Refused(NotFound);
      }
      session.db := session.db.(links := session.db.links - {LinkKey(r, g)});
      session.CommitWork();
      o := Done;
    }

    method AssignCompanyPermission(c: Id, r: Id, q: Id) returns (o: Outcome)
      requires session.Clean()
      modifies session
      ensures session.Clean()
      ensures var step := Spec.AssignCompany(old(session.db), c, r, q);
        session.Performed(step) && o == step.outcome
    {
      if !Enabled(session.db, c, r) {
        return Refused(NotFound);
      }
      if !OpenRole(session.db, r) {
        return Refused(NotFound);
      }
      if !Spec.OpenCompanyPermission(session.db, c, q) {
        return Refused(NotFound);
      }
      if GrantKey(c, r, q) in session.db.grants {
        return Refused(Conflict);
      }
      session.db := session.db.(grants := session.db.grants[GrantKey(c, r, q) := Open]);
      session.CommitWork();
      o := Done;
    }

    method RemoveCompanyPermission(c: Id, r: Id, q: Id) returns (o: Outcome)
      requires session.Clean()
      modifies session
      ensures session.Clean()
      ensures var step := Spec.RemoveCompany(old(session.db), c, r, q);
        session.Performed(step) && o == step.outcome
    {
      if !Enabled(session.db, c, r) {
        return Refused(NotFound);
      }
      if !OpenRole(session.db, r) {
        return Refused(NotFound);
      }
      if !Spec.OpenCompanyPermission(session.db, c, q) {
        return Refused(NotFound);
      }
      if GrantKey(c, r, q) !in session.db.grants {
        return Refused(NotFound);
      }
      session.db := session.db.(grants := session.db.grants - {GrantKey(c, r, q)});
      session.CommitWork();
      o := Done;
    }
  }

  class PlatformRoleRepository {
    const session: Session

    constructor (session: Session)
      ensures this.session == session
    {
      this.session := session;
    }

    method AssignRole(u: Id, r: Id) returns (o: Outcome)
      requires session.Clean()
      modifies session
      ensures session.Clean()
      ensures var step := Spec.AssignPlatform(old(session.db), u, r);
        session.Performed(step) && o == step.outcome
    {
      if !Spec.ActiveUser(session.db, u) {
        return Refused(NotFound);
      }
      if !OpenRole(session.db, r) {
        return Refused(NotFound);
      }
      if PlatformKey(u, r) in session.db.platformRoles {
        return Refused(Conflict);
      }
      session.db := session.db.(platformRoles := session.db.platformRoles[PlatformKey(u, r) := Open]);
      session.CommitWork();
      o := Done;
    }

    method RemoveRole(u: Id, r: Id) returns (o: Outcome)
      requires session.Clean()
      modifies session
      ensures session.Clean()
      ensures var step := Spec.RemovePlatform(old(session.db), u, r);
        session.Performed(step) && o == step.outcome
    {
      if !Spec.ActiveUser(session.db, u) {
        return Refused(NotFound);
      }
      if PlatformKey(u, r) !in session.db.platformRoles {
        return Refused(NotFound);
      }
      session.db := session.db.(platformRoles := session.db.platformRoles - {PlatformKey(u, r)});
      session.CommitWork();
      o := Done;
    }
  }
}
