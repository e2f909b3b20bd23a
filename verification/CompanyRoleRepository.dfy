/** The role repositories: the operations of CompanyRoles carried out against a session. */
module CompanyRoleRepository {
  import opened Prelude
  import opened Store
  import Spec = CompanyRoles

  class RoleRepository {
    const session: Session

    constructor (session: Session)
      ensures this.session == session
    {
      this.session := session;
    }

    method CreateRole(id: Id, name: string, description: Option<string>) returns (o: Outcome)
      requires session.Clean()
      modifies session
      ensures session.Clean()
      ensures var step := Spec.CreateRole(old(session.db), id, name, description);
        session.Performed(step) && o == step.outcome
    {
      var db := session.db;
      var clash := Spec.RoleNameTaken(db, name) || id in db.roles;
      session.db := db.(roles := db.roles[id := Role(name, description, Open)]);
      if clash {
        session.Rollback();
        return Refused(Conflict);
      }
      session.CommitWork();
      o := Done;
    }

    method UpdateRole(r: Id, name: Option<string>, description: Option<string>) returns (o: Outcome)
      requires session.Clean()
      modifies session
      ensures session.Clean()
      ensures var step := Spec.UpdateRole(old(session.db), r, name, description);
        session.Performed(step) && o == step.outcome
    {
      if !OpenRole(session.db, r) {
        session.Rollback();
        return Refused(BadRequest);
      }
      o := EditRole(r, name, description);
    }

    method UpdateCompanyRole(c: Id, role: string, name: Option<string>, description: Option<string>)
      returns (o: Outcome)
      requires session.Clean() && UniqueRoleNames(session.db.roles)
      modifies session
      ensures session.Clean()
      ensures var step := Spec.UpdateCompanyRole(old(session.db), c, role, name, description);
        session.Performed(step) && o == step.outcome
    {
      var found := FindAssignedRole(session.db, c, role);
      if found.None? {
        session.Rollback();
        return Refused(BadRequest);
      }
      o := EditRole(found.value, name, description);
    }

    method EditRole(r: Id, name: Option<string>, description: Option<string>) returns (o: Outcome)
      requires session.Clean() && r in session.db.roles
      modifies session
      ensures session.Clean()
      ensures var step := Spec.EditRole(old(session.db), r, name, description);
        session.Performed(step) && o == step.outcome
    {
      var role := session.db.roles[r];
      if name.Some? && name.value != "" {
        role := role.(name := name.value);
      }
      if description.Some? {
        role := role.(description := description);
      }
      var clash := Spec.ClashesWithOther(session.db, r, role.name);
      session.db := session.db.(roles := session.db.roles[r := role]);
      if clash {
        session.Rollback();
        return Refused(BadRequest);
      }
      session.CommitWork();
      o := Done;
    }

    method DeleteRole(r: Id) returns (o: Outcome)
      requires session.Clean()
      modifies session
      ensures session.Clean()
      ensures var step := Spec.DeleteRole(old(session.db), r);
        session.Performed(step) && o == step.outcome
    {
      var db := session.db;
      if !OpenRole(db, r) || Spec.HeldByMember(db, r) || Spec.HeldByPlatformUser(db, r) {
        session.Rollback();
        return Refused(BadRequest);
      }
      session.db := session.db.(links := map k | k in db.links && k.role != r :: db.links[k]);
      session.db := session.db.(grants := map k | k in db.grants && k.role != r :: db.grants[k]);
      session.db := session.db.(platformRoles := map k | k in db.platformRoles && k.role != r :: db.platformRoles[k]);
      session.db := session.db.(roles := db.roles[r := db.roles[r].(life := Closed)]);
      session.CommitWork();
      o := Done;
    }
  }

  /** The company's open, enabled role of this name, if any. */
  method FindAssignedRole(db: Db, c: Id, name: string) returns (found: Option<Id>)
    requires UniqueRoleNames(db.roles)
    ensures found == RoleNamed(db, c, name)
    ensures found.Some? ==> AssignedRole(db, c, name, found.value)
  {
    if exists r | r in db.roles :: AssignedRole(db, c, name, r) {
      var r :| r in db.roles && AssignedRole(db, c, name, r);
      RoleNamedIs(db, c, name, r);
      return Some(r);
    }
    found := None;
  }

  class CompanyRoleAssignmentRepository {
    const session: Session
    const company: Id

    constructor (session: Session, company: Id)
      ensures this.session == session && this.company == company
    {
      this.session, this.company := session, company;
    }

    method AssignRole(r: Id) returns (o: Outcome)
      requires session.Clean()
      modifies session
      ensures session.Clean()
      ensures var step := Spec.AssignRole(old(session.db), company, r);
        session.Performed(step) && o == step.outcome
    {
      if !OpenRole(session.db, r) {
        return Refused(NotFound);
      }
      if Enabled(session.db, company, r) {
        return Refused(BadRequest);
      }
      o := Insert(session, company, r);
    }

    /** Adds an assignment row and commits; the database refuses a second row for the same pair. */
    static method Insert(session: Session, c: Id, r: Id) returns (o: Outcome)
      requires session.Clean()
      modifies session
      ensures session.Clean()
      ensures var step := Spec.InsertCompanyRole(old(session.db), c, r);
        session.Performed(step) && o == step.outcome
    {
      if CompanyRoleKey(c, r) in session.db.companyRoles || c !in session.db.companies {
        session.Rollback();
        return Refused(IntegrityError);
      }
      session.db := session.db.(companyRoles := session.db.companyRoles[CompanyRoleKey(c, r) := Open]);
      session.CommitWork();
      o := Done;
    }

    /**
     * Serves the companies before the first blocked one, each in a commit of its own, and reports the newly
     * enabled ones, in order and without repeats, if none is blocked.
     */
    static method AssignRoleToCompanies(session: Session, r: Id, companies: seq<Id>) returns (o: Outcome)
      requires session.Clean()
      modifies session
      ensures session.Clean()
      ensures var step := Spec.AssignRoleToCompanies(old(session.db), r, companies);
        session.Performed(step) && o == step.outcome
      ensures
        var start := old(session.db);
        var k := Spec.GoodPrefix(start, r, companies);
        var added := Spec.NewCompanies(start, r, companies[..k]);
        if !OpenRole(start, r) then o == Refused(NotFound) && session.trail == old(session.trail)
        else
          && session.trail == old(session.trail) + Spec.EnabledOneByOne(start, r, added)
          && o == if k == |companies| then EnabledFor(added) else Refused(IntegrityError)
    {
      if !OpenRole(session.db, r) {
        return Refused(NotFound);
      }
      Spec.AssignEachMeans(session.db, r, companies);
      o := EnableEach(session, r, companies);
    }

    /** The loop over the listed companies. */
    static method EnableEach(session: Session, r: Id, companies: seq<Id>) returns (o: Outcome)
      requires session.Clean()
      modifies session
      ensures session.Clean()
      ensures var step := Spec.AssignEach(old(session.db), r, companies);
        session.Performed(step) && o == step.outcome
    {
      ghost var start := session.db;
      var newlyEnabled := [];
      for i := 0 to |companies|
        invariant session.Clean()
        invariant Spec.AssignEach(start, r, companies[..i]).outcome == EnabledFor(newlyEnabled)
        invariant session.Performed(Spec.AssignEach(start, r, companies[..i]))
      {
        assert companies[..i + 1][..i] == companies[..i];
        if !Enabled(session.db, companies[i], r) {
          var inserted := Insert(session, companies[i], r);
          if inserted.Refused? {
            Spec.AssignEachStops(start, r, companies, i + 1);
            return inserted;
          }
          newlyEnabled := newlyEnabled + [companies[i]];
        }
      }
      assert companies[..|companies|] == companies;
      o := EnabledFor(newlyEnabled);
    }

    method UnassignRole(r: Id) returns (o: Outcome)
      requires session.Clean()
      modifies session
      ensures session.Clean()
      ensures var step := Spec.UnassignRole(old(session.db), company, r);
        session.Performed(step) && o == step.outcome
    {
      var db := session.db;
      if !Enabled(db, company, r) {
        return Refused(NotFound);
      }
      if Spec.HeldInCompany(db, company, r) {
        return Refused(BadRequest);
      }
      session.db := session.db.(companyRoles := db.companyRoles[CompanyRoleKey(company, r) := Closed]);
      session.db := session.db.(grants := map k | k in db.grants
        && !(k.company == company && k.role == r) :: db.grants[k]);
      session.CommitWork();
      o := Done;
    }

    /** Moves every active holder of one role to another and disables the first for the company. */
    method ReassignAndDeleteRole(oldName: string, newName: string) returns (o: Outcome)
      requires session.Clean() && UniqueRoleNames(session.db.roles)
      modifies session
      ensures session.Clean()
      ensures var step := Spec.ReplaceAssigned(old(session.db), company, oldName, newName);
        session.Performed(step) && o == step.outcome
    {
      if oldName == newName {
        return Refused(BadRequest);
      }
      var toDelete := FindAssignedRole(session.db, company, oldName);
      if toDelete.None? {
        return Refused(BadRequest);
      }
      var replacement := FindAssignedRole(session.db, company, newName);
      if replacement.None? {
        return Refused(BadRequest);
      }
      var count := MoveAll(toDelete.value, replacement.value);
      if !Enabled(session.db, company, toDelete.value) {
        assert false;  // the lookup by name already found this assignment
      }
      var db := session.db;
      session.db := session.db.(companyRoles := db.companyRoles[CompanyRoleKey(company, toDelete.value) := Closed]);
      session.db := session.db.(grants := map k | k in db.grants
        && !(k.company == company && k.role == toDelete.value) :: db.grants[k]);
      session.CommitWork();
      o := Reassigned(count);
    }

    /** The reassignment loop: one membership at a time, in any order, counting as it goes. */
    method MoveAll(from: Id, to: Id) returns (count: nat)
      modifies session
      ensures session.trail == old(session.trail) && session.committed == old(session.committed)
      ensures count == |Spec.Holders(old(session.db), company, from)|
      ensures session.db ==
        old(session.db).(members :=
          Spec.MoveMembers(old(session.db.members), Spec.Holders(old(session.db), company, from), to))
    {
      var active := Spec.Holders(session.db, company, from);
      var left := active;
      count := 0;
      while left != {}
        invariant left <= active && count == |active| - |left|
        invariant session.trail == old(session.trail) && session.committed == old(session.committed)
        invariant session.db ==
          old(session.db).(members := Spec.MoveMembers(old(session.db.members), active - left, to))
      {
        var k :| k in left;
        session.db := session.db.(members := session.db.members[k := session.db.members[k].(role := to)]);
        left := left - {k};
        count := count + 1;
      }
    }
  }

  /** The service in front of the repository, and the validator of its delete request. */
  class CompanyRoleService {
    const roles: CompanyRoleAssignmentRepository
    const policy: Policy

    constructor (roles: CompanyRoleAssignmentRepository, policy: Policy)
      ensures this.roles == roles && this.policy == policy
    {
      this.roles, this.policy := roles, policy;
    }

    method DeleteRole(oldName: string, newName: string) returns (o: Outcome)
      requires roles.session.Clean() && UniqueRoleNames(roles.session.db.roles)
      modifies roles.session
      ensures roles.session.Clean()
      ensures var step := Spec.ReplaceRole(policy, old(roles.session.db), roles.company, oldName, newName);
        roles.session.Performed(step) && o == step.outcome
    {
      if Spec.IsDefaultName(policy, oldName) {
        return Refused(BadRequest);
      }
      o := roles.ReassignAndDeleteRole(oldName, newName);
    }
  }
}
