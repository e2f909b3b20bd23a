/** What each operation on company memberships does to the store. */
module Members {
  import opened Prelude
  import opened Store

  const OWNER := "Owner"
  const ADMINISTRATOR := "Administrator"

  /** The user is looked up by email alone, so a closed account can be added too. */
  ghost function AddMember(db: Db, c: Id, email: string, role: string): Step {
    match (UserWithEmail(db, email), RoleNamed(db, c, role))
    case (None, _) => Refuse(NotFound)
    case (Some(_), None) => Refuse(BadRequest)
    case (Some(u), Some(r)) =>
      if ActiveMember(db, u, c) then Refuse(BadRequest)
      else if MemberKey(u, c) in db.members then Refuse(IntegrityError)
      else Commit(db.(members := db.members[MemberKey(u, c) := Member(r, Open)]))
  }

  predicate HasRoleNamed(db: Db, m: Member, name: string) {
    m.role in db.roles && db.roles[m.role].name == name
  }

  /** Closes a membership; administrators cannot close their own. */
  function CloseMembership(db: Db, c: Id, u: Id, actor: Id): Step {
    if !ActiveMember(db, u, c) then Refuse(Forbidden)
    else
      var m := db.members[MemberKey(u, c)];
      if u == actor && HasRoleNamed(db, m, ADMINISTRATOR) then Refuse(BadRequest)
      else Commit(db.(members := db.members[MemberKey(u, c) := m.(life := Closed)]))
  }

  predicate IsOwner(db: Db, c: Id, u: Id) {
    ActiveMember(db, u, c) && HasRoleNamed(db, db.members[MemberKey(u, c)], OWNER)
  }

  /** The service's removal: owners stay. */
  function RemoveMember(db: Db, c: Id, u: Id, actor: Id): Step {
    if IsOwner(db, c, u) then Refuse(BadRequest) else CloseMembership(db, c, u, actor)
  }

  ghost function UpdateMemberRole(db: Db, c: Id, u: Id, role: string): Step {
    match RoleNamed(db, c, role)
    case None => Refuse(BadRequest)
    case Some(r) =>
      if !ActiveMember(db, u, c) then Refuse(NotFound)
      else Commit(db.(members := db.members[MemberKey(u, c) := db.members[MemberKey(u, c)].(role := r)]))
  }
}

/** The membership repository: the operations of Members carried out against a session. */
module MemberRepository {
  import opened Prelude
  import opened Users
  import opened Store
  import Spec = Members
  import CompanyRoleRepository

  class CompanyUserRepository {
    const session: Session

    constructor (session: Session)
      ensures this.session == session
    {
      this.session := session;
    }

    method AddUserToCompany(c: Id, email: string, role: string) returns (o: Outcome)
      requires session.Clean() && UniqueEmails(session.db.users) && UniqueRoleNames(session.db.roles)
      modifies session
      ensures session.Clean()
      ensures var step := Spec.AddMember(old(session.db), c, email, role);
        session.Performed(step) && o == step.outcome
    {
      var db := session.db;
      if !exists u | u in db.users :: db.users[u].email == email {
        return Refused(NotFound);
      }
      var u :| u in db.users && db.users[u].email == email;
      var found := CompanyRoleRepository.FindAssignedRole(db, c, role);
      if found.None? {
        return Refused(BadRequest);
      }
      if ActiveMember(db, u, c) {
        return Refused(BadRequest);
      }
      var clash := MemberKey(u, c) in db.members;
      session.db := db.(members := db.members[MemberKey(u, c) := Member(found.value, Open)]);
      if clash {
        session.Rollback();
        return Refused(IntegrityError);
      }
      session.CommitWork();
      o := Done;
    }

    method RemoveUserFromCompany(c: Id, u: Id, actor: Id) returns (o: Outcome)
      requires session.Clean()
      modifies session
      ensures session.Clean()
      ensures var step := Spec.CloseMembership(old(session.db), c, u, actor);
        session.Performed(step) && o == step.outcome
    {
      var db := session.db;
      if !ActiveMember(db, u, c) {
        return Refused(Forbidden);
      }
      var link := db.members[MemberKey(u, c)];
      if u == actor && Spec.HasRoleNamed(db, link, Spec.ADMINISTRATOR) {
        return Refused(BadRequest);
      }
      session.db := db.(members := db.members[MemberKey(u, c) := link.(life := Closed)]);
      session.CommitWork();
      o := Done;
    }

    method UpdateUserRole(c: Id, u: Id, role: string) returns (o: Outcome)
      requires session.Clean() && UniqueRoleNames(session.db.roles)
      modifies session
      ensures session.Clean()
      ensures var step := Spec.UpdateMemberRole(old(session.db), c, u, role);
        session.Performed(step) && o == step.outcome
    {
      var db := session.db;
      var found := CompanyRoleRepository.FindAssignedRole(db, c, role);
      if found.None? {
        return Refused(BadRequest);
      }
      if !ActiveMember(db, u, c) {
        return Refused(NotFound);
      }
      var link := db.members[MemberKey(u, c)];
      session.db := db.(members := db.members[MemberKey(u, c) := link.(role := found.value)]);
      session.CommitWork();
      o := Done;
    }
  }

  /** The service in front of the repository. */
  class CompanyUserService {
    const users: CompanyUserRepository

    constructor (users: CompanyUserRepository)
      ensures this.users == users
    {
      this.users := users;
    }

    method RemoveUserFromCompany(c: Id, u: Id, actor: Id) returns (o: Outcome)
      requires users.session.Clean()
      modifies users.session
      ensures users.session.Clean()
      ensures var step := Spec.RemoveMember(old(users.session.db), c, u, actor);
        users.session.Performed(step) && o == step.outcome
    {
      if Spec.IsOwner(users.session.db, c, u) {
        return Refused(BadRequest);
      }
      o := users.RemoveUserFromCompany(c, u, actor);
    }
  }
}
