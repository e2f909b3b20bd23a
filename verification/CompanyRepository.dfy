/** The company repository: the operations of Companies carried out against a session. */
module CompanyRepository {
  import opened Prelude
  import opened Users
  import opened Store
  import Spec = Companies
  import MemberRepository
  import Members
  import PermissionRepository
  import CompanyCreation

  class CompanyRepository {
    const session: Session
    const policy: Policy

    constructor (session: Session, policy: Policy)
      ensures this.session == session && this.policy == policy
    {
      this.session, this.policy := session, policy;
    }

    method FindDefault(roles: map<Id, Role>, name: string) returns (r: Option<Id>)
      requires UniqueRoleNames(roles)
      ensures r == Spec.FindOpenRole(roles, name)
      ensures r.Some? ==> r.value in roles
    {
      if exists s | s in roles :: Spec.OpenRoleNamed(roles, name, s) {
        var s :| s in roles && Spec.OpenRoleNamed(roles, name, s);
        return Some(s);
      }
      r := None;
    }

    /** One default role: found and its description refreshed, or added; false is the database's refusal. */
    method EnsureRole(d: DefaultRole, id: Id, ghost acc: Spec.Defaults) returns (ok: bool, r: Id, isNew: bool)
      requires UniqueRoleNames(session.db.roles) && acc.roles == session.db.roles
      modifies session
      ensures session.trail == old(session.trail) && session.committed == old(session.committed)
      ensures session.db == old(session.db).(roles := session.db.roles)
      ensures UniqueRoleNames(session.db.roles)
      ensures Spec.EnsureDefault(acc, d, id) ==
        if !ok then None
        else Some(Spec.Defaults(session.db.roles, acc.chosen[d.name := r],
          if isNew then acc.created + {d.name} else acc.created))
    {
      var roles := session.db.roles;
      var found := FindDefault(roles, d.name);
      r := id;
      if found.Some? {
        var s := found.value;
        if roles[s].description != Some(d.description) {
          session.db := session.db.(roles := roles[s := roles[s].(description := Some(d.description))]);
        }
        return true, s, false;
      }
      if id in roles || exists s | s in roles :: roles[s].name == d.name {
        return false, id, false;
      }
      session.db := session.db.(roles := roles[id := Role(d.name, Some(d.description), Open)]);
      return true, id, true;
    }

    /** The loop over the default roles. */
    method FillDefaults(ids: seq<Id>) returns (ok: bool, chosen: map<string, Id>, created: set<string>)
      requires |ids| == |policy.defaults| && UniqueRoleNames(session.db.roles)
      modifies session
      ensures session.trail == old(session.trail) && session.committed == old(session.committed)
      ensures var end := Spec.EnsureDefaults(old(session.db).roles, policy.defaults, ids, |policy.defaults|);
        && (ok <==> end.Some?)
        && (ok ==> session.db == old(session.db).(roles := end.value.roles))
        && (ok ==> chosen == end.value.chosen && created == end.value.created)
    {
      ghost var start := session.db;
      chosen, created := map[], {};
      for i := 0 to |policy.defaults|
        invariant session.trail == old(session.trail) && session.committed == old(session.committed)
        invariant UniqueRoleNames(session.db.roles)
        invariant session.db == start.(roles := session.db.roles)
        invariant Spec.EnsureDefaults(start.roles, policy.defaults, ids, i) ==
          Some(Spec.Defaults(session.db.roles, chosen, created))
      {
        var d := policy.defaults[i];
        ghost var acc := Spec.Defaults(session.db.roles, chosen, created);
        var found, r, isNew := EnsureRole(d, ids[i], acc);
        assert Spec.EnsureDefaults(start.roles, policy.defaults, ids, i + 1) == Spec.EnsureDefault(acc, d, ids[i]);
        if !found {
          NoLaterDefaults(start.roles, policy.defaults, ids, i + 1, |policy.defaults|);
          return false, chosen, created;
        }
        chosen := chosen[d.name := r];
        if isNew {
          created := created + {d.name};
        }
      }
      ok := true;
    }

    /** Queues the links of one definition, one new role at a time and in any order. */
    method QueueDefinition(d: Definition, chosen: map<string, Id>, names: set<string>) returns (queued: set<LinkKey>)
      requires names <= chosen.Keys
      ensures queued == set name | name in names :: LinkKey(chosen[name], d.id)
    {
      var left := names;
      queued := {};
      while left != {}
        invariant left <= names
        invariant queued == set name | name in names - left :: LinkKey(chosen[name], d.id)
      {
        var name :| name in left;
        queued := queued + {LinkKey(chosen[name], d.id)};
        left := left - {name};
      }
      assert names - left == names;
    }

    /** Queues, for each new role, a link to every catalogue permission that names it as a default. */
    method QueueNewLinks(chosen: map<string, Id>, created: set<string>) returns (queued: set<LinkKey>)
      requires created <= chosen.Keys
      ensures queued == Spec.SeedKeys(policy.catalogue, chosen, created)
    {
      queued := {};
      for i := 0 to |policy.catalogue|
        invariant queued == Spec.SeedKeys(policy.catalogue[..i], chosen, created)
      {
        var d := policy.catalogue[i];
        var some := QueueDefinition(d, chosen, d.roles * created);
        SeedKeysNext(policy.catalogue, i, chosen, created);
        queued := queued + some;
      }
      assert policy.catalogue[..|policy.catalogue|] == policy.catalogue;
    }

    /** Default roles, then the catalogue and the links of the new ones, all in one commit. */
    method EnsureDefaultRoles(ids: seq<Id>) returns (o: Outcome, chosen: map<string, Id>)
      requires session.Clean() && |ids| == |policy.defaults|
      requires UniqueRoleNames(session.db.roles)
      modifies session
      ensures o.Done? ==> session.Clean()
      ensures var step := Spec.EnsureDefaultRoles(policy, old(session.db), ids);
        session.Performed(step) && o == step.outcome
      ensures o.Done? ==> chosen.Values == Spec.ChosenDefaults(policy, old(session.db), ids)
    {
      ghost var start := session.db;
      ghost var end := Spec.EnsureDefaults(start.roles, policy.defaults, ids, |policy.defaults|);
      var ok, found, created := FillDefaults(ids);
      chosen := found;
      if !ok {
        return Refused(IntegrityError), chosen;
      }
      NewNamesAreChosen(start.roles, policy.defaults, ids, |policy.defaults|);
      o := SeedNewDefaultRoles(chosen, created);
    }

    method SeedNewDefaultRoles(chosen: map<string, Id>, created: set<string>) returns (o: Outcome)
      requires created <= chosen.Keys
      modifies session
      ensures o.Done? ==> session.Clean()
      ensures var step := Spec.SeedNewRoles(policy, old(session.db), chosen, created);
        session.Performed(step) && o == step.outcome
    {
      if created == {} {
        session.CommitWork();
        return Done;
      }
      var repository := new PermissionRepository.SystemPermissionRepository(session, policy);
      var ok := repository.EnsurePermissions();
      if !ok {
        return Refused(Conflict);
      }
      var queued := QueueNewLinks(chosen, created);
      if queued * session.db.links.Keys != {} {
        session.Rollback();
        return Refused(IntegrityError);
      }
      session.db := session.db.(links := Spec.WithLinks(session.db.links, queued));
      session.CommitWork();
      o := Done;
    }

    /** The loop that enables the chosen default roles for a company, in one transaction. */
    method EnableDefaults(c: Id, chosen: set<Id>) returns (o: Outcome)
      requires session.Clean()
      modifies session
      ensures session.Clean()
      ensures var step := Spec.EnableDefaults(old(session.db), c, chosen);
        session.Performed(step) && o == step.outcome
    {
      var left := chosen;
      var queued := {};
      while left != {}
        invariant left <= chosen && queued == Spec.EnableKeys(c, chosen - left)
      {
        var r :| r in left;
        queued := queued + {CompanyRoleKey(c, r)};
        left := left - {r};
      }
      assert chosen - left == chosen;
      if queued * session.db.companyRoles.Keys != {} {
        session.Rollback();
        return Refused(IntegrityError);
      }
      session.db := session.db.(companyRoles := Spec.WithEnabled(session.db.companyRoles, queued));
      session.CommitWork();
      o := Done;
    }

    method InsertCompany(c: Id, email: string) returns (o: Outcome)
      requires session.Clean()
      modifies session
      ensures session.Clean()
      ensures var step := Spec.InsertCompany(old(session.db), c, email);
        session.Performed(step) && o == step.outcome
    {
      var db := session.db;
      if exists k | k in db.companies :: db.companies[k].email == email && db.companies[k].life.Open? {
        return Refused(Conflict);
      }
      var clash := Spec.CompanyEmailTaken(db, email) || c in db.companies;
      session.db := db.(companies := db.companies[c := Company(email, Open)]);
      if clash {
        session.Rollback();
        return Refused(Conflict);
      }
      session.CommitWork();
      o := Done;
    }

    method CreateWithDefaults(c: Id, email: string, ids: seq<Id>) returns (o: Outcome, chosen: map<string, Id>)
      requires session.Clean() && |ids| == |policy.defaults| && UniqueRoleNames(session.db.roles)
      modifies session
      ensures o.Done? ==> session.Clean()
      ensures var step := Spec.WithDefaults(policy, old(session.db), c, email, ids);
        session.Performed(step) && o == step.outcome
      ensures o.Done? ==> chosen.Values == Spec.DefaultsFor(policy, old(session.db), c, email, ids)
    {
      chosen := map[];
      o := InsertCompany(c, email);
      if o.Done? {
        o, chosen := EnsureDefaultRoles(ids);
      }
    }

    method CreateWithEnabledDefaults(c: Id, email: string, ids: seq<Id>) returns (o: Outcome)
      requires session.Clean() && |ids| == |policy.defaults| && UniqueRoleNames(session.db.roles)
      modifies session
      ensures o.Done? ==> session.Clean()
      ensures var step := Spec.WithEnabledDefaults(policy, old(session.db), c, email, ids);
        session.Performed(step) && o == step.outcome
    {
      var chosen;
      o, chosen := CreateWithDefaults(c, email, ids);
      if o.Done? {
        o := EnableDefaults(c, chosen.Values);
      }
    }

    /** Four commits; CompanyCreation.CreateCompanyKeeps shows the store invariant at each of them. */
    method CreateCompany(c: Id, email: string, ids: seq<Id>, creator: string) returns (o: Outcome)
      requires session.Clean() && |ids| == |policy.defaults|
      requires ValidPolicy(policy) && Inv(policy, session.db)
      modifies session
      ensures o.Done? ==> session.Clean()
      ensures var step := Spec.CreateCompany(policy, old(session.db), c, email, ids, creator);
        session.Performed(step) && o == step.outcome
    {
      CompanyCreation.NamesStayUnique(policy, session.db, c, email, ids);
      o := CreateWithOwner(c, email, ids, creator);
    }

    method CreateWithOwner(c: Id, email: string, ids: seq<Id>, creator: string) returns (o: Outcome)
      requires session.Clean() && |ids| == |policy.defaults| && UniqueRoleNames(session.db.roles)
      requires var ready := Latest(session.db, Spec.WithEnabledDefaults(policy, session.db, c, email, ids).trail);
        UniqueEmails(ready.users) && UniqueRoleNames(ready.roles)
      modifies session
      ensures o.Done? ==> session.Clean()
      ensures var step := Spec.CreateCompany(policy, old(session.db), c, email, ids, creator);
        session.Performed(step) && o == step.outcome
    {
      o := CreateWithEnabledDefaults(c, email, ids);
      if o.Done? {
        var members := new MemberRepository.CompanyUserRepository(session);
        o := members.AddUserToCompany(c, creator, Members.OWNER);
      }
    }

    method DeleteCompany(c: Id) returns (o: Outcome)
      requires session.Clean()
      modifies session
      ensures session.Clean()
      ensures var step := Spec.DeleteCompany(old(session.db), c);
        session.Performed(step) && o == step.outcome
    {
      if !OpenCompany(session.db, c) {
        return Refused(NotFound);
      }
      var row := session.db.companies[c];
      session.db := session.db.(companies := session.db.companies[c := row.(life := Closed)]);
      session.CommitWork();
      o := Done;
    }
  }

  lemma SeedKeysNext(catalogue: seq<Definition>, i: nat, chosen: map<string, Id>, created: set<string>)
    requires i < |catalogue| && created <= chosen.Keys
    ensures Spec.SeedKeys(catalogue[..i + 1], chosen, created) ==
      Spec.SeedKeys(catalogue[..i], chosen, created)
      + set name | name in catalogue[i].roles * created :: LinkKey(chosen[name], catalogue[i].id)
  {
    var shorter, longer := catalogue[..i], catalogue[..i + 1];
    forall j, name | 0 <= j < i && name in shorter[j].roles && name in created && name in chosen
      ensures LinkKey(chosen[name], shorter[j].id) in Spec.SeedKeys(longer, chosen, created)
    {
      assert longer[j] == shorter[j];
    }
    assert longer[i] == catalogue[i];
  }

  lemma {:induction false} NewNamesAreChosen(roles: map<Id, Role>, defaults: seq<DefaultRole>, ids: seq<Id>, n: nat)
    requires n <= |defaults| <= |ids|
    ensures var end := Spec.EnsureDefaults(roles, defaults, ids, n);
      end.Some? ==> end.value.created <= end.value.chosen.Keys
  {
    if n > 0 {
      NewNamesAreChosen(roles, defaults, ids, n - 1);
    }
  }

  lemma {:induction false} NoLaterDefaults(roles: map<Id, Role>, defaults: seq<DefaultRole>, ids: seq<Id>, i: nat,
                                           n: nat)
    requires i <= n <= |defaults| <= |ids|
    requires Spec.EnsureDefaults(roles, defaults, ids, i).None?
    ensures Spec.EnsureDefaults(roles, defaults, ids, n).None?
  {
    if i < n {
      NoLaterDefaults(roles, defaults, ids, i, n - 1);
    }
  }
}
