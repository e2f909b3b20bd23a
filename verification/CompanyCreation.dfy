/** The four commits of creating a company, each keeping the store invariant. */
module CompanyCreation {
  import opened Prelude
  import opened Users
  import opened Store
  import Members
  import Companies
  import StoreInvariant
  import DefaultRoles

  lemma LatestInv(p: Policy, db: Db, trail: seq<Db>)
    requires Inv(p, db) && AllInv(p, trail)
    ensures Inv(p, Latest(db, trail))
  {
  }

  lemma ThenKeeps(p: Policy, first: Step, second: Step)
    requires AllInv(p, first.trail)
    requires !first.outcome.Refused? ==> AllInv(p, second.trail)
    ensures AllInv(p, Companies.Then(first, second).trail)
  {
  }

  lemma EnableDefaultsKeeps(p: Policy, db: Db, c: Id, chosen: set<Id>)
    requires Inv(p, db) && c in db.companies && chosen <= db.roles.Keys
    ensures AllInv(p, Companies.EnableDefaults(db, c, chosen).trail)
  {
  }

  lemma SeedingKeepsTables(p: Policy, db: Db, chosen: map<string, Id>, created: set<string>)
    ensures var step := Companies.SeedNewRoles(p, db, chosen, created);
      !step.outcome.Refused? ==>
        Latest(db, step.trail).roles == db.roles && Latest(db, step.trail).companies == db.companies
  {
  }

  lemma ValuesExist(roles: map<Id, Role>, chosen: map<string, Id>)
    requires DefaultRoles.ChosenOpen(roles, chosen)
    ensures chosen.Values <= roles.Keys
  {
  }

  lemma ChosenAreOpen(p: Policy, roles: map<Id, Role>, ids: seq<Id>)
    requires ValidPolicy(p) && UniqueRoleNames(roles) && |ids| == |p.defaults|
    ensures var end := Companies.EnsureDefaults(roles, p.defaults, ids, |p.defaults|);
      end.Some? ==> DefaultRoles.ChosenOpen(end.value.roles, end.value.chosen)
  {
    DefaultRoles.DefaultsInPlace(p, roles, ids, |p.defaults|);
  }

  /** The chosen default roles are rows of the table that the set-up commits. */
  lemma ChosenExist(p: Policy, db: Db, ids: seq<Id>)
    requires ValidPolicy(p) && UniqueRoleNames(db.roles) && |ids| == |p.defaults|
    ensures var step := Companies.EnsureDefaultRoles(p, db, ids);
      !step.outcome.Refused? ==>
        && Companies.ChosenDefaults(p, db, ids) <= Latest(db, step.trail).roles.Keys
        && Latest(db, step.trail).companies == db.companies
  {
    var end := Companies.EnsureDefaults(db.roles, p.defaults, ids, |p.defaults|);
    if end.Some? {
      ChosenAreOpen(p, db.roles, ids);
      ValuesExist(end.value.roles, end.value.chosen);
      SeedingKeepsTables(p, db.(roles := end.value.roles), end.value.chosen, end.value.created);
    }
  }

  lemma WithDefaultsKeeps(p: Policy, db: Db, c: Id, email: string, ids: seq<Id>)
    requires ValidPolicy(p) && Inv(p, db) && |ids| == |p.defaults|
    ensures
      var step := Companies.WithDefaults(p, db, c, email, ids);
      && AllInv(p, step.trail)
      && (!step.outcome.Refused? ==>
            && c in Latest(db, step.trail).companies
            && Companies.DefaultsFor(p, db, c, email, ids) <= Latest(db, step.trail).roles.Keys)
  {
    var insert := Companies.InsertCompany(db, c, email);
    var db1 := Latest(db, insert.trail);
    StoreInvariant.InsertCompanyKeeps(p, db, c, email);
    LatestInv(p, db, insert.trail);
    DefaultRoles.EnsureDefaultRolesKeeps(p, db1, ids);
    ChosenExist(p, db1, ids);
    ThenKeeps(p, insert, Companies.EnsureDefaultRoles(p, db1, ids));
    LatestAppend(db, insert.trail, Companies.EnsureDefaultRoles(p, db1, ids).trail);
  }

  lemma LatestAppend(db: Db, a: seq<Db>, b: seq<Db>)
    ensures Latest(db, a + b) == Latest(Latest(db, a), b)
  {
  }

  lemma EnabledDefaultsKeeps(p: Policy, db: Db, c: Id, email: string, ids: seq<Id>)
    requires ValidPolicy(p) && Inv(p, db) && |ids| == |p.defaults|
    ensures var step := Companies.WithEnabledDefaults(p, db, c, email, ids);
      AllInv(p, step.trail) && Inv(p, Latest(db, step.trail))
  {
    WithDefaultsKeeps(p, db, c, email, ids);
    var first := Companies.WithDefaults(p, db, c, email, ids);
    var chosen := Companies.DefaultsFor(p, db, c, email, ids);
    LatestInv(p, db, first.trail);
    if !first.outcome.Refused? {
      EnableDefaultsKeeps(p, Latest(db, first.trail), c, chosen);
    }
    ThenKeeps(p, first, Companies.EnableDefaults(Latest(db, first.trail), c, chosen));
    LatestInv(p, db, Companies.WithEnabledDefaults(p, db, c, email, ids).trail);
  }

  lemma NamesStayUnique(p: Policy, db: Db, c: Id, email: string, ids: seq<Id>)
    requires ValidPolicy(p) && Inv(p, db) && |ids| == |p.defaults|
    ensures var now := Latest(db, Companies.WithEnabledDefaults(p, db, c, email, ids).trail);
      UniqueEmails(now.users) && UniqueRoleNames(now.roles)
  {
    EnabledDefaultsKeeps(p, db, c, email, ids);
  }

  lemma CreateCompanyKeeps(p: Policy, db: Db, c: Id, email: string, ids: seq<Id>, creator: string)
    requires ValidPolicy(p) && Inv(p, db) && |ids| == |p.defaults|
    ensures AllInv(p, Companies.CreateCompany(p, db, c, email, ids, creator).trail)
  {
    EnabledDefaultsKeeps(p, db, c, email, ids);
    var first := Companies.WithEnabledDefaults(p, db, c, email, ids);
    StoreInvariant.AddMemberKeeps(p, Latest(db, first.trail), c, creator, Members.OWNER);
    ThenKeeps(p, first, Members.AddMember(Latest(db, first.trail), c, creator, Members.OWNER));
  }

  /**
   * If a deleted role owns a default name, creation fails after its first commit: the company row stays
   * behind without roles or members, and the same email is refused from then on.
   */
  lemma BurntDefaultStrandsCompany(p: Policy, db: Db, c: Id, email: string, ids: seq<Id>, creator: string, again: Id)
    requires ValidPolicy(p) && Inv(p, db) && |ids| == |p.defaults| && DefaultRoles.FreshIds(db.roles, ids)
    requires Companies.InsertCompany(db, c, email).outcome.Done?
    requires !DefaultRoles.NoneBurnt(db.roles, p.defaults, |p.defaults|)
    ensures
      var step := Companies.CreateCompany(p, db, c, email, ids, creator);
      && step.outcome.Refused? && step.trail == Companies.InsertCompany(db, c, email).trail
      && c in Latest(db, step.trail).companies
      && Latest(db, step.trail).members == db.members && Latest(db, step.trail).companyRoles == db.companyRoles
      && Companies.InsertCompany(Latest(db, step.trail), again, email).outcome.Refused?
  {
    DefaultRoles.DefaultsFailIff(p, db.roles, ids, |p.defaults|);
  }
}
