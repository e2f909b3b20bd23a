/** What a successful creation of a company leaves: its owner, its default roles, and what the owner may do. */
module CreationEffect {
  import opened Prelude
  import opened Users
  import opened Store
  import opened Authorization
  import opened SystemPolicy
  import Members
  import Companies
  import DefaultRoles
  import CompanyCreation

  /** The company is there, and the creator is its only member, as an active owner. */
  ghost predicate OwnedBy(before: Db, after: Db, c: Id, email: string, creator: string, u: Id) {
    && c !in before.companies && after.companies == before.companies[c := Company(email, Open)]
    && u in before.users && before.users[u].email == creator && after.users == before.users
    && MemberKey(u, c) in after.members && after.members[MemberKey(u, c)].life == Open
    && after.members.Keys == before.members.Keys + {MemberKey(u, c)}
    && (forall k | k in after.members && k.company == c :: k.user == u)
    && var r := after.members[MemberKey(u, c)].role;
    && r in after.roles && after.roles[r].name == "Owner" && after.roles[r].life == Open
    && CompanyRoleKey(c, r) in after.companyRoles && after.companyRoles[CompanyRoleKey(c, r)] == Open
  }

  /** Open roles of exactly the default names are enabled for the company. */
  ghost predicate DefaultsEnabled(p: Policy, after: Db, c: Id) {
    && (forall i | 0 <= i < |p.defaults| :: HasEnabled(after, c, p.defaults[i].name))
    && (forall k | k in after.companyRoles && k.company == c ::
          exists i | 0 <= i < |p.defaults| :: EnabledAs(after, c, p.defaults[i].name, k.role))
  }

  predicate EnabledAs(db: Db, c: Id, name: string, r: Id) {
    && r in db.roles && db.roles[r].name == name && db.roles[r].life == Open
    && CompanyRoleKey(c, r) in db.companyRoles && db.companyRoles[CompanyRoleKey(c, r)] == Open
  }

  ghost predicate HasEnabled(db: Db, c: Id, name: string) {
    exists r :: EnabledAs(db, c, name, r)
  }

  /** Other companies keep their rows, and no company permission, grant or platform role changes at all. */
  ghost predicate OthersKeep(before: Db, after: Db, c: Id) {
    && (forall k: MemberKey | k.company != c ::
          && (k in after.members <==> k in before.members)
          && (k in before.members ==> after.members[k] == before.members[k]))
    && (forall k: CompanyRoleKey | k.company != c ::
          && (k in after.companyRoles <==> k in before.companyRoles)
          && (k in before.companyRoles ==> after.companyRoles[k] == before.companyRoles[k]))
    && (forall r | r in before.roles ::
          && r in after.roles
          && after.roles[r].name == before.roles[r].name && after.roles[r].life == before.roles[r].life)
    && (forall k: LinkKey | k.role in before.roles :: k in after.links <==> k in before.links)
    && after.grants == before.grants && after.companyPerms == before.companyPerms
    && after.platformRoles == before.platformRoles
  }

  // The four stages -------------------------------------------------------------------------------------

  lemma InsertedIs(db: Db, c: Id, email: string)
    requires !Companies.InsertCompany(db, c, email).outcome.Refused?
    ensures c !in db.companies
    ensures Companies.InsertCompany(db, c, email) == Commit(db.(companies := db.companies[c := Company(email, Open)]))
  {
  }

  lemma SetUpIs(p: Policy, db: Db, ids: seq<Id>) returns (after: Db, acc: Companies.Defaults)
    requires |ids| == |p.defaults| && !Companies.EnsureDefaultRoles(p, db, ids).outcome.Refused?
    ensures DefaultRoles.SetUp(p, db, ids, after, acc)
    ensures after == db.(roles := after.roles, globalPerms := after.globalPerms, links := after.links)
    ensures Companies.ChosenDefaults(p, db, ids) == acc.chosen.Values
  {
    acc := Companies.EnsureDefaults(db.roles, p.defaults, ids, |p.defaults|).value;
    after := Companies.EnsureDefaultRoles(p, db, ids).trail[0];
  }

  lemma EnabledIs(db: Db, c: Id, chosen: set<Id>)
    requires !Companies.EnableDefaults(db, c, chosen).outcome.Refused?
    ensures Companies.EnableDefaults(db, c, chosen) ==
      Commit(db.(companyRoles := Companies.WithEnabled(db.companyRoles, Companies.EnableKeys(c, chosen))))
  {
  }

  lemma AddedIs(db: Db, c: Id, creator: string) returns (u: Id, r: Id)
    requires !Members.AddMember(db, c, creator, Members.OWNER).outcome.Refused?
    ensures u in db.users && db.users[u].email == creator && EnabledAs(db, c, "Owner", r)
    ensures MemberKey(u, c) !in db.members
    ensures Members.AddMember(db, c, creator, Members.OWNER) ==
      Commit(db.(members := db.members[MemberKey(u, c) := Member(r, Open)]))
  {
    u := UserWithEmail(db, creator).value;
    r := RoleNamed(db, c, Members.OWNER).value;
  }

  /** The tables in between: the company row, the default roles, their enabling. */
  datatype Stages = Stages(inserted: Db, setUp: Db, acc: Companies.Defaults, enabled: Db, user: Id, role: Id)

  ghost predicate StagesOf(p: Policy, db: Db, c: Id, email: string, ids: seq<Id>, creator: string, s: Stages) {
    && |ids| == |p.defaults|
    && c !in db.companies && s.inserted == db.(companies := db.companies[c := Company(email, Open)])
    && DefaultRoles.SetUp(p, s.inserted, ids, s.setUp, s.acc)
    && s.setUp == s.inserted.(roles := s.setUp.roles, globalPerms := s.setUp.globalPerms, links := s.setUp.links)
    && s.enabled == s.setUp.(
         companyRoles := Companies.WithEnabled(db.companyRoles, Companies.EnableKeys(c, s.acc.chosen.Values)))
    && s.user in db.users && db.users[s.user].email == creator && EnabledAs(s.enabled, c, "Owner", s.role)
    && MemberKey(s.user, c) !in db.members
  }

  function WithOwner(s: Stages, c: Id): Db {
    s.enabled.(members := s.enabled.members[MemberKey(s.user, c) := Member(s.role, Open)])
  }

  /** The first three commits of a creation that succeeds. */
  lemma EnabledStages(p: Policy, db: Db, c: Id, email: string, ids: seq<Id>)
    returns (inserted: Db, setUp: Db, acc: Companies.Defaults, enabled: Db)
    requires |ids| == |p.defaults| && !Companies.WithEnabledDefaults(p, db, c, email, ids).outcome.Refused?
    ensures c !in db.companies && inserted == db.(companies := db.companies[c := Company(email, Open)])
    ensures DefaultRoles.SetUp(p, inserted, ids, setUp, acc)
    ensures setUp == inserted.(roles := setUp.roles, globalPerms := setUp.globalPerms, links := setUp.links)
    ensures enabled == setUp.(
      companyRoles := Companies.WithEnabled(db.companyRoles, Companies.EnableKeys(c, acc.chosen.Values)))
    ensures Companies.WithEnabledDefaults(p, db, c, email, ids) == Step([inserted, setUp, enabled], Done)
  {
    InsertedIs(db, c, email);
    inserted := db.(companies := db.companies[c := Company(email, Open)]);
    setUp, acc := SetUpIs(p, inserted, ids);
    assert Companies.WithDefaults(p, db, c, email, ids) == Step([inserted, setUp], Done);
    EnabledIs(setUp, c, acc.chosen.Values);
    enabled := setUp.(companyRoles := Companies.WithEnabled(setUp.companyRoles,
      Companies.EnableKeys(c, acc.chosen.Values)));
  }

  lemma StagesExist(p: Policy, db: Db, c: Id, email: string, ids: seq<Id>, creator: string) returns (s: Stages)
    requires |ids| == |p.defaults| && Companies.CreateCompany(p, db, c, email, ids, creator).outcome.Done?
    ensures StagesOf(p, db, c, email, ids, creator, s)
    ensures Companies.CreateCompany(p, db, c, email, ids, creator).trail ==
      [s.inserted, s.setUp, s.enabled, WithOwner(s, c)]
  {
    var inserted, setUp, acc, enabled := EnabledStages(p, db, c, email, ids);
    var u, r := AddedIs(enabled, c, creator);
    s := Stages(inserted, setUp, acc, enabled, u, r);
  }

  // What they amount to ---------------------------------------------------------------------------------

  /** Nothing refers to the company yet. */
  ghost predicate Bare(db: Db, c: Id) {
    && (forall k | k in db.companyRoles :: k.company != c) && (forall k | k in db.members :: k.company != c)
  }

  lemma NewCompanyIsBare(p: Policy, db: Db, c: Id)
    requires Inv(p, db) && c !in db.companies
    ensures Bare(db, c) && UniqueRoleNames(db.roles) && UniqueEmails(db.users)
  {
  }

  lemma StagesOwn(p: Policy, db: Db, c: Id, email: string, ids: seq<Id>, creator: string, s: Stages)
    requires Bare(db, c) && StagesOf(p, db, c, email, ids, creator, s)
    ensures OwnedBy(db, WithOwner(s, c), c, email, creator, s.user)
  {
  }

  lemma StagesEnable(p: Policy, db: Db, c: Id, email: string, ids: seq<Id>, creator: string, s: Stages)
    requires ValidPolicy(p) && UniqueRoleNames(db.roles) && Bare(db, c) && StagesOf(p, db, c, email, ids, creator, s)
    ensures DefaultsEnabled(p, WithOwner(s, c), c)
  {
    DefaultRoles.SetUpTables(p, s.inserted, ids, s.setUp, s.acc);
    ChosenAreEnabled(p, db.companyRoles, WithOwner(s, c), c, s.acc);
  }

  lemma ChosenAreEnabled(p: Policy, before: map<CompanyRoleKey, Life>, after: Db, c: Id, acc: Companies.Defaults)
    requires DefaultRoles.ChosenOpen(acc.roles, acc.chosen) && after.roles == acc.roles
    requires acc.chosen.Keys == DefaultRoles.Names(p.defaults, |p.defaults|)
    requires after.companyRoles == Companies.WithEnabled(before, Companies.EnableKeys(c, acc.chosen.Values))
    requires forall k | k in before :: k.company != c
    ensures DefaultsEnabled(p, after, c)
  {
    forall i | 0 <= i < |p.defaults|
      ensures HasEnabled(after, c, p.defaults[i].name)
    {
      assert p.defaults[i].name in DefaultRoles.Names(p.defaults, |p.defaults|);
      ChosenIsEnabled(before, after, c, acc, p.defaults[i].name);
    }
    forall k | k in after.companyRoles && k.company == c
      ensures exists i | 0 <= i < |p.defaults| :: EnabledAs(after, c, p.defaults[i].name, k.role)
    {
      var name :| name in acc.chosen && acc.chosen[name] == k.role;
      var i :| 0 <= i < |p.defaults| && p.defaults[i].name == name;
      ChosenIsEnabled(before, after, c, acc, name);
    }
  }

  lemma ChosenIsEnabled(before: map<CompanyRoleKey, Life>, after: Db, c: Id, acc: Companies.Defaults, name: string)
    requires DefaultRoles.ChosenOpen(acc.roles, acc.chosen) && name in acc.chosen && after.roles == acc.roles
    requires after.companyRoles == Companies.WithEnabled(before, Companies.EnableKeys(c, acc.chosen.Values))
    requires forall k | k in before :: k.company != c
    ensures EnabledAs(after, c, name, acc.chosen[name])
  {
    assert CompanyRoleKey(c, acc.chosen[name]) in Companies.EnableKeys(c, acc.chosen.Values);
  }

  lemma StagesKeepOthers(p: Policy, db: Db, c: Id, email: string, ids: seq<Id>, creator: string, s: Stages)
    requires ValidPolicy(p) && UniqueRoleNames(db.roles) && StagesOf(p, db, c, email, ids, creator, s)
    ensures OthersKeep(db, WithOwner(s, c), c)
  {
    DefaultRoles.SetUpTables(p, s.inserted, ids, s.setUp, s.acc);
    DefaultRoles.OldRolesAreNotSeeded(p, db.roles.Keys, s.acc);
    assert forall k | k in Companies.EnableKeys(c, s.acc.chosen.Values) :: k.company == c;
  }

  /**
   * A creation that succeeds makes four commits.  Afterwards the creator is the only member, as an active owner,
   * open roles of exactly the default names are enabled, and nothing else of any other company has changed.
   */
  lemma CreatedCompany(p: Policy, db: Db, c: Id, email: string, ids: seq<Id>, creator: string) returns (u: Id)
    requires ValidPolicy(p) && Inv(p, db) && |ids| == |p.defaults|
    requires Companies.CreateCompany(p, db, c, email, ids, creator).outcome.Done?
    ensures
      var trail := Companies.CreateCompany(p, db, c, email, ids, creator).trail;
      && |trail| == 4 && OwnedBy(db, trail[3], c, email, creator, u)
      && DefaultsEnabled(p, trail[3], c) && OthersKeep(db, trail[3], c)
  {
    var s := StagesExist(p, db, c, email, ids, creator);
    u := s.user;
    NewCompanyIsBare(p, db, c);
    StagesOwn(p, db, c, email, ids, creator, s);
    StagesEnable(p, db, c, email, ids, creator, s);
    StagesKeepOthers(p, db, c, email, ids, creator, s);
  }

  // What the owner may do ------------------------------------------------------------------------------

  lemma OwnerRole(p: Policy, db: Db, c: Id, email: string, ids: seq<Id>, creator: string, s: Stages)
    requires ValidPolicy(p) && UniqueRoleNames(db.roles) && StagesOf(p, db, c, email, ids, creator, s)
    requires forall r | r in db.roles :: db.roles[r].name != "Owner"
    requires "Owner" in DefaultRoles.Names(p.defaults, |p.defaults|)
    ensures "Owner" in s.acc.created && "Owner" in s.acc.chosen && s.acc.chosen["Owner"] == s.role
  {
    DefaultRoles.SetUpTables(p, s.inserted, ids, s.setUp, s.acc);
    var r := s.acc.chosen["Owner"];
    assert Companies.OpenRoleNamed(s.acc.roles, "Owner", r);
    assert s.acc.roles[s.role].name == s.acc.roles[r].name;
    assert r !in db.roles;
  }

  lemma OwnerIsLinked(p: Policy, db: Db, c: Id, email: string, ids: seq<Id>, creator: string, s: Stages, i: nat)
    requires ValidPolicy(p) && UniqueRoleNames(db.roles) && StagesOf(p, db, c, email, ids, creator, s)
    requires forall r | r in db.roles :: db.roles[r].name != "Owner"
    requires "Owner" in DefaultRoles.Names(p.defaults, |p.defaults|)
    requires i < |p.catalogue| && "Owner" in p.catalogue[i].roles
    ensures LinkKey(s.role, p.catalogue[i].id) in s.setUp.links
  {
    OwnerRole(p, db, c, email, ids, creator, s);
    DefaultRoles.SetUpTables(p, s.inserted, ids, s.setUp, s.acc);
    assert LinkKey(s.role, p.catalogue[i].id) in Companies.SeedKeys(p.catalogue, s.acc.chosen, s.acc.created);
  }

  lemma OwnerUses(s: Stages, c: Id, permission: Id)
    requires LinkKey(s.role, permission) in s.enabled.links && OpenCompany(s.enabled, c)
    ensures MayUse(WithOwner(s, c), s.user, c, permission)
  {
  }

  /** Where the owner role is new, the creator may use every permission whose catalogue entry names owners. */
  lemma OwnerMayUse(p: Policy, db: Db, c: Id, email: string, ids: seq<Id>, creator: string, u: Id, i: nat)
    requires ValidPolicy(p) && Inv(p, db) && |ids| == |p.defaults|
    requires Companies.CreateCompany(p, db, c, email, ids, creator).outcome.Done?
    requires u in db.users && db.users[u].email == creator
    requires forall r | r in db.roles :: db.roles[r].name != "Owner"
    requires "Owner" in DefaultRoles.Names(p.defaults, |p.defaults|)
    requires i < |p.catalogue| && "Owner" in p.catalogue[i].roles
    ensures
      var trail := Companies.CreateCompany(p, db, c, email, ids, creator).trail;
      |trail| == 4 && MayUse(trail[3], u, c, p.catalogue[i].id)
  {
    var s := StagesExist(p, db, c, email, ids, creator);
    NewCompanyIsBare(p, db, c);
    OwnerIsLinked(p, db, c, email, ids, creator, s, i);
    OwnerUses(s, c, p.catalogue[i].id);
    assert s.user == u;
  }

  lemma OwnerIsDefault()
    ensures ValidPolicy(POLICY) && |POLICY.defaults| == 3 && |POLICY.catalogue| == 16
    ensures "Owner" in DefaultRoles.Names(POLICY.defaults, |POLICY.defaults|)
    ensures forall i | 0 <= i < 16 :: "Owner" in POLICY.catalogue[i].roles
  {
    PolicyIsValid();
    assert POLICY.defaults[0].name == "Owner";
  }

  /** With the shipped catalogue the first company's creator may use all sixteen permissions. */
  lemma FounderMayUseEverything(db: Db, c: Id, email: string, ids: seq<Id>, creator: string, u: Id, i: nat)
    requires Inv(POLICY, db) && |ids| == 3 && |POLICY.defaults| == 3 && |POLICY.catalogue| == 16 && i < 16
    requires Companies.CreateCompany(POLICY, db, c, email, ids, creator).outcome.Done?
    requires u in db.users && db.users[u].email == creator
    requires forall r | r in db.roles :: db.roles[r].name != "Owner"
    ensures
      var trail := Companies.CreateCompany(POLICY, db, c, email, ids, creator).trail;
      |trail| == 4 && MayUse(trail[3], u, c, POLICY.catalogue[i].id)
  {
    OwnerIsDefault();
    OwnerMayUse(POLICY, db, c, email, ids, creator, u, i);
  }
}
