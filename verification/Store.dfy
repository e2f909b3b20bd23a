/**
 * The role-based access store: its tables, its database session, and the invariant that every
 * committed state satisfies.
 */
module Store {
  import opened Prelude
  import opened Users

  // Tables -------------------------------------------------------------------

  datatype Company = Company(email: string, life: Life)
  datatype Role = Role(name: string, description: Option<string>, life: Life)
  datatype Member = Member(role: Id, life: Life)
  datatype GlobalPermission = GlobalPermission(name: string, description: Option<string>, life: Life)
  datatype CompanyPermission =
    CompanyPermission(company: Id, name: string, description: Option<string>, life: Life)

  datatype MemberKey = MemberKey(user: Id, company: Id)
  datatype CompanyRoleKey = CompanyRoleKey(company: Id, role: Id)
  datatype LinkKey = LinkKey(role: Id, permission: Id)
  datatype GrantKey = GrantKey(company: Id, role: Id, permission: Id)
  datatype PlatformKey = PlatformKey(user: Id, role: Id)

  datatype Db = Db(
    users: map<Id, User>,
    companies: map<Id, Company>,
    roles: map<Id, Role>,
    companyRoles: map<CompanyRoleKey, Life>,
    members: map<MemberKey, Member>,
    globalPerms: map<Id, GlobalPermission>,
    companyPerms: map<Id, CompanyPermission>,
    links: map<LinkKey, Life>,
    grants: map<GrantKey, Life>,
    platformRoles: map<PlatformKey, Life>)

  const EMPTY := Db(map[], map[], map[], map[], map[], map[], map[], map[], map[], map[])

  predicate OpenCompany(db: Db, c: Id) {
    c in db.companies && db.companies[c].life.Open?
  }

  predicate IsOpenRole(roles: map<Id, Role>, r: Id) {
    r in roles && roles[r].life.Open?
  }

  predicate IsEnabled(rows: map<CompanyRoleKey, Life>, c: Id, r: Id) {
    CompanyRoleKey(c, r) in rows && rows[CompanyRoleKey(c, r)].Open?
  }

  predicate OpenRole(db: Db, r: Id) {
    IsOpenRole(db.roles, r)
  }

  predicate Enabled(db: Db, c: Id, r: Id) {
    IsEnabled(db.companyRoles, c, r)
  }

  predicate ActiveMember(db: Db, u: Id, c: Id) {
    MemberKey(u, c) in db.members && db.members[MemberKey(u, c)].life.Open?
  }

  /** `r` is an open role with this name, enabled for the company. */
  predicate AssignedRole(db: Db, c: Id, name: string, r: Id) {
    OpenRole(db, r) && db.roles[r].name == name && Enabled(db, c, r)
  }

  ghost function RoleNamed(db: Db, c: Id, name: string): Option<Id> {
    if exists r :: AssignedRole(db, c, name, r) then
      var r :| AssignedRole(db, c, name, r); Some(r)
    else None
  }

  ghost function UserWithEmail(db: Db, email: string): Option<Id> {
    if exists u | u in db.users :: db.users[u].email == email then
      var u :| u in db.users && db.users[u].email == email; Some(u)
    else None
  }

  // The permission catalogue and the default roles ------------------------------

  datatype Definition = Definition(id: Id, name: string, description: string, roles: set<string>)
  datatype DefaultRole = DefaultRole(name: string, description: string)

  /** The catalogue of protected permissions and the roles that every company starts with. */
  datatype Policy = Policy(catalogue: seq<Definition>, defaults: seq<DefaultRole>)

  ghost predicate ValidPolicy(p: Policy) {
    && (forall i, j | 0 <= i < j < |p.catalogue| :: p.catalogue[i].id != p.catalogue[j].id)
    && (forall i, j | 0 <= i < j < |p.catalogue| :: p.catalogue[i].name != p.catalogue[j].name)
    && (forall i, j | 0 <= i < j < |p.defaults| :: p.defaults[i].name != p.defaults[j].name)
  }

  predicate IsSystemId(p: Policy, id: Id) {
    exists i | 0 <= i < |p.catalogue| :: p.catalogue[i].id == id
  }

  // Schema constraints and the invariant ------------------------------------------

  /** The unique keys that the schema declares; closed rows count. */
  ghost predicate UniqueNames(db: Db) {
    && UniqueEmails(db.users)
    && UniqueCompanyEmails(db.companies)
    && UniqueRoleNames(db.roles)
    && UniquePermissionNames(db.globalPerms)
    && UniqueCompanyPermissionNames(db.companyPerms)
  }

  ghost predicate UniqueCompanyEmails(companies: map<Id, Company>) {
    forall a, b | a in companies && b in companies && companies[a].email == companies[b].email :: a == b
  }

  ghost predicate UniqueRoleNames(roles: map<Id, Role>) {
    forall a, b | a in roles && b in roles && roles[a].name == roles[b].name :: a == b
  }

  ghost predicate UniquePermissionNames(perms: map<Id, GlobalPermission>) {
    forall a, b | a in perms && b in perms && perms[a].name == perms[b].name :: a == b
  }

  ghost predicate UniqueCompanyPermissionNames(perms: map<Id, CompanyPermission>) {
    forall a, b | a in perms && b in perms && perms[a].company == perms[b].company && perms[a].name == perms[b].name ::
      a == b
  }

  // The foreign keys into companies, users and roles.

  ghost predicate CompanyRoleRefs(rows: map<CompanyRoleKey, Life>, companies: set<Id>, roles: set<Id>) {
    forall k | k in rows :: k.company in companies && k.role in roles
  }

  ghost predicate MemberRefs(rows: map<MemberKey, Member>, users: set<Id>, companies: set<Id>) {
    forall k | k in rows :: k.user in users && k.company in companies
  }

  ghost predicate CompanyPermissionRefs(rows: map<Id, CompanyPermission>, companies: set<Id>) {
    forall q | q in rows :: rows[q].company in companies
  }

  ghost predicate References(db: Db) {
    && CompanyRoleRefs(db.companyRoles, db.companies.Keys, db.roles.Keys)
    && MemberRefs(db.members, db.users.Keys, db.companies.Keys)
    && CompanyPermissionRefs(db.companyPerms, db.companies.Keys)
  }

  /** Every active membership names an open role that is enabled for its company. */
  ghost predicate MembersOk(members: map<MemberKey, Member>, roles: map<Id, Role>, enabled: map<CompanyRoleKey, Life>) {
    forall k | k in members && members[k].life.Open? ::
      IsOpenRole(roles, members[k].role) && IsEnabled(enabled, k.company, members[k].role)
  }

  /** Every company grant names an enabled company role, an open role and that company's own permission. */
  ghost predicate GrantsOk(grants: map<GrantKey, Life>, roles: map<Id, Role>, enabled: map<CompanyRoleKey, Life>,
                           perms: map<Id, CompanyPermission>)
  {
    forall k | k in grants ::
      && grants[k].Open?
      && IsEnabled(enabled, k.company, k.role) && IsOpenRole(roles, k.role)
      && k.permission in perms && perms[k.permission].company == k.company
  }

  /** Every role link names an open role and an existing permission. */
  ghost predicate LinksOk(links: map<LinkKey, Life>, roles: map<Id, Role>, perms: set<Id>) {
    forall k | k in links :: links[k].Open? && IsOpenRole(roles, k.role) && k.permission in perms
  }

  /** Every platform assignment names an open role. */
  ghost predicate PlatformOk(rows: map<PlatformKey, Life>, users: set<Id>, roles: map<Id, Role>) {
    forall k | k in rows :: rows[k].Open? && k.user in users && IsOpenRole(roles, k.role)
  }

  /** No global permission row is ever closed, and a catalogue id always carries its catalogue name. */
  ghost predicate GlobalPermsOk(p: Policy, perms: map<Id, GlobalPermission>) {
    && (forall g | g in perms :: perms[g].life.Open?)
    && (forall d | d in p.catalogue && d.id in perms :: perms[d.id].name == d.name)
  }

  ghost predicate CompanyPermsOk(perms: map<Id, CompanyPermission>) {
    forall q | q in perms :: perms[q].life.Open?
  }

  ghost predicate Inv(p: Policy, db: Db) {
    && UniqueNames(db) && References(db)
    && MembersOk(db.members, db.roles, db.companyRoles)
    && GrantsOk(db.grants, db.roles, db.companyRoles, db.companyPerms)
    && LinksOk(db.links, db.roles, db.globalPerms.Keys)
    && PlatformOk(db.platformRoles, db.users.Keys, db.roles)
    && GlobalPermsOk(p, db.globalPerms) && CompanyPermsOk(db.companyPerms)
  }

  lemma EmptySatisfiesInv(p: Policy)
    ensures Inv(p, EMPTY)
  {
  }

  /** Schema uniqueness makes a company's role lookup by name deterministic. */
  lemma RoleNamedIs(db: Db, c: Id, name: string, r: Id)
    requires UniqueRoleNames(db.roles) && AssignedRole(db, c, name, r)
    ensures RoleNamed(db, c, name) == Some(r)
  {
  }

  // Service steps --------------------------------------------------------------

  datatype Reason = NotFound | Conflict | BadRequest | Forbidden | IntegrityError

  datatype Outcome = Done | Reassigned(count: nat) | EnabledFor(companies: seq<Id>) | Refused(why: Reason)

  /** What one request does: the states it commits, in order, and what it reports. */
  datatype Step = Step(trail: seq<Db>, outcome: Outcome)

  function Refuse(why: Reason): Step {
    Step([], Refused(why))
  }

  function Commit(db: Db): Step {
    Step([db], Done)
  }

  /** The committed state after a trail that starts from `db`. */
  function Latest(db: Db, trail: seq<Db>): Db {
    if trail == [] then db else trail[|trail| - 1]
  }

  ghost predicate AllInv(p: Policy, trail: seq<Db>) {
    forall i | 0 <= i < |trail| :: Inv(p, trail[i])
  }

  // The database session ---------------------------------------------------------

  /** A session: the rows as its transaction sees them and the rows last committed. */
  class Session {
    var db: Db
    var committed: Db
    ghost var trail: seq<Db>

    constructor (db: Db)
      ensures this.db == committed == db && trail == []
    {
      this.db, committed := db, db;
      trail := [];
    }

    ghost predicate Clean()
      reads this
    {
      db == committed
    }

    /** Exactly the commits of `step` have been made since the old state. */
    twostate predicate Performed(step: Step)
      reads this
    {
      trail == old(trail) + step.trail && committed == Latest(old(committed), step.trail)
    }

    method CommitWork()
      modifies this
      ensures db == committed == old(db) && trail == old(trail) + [db]
    {
      committed := db;
      trail := trail + [db];
    }

    method Rollback()
      modifies this
      ensures db == committed == old(committed) && trail == old(trail)
    {
      db := committed;
    }
  }
}
