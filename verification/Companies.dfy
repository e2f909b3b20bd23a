/** What each operation on companies does to the store, default roles included. */
module Companies {
  import opened Prelude
  import opened Store
  import Permissions
  import Members

  // Default roles ----------------------------------------------------------------

  predicate OpenRoleNamed(roles: map<Id, Role>, name: string, r: Id) {
    r in roles && roles[r].name == name && roles[r].life.Open?
  }

  ghost function FindOpenRole(roles: map<Id, Role>, name: string): Option<Id> {
    if exists r :: OpenRoleNamed(roles, name, r) then
      var r :| OpenRoleNamed(roles, name, r); Some(r)
    else None
  }

  /** The role table with a default role in place, which row is the role, and which names were new. */
  datatype Defaults = Defaults(roles: map<Id, Role>, chosen: map<string, Id>, created: set<string>)

  /** One default role: keep the open role of its name, else insert; None is the database's refusal. */
  ghost function EnsureDefault(acc: Defaults, d: DefaultRole, id: Id): Option<Defaults> {
    match FindOpenRole(acc.roles, d.name)
    case Some(r) =>
      if r !in acc.roles then None
      else
        var roles := if acc.roles[r].description == Some(d.description) then acc.roles
                     else acc.roles[r := acc.roles[r].(description := Some(d.description))];
        Some(acc.(roles := roles, chosen := acc.chosen[d.name := r]))
    case None =>
      if id in acc.roles || exists r | r in acc.roles :: acc.roles[r].name == d.name then None
      else Some(Defaults(
        acc.roles[id := Role(d.name, Some(d.description), Open)],
        acc.chosen[d.name := id],
        acc.created + {d.name}))
  }

  ghost function EnsureDefaults(roles: map<Id, Role>, defaults: seq<DefaultRole>, ids: seq<Id>,
                                n: nat): Option<Defaults>
    requires n <= |defaults| <= |ids|
  {
    if n == 0 then Some(Defaults(roles, map[], {}))
    else
      match EnsureDefaults(roles, defaults, ids, n - 1)
      case None => None
      case Some(acc) => EnsureDefault(acc, defaults[n - 1], ids[n - 1])
  }

  /** The links that the new roles get: every catalogue permission that names them as a default. */
  function SeedKeys(catalogue: seq<Definition>, chosen: map<string, Id>, created: set<string>): set<LinkKey> {
    set i, name | 0 <= i < |catalogue| && name in catalogue[i].roles && name in created && name in chosen
      :: LinkKey(chosen[name], catalogue[i].id)
  }

  function WithLinks(links: map<LinkKey, Life>, keys: set<LinkKey>): map<LinkKey, Life> {
    map k | k in links.Keys + keys :: if k in links then links[k] else Open
  }

  /** Links for the newly created roles, with the catalogue completed first; nothing if none is new. */
  function SeedNewRoles(p: Policy, db: Db, chosen: map<string, Id>, created: set<string>): Step {
    if created == {} then Commit(db)
    else
      match Permissions.Ensured(db.globalPerms, p.catalogue, |p.catalogue|)
      case None => Refuse(Conflict)
      case Some(perms) =>
        var keys := SeedKeys(p.catalogue, chosen, created);
        if keys * db.links.Keys != {} then Refuse(IntegrityError)
        else Commit(db.(globalPerms := perms, links := WithLinks(db.links, keys)))
  }

  ghost function EnsureDefaultRoles(p: Policy, db: Db, ids: seq<Id>): Step
    requires |ids| == |p.defaults|
  {
    match EnsureDefaults(db.roles, p.defaults, ids, |p.defaults|)
    case None => Refuse(IntegrityError)
    case Some(d) => SeedNewRoles(p, db.(roles := d.roles), d.chosen, d.created)
  }

  // Companies ------------------------------------------------------------------------

  predicate CompanyEmailTaken(db: Db, email: string) {
    exists c | c in db.companies :: db.companies[c].email == email
  }

  function InsertCompany(db: Db, c: Id, email: string): Step {
    if CompanyEmailTaken(db, email) || c in db.companies then Refuse(Conflict)
    else Commit(db.(companies := db.companies[c := Company(email, Open)]))
  }

  function EnableKeys(c: Id, chosen: set<Id>): set<CompanyRoleKey> {
    set r | r in chosen :: CompanyRoleKey(c, r)
  }

  function WithEnabled(rows: map<CompanyRoleKey, Life>, keys: set<CompanyRoleKey>): map<CompanyRoleKey, Life> {
    map k | k in rows.Keys + keys :: if k in rows then rows[k] else Open
  }

  /** Enables the chosen default roles for the company in one transaction. */
  function EnableDefaults(db: Db, c: Id, chosen: set<Id>): Step {
    var keys := EnableKeys(c, chosen);
    if keys * db.companyRoles.Keys != {} then Refuse(IntegrityError)
    else Commit(db.(companyRoles := WithEnabled(db.companyRoles, keys)))
  }

  ghost function ChosenDefaults(p: Policy, db: Db, ids: seq<Id>): set<Id>
    requires |ids| == |p.defaults|
  {
    match EnsureDefaults(db.roles, p.defaults, ids, |p.defaults|)
    case None => {}
    case Some(d) => d.chosen.Values
  }

  /** One step after another in the same request: the second runs on what the first committed. */
  function Then(first: Step, second: Step): Step {
    if first.outcome.Refused? then first else Step(first.trail + second.trail, second.outcome)
  }

  /** The company row, then the default roles. */
  ghost function WithDefaults(p: Policy, db: Db, c: Id, email: string, ids: seq<Id>): Step
    requires |ids| == |p.defaults|
  {
    var insert := InsertCompany(db, c, email);
    Then(insert, EnsureDefaultRoles(p, Latest(db, insert.trail), ids))
  }

  /** The default role rows that a company created now would be given. */
  ghost function DefaultsFor(p: Policy, db: Db, c: Id, email: string, ids: seq<Id>): set<Id>
    requires |ids| == |p.defaults|
  {
    ChosenDefaults(p, Latest(db, InsertCompany(db, c, email).trail), ids)
  }

  /** The company row, the default roles, and their enabling for the company. */
  ghost function WithEnabledDefaults(p: Policy, db: Db, c: Id, email: string, ids: seq<Id>): Step
    requires |ids| == |p.defaults|
  {
    var first := WithDefaults(p, db, c, email, ids);
    Then(first, EnableDefaults(Latest(db, first.trail), c, DefaultsFor(p, db, c, email, ids)))
  }

  /**
   * Creating a company commits four times: the company, the default roles, their enabling, and the
   * creator's membership as owner.  A refusal keeps the commits before it.
   */
  ghost function CreateCompany(p: Policy, db: Db, c: Id, email: string, ids: seq<Id>, creator: string): Step
    requires |ids| == |p.defaults|
  {
    var first := WithEnabledDefaults(p, db, c, email, ids);
    Then(first, Members.AddMember(Latest(db, first.trail), c, creator, Members.OWNER))
  }

  function DeleteCompany(db: Db, c: Id): Step {
    if !OpenCompany(db, c) then Refuse(NotFound)
    else Commit(db.(companies := db.companies[c := db.companies[c].(life := Closed)]))
  }
}
