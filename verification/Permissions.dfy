/** What each operation on permissions and on their assignment to roles does to the store. */
module Permissions {
  import opened Prelude
  import opened Users
  import opened Store

  /** The fields an update payload carries; an absent field is None. */
  datatype PermissionEdit = PermissionEdit(name: Option<string>, description: Option<Option<string>>)

  // Global permissions ---------------------------------------------------------

  predicate PermissionNameTaken(perms: map<Id, GlobalPermission>, name: string) {
    exists g | g in perms :: perms[g].name == name
  }

  function CreateGlobal(db: Db, id: Id, name: string, description: Option<string>): Step {
    if PermissionNameTaken(db.globalPerms, name) || id in db.globalPerms then Refuse(Conflict)
    else Commit(db.(globalPerms := db.globalPerms[id := GlobalPermission(name, description, Open)]))
  }

  predicate OpenGlobal(db: Db, g: Id) {
    g in db.globalPerms && db.globalPerms[g].life.Open?
  }

  function UpdateGlobal(p: Policy, db: Db, g: Id, edit: PermissionEdit): Step {
    if !OpenGlobal(db, g) then Refuse(NotFound)
    else
      var row := db.globalPerms[g];
      var name := if edit.name.Some? then edit.name.value else row.name;
      if IsSystemId(p, g) && name != row.name then Refuse(Conflict)
      else if exists h | h in db.globalPerms :: h != g && db.globalPerms[h].name == name then Refuse(Conflict)
      else
        var description := if edit.description.Some? then edit.description.value else row.description;
        Commit(db.(globalPerms := db.globalPerms[g := row.(name := name, description := description)]))
  }

  function DeleteGlobal(p: Policy, db: Db, g: Id): Step {
    if !OpenGlobal(db, g) then Refuse(NotFound)
    else if IsSystemId(p, g) then Refuse(Conflict)
    else Commit(db.(
      links := map k | k in db.links && k.permission != g :: db.links[k],
      globalPerms := db.globalPerms - {g}))
  }

  // Company permissions ---------------------------------------------------------

  predicate CompanyNameTaken(db: Db, c: Id, name: string) {
    exists q | q in db.companyPerms :: db.companyPerms[q].company == c && db.companyPerms[q].name == name
  }

  function CreateCompanyPermission(db: Db, c: Id, id: Id, name: string, description: Option<string>): Step {
    if !OpenCompany(db, c) then Refuse(NotFound)
    else if CompanyNameTaken(db, c, name) || id in db.companyPerms then Refuse(Conflict)
    else Commit(db.(companyPerms := db.companyPerms[id := CompanyPermission(c, name, description, Open)]))
  }

  predicate OpenCompanyPermission(db: Db, c: Id, q: Id) {
    q in db.companyPerms && db.companyPerms[q].company == c && db.companyPerms[q].life.Open?
  }

  function UpdateCompanyPermission(db: Db, c: Id, q: Id, edit: PermissionEdit): Step {
    if !OpenCompanyPermission(db, c, q) then Refuse(NotFound)
    else
      var row := db.companyPerms[q];
      var name := if edit.name.Some? then edit.name.value else row.name;
      if exists h | h in db.companyPerms ::
           h != q && db.companyPerms[h].company == c && db.companyPerms[h].name == name then Refuse(Conflict)
      else
        var description := if edit.description.Some? then edit.description.value else row.description;
        Commit(db.(companyPerms := db.companyPerms[q := row.(name := name, description := description)]))
  }

  function DeleteCompanyPermission(db: Db, c: Id, q: Id): Step {
    if !OpenCompanyPermission(db, c, q) then Refuse(NotFound)
    else Commit(db.(
      grants := map k | k in db.grants && !(k.company == c && k.permission == q) :: db.grants[k],
      companyPerms := db.companyPerms - {q}))
  }

  // Assignment to roles and users --------------------------------------------------

  function AssignGlobal(db: Db, r: Id, g: Id): Step {
    if !OpenRole(db, r) || !OpenGlobal(db, g) then Refuse(NotFound)
    else if LinkKey(r, g) in db.links then Refuse(Conflict)
    else Commit(db.(links := db.links[LinkKey(r, g) := Open]))
  }

  function RemoveGlobal(db: Db, r: Id, g: Id): Step {
    if !OpenRole(db, r) || !OpenGlobal(db, g) || LinkKey(r, g) !in db.links then Refuse(NotFound)
    else Commit(db.(links := db.links - {LinkKey(r, g)}))
  }

  function AssignCompany(db: Db, c: Id, r: Id, q: Id): Step {
    if !Enabled(db, c, r) || !OpenRole(db, r) || !OpenCompanyPermission(db, c, q) then Refuse(NotFound)
    else if GrantKey(c, r, q) in db.grants then Refuse(Conflict)
    else Commit(db.(grants := db.grants[GrantKey(c, r, q) := Open]))
  }

  function RemoveCompany(db: Db, c: Id, r: Id, q: Id): Step {
    if !Enabled(db, c, r) || !OpenRole(db, r) || !OpenCompanyPermission(db, c, q) then Refuse(NotFound)
    else if GrantKey(c, r, q) !in db.grants then Refuse(NotFound)
    else Commit(db.(grants := db.grants - {GrantKey(c, r, q)}))
  }

  predicate ActiveUser(db: Db, u: Id) {
    u in db.users && db.users[u].life.Open? && Status(db.users[u]) == Some(ACTIVE)
  }

  function AssignPlatform(db: Db, u: Id, r: Id): Step {
    if !ActiveUser(db, u) || !OpenRole(db, r) then Refuse(NotFound)
    else if PlatformKey(u, r) in db.platformRoles then Refuse(Conflict)
    else Commit(db.(platformRoles := db.platformRoles[PlatformKey(u, r) := Open]))
  }

  function RemovePlatform(db: Db, u: Id, r: Id): Step {
    if !ActiveUser(db, u) || PlatformKey(u, r) !in db.platformRoles then Refuse(NotFound)
    else Commit(db.(platformRoles := db.platformRoles - {PlatformKey(u, r)}))
  }

  // The catalogue ------------------------------------------------------------------

  datatype Resolution = Missing | Present | Clash

  /** The rows that carry a definition's id or its name. */
  function Matches(perms: map<Id, GlobalPermission>, d: Definition): set<Id> {
    set g | g in perms && (g == d.id || perms[g].name == d.name)
  }

  function Resolve(perms: map<Id, GlobalPermission>, d: Definition): Resolution {
    var rows := Matches(perms, d);
    if rows == {} then Missing
    else if rows == {d.id} && perms[d.id].name == d.name then Present
    else Clash
  }

  /** The permission table once the first `n` definitions are in place; None on a conflict. */
  function Ensured(perms: map<Id, GlobalPermission>, catalogue: seq<Definition>, n: nat): Option<map<Id,
                   GlobalPermission>>
    requires n <= |catalogue|
  {
    if n == 0 then Some(perms)
    else
      match Ensured(perms, catalogue, n - 1)
      case None => None
      case Some(before) =>
        var d := catalogue[n - 1];
        match Resolve(before, d)
        case Clash => None
        case Present => Some(before)
        case Missing => Some(before[d.id := GlobalPermission(d.name, Some(d.description), Open)])
  }

  // Facts about the catalogue -----------------------------------------------------------

  /** Some row takes a definition's name under another id, or its id under another name. */
  ghost predicate Conflicts(perms: map<Id, GlobalPermission>, d: Definition) {
    exists g | g in perms :: (g == d.id) != (perms[g].name == d.name)
  }

  /** No row stands in the way of the first `n` definitions. */
  ghost predicate Unclaimed(perms: map<Id, GlobalPermission>, catalogue: seq<Definition>, n: nat)
    requires n <= |catalogue|
  {
    forall i | 0 <= i < n :: !Conflicts(perms, catalogue[i])
  }

  /** Every definition has its row. */
  ghost predicate CatalogueComplete(perms: map<Id, GlobalPermission>, catalogue: seq<Definition>) {
    forall i | 0 <= i < |catalogue| :: catalogue[i].id in perms && perms[catalogue[i].id].name == catalogue[i].name
  }

  lemma ResolveMeans(perms: map<Id, GlobalPermission>, d: Definition)
    ensures Resolve(perms, d).Clash? <==> Conflicts(perms, d)
    ensures Resolve(perms, d).Present? <==> !Conflicts(perms, d) && d.id in perms
  {
    var rows := Matches(perms, d);
    if Conflicts(perms, d) {
      var g :| g in perms && (g == d.id) != (perms[g].name == d.name);
      assert g in rows;
      if rows == {d.id} {
        assert g == d.id;
      }
    } else {
      assert forall g | g in rows :: g == d.id && perms[g].name == d.name;
      assert d.id in perms ==> d.id in rows;
      if rows != {} {
        var g :| g in rows;
        assert rows == {d.id};
      }
    }
  }

  /** What ensuring a prefix yields: the old rows, plus exactly the missing rows of that prefix. */
  ghost predicate FilledIn(perms: map<Id, GlobalPermission>, after: map<Id, GlobalPermission>,
                           catalogue: seq<Definition>, n: nat)
    requires n <= |catalogue|
  {
    && (forall g | g in perms :: g in after && after[g] == perms[g])
    && (forall i | 0 <= i < n && catalogue[i].id !in perms ::
          catalogue[i].id in after
          && after[catalogue[i].id] == GlobalPermission(catalogue[i].name, Some(catalogue[i].description), Open))
    && (forall g | g in after && g !in perms :: exists i | 0 <= i < n :: catalogue[i].id == g)
  }

  lemma SameConflicts(perms: map<Id, GlobalPermission>, before: map<Id, GlobalPermission>, p: Policy, n: nat)
    requires ValidPolicy(p) && n < |p.catalogue|
    requires FilledIn(perms, before, p.catalogue, n)
    ensures Conflicts(perms, p.catalogue[n]) <==> Conflicts(before, p.catalogue[n])
    ensures p.catalogue[n].id in perms <==> p.catalogue[n].id in before
  {
    var d := p.catalogue[n];
    forall g | g in before && g !in perms
      ensures g != d.id && before[g].name != d.name
    {
      var i :| 0 <= i < n && p.catalogue[i].id == g;
    }
  }

  lemma FillNext(perms: map<Id, GlobalPermission>, before: map<Id, GlobalPermission>, p: Policy, n: nat)
    requires ValidPolicy(p) && n < |p.catalogue|
    requires FilledIn(perms, before, p.catalogue, n)
    ensures
      var d := p.catalogue[n];
      var row := GlobalPermission(d.name, Some(d.description), Open);
      FilledIn(perms, if d.id in before then before else before[d.id := row], p.catalogue, n + 1)
  {
    var d := p.catalogue[n];
    SameConflicts(perms, before, p, n);
    forall g | g in before && g !in perms
      ensures exists i | 0 <= i < n + 1 :: p.catalogue[i].id == g
    {
      var i :| 0 <= i < n && p.catalogue[i].id == g;
      assert p.catalogue[i].id == g;
    }
    assert p.catalogue[n].id == d.id;
  }

  /** Earlier insertions never create a conflict: the outcome depends on the starting table alone. */
  lemma {:induction false} EnsuredOutcome(perms: map<Id, GlobalPermission>, p: Policy, n: nat)
    requires ValidPolicy(p) && n <= |p.catalogue|
    ensures Ensured(perms, p.catalogue, n).Some? <==> Unclaimed(perms, p.catalogue, n)
    ensures Ensured(perms, p.catalogue, n).Some? ==>
      FilledIn(perms, Ensured(perms, p.catalogue, n).value, p.catalogue, n)
  {
    if n > 0 {
      var k := n - 1;
      EnsuredOutcome(perms, p, k);
      UnclaimedNext(perms, p.catalogue, k);
      OutcomeNext(perms, p, k);
    }
  }

  lemma OutcomeNext(perms: map<Id, GlobalPermission>, p: Policy, k: nat)
    requires ValidPolicy(p) && k < |p.catalogue|
    requires Ensured(perms, p.catalogue, k).Some? ==>
      FilledIn(perms, Ensured(perms, p.catalogue, k).value, p.catalogue, k)
    ensures Ensured(perms, p.catalogue, k + 1).Some? <==>
      Ensured(perms, p.catalogue, k).Some? && !Conflicts(perms, p.catalogue[k])
    ensures Ensured(perms, p.catalogue, k + 1).Some? ==>
      FilledIn(perms, Ensured(perms, p.catalogue, k + 1).value, p.catalogue, k + 1)
  {
    var earlier := Ensured(perms, p.catalogue, k);
    if earlier.Some? {
      EnsuredNext(perms, earlier.value, p, k);
    }
  }

  lemma UnclaimedNext(perms: map<Id, GlobalPermission>, catalogue: seq<Definition>, n: nat)
    requires n < |catalogue|
    ensures Unclaimed(perms, catalogue, n + 1) <==> Unclaimed(perms, catalogue, n) && !Conflicts(perms, catalogue[n])
  {
  }

  lemma EnsuredNext(perms: map<Id, GlobalPermission>, before: map<Id, GlobalPermission>, p: Policy, n: nat)
    requires ValidPolicy(p) && n < |p.catalogue|
    requires FilledIn(perms, before, p.catalogue, n) && Ensured(perms, p.catalogue, n) == Some(before)
    ensures Ensured(perms, p.catalogue, n + 1).None? <==> Conflicts(perms, p.catalogue[n])
    ensures Ensured(perms, p.catalogue, n + 1).Some? ==>
      FilledIn(perms, Ensured(perms, p.catalogue, n + 1).value, p.catalogue, n + 1)
  {
    ResolveMeans(before, p.catalogue[n]);
    SameConflicts(perms, before, p, n);
    FillNext(perms, before, p, n);
  }
}
