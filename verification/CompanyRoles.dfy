/** What each operation on global roles and on their enabling for companies does to the store. */
module CompanyRoles {
  import opened Prelude
  import opened Store

  predicate RoleNameTaken(db: Db, name: string) {
    exists r | r in db.roles :: db.roles[r].name == name
  }

  function CreateRole(db: Db, id: Id, name: string, description: Option<string>): Step {
    if RoleNameTaken(db, name) || id in db.roles then Refuse(Conflict)
    else Commit(db.(roles := db.roles[id := Role(name, description, Open)]))
  }

  /** A role row with the given fields of an update payload applied; an empty name counts as absent. */
  function Edited(role: Role, name: Option<string>, description: Option<string>): Role {
    role.(
      name := if name.Some? && name.value != "" then name.value else role.name,
      description := if description.Some? then description else role.description)
  }

  predicate ClashesWithOther(db: Db, r: Id, name: string) {
    exists s | s in db.roles :: s != r && db.roles[s].name == name
  }

  function EditRole(db: Db, r: Id, name: Option<string>, description: Option<string>): Step
    requires r in db.roles
  {
    var role := Edited(db.roles[r], name, description);
    if ClashesWithOther(db, r, role.name) then Refuse(BadRequest)
    else Commit(db.(roles := db.roles[r := role]))
  }

  function UpdateRole(db: Db, r: Id, name: Option<string>, description: Option<string>): Step {
    if !OpenRole(db, r) then Refuse(BadRequest) else EditRole(db, r, name, description)
  }

  ghost function UpdateCompanyRole(db: Db, c: Id, role: string, name: Option<string>,
                                   description: Option<string>): Step {
    match RoleNamed(db, c, role)
    case None => Refuse(BadRequest)
    case Some(r) => if r in db.roles then EditRole(db, r, name, description) else Refuse(BadRequest)
  }

  predicate HeldByMember(db: Db, r: Id) {
    exists k | k in db.members :: db.members[k].role == r && db.members[k].life.Open?
  }

  predicate HeldByPlatformUser(db: Db, r: Id) {
    exists k | k in db.platformRoles :: k.role == r && db.platformRoles[k].Open?
      && k.user in db.users && db.users[k.user].life.Open?
  }

  function WithoutRole(db: Db, r: Id): Db
    requires r in db.roles
  {
    db.(
      links := map k | k in db.links && k.role != r :: db.links[k],
      grants := map k | k in db.grants && k.role != r :: db.grants[k],
      platformRoles := map k | k in db.platformRoles && k.role != r :: db.platformRoles[k],
      roles := db.roles[r := db.roles[r].(life := Closed)])
  }

  function DeleteRole(db: Db, r: Id): Step {
    if !OpenRole(db, r) || HeldByMember(db, r) || HeldByPlatformUser(db, r) then Refuse(BadRequest)
    else Commit(WithoutRole(db, r))
  }

  /** Inserting an assignment row fails on any existing row, open or closed, and on a missing company. */
  function InsertCompanyRole(db: Db, c: Id, r: Id): Step {
    if CompanyRoleKey(c, r) in db.companyRoles || c !in db.companies then Refuse(IntegrityError)
    else Commit(db.(companyRoles := db.companyRoles[CompanyRoleKey(c, r) := Open]))
  }

  function AssignRole(db: Db, c: Id, r: Id): Step {
    if !OpenRole(db, r) then Refuse(NotFound)
    else if Enabled(db, c, r) then Refuse(BadRequest)
    else InsertCompanyRole(db, c, r)
  }

  /** The companies before the first failure, in order, each committed by itself. */
  function AssignEach(db: Db, r: Id, companies: seq<Id>): Step {
    if companies == [] then Step([], EnabledFor([]))
    else
      var n := |companies| - 1;
      var before := AssignEach(db, r, companies[..n]);
      if !before.outcome.EnabledFor? then before
      else
        var now := Latest(db, before.trail);
        if Enabled(now, companies[n], r) then before
        else
          var insert := InsertCompanyRole(now, companies[n], r);
          if insert.outcome.Refused? then Step(before.trail, insert.outcome)
          else Step(before.trail + insert.trail, EnabledFor(before.outcome.companies + [companies[n]]))
  }

  function AssignRoleToCompanies(db: Db, r: Id, companies: seq<Id>): Step {
    if !OpenRole(db, r) then Refuse(NotFound) else AssignEach(db, r, companies)
  }

  predicate HeldInCompany(db: Db, c: Id, r: Id) {
    exists k | k in db.members :: k.company == c && db.members[k].role == r && db.members[k].life.Open?
  }

  /** The assignment closed and the company's grants to the role gone. */
  function WithoutCompanyRole(db: Db, c: Id, r: Id): Db {
    db.(
      companyRoles := db.companyRoles[CompanyRoleKey(c, r) := Closed],
      grants := map k | k in db.grants && !(k.company == c && k.role == r) :: db.grants[k])
  }

  function UnassignRole(db: Db, c: Id, r: Id): Step {
    if !Enabled(db, c, r) then Refuse(NotFound)
    else if HeldInCompany(db, c, r) then Refuse(BadRequest)
    else Commit(WithoutCompanyRole(db, c, r))
  }

  /** The company's active memberships of a role. */
  function Holders(db: Db, c: Id, r: Id): set<MemberKey> {
    set k | k in db.members && k.company == c && db.members[k].role == r && db.members[k].life.Open?
  }

  function MoveMembers(members: map<MemberKey, Member>, who: set<MemberKey>, to: Id): map<MemberKey, Member> {
    map k | k in members :: if k in who then members[k].(role := to) else members[k]
  }

  predicate IsDefaultName(p: Policy, name: string) {
    exists i | 0 <= i < |p.defaults| :: p.defaults[i].name == name
  }

  /** The service's replacement: the request's validator keeps default roles out. */
  ghost function ReplaceRole(p: Policy, db: Db, c: Id, oldName: string, newName: string): Step {
    if IsDefaultName(p, oldName) then Refuse(BadRequest) else ReplaceAssigned(db, c, oldName, newName)
  }

  ghost function ReplaceAssigned(db: Db, c: Id, oldName: string, newName: string): Step {
    if oldName == newName then Refuse(BadRequest)
    else
      match (RoleNamed(db, c, oldName), RoleNamed(db, c, newName))
      case (None, _) => Refuse(BadRequest)
      case (Some(_), None) => Refuse(BadRequest)
      case (Some(r), Some(s)) =>
        var moved := db.(members := MoveMembers(db.members, Holders(db, c, r), s));
        Step([WithoutCompanyRole(moved, c, r)], Reassigned(|Holders(db, c, r)|))
  }

  lemma {:induction false} AssignEachStops(db: Db, r: Id, companies: seq<Id>, n: nat)
    requires n <= |companies|
    requires !AssignEach(db, r, companies[..n]).outcome.EnabledFor?
    ensures AssignEach(db, r, companies) == AssignEach(db, r, companies[..n])
    decreases |companies|
  {
    if n == |companies| {
      assert companies[..n] == companies;
    } else {
      var front := companies[..|companies| - 1];
      assert front[..n] == companies[..n];
      AssignEachStops(db, r, front, n);
    }
  }

  // What enabling a role for a list of companies means ----------------------------------------------

  /** The database refuses to enable the role here: no such company, or a closed row in the way. */
  predicate Blocked(db: Db, r: Id, c: Id) {
    !Enabled(db, c, r) && (c !in db.companies || CompanyRoleKey(c, r) in db.companyRoles)
  }

  /** How many companies of the list come before the first blocked one. */
  function GoodPrefix(db: Db, r: Id, companies: seq<Id>): (k: nat)
    ensures k <= |companies|
    ensures forall i | 0 <= i < k :: !Blocked(db, r, companies[i])
    ensures k < |companies| ==> Blocked(db, r, companies[k])
  {
    if companies == [] || Blocked(db, r, companies[0]) then 0 else 1 + GoodPrefix(db, r, companies[1..])
  }

  /** The first occurrences, in order, of the companies that lack the role to begin with. */
  function NewCompanies(db: Db, r: Id, companies: seq<Id>): seq<Id> {
    if companies == [] then []
    else
      var n := |companies| - 1;
      var before := NewCompanies(db, r, companies[..n]);
      if Enabled(db, companies[n], r) || companies[n] in companies[..n] then before else before + [companies[n]]
  }

  /** The store with the role enabled for these companies too. */
  function EnabledIn(db: Db, r: Id, companies: seq<Id>): Db {
    db.(companyRoles := WithEnabled(db.companyRoles, r, companies))
  }

  function WithEnabled(rows: map<CompanyRoleKey, Life>, r: Id, companies: seq<Id>): map<CompanyRoleKey, Life> {
    map k | k in rows.Keys + (set c | c in companies :: CompanyRoleKey(c, r)) ::
      if k.role == r && k.company in companies then Open else rows[k]
  }

  /** One committed state per company of the list. */
  function EnabledOneByOne(db: Db, r: Id, companies: seq<Id>): seq<Db> {
    seq(|companies|, j requires 0 <= j < |companies| => EnabledIn(db, r, companies[..j + 1]))
  }

  /** The list of new companies has no repeats and holds exactly the listed companies that lack the role. */
  lemma {:induction false} NewCompaniesAre(db: Db, r: Id, companies: seq<Id>)
    ensures Distinct(NewCompanies(db, r, companies))
    ensures forall c :: c in NewCompanies(db, r, companies) <==> c in companies && !Enabled(db, c, r)
  {
    if companies != [] {
      var n := |companies| - 1;
      NewCompaniesAre(db, r, companies[..n]);
      assert companies == companies[..n] + [companies[n]];
    }
  }

  lemma WithNobody(db: Db, r: Id)
    ensures EnabledIn(db, r, []) == db
  {
    assert WithEnabled(db.companyRoles, r, []) == db.companyRoles;
  }

  lemma WithOneMore(rows: map<CompanyRoleKey, Life>, r: Id, companies: seq<Id>, c: Id)
    ensures WithEnabled(rows, r, companies + [c]) == WithEnabled(rows, r, companies)[CompanyRoleKey(c, r) := Open]
  {
  }

  lemma WithEnabledHas(rows: map<CompanyRoleKey, Life>, r: Id, companies: seq<Id>, c: Id)
    ensures CompanyRoleKey(c, r) in WithEnabled(rows, r, companies) <==>
      CompanyRoleKey(c, r) in rows || c in companies
    ensures IsEnabled(WithEnabled(rows, r, companies), c, r) <==> IsEnabled(rows, c, r) || c in companies
  {
    if c in companies {
      assert CompanyRoleKey(c, r) in (set e | e in companies :: CompanyRoleKey(e, r));
    }
  }

  lemma OneByOneMore(db: Db, r: Id, companies: seq<Id>, c: Id)
    ensures EnabledOneByOne(db, r, companies + [c]) ==
      EnabledOneByOne(db, r, companies) + [EnabledIn(db, r, companies + [c])]
  {
    assert forall j | 0 < j <= |companies| :: (companies + [c])[..j] == companies[..j];
    assert (companies + [c])[..|companies| + 1] == companies + [c];
  }

  lemma LatestOneByOne(db: Db, r: Id, companies: seq<Id>)
    ensures Latest(db, EnabledOneByOne(db, r, companies)) == EnabledIn(db, r, companies)
  {
    if companies == [] {
      WithNobody(db, r);
    } else {
      assert companies[..|companies|] == companies;
    }
  }

  /** A list without a blocked company: every company that lacked the role gets it, in a commit of its own. */
  lemma {:induction false} AssignEachGood(db: Db, r: Id, companies: seq<Id>)
    requires forall c | c in companies :: !Blocked(db, r, c)
    ensures AssignEach(db, r, companies) ==
      Step(EnabledOneByOne(db, r, NewCompanies(db, r, companies)), EnabledFor(NewCompanies(db, r, companies)))
  {
    if companies != [] {
      var n := |companies| - 1;
      var c := companies[n];
      AssignEachGood(db, r, companies[..n]);
      AssignNext(db, r, companies[..n], c);
      var added := NewCompanies(db, r, companies[..n]);
      OneByOneMore(db, r, added, c);
      WithOneMore(db.companyRoles, r, added, c);
    }
  }

  /** The next company, once those before it have been served. */
  lemma AssignNext(db: Db, r: Id, before: seq<Id>, c: Id)
    ensures
      var added := NewCompanies(db, r, before);
      var now := Latest(db, EnabledOneByOne(db, r, added));
      && now == EnabledIn(db, r, added)
      && (Enabled(now, c, r) <==> Enabled(db, c, r) || c in before)
      && (!Enabled(now, c, r) ==> (InsertCompanyRole(now, c, r).outcome.Refused? <==> Blocked(db, r, c)))
  {
    var added := NewCompanies(db, r, before);
    LatestOneByOne(db, r, added);
    NewCompaniesAre(db, r, before);
    WithEnabledHas(db.companyRoles, r, added, c);
  }

  /**
   * The companies before the first blocked one are served, each in a commit of its own; the whole list is
   * served, and the newly enabled reported, exactly if none is blocked.
   */
  lemma AssignEachMeans(db: Db, r: Id, companies: seq<Id>)
    ensures
      var k := GoodPrefix(db, r, companies);
      var added := NewCompanies(db, r, companies[..k]);
      AssignEach(db, r, companies) ==
        Step(EnabledOneByOne(db, r, added), if k == |companies| then EnabledFor(added) else Refused(IntegrityError))
  {
    var k := GoodPrefix(db, r, companies);
    if k == |companies| {
      AssignEachGood(db, r, companies);
      assert companies[..k] == companies;
    } else {
      AssignEachBlocked(db, r, companies[..k], companies[k]);
      assert companies[..k] + [companies[k]] == companies[..k + 1];
      AssignEachStops(db, r, companies, k + 1);
    }
  }

  /** The loop stops at the first blocked company, with the earlier commits kept. */
  lemma AssignEachBlocked(db: Db, r: Id, before: seq<Id>, c: Id)
    requires (forall e | e in before :: !Blocked(db, r, e)) && Blocked(db, r, c)
    ensures AssignEach(db, r, before + [c]) ==
      Step(EnabledOneByOne(db, r, NewCompanies(db, r, before)), Refused(IntegrityError))
  {
    AssignEachGood(db, r, before);
    AssignNext(db, r, before, c);
    BlockedIsNotServed(db, r, before, c);
    assert (before + [c])[..|before|] == before;
  }

  lemma BlockedIsNotServed(db: Db, r: Id, before: seq<Id>, c: Id)
    requires forall e | e in before :: !Blocked(db, r, e)
    requires Blocked(db, r, c)
    ensures c !in before
  {
  }

  /** Enabling a role for a list of companies succeeds exactly if each exists and has no closed row for the role. */
  lemma AssignToCompaniesIff(db: Db, r: Id, companies: seq<Id>)
    ensures
      var step := AssignRoleToCompanies(db, r, companies);
      && (step.outcome.EnabledFor? <==> OpenRole(db, r) && forall c | c in companies :: !Blocked(db, r, c))
      && (step.outcome.EnabledFor? ==>
            && step.outcome.companies == NewCompanies(db, r, companies)
            && (forall c, s :: Enabled(Latest(db, step.trail), c, s) <==>
                  Enabled(db, c, s) || (s == r && c in companies)))
  {
    AssignEachMeans(db, r, companies);
    var k := GoodPrefix(db, r, companies);
    if k == |companies| {
      assert companies[..k] == companies;
      var added := NewCompanies(db, r, companies);
      NewCompaniesAre(db, r, companies);
      LatestOneByOne(db, r, added);
      forall c, s
        ensures Enabled(EnabledIn(db, r, added), c, s) <==> Enabled(db, c, s) || (s == r && c in added)
      {
        if s == r {
          WithEnabledHas(db.companyRoles, r, added, c);
        }
      }
    } else {
      assert companies[k] in companies;
    }
  }
}
