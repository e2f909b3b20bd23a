/** The schemas that the data migrations move between, and the meaning that they must preserve. */
module LegacySchema {
  import opened Prelude

  /** A primary key: an old integer or a new UUID. */
  datatype Key = Number(n: int) | Uuid(text: string)

  /** The columns that the migrations copy without looking at them. */
  type Columns = map<string, string>

  const CLOSED_KEY := "_closed_at"

  /** A row whose closing time is null; a null column is absent. */
  predicate IsOpen(rest: Columns) {
    CLOSED_KEY !in rest
  }

  datatype UserRow = UserRow(id: Key, email: string, rest: Columns)
  datatype CompanyRow = CompanyRow(id: Key, email: string, rest: Columns)

  /** A role of one company, keyed by company and name. */
  datatype RoleRow = RoleRow(company: Key, name: string, description: Option<string>, rest: Columns)

  /** A membership with the oldest schema's free-text level. */
  datatype LevelMember = LevelMember(user: Key, company: Key, level: Option<string>, secondary: Columns, rest: Columns)

  /** A membership that names a role of its company. */
  datatype NamedMember = NamedMember(user: Key, company: Key, role: string, secondary: Columns, rest: Columns)

  datatype LevelDb =
    LevelDb(users: seq<UserRow>, companies: seq<CompanyRow>, roles: seq<RoleRow>, members: seq<LevelMember>)

  datatype NamedDb =
    NamedDb(users: seq<UserRow>, companies: seq<CompanyRow>, roles: seq<RoleRow>, members: seq<NamedMember>)

  // Ids and foreign keys ------------------------------------------------------------------

  function UserIds(users: seq<UserRow>): seq<Key> {
    seq(|users|, i requires 0 <= i < |users| => users[i].id)
  }

  function CompanyIds(companies: seq<CompanyRow>): seq<Key> {
    seq(|companies|, i requires 0 <= i < |companies| => companies[i].id)
  }

  function RoleKeys(roles: seq<RoleRow>): seq<(Key, string)> {
    seq(|roles|, i requires 0 <= i < |roles| => (roles[i].company, roles[i].name))
  }

  ghost predicate DistinctPairs(members: seq<NamedMember>) {
    forall i, j | 0 <= i < j < |members| ::
      members[i].user != members[j].user || members[i].company != members[j].company
  }

  ghost predicate RolesResolve(roles: seq<RoleRow>, companies: seq<CompanyRow>) {
    forall i | 0 <= i < |roles| :: roles[i].company in CompanyIds(companies)
  }

  ghost predicate PeopleResolve(members: seq<NamedMember>, users: seq<UserRow>, companies: seq<CompanyRow>) {
    forall i | 0 <= i < |members| ::
      members[i].user in UserIds(users) && members[i].company in CompanyIds(companies)
  }

  /** The composite foreign key of a membership to a role of its company. */
  ghost predicate RoleNamesResolve(members: seq<NamedMember>, roles: seq<RoleRow>) {
    forall i | 0 <= i < |members| :: (members[i].company, members[i].role) in RoleKeys(roles)
  }

  /** Primary keys are unique and every foreign key resolves. */
  ghost predicate WellFormed(db: NamedDb) {
    && Distinct(UserIds(db.users)) && Distinct(CompanyIds(db.companies)) && Distinct(RoleKeys(db.roles))
    && DistinctPairs(db.members)
    && RolesResolve(db.roles, db.companies)
    && PeopleResolve(db.members, db.users, db.companies)
    && RoleNamesResolve(db.members, db.roles)
  }

  /** The role name that a level stands for. */
  function LevelName(level: Option<string>): string {
    if level.Some? then level.value else "Member"
  }

  /** A membership with its level read as a role name. */
  function Named(m: LevelMember): NamedMember {
    NamedMember(m.user, m.company, LevelName(m.level), m.secondary, m.rest)
  }

  function NamedAll(members: seq<LevelMember>): seq<NamedMember> {
    seq(|members|, i requires 0 <= i < |members| => Named(members[i]))
  }

  ghost predicate WellFormedLevels(db: LevelDb) {
    && Distinct(UserIds(db.users)) && Distinct(CompanyIds(db.companies)) && Distinct(RoleKeys(db.roles))
    && DistinctPairs(NamedAll(db.members))
    && RolesResolve(db.roles, db.companies)
    && PeopleResolve(NamedAll(db.members), db.users, db.companies)
  }

  // The meaning: rows joined down to emails and names -----------------------------------------

  /** What a membership says: who belongs where, and as what. */
  datatype Fact = Fact(user: Option<string>, company: Option<string>, role: Option<string>)

  /** What a role row says. */
  datatype RoleFact = RoleFact(company: Option<string>, name: string, description: Option<string>)

  function UserEmail(users: seq<UserRow>, id: Key): Option<string> {
    if users == [] then None
    else if users[0].id == id then Some(users[0].email)
    else UserEmail(users[1..], id)
  }

  function CompanyEmail(companies: seq<CompanyRow>, id: Key): Option<string> {
    if companies == [] then None
    else if companies[0].id == id then Some(companies[0].email)
    else CompanyEmail(companies[1..], id)
  }

  function FactOf(users: seq<UserRow>, companies: seq<CompanyRow>, m: NamedMember): Fact {
    Fact(UserEmail(users, m.user), CompanyEmail(companies, m.company), Some(m.role))
  }

  function Facts(users: seq<UserRow>, companies: seq<CompanyRow>, members: seq<NamedMember>): seq<Fact> {
    seq(|members|, i requires 0 <= i < |members| => FactOf(users, companies, members[i]))
  }

  function RoleFacts(companies: seq<CompanyRow>, roles: seq<RoleRow>): seq<RoleFact> {
    seq(|roles|, i requires 0 <= i < |roles| =>
      RoleFact(CompanyEmail(companies, roles[i].company), roles[i].name, roles[i].description))
  }

  /** A resolved foreign key has an email. */
  lemma {:induction false} ResolvedUserHasEmail(users: seq<UserRow>, id: Key)
    requires id in UserIds(users)
    ensures UserEmail(users, id).Some?
  {
    var i :| 0 <= i < |users| && users[i].id == id;
    if i > 0 {
      assert users[1..][i - 1].id == id;
      assert UserIds(users[1..])[i - 1] == id;
      ResolvedUserHasEmail(users[1..], id);
    }
  }

  lemma {:induction false} ResolvedCompanyHasEmail(companies: seq<CompanyRow>, id: Key)
    requires id in CompanyIds(companies)
    ensures CompanyEmail(companies, id).Some?
  {
    var i :| 0 <= i < |companies| && companies[i].id == id;
    if i > 0 {
      assert companies[1..][i - 1].id == id;
      assert CompanyIds(companies[1..])[i - 1] == id;
      ResolvedCompanyHasEmail(companies[1..], id);
    }
  }
}
