/** Whether memberships still work after role normalisation: closing times, row by row. */
module MigratedAccess {
  import opened Prelude
  import opened LegacySchema
  import opened RowOrder
  import opened RoleMigration

  /** The membership names an open role of the catalogue and an open company_role row. */
  ghost predicate Usable(db: GlobalDb, m: RoleMember) {
    HasOpenRole(db.roles, m.role) && HasOpenCompanyRole(db.companyRoles, m.company, m.role)
  }

  predicate HasOpenRole(roles: seq<GlobalRole>, id: Key) {
    exists g | g in roles :: g.id == id && IsOpen(g.rest)
  }

  predicate HasOpenCompanyRole(rows: seq<CompanyRoleRow>, company: Key, role: Key) {
    exists row | row in rows :: row.company == company && row.role == role && IsOpen(row.rest)
  }

  /** Every open membership can be used. */
  ghost predicate MembersUsable(db: GlobalDb) {
    forall m | m in db.members && IsOpen(m.rest) :: Usable(db, m)
  }

  // The condition on the old rows --------------------------------------------------------------------

  predicate IsFirstRow(roles: seq<RoleRow>, name: string, i: nat)
    requires i < |roles|
  {
    roles[i].name == name && forall j | 0 <= j < i :: roles[j].name != name
  }

  /** The first row of the name, whichever company it belongs to, is open. */
  predicate FirstRowOpen(roles: seq<RoleRow>, name: string) {
    exists i | 0 <= i < |roles| :: IsFirstRow(roles, name, i) && IsOpen(roles[i].rest)
  }

  /** The company's own row of the name is open. */
  predicate OwnRowOpen(roles: seq<RoleRow>, company: Key, name: string) {
    exists row | row in roles :: row.company == company && row.name == name && IsOpen(row.rest)
  }

  lemma {:induction false} FirstRowExists(roles: seq<RoleRow>, name: string) returns (i: nat)
    requires name in NamesOf(roles)
    ensures i < |roles| && IsFirstRow(roles, name, i)
  {
    var n := |roles| - 1;
    if name in NamesOf(roles[..n]) {
      i := FirstRowExists(roles[..n], name);
    } else {
      i := n;
      forall j | 0 <= j < n
        ensures roles[j].name != name
      {
        NameIsListed(roles[..n], j);
      }
    }
  }

  /** The catalogue row of a name is open exactly if the first old row of the name is. */
  lemma CatalogueOpenIff(roles: seq<RoleRow>, draws: seq<string>, name: string)
    requires |roles| <= |draws| && Distinct(draws) && name in NamesOf(roles)
    ensures |NamesOf(roles)| <= |draws|
    ensures HasOpenRole(Catalogue(roles, draws), IdOf(roles, draws, name)) <==> FirstRowOpen(roles, name)
  {
    CatalogueIsKeyed(roles, draws);
    var catalogue := Catalogue(roles, draws);
    var place := PlaceOf(NamesOf(roles), name);
    var i := FirstRowExists(roles, name);
    FirstRestIs(roles, i);
    assert catalogue[place] in catalogue && catalogue[place].id == IdOf(roles, draws, name);
    assert catalogue[place].rest == roles[i].rest;
    assert forall k | 0 <= k < |roles| && IsFirstRow(roles, name, k) :: k == i;
  }

  /** A company_role row is open exactly if the old row of that company and name is. */
  lemma CompanyRoleOpenIff(before: NamedDb, draws: seq<string>, after: GlobalDb, company: Key, name: string)
    requires |before.roles| <= |draws| && Distinct(draws) && Normalises(before, draws, after)
    requires name in NamesOf(before.roles)
    ensures |NamesOf(before.roles)| <= |draws|
    ensures HasOpenCompanyRole(after.companyRoles, company, IdOf(before.roles, draws, name)) <==>
      OwnRowOpen(before.roles, company, name)
  {
    var roles := before.roles;
    CatalogueIsKeyed(roles, draws);
    var id := IdOf(roles, draws, name);
    forall j | 0 <= j < |roles|
      ensures after.companyRoles[j].company == roles[j].company && after.companyRoles[j].rest == roles[j].rest
      ensures after.companyRoles[j].role == id <==> roles[j].name == name
    {
      assert CompanyRoleMoved(roles, draws, j, after.companyRoles[j]);
      NameIsListed(roles, j);
      assert RoleName(after.roles, IdOf(roles, draws, roles[j].name)) == Some(roles[j].name);
      assert RoleName(after.roles, id) == Some(name);
    }
    if HasOpenCompanyRole(after.companyRoles, company, id) {
      var j :| 0 <= j < |after.companyRoles| && after.companyRoles[j].company == company
        && after.companyRoles[j].role == id && IsOpen(after.companyRoles[j].rest);
      assert roles[j] in roles;
    }
    if OwnRowOpen(roles, company, name) {
      var j :| 0 <= j < |roles| && roles[j].company == company && roles[j].name == name && IsOpen(roles[j].rest);
      assert after.companyRoles[j] in after.companyRoles;
    }
  }

  /** A membership can be used exactly if the first row of its role's name and its own company's row are open. */
  lemma UsableIff(before: NamedDb, draws: seq<string>, after: GlobalDb, i: nat)
    requires |before.roles| <= |draws| && Distinct(draws) && Normalises(before, draws, after)
    requires i < |before.members|
    ensures i < |after.members| && after.members[i].rest == before.members[i].rest
    ensures
      var m := before.members[i];
      Usable(after, after.members[i]) <==>
        FirstRowOpen(before.roles, m.role) && OwnRowOpen(before.roles, m.company, m.role)
  {
    assert MemberMoved(before.members[i], before.roles, draws, after.members[i]);
    CatalogueOpenIff(before.roles, draws, before.members[i].role);
    CompanyRoleOpenIff(before, draws, after, before.members[i].company, before.members[i].role);
  }

  /** What the old rows must satisfy: for each open membership, both rows open. */
  ghost predicate RowsOpenFor(roles: seq<RoleRow>, members: seq<NamedMember>) {
    forall i | 0 <= i < |members| && IsOpen(members[i].rest) ::
      FirstRowOpen(roles, members[i].role) && OwnRowOpen(roles, members[i].company, members[i].role)
  }

  /** Every open membership can be used after normalisation exactly if its two old rows are open. */
  lemma MembersUsableIff(before: NamedDb, draws: seq<string>, after: GlobalDb)
    requires |before.roles| <= |draws| && Distinct(draws) && Normalises(before, draws, after)
    ensures MembersUsable(after) <==> RowsOpenFor(before.roles, before.members)
  {
    forall i | 0 <= i < |before.members|
      ensures after.members[i].rest == before.members[i].rest
      ensures Usable(after, after.members[i]) <==>
        FirstRowOpen(before.roles, before.members[i].role)
        && OwnRowOpen(before.roles, before.members[i].company, before.members[i].role)
    {
      UsableIff(before, draws, after, i);
    }
    if MembersUsable(after) {
      forall i | 0 <= i < |before.members| && IsOpen(before.members[i].rest)
        ensures Usable(after, after.members[i])
      {
        assert after.members[i] in after.members;
      }
    }
  }

  // The condition that does not depend on the order of the rows --------------------------------------------

  /** No row of the name, whichever company it belongs to, is closed. */
  predicate NameOpen(roles: seq<RoleRow>, name: string) {
    forall row | row in roles && row.name == name :: IsOpen(row.rest)
  }

  ghost predicate NamesOpenFor(roles: seq<RoleRow>, members: seq<NamedMember>) {
    forall i | 0 <= i < |members| && IsOpen(members[i].rest) :: NameOpen(roles, members[i].role)
  }

  /** Then both rows of a membership are open, whichever row comes first. */
  lemma OpenNamesSuffice(db: NamedDb)
    requires RoleNamesResolve(db.members, db.roles) && NamesOpenFor(db.roles, db.members)
    ensures RowsOpenFor(db.roles, db.members)
  {
    forall i | 0 <= i < |db.members| && IsOpen(db.members[i].rest)
      ensures FirstRowOpen(db.roles, db.members[i].role)
      ensures OwnRowOpen(db.roles, db.members[i].company, db.members[i].role)
    {
      var m := db.members[i];
      var own :| 0 <= own < |db.roles| && RoleKeys(db.roles)[own] == (m.company, m.role);
      assert db.roles[own] in db.roles;
      NameIsListed(db.roles, own);
      var first := FirstRowExists(db.roles, m.role);
      assert db.roles[first] in db.roles;
    }
  }

  /** A closed row read first is the row that the catalogue copies. */
  lemma ClosedRowFirst(roles: seq<RoleRow>, k: nat)
    requires k < |roles| && !IsOpen(roles[k].rest)
    ensures !FirstRowOpen(Foremost(roles, k), roles[k].name)
  {
    assert IsFirstRow(Foremost(roles, k), roles[k].name, 0);
  }

  // A database in which one company's closed role takes access from another ----------------------------

  const FIRST := Uuid("first")
  const SECOND := Uuid("second")
  const PERSON := Uuid("person")

  /** The first company has closed its "Auditor"; the second company's "Auditor" and its holder are open. */
  const TWO_COMPANIES := NamedDb(
    [UserRow(PERSON, "person@example.com", map[])],
    [CompanyRow(FIRST, "first@example.com", map[]), CompanyRow(SECOND, "second@example.com", map[])],
    [RoleRow(FIRST, "Auditor", None, map[CLOSED_KEY := "2026-01-01"]), RoleRow(SECOND, "Auditor", None, map[])],
    [NamedMember(PERSON, SECOND, "Auditor", map[], map[])])

  lemma TwoCompaniesAreWellFormed()
    ensures WellFormed(TWO_COMPANIES)
  {
    assert UserIds(TWO_COMPANIES.users)[0] == PERSON;
    assert CompanyIds(TWO_COMPANIES.companies)[0] == FIRST && CompanyIds(TWO_COMPANIES.companies)[1] == SECOND;
    assert RoleKeys(TWO_COMPANIES.roles)[1] == (SECOND, "Auditor");
  }

  /** After normalisation the second company's open membership names a closed role. */
  lemma ClosedRoleSpreads(draws: seq<string>, after: GlobalDb)
    requires 2 <= |draws| && Distinct(draws) && Normalises(TWO_COMPANIES, draws, after)
    ensures WellFormed(TWO_COMPANIES)
    ensures OwnRowOpen(TWO_COMPANIES.roles, SECOND, "Auditor")
    ensures |after.members| == 1 && IsOpen(after.members[0].rest) && !Usable(after, after.members[0])
  {
    TwoCompaniesAreWellFormed();
    UsableIff(TWO_COMPANIES, draws, after, 0);
    assert TWO_COMPANIES.roles[1] in TWO_COMPANIES.roles;
    assert IsFirstRow(TWO_COMPANIES.roles, "Auditor", 0);
  }
}
