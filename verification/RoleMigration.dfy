/** The migration from company-scoped roles to one global role catalogue. */
module RoleMigration {
  import opened Prelude
  import opened LegacySchema

  datatype GlobalRole = GlobalRole(id: Key, name: string, description: Option<string>, rest: Columns)
  datatype CompanyRoleRow = CompanyRoleRow(company: Key, role: Key, rest: Columns)
  datatype RoleMember = RoleMember(user: Key, company: Key, role: Key, secondary: Columns, rest: Columns)

  datatype GlobalDb = GlobalDb(
    users: seq<UserRow>, companies: seq<CompanyRow>,
    roles: seq<GlobalRole>, companyRoles: seq<CompanyRoleRow>, members: seq<RoleMember>)

  const LEGACY_KEY := "_legacy_role_name"

  // What the loop over the old roles amounts to ------------------------------------------------

  /** The distinct role names, in order of first occurrence. */
  function NamesOf(roles: seq<RoleRow>): seq<string> {
    if roles == [] then []
    else
      var n := |roles| - 1;
      var before := NamesOf(roles[..n]);
      if roles[n].name in before then before else before + [roles[n].name]
  }

  /** The first description, in row order, that is not null among the rows of a name. */
  function FirstDescription(roles: seq<RoleRow>, name: string): Option<string> {
    if roles == [] then None
    else
      var n := |roles| - 1;
      var before := FirstDescription(roles[..n], name);
      if before.Some? then before
      else if roles[n].name == name then roles[n].description
      else None
  }

  /** The copied columns of the first row of a name. */
  function FirstRest(roles: seq<RoleRow>, name: string): Columns {
    if roles == [] then map[]
    else
      var n := |roles| - 1;
      if name in NamesOf(roles[..n]) then FirstRest(roles[..n], name)
      else if roles[n].name == name then roles[n].rest
      else map[]
  }

  function PlaceOf(names: seq<string>, name: string): (i: nat)
    requires name in names
    ensures i < |names| && names[i] == name
  {
    if names[0] == name then 0 else 1 + PlaceOf(names[1..], name)
  }

  /** The global id of a role name: the draw made at the name's first occurrence. */
  function IdOf(roles: seq<RoleRow>, draws: seq<string>, name: string): Key
    requires name in NamesOf(roles) && |NamesOf(roles)| <= |draws|
  {
    Uuid(draws[PlaceOf(NamesOf(roles), name)])
  }

  function CatalogueRow(roles: seq<RoleRow>, draws: seq<string>, i: nat): GlobalRole
    requires i < |NamesOf(roles)| <= |draws|
  {
    var name := NamesOf(roles)[i];
    GlobalRole(Uuid(draws[i]), name, FirstDescription(roles, name), FirstRest(roles, name))
  }

  /** One global role per distinct name. */
  function Catalogue(roles: seq<RoleRow>, draws: seq<string>): seq<GlobalRole>
    requires |NamesOf(roles)| <= |draws|
  {
    seq(|NamesOf(roles)|, i requires 0 <= i < |NamesOf(roles)| => CatalogueRow(roles, draws, i))
  }

  lemma {:induction false} NameIsListed(roles: seq<RoleRow>, i: nat)
    requires i < |roles|
    ensures roles[i].name in NamesOf(roles)
  {
    var n := |roles| - 1;
    if i < n {
      NameIsListed(roles[..n], i);
    }
  }

  lemma {:induction false} ListedIsName(roles: seq<RoleRow>, name: string)
    requires name in NamesOf(roles)
    ensures exists i | 0 <= i < |roles| :: roles[i].name == name
  {
    var n := |roles| - 1;
    if name in NamesOf(roles[..n]) {
      ListedIsName(roles[..n], name);
      var i :| 0 <= i < n && roles[..n][i].name == name;
      assert roles[i].name == name;
    } else {
      assert roles[n].name == name;
    }
  }

  lemma {:induction false} NamesAreDistinct(roles: seq<RoleRow>)
    ensures Distinct(NamesOf(roles)) && |NamesOf(roles)| <= |roles|
  {
    if roles != [] {
      NamesAreDistinct(roles[..|roles| - 1]);
    }
  }

  lemma {:induction false} PlaceOfIs(names: seq<string>, i: nat)
    requires Distinct(names) && i < |names|
    ensures PlaceOf(names, names[i]) == i
  {
    if i > 0 {
      assert names[0] != names[i];
      assert names[1..][i - 1] == names[i];
      PlaceOfIs(names[1..], i - 1);
    }
  }

  /** A longer list keeps the places of its prefix. */
  lemma {:induction false} PlaceOfPrefix(names: seq<string>, more: seq<string>, name: string)
    requires name in names
    ensures PlaceOf(names + more, name) == PlaceOf(names, name)
  {
    if names[0] != name {
      assert (names + more)[1..] == names[1..] + more;
      PlaceOfPrefix(names[1..], more, name);
    }
  }

  lemma IdOfPrefix(roles: seq<RoleRow>, n: nat, draws: seq<string>, name: string)
    requires n < |roles| && name in NamesOf(roles[..n]) && |roles| <= |draws|
    ensures name in NamesOf(roles[..n + 1])
    ensures |NamesOf(roles[..n])| <= |draws| && |NamesOf(roles[..n + 1])| <= |draws|
    ensures IdOf(roles[..n + 1], draws, name) == IdOf(roles[..n], draws, name)
  {
    NamesAreDistinct(roles[..n]);
    NamesAreDistinct(roles[..n + 1]);
    assert roles[..n + 1][..n] == roles[..n];
    PlaceOfPrefix(NamesOf(roles[..n]), [roles[n].name], name);
  }

  lemma {:induction false} IdOfGrows(roles: seq<RoleRow>, n: nat, draws: seq<string>, name: string)
    requires n <= |roles| <= |draws| && name in NamesOf(roles[..n])
    ensures name in NamesOf(roles)
    ensures |NamesOf(roles[..n])| <= |draws| && |NamesOf(roles)| <= |draws|
    ensures IdOf(roles, draws, name) == IdOf(roles[..n], draws, name)
    decreases |roles| - n
  {
    NamesAreDistinct(roles);
    NamesAreDistinct(roles[..n]);
    if n == |roles| {
      assert roles[..n] == roles;
    } else {
      IdOfPrefix(roles, n, draws, name);
      IdOfGrows(roles, n + 1, draws, name);
    }
  }

  // Descriptions ------------------------------------------------------------------------------

  /** The description of a name is the first in row order that is not null, or null if there is none. */
  lemma {:induction false} FirstDescriptionIs(roles: seq<RoleRow>, name: string)
    ensures FirstDescription(roles, name).None? <==>
      forall i | 0 <= i < |roles| && roles[i].name == name :: roles[i].description.None?
    ensures FirstDescription(roles, name).Some? ==> exists i | 0 <= i < |roles| :: IsFirstDescribed(roles, name, i)
  {
    if roles != [] {
      var n := |roles| - 1;
      var front := roles[..n];
      FirstDescriptionIs(front, name);
      if FirstDescription(front, name).Some? {
        var i :| 0 <= i < n && IsFirstDescribed(front, name, i);
        assert IsFirstDescribed(roles, name, i);
      } else if roles[n].name == name && roles[n].description.Some? {
        assert forall j | 0 <= j < n :: front[j] == roles[j];
        assert IsFirstDescribed(roles, name, n);
      } else {
        assert forall j | 0 <= j < n :: front[j] == roles[j];
      }
    }
  }

  ghost predicate IsFirstDescribed(roles: seq<RoleRow>, name: string, i: nat)
    requires i < |roles|
  {
    && roles[i].name == name && roles[i].description.Some?
    && FirstDescription(roles, name) == roles[i].description
    && (forall j | 0 <= j < i && roles[j].name == name :: roles[j].description.None?)
  }

  /** The copied columns of a name, its closing time among them, are those of its first row. */
  lemma {:induction false} FirstRestIs(roles: seq<RoleRow>, i: nat)
    requires i < |roles| && forall j | 0 <= j < i :: roles[j].name != roles[i].name
    ensures FirstRest(roles, roles[i].name) == roles[i].rest
  {
    var n := |roles| - 1;
    if i < n {
      NameIsListed(roles[..n], i);
      FirstRestIs(roles[..n], i);
    } else if roles[n].name in NamesOf(roles[..n]) {
      ListedIsName(roles[..n], roles[n].name);
      assert false;
    }
  }

  // One step of the loop ----------------------------------------------------------------------

  lemma {:induction false} UnlistedIsUndescribed(roles: seq<RoleRow>, name: string)
    requires name !in NamesOf(roles)
    ensures FirstDescription(roles, name).None?
  {
    if roles != [] {
      UnlistedIsUndescribed(roles[..|roles| - 1], name);
    }
  }

  lemma NextNames(p: seq<RoleRow>, row: RoleRow)
    ensures NamesOf(p + [row]) == NamesOf(p) + (if row.name in NamesOf(p) then [] else [row.name])
    ensures |NamesOf(p)| <= |p|
  {
    assert (p + [row])[..|p|] == p;
    NamesAreDistinct(p);
  }

  lemma NextDescription(p: seq<RoleRow>, row: RoleRow, name: string)
    ensures FirstDescription(p + [row], name) ==
      if FirstDescription(p, name).Some? || row.name != name then FirstDescription(p, name) else row.description
  {
    assert (p + [row])[..|p|] == p;
  }

  lemma NextRest(p: seq<RoleRow>, row: RoleRow, name: string)
    requires name in NamesOf(p)
    ensures FirstRest(p + [row], name) == FirstRest(p, name)
  {
    assert (p + [row])[..|p|] == p;
  }

  lemma NextId(p: seq<RoleRow>, row: RoleRow, draws: seq<string>, name: string)
    requires |p| < |draws| && name in NamesOf(p)
    ensures name in NamesOf(p + [row])
    ensures |NamesOf(p)| <= |draws| && |NamesOf(p + [row])| <= |draws|
    ensures IdOf(p + [row], draws, name) == IdOf(p, draws, name)
  {
    assert (p + [row])[..|p|] == p && (p + [row])[..|p| + 1] == p + [row];
    IdOfPrefix(p + [row], |p|, draws, name);
  }

  lemma NewNameId(p: seq<RoleRow>, row: RoleRow, draws: seq<string>)
    requires |p| < |draws| && row.name !in NamesOf(p)
    ensures row.name in NamesOf(p + [row])
    ensures |NamesOf(p)| < |draws| && |NamesOf(p + [row])| <= |draws|
    ensures IdOf(p + [row], draws, row.name) == Uuid(draws[|NamesOf(p)|])
  {
    NextNames(p, row);
    NamesAreDistinct(p + [row]);
    PlaceOfIs(NamesOf(p + [row]), |NamesOf(p)|);
  }

  lemma NewRest(p: seq<RoleRow>, row: RoleRow)
    requires row.name !in NamesOf(p)
    ensures FirstRest(p + [row], row.name) == row.rest
  {
    assert (p + [row])[..|p|] == p;
  }

  lemma OtherRow(p: seq<RoleRow>, row: RoleRow, draws: seq<string>, i: nat)
    requires |p| < |draws| && row.name !in NamesOf(p) && i < |NamesOf(p)|
    ensures |NamesOf(p)| < |draws| && |NamesOf(p + [row])| == |NamesOf(p)| + 1
    ensures CatalogueRow(p + [row], draws, i) == CatalogueRow(p, draws, i)
  {
    NextNames(p, row);
    NextDescription(p, row, NamesOf(p)[i]);
    NextRest(p, row, NamesOf(p)[i]);
  }

  lemma NewRow(p: seq<RoleRow>, row: RoleRow, draws: seq<string>)
    requires |p| < |draws| && row.name !in NamesOf(p)
    ensures |NamesOf(p)| < |draws| && |NamesOf(p + [row])| == |NamesOf(p)| + 1
    ensures CatalogueRow(p + [row], draws, |NamesOf(p)|) ==
      GlobalRole(Uuid(draws[|NamesOf(p)|]), row.name, row.description, row.rest)
  {
    NextNames(p, row);
    UnlistedIsUndescribed(p, row.name);
    NextDescription(p, row, row.name);
    NewRest(p, row);
  }

  /** A new name adds one row to the catalogue. */
  lemma NewNameRow(p: seq<RoleRow>, row: RoleRow, draws: seq<string>)
    requires |p| < |draws| && row.name !in NamesOf(p)
    ensures |NamesOf(p)| < |draws| && |NamesOf(p + [row])| == |NamesOf(p)| + 1
    ensures Catalogue(p + [row], draws) ==
      Catalogue(p, draws) + [GlobalRole(Uuid(draws[|NamesOf(p)|]), row.name, row.description, row.rest)]
  {
    NewRow(p, row, draws);
    forall i | 0 <= i < |NamesOf(p)|
      ensures CatalogueRow(p + [row], draws, i) == CatalogueRow(p, draws, i)
    {
      OtherRow(p, row, draws, i);
    }
  }

  /** The update that fills in a description found later. */
  function Described(roles: seq<GlobalRole>, id: Key, description: Option<string>): seq<GlobalRole> {
    seq(|roles|, i requires 0 <= i < |roles| =>
      if roles[i].id == id then roles[i].(description := description) else roles[i])
  }

  /** A known name changes at most its own row, and that only to fill in a missing description. */
  lemma KnownNameRow(p: seq<RoleRow>, row: RoleRow, draws: seq<string>)
    requires |p| < |draws| && Distinct(draws) && row.name in NamesOf(p)
    ensures |NamesOf(p)| <= |draws| && NamesOf(p + [row]) == NamesOf(p)
    ensures Catalogue(p + [row], draws) ==
      if FirstDescription(p, row.name).None? && row.description.Some?
      then Described(Catalogue(p, draws), IdOf(p, draws, row.name), row.description)
      else Catalogue(p, draws)
  {
    NextNames(p, row);
    NamesAreDistinct(p);
    var names := NamesOf(p);
    var place := PlaceOf(names, row.name);
    forall i | 0 <= i < |names|
      ensures CatalogueRow(p + [row], draws, i) ==
        if i == place && FirstDescription(p, row.name).None? && row.description.Some?
        then CatalogueRow(p, draws, i).(description := row.description)
        else CatalogueRow(p, draws, i)
    {
      NextDescription(p, row, names[i]);
      NextRest(p, row, names[i]);
    }
    assert forall i | 0 <= i < |names| :: (Catalogue(p, draws)[i].id == IdOf(p, draws, row.name)) == (i == place);
  }

  // The migration -----------------------------------------------------------------------------

  /** The dictionaries of the loop, after the rows p. */
  ghost predicate Loaded(p: seq<RoleRow>, draws: seq<string>, ids: map<string, Key>,
                         descriptions: map<string, Option<string>>, keyMap: map<(Key, string), Key>)
    requires |NamesOf(p)| <= |draws|
  {
    && (forall name :: name in ids <==> name in NamesOf(p))
    && (forall name | name in ids :: ids[name] == IdOf(p, draws, name))
    && (forall name :: name in descriptions <==> name in NamesOf(p))
    && (forall name | name in descriptions :: descriptions[name] == FirstDescription(p, name))
    && (forall k :: k in keyMap <==> k in RoleKeys(p))
    && (forall k | k in keyMap :: k.1 in NamesOf(p) && keyMap[k] == IdOf(p, draws, k.1))
  }

  /** Every company keeps its roles, row by row, now by global id. */
  ghost predicate CompanyRolesMoved(roles: seq<RoleRow>, draws: seq<string>, moved: seq<CompanyRoleRow>)
    requires |roles| <= |draws|
  {
    |moved| == |roles| && forall i | 0 <= i < |roles| :: CompanyRoleMoved(roles, draws, i, moved[i])
  }

  ghost predicate CompanyRoleMoved(roles: seq<RoleRow>, draws: seq<string>, i: nat, row: CompanyRoleRow)
    requires |roles| <= |draws| && i < |roles|
  {
    NameIsListed(roles, i);
    NamesAreDistinct(roles);
    row == CompanyRoleRow(roles[i].company, IdOf(roles, draws, roles[i].name), roles[i].rest)
  }

  /** One role row: a new name is inserted under a fresh id, a known one may get its first description. */
  method FileRow(ghost p: seq<RoleRow>, row: RoleRow, draws: seq<string>, catalogue: seq<GlobalRole>,
                 ids: map<string, Key>, descriptions: map<string, Option<string>>,
                 ghost keyMap: map<(Key, string), Key>)
    returns (roles: seq<GlobalRole>, newIds: map<string, Key>, newDescriptions: map<string, Option<string>>)
    requires |p| < |draws| && Distinct(draws) && |NamesOf(p)| <= |draws|
    requires catalogue == Catalogue(p, draws) && Loaded(p, draws, ids, descriptions, keyMap)
    ensures |NamesOf(p + [row])| <= |draws| && row.name in NamesOf(p + [row])
    ensures roles == Catalogue(p + [row], draws)
    ensures row.name in newIds && newIds[row.name] == IdOf(p + [row], draws, row.name)
    ensures Loaded(p + [row], draws, newIds, newDescriptions, keyMap[(row.company, row.name) := newIds[row.name]])
  {
    roles, newIds, newDescriptions := catalogue, ids, descriptions;
    if row.name !in ids {
      NewNameRow(p, row, draws);
      NewNameLoaded(p, row, draws, ids, descriptions, keyMap);
      var id := Uuid(draws[|catalogue|]);
      roles := catalogue + [GlobalRole(id, row.name, row.description, row.rest)];
      newIds := ids[row.name := id];
      newDescriptions := descriptions[row.name := row.description];
    } else {
      KnownNameRow(p, row, draws);
      KnownNameLoaded(p, row, draws, ids, descriptions, keyMap);
      if descriptions[row.name].None? && row.description.Some? {
        newDescriptions := descriptions[row.name := row.description];
        roles := Described(catalogue, ids[row.name], row.description);
      }
    }
  }

  /** What the loop over the role rows leaves behind. */
  ghost predicate RolesMoved(roles: seq<RoleRow>, draws: seq<string>, catalogue: seq<GlobalRole>,
                             companyRoles: seq<CompanyRoleRow>, keyMap: map<(Key, string), Key>)
    requires |roles| <= |draws|
  {
    NamesAreDistinct(roles);
    && catalogue == Catalogue(roles, draws) && CompanyRolesMoved(roles, draws, companyRoles)
    && (forall k :: k in keyMap <==> k in RoleKeys(roles))
    && (forall k | k in keyMap :: k.1 in NamesOf(roles) && keyMap[k] == IdOf(roles, draws, k.1))
  }

  ghost predicate RowsLoaded(p: seq<RoleRow>, draws: seq<string>, catalogue: seq<GlobalRole>,
                             companyRoles: seq<CompanyRoleRow>, ids: map<string, Key>,
                             descriptions: map<string, Option<string>>, keyMap: map<(Key, string), Key>)
    requires |p| <= |draws|
  {
    NamesAreDistinct(p);
    && catalogue == Catalogue(p, draws) && Loaded(p, draws, ids, descriptions, keyMap)
    && CompanyRolesMoved(p, draws, companyRoles)
  }

  /** One row in all three tables; its key is then in the dictionary. */
  method MoveRow(ghost p: seq<RoleRow>, row: RoleRow, draws: seq<string>, catalogue: seq<GlobalRole>,
                 companyRoles: seq<CompanyRoleRow>, ids: map<string, Key>,
                 descriptions: map<string, Option<string>>, keyMap: map<(Key, string), Key>)
    returns (roles: seq<GlobalRole>, newCompanyRoles: seq<CompanyRoleRow>, newIds: map<string, Key>,
             newDescriptions: map<string, Option<string>>, newKeys: map<(Key, string), Key>)
    requires |p| < |draws| && Distinct(draws)
    requires RowsLoaded(p, draws, catalogue, companyRoles, ids, descriptions, keyMap)
    ensures RowsLoaded(p + [row], draws, roles, newCompanyRoles, newIds, newDescriptions, newKeys)
  {
    NamesAreDistinct(p);
    roles, newIds, newDescriptions := FileRow(p, row, draws, catalogue, ids, descriptions, keyMap);
    NextCompanyRole(p, row, draws, companyRoles);
    newKeys := keyMap[(row.company, row.name) := newIds[row.name]];
    newCompanyRoles := companyRoles + [CompanyRoleRow(row.company, newIds[row.name], row.rest)];
  }

  /** The loop over the role rows; false is the database's refusal of a row of an unknown company. */
  method MoveRoles(roles: seq<RoleRow>, companies: seq<CompanyRow>, draws: seq<string>)
    returns (ok: bool, catalogue: seq<GlobalRole>, companyRoles: seq<CompanyRoleRow>, keyMap: map<(Key, string), Key>)
    requires |roles| <= |draws| && Distinct(draws)
    ensures ok <==> RolesResolve(roles, companies)
    ensures ok ==> RolesMoved(roles, draws, catalogue, companyRoles, keyMap)
  {
    var ids: map<string, Key> := map[];
    var descriptions: map<string, Option<string>> := map[];
    ok, catalogue, companyRoles, keyMap := true, [], [], map[];
    for i := 0 to |roles|
      invariant RowsLoaded(roles[..i], draws, catalogue, companyRoles, ids, descriptions, keyMap)
      invariant RolesResolve(roles[..i], companies)
    {
      if roles[i].company !in CompanyIds(companies) {
        return false, catalogue, companyRoles, keyMap;
      }
      assert roles[..i + 1] == roles[..i] + [roles[i]];
      catalogue, companyRoles, ids, descriptions, keyMap :=
        MoveRow(roles[..i], roles[i], draws, catalogue, companyRoles, ids, descriptions, keyMap);
    }
    assert roles[..|roles|] == roles;
  }

  lemma NextCompanyRole(p: seq<RoleRow>, row: RoleRow, draws: seq<string>, moved: seq<CompanyRoleRow>)
    requires |p| < |draws| && CompanyRolesMoved(p, draws, moved)
    ensures |NamesOf(p + [row])| <= |draws| && row.name in NamesOf(p + [row])
    ensures CompanyRolesMoved(p + [row], draws,
      moved + [CompanyRoleRow(row.company, IdOf(p + [row], draws, row.name), row.rest)])
  {
    NamesAreDistinct(p + [row]);
    NameIsListed(p + [row], |p|);
    var next := moved + [CompanyRoleRow(row.company, IdOf(p + [row], draws, row.name), row.rest)];
    forall i | 0 <= i <= |p|
      ensures CompanyRoleMoved(p + [row], draws, i, next[i])
    {
      if i < |p| {
        assert CompanyRoleMoved(p, draws, i, moved[i]);
        NameIsListed(p, i);
        NextId(p, row, draws, p[i].name);
      }
    }
  }

  lemma NextKeys(p: seq<RoleRow>, row: RoleRow)
    ensures RoleKeys(p + [row]) == RoleKeys(p) + [(row.company, row.name)]
  {
  }

  lemma NextIds(p: seq<RoleRow>, row: RoleRow, draws: seq<string>)
    requires |p| < |draws|
    ensures |NamesOf(p)| <= |draws| && |NamesOf(p + [row])| <= |draws|
    ensures forall name :: name in NamesOf(p + [row]) <==> name in NamesOf(p) || name == row.name
    ensures forall name | name in NamesOf(p) :: IdOf(p + [row], draws, name) == IdOf(p, draws, name)
  {
    NamesAreDistinct(p);
    NamesAreDistinct(p + [row]);
    NextNames(p, row);
    forall name | name in NamesOf(p)
      ensures IdOf(p + [row], draws, name) == IdOf(p, draws, name)
    {
      NextId(p, row, draws, name);
    }
  }

  lemma NextLoaded(p: seq<RoleRow>, row: RoleRow, draws: seq<string>, ids: map<string, Key>,
                   descriptions: map<string, Option<string>>, keyMap: map<(Key, string), Key>)
    requires |p| < |draws| && |NamesOf(p)| <= |draws| && Loaded(p, draws, ids, descriptions, keyMap)
    ensures |NamesOf(p + [row])| <= |draws| && row.name in NamesOf(p + [row])
    ensures
      var id := IdOf(p + [row], draws, row.name);
      var description := FirstDescription(p + [row], row.name);
      Loaded(p + [row], draws, ids[row.name := id], descriptions[row.name := description],
        keyMap[(row.company, row.name) := id])
  {
    NextIds(p, row, draws);
    NextKeys(p, row);
    forall name | name != row.name
      ensures FirstDescription(p + [row], name) == FirstDescription(p, name)
    {
      NextDescription(p, row, name);
    }
  }

  lemma NewNameLoaded(p: seq<RoleRow>, row: RoleRow, draws: seq<string>, ids: map<string, Key>,
                      descriptions: map<string, Option<string>>, keyMap: map<(Key, string), Key>)
    requires |p| < |draws| && row.name !in NamesOf(p)
    requires |NamesOf(p)| < |draws| && Loaded(p, draws, ids, descriptions, keyMap)
    ensures |NamesOf(p + [row])| <= |draws| && row.name in NamesOf(p + [row])
    ensures IdOf(p + [row], draws, row.name) == Uuid(draws[|NamesOf(p)|])
    ensures
      var id := Uuid(draws[|NamesOf(p)|]);
      Loaded(p + [row], draws, ids[row.name := id], descriptions[row.name := row.description],
        keyMap[(row.company, row.name) := id])
  {
    NextLoaded(p, row, draws, ids, descriptions, keyMap);
    NewNameId(p, row, draws);
    UnlistedIsUndescribed(p, row.name);
    NextDescription(p, row, row.name);
  }

  lemma KnownNameLoaded(p: seq<RoleRow>, row: RoleRow, draws: seq<string>, ids: map<string, Key>,
                        descriptions: map<string, Option<string>>, keyMap: map<(Key, string), Key>)
    requires |p| < |draws| && row.name in NamesOf(p)
    requires |NamesOf(p)| <= |draws| && Loaded(p, draws, ids, descriptions, keyMap)
    ensures |NamesOf(p + [row])| <= |draws| && row.name in NamesOf(p + [row])
    ensures ids[row.name] == IdOf(p + [row], draws, row.name) == IdOf(p, draws, row.name)
    ensures
      var filled := if descriptions[row.name].None? && row.description.Some?
        then descriptions[row.name := row.description] else descriptions;
      Loaded(p + [row], draws, ids, filled, keyMap[(row.company, row.name) := ids[row.name]])
  {
    NextId(p, row, draws, row.name);
    NextDescription(p, row, row.name);
    NextLoaded(p, row, draws, ids, descriptions, keyMap);
    assert ids[row.name := ids[row.name]] == ids;
    var described := FirstDescription(p + [row], row.name);
    assert descriptions[row.name := described] ==
      if descriptions[row.name].None? && row.description.Some?
      then descriptions[row.name := row.description] else descriptions;
  }

  /** Memberships row by row: the role by its global id, the old name kept in the secondary metadata. */
  ghost predicate MembersMoved(members: seq<NamedMember>, roles: seq<RoleRow>, draws: seq<string>,
                               moved: seq<RoleMember>)
    requires |roles| <= |draws|
  {
    |moved| == |members| && forall i | 0 <= i < |members| :: MemberMoved(members[i], roles, draws, moved[i])
  }

  ghost predicate MemberMoved(m: NamedMember, roles: seq<RoleRow>, draws: seq<string>, moved: RoleMember)
    requires |roles| <= |draws|
  {
    NamesAreDistinct(roles);
    && (m.company, m.role) in RoleKeys(roles) && m.role in NamesOf(roles)
    && moved == RoleMember(m.user, m.company, IdOf(roles, draws, m.role), m.secondary[LEGACY_KEY := m.role], m.rest)
  }

  ghost predicate Normalises(before: NamedDb, draws: seq<string>, after: GlobalDb)
    requires |before.roles| <= |draws|
  {
    NamesAreDistinct(before.roles);
    && after.users == before.users && after.companies == before.companies
    && after.roles == Catalogue(before.roles, draws)
    && CompanyRolesMoved(before.roles, draws, after.companyRoles)
    && MembersMoved(before.members, before.roles, draws, after.members)
  }

  /** None is the lookup error of a membership without a role row, or the refusal of an unknown user or company. */
  method MoveMembers(members: seq<NamedMember>, keyMap: map<(Key, string), Key>, users: seq<UserRow>,
                     companies: seq<CompanyRow>, ghost roles: seq<RoleRow>, ghost draws: seq<string>)
    returns (moved: Option<seq<RoleMember>>)
    requires |roles| <= |draws| && |NamesOf(roles)| <= |draws|
    requires forall k :: k in keyMap <==> k in RoleKeys(roles)
    requires forall k | k in keyMap :: k.1 in NamesOf(roles) && keyMap[k] == IdOf(roles, draws, k.1)
    ensures moved.Some? <==> RoleNamesResolve(members, roles) && PeopleResolve(members, users, companies)
    ensures moved.Some? ==> MembersMoved(members, roles, draws, moved.value)
  {
    var target := [];
    for i := 0 to |members|
      invariant |target| == i
      invariant forall j | 0 <= j < i :: MemberMoved(members[j], roles, draws, target[j])
      invariant forall j | 0 <= j < i ::
        members[j].user in UserIds(users) && members[j].company in CompanyIds(companies)
    {
      var row := members[i];
      if (row.company, row.role) !in keyMap {
        return None;
      }
      if row.user !in UserIds(users) || row.company !in CompanyIds(companies) {
        return None;
      }
      var secondary := row.secondary[LEGACY_KEY := row.role];
      target := target + [RoleMember(row.user, row.company, keyMap[(row.company, row.role)], secondary, row.rest)];
    }
    moved := Some(target);
  }

  ghost predicate ForeignKeysHold(db: NamedDb) {
    && RolesResolve(db.roles, db.companies) && PeopleResolve(db.members, db.users, db.companies)
    && RoleNamesResolve(db.members, db.roles)
  }

  method Upgrade(db: NamedDb, draws: seq<string>) returns (after: Option<GlobalDb>)
    requires |db.roles| <= |draws| && Distinct(draws)
    ensures after.Some? <==> ForeignKeysHold(db)
    ensures after.Some? ==> Normalises(db, draws, after.value)
  {
    var ok, catalogue, companyRoles, keyMap := MoveRoles(db.roles, db.companies, draws);
    if !ok {
      return None;
    }
    NamesAreDistinct(db.roles);
    var members := MoveMembers(db.members, keyMap, db.users, db.companies, db.roles, draws);
    if members.None? {
      return None;
    }
    after := Some(GlobalDb(db.users, db.companies, catalogue, companyRoles, members.value));
  }

  /** The schema that the migration finds: roles of a company each, or a catalogue already. */
  datatype Schema = Scoped(named: NamedDb) | Normalised(catalogued: GlobalDb)

  /** A schema that is normalised already is left as it is. */
  method UpgradeSchema(schema: Schema, draws: seq<string>) returns (after: Option<Schema>)
    requires schema.Scoped? ==> |schema.named.roles| <= |draws| && Distinct(draws)
    ensures schema.Normalised? ==> after == Some(schema)
    ensures schema.Scoped? ==> (after.Some? <==> ForeignKeysHold(schema.named))
    ensures schema.Scoped? && after.Some? ==>
      after.value.Normalised? && Normalises(schema.named, draws, after.value.catalogued)
  {
    if schema.Normalised? {
      return Some(schema);
    }
    var moved := Upgrade(schema.named, draws);
    after := if moved.Some? then Some(Normalised(moved.value)) else None;
  }

  // What survives -------------------------------------------------------------------------------

  function RoleName(roles: seq<GlobalRole>, id: Key): Option<string> {
    if roles == [] then None
    else if roles[0].id == id then Some(roles[0].name)
    else RoleName(roles[1..], id)
  }

  ghost predicate DistinctIds(roles: seq<GlobalRole>) {
    forall i, j | 0 <= i < j < |roles| :: roles[i].id != roles[j].id
  }

  ghost predicate DistinctNames(roles: seq<GlobalRole>) {
    forall i, j | 0 <= i < j < |roles| :: roles[i].name != roles[j].name
  }

  ghost predicate DistinctCompanyRoles(rows: seq<CompanyRoleRow>) {
    forall i, j | 0 <= i < j < |rows| :: rows[i].company != rows[j].company || rows[i].role != rows[j].role
  }

  /** company_role joined with role. */
  function JoinedRoles(rows: seq<CompanyRoleRow>, roles: seq<GlobalRole>): seq<(Key, Option<string>)> {
    seq(|rows|, i requires 0 <= i < |rows| => (rows[i].company, RoleName(roles, rows[i].role)))
  }

  function GlobalFact(users: seq<UserRow>, companies: seq<CompanyRow>, roles: seq<GlobalRole>, m: RoleMember): Fact {
    Fact(UserEmail(users, m.user), CompanyEmail(companies, m.company), RoleName(roles, m.role))
  }

  function GlobalFacts(db: GlobalDb): seq<Fact> {
    seq(|db.members|, i requires 0 <= i < |db.members| => GlobalFact(db.users, db.companies, db.roles, db.members[i]))
  }

  predicate HasCompanyRole(rows: seq<CompanyRoleRow>, company: Key, role: Key) {
    exists row :: row in rows && row.company == company && row.role == role
  }

  lemma {:induction false} NameById(roles: seq<GlobalRole>, i: nat)
    requires DistinctIds(roles) && i < |roles|
    ensures RoleName(roles, roles[i].id) == Some(roles[i].name)
  {
    if i > 0 {
      assert roles[0].id != roles[i].id;
      assert roles[1..][i - 1] == roles[i];
      NameById(roles[1..], i - 1);
    }
  }

  /** The catalogue has one row per distinct name, with distinct ids; an id leads back to its name. */
  lemma CatalogueIsKeyed(roles: seq<RoleRow>, draws: seq<string>)
    requires |roles| <= |draws| && Distinct(draws)
    ensures |NamesOf(roles)| <= |draws|
    ensures DistinctIds(Catalogue(roles, draws)) && DistinctNames(Catalogue(roles, draws))
    ensures forall name | name in NamesOf(roles) ::
      RoleName(Catalogue(roles, draws), IdOf(roles, draws, name)) == Some(name)
  {
    NamesAreDistinct(roles);
    var catalogue := Catalogue(roles, draws);
    forall name | name in NamesOf(roles)
      ensures RoleName(catalogue, IdOf(roles, draws, name)) == Some(name)
    {
      var i := PlaceOf(NamesOf(roles), name);
      assert catalogue[i].id == IdOf(roles, draws, name) && catalogue[i].name == name;
      NameById(catalogue, i);
    }
  }

  /** Joining company_role with role gives back the old role keys, row by row, with the columns of the old row. */
  lemma JoinIsOldKeys(before: NamedDb, draws: seq<string>, after: GlobalDb)
    requires |before.roles| <= |draws| && Distinct(draws) && Normalises(before, draws, after)
    ensures |after.companyRoles| == |before.roles|
    ensures forall i | 0 <= i < |before.roles| ::
      && JoinedRoles(after.companyRoles, after.roles)[i] == (before.roles[i].company, Some(before.roles[i].name))
      && after.companyRoles[i].rest == before.roles[i].rest
  {
    CatalogueIsKeyed(before.roles, draws);
    forall i | 0 <= i < |before.roles|
      ensures RoleName(after.roles, after.companyRoles[i].role) == Some(before.roles[i].name)
      ensures after.companyRoles[i].company == before.roles[i].company
      ensures after.companyRoles[i].rest == before.roles[i].rest
    {
      assert CompanyRoleMoved(before.roles, draws, i, after.companyRoles[i]);
      NameIsListed(before.roles, i);
    }
  }

  /** Who belongs where, and as what, is unchanged; no membership is lost or added, no account or company touched. */
  lemma FactsSurvive(before: NamedDb, draws: seq<string>, after: GlobalDb)
    requires |before.roles| <= |draws| && Distinct(draws) && Normalises(before, draws, after)
    ensures GlobalFacts(after) == Facts(before.users, before.companies, before.members)
    ensures after.users == before.users && after.companies == before.companies
  {
    CatalogueIsKeyed(before.roles, draws);
    forall i | 0 <= i < |before.members|
      ensures GlobalFact(after.users, after.companies, after.roles, after.members[i])
           == FactOf(before.users, before.companies, before.members[i])
    {
      assert MemberMoved(before.members[i], before.roles, draws, after.members[i]);
    }
  }

  /** Every membership's role is one that its company has. */
  lemma MembersKeepTheirRoles(before: NamedDb, draws: seq<string>, after: GlobalDb)
    requires |before.roles| <= |draws| && Normalises(before, draws, after)
    ensures forall m | m in after.members :: HasCompanyRole(after.companyRoles, m.company, m.role)
  {
    forall i | 0 <= i < |after.members|
      ensures HasCompanyRole(after.companyRoles, after.members[i].company, after.members[i].role)
    {
      var was := before.members[i];
      assert MemberMoved(was, before.roles, draws, after.members[i]);
      var j :| 0 <= j < |before.roles| && RoleKeys(before.roles)[j] == (was.company, was.role);
      assert CompanyRoleMoved(before.roles, draws, j, after.companyRoles[j]);
      assert after.companyRoles[j] in after.companyRoles;
    }
  }

  ghost predicate DistinctMembers(members: seq<RoleMember>) {
    forall i, j | 0 <= i < j < |members| ::
      members[i].user != members[j].user || members[i].company != members[j].company
  }

  lemma MembersStayUnique(before: NamedDb, draws: seq<string>, after: GlobalDb)
    requires |before.roles| <= |draws| && Normalises(before, draws, after) && DistinctPairs(before.members)
    ensures DistinctMembers(after.members)
  {
    forall i | 0 <= i < |after.members|
      ensures after.members[i].user == before.members[i].user && after.members[i].company == before.members[i].company
    {
      assert MemberMoved(before.members[i], before.roles, draws, after.members[i]);
    }
  }

  /** The new primary keys are unique, so no insert of the migration is refused. */
  lemma KeysStayUnique(before: NamedDb, draws: seq<string>, after: GlobalDb)
    requires |before.roles| <= |draws| && Distinct(draws) && Normalises(before, draws, after)
    requires Distinct(RoleKeys(before.roles)) && DistinctPairs(before.members)
    ensures DistinctIds(after.roles) && DistinctNames(after.roles) && DistinctCompanyRoles(after.companyRoles)
    ensures DistinctMembers(after.members)
  {
    MembersStayUnique(before, draws, after);
    CatalogueIsKeyed(before.roles, draws);
    JoinIsOldKeys(before, draws, after);
    var joined := JoinedRoles(after.companyRoles, after.roles);
    forall i, j | 0 <= i < j < |after.companyRoles|
      ensures after.companyRoles[i].company != after.companyRoles[j].company
           || after.companyRoles[i].role != after.companyRoles[j].role
    {
      assert RoleKeys(before.roles)[i] != RoleKeys(before.roles)[j];
      assert joined[i] != joined[j];
    }
  }

  /** Each catalogue row: its name is an old name, its description the first that is not null in row order. */
  lemma CatalogueDescribes(roles: seq<RoleRow>, draws: seq<string>, k: nat)
    requires |roles| <= |draws|
    requires |NamesOf(roles)| <= |draws| && k < |NamesOf(roles)|
    ensures var row := Catalogue(roles, draws)[k];
      && (exists i | 0 <= i < |roles| :: roles[i].name == row.name)
      && (row.description.None? <==>
            forall i | 0 <= i < |roles| && roles[i].name == row.name :: roles[i].description.None?)
      && (row.description.Some? ==> exists i | 0 <= i < |roles| ::
            IsFirstDescribed(roles, row.name, i) && row.description == roles[i].description)
  {
    var name := NamesOf(roles)[k];
    ListedIsName(roles, name);
    FirstDescriptionIs(roles, name);
  }
}
