/** The catalogue of system permissions and the default roles that the program ships with. */
module SystemPolicy {
  import opened Prelude
  import opened Store
  import opened Members

  datatype SystemPermission =
    | CompanyRead
    | CompanyUpdate
    | CompanyDelete
    | CompanyMembersRead
    | CompanyMembersAdd
    | CompanyMembersRoleUpdate
    | CompanyMembersRemove
    | CompanyRolesRead
    | CompanyRolesAssign
    | CompanyRolesUnassign
    | CompanyPermissionsRead
    | CompanyPermissionsCreate
    | CompanyPermissionsUpdate
    | CompanyPermissionsDelete
    | CompanyPermissionsAssign
    | CompanyPermissionsUnassign

  /** Name-based identifiers, section 5.5 of RFC 9562: taken to be injective and apart from drawn ones. */
  function NameBasedId(name: string): (id: Id)
    ensures |id| == 6 + |name| && id[6..] == name
  {
    "uuid5:" + name
  }

  function Value(p: SystemPermission): string {
    match p
    case CompanyRead => "company.read"
    case CompanyUpdate => "company.update"
    case CompanyDelete => "company.delete"
    case CompanyMembersRead => "company.members.read"
    case CompanyMembersAdd => "company.members.add"
    case CompanyMembersRoleUpdate => "company.members.role.update"
    case CompanyMembersRemove => "company.members.remove"
    case CompanyRolesRead => "company.roles.read"
    case CompanyRolesAssign => "company.roles.assign"
    case CompanyRolesUnassign => "company.roles.unassign"
    case CompanyPermissionsRead => "company.permissions.read"
    case CompanyPermissionsCreate => "company.permissions.create"
    case CompanyPermissionsUpdate => "company.permissions.update"
    case CompanyPermissionsDelete => "company.permissions.delete"
    case CompanyPermissionsAssign => "company.permissions.assign"
    case CompanyPermissionsUnassign => "company.permissions.unassign"
  }

  function Describe(p: SystemPermission): string {
    match p
    case CompanyRead => "Read company details."
    case CompanyUpdate => "Update company details."
    case CompanyDelete => "Delete a company."
    case CompanyMembersRead => "Read company members."
    case CompanyMembersAdd => "Add members to a company."
    case CompanyMembersRoleUpdate => "Update a company member's role."
    case CompanyMembersRemove => "Remove members from a company."
    case CompanyRolesRead => "Read roles enabled for a company."
    case CompanyRolesAssign => "Enable a global role for a company."
    case CompanyRolesUnassign => "Disable a global role for a company."
    case CompanyPermissionsRead => "Read company permissions and effective role permissions."
    case CompanyPermissionsCreate => "Create company permissions."
    case CompanyPermissionsUpdate => "Update company permissions."
    case CompanyPermissionsDelete => "Delete company permissions."
    case CompanyPermissionsAssign => "Assign company permissions to company roles."
    case CompanyPermissionsUnassign => "Remove company permissions from company roles."
  }

  const VIEWER := "Viewer"

  function DefaultRolesOf(p: SystemPermission): set<string> {
    match p
    case CompanyRead => {OWNER, ADMINISTRATOR, VIEWER}
    case CompanyMembersRead => {OWNER, ADMINISTRATOR, VIEWER}
    case CompanyDelete => {OWNER}
    case _ => {OWNER, ADMINISTRATOR}
  }

  function DefinitionOf(p: SystemPermission): Definition {
    Definition(NameBasedId(Value(p)), Value(p), Describe(p), DefaultRolesOf(p))
  }

  /** The permissions in catalogue order. */
  const SYSTEM_PERMISSIONS: seq<SystemPermission> := [
    CompanyRead, CompanyUpdate, CompanyDelete, CompanyMembersRead,
    CompanyMembersAdd, CompanyMembersRoleUpdate, CompanyMembersRemove, CompanyRolesRead,
    CompanyRolesAssign, CompanyRolesUnassign, CompanyPermissionsRead, CompanyPermissionsCreate,
    CompanyPermissionsUpdate, CompanyPermissionsDelete, CompanyPermissionsAssign, CompanyPermissionsUnassign]

  /** The place of a permission in the catalogue. */
  function Place(p: SystemPermission): nat {
    match p
    case CompanyRead => 0
    case CompanyUpdate => 1
    case CompanyDelete => 2
    case CompanyMembersRead => 3
    case CompanyMembersAdd => 4
    case CompanyMembersRoleUpdate => 5
    case CompanyMembersRemove => 6
    case CompanyRolesRead => 7
    case CompanyRolesAssign => 8
    case CompanyRolesUnassign => 9
    case CompanyPermissionsRead => 10
    case CompanyPermissionsCreate => 11
    case CompanyPermissionsUpdate => 12
    case CompanyPermissionsDelete => 13
    case CompanyPermissionsAssign => 14
    case CompanyPermissionsUnassign => 15
  }

  /** The place again, read off the name alone. */
  function PlaceOfName(s: string): int {
    if |s| == 12 then 0
    else if |s| == 14 then if s[8] == 'u' then 1 else 2
    else if |s| == 18 then 7
    else if |s| == 19 then 4
    else if |s| == 20 then if s[8] == 'm' then 3 else 8
    else if |s| == 22 then if s[8] == 'm' then 6 else 9
    else if |s| == 24 then 10
    else if |s| == 26 then
      if s[20] == 'c' then 11 else if s[20] == 'u' then 12 else if s[20] == 'd' then 13 else 14
    else if |s| == 27 then 5
    else 15
  }

  lemma PlaceOfValue(p: SystemPermission)
    ensures PlaceOfName(Value(p)) == Place(p)
  {
  }

  lemma ValueIsInjective(p: SystemPermission, q: SystemPermission)
    requires Value(p) == Value(q)
    ensures p == q
  {
    PlaceOfValue(p);
    PlaceOfValue(q);
  }

  const POLICY := Policy(
    seq(16, i requires 0 <= i < 16 => DefinitionOf(SYSTEM_PERMISSIONS[i])),
    [
      DefaultRole(OWNER, "Full access to manage users and data"),
      DefaultRole(ADMINISTRATOR, "Full access to manage users and data"),
      DefaultRole(VIEWER, "Read-only access to company data")
    ])

  lemma PermissionsInOrder(i: nat)
    requires i < 16
    ensures |SYSTEM_PERMISSIONS| == 16 && Place(SYSTEM_PERMISSIONS[i]) == i
  {
  }

  /** The shipped policy has distinct permission ids, permission names and default role names. */
  lemma PolicyIsValid()
    ensures ValidPolicy(POLICY)
  {
    forall i, j | 0 <= i < j < 16
      ensures POLICY.catalogue[i].id != POLICY.catalogue[j].id && POLICY.catalogue[i].name != POLICY.catalogue[j].name
    {
      DefinitionsDiffer(i, j);
    }
    assert |OWNER| == 5 && |ADMINISTRATOR| == 13 && |VIEWER| == 6;
  }

  lemma DefinitionsDiffer(i: nat, j: nat)
    requires i < j < 16
    ensures POLICY.catalogue[i].id != POLICY.catalogue[j].id && POLICY.catalogue[i].name != POLICY.catalogue[j].name
  {
    PermissionsInOrder(i);
    PermissionsInOrder(j);
    var p, q := SYSTEM_PERMISSIONS[i], SYSTEM_PERMISSIONS[j];
    if Value(p) == Value(q) {
      ValueIsInjective(p, q);
    }
  }

  /**
   * What the shipped default roles get: owners every permission, administrators all but the deletion of a company,
   * viewers only to read the company and its members; nobody else gets any.
   */
  lemma DefaultsGet(i: nat)
    requires i < |POLICY.catalogue|
    ensures
      var d := POLICY.catalogue[i];
      && |POLICY.catalogue| == 16
      && (forall role :: role in d.roles ==> role in {"Owner", "Administrator", "Viewer"})
      && "Owner" in d.roles
      && ("Administrator" in d.roles <==> d.name != "company.delete")
      && ("Viewer" in d.roles <==> d.name in {"company.read", "company.members.read"})
  {
    var p := SYSTEM_PERMISSIONS[i];
    if Value(p) == "company.delete" {
      ValueIsInjective(p, CompanyDelete);
    }
    if Value(p) == "company.read" {
      ValueIsInjective(p, CompanyRead);
    }
    if Value(p) == "company.members.read" {
      ValueIsInjective(p, CompanyMembersRead);
    }
  }
}
