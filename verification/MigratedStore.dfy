/** The migrated tables as the running service reads them, and its membership invariant on them. */
module MigratedStore {
  import opened Prelude
  import opened LegacySchema
  import opened RoleMigration
  import opened MigratedAccess
  import Store

  function Text(k: Key): Id {
    if k.Uuid? then k.text else ""
  }

  function LifeOf(rest: Columns): Life {
    if IsOpen(rest) then Open else Closed
  }

  /** Every key that the three role tables hold is a UUID. */
  ghost predicate UuidKeys(db: GlobalDb) {
    && (forall g | g in db.roles :: g.id.Uuid?)
    && (forall row | row in db.companyRoles :: row.company.Uuid? && row.role.Uuid?)
    && (forall m | m in db.members :: m.user.Uuid? && m.company.Uuid? && m.role.Uuid?)
  }

  ghost predicate UniqueKeys(db: GlobalDb) {
    DistinctIds(db.roles) && DistinctCompanyRoles(db.companyRoles) && DistinctMembers(db.members)
  }

  ghost function RoleTable(db: GlobalDb): map<Id, Store.Role>
    requires UuidKeys(db) && UniqueKeys(db)
  {
    map g | g in db.roles :: Text(g.id) := Store.Role(g.name, g.description, LifeOf(g.rest))
  }

  ghost function CompanyRoleTable(db: GlobalDb): map<Store.CompanyRoleKey, Life>
    requires UuidKeys(db) && UniqueKeys(db)
  {
    map row | row in db.companyRoles :: Store.CompanyRoleKey(Text(row.company), Text(row.role)) := LifeOf(row.rest)
  }

  ghost function MemberTable(db: GlobalDb): map<Store.MemberKey, Store.Member>
    requires UuidKeys(db) && UniqueKeys(db)
  {
    map m | m in db.members ::
      Store.MemberKey(Text(m.user), Text(m.company)) := Store.Member(Text(m.role), LifeOf(m.rest))
  }

  /** The running service's membership invariant on the migrated tables. */
  ghost predicate ServiceMembersOk(db: GlobalDb)
    requires UuidKeys(db) && UniqueKeys(db)
  {
    Store.MembersOk(MemberTable(db), RoleTable(db), CompanyRoleTable(db))
  }

  lemma RoleTableHas(db: GlobalDb, id: Key)
    requires UuidKeys(db) && UniqueKeys(db) && id.Uuid?
    ensures Store.IsOpenRole(RoleTable(db), Text(id)) <==> HasOpenRole(db.roles, id)
  {
    if HasOpenRole(db.roles, id) {
      var g :| g in db.roles && g.id == id && IsOpen(g.rest);
      assert Text(g.id) in RoleTable(db);
    }
  }

  lemma CompanyRoleTableHas(db: GlobalDb, company: Key, role: Key)
    requires UuidKeys(db) && UniqueKeys(db) && company.Uuid? && role.Uuid?
    ensures Store.IsEnabled(CompanyRoleTable(db), Text(company), Text(role)) <==>
      HasOpenCompanyRole(db.companyRoles, company, role)
  {
    if HasOpenCompanyRole(db.companyRoles, company, role) {
      var row :| row in db.companyRoles && row.company == company && row.role == role && IsOpen(row.rest);
      assert Store.CompanyRoleKey(Text(row.company), Text(row.role)) in CompanyRoleTable(db);
    }
  }

  /** The service's membership invariant holds of the migrated tables exactly if every open membership is usable. */
  lemma MembersOkIff(db: GlobalDb)
    requires UuidKeys(db) && UniqueKeys(db)
    ensures ServiceMembersOk(db) <==> MembersUsable(db)
  {
    forall m | m in db.members
      ensures Usable(db, m) <==>
        Store.IsOpenRole(RoleTable(db), Text(m.role))
        && Store.IsEnabled(CompanyRoleTable(db), Text(m.company), Text(m.role))
    {
      RoleTableHas(db, m.role);
      CompanyRoleTableHas(db, m.company, m.role);
    }
    forall m | m in db.members
      ensures
        var k := Store.MemberKey(Text(m.user), Text(m.company));
        k in MemberTable(db) && MemberTable(db)[k] == Store.Member(Text(m.role), LifeOf(m.rest))
    {
    }
  }
}
