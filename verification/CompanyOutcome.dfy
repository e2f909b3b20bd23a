/** When creating a company succeeds, and what makes it fail for good. */
module CompanyOutcome {
  import opened Prelude
  import opened Store
  import opened Service
  import CompanyRoles
  import Members
  import Permissions
  import Companies
  import StoreInvariant
  import DefaultRoles
  import CompanyCreation
  import StoreHistory

  // Deleted default roles ---------------------------------------------------------------------

  /** Deleting a role leaves its name with a closed row. */
  lemma DeletionBurnsName(db: Db, r: Id)
    requires CompanyRoles.DeleteRole(db, r).outcome.Done?
    ensures r in db.roles
    ensures DefaultRoles.NameBurnt(CompanyRoles.DeleteRole(db, r).trail[0].roles, db.roles[r].name)
  {
    var after := CompanyRoles.DeleteRole(db, r).trail[0];
    assert after.roles[r].name == db.roles[r].name && after.roles[r].life.Closed?;
  }

  /** A name owned by a closed row stays so, whatever requests follow. */
  lemma BurntForever(p: Policy, db: Db, ops: seq<Op>, name: string)
    requires ValidPolicy(p) && Inv(p, db) && AllDrawn(p, ops) && DefaultRoles.NameBurnt(db.roles, name)
    ensures DefaultRoles.NameBurnt(Latest(db, States(p, db, ops)).roles, name)
  {
    StoreHistory.NextState(p, db, ops);
    var r :| r in db.roles && db.roles[r].name == name && db.roles[r].life.Closed?;
    var now := Latest(db, States(p, db, ops));
    assert r in now.roles && now.roles[r].name == name && now.roles[r].life.Closed?;
  }

  lemma BurntIsRefused(roles: map<Id, Role>, acc: Companies.Defaults, d: DefaultRole, id: Id)
    requires UniqueRoleNames(acc.roles) && DefaultRoles.NameBurnt(acc.roles, d.name)
    ensures Companies.EnsureDefault(acc, d, id).None?
  {
    assert forall r | r in acc.roles && acc.roles[r].name == d.name :: !Companies.OpenRoleNamed(acc.roles, d.name, r);
    assert Companies.FindOpenRole(acc.roles, d.name).None?;
  }

  /** A burnt default name fails the set-up, whatever identifiers are drawn. */
  lemma {:induction false} BurntNameFails(p: Policy, roles: map<Id, Role>, ids: seq<Id>, n: nat)
    requires ValidPolicy(p) && n <= |p.defaults| <= |ids| && UniqueRoleNames(roles)
    requires !DefaultRoles.NoneBurnt(roles, p.defaults, n)
    ensures Companies.EnsureDefaults(roles, p.defaults, ids, n).None?
  {
    var k := n - 1;
    if DefaultRoles.NoneBurnt(roles, p.defaults, k) {
      assert DefaultRoles.NameBurnt(roles, p.defaults[k].name);
      DefaultRoles.DefaultsInPlace(p, roles, ids, k);
      var earlier := Companies.EnsureDefaults(roles, p.defaults, ids, k);
      if earlier.Some? {
        DefaultRoles.BurntStays(p, roles, earlier.value, k);
        BurntIsRefused(roles, earlier.value, p.defaults[k], ids[k]);
      }
    } else {
      BurntNameFails(p, roles, ids, k);
    }
  }

  lemma BurntDefaultRefusesCompany(p: Policy, db: Db, c: Id, email: string, ids: seq<Id>, creator: string)
    requires ValidPolicy(p) && Inv(p, db) && |ids| == |p.defaults|
    requires !DefaultRoles.NoneBurnt(db.roles, p.defaults, |p.defaults|)
    ensures Companies.CreateCompany(p, db, c, email, ids, creator).outcome.Refused?
  {
    BurntNameFails(p, db.roles, ids, |p.defaults|);
  }

  /** Once a default role has been deleted, no company can be created any more, whatever requests come in between. */
  lemma DeletedDefaultStopsCreation(p: Policy, db: Db, r: Id, k: nat, ops: seq<Op>, c: Id, email: string, ids: seq<Id>,
                                    creator: string)
    requires ValidPolicy(p) && Inv(p, db) && AllDrawn(p, ops) && |ids| == |p.defaults|
    requires CompanyRoles.DeleteRole(db, r).outcome.Done?
    requires k < |p.defaults| && r in db.roles && db.roles[r].name == p.defaults[k].name
    ensures
      var after := CompanyRoles.DeleteRole(db, r).trail[0];
      var now := Latest(after, States(p, after, ops));
      Companies.CreateCompany(p, now, c, email, ids, creator).outcome.Refused?
  {
    DeletionBurnsName(db, r);
    StoreInvariant.DeleteRoleKeeps(p, db, r);
    assert AllInv(p, CompanyRoles.DeleteRole(db, r).trail);
    var after := CompanyRoles.DeleteRole(db, r).trail[0];
    BurntForever(p, after, ops, p.defaults[k].name);
    StoreHistory.NextState(p, after, ops);
    var now := Latest(after, States(p, after, ops));
    assert !DefaultRoles.NoneBurnt(now.roles, p.defaults, |p.defaults|);
    BurntDefaultRefusesCompany(p, now, c, email, ids, creator);
  }

  // The exact condition -------------------------------------------------------------------------

  /** Every default name already belongs to an open role. */
  ghost predicate NothingToAdd(roles: map<Id, Role>, defaults: seq<DefaultRole>) {
    forall i | 0 <= i < |defaults| :: HasOpenRole(roles, defaults[i].name)
  }

  ghost predicate HasOpenRole(roles: map<Id, Role>, name: string) {
    exists r :: Companies.OpenRoleNamed(roles, name, r)
  }

  lemma NothingCreatedIff(p: Policy, before: map<Id, Role>, acc: Companies.Defaults)
    requires ValidPolicy(p) && DefaultRoles.InPlace(before, acc, p.defaults, |p.defaults|)
    ensures acc.created == {} <==> NothingToAdd(before, p.defaults)
  {
    var names := DefaultRoles.Names(p.defaults, |p.defaults|);
    if acc.created == {} {
      forall i | 0 <= i < |p.defaults|
        ensures HasOpenRole(before, p.defaults[i].name)
      {
        assert p.defaults[i].name in names;
        assert Companies.OpenRoleNamed(before, p.defaults[i].name, acc.chosen[p.defaults[i].name]);
      }
    } else {
      var name :| name in acc.created;
      assert name in names;
      var i :| 0 <= i < |p.defaults| && p.defaults[i].name == name;
      forall r
        ensures !Companies.OpenRoleNamed(before, name, r)
      {
        CreatedNameIsNew(before, acc, name, r);
      }
      assert !HasOpenRole(before, p.defaults[i].name);
    }
  }

  lemma CreatedNameIsNew(before: map<Id, Role>, acc: Companies.Defaults, name: string, r: Id)
    requires UniqueRoleNames(acc.roles) && DefaultRoles.RolesSurvive(before, acc.roles)
    requires acc.created <= acc.chosen.Keys && DefaultRoles.ChosenOpen(acc.roles, acc.chosen)
    requires DefaultRoles.Ids(acc.chosen, acc.created) !! before.Keys
    requires name in acc.created
    ensures !Companies.OpenRoleNamed(before, name, r)
  {
    assert acc.chosen[name] in DefaultRoles.Ids(acc.chosen, acc.created);
  }

  /** Seeding succeeds exactly if nothing was created or the catalogue can be completed. */
  lemma SeedingSucceedsIff(p: Policy, db: Db, acc: Companies.Defaults, before: map<Id, Role>)
    requires ValidPolicy(p) && DefaultRoles.InPlace(before, acc, p.defaults, |p.defaults|)
    requires forall k | k in db.links :: k.role in before
    ensures
      var step := Companies.SeedNewRoles(p, db, acc.chosen, acc.created);
      && (step.outcome.Done? <==>
            acc.created == {} || Permissions.Unclaimed(db.globalPerms, p.catalogue, |p.catalogue|))
      && (!step.outcome.Done? ==> step == Refuse(Conflict))
  {
    Permissions.EnsuredOutcome(db.globalPerms, p, |p.catalogue|);
    DefaultRoles.OldRolesAreNotSeeded(p, before.Keys, acc);
    var keys := Companies.SeedKeys(p.catalogue, acc.chosen, acc.created);
    assert keys * db.links.Keys == {};
  }

  /** The names of the catalogue belong to nobody but their own rows. */
  ghost predicate NamesFree(perms: map<Id, GlobalPermission>, catalogue: seq<Definition>) {
    forall i, g | 0 <= i < |catalogue| && g in perms && perms[g].name == catalogue[i].name :: g == catalogue[i].id
  }

  /** In a reachable state only a name can be taken: a catalogue id carries its own name. */
  lemma OnlyNamesConflict(p: Policy, db: Db)
    requires Inv(p, db)
    ensures Permissions.Unclaimed(db.globalPerms, p.catalogue, |p.catalogue|) <==>
      NamesFree(db.globalPerms, p.catalogue)
  {
    var perms := db.globalPerms;
    forall i | 0 <= i < |p.catalogue|
      ensures Permissions.Conflicts(perms, p.catalogue[i]) <==>
        exists g | g in perms :: perms[g].name == p.catalogue[i].name && g != p.catalogue[i].id
    {
      var d := p.catalogue[i];
      assert d in p.catalogue;
    }
  }

  /** The set-up of the default roles succeeds exactly under these two conditions. */
  lemma SetUpSucceedsIff(p: Policy, db: Db, ids: seq<Id>)
    requires ValidPolicy(p) && Inv(p, db) && |ids| == |p.defaults| && DefaultRoles.FreshIds(db.roles, ids)
    ensures Companies.EnsureDefaultRoles(p, db, ids).outcome.Done? <==>
      && DefaultRoles.NoneBurnt(db.roles, p.defaults, |p.defaults|)
      && (NothingToAdd(db.roles, p.defaults) || NamesFree(db.globalPerms, p.catalogue))
    ensures !Companies.EnsureDefaultRoles(p, db, ids).outcome.Done? ==>
      Companies.EnsureDefaultRoles(p, db, ids).outcome.Refused? && Companies.EnsureDefaultRoles(p, db, ids).trail == []
  {
    OnlyNamesConflict(p, db);
    DefaultRoles.DefaultsFailIff(p, db.roles, ids, |p.defaults|);
    DefaultRoles.DefaultsInPlace(p, db.roles, ids, |p.defaults|);
    var end := Companies.EnsureDefaults(db.roles, p.defaults, ids, |p.defaults|);
    if end.Some? {
      NothingCreatedIff(p, db.roles, end.value);
      SeedingSucceedsIff(p, db.(roles := end.value.roles), end.value, db.roles);
    }
  }

  lemma SeedingLeaves(p: Policy, db: Db, chosen: map<string, Id>, created: set<string>)
    requires Companies.SeedNewRoles(p, db, chosen, created).outcome.Done?
    ensures
      var step := Companies.SeedNewRoles(p, db, chosen, created);
      && |step.trail| == 1
      && step.trail[0] == db.(globalPerms := step.trail[0].globalPerms, links := step.trail[0].links)
  {
  }

  /** A set-up that succeeds leaves the other tables alone and every default name with an open, chosen row. */
  lemma SetUpLeaves(p: Policy, db: Db, ids: seq<Id>, name: string) returns (r: Id)
    requires ValidPolicy(p) && UniqueRoleNames(db.roles) && |ids| == |p.defaults|
    requires Companies.EnsureDefaultRoles(p, db, ids).outcome.Done?
    requires name in DefaultRoles.Names(p.defaults, |p.defaults|)
    ensures
      var step := Companies.EnsureDefaultRoles(p, db, ids);
      && |step.trail| == 1
      && var after := step.trail[0];
      && after == db.(roles := after.roles, globalPerms := after.globalPerms, links := after.links)
      && r in Companies.ChosenDefaults(p, db, ids) && Companies.OpenRoleNamed(after.roles, name, r)
  {
    var acc := Companies.EnsureDefaults(db.roles, p.defaults, ids, |p.defaults|).value;
    SeedingLeaves(p, db.(roles := acc.roles), acc.chosen, acc.created);
    r := ChosenRow(p, db.roles, ids, acc, name);
  }

  lemma ChosenRow(p: Policy, roles: map<Id, Role>, ids: seq<Id>, acc: Companies.Defaults, name: string) returns (r: Id)
    requires ValidPolicy(p) && UniqueRoleNames(roles) && |ids| == |p.defaults|
    requires Companies.EnsureDefaults(roles, p.defaults, ids, |p.defaults|) == Some(acc)
    requires name in DefaultRoles.Names(p.defaults, |p.defaults|)
    ensures r in acc.chosen.Values && Companies.OpenRoleNamed(acc.roles, name, r)
  {
    DefaultRoles.DefaultsInPlace(p, roles, ids, |p.defaults|);
    r := acc.chosen[name];
  }

  /** Nothing is enabled yet for a company that did not exist. */
  lemma EnablingSucceeds(db: Db, c: Id, chosen: set<Id>)
    requires forall k | k in db.companyRoles :: k.company != c
    ensures Companies.EnableDefaults(db, c, chosen) ==
      Commit(db.(companyRoles := Companies.WithEnabled(db.companyRoles, Companies.EnableKeys(c, chosen))))
    ensures forall r | r in chosen ::
      IsEnabled(Companies.WithEnabled(db.companyRoles, Companies.EnableKeys(c, chosen)), c, r)
  {
    forall r | r in chosen
      ensures IsEnabled(Companies.WithEnabled(db.companyRoles, Companies.EnableKeys(c, chosen)), c, r)
    {
      assert CompanyRoleKey(c, r) in Companies.EnableKeys(c, chosen);
    }
  }

  lemma FirstMemberJoins(db: Db, c: Id, email: string, role: string, r: Id)
    requires AssignedRole(db, c, role, r) && forall k | k in db.members :: k.company != c
    requires exists u | u in db.users :: db.users[u].email == email
    ensures Members.AddMember(db, c, email, role).outcome.Done?
  {
  }

  lemma OwnerIsReady(db: Db, c: Id, creator: string, chosen: set<Id>, r: Id)
    requires r in chosen && Companies.OpenRoleNamed(db.roles, Members.OWNER, r)
    requires exists u | u in db.users :: db.users[u].email == creator
    requires forall k | k in db.companyRoles :: k.company != c
    requires forall k | k in db.members :: k.company != c
    ensures
      var enabled := Companies.EnableDefaults(db, c, chosen);
      enabled.outcome.Done? && Members.AddMember(Latest(db, enabled.trail), c, creator, Members.OWNER).outcome.Done?
  {
    EnablingSucceeds(db, c, chosen);
    var ready := Companies.EnableDefaults(db, c, chosen).trail[0];
    FirstMemberJoins(ready, c, creator, Members.OWNER, r);
  }

  /** Once the default roles are set up, nothing else can go wrong for a creator whose email is known. */
  lemma RestSucceeds(p: Policy, db: Db, c: Id, creator: string, ids: seq<Id>)
    requires ValidPolicy(p) && UniqueRoleNames(db.roles) && |ids| == |p.defaults|
    requires Companies.EnsureDefaultRoles(p, db, ids).outcome.Done?
    requires Members.OWNER in DefaultRoles.Names(p.defaults, |p.defaults|)
    requires exists u | u in db.users :: db.users[u].email == creator
    requires forall k | k in db.companyRoles :: k.company != c
    requires forall k | k in db.members :: k.company != c
    ensures
      var first := Companies.EnsureDefaultRoles(p, db, ids);
      var enabled := Companies.EnableDefaults(Latest(db, first.trail), c, Companies.ChosenDefaults(p, db, ids));
      && enabled.outcome.Done?
      && Members.AddMember(Latest(Latest(db, first.trail), enabled.trail), c, creator, Members.OWNER).outcome.Done?
  {
    var r := SetUpLeaves(p, db, ids, Members.OWNER);
    var after := Companies.EnsureDefaultRoles(p, db, ids).trail[0];
    var chosen := Companies.ChosenDefaults(p, db, ids);
    OwnerIsReady(after, c, creator, chosen, r);
  }

  lemma InsertedIsSound(p: Policy, db: Db, c: Id, email: string, inserted: Db)
    requires Inv(p, db) && Companies.InsertCompany(db, c, email).outcome.Done?
    requires inserted == db.(companies := db.companies[c := Company(email, Open)])
    ensures Companies.InsertCompany(db, c, email) == Commit(inserted) && Inv(p, inserted)
    ensures forall k | k in inserted.companyRoles :: k.company != c
    ensures forall k | k in inserted.members :: k.company != c
  {
    StoreInvariant.InsertCompanyKeeps(p, db, c, email);
    assert Companies.InsertCompany(db, c, email).trail[0] == inserted;
  }

  /** The first two commits of a creation. */
  lemma CreationStarts(p: Policy, db: Db, c: Id, email: string, ids: seq<Id>, inserted: Db)
    requires Companies.InsertCompany(db, c, email) == Commit(inserted) && |ids| == |p.defaults|
    ensures
      var setUp := Companies.EnsureDefaultRoles(p, inserted, ids);
      && Companies.WithDefaults(p, db, c, email, ids) == Step([inserted] + setUp.trail, setUp.outcome)
      && Latest(db, [inserted] + setUp.trail) == Latest(inserted, setUp.trail)
      && Companies.DefaultsFor(p, db, c, email, ids) == Companies.ChosenDefaults(p, inserted, ids)
  {
    CompanyCreation.LatestAppend(db, [inserted], Companies.EnsureDefaultRoles(p, inserted, ids).trail);
  }

  lemma CreationStops(p: Policy, db: Db, c: Id, email: string, ids: seq<Id>, creator: string, inserted: Db)
    requires Companies.InsertCompany(db, c, email) == Commit(inserted) && |ids| == |p.defaults|
    requires Companies.EnsureDefaultRoles(p, inserted, ids).outcome.Refused?
    ensures
      var setUp := Companies.EnsureDefaultRoles(p, inserted, ids);
      Companies.CreateCompany(p, db, c, email, ids, creator) == Step([inserted] + setUp.trail, setUp.outcome)
  {
    CreationStarts(p, db, c, email, ids, inserted);
  }

  lemma CreationGoesThrough(p: Policy, db: Db, c: Id, email: string, ids: seq<Id>, creator: string, inserted: Db)
    requires Companies.InsertCompany(db, c, email) == Commit(inserted) && |ids| == |p.defaults|
    requires
      var setUp := Companies.EnsureDefaultRoles(p, inserted, ids);
      var ready := Latest(inserted, setUp.trail);
      var enabled := Companies.EnableDefaults(ready, c, Companies.ChosenDefaults(p, inserted, ids));
      && setUp.outcome.Done? && enabled.outcome.Done?
      && Members.AddMember(Latest(ready, enabled.trail), c, creator, Members.OWNER).outcome.Done?
    ensures Companies.CreateCompany(p, db, c, email, ids, creator).outcome.Done?
  {
    CreationStarts(p, db, c, email, ids, inserted);
    var first := Companies.WithDefaults(p, db, c, email, ids);
    var enabled := Companies.EnableDefaults(Latest(db, first.trail), c, Companies.DefaultsFor(p, db, c, email, ids));
    CompanyCreation.LatestAppend(db, first.trail, enabled.trail);
  }

  /**
   * Given that the company row itself can be inserted and the creator's email is known, a creation succeeds
   * exactly if no deleted role owns a default name, and either every default name has an open role already
   * or no other permission has a name of the catalogue.  Otherwise the inserted row stays behind alone.
   */
  lemma CreationSucceedsIff(p: Policy, db: Db, c: Id, email: string, ids: seq<Id>, creator: string)
    requires ValidPolicy(p) && Inv(p, db) && |ids| == |p.defaults| && DefaultRoles.FreshIds(db.roles, ids)
    requires Companies.InsertCompany(db, c, email).outcome.Done?
    requires Members.OWNER in DefaultRoles.Names(p.defaults, |p.defaults|)
    requires exists u | u in db.users :: db.users[u].email == creator
    ensures
      var step := Companies.CreateCompany(p, db, c, email, ids, creator);
      && (step.outcome.Done? <==>
            && DefaultRoles.NoneBurnt(db.roles, p.defaults, |p.defaults|)
            && (NothingToAdd(db.roles, p.defaults) || NamesFree(db.globalPerms, p.catalogue)))
      && (!step.outcome.Done? ==>
            step.outcome.Refused? && step.trail == [db.(companies := db.companies[c := Company(email, Open)])])
  {
    var inserted := db.(companies := db.companies[c := Company(email, Open)]);
    InsertedIsSound(p, db, c, email, inserted);
    SetUpSucceedsIff(p, inserted, ids);
    if Companies.EnsureDefaultRoles(p, inserted, ids).outcome.Done? {
      RestSucceeds(p, inserted, c, creator, ids);
      CreationGoesThrough(p, db, c, email, ids, creator, inserted);
    } else {
      CreationStops(p, db, c, email, ids, creator, inserted);
    }
  }
}
