/** What setting up the default roles achieves, and that it keeps the store invariant. */
module DefaultRoles {
  import opened Prelude
  import opened Store
  import Permissions
  import Companies
  import StoreInvariant

  /** `before` survives in `after`; only descriptions may differ. */
  ghost predicate RolesSurvive(before: map<Id, Role>, after: map<Id, Role>) {
    forall r | r in before ::
      r in after && after[r].name == before[r].name && after[r].life == before[r].life
  }

  function Names(defaults: seq<DefaultRole>, n: nat): set<string>
    requires n <= |defaults|
  {
    set i | 0 <= i < n :: defaults[i].name
  }

  lemma NamesNext(p: Policy, n: nat)
    requires ValidPolicy(p) && n < |p.defaults|
    ensures Names(p.defaults, n + 1) == Names(p.defaults, n) + {p.defaults[n].name}
    ensures p.defaults[n].name !in Names(p.defaults, n)
  {
  }

  /** The rows chosen for some names. */
  function Ids(chosen: map<string, Id>, names: set<string>): set<Id>
    requires names <= chosen.Keys
  {
    set name | name in names :: chosen[name]
  }

  /** Every chosen row is an open role of its name. */
  ghost predicate ChosenOpen(roles: map<Id, Role>, chosen: map<string, Id>) {
    forall name | name in chosen :: Companies.OpenRoleNamed(roles, name, chosen[name])
  }

  /** The row of each of the first `n` default roles carries its description. */
  ghost predicate Described(roles: map<Id, Role>, chosen: map<string, Id>, defaults: seq<DefaultRole>, n: nat)
    requires n <= |defaults| && Names(defaults, n) <= chosen.Keys && ChosenOpen(roles, chosen)
  {
    forall i | 0 <= i < n :: roles[chosen[defaults[i].name]].description == Some(defaults[i].description)
  }

  /** The rows added are exactly those of the created names; the other names had their row before. */
  ghost predicate AddedAre(before: set<Id>, after: set<Id>, chosen: map<string, Id>, created: set<string>)
    requires created <= chosen.Keys
  {
    && Ids(chosen, created) !! before && after == before + Ids(chosen, created)
    && (forall name | name in chosen && name !in created :: chosen[name] in before)
  }

  /** The first `n` default roles are in place, and `acc` says which rows they are and which are new. */
  ghost predicate InPlace(before: map<Id, Role>, acc: Companies.Defaults, defaults: seq<DefaultRole>, n: nat)
    requires n <= |defaults|
  {
    && UniqueRoleNames(acc.roles)
    && RolesSurvive(before, acc.roles)
    && acc.created <= acc.chosen.Keys && acc.chosen.Keys == Names(defaults, n)
    && ChosenOpen(acc.roles, acc.chosen)
    && Described(acc.roles, acc.chosen, defaults, n)
    && AddedAre(before.Keys, acc.roles.Keys, acc.chosen, acc.created)
  }

  lemma DescribedFound(roles: map<Id, Role>, chosen: map<string, Id>, p: Policy, n: nat, r: Id)
    requires ValidPolicy(p) && n < |p.defaults| && Names(p.defaults, n) == chosen.Keys
    requires ChosenOpen(roles, chosen) && Described(roles, chosen, p.defaults, n)
    requires Companies.OpenRoleNamed(roles, p.defaults[n].name, r)
    ensures
      var d := p.defaults[n];
      var after := roles[r := roles[r].(description := Some(d.description))];
      && Names(p.defaults, n + 1) == (chosen[d.name := r]).Keys
      && ChosenOpen(after, chosen[d.name := r])
      && Described(after, chosen[d.name := r], p.defaults, n + 1)
  {
    NamesNext(p, n);
    forall i | 0 <= i < n
      ensures p.defaults[i].name in chosen && chosen[p.defaults[i].name] != r
    {
      assert p.defaults[i].name in Names(p.defaults, n);
      assert roles[chosen[p.defaults[i].name]].name == p.defaults[i].name;
    }
  }

  lemma AddedFound(before: set<Id>, after: set<Id>, chosen: map<string, Id>, created: set<string>, name: string, r: Id)
    requires created <= chosen.Keys && name !in chosen && r in before && AddedAre(before, after, chosen, created)
    ensures AddedAre(before, after, chosen[name := r], created)
  {
    assert Ids(chosen[name := r], created) == Ids(chosen, created);
  }

  lemma InPlaceFound(before: map<Id, Role>, acc: Companies.Defaults, p: Policy, n: nat, r: Id)
    requires ValidPolicy(p) && n < |p.defaults| && InPlace(before, acc, p.defaults, n)
    requires Companies.OpenRoleNamed(acc.roles, p.defaults[n].name, r)
    ensures
      var d := p.defaults[n];
      var roles := acc.roles[r := acc.roles[r].(description := Some(d.description))];
      InPlace(before, acc.(roles := roles, chosen := acc.chosen[d.name := r]), p.defaults, n + 1)
  {
    var d := p.defaults[n];
    NamesNext(p, n);
    DescribedFound(acc.roles, acc.chosen, p, n, r);
    assert r in before by {
      FoundIsOld(before.Keys, acc, d.name, r);
    }
    AddedFound(before.Keys, acc.roles.Keys, acc.chosen, acc.created, d.name, r);
    var roles := acc.roles[r := acc.roles[r].(description := Some(d.description))];
    assert roles.Keys == acc.roles.Keys;
  }

  lemma FoundIsOld(before: set<Id>, acc: Companies.Defaults, name: string, r: Id)
    requires acc.created <= acc.chosen.Keys && AddedAre(before, acc.roles.Keys, acc.chosen, acc.created)
    requires ChosenOpen(acc.roles, acc.chosen) && name !in acc.chosen
    requires Companies.OpenRoleNamed(acc.roles, name, r)
    ensures r in before
  {
  }

  lemma DescribedAdded(roles: map<Id, Role>, chosen: map<string, Id>, p: Policy, n: nat, id: Id)
    requires ValidPolicy(p) && n < |p.defaults| && Names(p.defaults, n) == chosen.Keys
    requires ChosenOpen(roles, chosen) && Described(roles, chosen, p.defaults, n)
    requires id !in roles
    ensures
      var d := p.defaults[n];
      var after := roles[id := Role(d.name, Some(d.description), Open)];
      && Names(p.defaults, n + 1) == (chosen[d.name := id]).Keys
      && ChosenOpen(after, chosen[d.name := id])
      && Described(after, chosen[d.name := id], p.defaults, n + 1)
  {
    NamesNext(p, n);
    assert forall i | 0 <= i < n :: p.defaults[i].name in Names(p.defaults, n);
  }

  lemma AddedNew(before: set<Id>, after: set<Id>, chosen: map<string, Id>, created: set<string>, name: string, id: Id)
    requires created <= chosen.Keys && name !in chosen && id !in after && AddedAre(before, after, chosen, created)
    ensures AddedAre(before, after + {id}, chosen[name := id], created + {name})
  {
    assert Ids(chosen[name := id], created + {name}) == Ids(chosen, created) + {id};
  }

  lemma InPlaceAdded(before: map<Id, Role>, acc: Companies.Defaults, p: Policy, n: nat, id: Id)
    requires ValidPolicy(p) && n < |p.defaults| && InPlace(before, acc, p.defaults, n)
    requires id !in acc.roles && forall r | r in acc.roles :: acc.roles[r].name != p.defaults[n].name
    ensures
      var d := p.defaults[n];
      InPlace(before, Companies.Defaults(acc.roles[id := Role(d.name, Some(d.description), Open)],
        acc.chosen[d.name := id], acc.created + {d.name}), p.defaults, n + 1)
  {
    var d := p.defaults[n];
    NamesNext(p, n);
    DescribedAdded(acc.roles, acc.chosen, p, n, id);
    AddedNew(before.Keys, acc.roles.Keys, acc.chosen, acc.created, d.name, id);
    var roles := acc.roles[id := Role(d.name, Some(d.description), Open)];
    assert roles.Keys == acc.roles.Keys + {id};
  }

  lemma InPlaceNext(before: map<Id, Role>, acc: Companies.Defaults, p: Policy, n: nat, id: Id)
    requires ValidPolicy(p) && n < |p.defaults| && InPlace(before, acc, p.defaults, n)
    ensures var next := Companies.EnsureDefault(acc, p.defaults[n], id);
      next.Some? ==> InPlace(before, next.value, p.defaults, n + 1)
  {
    var d := p.defaults[n];
    match Companies.FindOpenRole(acc.roles, d.name) {
      case Some(r) =>
        InPlaceFound(before, acc, p, n, r);
        if acc.roles[r].description == Some(d.description) {
          assert acc.roles[r := acc.roles[r].(description := Some(d.description))] == acc.roles;
        }
      case None =>
        if Companies.EnsureDefault(acc, d, id).Some? {
          InPlaceAdded(before, acc, p, n, id);
        }
    }
  }

  lemma NoneInPlace(roles: map<Id, Role>, p: Policy)
    requires UniqueRoleNames(roles)
    ensures InPlace(roles, Companies.Defaults(roles, map[], {}), p.defaults, 0)
  {
  }

  lemma {:induction false} DefaultsInPlace(p: Policy, roles: map<Id, Role>, ids: seq<Id>, n: nat)
    requires ValidPolicy(p) && n <= |p.defaults| <= |ids| && UniqueRoleNames(roles)
    ensures var end := Companies.EnsureDefaults(roles, p.defaults, ids, n);
      end.Some? ==> InPlace(roles, end.value, p.defaults, n)
  {
    if n == 0 {
      NoneInPlace(roles, p);
    } else {
      DefaultsInPlace(p, roles, ids, n - 1);
      var acc := Companies.EnsureDefaults(roles, p.defaults, ids, n - 1);
      if acc.Some? {
        InPlaceNext(roles, acc.value, p, n - 1, ids[n - 1]);
      }
    }
  }

  // The catalogue rows -------------------------------------------------------------

  lemma FilledInIsUnique(p: Policy, perms: map<Id, GlobalPermission>, after: map<Id, GlobalPermission>)
    requires ValidPolicy(p) && UniquePermissionNames(perms)
    requires Permissions.Unclaimed(perms, p.catalogue, |p.catalogue|)
    requires Permissions.FilledIn(perms, after, p.catalogue, |p.catalogue|)
    ensures UniquePermissionNames(after)
  {
    forall a, b | a in after && b in after && after[a].name == after[b].name
      ensures a == b
    {
      if a !in perms {
        NewNameIsFree(p, perms, after, a, b);
      } else if b !in perms {
        NewNameIsFree(p, perms, after, b, a);
      }
    }
  }

  lemma NewNameIsFree(p: Policy, perms: map<Id, GlobalPermission>, after: map<Id, GlobalPermission>, a: Id, b: Id)
    requires ValidPolicy(p)
    requires Permissions.Unclaimed(perms, p.catalogue, |p.catalogue|)
    requires Permissions.FilledIn(perms, after, p.catalogue, |p.catalogue|)
    requires a in after && a !in perms && b in after && after[a].name == after[b].name
    ensures a == b
  {
    var i :| 0 <= i < |p.catalogue| && p.catalogue[i].id == a;
    if b in perms {
      assert !Permissions.Conflicts(perms, p.catalogue[i]);
    } else {
      var j :| 0 <= j < |p.catalogue| && p.catalogue[j].id == b;
    }
  }

  lemma FilledInIsOk(p: Policy, perms: map<Id, GlobalPermission>, after: map<Id, GlobalPermission>)
    requires ValidPolicy(p) && GlobalPermsOk(p, perms)
    requires Permissions.FilledIn(perms, after, p.catalogue, |p.catalogue|)
    ensures GlobalPermsOk(p, after) && Permissions.CatalogueComplete(after, p.catalogue)
  {
    forall g | g in after
      ensures after[g].life.Open?
    {
      if g !in perms {
        var i :| 0 <= i < |p.catalogue| && p.catalogue[i].id == g;
      }
    }
    forall d | d in p.catalogue
      ensures d.id in after && after[d.id].name == d.name
    {
      var i :| 0 <= i < |p.catalogue| && p.catalogue[i] == d;
      assert d.id in perms || d.id in after;
    }
  }

  lemma FillPermsKeeps(p: Policy, db: Db)
    requires ValidPolicy(p) && Inv(p, db)
    ensures var end := Permissions.Ensured(db.globalPerms, p.catalogue, |p.catalogue|);
      end.Some? ==>
        && Inv(p, db.(globalPerms := end.value))
        && Permissions.CatalogueComplete(end.value, p.catalogue)
        && db.globalPerms.Keys <= end.value.Keys
  {
    Permissions.EnsuredOutcome(db.globalPerms, p, |p.catalogue|);
    var end := Permissions.Ensured(db.globalPerms, p.catalogue, |p.catalogue|);
    if end.Some? {
      FilledInIsUnique(p, db.globalPerms, end.value);
      FilledInIsOk(p, db.globalPerms, end.value);
      assert LinksOk(db.links, db.roles, end.value.Keys);
    }
  }

  // The links of the new roles -------------------------------------------------------

  lemma SeedKeysResolve(p: Policy, roles: map<Id, Role>, perms: map<Id, GlobalPermission>, chosen: map<string, Id>,
                        created: set<string>)
    requires ChosenOpen(roles, chosen) && Permissions.CatalogueComplete(perms, p.catalogue)
    ensures forall k | k in Companies.SeedKeys(p.catalogue, chosen, created) ::
      IsOpenRole(roles, k.role) && k.permission in perms
  {
  }

  lemma SeedNewRolesKeeps(p: Policy, db: Db, chosen: map<string, Id>, created: set<string>)
    requires ValidPolicy(p) && Inv(p, db) && ChosenOpen(db.roles, chosen)
    ensures AllInv(p, Companies.SeedNewRoles(p, db, chosen, created).trail)
  {
    FillPermsKeeps(p, db);
    var end := Permissions.Ensured(db.globalPerms, p.catalogue, |p.catalogue|);
    if created != {} && end.Some? {
      SeedKeysResolve(p, db.roles, end.value, chosen, created);
      LinkAllKeeps(p, db.(globalPerms := end.value), Companies.SeedKeys(p.catalogue, chosen, created));
    }
  }

  lemma LinkAllKeeps(p: Policy, db: Db, keys: set<LinkKey>)
    requires Inv(p, db)
    requires forall k | k in keys :: IsOpenRole(db.roles, k.role) && k.permission in db.globalPerms
    ensures Inv(p, db.(links := Companies.WithLinks(db.links, keys)))
  {
  }

  lemma EnsureDefaultRolesKeeps(p: Policy, db: Db, ids: seq<Id>)
    requires ValidPolicy(p) && Inv(p, db) && |ids| == |p.defaults|
    ensures AllInv(p, Companies.EnsureDefaultRoles(p, db, ids).trail)
  {
    DefaultsInPlace(p, db.roles, ids, |p.defaults|);
    var end := Companies.EnsureDefaults(db.roles, p.defaults, ids, |p.defaults|);
    if end.Some? {
      StoreInvariant.SwapRolesKeeps(p, db, end.value.roles);
      SeedNewRolesKeeps(p, db.(roles := end.value.roles), end.value.chosen, end.value.created);
    }
  }

  // What the set-up achieves -----------------------------------------------------------

  /** A chosen row determines its name. */
  lemma ChosenInjective(roles: map<Id, Role>, chosen: map<string, Id>, a: string, b: string)
    requires ChosenOpen(roles, chosen) && a in chosen && b in chosen && chosen[a] == chosen[b]
    ensures a == b
  {
  }

  lemma SeedKeysOfNewRole(p: Policy, roles: map<Id, Role>, chosen: map<string, Id>, created: set<string>,
                          name: string, g: Id)
    requires ChosenOpen(roles, chosen) && name in created && name in chosen
    ensures LinkKey(chosen[name], g) in Companies.SeedKeys(p.catalogue, chosen, created) <==>
      exists i | 0 <= i < |p.catalogue| :: p.catalogue[i].id == g && name in p.catalogue[i].roles
  {
    if LinkKey(chosen[name], g) in Companies.SeedKeys(p.catalogue, chosen, created) {
      var i, other :| 0 <= i < |p.catalogue| && other in p.catalogue[i].roles && other in created && other in chosen
        && LinkKey(chosen[name], g) == LinkKey(chosen[other], p.catalogue[i].id);
      ChosenInjective(roles, chosen, name, other);
    }
  }

  /** The tables before and after a successful set-up, with the chosen and created names. */
  ghost predicate SetUp(p: Policy, db: Db, ids: seq<Id>, after: Db, acc: Companies.Defaults) {
    && |ids| == |p.defaults|
    && Companies.EnsureDefaultRoles(p, db, ids) == Commit(after)
    && Companies.EnsureDefaults(db.roles, p.defaults, ids, |p.defaults|) == Some(acc)
  }

  lemma SeededTables(p: Policy, db: Db, after: Db, chosen: map<string, Id>, created: set<string>)
    requires Companies.SeedNewRoles(p, db, chosen, created) == Commit(after)
    ensures after.roles == db.roles
    ensures after.links == Companies.WithLinks(db.links, Companies.SeedKeys(p.catalogue, chosen, created))
  {
    assert Companies.SeedNewRoles(p, db, chosen, created).trail[0] == after;
    if created == {} {
      assert Companies.SeedKeys(p.catalogue, chosen, created) == {};
      assert Companies.WithLinks(db.links, {}) == db.links;
    }
  }

  lemma SetUpTables(p: Policy, db: Db, ids: seq<Id>, after: Db, acc: Companies.Defaults)
    requires ValidPolicy(p) && UniqueRoleNames(db.roles) && SetUp(p, db, ids, after, acc)
    ensures after.roles == acc.roles
    ensures after.links == Companies.WithLinks(db.links, Companies.SeedKeys(p.catalogue, acc.chosen, acc.created))
    ensures InPlace(db.roles, acc, p.defaults, |p.defaults|)
  {
    SeededTables(p, db.(roles := acc.roles), after, acc.chosen, acc.created);
    DefaultsInPlace(p, db.roles, ids, |p.defaults|);
  }

  /**
   * Each role that this call created has exactly its catalogue permissions, and no earlier role gains
   * or loses a link.
   */
  lemma SetUpLinks(p: Policy, db: Db, ids: seq<Id>, after: Db, acc: Companies.Defaults, k: LinkKey)
    requires ValidPolicy(p) && Inv(p, db) && SetUp(p, db, ids, after, acc)
    ensures k.role in db.roles ==> (k in after.links <==> k in db.links)
    ensures forall name | name in acc.created && name in acc.chosen && acc.chosen[name] == k.role ::
      k in after.links <==>
        exists i | 0 <= i < |p.catalogue| :: p.catalogue[i].id == k.permission && name in p.catalogue[i].roles
  {
    SetUpTables(p, db, ids, after, acc);
    OldRolesAreNotSeeded(p, db.roles.Keys, acc);
    forall name | name in acc.created && name in acc.chosen && acc.chosen[name] == k.role
      ensures k in after.links <==>
        exists i | 0 <= i < |p.catalogue| :: p.catalogue[i].id == k.permission && name in p.catalogue[i].roles
    {
      SeedKeysOfNewRole(p, acc.roles, acc.chosen, acc.created, name, k.permission);
      assert k.role in Ids(acc.chosen, acc.created);
      assert k !in db.links;
    }
  }

  /**
   * After the set-up every default name belongs to an open role with its catalogue description, and the
   * rest of the role table keeps its names and closing times.
   */
  lemma SetUpRoles(p: Policy, db: Db, ids: seq<Id>, after: Db, acc: Companies.Defaults, i: nat)
    requires ValidPolicy(p) && Inv(p, db) && SetUp(p, db, ids, after, acc) && i < |p.defaults|
    ensures RolesSurvive(db.roles, after.roles)
    ensures
      var d := p.defaults[i];
      && d.name in acc.chosen
      && Companies.OpenRoleNamed(after.roles, d.name, acc.chosen[d.name])
      && after.roles[acc.chosen[d.name]].description == Some(d.description)
      && (d.name in acc.created <==> acc.chosen[d.name] !in db.roles)
  {
    SetUpTables(p, db, ids, after, acc);
    assert p.defaults[i].name in Names(p.defaults, |p.defaults|);
    if p.defaults[i].name in acc.created {
      assert acc.chosen[p.defaults[i].name] in Ids(acc.chosen, acc.created);
    }
  }

  lemma OldRolesAreNotSeeded(p: Policy, before: set<Id>, acc: Companies.Defaults)
    requires acc.created <= acc.chosen.Keys && AddedAre(before, acc.roles.Keys, acc.chosen, acc.created)
    ensures forall k | k in Companies.SeedKeys(p.catalogue, acc.chosen, acc.created) :: k.role !in before
  {
    forall k | k in Companies.SeedKeys(p.catalogue, acc.chosen, acc.created)
      ensures k.role !in before
    {
      assert k.role in Ids(acc.chosen, acc.created);
    }
  }

  lemma {:induction false} NothingLeftToDo(roles: map<Id, Role>, chosen: map<string, Id>, p: Policy, ids: seq<Id>,
                                           n: nat)
    requires ValidPolicy(p) && n <= |p.defaults| <= |ids| && UniqueRoleNames(roles)
    requires Names(p.defaults, |p.defaults|) == chosen.Keys && ChosenOpen(roles, chosen)
    requires Described(roles, chosen, p.defaults, |p.defaults|)
    ensures var end := Companies.EnsureDefaults(roles, p.defaults, ids, n);
      end.Some? && end.value.roles == roles && end.value.created == {}
  {
    if n > 0 {
      NothingLeftToDo(roles, chosen, p, ids, n - 1);
      var d := p.defaults[n - 1];
      assert d.name in Names(p.defaults, |p.defaults|);
      assert Companies.FindOpenRole(roles, d.name) == Some(chosen[d.name]);
    }
  }

  /** Setting up the default roles a second time, with any other fresh identifiers, adds nothing. */
  lemma SecondSetUpAddsNothing(p: Policy, db: Db, ids: seq<Id>, after: Db, acc: Companies.Defaults, ids2: seq<Id>)
    requires ValidPolicy(p) && Inv(p, db) && SetUp(p, db, ids, after, acc) && |ids2| == |p.defaults|
    ensures Companies.EnsureDefaultRoles(p, after, ids2) == Commit(after)
  {
    SetUpTables(p, db, ids, after, acc);
    NothingLeftToDo(after.roles, acc.chosen, p, ids2, |p.defaults|);
    assert after.(roles := after.roles) == after;
  }

  /** A default name held by a deleted role: no new role may take it, and no open one has it. */
  predicate NameBurnt(roles: map<Id, Role>, name: string) {
    exists r | r in roles :: roles[r].name == name && roles[r].life.Closed?
  }

  ghost predicate FreshIds(roles: map<Id, Role>, ids: seq<Id>) {
    Distinct(ids) && forall i | 0 <= i < |ids| :: ids[i] !in roles
  }

  ghost predicate UsesOnly(before: map<Id, Role>, after: map<Id, Role>, ids: seq<Id>, n: nat)
    requires n <= |ids|
  {
    forall r | r in after && r !in before :: exists i | 0 <= i < n :: ids[i] == r
  }

  lemma BurntStays(p: Policy, before: map<Id, Role>, acc: Companies.Defaults, n: nat)
    requires ValidPolicy(p) && n < |p.defaults| && InPlace(before, acc, p.defaults, n)
    ensures NameBurnt(before, p.defaults[n].name) <==> NameBurnt(acc.roles, p.defaults[n].name)
  {
    var name := p.defaults[n].name;
    if NameBurnt(acc.roles, name) {
      var r :| r in acc.roles && acc.roles[r].name == name && acc.roles[r].life.Closed?;
      if r !in before {
        assert r in Ids(acc.chosen, acc.created);
      }
    }
    if NameBurnt(before, name) {
      var r :| r in before && before[r].name == name && before[r].life.Closed?;
      assert r in acc.roles;
    }
  }

  lemma DefaultFailsIff(acc: Companies.Defaults, d: DefaultRole, id: Id)
    requires UniqueRoleNames(acc.roles) && id !in acc.roles
    ensures Companies.EnsureDefault(acc, d, id).None? <==> NameBurnt(acc.roles, d.name)
  {
    var found := Companies.FindOpenRole(acc.roles, d.name);
    if found.Some? {
      assert Companies.OpenRoleNamed(acc.roles, d.name, found.value);
    } else {
      assert forall r | r in acc.roles && acc.roles[r].name == d.name :: !Companies.OpenRoleNamed(acc.roles, d.name, r);
    }
  }

  lemma IdStaysFresh(before: map<Id, Role>, acc: Companies.Defaults, ids: seq<Id>, n: nat)
    requires n < |ids| && FreshIds(before, ids) && UsesOnly(before, acc.roles, ids, n)
    ensures ids[n] !in acc.roles
  {
  }

  lemma UsesOneMore(before: map<Id, Role>, acc: Companies.Defaults, d: DefaultRole, ids: seq<Id>, n: nat)
    requires n < |ids| && UsesOnly(before, acc.roles, ids, n)
    ensures var next := Companies.EnsureDefault(acc, d, ids[n]);
      next.Some? ==> UsesOnly(before, next.value.roles, ids, n + 1)
  {
    var next := Companies.EnsureDefault(acc, d, ids[n]);
    if next.Some? {
      forall r | r in next.value.roles && r !in before
        ensures exists i | 0 <= i < n + 1 :: ids[i] == r
      {
        if r in acc.roles {
          var i :| 0 <= i < n && ids[i] == r;
        } else {
          assert ids[n] == r;
        }
      }
    }
  }

  ghost predicate NoneBurnt(roles: map<Id, Role>, defaults: seq<DefaultRole>, n: nat)
    requires n <= |defaults|
  {
    forall i | 0 <= i < n :: !NameBurnt(roles, defaults[i].name)
  }

  lemma DefaultFailsNext(p: Policy, before: map<Id, Role>, acc: Companies.Defaults, ids: seq<Id>, n: nat)
    requires ValidPolicy(p) && n < |p.defaults| <= |ids| && UniqueRoleNames(before) && FreshIds(before, ids)
    requires Companies.EnsureDefaults(before, p.defaults, ids, n) == Some(acc) && UsesOnly(before, acc.roles, ids, n)
    ensures var next := Companies.EnsureDefault(acc, p.defaults[n], ids[n]);
      && (next.Some? <==> !NameBurnt(before, p.defaults[n].name))
      && (next.Some? ==> UsesOnly(before, next.value.roles, ids, n + 1))
  {
    DefaultsInPlace(p, before, ids, n);
    IdStaysFresh(before, acc, ids, n);
    BurntStays(p, before, acc, n);
    DefaultFailsIff(acc, p.defaults[n], ids[n]);
    UsesOneMore(before, acc, p.defaults[n], ids, n);
  }

  /**
   * With fresh identifiers the set-up of the role rows fails exactly when a deleted role still owns a
   * default name.
   */
  lemma {:induction false} DefaultsFailIff(p: Policy, roles: map<Id, Role>, ids: seq<Id>, n: nat)
    requires ValidPolicy(p) && n <= |p.defaults| <= |ids| && UniqueRoleNames(roles) && FreshIds(roles, ids)
    ensures var end := Companies.EnsureDefaults(roles, p.defaults, ids, n);
      && (end.Some? <==> NoneBurnt(roles, p.defaults, n))
      && (end.Some? ==> UsesOnly(roles, end.value.roles, ids, n))
  {
    if n > 0 {
      DefaultsFailIff(p, roles, ids, n - 1);
      var acc := Companies.EnsureDefaults(roles, p.defaults, ids, n - 1);
      if acc.Some? {
        DefaultFailsNext(p, roles, acc.value, ids, n - 1);
      }
    }
  }
}
