/** The migration that seeds the catalogue permissions and links them to the default roles. */
module SeedMigration {
  import opened Prelude
  import opened Store
  import Permissions
  import Companies
  import DefaultRoles

  /** Links from every open role with a default name to the permissions that name it. */
  function RoleSeeds(catalogue: seq<Definition>, roles: map<Id, Role>): set<LinkKey> {
    set i, r | 0 <= i < |catalogue| && r in roles && roles[r].name in catalogue[i].roles && roles[r].life.Open?
      :: LinkKey(r, catalogue[i].id)
  }

  /** The rows of one definition's default roles that are open. */
  function DefaultRows(d: Definition, roles: map<Id, Role>): set<Id> {
    set r | r in roles && roles[r].name in d.roles && roles[r].life.Open?
  }

  /** The store once the first `n` definitions are seeded; None is the conflict error. */
  function Seeded(p: Policy, db: Db, n: nat): Option<Db>
    requires n <= |p.catalogue|
  {
    match Permissions.Ensured(db.globalPerms, p.catalogue, n)
    case None => None
    case Some(perms) =>
      Some(db.(globalPerms := perms, links := Companies.WithLinks(db.links, RoleSeeds(p.catalogue[..n], db.roles))))
  }

  function Upgraded(p: Policy, db: Db): Option<Db> {
    Seeded(p, db, |p.catalogue|)
  }

  /** A link that the catalogue asks for. */
  ghost predicate AskedFor(p: Policy, roles: map<Id, Role>, k: LinkKey) {
    && IsOpenRole(roles, k.role)
    && exists i | 0 <= i < |p.catalogue| ::
      p.catalogue[i].id == k.permission && roles[k.role].name in p.catalogue[i].roles
  }

  function CatalogueIds(p: Policy): set<Id> {
    set i | 0 <= i < |p.catalogue| :: p.catalogue[i].id
  }

  function Downgraded(p: Policy, db: Db): Db {
    db.(
      links := map k | k in db.links && k.permission !in CatalogueIds(p) :: db.links[k],
      globalPerms := db.globalPerms - CatalogueIds(p))
  }

  class Migration {
    const session: Session
    const policy: Policy

    constructor (session: Session, policy: Policy)
      ensures this.session == session && this.policy == policy
    {
      this.session, this.policy := session, policy;
    }

    /** The id of the row with this name, and the name of the row with this id, as the two queries read them. */
    method Records(d: Definition) returns (byName: Option<Id>, byId: Option<string>)
      requires UniquePermissionNames(session.db.globalPerms)
      ensures byName.Some? ==>
        byName.value in session.db.globalPerms && session.db.globalPerms[byName.value].name == d.name
      ensures byName.None? ==> !Permissions.PermissionNameTaken(session.db.globalPerms, d.name)
      ensures byId == if d.id in session.db.globalPerms then Some(session.db.globalPerms[d.id].name) else None
    {
      var perms := session.db.globalPerms;
      byName := None;
      if exists g | g in perms :: perms[g].name == d.name {
        var g :| g in perms && perms[g].name == d.name;
        byName := Some(g);
      }
      byId := if d.id in perms then Some(perms[d.id].name) else None;
    }

    /** Adds the definition's row if it is missing; false is the conflict error. */
    method SeedPermission(d: Definition) returns (ok: bool)
      requires UniquePermissionNames(session.db.globalPerms)
      modifies session
      ensures session.committed == old(session.committed) && session.trail == old(session.trail)
      ensures UniquePermissionNames(session.db.globalPerms)
      ensures ok <==> !Permissions.Resolve(old(session.db.globalPerms), d).Clash?
      ensures ok ==> session.db == old(session.db).(globalPerms :=
        if Permissions.Resolve(old(session.db.globalPerms), d).Present? then old(session.db.globalPerms)
        else old(session.db.globalPerms)[d.id := GlobalPermission(d.name, Some(d.description), Open)])
    {
      var byName, byId := Records(d);
      Permissions.ResolveMeans(session.db.globalPerms, d);
      if (byName.Some? && byName.value != d.id) || (byId.Some? && byId.value != d.name) {
        assert Permissions.Conflicts(session.db.globalPerms, d);
        return false;
      }
      if byName.None? {
        var row := GlobalPermission(d.name, Some(d.description), Open);
        session.db := session.db.(globalPerms := session.db.globalPerms[d.id := row]);
      }
      ok := true;
    }

    lemma WithOneMore(links: map<LinkKey, Life>, keys: set<LinkKey>, k: LinkKey)
      ensures
        var filled := Companies.WithLinks(links, keys);
        Companies.WithLinks(links, keys + {k}) == if k in filled then filled else filled[k := Open]
    {
    }

    /** Links the definition to each open default role that lacks it, in any order. */
    method SeedLinks(d: Definition)
      modifies session
      ensures session.committed == old(session.committed) && session.trail == old(session.trail)
      ensures session.db == old(session.db).(links := Companies.WithLinks(old(session.db).links,
        set r | r in DefaultRows(d, old(session.db).roles) :: LinkKey(r, d.id)))
    {
      ghost var start := session.db;
      var rows := DefaultRows(d, session.db.roles);
      var left := rows;
      while left != {}
        invariant left <= rows
        invariant session.committed == old(session.committed) && session.trail == old(session.trail)
        invariant session.db == start.(links :=
          Companies.WithLinks(start.links, set r | r in rows - left :: LinkKey(r, d.id)))
      {
        var r :| r in left;
        ghost var before := set s | s in rows - left :: LinkKey(s, d.id);
        WithOneMore(start.links, before, LinkKey(r, d.id));
        if LinkKey(r, d.id) !in session.db.links {
          session.db := session.db.(links := session.db.links[LinkKey(r, d.id) := Open]);
        }
        left := left - {r};
        assert (set s | s in rows - left :: LinkKey(s, d.id)) == before + {LinkKey(r, d.id)};
      }
      assert rows - left == rows;
    }

    method Upgrade() returns (ok: bool)
      requires session.Clean() && UniquePermissionNames(session.db.globalPerms)
      modifies session
      ensures ok <==> Upgraded(policy, old(session.db)).Some?
      ensures ok ==> session.Clean() && session.db == Upgraded(policy, old(session.db)).value
      ensures !ok ==> session.committed == old(session.committed)
    {
      ghost var start := session.db;
      NothingSeeded(policy, start);
      for i := 0 to |policy.catalogue|
        invariant session.committed == old(session.committed) && session.trail == old(session.trail)
        invariant UniquePermissionNames(session.db.globalPerms)
        invariant Seeded(policy, start, i) == Some(session.db)
      {
        var d := policy.catalogue[i];
        ghost var before := session.db;
        ok := SeedPermission(d);
        SeededNext(policy, start, i, before);
        if !ok {
          NoLaterUpgrade(start.globalPerms, policy.catalogue, i + 1, |policy.catalogue|);
          return;
        }
        SeedLinks(d);
      }
      session.CommitWork();
      ok := true;
    }

    method Downgrade()
      requires session.Clean()
      modifies session
      ensures session.Clean() && session.db == Downgraded(policy, old(session.db))
    {
      var ids := CatalogueIds(policy);
      var db := session.db;
      session.db := session.db.(links := map k | k in db.links && k.permission !in ids :: db.links[k]);
      session.db := session.db.(globalPerms := db.globalPerms - ids);
      session.CommitWork();
    }
  }

  lemma {:induction false} NoLaterUpgrade(perms: map<Id, GlobalPermission>, catalogue: seq<Definition>, i: nat, n: nat)
    requires i <= n <= |catalogue|
    requires Permissions.Ensured(perms, catalogue, i).None?
    ensures Permissions.Ensured(perms, catalogue, n).None?
  {
    if i < n {
      NoLaterUpgrade(perms, catalogue, i, n - 1);
    }
  }

  lemma NothingSeeded(p: Policy, db: Db)
    ensures Seeded(p, db, 0) == Some(db)
  {
    assert RoleSeeds(p.catalogue[..0], db.roles) == {};
    assert Companies.WithLinks(db.links, {}) == db.links;
  }

  lemma RoleSeedsNext(catalogue: seq<Definition>, i: nat, roles: map<Id, Role>)
    requires i < |catalogue|
    ensures RoleSeeds(catalogue[..i + 1], roles) ==
      RoleSeeds(catalogue[..i], roles) + set r | r in DefaultRows(catalogue[i], roles) :: LinkKey(r, catalogue[i].id)
  {
    var shorter, longer := catalogue[..i], catalogue[..i + 1];
    forall j, r | 0 <= j < i && r in roles && roles[r].name in shorter[j].roles && roles[r].life.Open?
      ensures LinkKey(r, shorter[j].id) in RoleSeeds(longer, roles)
    {
      assert longer[j] == shorter[j];
    }
    assert longer[i] == catalogue[i];
  }

  lemma WithLinksTwice(links: map<LinkKey, Life>, a: set<LinkKey>, b: set<LinkKey>)
    ensures Companies.WithLinks(Companies.WithLinks(links, a), b) == Companies.WithLinks(links, a + b)
  {
  }

  /** One more definition: its row if missing, then its links. */
  lemma SeededNext(p: Policy, db: Db, i: nat, before: Db)
    requires i < |p.catalogue| && Seeded(p, db, i) == Some(before)
    ensures
      var d := p.catalogue[i];
      var resolution := Permissions.Resolve(before.globalPerms, d);
      var row := GlobalPermission(d.name, Some(d.description), Open);
      var perms := if resolution.Present? then before.globalPerms else before.globalPerms[d.id := row];
      var links := Companies.WithLinks(before.links, set r | r in DefaultRows(d, before.roles) :: LinkKey(r, d.id));
      && (resolution.Clash? <==> Permissions.Ensured(db.globalPerms, p.catalogue, i + 1).None?)
      && Seeded(p, db, i + 1) == if resolution.Clash? then None else Some(before.(globalPerms := perms, links := links))
  {
    var d := p.catalogue[i];
    RoleSeedsNext(p.catalogue, i, db.roles);
    WithLinksTwice(db.links, RoleSeeds(p.catalogue[..i], db.roles),
      set r | r in DefaultRows(d, db.roles) :: LinkKey(r, d.id));
  }

  // What the migration guarantees ---------------------------------------------------------

  /** The upgrade fails exactly when the starting table holds a conflicting id or name. */
  lemma UpgradeFailsIff(p: Policy, db: Db)
    requires ValidPolicy(p)
    ensures Upgraded(p, db).None? <==> exists d :: d in p.catalogue && Permissions.Conflicts(db.globalPerms, d)
  {
    Permissions.EnsuredOutcome(db.globalPerms, p, |p.catalogue|);
    if Upgraded(p, db).None? {
      var i :| 0 <= i < |p.catalogue| && Permissions.Conflicts(db.globalPerms, p.catalogue[i]);
      assert p.catalogue[i] in p.catalogue;
    }
  }

  /** Every definition has its own row and no row stands in its way. */
  ghost predicate Settled(p: Policy, perms: map<Id, GlobalPermission>) {
    forall i | 0 <= i < |p.catalogue| :: !Permissions.Conflicts(perms, p.catalogue[i]) && p.catalogue[i].id in perms
  }

  lemma FilledIsSettled(p: Policy, perms: map<Id, GlobalPermission>, after: map<Id, GlobalPermission>)
    requires ValidPolicy(p)
    requires Permissions.Unclaimed(perms, p.catalogue, |p.catalogue|)
    requires Permissions.FilledIn(perms, after, p.catalogue, |p.catalogue|)
    ensures Settled(p, after)
  {
    forall i | 0 <= i < |p.catalogue|
      ensures !Permissions.Conflicts(after, p.catalogue[i]) && p.catalogue[i].id in after
    {
      FilledRowsMatch(p, perms, after, i);
    }
  }

  lemma FilledRowsMatch(p: Policy, perms: map<Id, GlobalPermission>, after: map<Id, GlobalPermission>, i: nat)
    requires ValidPolicy(p) && i < |p.catalogue|
    requires Permissions.Unclaimed(perms, p.catalogue, |p.catalogue|)
    requires Permissions.FilledIn(perms, after, p.catalogue, |p.catalogue|)
    ensures !Permissions.Conflicts(after, p.catalogue[i]) && p.catalogue[i].id in after
  {
    var d := p.catalogue[i];
    assert !Permissions.Conflicts(perms, d);
    forall g | g in after
      ensures g == d.id <==> after[g].name == d.name
    {
      if g !in perms {
        var j :| 0 <= j < |p.catalogue| && p.catalogue[j].id == g;
      }
    }
  }

  lemma {:induction false} SettledIsStable(p: Policy, perms: map<Id, GlobalPermission>, n: nat)
    requires Settled(p, perms) && n <= |p.catalogue|
    ensures Permissions.Ensured(perms, p.catalogue, n) == Some(perms)
  {
    if n > 0 {
      SettledIsStable(p, perms, n - 1);
      Permissions.ResolveMeans(perms, p.catalogue[n - 1]);
    }
  }

  /** Running the upgrade a second time changes nothing. */
  lemma UpgradeIsIdempotent(p: Policy, db: Db)
    requires ValidPolicy(p) && Upgraded(p, db).Some?
    ensures Upgraded(p, Upgraded(p, db).value) == Upgraded(p, db)
  {
    var once := Upgraded(p, db).value;
    Permissions.EnsuredOutcome(db.globalPerms, p, |p.catalogue|);
    FilledIsSettled(p, db.globalPerms, once.globalPerms);
    SettledIsStable(p, once.globalPerms, |p.catalogue|);
    var keys := RoleSeeds(p.catalogue[..|p.catalogue|], db.roles);
    assert keys + keys == keys;
    WithLinksTwice(db.links, keys, keys);
  }

  /** No catalogue permission and no link to one. */
  ghost predicate Untouched(p: Policy, db: Db) {
    && (forall g | g in db.globalPerms :: g !in CatalogueIds(p))
    && (forall k | k in db.links :: k.permission !in CatalogueIds(p))
  }

  /** Downgrade after upgrade restores the starting database exactly when it held nothing of the catalogue. */
  lemma DowngradeRestoresIff(p: Policy, db: Db)
    requires ValidPolicy(p) && Upgraded(p, db).Some?
    ensures Downgraded(p, Upgraded(p, db).value) == db <==> Untouched(p, db)
  {
    var up := Upgraded(p, db).value;
    var down := Downgraded(p, up);
    Permissions.EnsuredOutcome(db.globalPerms, p, |p.catalogue|);
    assert p.catalogue[..|p.catalogue|] == p.catalogue;
    assert forall k | k in RoleSeeds(p.catalogue, db.roles) :: k.permission in CatalogueIds(p);
    if Untouched(p, db) {
      PermissionsRestored(p, db.globalPerms, up.globalPerms);
      assert down.links == db.links;
    } else {
      DowngradedIsUntouched(p, up);
    }
  }

  lemma DowngradedIsUntouched(p: Policy, db: Db)
    ensures Untouched(p, Downgraded(p, db))
  {
  }

  lemma PermissionsRestored(p: Policy, perms: map<Id, GlobalPermission>, after: map<Id, GlobalPermission>)
    requires Permissions.FilledIn(perms, after, p.catalogue, |p.catalogue|)
    requires forall g | g in perms :: g !in CatalogueIds(p)
    ensures after - CatalogueIds(p) == perms
  {
    forall g | g in after && g !in perms
      ensures g in CatalogueIds(p)
    {
      var i :| 0 <= i < |p.catalogue| && p.catalogue[i].id == g;
    }
  }

  /** The upgrade keeps the store invariant, completes the catalogue, and adds exactly the default links. */
  lemma UpgradeCompletes(p: Policy, db: Db, k: LinkKey)
    requires ValidPolicy(p) && Inv(p, db) && Upgraded(p, db).Some?
    ensures
      var up := Upgraded(p, db).value;
      && Inv(p, up) && Permissions.CatalogueComplete(up.globalPerms, p.catalogue)
      && (k in up.links <==> k in db.links || AskedFor(p, db.roles, k))
  {
    DefaultRoles.FillPermsKeeps(p, db);
    var perms := Permissions.Ensured(db.globalPerms, p.catalogue, |p.catalogue|).value;
    assert p.catalogue[..|p.catalogue|] == p.catalogue;
    SeedsResolve(p, db.roles, perms);
    DefaultRoles.LinkAllKeeps(p, db.(globalPerms := perms), RoleSeeds(p.catalogue, db.roles));
    SeedsAre(p, db.roles, k);
  }

  lemma SeedsAre(p: Policy, roles: map<Id, Role>, k: LinkKey)
    ensures k in RoleSeeds(p.catalogue, roles) <==> AskedFor(p, roles, k)
  {
  }

  lemma SeedsResolve(p: Policy, roles: map<Id, Role>, perms: map<Id, GlobalPermission>)
    requires Permissions.CatalogueComplete(perms, p.catalogue)
    ensures forall k | k in RoleSeeds(p.catalogue, roles) :: IsOpenRole(roles, k.role) && k.permission in perms
  {
  }
}
