/** Runs with the shipped catalogue after which no company can be created. */
module CreationFailures {
  import opened Prelude
  import opened Users
  import opened Store
  import opened Service
  import opened SystemPolicy
  import Members
  import Companies
  import DefaultRoles
  import CompanyCreation
  import CompanyOutcome

  // Two runs from the empty store ------------------------------------------------------------------------------

  const FOUNDER := map["u" := User("a", Hashed("pw"), false, Open, map[STATUS_KEY := Text(ACTIVE)])]

  /** A role of a default role's name, created before the first company and deleted again. */
  const VIEWER_DELETED: seq<Op> :=
    [Op.Accounts(FOUNDER), OnRoles(CreateRole("r", VIEWER, None)), OnRoles(DeleteRole("r"))]

  /** A permission of an operator's own that has a catalogue name. */
  const NAME_TAKEN: seq<Op> := [Op.Accounts(FOUNDER), OnPermissions(CreateGlobal("g", "company.read", None))]

  /** The same, and the permission deleted again. */
  const NAME_RETURNED: seq<Op> := NAME_TAKEN + [OnPermissions(DeleteGlobal("g"))]

  lemma {:induction false} OneMoreRequest(p: Policy, ops: seq<Op>, op: Op)
    requires AllDrawn(p, ops) && Drawn(p, op)
    ensures AllDrawn(p, ops + [op])
    ensures
      var before := Latest(EMPTY, States(p, EMPTY, ops));
      Latest(EMPTY, States(p, EMPTY, ops + [op])) == Latest(before, Apply(p, before, op).trail)
  {
    assert (ops + [op])[..|ops|] == ops;
    var before := Latest(EMPTY, States(p, EMPTY, ops));
    CompanyCreation.LatestAppend(EMPTY, States(p, EMPTY, ops), Apply(p, before, op).trail);
  }

  lemma FounderRegistered(p: Policy)
    ensures AllDrawn(p, [Op.Accounts(FOUNDER)])
    ensures Latest(EMPTY, States(p, EMPTY, [Op.Accounts(FOUNDER)])) == EMPTY.(users := FOUNDER)
  {
    OneMoreRequest(p, [], Op.Accounts(FOUNDER));
    assert [] + [Op.Accounts(FOUNDER)] == [Op.Accounts(FOUNDER)];
  }

  lemma ViewerDeletedState(p: Policy)
    ensures AllDrawn(p, VIEWER_DELETED)
    ensures Latest(EMPTY, States(p, EMPTY, VIEWER_DELETED)) ==
      EMPTY.(users := FOUNDER, roles := map["r" := Role(VIEWER, None, Closed)])
  {
    FounderRegistered(p);
    var first := [Op.Accounts(FOUNDER)];
    var second := first + [OnRoles(CreateRole("r", VIEWER, None))];
    OneMoreRequest(p, first, OnRoles(CreateRole("r", VIEWER, None)));
    OneMoreRequest(p, second, OnRoles(DeleteRole("r")));
    assert second + [OnRoles(DeleteRole("r"))] == VIEWER_DELETED;
  }

  lemma NameTakenState(p: Policy)
    requires !IsSystemId(p, "g")
    ensures AllDrawn(p, NAME_TAKEN)
    ensures Latest(EMPTY, States(p, EMPTY, NAME_TAKEN)) ==
      EMPTY.(users := FOUNDER, globalPerms := map["g" := GlobalPermission("company.read", None, Open)])
  {
    FounderRegistered(p);
    OneMoreRequest(p, [Op.Accounts(FOUNDER)], OnPermissions(CreateGlobal("g", "company.read", None)));
    assert [Op.Accounts(FOUNDER)] + [OnPermissions(CreateGlobal("g", "company.read", None))] == NAME_TAKEN;
  }

  lemma NameReturnedState(p: Policy)
    requires !IsSystemId(p, "g")
    ensures AllDrawn(p, NAME_RETURNED)
    ensures Latest(EMPTY, States(p, EMPTY, NAME_RETURNED)) == EMPTY.(users := FOUNDER)
  {
    NameTakenState(p);
    OneMoreRequest(p, NAME_TAKEN, OnPermissions(DeleteGlobal("g")));
  }

  lemma RunSatisfiesInv(p: Policy, ops: seq<Op>)
    requires ValidPolicy(p) && AllDrawn(p, ops)
    ensures Inv(p, Latest(EMPTY, States(p, EMPTY, ops)))
  {
    EmptySatisfiesInv(p);
    EveryCommitSatisfiesInv(p, ops);
  }

  // The first company after them -----------------------------------------------------------------------------

  /** Refused, with nothing left but the company's own row. */
  ghost predicate Stranded(p: Policy, db: Db, c: Id, email: string, ids: seq<Id>)
    requires |ids| == |p.defaults|
  {
    var step := Companies.CreateCompany(p, db, c, email, ids, "a");
    step.outcome.Refused? && step.trail == [db.(companies := map[c := Company(email, Open)])]
  }

  /** How a first company fares in a state with the founder's account, these roles and these permissions. */
  lemma FirstCompany(p: Policy, db: Db, c: Id, email: string, ids: seq<Id>)
    requires ValidPolicy(p) && Members.OWNER in DefaultRoles.Names(p.defaults, |p.defaults|)
    requires db == EMPTY.(users := FOUNDER, roles := db.roles, globalPerms := db.globalPerms) && Inv(p, db)
    requires |ids| == |p.defaults| && DefaultRoles.FreshIds(db.roles, ids)
    ensures
      var works := && DefaultRoles.NoneBurnt(db.roles, p.defaults, |p.defaults|)
        && (|| CompanyOutcome.NothingToAdd(db.roles, p.defaults)
            || CompanyOutcome.NamesFree(db.globalPerms, p.catalogue));
      && (Companies.CreateCompany(p, db, c, email, ids, "a").outcome.Done? <==> works)
      && (Stranded(p, db, c, email, ids) <==> !works)
  {
    assert db.users["u"].email == "a";
    CompanyOutcome.CreationSucceedsIff(p, db, c, email, ids, "a");
  }

  lemma ClosedRoleStrands(p: Policy, db: Db, c: Id, email: string, ids: seq<Id>, k: nat)
    requires ValidPolicy(p) && Members.OWNER in DefaultRoles.Names(p.defaults, |p.defaults|)
    requires k < |p.defaults| && p.defaults[k].name == VIEWER
    requires db == EMPTY.(users := FOUNDER, roles := map["r" := Role(VIEWER, None, Closed)]) && Inv(p, db)
    requires |ids| == |p.defaults| && DefaultRoles.FreshIds(db.roles, ids)
    ensures Stranded(p, db, c, email, ids)
  {
    FirstCompany(p, db, c, email, ids);
    assert "r" in db.roles && db.roles["r"].name == VIEWER && db.roles["r"].life.Closed?;
    assert DefaultRoles.NameBurnt(db.roles, p.defaults[k].name);
  }

  lemma TakenNameStrands(p: Policy, db: Db, c: Id, email: string, ids: seq<Id>, k: nat)
    requires ValidPolicy(p) && Members.OWNER in DefaultRoles.Names(p.defaults, |p.defaults|)
    requires k < |p.catalogue| && p.catalogue[k].name == "company.read" && p.catalogue[k].id != "g"
    requires db == EMPTY.(users := FOUNDER, globalPerms := map["g" := GlobalPermission("company.read", None, Open)])
    requires Inv(p, db) && |ids| == |p.defaults| && Distinct(ids)
    ensures Stranded(p, db, c, email, ids)
  {
    FirstCompany(p, db, c, email, ids);
    var i :| 0 <= i < |p.defaults| && p.defaults[i].name == Members.OWNER;
    assert !CompanyOutcome.HasOpenRole(db.roles, p.defaults[i].name);
    assert "g" in db.globalPerms && db.globalPerms["g"].name == p.catalogue[k].name;
  }

  lemma FounderSucceeds(p: Policy, db: Db, c: Id, email: string, ids: seq<Id>)
    requires ValidPolicy(p) && Members.OWNER in DefaultRoles.Names(p.defaults, |p.defaults|)
    requires db == EMPTY.(users := FOUNDER) && Inv(p, db) && |ids| == |p.defaults| && Distinct(ids)
    ensures Companies.CreateCompany(p, db, c, email, ids, "a").outcome.Done?
  {
    FirstCompany(p, db, c, email, ids);
  }

  lemma ShippedPolicy()
    ensures ValidPolicy(POLICY) && |POLICY.defaults| == 3 && !IsSystemId(POLICY, "g")
    ensures Members.OWNER in DefaultRoles.Names(POLICY.defaults, 3) && POLICY.defaults[2].name == VIEWER
    ensures POLICY.catalogue[0].name == "company.read" && POLICY.catalogue[0].id != "g"
  {
    PolicyIsValid();
    assert POLICY.defaults[0].name == Members.OWNER;
    assert |POLICY.catalogue[0].id| > |"g"|;
  }

  /** After the first run every creation is refused, with the new company's row left behind. */
  lemma DeletedViewerStopsCreation(c: Id, email: string, ids: seq<Id>)
    requires |ids| == 3 && Distinct(ids) && "r" !in ids
    ensures AllDrawn(POLICY, VIEWER_DELETED)
    ensures Stranded(POLICY, Latest(EMPTY, States(POLICY, EMPTY, VIEWER_DELETED)), c, email, ids)
  {
    ShippedPolicy();
    ViewerDeletedState(POLICY);
    RunSatisfiesInv(POLICY, VIEWER_DELETED);
    ClosedRoleStrands(POLICY, Latest(EMPTY, States(POLICY, EMPTY, VIEWER_DELETED)), c, email, ids, 2);
  }

  /** After the second run creation is refused in the same way, but only until the permission is deleted. */
  lemma TakenNameStopsCreation(c: Id, email: string, ids: seq<Id>)
    requires |ids| == 3 && Distinct(ids)
    ensures AllDrawn(POLICY, NAME_TAKEN) && AllDrawn(POLICY, NAME_RETURNED)
    ensures Stranded(POLICY, Latest(EMPTY, States(POLICY, EMPTY, NAME_TAKEN)), c, email, ids)
    ensures
      var later := Latest(EMPTY, States(POLICY, EMPTY, NAME_RETURNED));
      Companies.CreateCompany(POLICY, later, c, email, ids, "a").outcome.Done?
  {
    ShippedPolicy();
    NameTakenState(POLICY);
    RunSatisfiesInv(POLICY, NAME_TAKEN);
    TakenNameStrands(POLICY, Latest(EMPTY, States(POLICY, EMPTY, NAME_TAKEN)), c, email, ids, 0);
    NameReturnedState(POLICY);
    RunSatisfiesInv(POLICY, NAME_RETURNED);
    FounderSucceeds(POLICY, Latest(EMPTY, States(POLICY, EMPTY, NAME_RETURNED)), c, email, ids);
  }
}
