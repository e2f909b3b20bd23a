/** What a permission listing shows and in which order, in terms of rows and text. */
module ListingOrder {
  import opened Prelude
  import opened Store
  import opened EffectivePermissions

  /** A role carries, in a company, its linked global permissions and that company's grants to it, if none is closed. */
  lemma EffectiveRows(db: Db, c: Id, r: Id, x: PermissionRead)
    ensures x in Effective(db, c, r) <==>
      || (&& LinkKey(r, x.id) in db.links && db.links[LinkKey(r, x.id)] == Open
          && x.id in db.globalPerms && db.globalPerms[x.id].life == Open
          && x == PermissionRead(x.id, db.globalPerms[x.id].name, db.globalPerms[x.id].description, GlobalScope, None))
      || (&& GrantKey(c, r, x.id) in db.grants && db.grants[GrantKey(c, r, x.id)] == Open
          && x.id in db.companyPerms && db.companyPerms[x.id].life == Open && db.companyPerms[x.id].company == c
          && x == PermissionRead(x.id, db.companyPerms[x.id].name, db.companyPerms[x.id].description, CompanyScope,
               Some(c)))
  {
    if LinkKey(r, x.id) in LinkRows(db, {r}) {
      assert ReadLink(db, LinkKey(r, x.id)) in GlobalOf(db, r);
    }
    if GrantKey(c, r, x.id) in GrantRows(db, {(c, r)}) {
      assert ReadGrant(db, GrantKey(c, r, x.id)) in CompanyOf(db, c, r);
    }
  }

  /** In a state of the service no link or grant is closed, so the rows need only be there. */
  lemma EffectiveIs(p: Policy, db: Db, c: Id, r: Id, x: PermissionRead)
    requires Inv(p, db)
    ensures x in Effective(db, c, r) <==>
      || (&& LinkKey(r, x.id) in db.links && x.id in db.globalPerms
          && x == PermissionRead(x.id, db.globalPerms[x.id].name, db.globalPerms[x.id].description, GlobalScope, None))
      || (&& GrantKey(c, r, x.id) in db.grants && x.id in db.companyPerms
          && x == PermissionRead(x.id, db.companyPerms[x.id].name, db.companyPerms[x.id].description, CompanyScope,
               Some(c)))
  {
    EffectiveRows(db, c, r, x);
  }

  predicate AgreeUpTo(a: string, b: string, n: nat) {
    n <= |a| && n <= |b| && forall i | 0 <= i < n :: a[i] == b[i]
  }

  /** Text order: the first place that differs decides, and a prefix comes first. */
  ghost predicate Before(a: string, b: string) {
    || (|a| < |b| && AgreeUpTo(a, b, |a|))
    || (exists k: nat :: SmallerAt(a, b, k))
  }

  predicate SmallerAt(a: string, b: string, k: nat) {
    k < |a| && k < |b| && AgreeUpTo(a, b, k) && a[k] < b[k]
  }

  lemma {:induction false} TextLeIs(a: string, b: string)
    ensures TextLe(a, b) <==> a == b || Before(a, b)
  {
    if a != [] && b != [] {
      if a[0] == b[0] {
        TextLeIs(a[1..], b[1..]);
        BeforeShifts(a, b);
      } else {
        assert SmallerAt(a, b, 0) <==> a[0] < b[0];
      }
    }
  }

  lemma BeforeShifts(a: string, b: string)
    requires a != [] && b != [] && a[0] == b[0]
    ensures Before(a, b) <==> Before(a[1..], b[1..])
    ensures a == b <==> a[1..] == b[1..]
  {
    assert a == [a[0]] + a[1..] && b == [b[0]] + b[1..];
    forall n: nat
      ensures AgreeUpTo(a, b, n + 1) <==> AgreeUpTo(a[1..], b[1..], n)
    {
      AgreementShifts(a, b, n);
    }
    if k: nat :| SmallerAt(a, b, k) {
      assert AgreeUpTo(a, b, k - 1 + 1);
      assert SmallerAt(a[1..], b[1..], k - 1);
    }
    if k: nat :| SmallerAt(a[1..], b[1..], k) {
      assert SmallerAt(a, b, k + 1);
    }
    assert AgreeUpTo(a, b, |a| - 1 + 1) <==> AgreeUpTo(a[1..], b[1..], |a| - 1);
  }

  lemma AgreementShifts(a: string, b: string, n: nat)
    requires a != [] && b != [] && a[0] == b[0]
    ensures AgreeUpTo(a, b, n + 1) <==> AgreeUpTo(a[1..], b[1..], n)
  {
    if AgreeUpTo(a[1..], b[1..], n) {
      forall i | 0 <= i < n + 1
        ensures a[i] == b[i]
      {
        if i > 0 {
          assert a[1..][i - 1] == b[1..][i - 1];
        }
      }
    }
  }

  /** In a listing the company's own permissions come before global ones, each part ordered by name, then by id. */
  lemma ListingIsOrdered(s: seq<PermissionRead>, xs: set<PermissionRead>, i: nat, j: nat)
    requires ListingOf(s, xs) && i < j < |s|
    ensures s[i].scope == GlobalScope ==> s[j].scope == GlobalScope
    ensures s[i].scope == s[j].scope ==>
      Before(s[i].name, s[j].name) || (s[i].name == s[j].name && Before(s[i].id, s[j].id))
  {
    TextLeIs(s[i].name, s[j].name);
    TextLeIs(s[i].id, s[j].id);
  }
}
