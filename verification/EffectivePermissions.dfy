/** The permissions a role carries in a company, and the order in which they are listed. */
module EffectivePermissions {
  import opened Prelude
  import opened Store

  datatype Scope = GlobalScope | CompanyScope

  datatype PermissionRead =
    PermissionRead(id: Id, name: string, description: Option<string>, scope: Scope, company: Option<Id>)

  function ReadGlobal(id: Id, row: GlobalPermission): PermissionRead {
    PermissionRead(id, row.name, row.description, GlobalScope, None)
  }

  function ReadCompany(id: Id, row: CompanyPermission): PermissionRead {
    PermissionRead(id, row.name, row.description, CompanyScope, Some(row.company))
  }

  /** The joined rows of role links and global permissions, none of them closed. */
  function LinkRows(db: Db, roles: set<Id>): set<LinkKey> {
    set k | k in db.links && k.role in roles && db.links[k].Open?
      && k.permission in db.globalPerms && db.globalPerms[k.permission].life.Open?
  }

  /** The joined rows of company grants and company permissions, none of them closed. */
  function GrantRows(db: Db, pairs: set<(Id, Id)>): set<GrantKey> {
    set k | k in db.grants && (k.company, k.role) in pairs && db.grants[k].Open?
      && k.permission in db.companyPerms && db.companyPerms[k.permission].company == k.company
      && db.companyPerms[k.permission].life.Open?
  }

  function ReadLink(db: Db, k: LinkKey): PermissionRead
    requires k.permission in db.globalPerms
  {
    ReadGlobal(k.permission, db.globalPerms[k.permission])
  }

  function ReadGrant(db: Db, k: GrantKey): PermissionRead
    requires k.permission in db.companyPerms
  {
    ReadCompany(k.permission, db.companyPerms[k.permission])
  }

  function GlobalOf(db: Db, r: Id): set<PermissionRead> {
    set k | k in LinkRows(db, {r}) :: ReadLink(db, k)
  }

  function CompanyOf(db: Db, c: Id, r: Id): set<PermissionRead> {
    set k | k in GrantRows(db, {(c, r)}) :: ReadGrant(db, k)
  }

  function Effective(db: Db, c: Id, r: Id): set<PermissionRead> {
    GlobalOf(db, r) + CompanyOf(db, c, r)
  }

  lemma GlobalOfHas(db: Db, r: Id, x: PermissionRead)
    ensures x in GlobalOf(db, r) <==> LinkKey(r, x.id) in LinkRows(db, {r}) && x == ReadLink(db, LinkKey(r, x.id))
  {
  }

  // The sort key: scope, name, identifier ------------------------------------------

  predicate TextLe(a: string, b: string) {
    a == [] || (b != [] && (a[0] < b[0] || (a[0] == b[0] && TextLe(a[1..], b[1..]))))
  }

  lemma {:induction false} TextLeTotal(a: string, b: string)
    ensures TextLe(a, b) || TextLe(b, a)
  {
    if a != [] && b != [] {
      TextLeTotal(a[1..], b[1..]);
    }
  }

  lemma {:induction false} TextLeAntisymmetric(a: string, b: string)
    requires TextLe(a, b) && TextLe(b, a)
    ensures a == b
  {
    if a != [] && b != [] {
      TextLeAntisymmetric(a[1..], b[1..]);
      assert a == [a[0]] + a[1..] && b == [b[0]] + b[1..];
    }
  }

  lemma {:induction false} TextLeTransitive(a: string, b: string, c: string)
    requires TextLe(a, b) && TextLe(b, c)
    ensures TextLe(a, c)
  {
    if a != [] && a[0] == b[0] == c[0] {
      TextLeTransitive(a[1..], b[1..], c[1..]);
    }
  }

  /** Company permissions sort before global ones: the scope texts are "company" and "global". */
  predicate ScopeLt(a: Scope, b: Scope) {
    a.CompanyScope? && b.GlobalScope?
  }

  predicate NameIdLe(a: PermissionRead, b: PermissionRead) {
    if a.name == b.name then TextLe(a.id, b.id) else TextLe(a.name, b.name)
  }

  predicate Le(a: PermissionRead, b: PermissionRead) {
    ScopeLt(a.scope, b.scope) || (a.scope == b.scope && NameIdLe(a, b))
  }

  predicate SameKey(a: PermissionRead, b: PermissionRead) {
    a.scope == b.scope && a.name == b.name && a.id == b.id
  }

  lemma LeTotal(a: PermissionRead, b: PermissionRead)
    ensures Le(a, b) || Le(b, a)
  {
    TextLeTotal(a.name, b.name);
    TextLeTotal(a.id, b.id);
  }

  lemma LeAntisymmetric(a: PermissionRead, b: PermissionRead)
    requires Le(a, b) && Le(b, a)
    ensures SameKey(a, b)
  {
    if a.name == b.name {
      TextLeAntisymmetric(a.id, b.id);
    } else {
      TextLeAntisymmetric(a.name, b.name);
    }
  }

  lemma LeTransitive(a: PermissionRead, b: PermissionRead, c: PermissionRead)
    requires Le(a, b) && Le(b, c)
    ensures Le(a, c)
  {
    if a.scope == b.scope == c.scope {
      if a.name == b.name == c.name {
        TextLeTransitive(a.id, b.id, c.id);
      } else if a.name != b.name && b.name != c.name {
        TextLeTransitive(a.name, b.name, c.name);
        if a.name == c.name {
          TextLeAntisymmetric(a.name, b.name);
        }
      }
    }
  }

  // Sorted lists ------------------------------------------------------------------

  ghost predicate Sorted(s: seq<PermissionRead>) {
    forall i, j | 0 <= i < j < |s| :: Le(s[i], s[j])
  }

  ghost predicate StrictlySorted(s: seq<PermissionRead>) {
    forall i, j | 0 <= i < j < |s| :: Le(s[i], s[j]) && !SameKey(s[i], s[j])
  }

  /** The list holds each element of the set once and nothing else. */
  ghost predicate Enumerates(s: seq<PermissionRead>, xs: set<PermissionRead>) {
    multiset(s) == multiset(xs)
  }

  /** No two elements share a sort key. */
  ghost predicate KeysDiffer(xs: set<PermissionRead>) {
    forall a, b | a in xs && b in xs && SameKey(a, b) :: a == b
  }

  /** The listing of a set: its elements in strictly increasing order. */
  ghost predicate ListingOf(s: seq<PermissionRead>, xs: set<PermissionRead>) {
    StrictlySorted(s) && Enumerates(s, xs)
  }

  function Insert(x: PermissionRead, s: seq<PermissionRead>): (r: seq<PermissionRead>)
    ensures multiset(r) == multiset(s) + multiset{x}
  {
    if s == [] then [x]
    else if Le(x, s[0]) then [x] + s
    else
      assert s == [s[0]] + s[1..];
      [s[0]] + Insert(x, s[1..])
  }

  function Sort(s: seq<PermissionRead>): (r: seq<PermissionRead>)
    ensures multiset(r) == multiset(s)
  {
    if s == [] then []
    else
      assert s == [s[0]] + s[1..];
      Insert(s[0], Sort(s[1..]))
  }

  lemma InsertMembers(x: PermissionRead, s: seq<PermissionRead>, y: PermissionRead)
    ensures y in Insert(x, s) <==> y == x || y in s
  {
    assert y in Insert(x, s) <==> y in multiset(Insert(x, s));
    assert y in s <==> y in multiset(s);
  }

  lemma {:induction false} InsertSorted(x: PermissionRead, s: seq<PermissionRead>)
    requires Sorted(s)
    ensures Sorted(Insert(x, s))
  {
    if s != [] {
      if Le(x, s[0]) {
        forall j | 0 <= j < |s|
          ensures Le(x, s[j])
        {
          if j > 0 {
            LeTransitive(x, s[0], s[j]);
          }
        }
      } else {
        LeTotal(x, s[0]);
        InsertSorted(x, s[1..]);
        var rest := Insert(x, s[1..]);
        forall j | 0 <= j < |rest|
          ensures Le(s[0], rest[j])
        {
          InsertMembers(x, s[1..], rest[j]);
          assert rest[j] in rest;
        }
      }
    }
  }

  lemma {:induction false} SortSorts(s: seq<PermissionRead>)
    ensures Sorted(Sort(s))
  {
    if s != [] {
      SortSorts(s[1..]);
      InsertSorted(s[0], Sort(s[1..]));
    }
  }

  lemma EnumeratesNoRepeat(s: seq<PermissionRead>, xs: set<PermissionRead>, i: nat, j: nat)
    requires Enumerates(s, xs) && i < j < |s|
    ensures s[i] != s[j] && s[i] in xs && s[j] in xs
  {
    assert s == s[..i] + [s[i]] + s[i + 1..j] + [s[j]] + s[j + 1..];
    assert multiset(s)[s[i]] == multiset(xs)[s[i]] <= 1;
    assert s[i] in multiset(s) && s[j] in multiset(s);
  }

  lemma SortedIsListing(s: seq<PermissionRead>, xs: set<PermissionRead>)
    requires Sorted(s) && Enumerates(s, xs) && KeysDiffer(xs)
    ensures ListingOf(s, xs)
  {
    forall i, j | 0 <= i < j < |s|
      ensures !SameKey(s[i], s[j])
    {
      EnumeratesNoRepeat(s, xs, i, j);
    }
  }

  /** A set has at most one listing, so the order in which rows arrived cannot show. */
  lemma {:induction false} ListingIsUnique(s: seq<PermissionRead>, t: seq<PermissionRead>)
    requires StrictlySorted(s) && StrictlySorted(t) && multiset(s) == multiset(t)
    ensures s == t
  {
    if s == [] || t == [] {
      assert |s| == |multiset(s)| == |multiset(t)| == |t|;
    } else {
      FirstIsLeast(s, t);
      FirstIsLeast(t, s);
      LeAntisymmetric(s[0], t[0]);
      SameFirst(s, t);
      RestsAgree(s, t);
      ListingIsUnique(s[1..], t[1..]);
    }
  }

  lemma RestsAgree<T>(s: seq<T>, t: seq<T>)
    requires s != [] && t != [] && s[0] == t[0] && multiset(s) == multiset(t)
    ensures multiset(s[1..]) == multiset(t[1..])
  {
    assert s == [s[0]] + s[1..] && t == [t[0]] + t[1..];
    assert multiset(s[1..]) == multiset(s) - multiset{s[0]};
    assert multiset(t[1..]) == multiset(t) - multiset{t[0]};
  }

  lemma FirstIsLeast(s: seq<PermissionRead>, t: seq<PermissionRead>)
    requires StrictlySorted(s) && s != [] && t != [] && multiset(s) == multiset(t)
    ensures Le(s[0], t[0])
  {
    assert t[0] in multiset(t) && t[0] in s;
    var j :| 0 <= j < |s| && s[j] == t[0];
    if j == 0 {
      LeTotal(s[0], s[0]);
    }
  }

  lemma SameFirst(s: seq<PermissionRead>, t: seq<PermissionRead>)
    requires StrictlySorted(s) && s != [] && t != [] && multiset(s) == multiset(t)
    requires SameKey(s[0], t[0])
    ensures s[0] == t[0]
  {
    assert t[0] in multiset(t) && t[0] in s;
    var j :| 0 <= j < |s| && s[j] == t[0];
  }

  /** Within a role, no two permissions share scope, name and identifier. */
  lemma EffectiveKeysDiffer(db: Db, c: Id, r: Id)
    ensures KeysDiffer(GlobalOf(db, r)) && KeysDiffer(Effective(db, c, r))
  {
  }

  /** Any two lookups of a pair, in whatever batches and row orders, give the same list. */
  lemma ListingsAgree(s: seq<PermissionRead>, t: seq<PermissionRead>, xs: set<PermissionRead>)
    requires ListingOf(s, xs) && ListingOf(t, xs)
    ensures s == t
  {
    ListingIsUnique(s, t);
  }

  /** One company's permissions never show up under another. */
  lemma NoForeignPermissions(db: Db, c: Id, r: Id, x: PermissionRead)
    requires x in Effective(db, c, r) && x.scope.CompanyScope?
    ensures x.company == Some(c)
    ensures x.id in db.companyPerms && db.companyPerms[x.id].company == c
    ensures GrantKey(c, r, x.id) in db.grants
  {
    assert x !in GlobalOf(db, r);
  }
}
