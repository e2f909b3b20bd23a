/** Batch lookup of permission lists: list objects filled row by row and sorted in place. */
module PermissionListing {
  import opened Prelude
  import opened Store
  import opened EffectivePermissions

  /** A list object: it can be shared, appended to and sorted in place. */
  class PermissionList {
    var items: seq<PermissionRead>

    constructor (items: seq<PermissionRead>)
      ensures this.items == items
    {
      this.items := items;
    }

    method Append(x: PermissionRead)
      modifies this
      ensures items == old(items) + [x]
    {
      items := items + [x];
    }

    method SortInPlace(ghost xs: set<PermissionRead>)
      requires Enumerates(items, xs) && KeysDiffer(xs)
      modifies this
      ensures ListingOf(items, xs)
    {
      SortSorts(items);
      items := Sort(items);
      SortedIsListing(items, xs);
    }
  }

  /** No two keys share a list object. */
  ghost predicate Separate<K>(result: map<K, PermissionList>) {
    forall a, b | a in result && b in result && a != b :: result[a] != result[b]
  }

  /** The contents of the lists, as a value. */
  ghost function Items<K>(result: map<K, PermissionList>): map<K, seq<PermissionRead>>
    reads result.Values
  {
    map k | k in result :: result[k].items
  }

  method AppendTo<K>(result: map<K, PermissionList>, key: K, x: PermissionRead)
    requires Separate(result) && key in result
    modifies result[key]
    ensures Items(result) == old(Items(result))[key := old(Items(result))[key] + [x]]
  {
    result[key].Append(x);
  }

  /** Every key's list enumerates that key's content. */
  ghost predicate Filed<K>(items: map<K, seq<PermissionRead>>, content: map<K, set<PermissionRead>>) {
    items.Keys == content.Keys && forall k | k in items :: Enumerates(items[k], content[k])
  }

  lemma FiledNext<K>(items: map<K, seq<PermissionRead>>, content: map<K, set<PermissionRead>>, key: K,
                     x: PermissionRead)
    requires Filed(items, content) && key in items && x !in content[key]
    ensures Filed(items[key := items[key] + [x]], content[key := content[key] + {x}])
  {
    AppendEnumerates(items[key], content[key], x);
  }

  lemma FiledFirst<K>(items: map<K, seq<PermissionRead>>, content: map<K, set<PermissionRead>>, key: K,
                      x: PermissionRead)
    requires Filed(items, content) && key !in items
    ensures Filed(items[key := [x]], content[key := {x}])
  {
  }

  method AppendRow<K>(result: map<K, PermissionList>, key: K, x: PermissionRead, ghost content: map<K,
                      set<PermissionRead>>)
    requires Separate(result) && Filed(Items(result), content) && key in result && x !in content[key]
    modifies result[key]
    ensures Filed(Items(result), content[key := content[key] + {x}])
  {
    FiledNext(Items(result), content, key, x);
    AppendTo(result, key, x);
  }

  /** Sorts every list in place, one after another. */
  method SortAll<K(==)>(result: map<K, PermissionList>, ghost content: map<K, set<PermissionRead>>)
    requires Separate(result) && Filed(Items(result), content)
    requires forall k | k in content :: KeysDiffer(content[k])
    modifies result.Values
    ensures forall k | k in result :: k in content && ListingOf(Items(result)[k], content[k])
  {
    var left := result.Keys;
    while left != {}
      invariant left <= result.Keys
      invariant forall k | k in left :: Enumerates(result[k].items, content[k])
      invariant forall k | k in result && k !in left :: ListingOf(result[k].items, content[k])
    {
      var k :| k in left;
      result[k].SortInPlace(content[k]);
      left := left - {k};
    }
  }

  lemma AppendEnumerates(s: seq<PermissionRead>, xs: set<PermissionRead>, x: PermissionRead)
    requires Enumerates(s, xs) && x !in xs
    ensures Enumerates(s + [x], xs + {x})
  {
  }

  // What the joined rows contribute ---------------------------------------------------

  /** The reads of one role among some joined link rows. */
  ghost function LinkReads(db: Db, rows: set<LinkKey>, r: Id): set<PermissionRead> {
    set k | k in rows && k.role == r && k.permission in db.globalPerms :: ReadLink(db, k)
  }

  /** The roles that have a row, with their reads. */
  ghost function LinkContent(db: Db, rows: set<LinkKey>): map<Id, set<PermissionRead>> {
    map r | r in (set k | k in rows :: k.role) :: LinkReads(db, rows, r)
  }

  lemma LinkReadsNext(db: Db, rows: set<LinkKey>, k: LinkKey, r: Id)
    requires k !in rows && k.permission in db.globalPerms
    ensures LinkReads(db, rows + {k}, r) == LinkReads(db, rows, r) + if k.role == r then {ReadLink(db, k)} else {}
    ensures k.role == r ==> ReadLink(db, k) !in LinkReads(db, rows, r)
  {
  }

  lemma LinkContentNext(db: Db, rows: set<LinkKey>, k: LinkKey)
    requires k !in rows && k.permission in db.globalPerms
    ensures
      var before := LinkContent(db, rows);
      var own := if k.role in before then before[k.role] else {};
      ReadLink(db, k) !in own && LinkContent(db, rows + {k}) == before[k.role := own + {ReadLink(db, k)}]
  {
    var before, after := LinkContent(db, rows), LinkContent(db, rows + {k});
    assert (set j | j in rows + {k} :: j.role) == (set j | j in rows :: j.role) + {k.role};
    LinkReadsNext(db, rows, k, k.role);
    if k.role !in before {
      assert LinkReads(db, rows, k.role) == {};
    }
    forall r | r in after && r != k.role
      ensures after[r] == before[r]
    {
      LinkReadsNext(db, rows, k, r);
    }
  }

  lemma LinkReadsAll(db: Db, roles: set<Id>, r: Id)
    requires r in roles
    ensures LinkReads(db, LinkRows(db, roles), r) == GlobalOf(db, r)
  {
    forall k | k in LinkRows(db, {r})
      ensures k in LinkRows(db, roles) && k.role == r
    {
    }
  }

  lemma LinkContentAll(db: Db, roles: set<Id>)
    ensures
      var content := LinkContent(db, LinkRows(db, roles));
      && (forall r :: r in content <==> r in roles && GlobalOf(db, r) != {})
      && (forall r | r in content :: content[r] == GlobalOf(db, r) && KeysDiffer(content[r]))
  {
    forall r
      ensures r in LinkContent(db, LinkRows(db, roles)) <==> r in roles && GlobalOf(db, r) != {}
    {
      RolesWithRows(db, roles, r);
    }
    forall r | r in roles
      ensures LinkReads(db, LinkRows(db, roles), r) == GlobalOf(db, r) && KeysDiffer(GlobalOf(db, r))
    {
      LinkReadsAll(db, roles, r);
      EffectiveKeysDiffer(db, r, r);
    }
  }

  lemma RolesWithRows(db: Db, roles: set<Id>, r: Id)
    ensures r in (set k | k in LinkRows(db, roles) :: k.role) <==> r in roles && GlobalOf(db, r) != {}
  {
    if r in (set k | k in LinkRows(db, roles) :: k.role) {
      var k :| k in LinkRows(db, roles) && k.role == r;
      assert k in LinkRows(db, {r});
      assert ReadLink(db, k) in GlobalOf(db, r);
    }
    if r in roles && GlobalOf(db, r) != {} {
      var x :| x in GlobalOf(db, r);
      var k :| k in LinkRows(db, {r}) && ReadLink(db, k) == x;
      assert k in LinkRows(db, roles) && k.role == r;
    }
  }

  /** The reads of one pair among some joined grant rows. */
  ghost function GrantReads(db: Db, rows: set<GrantKey>, c: Id, r: Id): set<PermissionRead> {
    set k | k in rows && k.company == c && k.role == r && k.permission in db.companyPerms :: ReadGrant(db, k)
  }

  ghost function PairReads(db: Db, rows: set<GrantKey>, c: Id, r: Id): set<PermissionRead> {
    GlobalOf(db, r) + GrantReads(db, rows, c, r)
  }

  ghost function PairContent(db: Db, pairs: set<(Id, Id)>, rows: set<GrantKey>): map<(Id, Id), set<PermissionRead>> {
    map p | p in pairs :: PairReads(db, rows, p.0, p.1)
  }

  lemma GrantReadsNext(db: Db, rows: set<GrantKey>, k: GrantKey, c: Id, r: Id)
    requires k !in rows && k.permission in db.companyPerms
    ensures GrantReads(db, rows + {k}, c, r) ==
      GrantReads(db, rows, c, r) + if k.company == c && k.role == r then {ReadGrant(db, k)} else {}
    ensures k.company == c && k.role == r ==> ReadGrant(db, k) !in GrantReads(db, rows, c, r)
  {
  }

  lemma GrantIsNotGlobal(db: Db, k: GrantKey, r: Id)
    requires k.permission in db.companyPerms
    ensures ReadGrant(db, k) !in GlobalOf(db, r)
  {
  }

  lemma PairReadsNext(db: Db, rows: set<GrantKey>, k: GrantKey, p: (Id, Id))
    requires k !in rows && k.permission in db.companyPerms
    ensures PairReads(db, rows + {k}, p.0, p.1) ==
      if p == (k.company, k.role) then PairReads(db, rows, p.0, p.1) + {ReadGrant(db, k)}
      else PairReads(db, rows, p.0, p.1)
    ensures p == (k.company, k.role) ==> ReadGrant(db, k) !in PairReads(db, rows, p.0, p.1)
  {
    GrantReadsNext(db, rows, k, p.0, p.1);
    GrantIsNotGlobal(db, k, p.1);
  }

  lemma PairContentNext(db: Db, pairs: set<(Id, Id)>, rows: set<GrantKey>, k: GrantKey)
    requires k !in rows && k.permission in db.companyPerms && (k.company, k.role) in pairs
    ensures
      var before := PairContent(db, pairs, rows);
      var pair := (k.company, k.role);
      && ReadGrant(db, k) !in before[pair]
      && PairContent(db, pairs, rows + {k}) == before[pair := before[pair] + {ReadGrant(db, k)}]
  {
    forall p | p in pairs
      ensures PairReads(db, rows + {k}, p.0, p.1) ==
        if p == (k.company, k.role) then PairReads(db, rows, p.0, p.1) + {ReadGrant(db, k)}
        else PairReads(db, rows, p.0, p.1)
    {
      PairReadsNext(db, rows, k, p);
    }
    PairReadsNext(db, rows, k, (k.company, k.role));
  }

  lemma GrantReadsAll(db: Db, pairs: set<(Id, Id)>, p: (Id, Id))
    requires p in pairs
    ensures GrantReads(db, GrantRows(db, pairs), p.0, p.1) == CompanyOf(db, p.0, p.1)
  {
    forall k | k in GrantRows(db, {p})
      ensures k in GrantRows(db, pairs) && k.company == p.0 && k.role == p.1
    {
    }
  }

  ghost function EffectiveContent(db: Db, pairs: set<(Id, Id)>): map<(Id, Id), set<PermissionRead>> {
    map p | p in pairs :: Effective(db, p.0, p.1)
  }

  lemma PairContentAll(db: Db, pairs: set<(Id, Id)>)
    ensures PairContent(db, pairs, GrantRows(db, pairs)) == EffectiveContent(db, pairs)
    ensures forall p | p in pairs :: KeysDiffer(Effective(db, p.0, p.1))
  {
    forall p | p in pairs
      ensures PairReads(db, GrantRows(db, pairs), p.0, p.1) == Effective(db, p.0, p.1)
      ensures KeysDiffer(Effective(db, p.0, p.1))
    {
      GrantReadsAll(db, pairs, p);
      EffectiveKeysDiffer(db, p.0, p.1);
    }
  }

  // The lookups ------------------------------------------------------------------------

  class PermissionReader {
    const db: Db

    constructor (db: Db)
      ensures this.db == db
    {
      this.db := db;
    }

    /** Appends to a role's list, creating it first if need be, as a dictionary of default lists does. */
    method AppendLink(result: map<Id, PermissionList>, key: Id, x: PermissionRead, ghost content: map<Id,
                      set<PermissionRead>>)
      returns (after: map<Id, PermissionList>)
      requires Separate(result) && Filed(Items(result), content)
      requires key in content ==> x !in content[key]
      modifies result.Values
      ensures Separate(after)
      ensures forall r | r in after :: (r in result && after[r] == result[r]) || fresh(after[r])
      ensures Filed(Items(after), content[key := (if key in content then content[key] else {}) + {x}])
    {
      if key in result {
        AppendRow(result, key, x, content);
        after := result;
      } else {
        after := AddList(result, key, x, content);
      }
    }

    method NewList(x: PermissionRead) returns (list: PermissionList)
      ensures fresh(list) && list.items == [x]
    {
      list := new PermissionList([]);
      list.Append(x);
    }

    method AddList(result: map<Id, PermissionList>, key: Id, x: PermissionRead, ghost content: map<Id,
                   set<PermissionRead>>)
      returns (after: map<Id, PermissionList>)
      requires Separate(result) && Filed(Items(result), content) && key !in result
      ensures Separate(after)
      ensures forall r | r in after :: (r in result && after[r] == result[r]) || fresh(after[r])
      ensures Filed(Items(after), content[key := {x}])
    {
      FiledFirst(Items(result), content, key, x);
      var list := NewList(x);
      after := result[key := list];
      assert Items(after) == Items(result)[key := [x]];
    }

    /** Appends every joined row, in whatever order the database returns them, to the list of its role. */
    method CollectGlobal(roles: set<Id>) returns (result: map<Id, PermissionList>)
      ensures Separate(result) && forall r | r in result :: fresh(result[r])
      ensures Filed(Items(result), LinkContent(db, LinkRows(db, roles)))
    {
      var rows := LinkRows(db, roles);
      result := map[];
      var left := rows;
      assert rows - left == {};
      while left != {}
        invariant left <= rows
        invariant Separate(result) && forall r | r in result :: fresh(result[r])
        invariant Filed(Items(result), LinkContent(db, rows - left))
      {
        var k :| k in left;
        LinkContentNext(db, rows - left, k);
        result := AppendLink(result, k.role, ReadLink(db, k), LinkContent(db, rows - left));
        assert rows - (left - {k}) == rows - left + {k};
        left := left - {k};
      }
      assert rows - left == rows;
    }

    /** The global permissions of each role that has any, as sorted lists of its own. */
    method GlobalPermissionsByRoleIds(roles: set<Id>) returns (result: map<Id, PermissionList>)
      ensures Separate(result) && forall r | r in result :: fresh(result[r])
      ensures forall r :: r in result <==> r in roles && GlobalOf(db, r) != {}
      ensures forall r | r in result :: ListingOf(Items(result)[r], GlobalOf(db, r))
    {
      result := CollectGlobal(roles);
      LinkContentAll(db, roles);
      SortAll(result, LinkContent(db, LinkRows(db, roles)));
    }

    /** The global listing of each role, by value: what a copy of its list holds. */
    method GlobalListings(roles: set<Id>) returns (listings: map<Id, seq<PermissionRead>>)
      ensures forall r | r in roles :: Enumerates(Listing(listings, r), GlobalOf(db, r))
    {
      var globals := GlobalPermissionsByRoleIds(roles);
      listings := map r | r in globals :: globals[r].items;
    }

    function Listing(listings: map<Id, seq<PermissionRead>>, r: Id): seq<PermissionRead> {
      if r in listings then listings[r] else []
    }

    /** One list per pair, each a copy of its role's global list: pairs that share a role share no object. */
    method CopyGlobal(pairs: set<(Id, Id)>) returns (result: map<(Id, Id), PermissionList>)
      ensures Separate(result) && forall p | p in result :: fresh(result[p])
      ensures result.Keys == pairs && Filed(Items(result), PairContent(db, pairs, {}))
    {
      var listings := GlobalListings(set p | p in pairs :: p.1);
      result := map[];
      var left := pairs;
      while left != {}
        invariant left <= pairs && result.Keys == pairs - left
        invariant Separate(result) && forall p | p in result :: fresh(result[p])
        invariant forall p | p in result :: result[p].items == Listing(listings, p.1)
      {
        var p :| p in left;
        var list := new PermissionList(Listing(listings, p.1));
        result := result[p := list];
        left := left - {p};
      }
      PairsStartGlobal(pairs, Items(result));
    }

    lemma PairsStartGlobal(pairs: set<(Id, Id)>, items: map<(Id, Id), seq<PermissionRead>>)
      requires items.Keys == pairs && forall p | p in items :: Enumerates(items[p], GlobalOf(db, p.1))
      ensures Filed(items, PairContent(db, pairs, {}))
    {
      forall p | p in pairs
        ensures PairReads(db, {}, p.0, p.1) == GlobalOf(db, p.1)
      {
      }
    }

    /** Appends every joined company row, in any order, to the list of its pair. */
    method AppendGrants(result: map<(Id, Id), PermissionList>, pairs: set<(Id, Id)>, rows: set<GrantKey>)
      requires Separate(result) && result.Keys == pairs
      requires forall k | k in rows :: k.permission in db.companyPerms && (k.company, k.role) in pairs
      requires Filed(Items(result), PairContent(db, pairs, {}))
      modifies result.Values
      ensures Filed(Items(result), PairContent(db, pairs, rows))
    {
      var left := rows;
      ghost var done: set<GrantKey> := {};
      while left != {}
        invariant left <= rows && done == rows - left
        invariant Filed(Items(result), PairContent(db, pairs, done))
      {
        var k :| k in left;
        AppendGrant(result, pairs, done, k);
        left := left - {k};
        done := done + {k};
      }
      assert done == rows;
    }

    method AppendGrant(result: map<(Id, Id), PermissionList>, ghost pairs: set<(Id, Id)>, ghost done: set<GrantKey>,
                       k: GrantKey)
      requires Separate(result) && result.Keys == pairs
      requires k !in done && k.permission in db.companyPerms && (k.company, k.role) in pairs
      requires Filed(Items(result), PairContent(db, pairs, done))
      modifies result.Values
      ensures Filed(Items(result), PairContent(db, pairs, done + {k}))
    {
      PairContentNext(db, pairs, done, k);
      AppendRow(result, (k.company, k.role), ReadGrant(db, k), PairContent(db, pairs, done));
    }

    /**
     * One list per pair of company and role, whatever repeats and order the request has: the strictly
     * sorted listing of the pair's effective permissions, in an object of its own.
     */
    method EffectivePermissionsByAssignments(assignments: seq<(Id, Id)>) returns (result: map<(Id, Id), PermissionList>)
      ensures result.Keys == Elements(assignments)
      ensures Separate(result) && forall p | p in result :: fresh(result[p])
      ensures forall p | p in result :: ListingOf(Items(result)[p], Effective(db, p.0, p.1))
    {
      var pairs := Elements(assignments);
      result := CopyGlobal(pairs);
      AppendGrants(result, pairs, GrantRows(db, pairs));
      SortPairs(result, pairs);
    }

    method SortPairs(result: map<(Id, Id), PermissionList>, ghost pairs: set<(Id, Id)>)
      requires Separate(result) && result.Keys == pairs
      requires Filed(Items(result), PairContent(db, pairs, GrantRows(db, pairs)))
      modifies result.Values
      ensures forall p | p in result :: ListingOf(Items(result)[p], Effective(db, p.0, p.1))
    {
      PairContentAll(db, pairs);
      SortAll(result, EffectiveContent(db, pairs));
    }
  }
}
