/**
 * The repository's queries, each a `select … where …` over the snapshot.
 * Result order is whatever the database returns; the contracts speak of which
 * rows are in a result, and of duplicates where DISTINCT matters.
 */
module Repository {
  import opened Base
  import opened Seqs
  import opened Models

  // ---------------------------------------------------------------------------
  // Counting and plain listings
  // ---------------------------------------------------------------------------

  /** `select count() from table`, or 0 when the scalar is empty. */
  function GetObjectsCount<T>(table: seq<T>): (n: nat)
    ensures n == 0 <==> table == []
  {
    |table|
  }

  /** Under a primary key the row count is the number of distinct ids. */
  lemma {:induction false} CountIsNumberOfKeys<T(!new)>(table: seq<T>, key: T -> int)
    requires DistinctKeys(table, key)
    ensures GetObjectsCount(table) == |Keys(table, key)|
  {
    if table != [] {
      CountIsNumberOfKeys(table[1..], key);
      assert Keys(table, key) == {key(table[0])} + Keys(table[1..], key) by {
        assert forall x :: x in table <==> x == table[0] || x in table[1..];
      }
      forall y | y in table[1..] ensures key(y) != key(table[0]) {
        var j :| 0 <= j < |table[1..]| && table[1..][j] == y;
        assert table[j + 1] == y;
      }
    }
  }

  /** `select(Building)`: every building, as many as the table count. */
  function ListBuildings(db: Snapshot): (r: seq<Building>)
    ensures forall b :: b in r <==> b in db.buildings
    ensures |r| == GetObjectsCount(db.buildings)
  {
    db.buildings
  }

  /** `select(Organization)`: every organization, as many as the table count. */
  function ListOrganizations(db: Snapshot): (r: seq<Organization>)
    ensures forall o :: o in r <==> o in db.organizations
    ensures |r| == GetObjectsCount(db.organizations)
  {
    db.organizations
  }

  /** `select(Practice)`: every practice, as many as the table count. */
  function ListPractices(db: Snapshot): (r: seq<Practice>)
    ensures forall q :: q in r <==> q in db.practices
    ensures |r| == GetObjectsCount(db.practices)
  {
    db.practices
  }

  // ---------------------------------------------------------------------------
  // Relationships through the association table
  // ---------------------------------------------------------------------------

  /** `Organization.practices`: the practice rows joined to `o` by the association table. */
  function PracticesOf(db: Snapshot, o: Organization): (r: seq<Practice>)
    ensures forall q :: q in r <==> q in db.practices && Membership(o.id, q.id) in db.memberships
  {
    Filter(db.practices, (q: Practice) => Membership(o.id, q.id) in db.memberships)
  }

  /** `Practice.organizations`: the organization rows joined to `q`. */
  function OrganizationsOf(db: Snapshot, q: Practice): (r: seq<Organization>)
    ensures forall o :: o in r <==> o in db.organizations && Membership(o.id, q.id) in db.memberships
  {
    Filter(db.organizations, (o: Organization) => Membership(o.id, q.id) in db.memberships)
  }

  /**
   * The two relationships are each other's back-population: a practice is
   * among an organization's practices exactly when the organization is among
   * the practice's organizations. Both read the same association rows, so
   * the agreement holds by construction.
   */
  lemma RelationshipsAgree(db: Snapshot, o: Organization, q: Practice)
    requires o in db.organizations && q in db.practices
    ensures q in PracticesOf(db, o) <==> o in OrganizationsOf(db, q)
  {
  }

  // ---------------------------------------------------------------------------
  // Organizations by building
  // ---------------------------------------------------------------------------

  /** `building_id IN (ids)`: the organizations housed in one of the given buildings. */
  function ListOrganizationsByBuildingIds(db: Snapshot, ids: seq<int>): (r: seq<Organization>)
    ensures forall o :: o in r <==> o in db.organizations && o.buildingId in ids
    ensures ids == [] ==> r == []
  {
    var r := Filter(db.organizations, (o: Organization) => o.buildingId in ids);
    assert r != [] ==> r[0] in r;
    r
  }

  // ---------------------------------------------------------------------------
  // Organizations by practice
  // ---------------------------------------------------------------------------

  /** `practices.any(Practice.id == pid)`: some practice joined to `o` has id `pid`. */
  predicate TaggedWith(db: Snapshot, o: Organization, pid: int)
  {
    exists q :: q in PracticesOf(db, o) && q.id == pid
  }

  /**
   * The organizations tagged with practice `pid`: exactly those with an
   * association row to `pid`, provided a practice with that id exists.
   */
  function ListOrganizationsByPracticeId(db: Snapshot, pid: int): (r: seq<Organization>)
    ensures forall o :: o in r <==>
              && o in db.organizations
              && Membership(o.id, pid) in db.memberships
              && pid in Keys(db.practices, PracticeId)
  {
    var r := Filter(db.organizations, (o: Organization) => TaggedWith(db, o, pid));
    assert forall o :: TaggedWith(db, o, pid) <==>
                         Membership(o.id, pid) in db.memberships && pid in Keys(db.practices, PracticeId) by {
      forall o ensures TaggedWith(db, o, pid) <==>
                         Membership(o.id, pid) in db.memberships && pid in Keys(db.practices, PracticeId)
      {
        if Membership(o.id, pid) in db.memberships && pid in Keys(db.practices, PracticeId) {
          var q :| q in db.practices && q.id == pid;
          assert q in PracticesOf(db, o);
        }
      }
    }
    r
  }

  /**
   * The "recursive" match as written: the practice itself, a child of it
   * (`parent_id == pid`), or a child of a child (`parent.has(parent_id=pid)`).
   */
  predicate MatchesRecursively(ps: seq<Practice>, q: Practice, pid: int)
    ensures DistinctKeys(ps, PracticeId) ==>
              (MatchesRecursively(ps, q, pid) <==>
                 || q.id == pid
                 || q.parentId == Some(pid)
                 || (q.parentId.Some? && ParentOf(ps, q.parentId.value) == Some(pid)))
  {
    if q.parentId.Some? && DistinctKeys(ps, PracticeId) then
      ParentRowLookup(ps, q.parentId.value, pid);
      || q.id == pid
      || q.parentId == Some(pid)
      || exists p :: p in ps && p.id == q.parentId.value && p.parentId == Some(pid)
    else
      || q.id == pid
      || q.parentId == Some(pid)
      || (q.parentId.Some? && exists p :: p in ps && p.id == q.parentId.value && p.parentId == Some(pid))
  }

  /** Under the primary key, some row with id `p` has parent `pid` exactly when the parent lookup of `p` gives `pid`. */
  lemma ParentRowLookup(ps: seq<Practice>, p: int, pid: int)
    requires DistinctKeys(ps, PracticeId)
    ensures (exists row :: row in ps && row.id == p && row.parentId == Some(pid)) <==> ParentOf(ps, p) == Some(pid)
  {
    if exists row :: row in ps && row.id == p && row.parentId == Some(pid) {
      var row :| row in ps && row.id == p && row.parentId == Some(pid);
      FindByKey(ps, PracticeId, row);
    }
  }

  /** Some practice joined to `o` matches `pid` recursively. */
  predicate TaggedRecursively(db: Snapshot, o: Organization, pid: int)
  {
    exists q :: q in PracticesOf(db, o) && MatchesRecursively(db.practices, q, pid)
  }

  /** `n` copies of `x`. */
  function Copies<T>(x: T, n: nat): (r: seq<T>)
    ensures |r| == n && forall i :: 0 <= i < n ==> r[i] == x
  {
    seq(n, _ => x)
  }

  /**
   * The rows of `organization JOIN organization_practice JOIN practice` that
   * pass the recursive match, before DISTINCT: one row per matching practice,
   * so an organization tagged with two matching practices appears twice.
   */
  function JoinRows(db: Snapshot, os: seq<Organization>, pid: int): (rows: seq<Organization>)
    ensures forall o :: o in rows <==> o in os && TaggedRecursively(db, o, pid)
  {
    if os == [] then []
    else
      var o := os[0];
      var matching := Filter(PracticesOf(db, o), (q: Practice) => MatchesRecursively(db.practices, q, pid));
      assert matching != [] <==> TaggedRecursively(db, o, pid) by {
        if matching != [] {
          assert matching[0] in matching;
        }
        if TaggedRecursively(db, o, pid) {
          var q :| q in PracticesOf(db, o) && MatchesRecursively(db.practices, q, pid);
          assert q in matching;
        }
      }
      assert forall x :: x in os <==> x == o || x in os[1..];
      var copies := Copies(o, |matching|);
      assert forall x :: x in copies <==> x == o && matching != [] by {
        if matching != [] {
          assert copies[0] == o;
        }
      }
      copies + JoinRows(db, os[1..], pid)
  }

  lemma {:induction false} CopiesCount<T>(x: T, n: nat)
    ensures multiset(Copies(x, n))[x] == n
  {
    if n > 0 {
      assert Copies(x, n) == Copies(x, n - 1) + [x];
      CopiesCount(x, n - 1);
    }
  }

  /**
   * An organization tagged with two different practices that both match
   * contributes at least two joined rows: without DISTINCT it would be
   * listed twice.
   */
  lemma {:induction false} JoinRepeats(db: Snapshot, os: seq<Organization>, pid: int, o: Organization, q1: Practice, q2: Practice)
    requires o in os
    requires q1 != q2
    requires q1 in PracticesOf(db, o) && MatchesRecursively(db.practices, q1, pid)
    requires q2 in PracticesOf(db, o) && MatchesRecursively(db.practices, q2, pid)
    ensures multiset(JoinRows(db, os, pid))[o] >= 2
  {
    var matching := Filter(PracticesOf(db, o), (q: Practice) => MatchesRecursively(db.practices, q, pid));
    var rest := JoinRows(db, os[1..], pid);
    if os[0] == o {
      assert q1 in matching && q2 in matching;
      assert |matching| >= 2;
      CopiesCount(o, |matching|);
    } else {
      JoinRepeats(db, os[1..], pid, o, q1, q2);
    }
    assert JoinRows(db, os, pid) == Copies(os[0], |Filter(PracticesOf(db, os[0]), (q: Practice) => MatchesRecursively(db.practices, q, pid))|) + rest;
  }

  /** The recursive query: the joined rows with DISTINCT applied. */
  function ListOrganizationsByPracticeIdRecursively(db: Snapshot, pid: int): (r: seq<Organization>)
    ensures forall o :: o in r <==> o in db.organizations && TaggedRecursively(db, o, pid)
    ensures NoDuplicates(r)
  {
    Distinct(JoinRows(db, db.organizations, pid))
  }

  /** The recursive result contains the exact result for the same practice. */
  lemma RecursiveContainsExact(db: Snapshot, pid: int, o: Organization)
    requires o in ListOrganizationsByPracticeId(db, pid)
    ensures o in ListOrganizationsByPracticeIdRecursively(db, pid)
  {
    var q :| q in db.practices && q.id == pid;
    assert q in PracticesOf(db, o);
  }

  /**
   * Under a primary key on practices, the recursive match is "`pid` is at most
   * two parent links above": the practice, its parent or its grandparent.
   */
  lemma MatchesWithinTwoLinks(ps: seq<Practice>, q: Practice, pid: int)
    requires DistinctKeys(ps, PracticeId) && q in ps
    ensures MatchesRecursively(ps, q, pid) <==> exists k: nat :: k <= 2 && Ancestor(ps, q.id, k) == Some(pid)
  {
    assert (exists k: nat :: k <= 2 && Ancestor(ps, q.id, k) == Some(pid)) <==>
           Ancestor(ps, q.id, 0) == Some(pid) || Ancestor(ps, q.id, 1) == Some(pid) || Ancestor(ps, q.id, 2) == Some(pid) by {
      if exists k: nat :: k <= 2 && Ancestor(ps, q.id, k) == Some(pid) {
        var k: nat :| k <= 2 && Ancestor(ps, q.id, k) == Some(pid);
        assert k == 0 || k == 1 || k == 2;
      }
    }
    FindByKey(ps, PracticeId, q);
    assert Ancestor(ps, q.id, 1) == q.parentId;
    if q.parentId.Some? {
      var p := q.parentId.value;
      assert Ancestor(ps, q.id, 2) == Ancestor(ps, p, 1) == ParentOf(ps, p);
      if p in Keys(ps, PracticeId) {
        var row :| row in ps && row.id == p;
        FindByKey(ps, PracticeId, row);
        forall p' | p' in ps && p'.id == p ensures p' == row {
          FindByKey(ps, PracticeId, p');
        }
      } else {
        forall p' | p' in ps ensures p'.id != p {
          assert p'.id in Keys(ps, PracticeId);
        }
      }
    }
  }

  /** In a forest, a practice three links below `pid` does not match it. */
  lemma GreatGrandchildDoesNotMatch(ps: seq<Practice>, q: Practice, pid: int)
    requires Forest(ps) && q in ps
    requires Ancestor(ps, q.id, 3) == Some(pid)
    ensures !MatchesRecursively(ps, q, pid)
  {
    MatchesWithinTwoLinks(ps, q, pid);
    if MatchesRecursively(ps, q, pid) {
      var k: nat :| k <= 2 && Ancestor(ps, q.id, k) == Some(pid);
      AncestorCompose(ps, q.id, k, 3 - k, pid);
      AncestorInTable(ps, q.id, k);
      NoCycleThrough(ps, pid, 3 - k);
      assert false;
    }
  }

  /**
   * An organization whose every practice lies three links below `pid` is not
   * in the recursive result: the match stops at grandchildren.
   */
  lemma RecursiveStopsAtGrandchildren(db: Snapshot, pid: int, o: Organization)
    requires Forest(db.practices)
    requires forall q :: q in PracticesOf(db, o) ==> Ancestor(db.practices, q.id, 3) == Some(pid)
    ensures o !in ListOrganizationsByPracticeIdRecursively(db, pid)
  {
    forall q | q in PracticesOf(db, o) ensures !MatchesRecursively(db.practices, q, pid) {
      GreatGrandchildDoesNotMatch(db.practices, q, pid);
    }
  }

  // ---------------------------------------------------------------------------
  // One organization by id
  // ---------------------------------------------------------------------------

  /** `scalar(select … where id == organization_id)`: the row, or None. */
  function GetOrganization(db: Snapshot, organizationId: int): (r: Option<Organization>)
    ensures r.Some? ==> r.value in db.organizations && r.value.id == organizationId
    ensures r.None? <==> forall o :: o in db.organizations ==> o.id != organizationId
  {
    Find(db.organizations, OrganizationId, organizationId)
  }

  /** Under the primary key, every organization is what the lookup of its id returns. */
  lemma GetOrganizationFindsRow(db: Snapshot, o: Organization)
    requires DistinctKeys(db.organizations, OrganizationId)
    requires o in db.organizations
    ensures GetOrganization(db, o.id) == Some(o)
  {
    FindByKey(db.organizations, OrganizationId, o);
  }

  // ---------------------------------------------------------------------------
  // Search by name
  // ---------------------------------------------------------------------------

  /** `needle` occurs in `hay` as a contiguous block. */
  predicate IsSubstring(needle: string, hay: string)
  {
    exists i :: 0 <= i <= |hay| && needle <= hay[i..]
  }

  /** IsSubstring agrees with the definition by decomposition: `hay == a + needle + b`. */
  lemma SubstringIffSplit(needle: string, hay: string)
    ensures IsSubstring(needle, hay) <==> exists a, b :: hay == a + needle + b
  {
    if IsSubstring(needle, hay) {
      var i :| 0 <= i <= |hay| && needle <= hay[i..];
      assert hay == hay[..i] + needle + hay[i + |needle|..];
    }
    if exists a, b :: hay == a + needle + b {
      var a, b :| hay == a + needle + b;
      assert hay[|a|..] == needle + b;
    }
  }

  /** The string with `lower` applied to each character. */
  function Lowered(s: string, lower: char -> char): (r: string)
    ensures |r| == |s|
  {
    seq(|s|, i requires 0 <= i < |s| => lower(s[i]))
  }

  /**
   * `name ILIKE '%search%'`: the organizations whose lowered name contains the
   * lowered search string.
   */
  function ListOrganizationsByNameSearch(db: Snapshot, search: string, lower: char -> char): (r: seq<Organization>)
    ensures forall o :: o in r <==>
              o in db.organizations && exists a, b :: Lowered(o.name, lower) == a + Lowered(search, lower) + b
  {
    var needle := Lowered(search, lower);
    var r := Filter(db.organizations, (o: Organization) => IsSubstring(needle, Lowered(o.name, lower)));
    assert forall o :: o in r <==>
             o in db.organizations && exists a, b :: Lowered(o.name, lower) == a + needle + b by {
      forall o: Organization ensures IsSubstring(needle, Lowered(o.name, lower)) <==>
                         exists a, b :: Lowered(o.name, lower) == a + needle + b {
        SubstringIffSplit(needle, Lowered(o.name, lower));
      }
    }
    r
  }

  /** An empty search string matches every organization, in table order. */
  lemma EmptySearchListsAll(db: Snapshot, lower: char -> char)
    ensures ListOrganizationsByNameSearch(db, "", lower) == db.organizations
  {
    var needle := Lowered("", lower);
    forall o | o in db.organizations ensures IsSubstring(needle, Lowered(o.name, lower)) {
      assert needle <= Lowered(o.name, lower)[0..];
    }
    FilterKeepsAll(db.organizations, (o: Organization) => IsSubstring(needle, Lowered(o.name, lower)));
  }
}
