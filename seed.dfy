/**
 * The database the seeding script fills in: five buildings, seventeen
 * practices in three trees (food, housing, finance) and nine organizations.
 * Rows are numbered 1, 2, ... in the order of the script's lists, which for
 * the practices need not be the ids the ORM assigns.
 */
module Seed {
  import opened Base
  import opened Seqs
  import opened Models
  import opened Repository

  const Buildings: seq<Building> := [
    Building(1, "г. Москва, ул. Трубная 15", "55.769372,37.624849"),
    Building(2, "г. Москва, пер. Пушкарёв 16", "55.768624,37.628458"),
    Building(3, "г. Москва, ул. Большая Никитская 24/1с5", "55.757480,37.602280"),
    Building(4, "г. Москва, пер. Вознесенский 7", "55.757859,37.604078"),
    Building(5, "г. Москва, пер. Последний 15", "55.770144,37.628240")
  ]

  const Practices: seq<Practice> := [
    Practice(1, "Еда", None),
    Practice(2, "Продукты", Some(1)),
    Practice(3, "Кафе", Some(1)),
    Practice(4, "Бар", Some(1)),
    Practice(5, "Кальянная", Some(4)),
    Practice(6, "Мексиканская кухня", Some(3)),
    Practice(7, "Итальянская кухня", Some(3)),
    Practice(8, "Японская кухня", Some(3)),
    Practice(9, "Жилье", None),
    Practice(10, "Отель", Some(9)),
    Practice(11, "Мини-отель", Some(10)),
    Practice(12, "Апартотель", Some(10)),
    Practice(13, "Финансы", None),
    Practice(14, "Финансовый консалтинг", Some(13)),
    Practice(15, "Банковские услуги", Some(13)),
    Practice(16, "Банкомат", Some(15)),
    Practice(17, "Денежные переводы", Some(15))
  ]

  const Organizations: seq<Organization> := [
    Organization(1, "Эль Боррачо", ["8-909-634-15-15"], 1),
    Organization(2, "Мария Санта", ["8-919-764-44-40", "8-919-725-22-88"], 1),
    Organization(3, "Seven Hills", ["8-926-773-67-07", "8-499-503-66-77"], 1),
    Organization(4, "Банкомат Сбербанк", [], 1),
    Organization(5, "Мини-отель на Пушкарёвом 16", ["8-909-970-22-44"], 2),
    Organization(6, "Dukh", ["8-917-262-95-95"], 3),
    Organization(7, "Национальное бюро кредитных историй", ["8-495-221-78-37", "8-800-600-64-04"], 3),
    Organization(8, "Банкомат ВТБ", [], 4),
    Organization(9, "Золотая Корона", ["8-495-960-05-55"], 4)
  ]

  const Memberships: seq<Membership> := [
    Membership(1, 4), Membership(1, 6),
    Membership(2, 7),
    Membership(3, 11),
    Membership(4, 16),
    Membership(5, 11), Membership(5, 12),
    Membership(6, 3), Membership(6, 5),
    Membership(7, 14),
    Membership(8, 16),
    Membership(9, 17)
  ]

  const Db: Snapshot := Snapshot(Buildings, Organizations, Practices, Memberships)

  /** The rows carry the ids 1, 2, 3, … in table order. */
  predicate Numbered<T>(s: seq<T>, key: T -> int)
  {
    forall i :: 0 <= i < |s| ==> key(s[i]) == i + 1
  }

  lemma NumberedKeys<T(!new)>(s: seq<T>, key: T -> int)
    requires Numbered(s, key)
    ensures DistinctKeys(s, key)
    ensures forall k :: k in Keys(s, key) <==> 1 <= k <= |s|
    ensures forall x :: x in s ==> 1 <= key(x) <= |s| && x == s[key(x) - 1]
  {
    forall k | 1 <= k <= |s| ensures k in Keys(s, key) {
      assert s[k - 1] in s;
    }
  }

  /**
   * In a numbered table a row sits at the index its key names. This repeats
   * part of `NumberedKeys` without its other facts, to keep proofs that need
   * only this one cheap for the solver.
   */
  lemma NumberedAt<T>(s: seq<T>, key: T -> int, x: T)
    requires Numbered(s, key) && x in s
    ensures 1 <= key(x) <= |s| && s[key(x) - 1] == x
  {
  }

  /** Practices numbered in table order whose parents come earlier form a forest. */
  lemma NumberedForest(ps: seq<Practice>)
    requires Numbered(ps, PracticeId)
    requires forall i :: 0 <= i < |ps| && ps[i].parentId.Some? ==> 1 <= ps[i].parentId.value < ps[i].id
    ensures Forest(ps)
  {
    NumberedKeys(ps, PracticeId);
    forall q | q in ps && q.parentId.Some?
      ensures 1 <= q.parentId.value < q.id
    {
      var i :| 0 <= i < |ps| && ps[i] == q;
    }
    ParentsPrecedeAcyclic(ps);
  }

  /**
   * Tables numbered in order whose foreign keys stay within the numbers
   * handed out make a well-formed database.
   */
  lemma NumberedWellFormed(db: Snapshot)
    requires Numbered(db.buildings, BuildingId)
    requires Numbered(db.organizations, OrganizationId)
    requires Numbered(db.practices, PracticeId)
    requires forall i :: 0 <= i < |db.practices| && db.practices[i].parentId.Some? ==>
               1 <= db.practices[i].parentId.value < db.practices[i].id
    requires NoDuplicates(db.memberships)
    requires forall i :: 0 <= i < |db.organizations| ==> 1 <= db.organizations[i].buildingId <= |db.buildings|
    requires forall i :: 0 <= i < |db.memberships| ==>
               && 1 <= db.memberships[i].organizationId <= |db.organizations|
               && 1 <= db.memberships[i].practiceId <= |db.practices|
    ensures WellFormed(db)
  {
    NumberedForest(db.practices);
    NumberedKeys(db.buildings, BuildingId);
    NumberedKeys(db.organizations, OrganizationId);
    NumberedKeys(db.practices, PracticeId);
    forall o | o in db.organizations ensures o.buildingId in Keys(db.buildings, BuildingId) {
      var i :| 0 <= i < |db.organizations| && db.organizations[i] == o;
    }
    forall m | m in db.memberships
      ensures m.organizationId in Keys(db.organizations, OrganizationId)
      ensures m.practiceId in Keys(db.practices, PracticeId)
    {
      var i :| 0 <= i < |db.memberships| && db.memberships[i] == m;
    }
  }

  lemma SeedWellFormed()
    ensures WellFormed(Db)
  {
    assert Numbered(Buildings, BuildingId);
    assert Numbered(Organizations, OrganizationId);
    assert Numbered(Practices, PracticeId);
    NumberedWellFormed(Db);
  }

  lemma SeedForest()
    ensures Forest(Practices)
  {
    assert Numbered(Practices, PracticeId);
    NumberedForest(Practices);
  }

  /** A practice whose parent's parent is a root is at level 2. */
  lemma LevelTwo(ps: seq<Practice>, a: nat, b: nat, c: nat)
    requires Numbered(ps, PracticeId)
    requires forall i :: 0 <= i < |ps| && ps[i].parentId.Some? ==> 1 <= ps[i].parentId.value < ps[i].id
    requires a < |ps| && b < |ps| && c < |ps|
    requires ps[a].parentId == Some(ps[b].id) && ps[b].parentId == Some(ps[c].id) && ps[c].parentId == None
    ensures Forest(ps) && ps[a].id in Keys(ps, PracticeId)
    ensures Depth(ps, ps[a].id) == 2
  {
    NumberedForest(ps);
    FindByKey(ps, PracticeId, ps[a]);
    FindByKey(ps, PracticeId, ps[b]);
    FindByKey(ps, PracticeId, ps[c]);
    DepthOfRoot(ps, ps[c].id);
    DepthOfChild(ps, ps[b].id, ps[c].id);
    DepthOfChild(ps, ps[a].id, ps[b].id);
  }

  /** Кальянная sits under Бар, under Еда: its level is 2. */
  lemma HookahLoungeLevel()
    ensures Forest(Practices) && 5 in Keys(Practices, PracticeId)
    ensures Depth(Practices, 5) == 2
  {
    assert Numbered(Practices, PracticeId);
    LevelTwo(Practices, 4, 3, 0);
  }

  /** In a numbered practice table the parent row in the recursive match is found by index. */
  lemma MatchesByIndex(ps: seq<Practice>, q: Practice, pid: int)
    requires Numbered(ps, PracticeId)
    ensures MatchesRecursively(ps, q, pid) <==>
              || q.id == pid
              || q.parentId == Some(pid)
              || (q.parentId.Some? && 1 <= q.parentId.value <= |ps| && ps[q.parentId.value - 1].parentId == Some(pid))
  {
    NumberedKeys(ps, PracticeId);
    if q.parentId.Some? && 1 <= q.parentId.value <= |ps| {
      assert ps[q.parentId.value - 1] in ps;
    }
  }

  /**
   * The recursive lookup over numbered tables, given which practices match
   * (`matching`) and which organizations hold one of them (`tagged`).
   */
  lemma RecursiveLookupByIndex(db: Snapshot, pid: int, matching: set<int>, tagged: set<int>)
    requires Numbered(db.practices, PracticeId)
    requires forall j :: 0 <= j < |db.practices| ==> (MatchesAt(db.practices, j, pid) <==> db.practices[j].id in matching)
    requires forall i :: 0 <= i < |db.memberships| ==>
               && 1 <= db.memberships[i].practiceId <= |db.practices|
               && (db.memberships[i].practiceId in matching <==> db.memberships[i].organizationId in tagged)
    requires forall t :: t in tagged ==> exists i :: 0 <= i < |db.memberships| && db.memberships[i].organizationId == t
    ensures forall i :: 0 <= i < |db.organizations| ==>
              (db.organizations[i] in ListOrganizationsByPracticeIdRecursively(db, pid) <==> db.organizations[i].id in tagged)
  {
    NumberedKeys(db.practices, PracticeId);
    MatchingRows(db.practices, pid, matching);
    forall o | o in db.organizations ensures TaggedRecursively(db, o, pid) <==> o.id in tagged {
      if o.id in tagged {
        TaggedFromMembership(db, pid, matching, o);
      }
      if TaggedRecursively(db, o, pid) {
        MembershipFromTagged(db, pid, matching, o);
      }
    }
  }

  /** An organization with an association row into the matching practices is tagged recursively. */
  lemma TaggedFromMembership(db: Snapshot, pid: int, matching: set<int>, o: Organization)
    requires Numbered(db.practices, PracticeId)
    requires forall j :: 0 <= j < |db.practices| ==>
               (MatchesRecursively(db.practices, db.practices[j], pid) <==> db.practices[j].id in matching)
    requires forall i :: 0 <= i < |db.memberships| ==> 1 <= db.memberships[i].practiceId <= |db.practices|
    requires exists i :: && 0 <= i < |db.memberships| && db.memberships[i].organizationId == o.id
                        && db.memberships[i].practiceId in matching
    ensures TaggedRecursively(db, o, pid)
  {
    var ps, ms := db.practices, db.memberships;
    var i :| 0 <= i < |ms| && ms[i].organizationId == o.id && ms[i].practiceId in matching;
    var q := ps[ms[i].practiceId - 1];
    assert ms[i] in ms;
    assert q in PracticesOf(db, o);
  }

  /** An organization tagged recursively has an association row into the matching practices. */
  lemma MembershipFromTagged(db: Snapshot, pid: int, matching: set<int>, o: Organization)
    requires Numbered(db.practices, PracticeId)
    requires forall j :: 0 <= j < |db.practices| ==>
               (MatchesRecursively(db.practices, db.practices[j], pid) <==> db.practices[j].id in matching)
    requires TaggedRecursively(db, o, pid)
    ensures exists i :: && 0 <= i < |db.memberships| && db.memberships[i].organizationId == o.id
                       && db.memberships[i].practiceId in matching
  {
    var ps, ms := db.practices, db.memberships;
    var q :| q in PracticesOf(db, o) && MatchesRecursively(ps, q, pid);
    assert q in ps && Membership(o.id, q.id) in ms;
    NumberedAt(ps, PracticeId, q);
    assert q.id in matching;
    var i :| 0 <= i < |ms| && ms[i] == Membership(o.id, q.id);
    assert ms[i].organizationId == o.id && ms[i].practiceId in matching;
  }

  /**
   * The recursive match on row `j`, with the parent row found by index. It is
   * `MatchesRecursively` restated for numbered tables, a proof device that
   * spares the solver a search over all rows.
   */
  predicate MatchesAt(ps: seq<Practice>, j: nat, pid: int)
    requires j < |ps|
  {
    || ps[j].id == pid
    || ps[j].parentId == Some(pid)
    || (ps[j].parentId.Some? && 1 <= ps[j].parentId.value <= |ps| && ps[ps[j].parentId.value - 1].parentId == Some(pid))
  }

  /** The index form of the recursive match decides it for every row. */
  lemma MatchingRows(ps: seq<Practice>, pid: int, matching: set<int>)
    requires Numbered(ps, PracticeId)
    requires forall j :: 0 <= j < |ps| ==> (MatchesAt(ps, j, pid) <==> ps[j].id in matching)
    ensures forall j :: 0 <= j < |ps| ==> (MatchesRecursively(ps, ps[j], pid) <==> ps[j].id in matching)
  {
    forall j | 0 <= j < |ps| ensures MatchesRecursively(ps, ps[j], pid) <==> ps[j].id in matching {
      MatchesByIndex(ps, ps[j], pid);
      assert MatchesAt(ps, j, pid) <==> ps[j].id in matching;
    }
  }

  /** The ids of the food tree: Еда and every practice below it. */
  const FoodTree: set<int> := {1, 2, 3, 4, 5, 6, 7, 8}

  /** The ids of Эль Боррачо, Мария Санта and Dukh. */
  const FoodTagged: set<int> := {1, 2, 6}

  lemma PracticesNumbered()
    ensures Numbered(Practices, PracticeId)
  {
  }

  lemma FoodRows()
    ensures forall j :: 0 <= j < |Practices| ==> (MatchesAt(Practices, j, 1) <==> Practices[j].id in FoodTree)
  {
  }

  /**
   * Looking up Еда recursively finds Эль Боррачо (Бар, Мексиканская кухня),
   * Мария Санта (Итальянская кухня) and Dukh (Кафе, Кальянная), and no
   * organization from the housing or finance trees.
   */
  lemma FoodLookup()
    ensures forall i :: 0 <= i < |Db.organizations| ==>
              (Db.organizations[i] in ListOrganizationsByPracticeIdRecursively(Db, 1) <==> Db.organizations[i].id in FoodTagged)
  {
    PracticesNumbered();
    FoodRows();
    FoodMemberships();
    RecursiveLookupByIndex(Db, 1, FoodTree, FoodTagged);
  }

  /** Exactly the association rows of organizations 1, 2 and 6 point into the food tree. */
  lemma FoodMemberships()
    ensures forall i :: 0 <= i < |Memberships| ==>
              && 1 <= Memberships[i].practiceId <= |Practices|
              && (Memberships[i].practiceId in FoodTree <==> Memberships[i].organizationId in FoodTagged)
    ensures Memberships[0].organizationId == 1 && Memberships[2].organizationId == 2
    ensures Memberships[7].organizationId == 6
  {
  }
}
