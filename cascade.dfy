/**
 * The delete cascades declared on the schema: a building takes its
 * organizations with it (`cascade="all, delete-orphan"` on
 * Building.organizations), a practice takes its children and so its whole
 * subtree (the same cascade on Practice.children), and a deleted row's
 * association rows go with it.
 */
module Cascade {
  import opened Base
  import opened Seqs
  import opened Models

  // ---------------------------------------------------------------------------
  // Deleting a building
  // ---------------------------------------------------------------------------

  function DeleteBuilding(db: Snapshot, buildingId: int): (r: Snapshot)
    ensures r.practices == db.practices
    ensures forall b :: b in r.buildings <==> b in db.buildings && b.id != buildingId
    ensures forall o :: o in r.organizations <==> o in db.organizations && o.buildingId != buildingId
  {
    var orgs := Filter(db.organizations, (o: Organization) => o.buildingId != buildingId);
    var kept := Keys(orgs, OrganizationId);
    Snapshot(
      Filter(db.buildings, (b: Building) => b.id != buildingId),
      orgs,
      db.practices,
      Filter(db.memberships, (m: Membership) => m.organizationId in kept))
  }

  /**
   * Deleting a building removes exactly that building and the organizations
   * housed in it, together with their association rows, and leaves the
   * database well formed.
   */
  lemma DeleteBuildingCascades(db: Snapshot, buildingId: int)
    requires WellFormed(db)
    ensures var r := DeleteBuilding(db, buildingId);
      && WellFormed(r)
      && (forall b :: b in r.buildings <==> b in db.buildings && b.id != buildingId)
      && (forall o :: o in r.organizations <==> o in db.organizations && o.buildingId != buildingId)
      && (forall m :: m in r.memberships <==>
            && m in db.memberships
            && forall o :: o in db.organizations && o.id == m.organizationId ==> o.buildingId != buildingId)
  {
    var r := DeleteBuilding(db, buildingId);
    var keepB := (b: Building) => b.id != buildingId;
    var keepO := (o: Organization) => o.buildingId != buildingId;
    FilterKeepsDistinctKeys(db.buildings, keepB, BuildingId);
    FilterKeepsDistinctKeys(db.organizations, keepO, OrganizationId);
    FilterKeepsNoDuplicates(db.memberships, (m: Membership) => m.organizationId in Keys(r.organizations, OrganizationId));
    forall o | o in r.organizations ensures o.buildingId in Keys(r.buildings, BuildingId) {
      var b :| b in db.buildings && b.id == o.buildingId;
      assert b in r.buildings;
    }
    forall m | m in db.memberships
      ensures m in r.memberships <==>
                forall o :: o in db.organizations && o.id == m.organizationId ==> o.buildingId != buildingId
    {
      var o :| o in db.organizations && o.id == m.organizationId;
      forall o' | o' in db.organizations && o'.id == m.organizationId ensures o' == o {
        FindByKey(db.organizations, OrganizationId, o);
        FindByKey(db.organizations, OrganizationId, o');
      }
      if o.buildingId != buildingId {
        assert o in r.organizations;
      }
    }
  }

  // ---------------------------------------------------------------------------
  // Deleting a practice
  // ---------------------------------------------------------------------------

  /** Practice `id` is `root` itself or lies somewhere below it. */
  predicate InSubtree(ps: seq<Practice>, root: int, id: int)
  {
    exists k :: 0 <= k < |ps| && Ancestor(ps, id, k) == Some(root)
  }

  function DeletePractice(db: Snapshot, practiceId: int): (r: Snapshot)
    ensures r.buildings == db.buildings && r.organizations == db.organizations
  {
    var ps := Filter(db.practices, (q: Practice) => !InSubtree(db.practices, practiceId, q.id));
    var kept := Keys(ps, PracticeId);
    db.(practices := ps, memberships := Filter(db.memberships, (m: Membership) => m.practiceId in kept))
  }

  /** A child of a practice in the subtree is in the subtree too. */
  lemma SubtreeHoldsChildren(ps: seq<Practice>, root: int, p: int, q: int)
    requires Forest(ps) && q in Keys(ps, PracticeId)
    requires InSubtree(ps, root, p)
    requires ParentOf(ps, q) == Some(p)
    ensures InSubtree(ps, root, q)
  {
    var k :| 0 <= k < |ps| && Ancestor(ps, p, k) == Some(root);
    assert Ancestor(ps, q, k + 1) == Some(root);
    ChainEnds(ps, q);
  }

  /**
   * A part of a forest that keeps the parent of every practice it keeps is a
   * forest, and walks inside it follow the same links as in the whole.
   */
  lemma {:induction false} ParentClosedAncestors(ps: seq<Practice>, sub: seq<Practice>, id: int, k: nat)
    requires DistinctKeys(ps, PracticeId) && DistinctKeys(sub, PracticeId)
    requires forall q :: q in sub ==> q in ps
    requires forall q :: q in sub && q.parentId.Some? ==> q.parentId.value in Keys(sub, PracticeId)
    requires id in Keys(sub, PracticeId)
    ensures Ancestor(sub, id, k) == Ancestor(ps, id, k)
    decreases k
  {
    if k > 0 {
      var q := Find(sub, PracticeId, id).value;
      FindByKey(ps, PracticeId, q);
      if q.parentId.Some? {
        ParentClosedAncestors(ps, sub, q.parentId.value, k - 1);
      }
    }
  }

  lemma ParentClosedForest(ps: seq<Practice>, sub: seq<Practice>)
    requires Forest(ps) && DistinctKeys(sub, PracticeId)
    requires forall q :: q in sub ==> q in ps
    requires forall q :: q in sub && q.parentId.Some? ==> q.parentId.value in Keys(sub, PracticeId)
    ensures Forest(sub)
  {
    forall id, k: nat | id in Keys(sub, PracticeId) && 0 < k ensures NoReturn(sub, id, k) {
      ParentClosedAncestors(ps, sub, id, k);
      assert NoReturn(ps, id, k);
    }
  }

  /** Practice `id` is `root` or lies below it, at any depth. */
  ghost predicate DescendsFrom(ps: seq<Practice>, id: int, root: int)
  {
    exists k: nat :: Ancestor(ps, id, k) == Some(root)
  }

  /** In a forest the bounded search of InSubtree misses no descendant. */
  lemma InSubtreeIffDescends(ps: seq<Practice>, root: int, id: int)
    requires Forest(ps) && id in Keys(ps, PracticeId)
    ensures InSubtree(ps, root, id) <==> DescendsFrom(ps, id, root)
  {
    if DescendsFrom(ps, id, root) {
      var k: nat :| Ancestor(ps, id, k) == Some(root);
      ChainEnds(ps, id);
      if k >= |ps| {
        AncestorNoneStays(ps, id, |ps|, k);
      }
      assert 0 <= k < |ps| && Ancestor(ps, id, k) == Some(root);
    }
  }

  /**
   * Deleting a practice removes exactly that practice and every practice
   * below it, at any depth, and keeps every other practice.
   */
  lemma DeletePracticeRemovesSubtree(db: Snapshot, practiceId: int)
    requires Forest(db.practices)
    ensures forall q :: q in DeletePractice(db, practiceId).practices <==>
                          q in db.practices && !DescendsFrom(db.practices, q.id, practiceId)
  {
    var ps := db.practices;
    var keep := (q: Practice) => !InSubtree(ps, practiceId, q.id);
    var r := DeletePractice(db, practiceId);
    assert r.practices == Filter(ps, keep);
    forall q ensures q in r.practices <==> q in ps && !DescendsFrom(ps, q.id, practiceId) {
      if q in ps {
        InSubtreeIffDescends(ps, practiceId, q.id);
      }
      assert q in r.practices <==> q in ps && keep(q);
    }
  }

  /**
   * Deleting a practice drops the association rows of the removed practices
   * only and leaves the database well formed.
   */
  lemma DeletePracticeKeepsWellFormed(db: Snapshot, practiceId: int)
    requires WellFormed(db)
    ensures var r := DeletePractice(db, practiceId);
      && WellFormed(r)
      && (forall m :: m in r.memberships <==>
            m in db.memberships && exists q :: q in r.practices && q.id == m.practiceId)
  {
    var ps := db.practices;
    var r := DeletePractice(db, practiceId);
    var keep := (q: Practice) => !InSubtree(ps, practiceId, q.id);
    FilterKeepsDistinctKeys(ps, keep, PracticeId);
    FilterKeepsNoDuplicates(db.memberships, (m: Membership) => m.practiceId in Keys(r.practices, PracticeId));
    forall q | q in r.practices && q.parentId.Some?
      ensures q.parentId.value in Keys(r.practices, PracticeId)
    {
      var p :| p in ps && p.id == q.parentId.value;
      FindByKey(ps, PracticeId, q);
      if InSubtree(ps, practiceId, p.id) {
        SubtreeHoldsChildren(ps, practiceId, p.id, q.id);
      }
      assert p in r.practices;
    }
    ParentClosedForest(ps, r.practices);
  }
}
