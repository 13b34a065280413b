/**
 * The relational schema of the directory: buildings, organizations, the
 * practice forest and the organization/practice association table, read as
 * one snapshot of the database. Table order is the order the store returns.
 */
module Models {
  import opened Base
  import opened Seqs

  datatype Building = Building(id: int, address: string, coordinates: string)

  datatype Organization = Organization(id: int, name: string, phoneNumbers: seq<string>, buildingId: int)

  /** A business-activity category; `parentId == None` marks a root of the forest. */
  datatype Practice = Practice(id: int, name: string, parentId: Option<int>)

  /** A row of the `organization_practice` association table. */
  datatype Membership = Membership(organizationId: int, practiceId: int)

  datatype Snapshot = Snapshot(
    buildings: seq<Building>,
    organizations: seq<Organization>,
    practices: seq<Practice>,
    memberships: seq<Membership>)

  function BuildingId(b: Building): int { b.id }
  function OrganizationId(o: Organization): int { o.id }
  function PracticeId(p: Practice): int { p.id }

  // ---------------------------------------------------------------------------
  // The practice forest
  // ---------------------------------------------------------------------------

  /** The parent of practice `id`, as the `parent` relationship loads it. */
  function ParentOf(ps: seq<Practice>, id: int): Option<int>
  {
    match Find(ps, PracticeId, id)
    case None => None
    case Some(p) => p.parentId
  }

  /** The practice reached from `id` by following `k` parent links; None once past a root. */
  function Ancestor(ps: seq<Practice>, id: int, k: nat): Option<int>
    decreases k
  {
    if k == 0 then Some(id)
    else
      match ParentOf(ps, id)
      case None => None
      case Some(p) => Ancestor(ps, p, k - 1)
  }

  /** Every non-null `parent_id` refers to an existing practice (the foreign key). */
  predicate ParentsExist(ps: seq<Practice>)
  {
    forall p :: p in ps && p.parentId.Some? ==> p.parentId.value in Keys(ps, PracticeId)
  }

  /** Following `k` parent links from `id` does not lead back to `id`. */
  ghost predicate NoReturn(ps: seq<Practice>, id: int, k: nat)
  {
    Ancestor(ps, id, k) != Some(id)
  }

  /** The parent graph has no cycle: no practice is its own proper ancestor. */
  ghost predicate Acyclic(ps: seq<Practice>)
  {
    forall id, k: nat :: id in Keys(ps, PracticeId) && 0 < k ==> NoReturn(ps, id, k)
  }

  /** `Acyclic` unfolded at one practice and step count; a proof device for the chain lemmas. */
  lemma NoCycleThrough(ps: seq<Practice>, id: int, k: nat)
    requires Acyclic(ps) && id in Keys(ps, PracticeId) && 0 < k
    ensures Ancestor(ps, id, k) != Some(id)
  {
    assert NoReturn(ps, id, k);
  }

  /** The practice table is a forest of practices indexed by their primary key. */
  ghost predicate Forest(ps: seq<Practice>)
  {
    DistinctKeys(ps, PracticeId) && ParentsExist(ps) && Acyclic(ps)
  }

  // ---------------------------------------------------------------------------
  // The whole snapshot
  // ---------------------------------------------------------------------------

  /** The association table's composite primary key (organization_id, practice_id). */
  predicate MembershipKey(ms: seq<Membership>)
  {
    NoDuplicates(ms)
  }

  /**
   * The constraints the store enforces (primary keys on every table, the
   * foreign keys of organizations and of the association table), together
   * with the forest. The store checks only that a `parent_id` names an
   * existing practice; that the parent links have no cycle is a design
   * invariant nothing checks, and `Practice.level` loops forever without it.
   */
  ghost predicate WellFormed(db: Snapshot)
  {
    && DistinctKeys(db.buildings, BuildingId)
    && DistinctKeys(db.organizations, OrganizationId)
    && MembershipKey(db.memberships)
    && (forall o :: o in db.organizations ==> o.buildingId in Keys(db.buildings, BuildingId))
    && (forall m :: m in db.memberships ==>
          && m.organizationId in Keys(db.organizations, OrganizationId)
          && m.practiceId in Keys(db.practices, PracticeId))
    && Forest(db.practices)
  }

  // ---------------------------------------------------------------------------
  // Facts about parent chains
  // ---------------------------------------------------------------------------

  /** One more step of the walk is one more parent lookup from where the walk stands. */
  lemma {:induction false} AncestorStep(ps: seq<Practice>, id: int, k: nat)
    ensures Ancestor(ps, id, k + 1) ==
              match Ancestor(ps, id, k)
              case None => None
              case Some(x) => ParentOf(ps, x)
    decreases k
  {
    if k > 0 {
      match ParentOf(ps, id)
      case None =>
      case Some(p) => AncestorStep(ps, p, k - 1);
    }
  }

  /** A walk that has passed a root stays past it. */
  lemma {:induction false} AncestorNoneStays(ps: seq<Practice>, id: int, j: nat, k: nat)
    requires j <= k
    requires Ancestor(ps, id, j) == None
    ensures Ancestor(ps, id, k) == None
    decreases k - j
  {
    if j < k {
      AncestorStep(ps, id, j);
      AncestorNoneStays(ps, id, j + 1, k);
    }
  }

  /** Walking `i + d` steps is walking `i` steps and then `d` more. */
  lemma {:induction false} AncestorCompose(ps: seq<Practice>, id: int, i: nat, d: nat, x: int)
    requires Ancestor(ps, id, i) == Some(x)
    ensures Ancestor(ps, id, i + d) == Ancestor(ps, x, d)
    decreases i
  {
    if i > 0 {
      var p := ParentOf(ps, id).value;
      AncestorCompose(ps, p, i - 1, d, x);
    }
  }

  /** Under the foreign key, a walk from a practice only visits practices. */
  lemma {:induction false} AncestorInTable(ps: seq<Practice>, id: int, k: nat)
    requires ParentsExist(ps)
    requires id in Keys(ps, PracticeId)
    requires Ancestor(ps, id, k).Some?
    ensures Ancestor(ps, id, k).value in Keys(ps, PracticeId)
    decreases k
  {
    if k > 0 {
      var p := Find(ps, PracticeId, id).value;
      AncestorInTable(ps, p.parentId.value, k - 1);
    }
  }

  /** The practices visited by the first `n` steps of the walk from `id`. */
  ghost function Visited(ps: seq<Practice>, id: int, n: nat): set<int>
  {
    if n == 0 then {id}
    else Visited(ps, id, n - 1) + (if Ancestor(ps, id, n).Some? then {Ancestor(ps, id, n).value} else {})
  }

  lemma {:induction false} VisitedCard(ps: seq<Practice>, id: int, n: nat)
    requires Acyclic(ps) && ParentsExist(ps)
    requires id in Keys(ps, PracticeId)
    requires Ancestor(ps, id, n).Some?
    ensures Visited(ps, id, n) <= Keys(ps, PracticeId)
    ensures |Visited(ps, id, n)| == n + 1
  {
    if n > 0 {
      if Ancestor(ps, id, n - 1).None? {
        AncestorNoneStays(ps, id, n - 1, n);
      }
      VisitedCard(ps, id, n - 1);
      AncestorInTable(ps, id, n);
      VisitedFresh(ps, id, n);
    }
  }

  /** Without a cycle, each step of the walk reaches a practice not visited before. */
  lemma VisitedFresh(ps: seq<Practice>, id: int, n: nat)
    requires Acyclic(ps) && ParentsExist(ps)
    requires id in Keys(ps, PracticeId)
    requires 0 < n && Ancestor(ps, id, n).Some?
    ensures Ancestor(ps, id, n).value !in Visited(ps, id, n - 1)
  {
    var x := Ancestor(ps, id, n).value;
    if x in Visited(ps, id, n - 1) {
      var i := VisitedIndex(ps, id, n - 1, x);
      AncestorCompose(ps, id, i, n - i, x);
      AncestorInTable(ps, id, i);
      NoCycleThrough(ps, x, n - i);
      assert false;
    }
  }

  /** A practice visited within `n` steps was visited at some step `i <= n`. */
  lemma {:induction false} VisitedIndex(ps: seq<Practice>, id: int, n: nat, x: int) returns (i: nat)
    requires x in Visited(ps, id, n)
    ensures i <= n && Ancestor(ps, id, i) == Some(x)
  {
    if n == 0 {
      i := 0;
    } else if x in Visited(ps, id, n - 1) {
      i := VisitedIndex(ps, id, n - 1, x);
    } else {
      i := n;
    }
  }

  /**
   * In a forest every parent chain reaches a root in fewer steps than there
   * are practices: otherwise the walk would visit more distinct practices
   * than the table holds.
   */
  lemma ChainEnds(ps: seq<Practice>, id: int)
    requires Forest(ps)
    requires id in Keys(ps, PracticeId)
    ensures Ancestor(ps, id, |ps|) == None
  {
    if Ancestor(ps, id, |ps|).Some? {
      VisitedCard(ps, id, |ps|);
      KeysCard(ps, PracticeId);
      SubsetCard(Visited(ps, id, |ps|), Keys(ps, PracticeId));
      assert false;
    }
  }

  lemma SubsetCard(a: set<int>, b: set<int>)
    requires a <= b
    ensures |a| <= |b|
  {
    assert b == a + (b - a);
  }

  /** Every parent was created before its children and so has the smaller id. */
  predicate ParentsPrecede(ps: seq<Practice>)
  {
    forall q :: q in ps && q.parentId.Some? ==> q.parentId.value < q.id
  }

  lemma {:induction false} AncestorBelow(ps: seq<Practice>, id: int, k: nat)
    requires ParentsPrecede(ps)
    requires 0 < k && Ancestor(ps, id, k).Some?
    ensures Ancestor(ps, id, k).value < id
    decreases k
  {
    var p := ParentOf(ps, id).value;
    assert p < id;
    if 1 < k {
      AncestorBelow(ps, p, k - 1);
    }
  }

  /** Ids that grow from parent to child leave no room for a cycle. */
  lemma ParentsPrecedeAcyclic(ps: seq<Practice>)
    requires ParentsPrecede(ps)
    ensures Acyclic(ps)
  {
    forall id, k: nat | id in Keys(ps, PracticeId) && 0 < k ensures NoReturn(ps, id, k) {
      if Ancestor(ps, id, k).Some? {
        AncestorBelow(ps, id, k);
      }
    }
  }

  // ---------------------------------------------------------------------------
  // Practice.level
  // ---------------------------------------------------------------------------

  /** The smallest `d >= k` at which the walk from `id` stands on a root. */
  function DepthFrom(ps: seq<Practice>, id: int, k: nat): (d: nat)
    requires Forest(ps) && id in Keys(ps, PracticeId)
    requires k < |ps| && Ancestor(ps, id, k).Some?
    ensures k <= d < |ps|
    ensures Ancestor(ps, id, d).Some? && Ancestor(ps, id, d + 1) == None
    decreases |ps| - k
  {
    if Ancestor(ps, id, k + 1) == None then k
    else
      assert k + 1 < |ps| by {
        ChainEnds(ps, id);
      }
      DepthFrom(ps, id, k + 1)
  }

  /** The number of parent links between practice `id` and the root of its tree. */
  function Depth(ps: seq<Practice>, id: int): (d: nat)
    requires Forest(ps) && id in Keys(ps, PracticeId)
    ensures d < |ps|
    ensures Ancestor(ps, id, d).Some? && Ancestor(ps, id, d + 1) == None
  {
    DepthFrom(ps, id, 0)
  }

  /** The depth is the one step count at which the walk stands on a root. */
  lemma DepthUnique(ps: seq<Practice>, id: int, k: nat)
    requires Forest(ps) && id in Keys(ps, PracticeId)
    requires Ancestor(ps, id, k).Some? && Ancestor(ps, id, k + 1) == None
    ensures Depth(ps, id) == k
  {
    var d := Depth(ps, id);
    if d < k {
      AncestorNoneStays(ps, id, d + 1, k);
    } else if k < d {
      AncestorNoneStays(ps, id, k + 1, d);
    }
  }

  /** A practice without a parent is at level 0. */
  lemma DepthOfRoot(ps: seq<Practice>, id: int)
    requires Forest(ps) && id in Keys(ps, PracticeId)
    requires ParentOf(ps, id) == None
    ensures Depth(ps, id) == 0
  {
    DepthUnique(ps, id, 0);
  }

  /** A practice with parent `p` is one level below `p`. */
  lemma DepthOfChild(ps: seq<Practice>, id: int, p: int)
    requires Forest(ps) && id in Keys(ps, PracticeId)
    requires ParentOf(ps, id) == Some(p)
    ensures p in Keys(ps, PracticeId)
    ensures Depth(ps, id) == Depth(ps, p) + 1
  {
    AncestorInTable(ps, id, 1);
    var d := Depth(ps, p);
    assert Ancestor(ps, id, d + 1) == Ancestor(ps, p, d);
    assert Ancestor(ps, id, d + 2) == Ancestor(ps, p, d + 1);
    DepthUnique(ps, id, d + 1);
  }

  /**
   * `Practice.level`: start at the parent and count the links followed until
   * the walk runs out of parents.
   */
  method Level(ps: seq<Practice>, id: int) returns (level: nat)
    requires Forest(ps) && id in Keys(ps, PracticeId)
    ensures level == Depth(ps, id)
    ensures level < |ps|
  {
    level := 0;
    var current := ParentOf(ps, id);
    ChainEnds(ps, id);
    while current.Some?
      invariant current == Ancestor(ps, id, level + 1)
      invariant Ancestor(ps, id, level).Some?
      invariant level < |ps|
      decreases |ps| - level
    {
      AncestorStep(ps, id, level + 1);
      level := level + 1;
      current := ParentOf(ps, current.value);
    }
    DepthUnique(ps, id, level);
  }
}
