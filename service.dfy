/**
 * SecundaService: each operation fetches rows through the repository, applies
 * an area filter where one is asked for, and projects the rows onto the
 * response shapes.
 */
module Service {
  import opened Base
  import opened Seqs
  import opened Models
  import opened Utils
  import opened Repository

  /**
   * The area argument. The type hints admit a box or a circle only, but the
   * dispatch tests the runtime type, so any other value reaches the `else`.
   */
  datatype AreaValue =
    | BoxValue(box: BoxArea)
    | CircleValue(circle: CircleArea)
    | OtherValue

  datatype ServiceError =
    | FilterFailed(cause: CoordError)  // the area filter raised reading a building's coordinates
    | UnsupportedAreaType              // TypeError("Unsupported Area Type")
    | ValidationError                  // the response model refused the row (here: no row)

  datatype PracticeShort = PracticeShort(id: int, name: string)

  datatype OrganizationShort = OrganizationShort(id: int, name: string)

  /** PracticeSchema: the practice row with its computed `level` and its organizations. */
  datatype PracticeView = PracticeView(
    id: int, name: string, parentId: Option<int>, level: nat, organizations: seq<OrganizationShort>)

  /** OrganizationFullSchema: the organization with its building and its practices. */
  datatype OrganizationFull = OrganizationFull(
    id: int, name: string, phoneNumbers: seq<string>, building: Building, practices: seq<PracticeShort>)

  // ---------------------------------------------------------------------------
  // Plain listings
  // ---------------------------------------------------------------------------

  /** Every building, as many as the table count. */
  function ListAllBuildings(db: Snapshot): (r: seq<Building>)
    ensures forall b :: b in r <==> b in db.buildings
    ensures |r| == GetObjectsCount(db.buildings)
  {
    ListBuildings(db)
  }

  /** Every organization, as many as the table count. */
  function ListAllOrganizations(db: Snapshot): (r: seq<Organization>)
    ensures forall o :: o in r <==> o in db.organizations
    ensures |r| == GetObjectsCount(db.organizations)
  {
    ListOrganizations(db)
  }

  function ShortPractices(ps: seq<Practice>): seq<PracticeShort>
  {
    seq(|ps|, i requires 0 <= i < |ps| => PracticeShort(ps[i].id, ps[i].name))
  }

  function ShortOrganizations(os: seq<Organization>): seq<OrganizationShort>
  {
    seq(|os|, i requires 0 <= i < |os| => OrganizationShort(os[i].id, os[i].name))
  }

  function ViewOf(db: Snapshot, q: Practice): PracticeView
    requires Forest(db.practices) && q in db.practices
  {
    PracticeView(q.id, q.name, q.parentId, Depth(db.practices, q.id), ShortOrganizations(OrganizationsOf(db, q)))
  }

  /**
   * Every practice with its `level`, which the loop of `Practice.level`
   * computes: the number of parent links up to its root.
   */
  function ListAllPractices(db: Snapshot): (r: seq<PracticeView>)
    requires Forest(db.practices)
    ensures |r| == |db.practices|
    ensures forall i :: 0 <= i < |r| ==>
              && r[i].id == db.practices[i].id
              && r[i].name == db.practices[i].name
              && r[i].parentId == db.practices[i].parentId
              && r[i].organizations == ShortOrganizations(OrganizationsOf(db, db.practices[i]))
              && r[i].level < |db.practices|
              && Ancestor(db.practices, r[i].id, r[i].level).Some?
              && Ancestor(db.practices, r[i].id, r[i].level + 1) == None
  {
    var ps := db.practices;
    seq(|ps|, i requires 0 <= i < |ps| => ViewOf(db, ps[i]))
  }

  /**
   * The levels listed are those of a forest: a root is at level 0 and a
   * child is one level below its parent.
   */
  lemma PracticeLevels(db: Snapshot, i: nat, j: nat)
    requires Forest(db.practices)
    requires i < |db.practices| && j < |db.practices|
    ensures var r := ListAllPractices(db);
      && (db.practices[i].parentId == None ==> r[i].level == 0)
      && (db.practices[i].parentId == Some(db.practices[j].id) ==> r[i].level == r[j].level + 1)
  {
    var ps := db.practices;
    FindByKey(ps, PracticeId, ps[i]);
    if ps[i].parentId == None {
      DepthOfRoot(ps, ps[i].id);
    }
    if ps[i].parentId == Some(ps[j].id) {
      DepthOfChild(ps, ps[i].id, ps[j].id);
    }
  }

  // ---------------------------------------------------------------------------
  // Organizations by building and by practice
  // ---------------------------------------------------------------------------

  /** The organizations housed in one building. */
  function ListOrganizationsInBuilding(db: Snapshot, buildingId: int): (r: seq<Organization>)
    ensures forall o :: o in r <==> o in db.organizations && o.buildingId == buildingId
  {
    ListOrganizationsByBuildingIds(db, [buildingId])
  }

  /**
   * The organizations tagged with a practice; in a well-formed database the
   * association row alone decides, since it always points at an existing practice.
   */
  function ListOrganizationsOfPractice(db: Snapshot, practiceId: int): (r: seq<Organization>)
    ensures WellFormed(db) ==>
              forall o :: o in r <==> o in db.organizations && Membership(o.id, practiceId) in db.memberships
  {
    ListOrganizationsByPracticeId(db, practiceId)
  }

  /**
   * The organizations tagged with the practice, a child of it or a grandchild
   * of it, each once.
   */
  function ListOrganizationsOfPracticeRecursively(db: Snapshot, practiceId: int): (r: seq<Organization>)
    ensures forall o :: o in r <==> o in db.organizations && TaggedRecursively(db, o, practiceId)
    ensures NoDuplicates(r)
  {
    ListOrganizationsByPracticeIdRecursively(db, practiceId)
  }

  /** The organizations whose folded name holds the folded search text. */
  function SearchOrganizationsByName(db: Snapshot, search: string, lower: char -> char): (r: seq<Organization>)
    ensures forall o :: o in r <==>
              o in db.organizations && exists a, b :: Lowered(o.name, lower) == a + Lowered(search, lower) + b
  {
    ListOrganizationsByNameSearch(db, search, lower)
  }

  // ---------------------------------------------------------------------------
  // Area queries
  // ---------------------------------------------------------------------------

  function LiftFilter(r: Result<seq<Building>, CoordError>): Result<seq<Building>, ServiceError>
  {
    match r
    case Success(bs) => Success(bs)
    case Failure(e) => Failure(FilterFailed(e))
  }

  /**
   * The buildings in an area: the box filter for a box, the circle filter for
   * a circle, and an error for anything else. A result is always drawn from
   * the whole building list, in its order.
   */
  function ListBuildingsInArea(
    db: Snapshot, area: AreaValue,
    parse: string -> Option<real>, distance: (real, real, real, real) -> real)
    : (r: Result<seq<Building>, ServiceError>)
    ensures r == Failure(UnsupportedAreaType) <==> area.OtherValue?
    ensures area.BoxValue? ==> r == LiftFilter(KeepWhere(ListAllBuildings(db), BoxTest(area.box, parse)))
    ensures area.CircleValue? ==>
              r == LiftFilter(KeepWhere(ListAllBuildings(db), CircleTest(area.circle, parse, distance)))
    ensures r.Success? ==> IsSubsequence(r.value, ListAllBuildings(db))
  {
    var buildings := ListBuildings(db);
    match area
    case BoxValue(box) =>
      BoxFilterSpec(buildings, box, parse);
      LiftFilter(KeepWhere(buildings, BoxTest(box, parse)))
    case CircleValue(circle) =>
      CircleFilterSpec(buildings, circle, parse, distance);
      LiftFilter(KeepWhere(buildings, CircleTest(circle, parse, distance)))
    case OtherValue =>
      Failure(UnsupportedAreaType)
  }

  /** `[b.id for b in buildings]`. */
  function BuildingIds(bs: seq<Building>): (ids: seq<int>)
    ensures |ids| == |bs|
    ensures forall k :: k in ids <==> exists b :: b in bs && b.id == k
  {
    var ids := seq(|bs|, i requires 0 <= i < |bs| => bs[i].id);
    assert forall b :: b in bs ==> b.id in ids by {
      forall b | b in bs ensures b.id in ids {
        var i :| 0 <= i < |bs| && bs[i] == b;
        assert ids[i] == b.id;
      }
    }
    ids
  }

  /**
   * The organizations in an area: those whose building is among the
   * buildings in the area. The call fails exactly when the building query
   * fails, and no building in the area means no organization.
   */
  function ListOrganizationsInArea(
    db: Snapshot, area: AreaValue,
    parse: string -> Option<real>, distance: (real, real, real, real) -> real)
    : (r: Result<seq<Organization>, ServiceError>)
    ensures var bs := ListBuildingsInArea(db, area, parse, distance);
      && (r.Failure? <==> bs.Failure?)
      && (r.Failure? ==> r.error == bs.error)
      && (r.Success? ==> forall o :: o in r.value <==>
            && o in db.organizations
            && exists b :: b in bs.value && b.id == o.buildingId)
      && (r.Success? && bs.value == [] ==> r.value == [])
  {
    match ListBuildingsInArea(db, area, parse, distance)
    case Failure(e) => Failure(e)
    case Success(buildings) => Success(ListOrganizationsByBuildingIds(db, BuildingIds(buildings)))
  }

  /**
   * In a well-formed database, an organization is in an area's result exactly
   * when its own building is in the area's buildings.
   */
  lemma OrganizationsInAreaAreHousedThere(
    db: Snapshot, area: AreaValue,
    parse: string -> Option<real>, distance: (real, real, real, real) -> real, o: Organization)
    requires WellFormed(db)
    requires o in db.organizations
    requires ListBuildingsInArea(db, area, parse, distance).Success?
    ensures var bs := ListBuildingsInArea(db, area, parse, distance).value;
      var r := ListOrganizationsInArea(db, area, parse, distance).value;
      o in r <==> Find(db.buildings, BuildingId, o.buildingId).value in bs
  {
    var bs := ListBuildingsInArea(db, area, parse, distance).value;
    var home := Find(db.buildings, BuildingId, o.buildingId).value;
    forall b | b in bs && b.id == o.buildingId ensures b == home {
      SubsequenceMembers(bs, db.buildings);
      FindByKey(db.buildings, BuildingId, b);
    }
  }

  // ---------------------------------------------------------------------------
  // One organization in full
  // ---------------------------------------------------------------------------

  /**
   * The organization with its building and its practices. An absent id
   * reaches the response model as None, which refuses it: a validation
   * error rather than a not-found answer.
   */
  function GetOrganization(db: Snapshot, organizationId: int): (r: Result<OrganizationFull, ServiceError>)
    ensures r.Failure? ==> r.error == ValidationError
    ensures r.Success? ==>
              exists o :: && o in db.organizations
                          && o.id == organizationId
                          && r.value == OrganizationFull(o.id, o.name, o.phoneNumbers, r.value.building,
                                                         ShortPractices(PracticesOf(db, o)))
                          && r.value.building in db.buildings
                          && r.value.building.id == o.buildingId
  {
    match Repository.GetOrganization(db, organizationId)
    case None => Failure(ValidationError)
    case Some(o) =>
      match Find(db.buildings, BuildingId, o.buildingId)
      case None => Failure(ValidationError)
      case Some(b) => Success(OrganizationFull(o.id, o.name, o.phoneNumbers, b, ShortPractices(PracticesOf(db, o))))
  }

  /** In a well-formed database the lookup fails exactly for an id no organization has. */
  lemma GetOrganizationFailsOnlyWhenAbsent(db: Snapshot, organizationId: int)
    requires WellFormed(db)
    ensures GetOrganization(db, organizationId).Failure? <==>
              forall o :: o in db.organizations ==> o.id != organizationId
  {
    var found := Repository.GetOrganization(db, organizationId);
    if found.Some? {
      assert found.value.buildingId in Keys(db.buildings, BuildingId);
    }
  }
}
