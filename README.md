# Secunda directory service — a Dafny model of its query layer

Secunda is a directory of organizations. Each organization is housed in a
building, which has a `"lat,lon"` coordinate string. Each organization is
tagged with practices (activities), and the practices form a parent-pointer
forest. This project models the core of that service:

- the tables and the constraints the schema declares (`models.py`);
- `Practice.level`, the loop that counts parent links up to a root;
- the two area filters over buildings: the box test centred on corner 1 and
  the circle test over a distance function (`utils.py`);
- each repository query, stated as a filter over a database snapshot
  (`repository.py`);
- the service layer that composes those queries (`service.py`);
- the validation of the area query parameters (`dependencies.py`).

The database is a value, `Models.Snapshot`: the building, organization and
practice tables plus the association table `organization_practice`, each a
sequence in table order. A query is a function of the snapshot. The one loop
in the models, `Practice.level`, is the method `Models.Level`, proved equal to
the specification function `Models.Depth`. Both filter loops are methods,
`Utils.FindBuildingsInBoxArea` and `Utils.FindBuildingsInCircleArea`, proved
equal to the fallible filter `Seqs.KeepWhere`. Python's `float`, the haversine
distance and the case folding of `ilike` are parameters of the functions that
use them.

Files and modules:

| file | module | contents |
|---|---|---|
| base.dfy | Base | `Option`, `Result` |
| seqs.dfy | Seqs | filters, subsequences, `DISTINCT`, primary keys |
| models.dfy | Models | rows, `WellFormed`, parent chains, `Depth`, `Level` |
| cascade.dfy | Cascade | the delete cascades of the schema |
| utils.dfy | Utils | coordinate parsing, box and circle filters |
| repository.dfy | Repository | the repository queries |
| service.dfy | Service | `SecundaService` |
| dependencies.dfy | Dependencies | `box_query`, `circle_query`, `area_query` |
| seed.dfy | Seed | the seeded data of `init_database.py` as a fixture |

## Model

| member | source | states |
|---|---|---|
| Models.DepthFrom | models.py:73-77 | the count reached walking up from step `k` is below the number of practices, and the chain has a practice at that step but none after it |
| Models.Depth | models.py:72-78 | a practice's level is below the number of practices, and the chain of parents has exactly that many links before it stops |
| Models.DepthUnique | models.py:73-78 | any step count at which the chain ends is the level |
| Models.DepthOfRoot | models.py:73-75 | a practice without a parent has level 0 |
| Models.DepthOfChild | models.py:74-77 | a practice with parent `p` has level `level(p) + 1`, and `p` exists |
| Models.Level | models.py:71-78 | the `while current` loop ends, and the count it returns is `Depth` and below the number of practices |
| Models.ChainEnds | models.py:75-77 | in an acyclic forest every chain of parents ends within as many steps as there are practices (pigeonhole over the practices visited) |
| Models.AncestorInTable | models.py:55 | when every parent id names an existing practice, every ancestor on a chain is an existing practice |
| Models.ParentsPrecedeAcyclic | init_database.py:40-58 | a table seeded parents first, so that every parent id is below its child's id, has no cycle |
| Models.AncestorBelow | init_database.py:40-58 | in such a table every ancestor's id is below the practice's id |
| Cascade.DeleteBuilding | models.py:29-32 | deleting a building keeps exactly the other buildings and the organizations housed elsewhere, and leaves the practices unchanged |
| Cascade.DeleteBuildingCascades | models.py:29-32 | deleting a building removes exactly that building, the organizations housed in it and their association rows, and keeps the database well formed |
| Cascade.DeletePractice | models.py:61-64 | deleting a practice leaves buildings and organizations alone |
| Cascade.DeletePracticeRemovesSubtree | models.py:61-64 | a practice survives the delete exactly when the deleted practice is not on its chain of parents |
| Cascade.DeletePracticeKeepsWellFormed | models.py:61-64 | deleting a practice subtree through the `children` cascade, together with the association rows (models.py:14-19) that point into it, keeps the database well formed |
| Cascade.InSubtreeIffDescends | models.py:61-64 | the subtree removed is exactly the set of practices that descend from the root |
| Cascade.SubtreeHoldsChildren | models.py:61-64 | the child of a practice in the subtree is in the subtree |
| Cascade.ParentClosedForest | models.py:55 | a part of a forest that holds every parent of its members is a forest |
| Cascade.ParentClosedAncestors | models.py:55-60 | in such a part every chain of parents is the chain in the whole forest |
| Utils.Split | utils.py:22-23 | `split(",")` gives at least one field, and no field holds the separator |
| Utils.SplitJoin | utils.py:22-23 | joining the fields back with the separator gives the string |
| Utils.SplitNoSeparator | utils.py:22-23 | a string without the separator splits into itself alone |
| Utils.SplitAtFirst | utils.py:22-23 | the text up to the first separator is the first field, and the rest splits on its own |
| Utils.ParseCoordinates | utils.py:22-23 | a coordinate read succeeds only with two fields or more, and then latitude and longitude are the parses of the first two |
| Utils.CoordinatesFromFields | utils.py:22-23 | for `a + "," + b` with no comma in `a`, the first field read is `a`, the second is `b` up to its first comma, and a failed parse names the field |
| Utils.NoCommaFails | utils.py:22-23 | a coordinate string with no comma fails, with an index error when its only field is a number |
| Utils.InBox | utils.py:24-27 | the box test as written: each coordinate lies within the distance from corner 1 to corner 2 of corner 1, an interval centred on corner 1; both corners pass |
| Utils.FindBuildingsInBoxArea | utils.py:19-29 | the loop returns what the fallible filter `KeepWhere` returns for the box test |
| Utils.BoxFilterSpec | utils.py:19-29 | the box filter fails exactly when some building's coordinates cannot be read, with the first such error; otherwise it keeps exactly the buildings that pass the box test, in order, adding no duplicates |
| Utils.BoxFilterRejectsMalformed | utils.py:22-23 | one building without a comma makes the box filter fail rather than skip it |
| Utils.DegenerateBox | utils.py:24-27 | a box with equal corners keeps only the buildings exactly at the corner |
| Utils.BoxCentredOnCorner1 | utils.py:24-27 | a building at either corner, or at corner 2 reflected through corner 1, is kept; the reflected point is outside the span of the corners |
| Utils.FindBuildingsInCircleArea | utils.py:32-44 | the loop returns what `KeepWhere` returns for the circle test |
| Utils.CircleFilterSpec | utils.py:32-44 | the circle filter fails exactly when some building's coordinates cannot be read, with the first such error; otherwise it keeps exactly the buildings within the radius, in order, adding no duplicates |
| Utils.CircleFilterRejectsMalformed | utils.py:37-38 | one building without a comma makes the circle filter fail |
| Utils.CircleKeepsCentre | utils.py:35-43 | with a distance that is zero from a point to itself, a building at the centre is kept |
| Repository.GetObjectsCount | repository.py:9-11 | the count is a natural number, zero exactly for an empty table |
| Repository.CountIsNumberOfKeys | repository.py:9-11 | in a table with a primary key the count is the number of distinct keys |
| Repository.ListBuildings | repository.py:18-20 | every building is listed, as many rows as the table count |
| Repository.ListOrganizations | repository.py:22-27 | every organization is listed, as many rows as the table count |
| Repository.ListPractices | repository.py:29-34 | every practice is listed, as many rows as the table count |
| Repository.PracticesOf | models.py:44-47 | an organization's practices are exactly the practices with an association row to it |
| Repository.OrganizationsOf | models.py:66-69 | a practice's organizations are exactly the organizations with an association row to it |
| Repository.RelationshipsAgree | models.py:66-69 | `back_populates`: a practice is among an organization's practices exactly when the organization is among the practice's organizations; both read the same association rows, so this holds by construction |
| Repository.ListOrganizationsByBuildingIds | repository.py:36-42 | an organization is listed exactly when its building id is among the ids; no ids, no organizations |
| Repository.ListOrganizationsByPracticeId | repository.py:44-54 | an organization is listed exactly when it has an association row to that practice and the practice exists |
| Repository.MatchesRecursively | repository.py:72-76 | under the primary key the three clauses are: the practice itself, a child of it, or a practice whose parent's parent is it |
| Repository.JoinRows | repository.py:68-77 | the join keeps exactly the organizations with a practice that matches one of the three clauses |
| Repository.JoinRepeats | repository.py:70-78 | an organization with two matching practices appears at least twice in the join, which is why `distinct()` is needed |
| Repository.ListOrganizationsByPracticeIdRecursively | repository.py:67-81 | an organization is listed exactly when it has a practice that is the one asked for, a child of it, or a grandchild of it; none is listed twice |
| Repository.RecursiveContainsExact | repository.py:44-54 | the recursive result contains the exact-practice result |
| Repository.MatchesWithinTwoLinks | repository.py:72-76 | a practice matches exactly when the practice asked for is at most two parent links up |
| Repository.GreatGrandchildDoesNotMatch | repository.py:72-76 | in a forest a great-grandchild does not match |
| Repository.RecursiveStopsAtGrandchildren | repository.py:72-76 | an organization tagged only with great-grandchildren is not listed |
| Repository.GetOrganization | repository.py:56-65 | the lookup returns an organization with that id, and nothing exactly when no organization has it |
| Repository.GetOrganizationFindsRow | repository.py:56-65 | under the primary key the lookup returns the one row with that id |
| Repository.SubstringIffSplit | repository.py:86 | the pattern `%s%` matches a name exactly when the name is some text, then `s`, then some text |
| Repository.ListOrganizationsByNameSearch | repository.py:83-89 | an organization is listed exactly when its folded name holds the folded search text |
| Repository.EmptySearchListsAll | repository.py:83-89 | an empty search lists every organization, in table order |
| Service.ListAllBuildings | service.py:20-22 | delegates unchanged to `list_buildings`: every building, as many as the table count |
| Service.ListAllPractices | service.py:24-26 | one view per practice, carrying its id, name and parent id, the organizations joined to it, and a level at which its chain of parents stops |
| Service.ListAllOrganizations | service.py:28-30 | delegates unchanged to `list_organizations`: every organization, as many as the table count |
| Service.PracticeLevels | service.py:24-26 | in the listing a root is at level 0 and a child one level below its parent |
| Service.ListOrganizationsInBuilding | service.py:32-34 | exactly the organizations housed in that building |
| Service.ListOrganizationsOfPractice | service.py:36-38 | in a well-formed database, exactly the organizations with an association row to that practice |
| Service.ListOrganizationsOfPracticeRecursively | service.py:66-68 | delegates unchanged to the recursive repository lookup: exactly the organizations tagged with the practice, a child or a grandchild of it, each once |
| Service.SearchOrganizationsByName | service.py:70-72 | delegates unchanged to the name search: exactly the organizations whose folded name holds the folded search text |
| Service.ListBuildingsInArea | service.py:40-48 | a box uses the box filter and a circle the circle filter; any other value is an "Unsupported Area Type" error and nothing else is; a result is drawn from all buildings in order |
| Service.BuildingIds | service.py:59 | the id list has one id per building and holds exactly their ids |
| Service.ListOrganizationsInArea | service.py:50-60 | fails exactly when the building filter fails, with its error; otherwise lists exactly the organizations whose building id is one of the area's buildings, and none when no building is in the area |
| Service.OrganizationsInAreaAreHousedThere | service.py:50-60 | in a well-formed database an organization is listed exactly when its own building is in the area |
| Service.GetOrganization | service.py:62-64 | a success is the organization with that id together with its building and its practices; a failure is a validation error |
| Service.GetOrganizationFailsOnlyWhenAbsent | service.py:62-64 | in a well-formed database the call fails exactly when no organization has that id |
| Dependencies.BoxQuery | dependencies.py:22-30 | a box exactly when all four coordinates are given, holding exactly those values |
| Dependencies.CircleQuery | dependencies.py:33-40 | a circle exactly when centre and radius are given, holding exactly those values, with a non-negative radius |
| Dependencies.AreaQuery | dependencies.py:43-57 | both areas: 422 "Specify only one area"; neither: 422 "Area is required"; one: that area unchanged |
| Seed.SeedWellFormed | init_database.py:13-139 | the seeded database satisfies every key and foreign-key constraint and its practices form a forest |
| Seed.HookahLoungeLevel | init_database.py:40-44 | Кальянная, under Бар under Еда, is at level 2 |
| Seed.FoodLookup | init_database.py:84-139 | the recursive lookup of Еда lists exactly Эль Боррачо, Мария Санта and Dukh (the organizations with ids 1, 2 and 6) |
| Seed.RecursiveLookupByIndex | repository.py:67-81 | over tables numbered 1, 2, … in list order, the recursive lookup lists exactly the organizations with an association row into the matching practices |

## Left out

- Models.Level: the store checks only that a `parent_id` names an existing practice, not that the parent links are free of cycles. On a cyclic parent chain, such as a practice that is its own parent, `Practice.level` never returns. `Models.Level`, `Models.Depth` and `Service.ListAllPractices` require the forest invariant and so do not describe that case.
- Floating point: coordinates and distances are exact reals. Python's `float` parsing is a parameter that returns a number or nothing; rounding is not modelled. `float("nan")` and `float("inf")` succeed in Python, and a building at NaN is skipped silently because every comparison with NaN is false; a parse result of `Option<real>` cannot represent that case.
- `distance_wgs84` (utils.py:9-16) is a parameter of the circle filter. Its trigonometry is not modelled; only `distance(x, y, x, y) == 0` is assumed, and only by `Utils.CircleKeepsCentre`.
- `ilike` case folding is a parameter `lower: char -> char`. Unicode case folding is not modelled. A `%` or `_` inside the search text is taken literally, while SQL would treat it as a wildcard; a backslash, which PostgreSQL `LIKE`/`ILIKE` treats as the escape character by default, is also taken literally.
- Repository.ListOrganizationsByNameSearch: the model folds one character at a time, so case mappings that change a string's length are not captured.
- Result order: the plain `select` queries have no `order by`. The model returns rows in table order, and the membership contracts do not depend on that order.
- Sessions, `async`, `selectinload` and lazy loading are not modelled. A row's relationships are read from the snapshot.
- The pydantic projections are reduced to the fields the contracts use. `BuildingSchema` is the row itself. `OrganizationSchema` is the row without its `practices` list, which the organization listings here do not carry: `Service.ListAllOrganizations`, `ListOrganizationsInBuilding`, `ListOrganizationsOfPractice`, `ListOrganizationsOfPracticeRecursively`, `SearchOrganizationsByName` and `ListOrganizationsInArea` return the rows alone. The list an organization would carry is `Repository.PracticesOf`, as `Service.GetOrganization` shows.
- HTTP routing, `verify_api_key`, `get_service`, configuration, `main.py` and the populate-if-empty check of `init_database.py` are I/O and are not modelled.
- Seed: the practices are numbered 1, 2, … in the order of the seeding script's list, which need not be the ids the ORM assigns: its unit of work may insert the children it cascades from a parent in another order. Еда is id 1 in every order, and organization ids follow their own list, so `Seed.FoodLookup` and `Seed.HookahLoungeLevel` describe the fixture as numbered here. The seeding code itself (flushes, `add_all`) is not modelled.
- service.py imports `find_building_scalars_in_box_area` and `find_building_scalars_in_circle_area`, but utils.py defines `find_buildings_in_box_area` and `find_buildings_in_circle_area`. The model takes the two names to mean the same functions.
- Service.GetOrganization: for an absent id the repository returns `None`, and `model_validate(None)` raises a validation error. The code is followed here, not a not-found answer. A building missing for an existing organization gives the same error; in a well-formed database this cannot happen.
- Dependencies.AreaQuery: `box and circle` tests truthiness. A pydantic model instance is always truthy, so presence is what the model tests.
- Service.ListBuildingsInArea: a Python `TypeError` is the error value `UnsupportedAreaType`. An exception raised by the filter becomes the error value `FilterFailed`.
