# bevy-osm-viewer: a Dafny model of the viewport-driven feature cache

bevy-osm-viewer is a Bevy application. It draws OpenStreetMap data around a
starting point near Cambridge. As the camera moves or zooms, it requests the
ways of the visible area from the Overpass API. It merges the answer into a
feature store, then respawns one lyon shape per feature and matching layer.
This project models the logic of that cycle and proves properties of it:

- `WorldSpaceRect` splitting and the coverage index of requested viewports
  (`RectSplit`, `MapStore`);
- the Mercator-like projection and the corner wiring of the world-to-lat/long
  rect conversion (`Projection`);
- the viewport rectangle of the camera and the zoom threshold that disables
  the Building layer (`CameraSystem`);
- the three map systems: `respawn_map`, `bbox_system` and `read_map_receiver`
  (`MapSystem`), with the grouping and style choice of `respawn_map`
  (`MapStyle`);
- the Overpass query, the merge that deduplicates by id substring, and the
  conversion of response elements to features (`OverpassApi`, `Loader`);
- the selection box, mouse and keyboard handling, and the even-odd
  point-in-polygon test (`Interaction`);
- the All / None / item click transitions of the layer panel (`Settings`) and
  the startup enabling of Highway and Building (`StartingPoint`).

How the model is built:

- **Classes.** Objects that the systems change in place are classes:
  `MapBundle`, `SpatialIndex`, `SettingsOverlay`, `CameraSettings`,
  `SelectionBox` and `PanCam`. Their methods carry `modifies` clauses. Each
  method's `ensures` ties the new state to a specification function, and the
  lemmas prove properties of that function.
- **Loops.** The source's loops are `while` loops with invariants:
  - `split` (its nested loop; `split_single` has none and is a function);
  - `polygon_area`;
  - the group building and styling loops of `respawn_map`;
  - `read_map_receiver`;
  - the multi-bound fetch loop;
  - the element conversion;
  - `is_point_in_polygon`.
- **Stores.** Both R-trees are sequences. A query is a filter of that sequence
  by closed-box intersection, in storage order.
- **Coordinates.** The f32 coordinates are `real`.
- **Inputs.** Some things the code calls but does not define are inputs to the
  model:
  - The latitude halves of the projection (`ln(tan(...))` and
    `2·atan(exp(...)) − π/2`) are the function-valued parameters `forwardLat`
    and `inverseLat`.
  - `set_children` is a given operation: `ChildSetter`.
  - `get_disabled_categories` is the set `disabled`.
  - `get_true_keys_with_category_with_individual` is the list `enabled`.
  - `get_in_world_space`'s projection of each point is the input `toWorld`.
  - The iteration order of the `feature_groups` HashMap is the input `order`.
  - The camera, the window, the mouse, the keyboard and the Overpass responses
    are parameters.

Some behaviour of the code is easy to misread. The model follows the code in
each case:

- `is_covered` always answers false (src/map/types.rs:232). The subtraction
  check it would need is commented out above it (src/map/types.rs:226-230).
- The merge rejects a fetched feature when its id *occurs inside* some stored
  id (`existing.id.contains(...)`, src/webapi/overpass.rs:36 and 78). So a
  fetched id "4" is dropped once "42" is stored, not only when "4" is.
- The query builder emits only a `highway` clause per bound. The `building`
  clause is commented out (src/webapi/overpass.rs:22 and 62).
- `split_single` clips no strip to `self`:
  - the bottom and top strips take the cut's left and right;
  - the left and right strips take the cut's left and right as their inner
    edge, so for a cut to the right of `self`, the left strip reaches out to
    the cut.
  - For a cut that covers the whole rect, it answers `None`, and `split`
    keeps the rect instead of dropping it (src/map/types.rs:118-123).
- The axis orders of the two R-tree envelopes disagree:
  - The query boxes of `respawn_map` (src/systems/map.rs:43-46) and of the
    selection (src/systems/interaction.rs:151-154) put latitude on the
    first axis.
  - A feature's envelope (src/map/types.rs:33-34) puts longitude there,
    because its points are `(lon, lat)` (src/map/loader.rs:17).
  - Near the starting point, longitude is about 0.1 and latitude about 52,
    so the boxes meet only for a viewport tens of degrees wide.
    `MapStore.SwappedAxesFindNothing` states this.

## Model

| member | source | states |
|---|---|---|
| MapTypes.Normalised | src/systems/map.rs:39-42 | Result has left ≤ right and bottom ≤ top; each pair is a permutation of the input's pair; a well-formed rect is returned unchanged |
| MapTypes.PointsBox | src/map/types.rs:29-35 | The envelope of a non-empty point list: well-formed, contains every point, and every side is attained by some point |
| MapTypes.FeatureBox | src/map/types.rs:32-35 | A feature has an envelope exactly when its exterior ring is non-empty (`bounding_rect` is None otherwise) |
| MapTypes.PolygonArea | src/map/types.rs:78-86 | Needs a non-empty list; keeps j at the last index and returns Σ (g[last].x+g[i].x)·(g[last].y−g[i].y) over every i, not halved |
| MapTypes.AreaSumPivotTermVanishes | src/map/types.rs:80-83 | The term for i = last is zero |
| MapTypes.AreaSumOfRightTriangle | src/map/types.rs:78-86 | The triangle (0,0),(2,0),(0,2) of area 2 gives 4: the result is not the shoelace area |
| RectSplit.SplitSingle | src/map/types.rs:131-179 | Returns None exactly when `rect` encloses `self` on all four sides; otherwise 1 to 4 pieces, each on the far side of one of `rect`'s edges, in the order left, right, bottom, top |
| RectSplit.PiecesLayout | src/map/types.rs:135-172 | At most four pieces. Left and right strips span self's full height; bottom and top strips span rect.left..rect.right. A left strip comes first and a top strip last |
| RectSplit.PiecesAvoidCut | src/map/types.rs:135-172 | No piece overlaps the interior of `rect` |
| RectSplit.PiecesCoverRest | src/map/types.rs:131-179 | Every point of self outside `rect` lies in some piece |
| RectSplit.PiecesInsideWhenCutInside | src/map/types.rs:131-179 | When `rect` lies inside self, every piece is well-formed and lies inside self |
| RectSplit.PiecesDisjointWhenCutInside | src/map/types.rs:131-179 | When `rect` lies inside self, the pieces have pairwise disjoint interiors |
| RectSplit.PiecesAreaWhenCutInside | src/map/types.rs:131-179 | When `rect` lies inside self, the piece areas sum to area(self) − area(rect) |
| RectSplit.PiecesMayLeaveSelf | src/map/types.rs:154-172 | Concrete case: when `rect` overhangs self, the bottom strip is not clipped and reaches beyond self |
| RectSplit.Split | src/map/types.rs:113-129 | Always Some: self carved by each rect in turn, keeping a piece that split_single answers None for; `[self]` for an empty list |
| RectSplit.CutAllNeverShrinks | src/map/types.rs:116-125 | One round of cutting never lowers the piece count |
| RectSplit.CarveNeverShrinks | src/map/types.rs:113-129 | The piece count never decreases across cuts and is at least one |
| RectSplit.CutAllPieces | src/map/types.rs:118-124 | After a cut, each piece avoids the cut's interior or is an old piece the cut fully covers |
| RectSplit.CutAllKeepsPoint | src/map/types.rs:118-124 | A point of a piece that lies outside the cut stays covered by some new piece |
| RectSplit.CarveCoversUncut | src/map/types.rs:113-129 | A point of self that lies in none of the cuts lies in some resulting piece |
| RectSplit.CarveBySelfKeepsSelf | src/map/types.rs:119-123 | Cutting a rect by itself keeps it, so the remainder never becomes empty |
| MapStore.Intersecting | src/map/types.rs:212-214 | Exactly the stored rects whose closed boxes meet the query |
| MapStore.SpatialIndex.constructor | src/map/types.rs:196-200 | A new index is empty |
| MapStore.SpatialIndex.Insert | src/map/types.rs:202-204 | Appends exactly the one rect and removes nothing |
| MapStore.SpatialIndex.InsertVec | src/map/types.rs:206-210 | Appends each given rect in order and removes nothing |
| MapStore.SpatialIndex.Query | src/map/types.rs:212-214 | Returns exactly the stored rects whose closed boxes intersect the argument |
| MapStore.SpatialIndex.Split | src/map/types.rs:216-223 | An empty list when nothing intersects; otherwise the query rect carved by the intersecting rects, at least one piece |
| MapStore.SpatialIndex.IsCovered | src/map/types.rs:225-233 | Answers false for every rect in every index state |
| MapStore.LatLonQueryBox | src/systems/map.rs:43-46 | The AABB from corners [bottom, left], [top, right]: latitude on the first axis, longitude on the second, normalised |
| MapStore.QueryBoxIgnoresOrder | src/systems/map.rs:39-46 | Normalising before building the AABB gives the same query box |
| MapStore.SwappedAxesMiss | src/systems/map.rs:43-47 | A feature whose longitudes are below 40 misses the latitude-first query box of any rect whose latitudes are at least 40 |
| MapStore.SwappedAxesFindNothing | src/systems/map.rs:43-47 | So the query near the starting point finds no feature of such a store |
| MapStore.FeaturesIn | src/systems/map.rs:47 | Exactly the stored features whose envelope meets the query box |
| MapStore.MapBundle.constructor | src/map/types.rs:258-270 | Empty store and coverage index, the given reference point and scale, both flags false |
| Projection.DegreesOfRadians | src/map/projection.rs:11 | Converting degrees to radians and back is the identity |
| Projection.RadiansOfDegrees | src/map/projection.rs:25 | Converting radians to degrees and back is the identity |
| Projection.LatLonToMercator | src/map/projection.rs:5-15 | x is scale times the longitude offset in radians, so it is 0 exactly at the reference longitude (or at scale 0); at the reference latitude y is scale × forwardLat(0) |
| Projection.MercatorToLatLon | src/map/projection.rs:17-29 | Returns (lat, lon) in that order; the longitude lies east of the reference exactly when x / scale > 0 and equals it exactly when x = 0 |
| Projection.WorldSpaceRectToLatLong | src/map/projection.rs:31-44 | (bottom, left) are the converted (right, bottom) corner and (top, right) the converted (left, top) corner, so for a positive scale and left < right the longitudes come out swapped |
| Projection.LongitudeIsLinear | src/map/projection.rs:7-11 | x = 0 at the reference longitude, and x is linear in the longitude |
| Projection.LongitudeRoundTrip | src/map/projection.rs:17-29 | For scale ≠ 0 the inverse returns the original longitude, in the second slot of (lat, lon) |
| Projection.LatitudeRoundTrip | src/map/projection.rs:8-26 | ref_lat is subtracted before the forward latitude map and added after its inverse. So the latitude comes back whenever the inverse undoes the forward map on (-pi/2, pi/2), the range of 2·atan(exp(u)) − pi/2, and the offset lies in it |
| Projection.OffsetsAreRelative | src/map/projection.rs:7-8 | The projection depends only on the offsets from the reference point |
| Projection.ReferenceMapsToOrigin | src/map/projection.rs:5-15 | The reference point maps to the origin |
| Projection.PointRoundTrip | src/map/projection.rs:17-29 | Projecting the inverse of a world point forward gives that point back |
| Projection.RectCornersRoundTrip | src/map/projection.rs:31-44 | Output left/bottom come from corner (rect.right, rect.bottom), and output right/top from corner (rect.left, rect.top) |
| Projection.ConversionSwapsLongitudes | src/map/projection.rs:31-44 | There is no reordering: for a positive scale, left < right comes back as left > right, while bottom ≤ top is kept under a monotone inverse |
| CameraSystem.CameraSpaceToWorldSpace | src/systems/camera.rs:98-125 | Always Some; centred on the camera; width = window width·scale·overflow, height likewise; ordered for non-negative inputs |
| CameraSystem.BuildingToggle | src/systems/camera.rs:56-72 | Afterwards disabled exactly when scale > 3.5; flips, and raises the flags, only on an actual transition; nothing else changes |
| CameraSystem.CameraStep | src/systems/camera.rs:56-72 | Only the Building category can change; a missing Building category changes nothing |
| CameraSystem.CameraStepIdempotent | src/systems/camera.rs:57-71 | A repeated call at the same scale changes nothing and raises no flag |
| CameraSystem.CameraChange | src/systems/camera.rs:45-95 | Nothing happens if the projection is unchanged; otherwise the scale is stored and the Building toggle is applied, raising respawn and get_more_data on a transition |
| CameraSystem.CameraSettings.constructor | src/systems/settings.rs:17 | The camera settings hold the given scale (1.0 at startup) |
| Settings.LabelColour | src/systems/settings.rs:45-52 | The label is greyed out exactly when the category is disabled |
| Settings.AfterClick | src/systems/settings.rs:56-86 | All, None and item clicks: the toggle, the set_children call on switching on, the clearing of the other flag, the single flipped item; `disabled` is kept, and all and none are never both set |
| Settings.ClicksKeepExclusive | src/systems/settings.rs:56-86 | Invariant: no sequence of clicks leaves a category with both all and none set |
| Settings.ClicksKeepDisabled | src/systems/settings.rs:48-86 | Clicks keep the set of categories and never change `disabled` |
| Settings.SettingsOverlay.HandleClick | src/systems/settings.rs:53-86 | One frame's click is applied to its category as AfterClick says, and the invariant is preserved |
| Loader.NatToString | src/map/loader.rs:28 | A non-empty string of decimal digits without a leading zero |
| Loader.NatToStringRoundTrip | src/map/loader.rs:28 | The decimal digits read back as the number |
| Loader.IntToStringRoundTrip | src/map/loader.rs:28 | The id string parses back to the element id, negative ids included |
| Loader.ToFeature | src/map/loader.rs:13-32 | Points are (lon, lat) with the geometry's length and order; geometry is [points]; road is [points] iff a highway tag exists; properties are the tags or empty; the id is the decimal string of the id |
| Loader.ConvertAll | src/map/loader.rs:11-34 | At most one feature per element, and every feature has a non-empty exterior ring |
| Loader.GetDataFromStringOsm | src/map/loader.rs:6-37 | A parse error comes back as Err; otherwise Ok of the converted elements |
| Loader.ConvertAllAppend | src/map/loader.rs:11-34 | Conversion works element by element, keeping input order |
| Loader.ConvertAllExactlyNonEmpty | src/map/loader.rs:11-34 | Elements with empty geometry are skipped; every other element yields exactly one feature |
| Loader.ConvertSingle | src/map/loader.rs:13-33 | One element gives no feature or exactly its own |
| OverpassApi.QueryFor | src/webapi/overpass.rs:58-66 | One highway clause whose bbox slots are filled from bottom, right, top, left |
| OverpassApi.FreshFeatures | src/webapi/overpass.rs:76-79 | Keeps exactly the fetched features whose id is not a substring of any stored id |
| OverpassApi.FreshFeaturesAppend | src/webapi/overpass.rs:34-38 | The filter keeps fetched order and multiplicity: filtering a concatenation filters each part in turn |
| OverpassApi.FreshFeaturesSingle | src/webapi/overpass.rs:76-79 | One fetched feature is kept exactly when no stored id contains its id |
| OverpassApi.MergeResponse | src/webapi/overpass.rs:71-89 | The old store stays as a prefix, and no body or an unparsable body leaves the store unchanged; what follows the prefix is the order-keeping filter FreshFeatures |
| OverpassApi.MergeAll | src/webapi/overpass.rs:17-47 | The responses of the bounds are merged in bound order, each against the store so far, and the store never shrinks (the prefix, the dedup and the failure cases are the lemmas MergeAllKeepsStore, StoredIdNeverDuplicatedAll, LaterBoundSeesEarlierAdditions and FailedResponsesChangeNothing) |
| OverpassApi.SendOverpassQuery | src/webapi/overpass.rs:52-92 | Sends QueryFor(bound); the store becomes the old store plus the fresh features, or is unchanged on a failure |
| OverpassApi.SendOverpassQueries | src/webapi/overpass.rs:11-49 | One query per bound, in order; the store is the merge of every response, in order |
| OverpassApi.GetRoadData | src/webapi/overpass.rs:94-122 | Sends the fixed primary-highway query and appends all parsed features with no id filter |
| OverpassApi.MergeAllKeepsStore | src/webapi/overpass.rs:17-38 | The merge keeps every existing feature as a prefix and only appends |
| OverpassApi.SubstringIdRejected | src/webapi/overpass.rs:36 | A new id "4" is rejected when "42" is stored |
| OverpassApi.SameBatchDuplicatesKept | src/webapi/overpass.rs:34-37 | Two same-id features in one batch are both added |
| OverpassApi.LaterBoundSeesEarlierAdditions | src/webapi/overpass.rs:17-38 | A feature added for one bound is filtered out when a later bound returns it again |
| OverpassApi.StoredIdNeverDuplicated | src/webapi/overpass.rs:76-82 | One merge never adds another feature with a stored id |
| OverpassApi.StoredIdNeverDuplicatedAll | src/webapi/overpass.rs:17-38 | Merging the responses of any number of bounds in turn never adds another feature with a stored id |
| OverpassApi.FailedResponsesChangeNothing | src/webapi/overpass.rs:40-46 | Failed responses and parse failures leave the store unchanged |
| MapStyle.Lower | src/systems/map.rs:71 | ASCII lower-casing, character by character, same length |
| MapStyle.BuildGroups | src/systems/map.rs:54-62 | The nested push loop builds the feature_groups map |
| MapStyle.GroupKeys | src/systems/map.rs:54-62 | There are groups only for a non-empty store, and then exactly the enabled pairs whose category is not disabled |
| MapStyle.GroupSizes | src/systems/map.rs:54-62 | Each group holds (store size) × (occurrences of the pair) entries |
| MapStyle.GroupMembersStored | src/systems/map.rs:54-62 | Groups list only stored features |
| MapStyle.WorldPoints | src/systems/map.rs:91-92 | The world-space exterior with its last point removed |
| MapStyle.ColourOf | src/systems/map.rs:72 | The configured colour of the item when the category and item exist; a non-black answer implies they exist |
| MapStyle.StyleGroup | src/systems/map.rs:70-83 | One group's step: a shape exactly when the feature matches, open exactly for Highway/Railway; a linear match sets the road width and elevation 0, anything else leaves both as they were |
| MapStyle.StyleFeature | src/systems/map.rs:64-124 | The per-feature loop, with width and elevation carried across groups, pushes exactly the closed and the open shapes of the specification |
| MapStyle.OneShapePerMatch | src/systems/map.rs:69-121 | Each matching group emits exactly one shape |
| MapStyle.NoMatchNoShape | src/systems/map.rs:70-71 | No shape for a feature that matches no group; in particular groups with key "*" style nothing |
| MapStyle.ShapesComeFromMatches | src/systems/map.rs:70-120 | Each shape comes from a group where property lower(cat) == lower(key). It is open exactly for Highway/Railway, and then lies at elevation 0 with width 2.5, or 5.5 for residential/primary/secondary/tertiary |
| MapStyle.SingleShapes | src/systems/map.rs:65-83 | A single matching group is drawn at the defaults (width 1, elevation 1) unless it is linear, when it gets the road width and elevation 0 |
| MapStyle.WidthCarriesOver | src/systems/map.rs:65-83 | Width and elevation are not reset: for any feature, a filled match after a linear match is drawn at the road width and elevation 0 |
| MapStyle.RoadBuildingIsMajorRoad | src/systems/map.rs:71-81 | A primary road that is also a building matches (Highway, primary), has width 5.5, and so meets WidthCarriesOver's first requirement |
| MapStyle.RoadBuildingIsBuilding | src/systems/map.rs:71-75 | The same feature matches (Building, yes) as a filled group, which is WidthCarriesOver's second requirement |
| MapSystem.ViewportQueryBox | src/systems/map.rs:33-46 | The respawn query box is well-formed |
| MapSystem.StyleCandidates | src/systems/map.rs:64-124 | The closed and open batches hold the shapes of every candidate, feature after feature |
| MapSystem.RespawnMap | src/systems/map.rs:12-129 | Nothing unless respawn is set, which is then cleared. The viewport from overflow 2.0 is converted, normalised and queried, and the matching features are styled |
| MapSystem.BboxSystem | src/systems/map.rs:142-196 | Nothing unless get_more_data is set, which is then cleared. The 1.25-overflow viewport enters the coverage index before the fetch of its conversion is dispatched |
| MapSystem.ReadMapReceiver | src/systems/map.rs:198-208 | No message: no change. A batch: every feature is appended without dedup, the store grows by the batch length, and respawn is set |
| MapSystem.DispatchedQuerySlotsInOrder | src/systems/map.rs:163-169 | The corner swap and the bottom, right, top, left slot order together give (south, west, north, east) with south ≤ north and west < east |
| MapSystem.FetchViewportOrdered | src/systems/camera.rs:113-116 | A window of positive width at a positive scale gives a viewport with left < right |
| Interaction.IsPointInPolygon | src/systems/interaction.rs:244-263 | False for fewer than three vertices; otherwise true iff an odd number of edges (vertex i with its predecessor, the last vertex for i = 0) pass the crossing test |
| Interaction.AboveAllVerticesIsOutside | src/systems/interaction.rs:249-262 | A point on or above every vertex crosses no edge and is outside |
| Interaction.SquareExamples | src/systems/interaction.rs:244-263 | The centre of a square is inside; a point to its right is outside |
| Interaction.SelectionRect | src/systems/interaction.rs:144-149 | left ≤ right and bottom ≤ top, from the min/max of (start − 5.5) and end |
| Interaction.SelectionOutline | src/systems/interaction.rs:119-142 | Four corners of an axis-aligned rectangle from (start − 5.5); the far corner is end + 5.5 for a point selection and end otherwise |
| Interaction.PointSelectionDrawsSquare | src/systems/interaction.rs:120-149 | When start == end the drawn box is the square of half-width 5.5 around the point, while the queried rect spans only [p − 5.5, p] |
| Interaction.SelectionStep | src/systems/interaction.rs:67-88 | A fresh left press with a world position sets start = end = that position. A held button with a world position sets end to it and keeps start. Without a cursor or world position, or without a press, nothing changes |
| Interaction.DragKeepsStart | src/systems/interaction.rs:78-88 | Without a fresh press, start never changes over any number of frames |
| Interaction.PressThenDrag | src/systems/interaction.rs:67-88 | A press at a then a drag to b selects from a to b |
| Interaction.HandleMouse | src/systems/interaction.rs:48-101 | Releasing the middle button sets get_more_data and nothing clears it; the selection steps as SelectionStep; the pan camera is off exactly when cursor.x ≤ panel width + 15, that is over the whole panel and up to 15 beyond it |
| Interaction.HandleKeyboard | src/systems/interaction.rs:37-45 | Holding U sets get_more_data; nothing clears it |
| Interaction.SelectionQueryBox | src/systems/interaction.rs:144-154 | The selection's query box is well-formed |
| Interaction.DrawSelectionBox | src/systems/interaction.rs:110-176 | When the selection changed and has both ends: the outline, the features in its box, and respawn_selected_features set; otherwise no change |
| Interaction.SelectionBox.constructor | src/systems/interaction.rs:27-34 | A new selection has neither start nor end |
| Interaction.PanCam.constructor | src/systems/camera.rs:31 | The pan camera starts enabled |
| StartingPoint.EnableAtStartup | src/systems/overpass.rs:10-17 | Highway and Building, when present, get all = true and set_children(true). none and disabled are untouched, absent categories are not created, and other categories are unchanged |
| StartingPoint.StartupIdempotent | src/systems/overpass.rs:10-17 | Starting up twice equals once when set_children(true) is idempotent |
| StartingPoint.StartupCanBreakExclusive | src/systems/overpass.rs:10-17 | Because none is not cleared, a category with None ticked ends with both all and none set |
| StartingPoint.SpawnStartingPoint | src/systems/overpass.rs:5-19 | The categories become EnableAtStartup of the old ones, and get_more_data is true |

## Left out

- HTTP (`ureq`), `serde_json` parsing, `std::thread::spawn` and the crossbeam channel are not modelled. A response is an input: no body, or the outcome of parsing it. A received batch is an `Option<seq<Feature>>`.
- The panics are not modelled: the `unwrap` on sending, the `unwrap` of `into_string` in `get_road_data` (src/webapi/overpass.rs:110; so `GetRoadData` takes a body and has no unreadable-body case), a `bounding_rect` of an empty ring, and the usize underflow of `polygon_area` on an empty list. `PolygonArea` requires a non-empty list instead.
- MapStyle.ColourOf: the `unwrap`s of the category and item lookups panic on a missing entry; the model answers black there instead.
- Bevy ECS plumbing is not modelled: spawning and despawning entities, queries, resources, lyon shape building, egui drawing, `check_map_info` and `setup_camera`.
- `camera_change` reads `is_changed()` of the projection; it is the input `projectionChanged`.
- Latitude Mercator maths and `get_in_world_space`'s projection are given functions, because they use transcendental functions. src/map/projection.rs has no `lat_lon_to_world_mercator`, which `get_in_world_space` calls.
- f32 rounding, and the colour conversions RGB/255 (fill) and RGB/210 (stroke), are not modelled. A shape carries the item's RGB colour.
- The rstar R-tree's internal order is not modelled: query results come in storage order.
- `to_lowercase` is modelled on ASCII only, without Unicode case folding.
- The trailing `respawn_map(...)` calls in src/webapi/overpass.rs do not match `respawn_map`'s signature, so they are not modelled.
- `get_overpass_data`, which `bbox_system` dispatches, is not in the source. The model returns the dispatched latitude/longitude box.
- `MapBundle` in src/map/types.rs has no `selected_features` or `respawn_selected_features` fields, but src/systems/interaction.rs writes them. The model adds both fields to `MapBundle`, initially empty and false.
- The body of `set_children`, `get_disabled_categories` and `get_true_keys_with_category_with_individual` are not in the source. They are inputs.
- The commented-out zoom rule for Highway (scale > 10) and the commented-out building clause are not modelled.
- `is_feature_in_viewport` is never called, and `RefrencePoint::get_long_lat` only reads fields, so neither is modelled.
- src/systems/overpass_types.rs and the app wiring in main.rs, plugins and mod.rs are not part of this model.
