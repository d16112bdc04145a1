/**
 * The three map systems of one frame: respawn_map (restyle the features in
 * view), bbox_system (request the data for the current viewport) and
 * read_map_receiver (merge a received batch). The camera, the window and the
 * fetch result are inputs.
 */
module MapSystem {
  import opened Wrappers
  import opened MapTypes
  import opened MapStore
  import opened Projection
  import opened CameraSystem
  import opened Settings
  import opened MapStyle
  import OverpassApi

  /** How much of the world around the window respawn_map draws, as a multiple of the window. */
  const RESPAWN_OVERFLOW: real := 2.0
  /** How much of the world around the window bbox_system requests. */
  const FETCH_OVERFLOW: real := 1.25

  /** `order` lists every group of `keys` exactly once: a HashMap's iteration order. */
  ghost predicate Enumerates(order: seq<Group>, keys: set<Group>) {
    (forall g :: g in order <==> g in keys)
    && forall i, j :: 0 <= i < j < |order| ==> order[i] != order[j]
  }

  /**
   * The box respawn_map queries the feature store with: the viewport converted to
   * latitude/longitude, normalised, and laid out latitude-first.
   */
  function ViewportQueryBox(view: CameraView, inverseLat: real -> real): (q: Rect)
    ensures WellFormed(q)
  {
    var viewport := CameraSpaceToWorldSpace(view, RESPAWN_OVERFLOW).value;
    var geo := WorldSpaceRectToLatLong(viewport, SCALE, STARTING_LONG, STARTING_LAT, inverseLat);
    LatLonQueryBox(Normalised(geo))
  }

  /** The shapes of all candidates, feature after feature. */
  function AllShapes(candidates: seq<Feature>, order: seq<Group>, cats: map<string, Category>,
                     toWorld: Vec2 -> Vec2): seq<Shape>
    decreases |candidates|
  {
    if candidates == [] then []
    else AllShapes(candidates[..|candidates| - 1], order, cats, toWorld)
         + FeatureShapes(candidates[|candidates| - 1], order, cats, toWorld)
  }

  /** The styling loop of respawn_map over the candidates, filling the closed and open batches. */
  method StyleCandidates(candidates: seq<Feature>, order: seq<Group>, cats: map<string, Category>,
                         toWorld: Vec2 -> Vec2)
    returns (closed: seq<Shape>, open: seq<Shape>)
    ensures closed == Closed(AllShapes(candidates, order, cats, toWorld))
    ensures open == Open(AllShapes(candidates, order, cats, toWorld))
  {
    closed, open := [], [];
    ghost var shapes: seq<Shape> := [];
    var i := 0;
    while i < |candidates|
      invariant 0 <= i <= |candidates|
      invariant shapes == AllShapes(candidates[..i], order, cats, toWorld)
      invariant closed == Closed(shapes) && open == Open(shapes)
    {
      assert candidates[..i + 1][..i] == candidates[..i];
      var c, o := StyleFeature(candidates[i], order, cats, toWorld);
      ghost var more := FeatureShapes(candidates[i], order, cats, toWorld);
      ClosedAppend(shapes, more);
      OpenAppend(shapes, more);
      shapes := shapes + more;
      closed := closed + c;
      open := open + o;
      i := i + 1;
    }
    assert candidates[..i] == candidates;
  }

  /**
   * respawn_map: when the respawn flag is set, clear it and restyle every stored
   * feature whose envelope meets the viewport; otherwise do nothing. `order` is
   * the iteration order of the group map, whose keys are the enabled pairs of
   * non-disabled categories (GroupKeys).
   */
  method RespawnMap(mb: MapBundle, cats: map<string, Category>, view: CameraView,
                    enabled: seq<Group>, disabled: set<string>, order: seq<Group>,
                    inverseLat: real -> real, toWorld: Vec2 -> Vec2)
    returns (closed: seq<Shape>, open: seq<Shape>)
    requires Enumerates(order, EnabledGroups(enabled, disabled))
    modifies mb`respawn
    ensures !mb.respawn
    ensures !old(mb.respawn) ==> closed == [] && open == []
    ensures old(mb.respawn) ==>
      var shapes := AllShapes(FeaturesIn(mb.features, ViewportQueryBox(view, inverseLat)), order, cats, toWorld);
      closed == Closed(shapes) && open == Open(shapes)
  {
    closed, open := [], [];
    if mb.respawn {
      mb.respawn := false;
      var viewport := CameraSpaceToWorldSpace(view, RESPAWN_OVERFLOW).value;
      var geo := WorldSpaceRectToLatLong(viewport, SCALE, STARTING_LONG, STARTING_LAT, inverseLat);
      var left := Min(geo.left, geo.right);
      var right := Max(geo.left, geo.right);
      var bottom := Min(geo.bottom, geo.top);
      var top := Max(geo.bottom, geo.top);
      assert Rect(left, right, bottom, top) == Normalised(geo);
      var query := LatLonQueryBox(Rect(left, right, bottom, top));
      var candidates := FeaturesIn(mb.features, query);

      var groups := BuildGroups(mb.features, enabled, disabled);
      GroupKeys(mb.features, enabled, disabled);
      // With an empty store there are no groups, but then there are no candidates either.
      assert mb.features != [] ==> forall g :: g in order <==> g in groups;

      closed, open := StyleCandidates(candidates, order, cats, toWorld);
    }
  }

  /**
   * bbox_system: when get_more_data is set, clear it; the viewport (1.25 window
   * sizes) is then never reported covered, so it is entered into the coverage
   * index, and the fetch is dispatched for its latitude/longitude conversion.
   * The index already holds the viewport when the fetch is dispatched.
   */
  method BboxSystem(mb: MapBundle, view: CameraView, inverseLat: real -> real)
    returns (dispatched: Option<Rect>)
    modifies mb`getMoreData, mb.index
    ensures !mb.getMoreData
    ensures !old(mb.getMoreData) ==> dispatched == None && mb.index.rects == old(mb.index.rects)
    ensures old(mb.getMoreData) ==>
      var viewport := CameraSpaceToWorldSpace(view, FETCH_OVERFLOW).value;
      mb.index.rects == old(mb.index.rects) + [viewport]
      && dispatched == Some(WorldSpaceRectToLatLong(viewport, SCALE, STARTING_LONG, STARTING_LAT, inverseLat))
    ensures dispatched.Some? ==> CameraSpaceToWorldSpace(view, FETCH_OVERFLOW).value in mb.index.rects
  {
    dispatched := None;
    if mb.getMoreData {
      mb.getMoreData := false;
      var viewport := CameraSpaceToWorldSpace(view, FETCH_OVERFLOW);
      if viewport.Some? {
        var covered := mb.index.IsCovered(viewport.value);
        if !covered {
          mb.index.Insert(viewport.value);
          var converted := WorldSpaceRectToLatLong(viewport.value, SCALE, STARTING_LONG, STARTING_LAT, inverseLat);
          dispatched := Some(converted);
        }
      }
    }
  }

  /**
   * read_map_receiver: with no message nothing changes; with a batch, every
   * feature is appended (no deduplication) and respawn is raised.
   */
  method ReadMapReceiver(mb: MapBundle, received: Option<seq<Feature>>)
    modifies mb`features, mb`respawn
    ensures received.None? ==> mb.features == old(mb.features) && mb.respawn == old(mb.respawn)
    ensures received.Some? ==> mb.features == old(mb.features) + received.value && mb.respawn
    ensures received.Some? ==> |mb.features| == |old(mb.features)| + |received.value|
  {
    if received.Some? {
      var batch := received.value;
      var i := 0;
      while i < |batch|
        invariant 0 <= i <= |batch|
        invariant mb.features == old(mb.features) + batch[..i]
      {
        assert batch[..i + 1] == batch[..i] + [batch[i]];
        mb.features := mb.features + [batch[i]];
        i := i + 1;
      }
      assert batch[..i] == batch;
      mb.respawn := true;
    }
  }

  /**
   * The box the dispatched query carries: the viewport's latitude/longitude
   * conversion sent through the bbox clause. Although the conversion swaps
   * longitudes and the clause reads bottom, right, top, left, the two together
   * fill the Overpass slots in their own order (south, west, north, east) for a
   * viewport with left < right and bottom <= top.
   */
  lemma DispatchedQuerySlotsInOrder(viewport: Rect, inverseLat: real -> real)
    requires viewport.left < viewport.right && viewport.bottom <= viewport.top
    requires forall a, b :: a <= b ==> inverseLat(a) <= inverseLat(b)
    ensures var geo := WorldSpaceRectToLatLong(viewport, SCALE, STARTING_LONG, STARTING_LAT, inverseLat);
            var box := OverpassApi.QueryFor(geo).clauses[0].bbox;
            box.south <= box.north && box.west < box.east
            && box.south == Min(geo.bottom, geo.top) && box.west == Min(geo.left, geo.right)
  {
    ConversionSwapsLongitudes(viewport, SCALE, STARTING_LONG, STARTING_LAT, inverseLat);
  }

  /** A camera view with non-negative sizes requests a viewport the lemma above applies to. */
  lemma FetchViewportOrdered(view: CameraView)
    requires view.windowWidth > 0.0 && view.windowHeight >= 0.0 && view.scale > 0.0
    ensures var vp := CameraSpaceToWorldSpace(view, FETCH_OVERFLOW).value;
            vp.left < vp.right && vp.bottom <= vp.top
  {
    var vp := CameraSpaceToWorldSpace(view, FETCH_OVERFLOW).value;
    assert vp.right - vp.left == view.windowWidth * view.scale * FETCH_OVERFLOW;
    assert view.windowWidth * view.scale > 0.0;
  }
}
