/**
 * The two stores of the map: the coverage index of requested viewports
 * (SpatialIndex) and the MapBundle resource that owns the feature store and the
 * respawn / get_more_data flags. Both R-trees are modelled as sequences filtered
 * by closed-box intersection.
 */
module MapStore {
  import opened Wrappers
  import opened MapTypes
  import RectSplit

  /** The stored rects whose closed boxes meet `q`, in storage order. */
  function Intersecting(rs: seq<Rect>, q: Rect): (hits: seq<Rect>)
    ensures forall r :: r in hits <==> r in rs && BoxesIntersect(r, q)
    ensures |hits| <= |rs|
    decreases |rs|
  {
    if rs == [] then []
    else
      var last := rs[|rs| - 1];
      var init := Intersecting(rs[..|rs| - 1], q);
      assert forall r :: r in rs <==> r in rs[..|rs| - 1] || r == last;
      init + (if BoxesIntersect(last, q) then [last] else [])
  }

  /** The coverage index: every viewport rect ever requested. */
  class SpatialIndex {
    var rects: seq<Rect>

    constructor ()
      ensures rects == []
    {
      rects := [];
    }

    method Insert(rect: Rect)
      modifies this
      ensures rects == old(rects) + [rect]
    {
      rects := rects + [rect];
    }

    method InsertVec(rs: seq<Rect>)
      modifies this
      ensures rects == old(rects) + rs
    {
      var i := 0;
      while i < |rs|
        invariant 0 <= i <= |rs|
        invariant rects == old(rects) + rs[..i]
      {
        assert rs[..i + 1] == rs[..i] + [rs[i]];
        rects := rects + [rs[i]];
        i := i + 1;
      }
      assert rs[..i] == rs;
    }

    /** The stored rects whose closed boxes intersect `q`. */
    method Query(q: Rect) returns (hits: seq<Rect>)
      ensures forall r :: r in hits <==> r in rects && BoxesIntersect(r, q)
      ensures hits == Intersecting(rects, q)
    {
      hits := [];
      var i := 0;
      while i < |rects|
        invariant 0 <= i <= |rects|
        invariant hits == Intersecting(rects[..i], q)
      {
        assert rects[..i + 1][..i] == rects[..i];
        if BoxesIntersect(rects[i], q) {
          hits := hits + [rects[i]];
        }
        i := i + 1;
      }
      assert rects[..i] == rects;
    }

    /**
     * `q` carved by every stored rect that meets it; when nothing meets it, the
     * empty list (not `[q]`).
     */
    method Split(q: Rect) returns (pieces: seq<Rect>)
      ensures Intersecting(rects, q) == [] ==> pieces == []
      ensures Intersecting(rects, q) != [] ==> pieces == RectSplit.Carve(q, Intersecting(rects, q))
      ensures Intersecting(rects, q) != [] ==> |pieces| >= 1
    {
      var r2 := Query(q);
      if r2 != [] {
        var split := RectSplit.Split(q, r2);
        pieces := split.value;
        RectSplit.CarveNeverShrinks(q, r2, 0);
      } else {
        pieces := [];
      }
    }

    /** The coverage test is a stub: it answers false in every state. */
    method IsCovered(q: Rect) returns (covered: bool)
      ensures !covered
    {
      covered := false;
    }
  }

  /**
   * The AABB that respawn_map and draw_selection_box query the feature store with:
   * corners [bottom, left] and [top, right] of a latitude/longitude rect, so its
   * first axis is latitude and its second longitude.
   */
  function LatLonQueryBox(geo: Rect): (q: Rect)
    ensures WellFormed(q)
    ensures multiset{q.left, q.right} == multiset{geo.bottom, geo.top}
    ensures multiset{q.bottom, q.top} == multiset{geo.left, geo.right}
  {
    Normalised(Rect(geo.bottom, geo.top, geo.left, geo.right))
  }

  /** Normalising the rect first, as respawn_map does, gives the same query box. */
  lemma QueryBoxIgnoresOrder(geo: Rect)
    ensures LatLonQueryBox(Normalised(geo)) == LatLonQueryBox(geo)
  {
  }

  /** The envelope of `f` exists and meets the closed box `q`. */
  predicate Hits(f: Feature, q: Rect) {
    FeatureBox(f).Some? && BoxesIntersect(FeatureBox(f).value, q)
  }

  /** The stored features whose envelopes meet `q`, in storage order. */
  function FeaturesIn(store: seq<Feature>, q: Rect): (hits: seq<Feature>)
    ensures forall f :: f in hits <==> f in store && Hits(f, q)
    ensures |hits| <= |store|
    decreases |store|
  {
    if store == [] then []
    else
      var f, rest := store[|store| - 1], store[..|store| - 1];
      assert store == rest + [f];
      FeaturesIn(rest, q) + (if Hits(f, q) then [f] else [])
  }

  /**
   * The query box puts latitude on its first axis, while a feature's envelope
   * puts longitude there (its points are (lon, lat)). So near the starting
   * point, where longitudes lie below 40 degrees and latitudes above it, no
   * stored feature meets the query box of any rect near that latitude.
   */
  lemma SwappedAxesMiss(f: Feature, geo: Rect)
    requires forall i :: 0 <= i < |Exterior(f)| ==> Exterior(f)[i].x < 40.0
    requires 40.0 <= geo.bottom && 40.0 <= geo.top
    ensures !Hits(f, LatLonQueryBox(geo))
  {
    if |Exterior(f)| > 0 {
      var b := FeatureBox(f).value;
      assert b == PointsBox(Exterior(f));
      var i :| 0 <= i < |Exterior(f)| && Exterior(f)[i].x == b.right;
      assert Max(b.left, b.right) < 40.0;
    }
  }

  lemma SwappedAxesFindNothing(store: seq<Feature>, geo: Rect)
    requires forall f, i :: f in store && 0 <= i < |Exterior(f)| ==> Exterior(f)[i].x < 40.0
    requires 40.0 <= geo.bottom && 40.0 <= geo.top
    ensures FeaturesIn(store, LatLonQueryBox(geo)) == []
  {
    var hits := FeaturesIn(store, LatLonQueryBox(geo));
    if hits != [] {
      SwappedAxesMiss(hits[0], geo);
    }
  }

  /**
   * MapBundle: the feature store, the coverage index, the scale and the two flags,
   * plus the current selection that draw_selection_box writes.
   */
  class MapBundle {
    var features: seq<Feature>
    const index: SpatialIndex
    const refLong: real
    const refLat: real
    var scale: real
    var respawn: bool
    var getMoreData: bool
    var selectedFeatures: seq<Feature>
    var respawnSelectedFeatures: bool

    constructor (long: real, lat: real, scale: real)
      ensures features == [] && fresh(index) && index.rects == []
      ensures refLong == long && refLat == lat && this.scale == scale
      ensures !respawn && !getMoreData
      ensures selectedFeatures == [] && !respawnSelectedFeatures
    {
      features := [];
      index := new SpatialIndex();
      refLong := long;
      refLat := lat;
      this.scale := scale;
      respawn := false;
      getMoreData := false;
      selectedFeatures := [];
      respawnSelectedFeatures := false;
    }
  }
}
