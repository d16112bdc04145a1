/**
 * The value types of the map core: points, world-space rectangles, map features,
 * and the unused polygon-area helper. Coordinates are `real` (f32 rounding is not modelled).
 */
module MapTypes {
  import opened Wrappers

  /** The reference point the map is anchored at (Cambridge): longitude, latitude. */
  const STARTING_LONG: real := 0.1494117
  const STARTING_LAT: real := 52.19237
  /** The global projection scale. */
  const SCALE: real := 10000000.0

  datatype Vec2 = Vec2(x: real, y: real)

  /** A WorldSpaceRect. Nothing forces `left <= right` or `bottom <= top`. */
  datatype Rect = Rect(left: real, right: real, bottom: real, top: real)

  function Min(a: real, b: real): real { if a <= b then a else b }
  function Max(a: real, b: real): real { if a <= b then b else a }

  predicate WellFormed(r: Rect) {
    r.left <= r.right && r.bottom <= r.top
  }

  function Area(r: Rect): real {
    (r.right - r.left) * (r.top - r.bottom)
  }

  /** The point (x, y) lies in the closed box of `r`. */
  predicate InRect(r: Rect, x: real, y: real) {
    r.left <= x <= r.right && r.bottom <= y <= r.top
  }

  /** `outer` contains `inner` on all four sides. */
  predicate Encloses(outer: Rect, inner: Rect) {
    outer.left <= inner.left && inner.right <= outer.right &&
    outer.bottom <= inner.bottom && inner.top <= outer.top
  }

  /** The open interiors of `a` and `b` meet. */
  predicate InteriorsOverlap(a: Rect, b: Rect) {
    a.left < b.right && b.left < a.right && a.bottom < b.top && b.bottom < a.top
  }

  /**
   * The rect with each pair of coordinates put in order by min/max; this is what
   * respawn_map does to the converted viewport, and what an AABB built from two
   * corners stores.
   */
  function Normalised(r: Rect): (n: Rect)
    ensures WellFormed(n)
    ensures multiset{n.left, n.right} == multiset{r.left, r.right}
    ensures multiset{n.bottom, n.top} == multiset{r.bottom, r.top}
    ensures WellFormed(r) ==> n == r
  {
    Rect(Min(r.left, r.right), Max(r.left, r.right), Min(r.bottom, r.top), Max(r.bottom, r.top))
  }

  /** Closed-box intersection of the two rects' envelopes (the spatial indexes' test). */
  predicate BoxesIntersect(a: Rect, b: Rect) {
    Min(a.left, a.right) <= Max(b.left, b.right) && Min(b.left, b.right) <= Max(a.left, a.right) &&
    Min(a.bottom, a.top) <= Max(b.bottom, b.top) && Min(b.bottom, b.top) <= Max(a.bottom, a.top)
  }

  /**
   * A map feature. `properties` are the string tags; `geometry` is a list of rings
   * whose first is the exterior; `road` repeats the ring for highways.
   */
  datatype Feature = Feature(
    id: string,
    properties: map<string, string>,
    geometry: seq<seq<Vec2>>,
    road: seq<seq<Vec2>>)

  function Exterior(f: Feature): seq<Vec2> {
    if |f.geometry| == 0 then [] else f.geometry[0]
  }

  /** The tight bounding box of a non-empty point list. */
  function PointsBox(pts: seq<Vec2>): (b: Rect)
    requires |pts| > 0
    ensures WellFormed(b)
    ensures forall i :: 0 <= i < |pts| ==> InRect(b, pts[i].x, pts[i].y)
    ensures exists i :: 0 <= i < |pts| && pts[i].x == b.left
    ensures exists i :: 0 <= i < |pts| && pts[i].x == b.right
    ensures exists i :: 0 <= i < |pts| && pts[i].y == b.bottom
    ensures exists i :: 0 <= i < |pts| && pts[i].y == b.top
    decreases |pts|
  {
    var p := pts[|pts| - 1];
    if |pts| == 1 then Rect(p.x, p.x, p.y, p.y)
    else
      var b := PointsBox(pts[..|pts| - 1]);
      Rect(Min(b.left, p.x), Max(b.right, p.x), Min(b.bottom, p.y), Max(b.top, p.y))
  }

  /** The envelope of a feature: its exterior ring's box, or None for an empty ring. */
  function FeatureBox(f: Feature): (b: Option<Rect>)
    ensures b.Some? <==> |Exterior(f)| > 0
  {
    if |Exterior(f)| == 0 then None else Some(PointsBox(Exterior(f)))
  }

  /**
   * The value polygon_area returns: the sum over every index i of
   * (g[last].x + g[i].x) * (g[last].y - g[i].y), over the first n indices,
   * with the partner vertex held at `pivot` (the last vertex) and no halving.
   */
  function AreaSum(g: seq<Vec2>, pivot: Vec2, n: nat): real
    requires n <= |g|
  {
    if n == 0 then 0.0
    else AreaSum(g, pivot, n - 1) + (pivot.x + g[n - 1].x) * (pivot.y - g[n - 1].y)
  }

  method PolygonArea(g: seq<Vec2>) returns (area: real)
    requires |g| > 0
    ensures area == AreaSum(g, g[|g| - 1], |g|)
  {
    area := 0.0;
    var j := |g| - 1;
    var i := 0;
    while i < |g|
      invariant 0 <= i <= |g|
      invariant j == |g| - 1
      invariant area == AreaSum(g, g[j], i)
    {
      area := area + (g[j].x + g[i].x) * (g[j].y - g[i].y);
      i := i + 1;
    }
  }

  /** The term for the pivot itself is zero: the sum over all indices equals the sum without the last. */
  lemma AreaSumPivotTermVanishes(g: seq<Vec2>)
    requires |g| > 0
    ensures AreaSum(g, g[|g| - 1], |g|) == AreaSum(g, g[|g| - 1], |g| - 1)
  {
  }

  /**
   * With the partner fixed at the last vertex and no halving, the result is not the
   * shoelace area: the triangle (0,0), (2,0), (0,2) of area 2 gives 4.
   */
  lemma AreaSumOfRightTriangle()
    ensures AreaSum([Vec2(0.0, 0.0), Vec2(2.0, 0.0), Vec2(0.0, 2.0)], Vec2(0.0, 2.0), 3) == 4.0
    ensures Area(Rect(0.0, 2.0, 0.0, 2.0)) / 2.0 == 2.0
  {
    var g := [Vec2(0.0, 0.0), Vec2(2.0, 0.0), Vec2(0.0, 2.0)];
    assert AreaSum(g, g[2], 1) == 0.0;
    assert AreaSum(g, g[2], 2) == 4.0;
  }
}
