/**
 * The Mercator-like projection between latitude/longitude degrees and world space,
 * anchored at a reference point. The longitude half is linear and modelled exactly;
 * the latitude half goes through transcendental functions and is taken as a pair of
 * given maps:
 *   forwardLat(phi) stands for ln(tan(pi/4 + phi/2)),
 *   inverseLat(t)   stands for 2 * atan(exp(t)) - pi/2,
 * both on radians.
 */
module Projection {
  import opened MapTypes

  const PI: real := 3.14159265358979

  function Radians(deg: real): real { deg * (PI / 180.0) }
  function Degrees(rad: real): real { rad * (180.0 / PI) }

  lemma DegreesOfRadians(d: real)
    ensures Degrees(Radians(d)) == d
  {
    calc {
      Degrees(Radians(d));
      d * (PI / 180.0) * (180.0 / PI);
      d * ((PI / 180.0) * (180.0 / PI));
    }
  }

  lemma RadiansOfDegrees(r: real)
    ensures Radians(Degrees(r)) == r
  {
    calc {
      Radians(Degrees(r));
      r * (180.0 / PI) * (PI / 180.0);
      r * ((180.0 / PI) * (PI / 180.0));
    }
  }

  /** lat_lon_to_mercator: world point (x, y) for a latitude and longitude. */
  function LatLonToMercator(lat: real, lon: real, scale: real, refLong: real, refLat: real,
                            forwardLat: real -> real): (p: Vec2)
    ensures p.x == 0.0 <==> scale == 0.0 || lon == refLong
    ensures lat == refLat ==> p.y == scale * forwardLat(0.0)
  {
    var offsetLong := lon - refLong;
    var offsetLat := lat - refLat;
    Vec2(scale * Radians(offsetLong), scale * forwardLat(Radians(offsetLat)))
  }

  /** mercator_to_lat_lon: the pair (lat, lon) for a world point; zero scale is not guarded. */
  function MercatorToLatLon(x: real, y: real, scale: real, refLong: real, refLat: real,
                            inverseLat: real -> real): (r: (real, real))
    requires scale != 0.0
    ensures r.1 > refLong <==> x / scale > 0.0
    ensures r.1 == refLong <==> x == 0.0
  {
    var lon := x / scale;
    var lat := Degrees(inverseLat(y / scale));
    (lat + refLat, Degrees(lon) + refLong)
  }

  /** The reference longitude maps to x = 0, and x is linear in the longitude. */
  lemma LongitudeIsLinear(lat: real, lon1: real, lon2: real, scale: real, refLong: real, refLat: real,
                          forwardLat: real -> real)
    ensures LatLonToMercator(lat, refLong, scale, refLong, refLat, forwardLat).x == 0.0
    ensures LatLonToMercator(lat, lon1, scale, refLong, refLat, forwardLat).x
          - LatLonToMercator(lat, lon2, scale, refLong, refLat, forwardLat).x
         == scale * Radians(lon1 - lon2)
  {
    calc {
      scale * Radians(lon1 - refLong) - scale * Radians(lon2 - refLong);
      scale * ((lon1 - refLong) * (PI / 180.0) - (lon2 - refLong) * (PI / 180.0));
      scale * ((lon1 - lon2) * (PI / 180.0));
    }
  }

  /** For a non-zero scale, the inverse gives the longitude back exactly, in the second slot. */
  lemma LongitudeRoundTrip(lat: real, lon: real, scale: real, refLong: real, refLat: real,
                           forwardLat: real -> real, inverseLat: real -> real)
    requires scale != 0.0
    ensures var p := LatLonToMercator(lat, lon, scale, refLong, refLat, forwardLat);
            MercatorToLatLon(p.x, p.y, scale, refLong, refLat, inverseLat).1 == lon
  {
    var d := lon - refLong;
    assert scale * Radians(d) / scale == Radians(d);
    DegreesOfRadians(d);
  }

  /**
   * The latitude offset is removed before the forward map and added back after the
   * inverse, so the latitude comes back exactly, in the first slot, whenever the
   * inverse map undoes the forward one on the open interval (-pi/2, pi/2), the
   * range of the Mercator inverse, and the offset from the reference latitude
   * lies within it.
   */
  lemma LatitudeRoundTrip(lat: real, lon: real, scale: real, refLong: real, refLat: real,
                          forwardLat: real -> real, inverseLat: real -> real)
    requires scale != 0.0
    requires forall t :: -PI / 2.0 < t < PI / 2.0 ==> inverseLat(forwardLat(t)) == t
    requires -PI / 2.0 < Radians(lat - refLat) < PI / 2.0
    ensures var p := LatLonToMercator(lat, lon, scale, refLong, refLat, forwardLat);
            MercatorToLatLon(p.x, p.y, scale, refLong, refLat, inverseLat).0 == lat
  {
    var phi := Radians(lat - refLat);
    var p := LatLonToMercator(lat, lon, scale, refLong, refLat, forwardLat);
    assert p.y == scale * forwardLat(phi);
    assert p.y / scale == forwardLat(phi);
    assert inverseLat(p.y / scale) == phi;
    DegreesOfRadians(lat - refLat);
    assert Degrees(inverseLat(p.y / scale)) == lat - refLat;
  }

  /** The offsets are symmetric: moving the point and the reference together changes nothing. */
  lemma OffsetsAreRelative(lat: real, lon: real, dLat: real, dLon: real, scale: real,
                           refLong: real, refLat: real, forwardLat: real -> real)
    ensures LatLonToMercator(lat + dLat, lon + dLon, scale, refLong + dLon, refLat + dLat, forwardLat)
         == LatLonToMercator(lat, lon, scale, refLong, refLat, forwardLat)
  {
    assert (lat + dLat) - (refLat + dLat) == lat - refLat;
    assert (lon + dLon) - (refLong + dLon) == lon - refLong;
  }

  /** The reference point itself projects to the origin when the latitude map fixes 0. */
  lemma ReferenceMapsToOrigin(scale: real, refLong: real, refLat: real, forwardLat: real -> real)
    requires forwardLat(0.0) == 0.0
    ensures LatLonToMercator(refLat, refLong, scale, refLong, refLat, forwardLat) == Vec2(0.0, 0.0)
  {
  }

  /**
   * world_space_rect_to_lat_long: output left/bottom come from the corner
   * (rect.right, rect.bottom) and output right/top from (rect.left, rect.top);
   * the result is not reordered.
   */
  function WorldSpaceRectToLatLong(rect: Rect, scale: real, refLong: real, refLat: real,
                                   inverseLat: real -> real): (g: Rect)
    requires scale != 0.0
    ensures (g.bottom, g.left) == MercatorToLatLon(rect.right, rect.bottom, scale, refLong, refLat, inverseLat)
    ensures (g.top, g.right) == MercatorToLatLon(rect.left, rect.top, scale, refLong, refLat, inverseLat)
    ensures scale > 0.0 && rect.left < rect.right ==> g.right < g.left
  {
    var (lat1, lon1) := MercatorToLatLon(rect.right, rect.bottom, scale, refLong, refLat, inverseLat);
    var (lat2, lon2) := MercatorToLatLon(rect.left, rect.top, scale, refLong, refLat, inverseLat);
    Rect(lon1, lon2, lat1, lat2)
  }

  /**
   * Projecting the output's corners forward recovers the input's: output left goes
   * to input right, output right to input left, and bottom and top to themselves.
   */
  lemma RectCornersRoundTrip(rect: Rect, scale: real, refLong: real, refLat: real,
                             forwardLat: real -> real, inverseLat: real -> real)
    requires scale != 0.0
    requires forall t :: forwardLat(inverseLat(t)) == t
    ensures var g := WorldSpaceRectToLatLong(rect, scale, refLong, refLat, inverseLat);
            LatLonToMercator(g.bottom, g.left, scale, refLong, refLat, forwardLat) == Vec2(rect.right, rect.bottom)
            && LatLonToMercator(g.top, g.right, scale, refLong, refLat, forwardLat) == Vec2(rect.left, rect.top)
  {
    var g := WorldSpaceRectToLatLong(rect, scale, refLong, refLat, inverseLat);
    PointRoundTrip(rect.right, rect.bottom, scale, refLong, refLat, forwardLat, inverseLat);
    PointRoundTrip(rect.left, rect.top, scale, refLong, refLat, forwardLat, inverseLat);
  }

  lemma PointRoundTrip(x: real, y: real, scale: real, refLong: real, refLat: real,
                       forwardLat: real -> real, inverseLat: real -> real)
    requires scale != 0.0
    requires forall t :: forwardLat(inverseLat(t)) == t
    ensures var (lat, lon) := MercatorToLatLon(x, y, scale, refLong, refLat, inverseLat);
            LatLonToMercator(lat, lon, scale, refLong, refLat, forwardLat) == Vec2(x, y)
  {
    var (lat, lon) := MercatorToLatLon(x, y, scale, refLong, refLat, inverseLat);
    RadiansOfDegrees(x / scale);
    assert lon - refLong == Degrees(x / scale);
    assert scale * (x / scale) == x;
    RadiansOfDegrees(inverseLat(y / scale));
    assert lat - refLat == Degrees(inverseLat(y / scale));
    assert forwardLat(inverseLat(y / scale)) == y / scale;
    assert scale * (y / scale) == y;
  }

  /**
   * Because of the corner wiring, a rect with left < right comes back with
   * left > right for a positive scale; bottom <= top survives when the inverse
   * latitude map is monotone.
   */
  lemma ConversionSwapsLongitudes(rect: Rect, scale: real, refLong: real, refLat: real,
                                  inverseLat: real -> real)
    requires scale > 0.0
    requires forall a, b :: a <= b ==> inverseLat(a) <= inverseLat(b)
    ensures var g := WorldSpaceRectToLatLong(rect, scale, refLong, refLat, inverseLat);
            (rect.left < rect.right ==> g.left > g.right)
            && (rect.bottom <= rect.top ==> g.bottom <= g.top)
  {
    if rect.left < rect.right {
      DivMonotone(rect.left, rect.right, scale);
    }
    if rect.bottom <= rect.top {
      DivMonotone(rect.bottom, rect.top, scale);
      assert inverseLat(rect.bottom / scale) <= inverseLat(rect.top / scale);
    }
  }

  lemma DivMonotone(a: real, b: real, scale: real)
    requires scale > 0.0 && a <= b
    ensures a / scale <= b / scale
    ensures a < b ==> a / scale < b / scale
  {
  }
}
