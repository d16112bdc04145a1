/**
 * get_data_from_string_osm after JSON parsing: each element of the Overpass
 * response with a non-empty geometry becomes one map feature. Parsing itself
 * is not part of this model; its outcome is an input.
 */
module Loader {
  import opened Wrappers
  import opened MapTypes

  datatype GeoCoord = GeoCoord(lat: real, lon: real)

  /** A response element: its id, its tags (absent or a string map) and its geometry. */
  datatype Element = Element(id: int, tags: Option<map<string, string>>, geometry: seq<GeoCoord>)

  // ---- decimal rendering of the element id (i64::to_string) ----

  function DigitChar(d: nat): char
    requires d < 10
  {
    "0123456789"[d]
  }

  predicate IsDigit(ch: char) { '0' <= ch <= '9' }

  function NatToString(n: nat): (s: string)
    ensures |s| >= 1
    ensures forall k :: 0 <= k < |s| ==> IsDigit(s[k])
    ensures n > 0 ==> s[0] != '0'
    decreases n
  {
    if n < 10 then [DigitChar(n)] else NatToString(n / 10) + [DigitChar(n % 10)]
  }

  /** Decimal text of an integer, with a leading '-' for negatives. */
  function IntToString(n: int): string {
    if n < 0 then "-" + NatToString(-n) else NatToString(n)
  }

  function DigitsValue(s: string): nat
    requires forall k :: 0 <= k < |s| ==> IsDigit(s[k])
    decreases |s|
  {
    if s == [] then 0
    else
      assert IsDigit(s[|s| - 1]);
      DigitsValue(s[..|s| - 1]) * 10 + (s[|s| - 1] as int - '0' as int)
  }

  function ParseInt(s: string): int
    requires |s| > 0 && (forall k :: 1 <= k < |s| ==> IsDigit(s[k]))
    requires s[0] == '-' || IsDigit(s[0])
  {
    if s[0] == '-' then 0 - DigitsValue(s[1..]) as int else DigitsValue(s)
  }

  lemma {:induction false} NatToStringRoundTrip(n: nat)
    ensures DigitsValue(NatToString(n)) == n
    decreases n
  {
    if n >= 10 {
      var s := NatToString(n);
      NatToStringRoundTrip(n / 10);
      assert s[..|s| - 1] == NatToString(n / 10);
    }
  }

  /** The id text determines the id: parsing it back gives the element id. */
  lemma IntToStringRoundTrip(n: int)
    ensures var s := IntToString(n);
            |s| > 0 && (forall k :: 1 <= k < |s| ==> IsDigit(s[k])) && (s[0] == '-' || IsDigit(s[0]))
            && ParseInt(s) == n
  {
    var s := IntToString(n);
    if n < 0 {
      var digits := NatToString(-n);
      NatToStringRoundTrip(-n);
      assert s == "-" + digits;
      assert s[1..] == digits;
      assert forall k :: 1 <= k < |s| ==> s[k] == digits[k - 1];
      assert ParseInt(s) == 0 - DigitsValue(digits);
    } else {
      NatToStringRoundTrip(n);
      assert s == NatToString(n);
    }
  }

  // ---- element to feature ----

  /** The ring of a geometry: x is the longitude and y the latitude, in the same order. */
  function Points(geom: seq<GeoCoord>): seq<Vec2> {
    seq(|geom|, i requires 0 <= i < |geom| => Vec2(geom[i].lon, geom[i].lat))
  }

  /** An element is a road when it has tags and they contain a "highway" key. */
  predicate IsRoad(tags: Option<map<string, string>>) {
    tags.Some? && "highway" in tags.value
  }

  function ToFeature(e: Element): (f: Feature)
    ensures |Exterior(f)| == |e.geometry|
    ensures forall i :: 0 <= i < |e.geometry| ==>
      Exterior(f)[i].x == e.geometry[i].lon && Exterior(f)[i].y == e.geometry[i].lat
    ensures f.geometry == [Exterior(f)]
    ensures f.road == (if IsRoad(e.tags) then [Exterior(f)] else [])
    ensures e.tags.None? ==> f.properties == map[]
    ensures e.tags.Some? ==> f.properties == e.tags.value
    ensures |f.id| > 0 && (forall k :: 1 <= k < |f.id| ==> IsDigit(f.id[k])) && (f.id[0] == '-' || IsDigit(f.id[0]))
    ensures ParseInt(f.id) == e.id
  {
    IntToStringRoundTrip(e.id);
    var points := Points(e.geometry);
    var isRoad := IsRoad(e.tags);
    Feature(IntToString(e.id), e.tags.GetOr(map[]),
            if isRoad then [points] else [points],
            if isRoad then [points] else [])
  }

  /** The features of a parsed response: elements with empty geometry are skipped. */
  function ConvertAll(es: seq<Element>): (fs: seq<Feature>)
    ensures |fs| <= |es|
    ensures forall f :: f in fs ==> |Exterior(f)| > 0
    decreases |es|
  {
    if es == [] then []
    else
      var e := es[|es| - 1];
      ConvertAll(es[..|es| - 1]) + (if |e.geometry| == 0 then [] else [ToFeature(e)])
  }

  method GetDataFromStringOsm(parsed: Result<seq<Element>, string>) returns (r: Result<seq<Feature>, string>)
    ensures parsed.Err? ==> r == Err(parsed.error)
    ensures parsed.Ok? ==> r == Ok(ConvertAll(parsed.value))
  {
    if parsed.Err? {
      return Err(parsed.error);
    }
    var elements := parsed.value;
    var features: seq<Feature> := [];
    var i := 0;
    while i < |elements|
      invariant 0 <= i <= |elements|
      invariant features == ConvertAll(elements[..i])
    {
      assert elements[..i + 1][..i] == elements[..i];
      var way := elements[i];
      if |way.geometry| != 0 {
        features := features + [ToFeature(way)];
      }
      i := i + 1;
    }
    assert elements[..i] == elements;
    r := Ok(features);
  }

  function CountNonEmpty(es: seq<Element>): nat
    decreases |es|
  {
    if es == [] then 0 else CountNonEmpty(es[..|es| - 1]) + (if |es[|es| - 1].geometry| == 0 then 0 else 1)
  }

  /** Conversion preserves order: it distributes over concatenation of element lists. */
  lemma {:induction false} ConvertAllAppend(a: seq<Element>, b: seq<Element>)
    ensures ConvertAll(a + b) == ConvertAll(a) + ConvertAll(b)
    decreases |b|
  {
    if b == [] {
      assert a + b == a;
    } else {
      assert (a + b)[..|a + b| - 1] == a + b[..|b| - 1];
      ConvertAllAppend(a, b[..|b| - 1]);
    }
  }

  /**
   * One feature per element with a non-empty geometry, and nothing else: every
   * such element's feature is there, and every feature comes from such an element.
   */
  lemma {:induction false} ConvertAllExactlyNonEmpty(es: seq<Element>)
    ensures |ConvertAll(es)| == CountNonEmpty(es)
    ensures forall e :: e in es && |e.geometry| > 0 ==> ToFeature(e) in ConvertAll(es)
    ensures forall f :: f in ConvertAll(es) ==> exists e :: e in es && |e.geometry| > 0 && f == ToFeature(e)
    decreases |es|
  {
    if es != [] {
      var init := es[..|es| - 1];
      ConvertAllExactlyNonEmpty(init);
      assert forall e :: e in es ==> e in init || e == es[|es| - 1];
      forall f | f in ConvertAll(es)
        ensures exists e :: e in es && |e.geometry| > 0 && f == ToFeature(e)
      {
        if f in ConvertAll(init) {
          var e :| e in init && |e.geometry| > 0 && f == ToFeature(e);
          assert e in es;
        } else {
          assert es[|es| - 1] in es;
        }
      }
    }
  }

  /** A single element with an empty geometry yields nothing; with a non-empty one, its feature. */
  lemma ConvertSingle(e: Element)
    ensures ConvertAll([e]) == (if |e.geometry| == 0 then [] else [ToFeature(e)])
  {
    assert [e][..0] == [];
  }
}
