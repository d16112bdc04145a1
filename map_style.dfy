/**
 * The style classification inside respawn_map: features are grouped by the
 * enabled (category, key) pairs, and every feature in view is turned into one
 * shape per group it matches, filled or open, with a line width and an elevation.
 */
module MapStyle {
  import opened Wrappers
  import opened MapTypes
  import opened Settings

  /** A (category, key) group, e.g. ("Highway", "primary"). */
  type Group = (string, string)

  /** ASCII lower-casing of one character. */
  function LowerChar(c: char): char {
    if 'A' <= c <= 'Z' then (c as int + 32) as char else c
  }

  /** ASCII lower-casing of a string, as `to_lowercase` on ASCII text. */
  function Lower(s: string): (l: string)
    ensures |l| == |s|
    ensures forall i :: 0 <= i < |s| ==> l[i] == LowerChar(s[i])
  {
    if s == [] then [] else [LowerChar(s[0])] + Lower(s[1..])
  }

  // ---------------------------------------------------------------------------
  // Grouping

  /** The groups that are pushed to: the enabled pairs whose category is not disabled. */
  function EnabledGroups(enabled: seq<Group>, disabled: set<string>): set<Group> {
    set i | 0 <= i < |enabled| && enabled[i].0 !in disabled :: enabled[i]
  }

  /** How often `g` is pushed per feature: its occurrences among the enabled, non-disabled pairs. */
  function Occurrences(enabled: seq<Group>, disabled: set<string>, g: Group): nat
    decreases |enabled|
  {
    if enabled == [] then 0
    else Occurrences(enabled[..|enabled| - 1], disabled, g)
         + (if enabled[|enabled| - 1] == g && g.0 !in disabled then 1 else 0)
  }

  function Len(groups: map<Group, seq<Feature>>, g: Group): nat {
    if g in groups then |groups[g]| else 0
  }

  /** The inner loop: push `f` onto the entry of every enabled pair whose category is not disabled. */
  function PushPairs(groups: map<Group, seq<Feature>>, f: Feature, pairs: seq<Group>, disabled: set<string>)
    : map<Group, seq<Feature>>
    decreases |pairs|
  {
    if pairs == [] then groups
    else
      var before := PushPairs(groups, f, pairs[..|pairs| - 1], disabled);
      var g := pairs[|pairs| - 1];
      if g.0 in disabled then before
      else before[g := (if g in before then before[g] else []) + [f]]
  }

  /** The feature_groups map after the outer loop over the stored features. */
  function GroupsOf(features: seq<Feature>, enabled: seq<Group>, disabled: set<string>): map<Group, seq<Feature>>
    decreases |features|
  {
    if features == [] then map[]
    else PushPairs(GroupsOf(features[..|features| - 1], enabled, disabled), features[|features| - 1], enabled, disabled)
  }

  method BuildGroups(features: seq<Feature>, enabled: seq<Group>, disabled: set<string>)
    returns (groups: map<Group, seq<Feature>>)
    ensures groups == GroupsOf(features, enabled, disabled)
  {
    groups := map[];
    var i := 0;
    while i < |features|
      invariant 0 <= i <= |features|
      invariant groups == GroupsOf(features[..i], enabled, disabled)
    {
      var k := 0;
      ghost var start := groups;
      while k < |enabled|
        invariant 0 <= k <= |enabled|
        invariant groups == PushPairs(start, features[i], enabled[..k], disabled)
      {
        assert enabled[..k + 1][..k] == enabled[..k];
        var (cat, key) := enabled[k];
        if cat !in disabled {
          var entry := if (cat, key) in groups then groups[(cat, key)] else [];
          groups := groups[(cat, key) := entry + [features[i]]];
        }
        k := k + 1;
      }
      assert enabled[..k] == enabled;
      assert features[..i + 1][..i] == features[..i];
      i := i + 1;
    }
    assert features[..i] == features;
  }

  lemma {:induction false} PushPairsKeys(groups: map<Group, seq<Feature>>, f: Feature, pairs: seq<Group>,
                                         disabled: set<string>)
    ensures PushPairs(groups, f, pairs, disabled).Keys == groups.Keys + EnabledGroups(pairs, disabled)
    decreases |pairs|
  {
    if pairs != [] {
      var init := pairs[..|pairs| - 1];
      PushPairsKeys(groups, f, init, disabled);
      var g := pairs[|pairs| - 1];
      forall h
        ensures h in EnabledGroups(pairs, disabled) <==> h in EnabledGroups(init, disabled) || (h == g && g.0 !in disabled)
      {
        if h in EnabledGroups(pairs, disabled) {
          var i :| 0 <= i < |pairs| && pairs[i].0 !in disabled && pairs[i] == h;
          if i < |pairs| - 1 { assert init[i] == h; }
        }
        if h in EnabledGroups(init, disabled) {
          var i :| 0 <= i < |init| && init[i].0 !in disabled && init[i] == h;
          assert pairs[i] == h;
        }
        if h == g && g.0 !in disabled {
          assert pairs[|pairs| - 1] == h;
        }
      }
    }
  }

  lemma {:induction false} PushPairsLen(groups: map<Group, seq<Feature>>, f: Feature, pairs: seq<Group>,
                                        disabled: set<string>, g: Group)
    ensures Len(PushPairs(groups, f, pairs, disabled), g) == Len(groups, g) + Occurrences(pairs, disabled, g)
    decreases |pairs|
  {
    if pairs != [] {
      PushPairsLen(groups, f, pairs[..|pairs| - 1], disabled, g);
    }
  }

  lemma {:induction false} PushPairsMembers(groups: map<Group, seq<Feature>>, f: Feature, pairs: seq<Group>,
                                            disabled: set<string>, g: Group, x: Feature)
    requires g in PushPairs(groups, f, pairs, disabled) && x in PushPairs(groups, f, pairs, disabled)[g]
    ensures x == f || (g in groups && x in groups[g])
    decreases |pairs|
  {
    if pairs != [] {
      var before := PushPairs(groups, f, pairs[..|pairs| - 1], disabled);
      if g in before && x in before[g] {
        PushPairsMembers(groups, f, pairs[..|pairs| - 1], disabled, g, x);
      }
    }
  }

  /** Groups exist only when the store is non-empty, and then exactly for the enabled, non-disabled pairs. */
  lemma {:induction false} GroupKeys(features: seq<Feature>, enabled: seq<Group>, disabled: set<string>)
    ensures GroupsOf(features, enabled, disabled).Keys
            == if features == [] then {} else EnabledGroups(enabled, disabled)
    decreases |features|
  {
    if features != [] {
      var init := features[..|features| - 1];
      GroupKeys(init, enabled, disabled);
      PushPairsKeys(GroupsOf(init, enabled, disabled), features[|features| - 1], enabled, disabled);
    }
  }

  /** Every feature is pushed once per occurrence of the group among the enabled pairs. */
  lemma {:induction false} GroupSizes(features: seq<Feature>, enabled: seq<Group>, disabled: set<string>, g: Group)
    ensures Len(GroupsOf(features, enabled, disabled), g) == |features| * Occurrences(enabled, disabled, g)
    decreases |features|
  {
    if features != [] {
      var init := features[..|features| - 1];
      GroupSizes(init, enabled, disabled, g);
      PushPairsLen(GroupsOf(init, enabled, disabled), features[|features| - 1], enabled, disabled, g);
    }
  }

  /** Every group lists only stored features. */
  lemma {:induction false} GroupMembersStored(features: seq<Feature>, enabled: seq<Group>, disabled: set<string>,
                                              g: Group, x: Feature)
    requires g in GroupsOf(features, enabled, disabled) && x in GroupsOf(features, enabled, disabled)[g]
    ensures x in features
    decreases |features|
  {
    var init := features[..|features| - 1];
    PushPairsMembers(GroupsOf(init, enabled, disabled), features[|features| - 1], enabled, disabled, g, x);
    if x != features[|features| - 1] {
      GroupMembersStored(init, enabled, disabled, g, x);
    }
  }

  // ---------------------------------------------------------------------------
  // Styling

  /** One shape spawned by respawn_map: open (unfilled) or closed (filled). */
  datatype Shape = Shape(points: seq<Vec2>, filled: bool, colour: Colour, width: real, elevation: real,
                         feature: Feature)

  /** A feature matches a group when its property lower(cat) equals lower(key); the key "*" never matches. */
  predicate Matches(f: Feature, g: Group) {
    g.1 != "*" && Lower(g.0) in f.properties && f.properties[Lower(g.0)] == Lower(g.1)
  }

  /** Highway and Railway matches are drawn as open lines. */
  predicate IsLinear(g: Group) {
    g.0 == "Highway" || g.0 == "Railway"
  }

  predicate IsMajorRoad(f: Feature) {
    "highway" in f.properties
    && f.properties["highway"] in {"residential", "primary", "secondary", "tertiary"}
  }

  /** The line width a linear match sets. */
  function RoadWidth(f: Feature): real {
    if IsMajorRoad(f) then 5.5 else 2.5
  }

  /** Whether some group among `gs` is a linear match of `f`. */
  predicate AnyLinearMatch(f: Feature, gs: seq<Group>) {
    exists i :: 0 <= i < |gs| && Matches(f, gs[i]) && IsLinear(gs[i])
  }

  /** The item colour of a group; black when the category or item is missing. */
  function ColourOf(cats: map<string, Category>, g: Group): (c: Colour)
    ensures g.0 in cats && g.1 in cats[g.0].items ==> c == cats[g.0].items[g.1].colour
    ensures c != Rgb(0, 0, 0) ==> g.0 in cats && g.1 in cats[g.0].items
  {
    if g.0 in cats && g.1 in cats[g.0].items then cats[g.0].items[g.1].colour else Rgb(0, 0, 0)
  }

  function DropLast<T>(s: seq<T>): (r: seq<T>)
    ensures |s| > 0 ==> r == s[..|s| - 1]
    ensures |s| == 0 ==> r == []
  {
    if |s| == 0 then [] else s[..|s| - 1]
  }

  function MapPoints(pts: seq<Vec2>, toWorld: Vec2 -> Vec2): (r: seq<Vec2>)
    ensures |r| == |pts|
    ensures forall i :: 0 <= i < |pts| ==> r[i] == toWorld(pts[i])
  {
    if pts == [] then [] else [toWorld(pts[0])] + MapPoints(pts[1..], toWorld)
  }

  /** The point list of every shape: the world-space exterior with its last point removed. */
  function WorldPoints(f: Feature, toWorld: Vec2 -> Vec2): (r: seq<Vec2>)
    ensures |Exterior(f)| == 0 ==> r == []
    ensures |Exterior(f)| > 0 ==> |r| == |Exterior(f)| - 1
    ensures forall i :: 0 <= i < |r| ==> i < |Exterior(f)| && r[i] == toWorld(Exterior(f)[i])
  {
    DropLast(MapPoints(Exterior(f), toWorld))
  }

  /**
   * The shapes of `f` over the groups `order`, in emission order: one per matching
   * group. Width and elevation are per-feature state that is never reset, so
   * they depend on whether any linear match has happened up to this group.
   */
  function FeatureShapes(f: Feature, order: seq<Group>, cats: map<string, Category>, toWorld: Vec2 -> Vec2)
    : seq<Shape>
    decreases |order|
  {
    if order == [] then []
    else
      var g := order[|order| - 1];
      FeatureShapes(f, order[..|order| - 1], cats, toWorld)
      + if Matches(f, g) then
          [Shape(WorldPoints(f, toWorld), !IsLinear(g), ColourOf(cats, g),
                 if AnyLinearMatch(f, order) then RoadWidth(f) else 1.0,
                 if AnyLinearMatch(f, order) then 0.0 else 1.0, f)]
        else []
  }

  function Closed(shapes: seq<Shape>): (r: seq<Shape>)
    ensures forall s :: s in r <==> s in shapes && s.filled
  {
    if shapes == [] then []
    else (if shapes[0].filled then [shapes[0]] else []) + Closed(shapes[1..])
  }

  function Open(shapes: seq<Shape>): (r: seq<Shape>)
    ensures forall s :: s in r <==> s in shapes && !s.filled
  {
    if shapes == [] then []
    else (if shapes[0].filled then [] else [shapes[0]]) + Open(shapes[1..])
  }

  lemma {:induction false} ClosedAppend(a: seq<Shape>, b: seq<Shape>)
    ensures Closed(a + b) == Closed(a) + Closed(b)
  {
    if a != [] {
      var head := if a[0].filled then [a[0]] else [];
      assert (a + b)[0] == a[0];
      assert (a + b)[1..] == a[1..] + b;
      ClosedAppend(a[1..], b);
      assert Closed(a + b) == head + Closed(a[1..] + b);
      assert Closed(a) == head + Closed(a[1..]);
    } else {
      assert a + b == b;
    }
  }

  lemma {:induction false} OpenAppend(a: seq<Shape>, b: seq<Shape>)
    ensures Open(a + b) == Open(a) + Open(b)
  {
    if a != [] {
      var head := if a[0].filled then [] else [a[0]];
      assert (a + b)[0] == a[0];
      assert (a + b)[1..] == a[1..] + b;
      OpenAppend(a[1..], b);
      assert Open(a + b) == head + Open(a[1..] + b);
      assert Open(a) == head + Open(a[1..]);
    } else {
      assert a + b == b;
    }
  }

  lemma StepAnyLinear(f: Feature, order: seq<Group>, k: nat)
    requires k < |order|
    ensures AnyLinearMatch(f, order[..k + 1])
            <==> AnyLinearMatch(f, order[..k]) || (Matches(f, order[k]) && IsLinear(order[k]))
  {
    var pre := order[..k + 1];
    if AnyLinearMatch(f, pre) {
      var i :| 0 <= i < |pre| && Matches(f, pre[i]) && IsLinear(pre[i]);
      if i < k { assert order[..k][i] == pre[i]; }
    }
    if AnyLinearMatch(f, order[..k]) {
      var i :| 0 <= i < k && Matches(f, order[..k][i]) && IsLinear(order[..k][i]);
      assert pre[i] == order[..k][i];
    }
  }

  /** One step of the loop in StyleFeature, on the specification side. */
  lemma StepShapes(f: Feature, order: seq<Group>, k: nat, cats: map<string, Category>, toWorld: Vec2 -> Vec2)
    requires k < |order|
    ensures AnyLinearMatch(f, order[..k + 1])
            <==> AnyLinearMatch(f, order[..k]) || (Matches(f, order[k]) && IsLinear(order[k]))
    ensures var linear := AnyLinearMatch(f, order[..k + 1]);
            var shapes := FeatureShapes(f, order[..k], cats, toWorld);
            FeatureShapes(f, order[..k + 1], cats, toWorld)
            == if Matches(f, order[k]) then
                 shapes + [Shape(WorldPoints(f, toWorld), !IsLinear(order[k]), ColourOf(cats, order[k]),
                                 if linear then RoadWidth(f) else 1.0, if linear then 0.0 else 1.0, f)]
               else shapes
  {
    StepAnyLinear(f, order, k);
    var pre := order[..k + 1];
    assert pre[..k] == order[..k];
    assert pre[k] == order[k];
  }

  /**
   * The body of the per-feature loop for one group: the shape it emits, if the
   * feature matches, and the width and elevation after it.
   */
  method StyleGroup(f: Feature, g: Group, width: real, elevation: real, cats: map<string, Category>,
                    toWorld: Vec2 -> Vec2)
    returns (shape: Option<Shape>, width': real, elevation': real)
    ensures width' == if Matches(f, g) && IsLinear(g) then RoadWidth(f) else width
    ensures elevation' == if Matches(f, g) && IsLinear(g) then 0.0 else elevation
    ensures shape == if Matches(f, g)
                     then Some(Shape(WorldPoints(f, toWorld), !IsLinear(g), ColourOf(cats, g), width', elevation', f))
                     else None
  {
    shape, width', elevation' := None, width, elevation;
    var (cat, key) := g;
    if key != "*" {
      var prop := Lower(cat);
      if prop in f.properties && f.properties[prop] == Lower(key) {
        var colour := ColourOf(cats, g);
        var filled := true;
        if cat == "Highway" || cat == "Railway" {
          filled := false;
          width' := 2.5;
          elevation' := 0.0;
          if IsMajorRoad(f) {
            width' := 5.5;
          }
        }
        shape := Some(Shape(WorldPoints(f, toWorld), filled, colour, width', elevation', f));
      }
    }
  }

  lemma ClosedOpenSingle(s: Shape)
    ensures Closed([s]) == (if s.filled then [s] else [])
    ensures Open([s]) == (if s.filled then [] else [s])
  {
    assert [s][1..] == [];
  }

  /** The shapes of one feature, split into the closed and the open batch as the loop pushes them. */
  method StyleFeature(f: Feature, order: seq<Group>, cats: map<string, Category>, toWorld: Vec2 -> Vec2)
    returns (closed: seq<Shape>, open: seq<Shape>)
    ensures closed == Closed(FeatureShapes(f, order, cats, toWorld))
    ensures open == Open(FeatureShapes(f, order, cats, toWorld))
  {
    var width := 1.0;
    var elevation := 1.0;
    closed, open := [], [];
    ghost var shapes: seq<Shape> := [];
    var k := 0;
    while k < |order|
      invariant 0 <= k <= |order|
      invariant width == if AnyLinearMatch(f, order[..k]) then RoadWidth(f) else 1.0
      invariant elevation == if AnyLinearMatch(f, order[..k]) then 0.0 else 1.0
      invariant shapes == FeatureShapes(f, order[..k], cats, toWorld)
      invariant closed == Closed(shapes) && open == Open(shapes)
    {
      StepShapes(f, order, k, cats, toWorld);
      var shape;
      shape, width, elevation := StyleGroup(f, order[k], width, elevation, cats, toWorld);
      if shape.Some? {
        var s := shape.value;
        ClosedAppend(shapes, [s]);
        OpenAppend(shapes, [s]);
        ClosedOpenSingle(s);
        shapes := shapes + [s];
        if s.filled {
          closed := closed + [s];
        } else {
          open := open + [s];
        }
      }
      k := k + 1;
    }
    assert order[..k] == order;
  }

  function MatchCount(f: Feature, order: seq<Group>): nat
    decreases |order|
  {
    if order == [] then 0
    else MatchCount(f, order[..|order| - 1]) + if Matches(f, order[|order| - 1]) then 1 else 0
  }

  /** Each matching group emits exactly one shape. */
  lemma {:induction false} OneShapePerMatch(f: Feature, order: seq<Group>, cats: map<string, Category>,
                                            toWorld: Vec2 -> Vec2)
    ensures |FeatureShapes(f, order, cats, toWorld)| == MatchCount(f, order)
    decreases |order|
  {
    if order != [] {
      OneShapePerMatch(f, order[..|order| - 1], cats, toWorld);
    }
  }

  /** A feature that matches no group emits no shape; in particular "*" groups style nothing. */
  lemma {:induction false} NoMatchNoShape(f: Feature, order: seq<Group>, cats: map<string, Category>,
                                          toWorld: Vec2 -> Vec2)
    requires forall i :: 0 <= i < |order| ==> !Matches(f, order[i]) || order[i].1 == "*"
    ensures FeatureShapes(f, order, cats, toWorld) == []
    decreases |order|
  {
    if order != [] {
      var init := order[..|order| - 1];
      forall i | 0 <= i < |init| ensures !Matches(f, init[i]) || init[i].1 == "*" {
        assert init[i] == order[i];
      }
      NoMatchNoShape(f, init, cats, toWorld);
    }
  }

  /**
   * Every shape comes from one matching group: it carries the feature, its
   * points and the group's colour, and it is open exactly for a Highway or
   * Railway group, in which case it lies at elevation 0 with the road width.
   */
  lemma {:induction false} ShapesComeFromMatches(f: Feature, order: seq<Group>, cats: map<string, Category>,
                                                 toWorld: Vec2 -> Vec2, s: Shape)
    requires s in FeatureShapes(f, order, cats, toWorld)
    ensures exists i :: 0 <= i < |order| && Matches(f, order[i]) && s.filled == !IsLinear(order[i])
                        && s.colour == ColourOf(cats, order[i])
    ensures s.feature == f && s.points == WorldPoints(f, toWorld)
    ensures !s.filled ==> s.elevation == 0.0 && s.width == RoadWidth(f)
    ensures s.width == 1.0 || s.width == RoadWidth(f)
    decreases |order|
  {
    var n := |order| - 1;
    var init := order[..n];
    if s in FeatureShapes(f, init, cats, toWorld) {
      ShapesComeFromMatches(f, init, cats, toWorld, s);
      var i :| 0 <= i < |init| && Matches(f, init[i]) && s.filled == !IsLinear(init[i])
               && s.colour == ColourOf(cats, init[i]);
      assert order[i] == init[i];
    } else {
      assert Matches(f, order[n]);
      if !s.filled {
        assert Matches(f, order[n]) && IsLinear(order[n]);
        assert AnyLinearMatch(f, order);
      }
    }
  }

  /** The lower-cased names the examples below look up. */
  lemma LowerHighway()
    ensures Lower("Highway") == "highway"
  {
    var l := Lower("Highway");
    assert forall i :: 0 <= i < 7 ==> l[i] == "highway"[i];
  }

  lemma LowerBuilding()
    ensures Lower("Building") == "building"
  {
    var l := Lower("Building");
    assert forall i :: 0 <= i < 8 ==> l[i] == "building"[i];
  }

  lemma LowerPrimary()
    ensures Lower("primary") == "primary"
  {
    var l := Lower("primary");
    assert forall i :: 0 <= i < 7 ==> l[i] == "primary"[i];
  }

  lemma LowerYes()
    ensures Lower("yes") == "yes"
  {
    var l := Lower("yes");
    assert forall i :: 0 <= i < 3 ==> l[i] == "yes"[i];
  }

  /** A primary road that is also tagged as a building. */
  const RoadBuilding := Feature("1", map["highway" := "primary", "building" := "yes"], [], [])

  /**
   * The example feature meets both requirements of WidthCarriesOver: drawn as
   * Highway then Building, its building shape gets width 5.5 and elevation 0,
   * whereas the building match alone (SingleShapes) gets width 1 and elevation 1.
   */
  lemma RoadBuildingIsMajorRoad()
    ensures Matches(RoadBuilding, ("Highway", "primary")) && IsLinear(("Highway", "primary"))
    ensures RoadWidth(RoadBuilding) == 5.5
  {
    LowerHighway();
    LowerPrimary();
  }

  lemma RoadBuildingIsBuilding()
    ensures Matches(RoadBuilding, ("Building", "yes")) && !IsLinear(("Building", "yes"))
  {
    LowerBuilding();
    LowerYes();
  }

  /** The shapes of a single group: a linear match switches to road width at once. */
  lemma SingleShapes(f: Feature, g: Group, cats: map<string, Category>, toWorld: Vec2 -> Vec2)
    ensures FeatureShapes(f, [g], cats, toWorld)
            == if Matches(f, g) then
                 [Shape(WorldPoints(f, toWorld), !IsLinear(g), ColourOf(cats, g),
                        if IsLinear(g) then RoadWidth(f) else 1.0, if IsLinear(g) then 0.0 else 1.0, f)]
               else []
  {
    StepShapes(f, [g], 0, cats, toWorld);
    assert [g][..0] == [] && [g][..1] == [g];
  }

  /**
   * Width and elevation are not reset between groups: a filled match that
   * follows a linear one is drawn at the road width and elevation 0 instead of
   * width 1 and elevation 1.
   */
  lemma WidthCarriesOver(f: Feature, road: Group, other: Group, cats: map<string, Category>, toWorld: Vec2 -> Vec2)
    requires Matches(f, road) && IsLinear(road)
    requires Matches(f, other) && !IsLinear(other)
    ensures FeatureShapes(f, [road, other], cats, toWorld)
            == [Shape(WorldPoints(f, toWorld), false, ColourOf(cats, road), RoadWidth(f), 0.0, f),
                Shape(WorldPoints(f, toWorld), true, ColourOf(cats, other), RoadWidth(f), 0.0, f)]
  {
    var order := [road, other];
    SingleShapes(f, road, cats, toWorld);
    assert AnyLinearMatch(f, order) by { assert order[0] == road; }
    assert order[..1] == [road];
  }
}
