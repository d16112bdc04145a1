/**
 * Mouse and keyboard interaction: the selection box the left button drags out,
 * the features it selects, the pan-camera switch at the settings panel's edge,
 * the fetch requests of the U key and the middle button, and the even-odd
 * point-in-polygon test.
 */
module Interaction {
  import opened Wrappers
  import opened MapTypes
  import opened MapStore
  import opened Projection

  // ---------------------------------------------------------------------------
  // Point in polygon

  /** The index paired with vertex i: its predecessor, the last vertex for i = 0. */
  function Pred(i: nat, n: nat): nat
    requires i < n
  {
    if i == 0 then n - 1 else i - 1
  }

  /**
   * The crossing test of the edge (vi, vj): the edge straddles the horizontal
   * through `p` and meets it to the right of `p`. The division happens only when
   * the endpoints straddle, so its denominator is never zero.
   */
  predicate Crosses(p: Vec2, vi: Vec2, vj: Vec2) {
    (vi.y > p.y) != (vj.y > p.y)
    && p.x < (vj.x - vi.x) * (p.y - vi.y) / (vj.y - vi.y) + vi.x
  }

  /** How many of the first k edges pass the crossing test. */
  function Crossings(p: Vec2, vs: seq<Vec2>, k: nat): nat
    requires k <= |vs|
  {
    if k == 0 then 0
    else Crossings(p, vs, k - 1) + if Crosses(p, vs[k - 1], vs[Pred(k - 1, |vs|)]) then 1 else 0
  }

  /** Even-odd rule: inside when an odd number of edges cross, and never for fewer than three vertices. */
  predicate InPolygon(p: Vec2, vs: seq<Vec2>) {
    |vs| >= 3 && Crossings(p, vs, |vs|) % 2 == 1
  }

  method IsPointInPolygon(p: Vec2, vertices: seq<Vec2>) returns (inside: bool)
    ensures inside == InPolygon(p, vertices)
    ensures |vertices| < 3 ==> !inside
  {
    if |vertices| < 3 {
      return false;
    }
    inside := false;
    var j := |vertices| - 1;
    var i := 0;
    while i < |vertices|
      invariant 0 <= i <= |vertices|
      invariant j == if i == 0 then |vertices| - 1 else i - 1
      invariant inside == (Crossings(p, vertices, i) % 2 == 1)
    {
      assert Crossings(p, vertices, i + 1)
             == Crossings(p, vertices, i) + if Crosses(p, vertices[i], vertices[j]) then 1 else 0;
      if Crosses(p, vertices[i], vertices[j]) {
        inside := !inside;
      }
      j := i;
      i := i + 1;
    }
  }

  /** A point on or above every vertex is outside: no edge straddles its horizontal. */
  lemma {:induction false} AboveAllVerticesIsOutside(p: Vec2, vs: seq<Vec2>, k: nat)
    requires k <= |vs|
    requires forall i :: 0 <= i < |vs| ==> vs[i].y <= p.y
    ensures Crossings(p, vs, k) == 0
    ensures k == |vs| ==> !InPolygon(p, vs)
  {
    if k > 0 {
      AboveAllVerticesIsOutside(p, vs, k - 1);
      assert !(vs[k - 1].y > p.y);
    }
  }

  /** The centre of the square (0,0), (2,0), (2,2), (0,2) is inside; a point to its right is not. */
  lemma SquareExamples()
    ensures InPolygon(Vec2(1.0, 1.0), [Vec2(0.0, 0.0), Vec2(2.0, 0.0), Vec2(2.0, 2.0), Vec2(0.0, 2.0)])
    ensures !InPolygon(Vec2(3.0, 1.0), [Vec2(0.0, 0.0), Vec2(2.0, 0.0), Vec2(2.0, 2.0), Vec2(0.0, 2.0)])
  {
    var sq := [Vec2(0.0, 0.0), Vec2(2.0, 0.0), Vec2(2.0, 2.0), Vec2(0.0, 2.0)];
    var c := Vec2(1.0, 1.0);
    assert !Crosses(c, sq[0], sq[3]);
    assert !Crosses(c, sq[1], sq[0]);
    assert Crosses(c, sq[2], sq[1]);
    assert !Crosses(c, sq[3], sq[2]);
    assert Crossings(c, sq, 4) == 1;
    var o := Vec2(3.0, 1.0);
    assert !Crosses(o, sq[2], sq[1]);
    assert Crossings(o, sq, 4) == 0;
  }

  // ---------------------------------------------------------------------------
  // Selection

  /** How far the selection reaches beyond its start point. */
  const SELECTION_MARGIN: real := 5.5

  /** The world-space rect a selection queries: the min/max of (start - 5.5) and end. */
  function SelectionRect(start: Vec2, end: Vec2): (r: Rect)
    ensures WellFormed(r)
    ensures multiset{r.left, r.right} == multiset{start.x - SELECTION_MARGIN, end.x}
    ensures multiset{r.bottom, r.top} == multiset{start.y - SELECTION_MARGIN, end.y}
  {
    Normalised(Rect(start.x - SELECTION_MARGIN, end.x, start.y - SELECTION_MARGIN, end.y))
  }

  /** The outline drawn for a selection: a square around a point, or the dragged box. */
  function SelectionOutline(start: Vec2, end: Vec2): (o: seq<Vec2>)
    ensures |o| == 4 && o[0] == Vec2(start.x - SELECTION_MARGIN, start.y - SELECTION_MARGIN)
    ensures o[0].y == o[1].y && o[1].x == o[2].x && o[2].y == o[3].y && o[3].x == o[0].x
    ensures start == end ==> o[2] == Vec2(end.x + SELECTION_MARGIN, end.y + SELECTION_MARGIN)
    ensures start != end ==> o[2] == end
  {
    if start == end then
      [Vec2(start.x - SELECTION_MARGIN, start.y - SELECTION_MARGIN), Vec2(end.x + SELECTION_MARGIN, start.y - SELECTION_MARGIN),
       Vec2(end.x + SELECTION_MARGIN, end.y + SELECTION_MARGIN), Vec2(start.x - SELECTION_MARGIN, end.y + SELECTION_MARGIN)]
    else
      [Vec2(start.x - SELECTION_MARGIN, start.y - SELECTION_MARGIN), Vec2(end.x, start.y - SELECTION_MARGIN),
       Vec2(end.x, end.y), Vec2(start.x - SELECTION_MARGIN, end.y)]
  }

  /**
   * A point selection draws the square of half-width 5.5 around the point, while
   * the rect it queries spans only [p - 5.5, p] on each axis.
   */
  lemma PointSelectionDrawsSquare(p: Vec2)
    ensures var o := SelectionOutline(p, p);
            |o| == 4
            && PointsBox(o) == Rect(p.x - SELECTION_MARGIN, p.x + SELECTION_MARGIN, p.y - SELECTION_MARGIN, p.y + SELECTION_MARGIN)
            && (o[0].x + o[1].x) / 2.0 == p.x && (o[1].y + o[2].y) / 2.0 == p.y
    ensures SelectionRect(p, p) == Rect(p.x - SELECTION_MARGIN, p.x, p.y - SELECTION_MARGIN, p.y)
  {
    var o := SelectionOutline(p, p);
    assert o[..1] == [o[0]];
    assert o[..2][..1] == o[..1];
    assert o[..3][..2] == o[..2];
    assert o[..4][..3] == o[..3];
    assert PointsBox(o[..1]) == Rect(p.x - SELECTION_MARGIN, p.x - SELECTION_MARGIN, p.y - SELECTION_MARGIN, p.y - SELECTION_MARGIN);
    assert PointsBox(o[..2]) == Rect(p.x - SELECTION_MARGIN, p.x + SELECTION_MARGIN, p.y - SELECTION_MARGIN, p.y - SELECTION_MARGIN);
    assert PointsBox(o[..3]) == Rect(p.x - SELECTION_MARGIN, p.x + SELECTION_MARGIN, p.y - SELECTION_MARGIN, p.y + SELECTION_MARGIN);
    assert o[..4] == o;
  }

  /** The selection box resource: where the drag started and where it is now. */
  class SelectionBox {
    var start: Option<Vec2>
    var end: Option<Vec2>

    constructor ()
      ensures start == None && end == None
    {
      start := None;
      end := None;
    }
  }

  /** The pan camera's switch: off while the cursor is over the settings panel. */
  class PanCam {
    var enabled: bool

    constructor ()
      ensures enabled
    {
      enabled := true;
    }
  }

  /**
   * One frame of mouse input. `cursor` is the cursor's window position, if it is
   * in the window; `world` is its world position, None when it cannot be
   * computed or is not finite.
   */
  datatype MouseInput = MouseInput(
    middleJustPressed: bool, middleJustReleased: bool,
    leftJustPressed: bool, leftPressed: bool,
    cursor: Option<Vec2>, world: Option<Vec2>,
    panelWidth: real)

  /** The selection (start, end) after one frame of mouse input. */
  function SelectionStep(start: Option<Vec2>, end: Option<Vec2>, m: MouseInput): (r: (Option<Vec2>, Option<Vec2>))
    ensures m.leftJustPressed && m.cursor.Some? && m.world.Some? ==> r == (m.world, m.world)
    ensures !m.leftJustPressed && m.leftPressed && m.cursor.Some? && m.world.Some? ==> r == (start, m.world)
    ensures m.cursor.None? || m.world.None? ==> r == (start, end)
    ensures !m.leftJustPressed ==> r.0 == start
    ensures !m.leftJustPressed && !(m.leftPressed && m.cursor.Some? && m.world.Some?) ==> r == (start, end)
  {
    if m.cursor.None? || m.world.None? then (start, end)
    else if m.leftJustPressed then (m.world, m.world)
    else if m.leftPressed then (start, m.world)
    else (start, end)
  }

  /** The selection after a sequence of frames. */
  function Selection(start: Option<Vec2>, end: Option<Vec2>, frames: seq<MouseInput>): (Option<Vec2>, Option<Vec2>)
    decreases |frames|
  {
    if frames == [] then (start, end)
    else
      var (s, e) := Selection(start, end, frames[..|frames| - 1]);
      SelectionStep(s, e, frames[|frames| - 1])
  }

  /** While the button is held (no fresh press), the drag's start never moves. */
  lemma {:induction false} DragKeepsStart(start: Option<Vec2>, end: Option<Vec2>, frames: seq<MouseInput>)
    requires forall i :: 0 <= i < |frames| ==> !frames[i].leftJustPressed
    ensures Selection(start, end, frames).0 == start
    decreases |frames|
  {
    if frames != [] {
      var init := frames[..|frames| - 1];
      forall i | 0 <= i < |init| ensures !init[i].leftJustPressed {
        assert init[i] == frames[i];
      }
      DragKeepsStart(start, end, init);
    }
  }

  /** A fresh press followed by a drag selects from the press point to the last position. */
  lemma PressThenDrag(start: Option<Vec2>, end: Option<Vec2>, a: Vec2, b: Vec2, panel: real)
    ensures var press := MouseInput(false, false, true, true, Some(a), Some(a), panel);
            var drag := MouseInput(false, false, false, true, Some(b), Some(b), panel);
            Selection(start, end, [press, drag]) == (Some(a), Some(b))
  {
    var press := MouseInput(false, false, true, true, Some(a), Some(a), panel);
    var drag := MouseInput(false, false, false, true, Some(b), Some(b), panel);
    assert [press, drag][..1] == [press];
    assert [press][..0] == [];
  }

  /** handle_mouse. */
  method HandleMouse(mb: MapBundle, selection: SelectionBox, pancam: PanCam, m: MouseInput)
    modifies mb`getMoreData, selection, pancam
    ensures mb.getMoreData == (old(mb.getMoreData) || (!m.middleJustPressed && m.middleJustReleased))
    ensures (selection.start, selection.end) == SelectionStep(old(selection.start), old(selection.end), m)
    ensures m.cursor.Some? ==> pancam.enabled == !(m.cursor.value.x <= m.panelWidth + 15.0)
    ensures m.cursor.None? ==> pancam.enabled == old(pancam.enabled)
  {
    if m.middleJustPressed {
    } else if m.middleJustReleased {
      mb.getMoreData := true;
    }

    if m.leftJustPressed {
      if m.cursor.Some? && m.world.Some? {
        selection.start := m.world;
        selection.end := m.world;
      }
    } else if m.leftPressed {
      if m.cursor.Some? && m.world.Some? {
        selection.end := m.world;
      }
    }

    if m.cursor.Some? {
      if m.cursor.value.x <= m.panelWidth + 15.0 {
        pancam.enabled := false;
      } else {
        pancam.enabled := true;
      }
    }
  }

  /** handle_keyboard: holding U requests more data; nothing clears the flag here. */
  method HandleKeyboard(mb: MapBundle, uPressed: bool)
    modifies mb`getMoreData
    ensures mb.getMoreData == (old(mb.getMoreData) || uPressed)
  {
    if uPressed {
      mb.getMoreData := true;
    }
  }

  /** The latitude/longitude box a selection queries the feature store with. */
  function SelectionQueryBox(start: Vec2, end: Vec2, inverseLat: real -> real): (q: Rect)
    ensures WellFormed(q)
  {
    LatLonQueryBox(WorldSpaceRectToLatLong(SelectionRect(start, end), SCALE, STARTING_LONG, STARTING_LAT, inverseLat))
  }

  /**
   * draw_selection_box: when the selection changed and has both ends, select the
   * stored features inside its box, raise respawn_selected_features and return
   * the outline to draw; otherwise do nothing.
   */
  method DrawSelectionBox(mb: MapBundle, selection: SelectionBox, changed: bool, inverseLat: real -> real)
    returns (outline: Option<seq<Vec2>>)
    modifies mb`selectedFeatures, mb`respawnSelectedFeatures
    ensures !(changed && selection.start.Some? && selection.end.Some?) ==>
      outline == None && mb.selectedFeatures == old(mb.selectedFeatures)
      && mb.respawnSelectedFeatures == old(mb.respawnSelectedFeatures)
    ensures changed && selection.start.Some? && selection.end.Some? ==>
      var (s, e) := (selection.start.value, selection.end.value);
      outline == Some(SelectionOutline(s, e))
      && mb.selectedFeatures == FeaturesIn(mb.features, SelectionQueryBox(s, e, inverseLat))
      && mb.respawnSelectedFeatures
  {
    outline := None;
    if changed && selection.start.Some? && selection.end.Some? {
      var start := selection.start.value;
      var end := selection.end.value;
      var shape := SelectionOutline(start, end);
      var selectBox := WorldSpaceRectToLatLong(SelectionRect(start, end), SCALE, STARTING_LONG, STARTING_LAT, inverseLat);
      mb.selectedFeatures := FeaturesIn(mb.features, LatLonQueryBox(selectBox));
      mb.respawnSelectedFeatures := true;
      outline := Some(shape);
    }
  }
}
