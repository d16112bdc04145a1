/**
 * The camera systems: the world-space rectangle around the camera, and the zoom
 * threshold that disables the Building category when zoomed far out.
 */
module CameraSystem {
  import opened Wrappers
  import opened MapTypes
  import opened Settings
  import opened MapStore

  /** What the camera systems read: camera position, window size, orthographic scale. */
  datatype CameraView = CameraView(x: real, y: real, windowWidth: real, windowHeight: real, scale: real)

  /**
   * camera_space_to_world_space: the rect centred on the camera whose width and
   * height are the window's, times the projection scale, times `overflow`.
   */
  function CameraSpaceToWorldSpace(view: CameraView, overflow: real): (r: Option<Rect>)
    ensures r.Some?
    ensures (r.value.left + r.value.right) / 2.0 == view.x
    ensures (r.value.bottom + r.value.top) / 2.0 == view.y
    ensures r.value.right - r.value.left == view.windowWidth * view.scale * overflow
    ensures r.value.top - r.value.bottom == view.windowHeight * view.scale * overflow
    ensures view.windowWidth >= 0.0 && view.windowHeight >= 0.0 && view.scale >= 0.0 && overflow >= 0.0
            ==> WellFormed(r.value)
  {
    var halfWidth := ((view.windowWidth * view.scale) / 2.0) * overflow;
    var halfHeight := ((view.windowHeight * view.scale) / 2.0) * overflow;
    assert halfWidth + halfWidth == view.windowWidth * view.scale * overflow;
    assert halfHeight + halfHeight == view.windowHeight * view.scale * overflow;
    Some(Rect(view.x - halfWidth, view.x + halfWidth, view.y - halfHeight, view.y + halfHeight))
  }

  /** Above this scale buildings are not shown. */
  const BUILDING_SCALE_LIMIT: real := 3.5

  /**
   * The Building category after a zoom change to `scale`, and whether it flipped.
   * It flips only on an actual transition, and afterwards it is disabled exactly
   * when the scale is above the limit.
   */
  function BuildingToggle(c: Category, scale: real): (r: (Category, bool))
    ensures r.1 <==> (scale > BUILDING_SCALE_LIMIT) != c.disabled
    ensures r.0.disabled == (scale > BUILDING_SCALE_LIMIT)
    ensures r.0 == c.(disabled := r.0.disabled)
  {
    if scale > BUILDING_SCALE_LIMIT then
      if !c.disabled then (c.(disabled := true), true) else (c, false)
    else
      if c.disabled then (c.(disabled := false), true) else (c, false)
  }

  /** The categories after a zoom change, and whether the fetch and respawn flags are raised. */
  function CameraStep(cats: map<string, Category>, scale: real): (r: (map<string, Category>, bool))
    ensures "Building" !in cats ==> r == (cats, false)
    ensures r.0.Keys == cats.Keys
    ensures forall n :: n in cats && n != "Building" ==> r.0[n] == cats[n]
  {
    if "Building" in cats then
      var (c, flipped) := BuildingToggle(cats["Building"], scale);
      (cats["Building" := c], flipped)
    else (cats, false)
  }

  /** A repeated call at the same scale changes nothing and raises no flag. */
  lemma CameraStepIdempotent(cats: map<string, Category>, scale: real)
    ensures var (after, _) := CameraStep(cats, scale);
            CameraStep(after, scale) == (after, false)
  {
    var (after, _) := CameraStep(cats, scale);
    if "Building" in cats {
      var c := BuildingToggle(cats["Building"], scale).0;
      assert after["Building"] == c;
      assert BuildingToggle(c, scale) == (c, false);
      assert after["Building" := c] == after;
    }
  }

  class CameraSettings {
    var scale: real

    constructor (scale: real)
      ensures this.scale == scale
    {
      this.scale := scale;
    }
  }

  /** camera_change: react to a change of the orthographic projection. */
  method CameraChange(settings: CameraSettings, overlay: SettingsOverlay, mb: MapBundle,
                      projectionChanged: bool, projectionScale: real)
    modifies settings, overlay, mb`respawn, mb`getMoreData
    ensures !projectionChanged ==>
      settings.scale == old(settings.scale) && overlay.categories == old(overlay.categories)
      && mb.respawn == old(mb.respawn) && mb.getMoreData == old(mb.getMoreData)
    ensures projectionChanged ==>
      var (cats, flipped) := CameraStep(old(overlay.categories), projectionScale);
      settings.scale == projectionScale && overlay.categories == cats
      && mb.respawn == (old(mb.respawn) || flipped) && mb.getMoreData == (old(mb.getMoreData) || flipped)
  {
    if projectionChanged {
      settings.scale := projectionScale;
      if settings.scale > BUILDING_SCALE_LIMIT {
        if "Building" in overlay.categories {
          var category := overlay.categories["Building"];
          if !category.disabled {
            overlay.categories := overlay.categories["Building" := category.(disabled := true)];
            mb.respawn := true;
            mb.getMoreData := true;
          }
        }
      } else {
        if "Building" in overlay.categories {
          var category := overlay.categories["Building"];
          if category.disabled {
            overlay.categories := overlay.categories["Building" := category.(disabled := false)];
            mb.respawn := true;
            mb.getMoreData := true;
          }
        }
      }
    }
  }
}
