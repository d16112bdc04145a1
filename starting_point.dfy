/**
 * spawn_starting_point: at startup the Highway and Building categories are
 * switched to "All" and a first fetch is requested.
 */
module StartingPoint {
  import opened Settings
  import opened MapStore

  /** The categories that are switched on at startup. */
  const STARTUP_CATEGORIES: seq<string> := ["Highway", "Building"]

  /** One category switched on: `all` set and every child set through set_children(true). */
  function EnableCategory(cats: map<string, Category>, name: string, setChildren: ChildSetter)
    : map<string, Category>
  {
    if name in cats then cats[name := cats[name].(all := true, items := setChildren(cats[name].items, true))]
    else cats
  }

  /**
   * The categories after startup: Highway and Building, when present, have `all`
   * set and their children set; `none` and `disabled` are not touched, absent
   * categories are not created and every other category is unchanged.
   */
  function EnableAtStartup(cats: map<string, Category>, setChildren: ChildSetter): (r: map<string, Category>)
    ensures r.Keys == cats.Keys
    ensures forall n :: n in cats && n !in STARTUP_CATEGORIES ==> r[n] == cats[n]
    ensures forall n :: n in cats && n in STARTUP_CATEGORIES ==>
      r[n] == cats[n].(all := true, items := setChildren(cats[n].items, true))
  {
    EnableCategory(EnableCategory(cats, "Highway", setChildren), "Building", setChildren)
  }

  /** Starting up twice is starting up once, provided set_children(true) is idempotent. */
  lemma StartupIdempotent(cats: map<string, Category>, setChildren: ChildSetter)
    requires forall items :: setChildren(setChildren(items, true), true) == setChildren(items, true)
    ensures EnableAtStartup(EnableAtStartup(cats, setChildren), setChildren) == EnableAtStartup(cats, setChildren)
  {
    var once := EnableAtStartup(cats, setChildren);
    var twice := EnableAtStartup(once, setChildren);
    forall n | n in twice ensures twice[n] == once[n] {
      if n in STARTUP_CATEGORIES {
        assert setChildren(setChildren(cats[n].items, true), true) == setChildren(cats[n].items, true);
      }
    }
  }

  /**
   * `none` is not cleared: a category whose "None" box was ticked ends with both
   * "All" and "None" set, which no click in the panel can produce.
   */
  lemma StartupCanBreakExclusive(setChildren: ChildSetter)
    ensures var cats := map["Highway" := Category(false, true, false, map[])];
            Exclusive(cats) && !Exclusive(EnableAtStartup(cats, setChildren))
  {
    var cats := map["Highway" := Category(false, true, false, map[])];
    var r := EnableAtStartup(cats, setChildren);
    assert "Highway" in STARTUP_CATEGORIES;
    assert r["Highway"].all && r["Highway"].none;
  }

  method SpawnStartingPoint(mb: MapBundle, overlay: SettingsOverlay, setChildren: ChildSetter)
    modifies mb`getMoreData, overlay
    ensures overlay.categories == EnableAtStartup(old(overlay.categories), setChildren)
    ensures mb.getMoreData
  {
    if "Highway" in overlay.categories {
      var category := overlay.categories["Highway"];
      category := category.(all := true);
      category := category.(items := setChildren(category.items, true));
      overlay.categories := overlay.categories["Highway" := category];
    }
    if "Building" in overlay.categories {
      var category := overlay.categories["Building"];
      category := category.(all := true);
      category := category.(items := setChildren(category.items, true));
      overlay.categories := overlay.categories["Building" := category];
    }
    mb.getMoreData := true;
  }
}
