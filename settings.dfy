/**
 * The layer settings panel: per category an "All" flag, a "None" flag, a
 * `disabled` flag (set by the zoom logic, only read here) and the individual
 * items with their enabled flag and colour. `set_children` is not part of the
 * model; it is a given operation on a category's items.
 */
module Settings {
  import opened Wrappers

  datatype Colour = Rgb(r: nat, g: nat, b: nat)

  datatype Item = Item(enabled: bool, colour: Colour)

  datatype Category = Category(all: bool, none: bool, disabled: bool, items: map<string, Item>)

  /** set_children: the category's items after setting all children to the given value. */
  type ChildSetter = (map<string, Item>, bool) -> map<string, Item>

  /** A click on one category's "All" box, its "None" box, or one item's box. */
  datatype Click = AllClicked | NoneClicked | ItemClicked(name: string)

  /** The label colour of a category: greyed out when disabled. */
  function LabelColour(c: Category): (colour: Colour)
    ensures colour == Rgb(135, 135, 135) <==> c.disabled
  {
    if c.disabled then Rgb(135, 135, 135) else Rgb(221, 221, 221)
  }

  /**
   * A category after one click. All toggles `all` (calling set_children(true)
   * only when turning it on) and clears `none`; None is the mirror image; an item
   * click flips that item and clears both. `disabled` is never written.
   */
  function AfterClick(c: Category, click: Click, setChildren: ChildSetter): (r: Category)
    requires click.ItemClicked? ==> click.name in c.items
    ensures !(r.all && r.none)
    ensures r.disabled == c.disabled
    ensures click == AllClicked ==> r.all == !c.all && !r.none
    ensures click == AllClicked ==> r.items == (if c.all then c.items else setChildren(c.items, true))
    ensures click == NoneClicked ==> r.none == !c.none && !r.all
    ensures click == NoneClicked ==> r.items == (if c.none then c.items else setChildren(c.items, false))
    ensures click.ItemClicked? ==> !r.all && !r.none && r.items.Keys == c.items.Keys
    ensures click.ItemClicked? ==> r.items[click.name].enabled == !c.items[click.name].enabled
    ensures click.ItemClicked? ==> forall n :: n in c.items && n != click.name ==> r.items[n] == c.items[n]
  {
    match click
    case AllClicked =>
      var c1 := if c.all then c.(all := false) else c.(all := true, items := setChildren(c.items, true));
      if c1.none then c1.(none := false) else c1
    case NoneClicked =>
      var c1 := if c.none then c.(none := false) else c.(none := true, items := setChildren(c.items, false));
      if c1.all then c1.(all := false) else c1
    case ItemClicked(name) =>
      var it := c.items[name];
      c.(items := c.items[name := it.(enabled := !it.enabled)], all := false, none := false)
  }

  /** No category has both "All" and "None" set. */
  ghost predicate Exclusive(cats: map<string, Category>) {
    forall n :: n in cats ==> !(cats[n].all && cats[n].none)
  }

  /** A click is valid for a category map when it names a category and, for items, one of its items. */
  predicate ValidClick(cats: map<string, Category>, name: string, click: Click) {
    name in cats && (click.ItemClicked? ==> click.name in cats[name].items)
  }

  /** The categories after a sequence of frames, each with at most one click (invalid clicks do nothing). */
  function ApplyClicks(cats: map<string, Category>, clicks: seq<(string, Click)>, setChildren: ChildSetter)
    : map<string, Category>
    decreases |clicks|
  {
    if clicks == [] then cats
    else
      var before := ApplyClicks(cats, clicks[..|clicks| - 1], setChildren);
      var (name, click) := clicks[|clicks| - 1];
      if ValidClick(before, name, click) then before[name := AfterClick(before[name], click, setChildren)]
      else before
  }

  /** Invariant: clicking never leaves a category with both "All" and "None" set. */
  lemma {:induction false} ClicksKeepExclusive(cats: map<string, Category>, clicks: seq<(string, Click)>,
                                             setChildren: ChildSetter)
    requires Exclusive(cats)
    ensures Exclusive(ApplyClicks(cats, clicks, setChildren))
    decreases |clicks|
  {
    if clicks != [] {
      ClicksKeepExclusive(cats, clicks[..|clicks| - 1], setChildren);
    }
  }

  /** Clicks never add or remove a category and never change `disabled`. */
  lemma {:induction false} ClicksKeepDisabled(cats: map<string, Category>, clicks: seq<(string, Click)>,
                                            setChildren: ChildSetter)
    ensures ApplyClicks(cats, clicks, setChildren).Keys == cats.Keys
    ensures forall n :: n in cats ==> ApplyClicks(cats, clicks, setChildren)[n].disabled == cats[n].disabled
    decreases |clicks|
  {
    if clicks != [] {
      ClicksKeepDisabled(cats, clicks[..|clicks| - 1], setChildren);
    }
  }

  /** SettingsOverlay: the categories of the panel, by name. */
  class SettingsOverlay {
    var categories: map<string, Category>

    constructor (cats: map<string, Category>)
      ensures categories == cats
    {
      categories := cats;
    }

    /** One frame of the panel: apply the click, if any, to the clicked category. */
    method HandleClick(click: Option<(string, Click)>, setChildren: ChildSetter)
      modifies this
      ensures click.None? ==> categories == old(categories)
      ensures click.Some? ==> categories == ApplyClicks(old(categories), [click.value], setChildren)
      ensures Exclusive(old(categories)) ==> Exclusive(categories)
    {
      if click.Some? {
        var (name, c) := click.value;
        if ValidClick(categories, name, c) {
          var cat := categories[name];
          var updated := cat;
          match c {
            case AllClicked =>
              if updated.all {
                updated := updated.(all := false);
              } else {
                updated := updated.(all := true);
                updated := updated.(items := setChildren(updated.items, true));
              }
              if updated.none {
                updated := updated.(none := false);
              }
            case NoneClicked =>
              if updated.none {
                updated := updated.(none := false);
              } else {
                updated := updated.(none := true);
                updated := updated.(items := setChildren(updated.items, false));
              }
              if updated.all {
                updated := updated.(all := false);
              }
            case ItemClicked(item) =>
              var it := updated.items[item];
              updated := updated.(items := updated.items[item := it.(enabled := !it.enabled)]);
              updated := updated.(all := false, none := false);
          }
          assert updated == AfterClick(cat, c, setChildren);
          categories := categories[name := updated];
        }
        assert [click.value][..0] == [];
      }
    }
  }
}
