/**
 * The page composer: which section is active while the page scrolls, and
 * where the page scrolls to when a section is requested.
 *
 * The document is a parameter: `layout` maps the id of every section element
 * present in the document to its measured bounds (`offsetTop`,
 * `offsetHeight`); an id that is not a key has no element. The scroll offset
 * is an input, and a requested scroll is the returned target.
 */
module Portfolio {
  import opened Wrappers

  /** The section ids, in the order the scroll handler tries them. */
  const Sections: seq<string> := ["home", "about", "timeline", "skills", "projects", "education", "contact"]

  /** How far below the top of the viewport the probe looks. */
  const ProbeOffset := 100

  /** The height of the fixed navigation bar a requested scroll leaves room for. */
  const NavOffset := 80

  datatype Bounds = Bounds(top: int, height: int)

  type Layout = map<string, Bounds>

  /** The half-open interval `[top, top + height)` contains `y`. */
  predicate Contains(b: Bounds, y: int) {
    b.top <= y < b.top + b.height
  }

  /** Section `ids[j]` has an element and its bounds contain `y`. */
  predicate Hit(ids: seq<string>, layout: Layout, y: int, j: nat)
    requires j < |ids|
  {
    ids[j] in layout && Contains(layout[ids[j]], y)
  }

  /** The probe position for a scroll offset. */
  function Probe(scrollY: int): int {
    scrollY + ProbeOffset
  }

  /** The position of the first section in `ids` whose bounds contain `y`. */
  function FirstHit(ids: seq<string>, layout: Layout, y: int): (r: Option<nat>)
    ensures r.Some? ==> r.value < |ids| && Hit(ids, layout, y, r.value)
    ensures r.Some? ==> forall j :: 0 <= j < r.value ==> !Hit(ids, layout, y, j)
    ensures r.None? ==> forall j :: 0 <= j < |ids| ==> !Hit(ids, layout, y, j)
  {
    if |ids| == 0 then None
    else if Hit(ids, layout, y, 0) then Some(0)
    else match FirstHit(ids[1..], layout, y)
      case None =>
        assert forall j :: 1 <= j < |ids| ==> (Hit(ids, layout, y, j) <==> Hit(ids[1..], layout, y, j - 1));
        None
      case Some(i) =>
        assert forall j :: 1 <= j < |ids| ==> (Hit(ids, layout, y, j) <==> Hit(ids[1..], layout, y, j - 1));
        Some(i + 1)
  }

  /** The section that becomes active at a scroll offset, or `old` when no section contains the probe. */
  function Tracked(layout: Layout, scrollY: int, old_: string): string {
    match FirstHit(Sections, layout, Probe(scrollY))
    case Some(i) => Sections[i]
    case None => old_
  }

  /** `scrollToSection`: the scroll target for a section, `None` when it has no element. */
  function ScrollTarget(id: string, layout: Layout): (r: Option<int>)
    ensures r.Some? <==> id in layout
    ensures r.Some? ==> r.value + NavOffset == layout[id].top
  {
    if id in layout then Some(layout[id].top - NavOffset) else None
  }

  class Page {
    var activeSection: string

    /** The active section is always one of the sections. */
    ghost predicate Valid()
      reads this
    {
      activeSection in Sections
    }

    constructor ()
      ensures Valid() && activeSection == "home"
    {
      activeSection := "home";
    }

    /** `handleScroll`: the first section containing the probe becomes active; otherwise nothing changes. */
    method HandleScroll(layout: Layout, scrollY: int)
      modifies this
      ensures activeSection == Tracked(layout, scrollY, old(activeSection))
      ensures old(Valid()) ==> Valid()
    {
      var y := Probe(scrollY);
      var i := 0;
      while i < |Sections|
        invariant 0 <= i <= |Sections|
        invariant activeSection == old(activeSection)
        invariant forall j :: 0 <= j < i ==> !Hit(Sections, layout, y, j)
      {
        var section := Sections[i];
        if section in layout {
          var b := layout[section];
          if y >= b.top && y < b.top + b.height {
            assert Hit(Sections, layout, y, i);
            activeSection := section;
            FirstHitIs(Sections, layout, y, i);
            return;
          }
        }
        i := i + 1;
      }
      NoHit(Sections, layout, y);
    }
  }

  /** `FirstHit` is the only position that is a hit with no hit before it. */
  lemma FirstHitIs(ids: seq<string>, layout: Layout, y: int, i: nat)
    requires i < |ids| && Hit(ids, layout, y, i)
    requires forall j :: 0 <= j < i ==> !Hit(ids, layout, y, j)
    ensures FirstHit(ids, layout, y) == Some(i)
  {
  }

  lemma NoHit(ids: seq<string>, layout: Layout, y: int)
    requires forall j :: 0 <= j < |ids| ==> !Hit(ids, layout, y, j)
    ensures FirstHit(ids, layout, y) == None
  {
  }

  /** The tracked section is one of the sections whenever the previous one was. */
  lemma TrackedIsSection(layout: Layout, scrollY: int, old_: string)
    requires old_ in Sections
    ensures Tracked(layout, scrollY, old_) in Sections
  {
  }

  /** The sections' elements lie one below the other, in section order. */
  ghost predicate Stacked(layout: Layout) {
    forall j, i :: 0 <= j < i < |Sections| && Sections[j] in layout && Sections[i] in layout ==>
      layout[Sections[j]].top + layout[Sections[j]].height <= layout[Sections[i]].top
  }

  /**
   * Where `window.scrollTo` lands for a requested top: the browser keeps the
   * scroll offset within `0..maxScroll` (the document height less the
   * viewport height).
   */
  function Landing(target: int, maxScroll: nat): (y: int)
    ensures 0 <= y <= maxScroll
    ensures 0 <= target <= maxScroll ==> y == target
    ensures target < 0 ==> y == 0
    ensures target > maxScroll ==> y == maxScroll
  {
    if target < 0 then 0 else if target > maxScroll then maxScroll else target
  }

  /**
   * Requesting a section and then tracking the scroll agree: on a stacked
   * layout, when the page can reach a section's target the probe lies 20
   * pixels inside that section, so a section taller than that becomes
   * active.
   */
  lemma ScrollThenTrack(layout: Layout, i: nat, maxScroll: nat)
    requires i < |Sections| && Sections[i] in layout
    requires Stacked(layout)
    requires layout[Sections[i]].height > ProbeOffset - NavOffset
    requires 0 <= layout[Sections[i]].top - NavOffset <= maxScroll
    ensures ScrollTarget(Sections[i], layout).Some?
    ensures Tracked(layout, Landing(ScrollTarget(Sections[i], layout).value, maxScroll), "home") == Sections[i]
  {
    var b := layout[Sections[i]];
    var y := Probe(b.top - NavOffset);
    assert Hit(Sections, layout, y, i);
    forall j | 0 <= j < i
      ensures !Hit(Sections, layout, y, j)
    {
      if Sections[j] in layout {
        assert layout[Sections[j]].top + layout[Sections[j]].height <= b.top;
      }
    }
    FirstHitIs(Sections, layout, y, i);
  }

  /**
   * The first section cannot be scrolled above the top of the page: its
   * target is clamped to 0, and the section is active when it contains the
   * probe there.
   */
  lemma ScrollHomeThenTrack(layout: Layout, maxScroll: nat)
    requires "home" in layout
    requires layout["home"].top <= NavOffset
    requires Contains(layout["home"], ProbeOffset)
    ensures ScrollTarget("home", layout).Some?
    ensures Landing(ScrollTarget("home", layout).value, maxScroll) == 0
    ensures Tracked(layout, Landing(ScrollTarget("home", layout).value, maxScroll), "home") == "home"
  {
    assert Hit(Sections, layout, Probe(0), 0);
    FirstHitIs(Sections, layout, Probe(0), 0);
  }

  /**
   * A last section too short to scroll to: the page stops at `maxScroll`,
   * short of the target, and the probe falls in the section before it.
   */
  lemma ShortLastSection()
    ensures ScrollTarget("contact", ShortPage) == Some(1420)
    ensures Tracked(ShortPage, Landing(1420, 1300), "home") == "education"
  {
    var y := Probe(Landing(1420, 1300));
    assert y == 1400;
    forall j | 0 <= j < 5
      ensures !Hit(Sections, ShortPage, y, j)
    {
      assert Sections[j] !in ShortPage;
    }
    assert Hit(Sections, ShortPage, y, 5);
    FirstHitIs(Sections, ShortPage, y, 5);
  }

  /** The last two sections of a page that cannot scroll further down than 1300 pixels. */
  const ShortPage: Layout := map["education" := Bounds(1000, 500), "contact" := Bounds(1500, 300)]
}
