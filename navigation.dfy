/**
 * The navigation bar: the `scrolled` flag set by the scroll handler, the
 * mobile menu flag flipped by the menu button and cleared by a nav click,
 * and the active marking of the nav items. A nav click's call of the
 * page's section callback is the section id the click returns.
 */
module Navigation {
  import Portfolio
  import opened Gallery

  /** The ids of the nav items, in display order. */
  const NavItems: seq<string> := ["home", "about", "timeline", "skills", "projects", "education", "contact"]

  /** How far the page must scroll before the bar turns opaque. */
  const ScrollThreshold := 50

  class Nav {
    var isMenuOpen: bool
    var scrolled: bool

    constructor ()
      ensures !isMenuOpen && !scrolled
    {
      isMenuOpen := false;
      scrolled := false;
    }

    /** `handleScroll`: scrolled exactly when the offset is strictly past the threshold. */
    method HandleScroll(scrollY: int)
      modifies this`scrolled
      ensures scrolled <==> scrollY > ScrollThreshold
    {
      scrolled := scrollY > ScrollThreshold;
    }

    /** The menu button flips the menu. */
    method ToggleMenu()
      modifies this`isMenuOpen
      ensures isMenuOpen == !old(isMenuOpen)
    {
      isMenuOpen := !isMenuOpen;
    }

    /** `handleNavClick`: the item's id is passed to the section callback and the menu is left closed. */
    method HandleNavClick(sectionId: string) returns (requested: string)
      modifies this`isMenuOpen
      ensures requested == sectionId && !isMenuOpen
    {
      requested := sectionId;
      isMenuOpen := false;
    }
  }

  /** The nav item ids are pairwise distinct. */
  lemma NavItemsDistinct()
    ensures Distinct(NavItems)
  {
  }

  /**
   * `isActive(id)` marks the items whose id is the active section: at most
   * one item, and exactly one when the section has an item.
   */
  lemma AtMostOneActive(activeSection: string)
    ensures |Positions(NavItems, activeSection)| <= 1
    ensures activeSection in NavItems ==> |Positions(NavItems, activeSection)| == 1
  {
    NavItemsDistinct();
    DistinctPositions(NavItems, activeSection);
  }

  /**
   * The nav items are the page's sections, in the same order, so whatever
   * section the page tracks is marked by exactly one nav item.
   */
  lemma TrackedSectionMarked(activeSection: string)
    requires activeSection in Portfolio.Sections
    ensures |Positions(NavItems, activeSection)| == 1
  {
    assert NavItems == Portfolio.Sections;
    AtMostOneActive(activeSection);
  }
}
