/** The navigation bar: a "scrolled" flag from the scroll position, the
    active-section tracking, smooth scrolling to a clicked section, and the
    highlight on the active item. */
module Navigation {
  import opened Wrappers
  import Seqs
  import Sections

  /** Pixels of scroll beyond which the bar gets its solid background. */
  const ScrollThreshold: real := 50.0

  /** The scroll listener's `window.scrollY > 50`. */
  function IsScrolled(scrollY: real): (r: bool)
    ensures r ==> scrollY > ScrollThreshold
    ensures !r ==> scrollY <= ScrollThreshold
  {
    scrollY > ScrollThreshold
  }

  datatype NavItem = NavItem(id: string, title: string)

  const NavItems: seq<NavItem> := [
    NavItem("home", "Home"), NavItem("about", "About"), NavItem("experience", "Experience"),
    NavItem("projects", "Projects"), NavItem("skills", "Skills"), NavItem("contact", "Contact")
  ]

  /** The rendered items carry the observed ids, in the same order. */
  lemma NavItemIds()
    ensures |NavItems| == |Sections.SectionIds|
    ensures forall i :: 0 <= i < |NavItems| ==> NavItems[i].id == Sections.SectionIds[i]
  {
  }

  /** An item is highlighted when its id is the active section. */
  predicate Highlighted(activeSection: string, item: NavItem)
  {
    activeSection == item.id
  }

  /** At most one item is highlighted, and while the active id is one of the
      sections, exactly one is: the item at that id's position. */
  lemma {:induction false} OneHighlighted(activeSection: string)
    ensures forall i, j ::
              (0 <= i < |NavItems| && 0 <= j < |NavItems| &&
               Highlighted(activeSection, NavItems[i]) && Highlighted(activeSection, NavItems[j])) ==> i == j
    ensures activeSection in Sections.SectionIds ==>
              Highlighted(activeSection, NavItems[Seqs.IndexOf(Sections.SectionIds, activeSection)])
  {
    NavItemIds();
    Sections.SectionIdsDistinct();
    forall i, j | 0 <= i < |NavItems| && 0 <= j < |NavItems| &&
        Highlighted(activeSection, NavItems[i]) && Highlighted(activeSection, NavItems[j])
      ensures i == j
    {
      assert Sections.SectionIds[i] == Sections.SectionIds[j];
    }
  }

  class NavigationBar {
    var scrolled: bool
    const tracker: Sections.SectionTracker

    ghost predicate Valid()
      reads this, tracker
    {
      tracker.Valid()
    }

    constructor ()
      ensures Valid() && fresh(tracker) && !scrolled
      ensures tracker.activeSection == Sections.InitialSection && tracker.observers == []
    {
      scrolled := false;
      tracker := new Sections.SectionTracker();
    }

    /** The scroll listener. */
    method OnScroll(scrollY: real)
      modifies this`scrolled
      ensures scrolled == IsScrolled(scrollY)
    {
      scrolled := scrollY > 50.0;
    }

    /** `scrollToSection`: the element it scrolls into view, or `None` when
        there is no element with that id. It changes no state of its own:
        the active section is left to the observers. */
    method ScrollToSection(sectionId: string, present: set<string>) returns (target: Option<string>)
      ensures target == if sectionId in present then Some(sectionId) else None
    {
      if sectionId in present {
        target := Some(sectionId);
      } else {
        target := None;
      }
    }
  }
}
