/** The floating toolkit: an open/closed menu, a "next section" button that
    scrolls to the section after the active one, and a tooltip placed on
    the side of the screen away from the toolkit. */
module FloatingToolkit {
  import opened Wrappers
  import Sections

  datatype Side = Left | Right

  /** The horizontal part of the toolkit's bounding rectangle. */
  datatype Rect = Rect(left: real, width: real)

  /** `getTooltipPosition`: "right" when there is no element or the width is
      still 0; otherwise "left" iff the toolkit's centre is in the right half. */
  function TooltipPosition(rect: Option<Rect>, windowWidth: int): (side: Side)
    ensures rect == None || windowWidth == 0 ==> side == Right
  {
    if rect == None || windowWidth == 0 then Right
    else
      var toolkitCenterX := rect.value.left + rect.value.width / 2.0;
      var screenWidth := windowWidth as real;
      if toolkitCenterX > screenWidth / 2.0 then Left else Right
  }

  /** Without halves: the tooltip goes left iff twice the left edge plus the
      width exceeds the window width. */
  lemma TooltipByDoubling(left: real, width: real, windowWidth: int)
    requires windowWidth != 0
    ensures (TooltipPosition(Some(Rect(left, width)), windowWidth) == Left) <==> (2.0 * left + width > windowWidth as real)
  {
  }

  /** Dragging the toolkit further right never moves the tooltip back to the
      right-hand side. */
  lemma TooltipMonotone(left: real, left': real, width: real, windowWidth: int)
    requires left <= left'
    requires TooltipPosition(Some(Rect(left, width)), windowWidth) == Left
    ensures TooltipPosition(Some(Rect(left', width)), windowWidth) == Left
  {
  }

  class Toolkit {
    var isOpen: bool
    /** The `windowSize` state. */
    var windowWidth: int
    var windowHeight: int
    /** The component's `activeSection` state and its observers. */
    const tracker: Sections.SectionTracker

    ghost predicate Valid()
      reads this, tracker
    {
      tracker.Valid()
    }

    constructor ()
      ensures Valid() && fresh(tracker)
      ensures !isOpen && windowWidth == 0 && windowHeight == 0
      ensures tracker.activeSection == Sections.InitialSection && tracker.observers == []
    {
      isOpen := false;
      windowWidth, windowHeight := 0, 0;
      tracker := new Sections.SectionTracker();
    }

    /** The resize listener. */
    method UpdateWindowSize(width: int, height: int)
      modifies this`windowWidth, this`windowHeight
      ensures windowWidth == width && windowHeight == height
    {
      windowWidth, windowHeight := width, height;
    }

    /** `toggleToolkit`. */
    method Toggle()
      modifies this`isOpen
      ensures isOpen == !old(isOpen)
    {
      isOpen := !isOpen;
    }

    /** `scrollToNextSection`: the section it scrolls to, or `None` when that
        section's element does not exist. Nothing of the state changes; the
        observers pick up the scroll. */
    method ScrollToNextSection(present: set<string>) returns (target: Option<string>)
      requires Valid()
      ensures target.Some? <==> Sections.NextSection(tracker.activeSection) in present
      ensures target.Some? ==> target.value == Sections.NextSection(tracker.activeSection)
      ensures target.Some? ==> target.value in Sections.SectionIds
    {
      var nextSection := Sections.NextSection(tracker.activeSection);
      if nextSection in present {
        target := Some(nextSection);
      } else {
        target := None;
      }
    }

    /** The tooltip side for the toolkit's current rectangle. */
    method TooltipSide(rect: Option<Rect>) returns (side: Side)
      ensures side == TooltipPosition(rect, windowWidth)
      ensures windowWidth == 0 ==> side == Right
    {
      side := TooltipPosition(rect, windowWidth);
    }
  }

  /** Toggling twice restores the menu. */
  method ToggleTwice(t: Toolkit)
    modifies t
    ensures t.isOpen == old(t.isOpen)
  {
    t.Toggle();
    t.Toggle();
  }
}
