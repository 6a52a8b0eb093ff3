/** The viewport hook: the window size sorted into one of four breakpoint
    classes, and the layout tokens each class selects. */
module Viewport {

  /** The `dimensions` state record. */
  datatype Dimensions = Dimensions(
    height: int, width: int,
    isMobile: bool, isTablet: bool, isDesktop: bool, isLarge: bool)

  /** The breakpoint classes, as an independent reference for the flags. */
  datatype ViewportClass = Mobile | Tablet | Desktop | Large

  /** The class a width falls in, by its Tailwind breakpoints. */
  function ClassOf(width: int): ViewportClass
  {
    if width < 640 then Mobile
    else if width < 1024 then Tablet
    else if width < 1280 then Desktop
    else Large
  }

  /** The delay after an orientation change before the update runs. Time is
      not modelled; the delayed update is an ordinary `UpdateDimensions`. */
  const OrientationDelayMs := 100

  /** The state before the first update: zero size, every flag off. */
  const Initial := Dimensions(0, 0, false, false, false, false)

  /** The record `updateDimensions` builds from the window's size. */
  function Measure(width: int, height: int): (d: Dimensions)
    ensures d.width == width && d.height == height
  {
    Dimensions(height, width,
      width < 640,
      width >= 640 && width < 1024,
      width >= 1024 && width < 1280,
      width >= 1280)
  }

  /** The flag of `d` that stands for class `c`. */
  function Flag(d: Dimensions, c: ViewportClass): bool
  {
    match c
    case Mobile => d.isMobile
    case Tablet => d.isTablet
    case Desktop => d.isDesktop
    case Large => d.isLarge
  }

  /** After an update exactly one flag is set: the one of the width's class. */
  lemma MeasureExactlyOne(width: int, height: int, c: ViewportClass)
    ensures Flag(Measure(width, height), c) <==> c == ClassOf(width)
  {
  }

  /** The boundary widths. */
  lemma Boundaries()
    ensures ClassOf(639) == Mobile && ClassOf(640) == Tablet
    ensures ClassOf(1023) == Tablet && ClassOf(1024) == Desktop
    ensures ClassOf(1279) == Desktop && ClassOf(1280) == Large
  {
  }

  /** The hook as a stateful object: `updateDimensions` replaces the record. */
  class ViewportTracker {
    var dimensions: Dimensions

    constructor ()
      ensures dimensions == Initial
    {
      dimensions := Initial;
    }

    /** A resize (or the settled orientation change): classify the new width,
        store the height as read. */
    method UpdateDimensions(width: int, height: int)
      modifies this
      ensures dimensions == Measure(width, height)
      ensures forall c :: Flag(dimensions, c) <==> c == ClassOf(width)
    {
      dimensions := Measure(width, height);
      forall c ensures Flag(dimensions, c) <==> c == ClassOf(width) {
        MeasureExactlyOne(width, height, c);
      }
    }
  }

  /** `getVerticalSpacing`: flags checked mobile, tablet, desktop, then default. */
  function VerticalSpacing(d: Dimensions): string
  {
    if d.isMobile then "py-8 sm:py-12"
    else if d.isTablet then "py-12 md:py-16"
    else if d.isDesktop then "py-16 lg:py-20"
    else "py-20 xl:py-24"
  }

  /** `getHorizontalSpacing`. */
  function HorizontalSpacing(d: Dimensions): string
  {
    if d.isMobile then "px-4"
    else if d.isTablet then "px-6 md:px-8"
    else if d.isDesktop then "px-8 lg:px-12"
    else "px-12 xl:px-16"
  }

  /** `getSectionHeight(fullHeight)`. */
  function SectionHeight(d: Dimensions, fullHeight: bool): string
  {
    if fullHeight then "min-h-screen"
    else if d.isMobile then "min-h-[80vh]"
    else if d.isTablet then "min-h-[85vh]"
    else "min-h-[90vh]"
  }

  /** `getContainerMaxWidth`. */
  function ContainerMaxWidth(d: Dimensions): string
  {
    if d.isMobile then "max-w-full"
    else if d.isTablet then "max-w-4xl"
    else if d.isDesktop then "max-w-5xl"
    else "max-w-6xl"
  }

  /** The tokens of a class, as a table indexed by class. */
  datatype Tokens = Tokens(vertical: string, horizontal: string, height: string, maxWidth: string)

  function TokensOf(c: ViewportClass): Tokens
  {
    match c
    case Mobile => Tokens("py-8 sm:py-12", "px-4", "min-h-[80vh]", "max-w-full")
    case Tablet => Tokens("py-12 md:py-16", "px-6 md:px-8", "min-h-[85vh]", "max-w-4xl")
    case Desktop => Tokens("py-16 lg:py-20", "px-8 lg:px-12", "min-h-[90vh]", "max-w-5xl")
    case Large => Tokens("py-20 xl:py-24", "px-12 xl:px-16", "min-h-[90vh]", "max-w-6xl")
  }

  /** The getters' tokens, read off the flags of `d`. */
  function Getters(d: Dimensions): Tokens
  {
    Tokens(VerticalSpacing(d), HorizontalSpacing(d), SectionHeight(d, false), ContainerMaxWidth(d))
  }

  /** After an update, the getters give the table row of the width's class;
      a full-height section is "min-h-screen" whatever the class. */
  lemma {:induction false} GettersFollowClass(width: int, height: int)
    ensures Getters(Measure(width, height)) == TokensOf(ClassOf(width))
    ensures SectionHeight(Measure(width, height), true) == "min-h-screen"
  {
    var d := Measure(width, height);
    match ClassOf(width)
    case Mobile =>
      assert d.isMobile;
    case Tablet =>
      assert !d.isMobile && d.isTablet;
    case Desktop =>
      assert !d.isMobile && !d.isTablet && d.isDesktop;
    case Large =>
      assert !d.isMobile && !d.isTablet && !d.isDesktop;
  }

  /** The getters depend on the width only: the height never matters. */
  lemma HeightIrrelevant(width: int, h1: int, h2: int)
    ensures Getters(Measure(width, h1)) == Getters(Measure(width, h2))
  {
  }

  /** Before the first update every getter takes its final branch, which is
      the large row of the table. */
  lemma {:induction false} InitialIsLarge()
    ensures Getters(Initial) == TokensOf(Large)
    ensures forall c :: !Flag(Initial, c)
  {
    assert Getters(Initial) == Tokens("py-20 xl:py-24", "px-12 xl:px-16", "min-h-[90vh]", "max-w-6xl");
  }
}
