# Portfolio view-state model

A Dafny model of the view-state logic behind an animated single-page
portfolio site (Next.js/React). Under the markup sit a few small state
machines and classifications, and the model covers each of them:

- **Theme hook** (`use-theme.ts`). It holds a light/dark/system preference
  and resolves it against the operating system's dark-mode flag. It cycles
  light → dark → system, keeps the document's "dark" class and colour scheme
  in step, and persists the preference under the storage key `theme`.
- **Viewport hook** (`useViewportSection.ts`). It sorts the window width into
  mobile, tablet, desktop or large. Each class selects spacing, height and
  width tokens.
- **Experience carousel** (`Experience.tsx`). It has a category filter and a
  card index. The index auto-advances every 3000 ms in "Leadership". A manual
  pick pauses it, and a 5000 ms timeout resumes it. Prev/next arrows wrap
  around. The stacked cards are placed in layers.
- **Typewriter header.** Experience, Projects and Skills share it. It stays
  inert until the section is in view. After an 800 ms delay, an interval
  shows ever longer prefixes of the header text. At the end the interval
  stops and the cursor is hidden. There is one model (module `Typewriter`),
  and each section instantiates it with its own text and period.
- **Active-section tracking and the next-section button** (`FloatingToolkit.tsx`,
  `Navigation.tsx`). Each section element that exists gets an intersection
  observer. An observer marks its id active only when one of its entries
  intersects. "Next section" walks the six ids and wraps from "contact" back
  to "home". The navigation bar also has a "scrolled" flag (`scrollY > 50`)
  and highlights one item.
- **Project filter** (`Projects.tsx`). "all", "featured", or anything else
  (the others).

Browser inputs are parameters of the model. These are the window size, the
OS dark flag, the storage slot, the set of ids whose elements exist, each
observer callback's `isIntersecting` flags, the scroll position and the
toolkit's bounding rectangle. Timers are modelled as discrete events: a
timeout firing, or an interval tick.

Modules:
- `Wrappers` holds `Option`.
- `Seqs` holds `indexOf` and `filter`.
- `ThemeHook`, `Viewport`, `Typewriter`, `Sections` (the tracking that
  Navigation and FloatingToolkit both run), `Experience`, `FloatingToolkit`,
  `Navigation`, `Projects` and `Skills` each model their part of the site.

Code followed over the type declarations:
- The hook reads storage with `localStorage.getItem("theme") as Theme`, a cast
  that checks nothing. So a stored string other than the three names becomes
  the preference verbatim. The model carries it as `Theme.Other(name)`.
  `Resolve` passes it through, so `resolvedTheme` can hold it even though its
  declared type is only "light" | "dark". The document then shows light,
  because only "dark" adds the class. The cycle sends such a value to "light",
  since its `indexOf` is -1.
- An empty stored string is falsy, so it reads as "system".
- The persist effect writes the literal "system" when that is the preference.
- React does not re-run an effect when a state setter gets the value the
  state already has. So `SetTheme` and `SelectCategory` with the current
  value change nothing.

## Model

| member | source | states |
|---|---|---|
| Seqs.IndexOf | src/components/FloatingToolkit.tsx:84 | `indexOf` is -1 exactly when the id is absent; otherwise it is the first position holding it |
| Seqs.FilterMembers | src/components/Experience.tsx:322 | `filter` keeps exactly the elements satisfying the predicate, as a subsequence in original order |
| ThemeHook.Parse | src/hooks/use-theme.ts:49 | a missing or empty slot reads as "system"; any other stored string is taken as the preference, with its name unchanged |
| ThemeHook.ParseName | src/hooks/use-theme.ts:67-72 | reading back the name the persist effect wrote gives the same preference |
| ThemeHook.Resolve | src/hooks/use-theme.ts:13-18 | the resolution is never "system"; it is dark iff the preference is dark, or is "system" with the OS flag dark; light likewise; a non-system preference resolves to itself |
| ThemeHook.ResolveStable | src/hooks/use-theme.ts:13-18 | a resolved theme does not depend on the OS flag any more, and neither does a non-system preference |
| ThemeHook.NextTheme | src/hooks/use-theme.ts:35-42 | the next preference is always one of light, dark, system |
| ThemeHook.CycleOrder | src/hooks/use-theme.ts:36-39 | light → dark → system → light, and a value outside the list (index -1) goes to light |
| ThemeHook.CycleThrice | src/hooks/use-theme.ts:35-42 | three cycles return to the starting preference |
| ThemeHook.ThemeController.constructor | src/hooks/use-theme.ts:8-10 | before mount: preference "system", resolved "light", not mounted; storage and document untouched |
| ThemeHook.ThemeController.ApplyTheme | src/hooks/use-theme.ts:21-32 | the resolved theme is recorded, the document has the "dark" class iff it is dark, and the colour scheme is "dark" or "light" to match |
| ThemeHook.ThemeController.PersistEffect | src/hooks/use-theme.ts:67-72 | once mounted, the preference is applied and stored under its name, including the literal "system"; before mount nothing changes |
| ThemeHook.ThemeController.Mount | src/hooks/use-theme.ts:45-51 | the preference becomes the stored value (or "system"), it is applied, and storage then holds its name; the controller invariant holds |
| ThemeHook.ThemeController.SetTheme | src/hooks/use-theme.ts:67-72 | the new preference is kept; once mounted it is applied and persisted, before mount storage and document are unchanged |
| ThemeHook.ThemeController.CycleTheme | src/hooks/use-theme.ts:35-42 | returns and sets the next preference of the cycle; once mounted it is persisted, before mount storage, resolved theme and document are unchanged |
| ThemeHook.ThemeController.SystemThemeChange | src/hooks/use-theme.ts:54-62 | an OS change re-applies only when mounted and storage reads "system"; otherwise the resolved theme and document are unchanged; preference and storage never change |
| Viewport.Measure | src/hooks/useViewportSection.ts:17-27 | width and height are stored as read |
| Viewport.MeasureExactlyOne | src/hooks/useViewportSection.ts:23-26 | after an update exactly one flag is set, the one of the width's class |
| Viewport.Boundaries | src/hooks/useViewportSection.ts:23-26 | 639 mobile, 640 tablet, 1023 tablet, 1024 desktop, 1279 desktop, 1280 large |
| Viewport.ViewportTracker.constructor | src/hooks/useViewportSection.ts:6-13 | the record starts at zero size with all flags off |
| Viewport.ViewportTracker.UpdateDimensions | src/hooks/useViewportSection.ts:16-28 | the record is replaced by the measurement, and each flag is set iff its class is the width's |
| Viewport.GettersFollowClass | src/hooks/useViewportSection.ts:48-74 | after an update the four getters give the token row of the width's class; a full-height section is "min-h-screen" for every class |
| Viewport.HeightIrrelevant | src/hooks/useViewportSection.ts:48-74 | the tokens depend on the width only |
| Viewport.InitialIsLarge | src/hooks/useViewportSection.ts:48-74 | before the first update no flag is set and every getter gives the large row |
| Typewriter.EnterView | src/components/Experience.tsx:265-266 | the view flag comes on; a second entry changes nothing; from inert the delay starts, and the shown text is kept |
| Typewriter.DelayElapsed | src/components/Experience.tsx:268-270 | after the delay the cursor shows and the interval starts at index 0 |
| Typewriter.Tick | src/components/Experience.tsx:271-279 | while index ≤ length, the shown text becomes the first index characters and the index advances; after that the reveal finishes with the cursor hidden and the text kept |
| Typewriter.TickConsistent | src/components/Experience.tsx:271-279 | a tick keeps the shown text the prefix the last tick wrote, and only extends it |
| Typewriter.TicksGrow | src/components/Experience.tsx:271-279 | over any number of ticks the shown text is a prefix of the header text and never shrinks |
| Typewriter.RevealCompletes | src/components/Experience.tsx:271-279 | from index i, length + 2 − i ticks finish the reveal with the whole text shown and the cursor hidden |
| Typewriter.FinishedIsFinal | src/components/Experience.tsx:276-277 | once finished, no tick and no view entry changes the state |
| Typewriter.InertBeforeView | src/components/Experience.tsx:266 | out of view nothing happens: the text stays "" and the cursor hidden |
| Typewriter.Step | src/components/Experience.tsx:265-283 | any view, timeout or interval event keeps the header consistent: the shown text is the prefix the last tick wrote, and the cursor shows only while typing; a timer event with no timer pending does nothing |
| Typewriter.RunGrows | src/components/Experience.tsx:271-279 | over any interleaving of events the shown text only extends |
| Typewriter.NothingBeforeView | src/components/Experience.tsx:265-266 | from the first render, no run of timer events without the view hook firing changes anything |
| Typewriter.Reveal.OnTick | src/components/Experience.tsx:271-279 | an interval tick moves the header's state as `Tick` does, keeps it consistent, and never shortens the shown text |
| Sections.NextSection | src/components/FloatingToolkit.tsx:84-86 | the next section is one of the six ids, and an active id outside the list leads to "home" |
| Sections.NextInWraps | src/components/FloatingToolkit.tsx:84-86 | in a list of distinct ids the next of the i-th is the one at (i + 1) mod n |
| Sections.NextSectionWraps | src/components/FloatingToolkit.tsx:84-86 | the next of `sections[i]` is `sections[(i+1) mod 6]`, so "contact" wraps to "home" |
| Sections.NextSixTimes | src/components/FloatingToolkit.tsx:84-86 | six presses return to the starting section |
| Sections.BuildObservers | src/components/FloatingToolkit.tsx:62-76 | one observer per id whose element exists, in list order; every id with an element gets one and no other id does |
| Sections.LastIntersectingWins | src/components/Navigation.tsx:35-39 | after a run of callbacks the active id is the id of the last one with an intersecting entry, or unchanged if none had one |
| Sections.AboutThenExperience | src/components/Navigation.tsx:35-39 | "about" intersecting and then "experience" leaves "experience" active |
| Sections.SectionTracker.constructor | src/components/FloatingToolkit.tsx:15 | the active section starts at "home", with no observers |
| Sections.SectionTracker.Observe | src/components/FloatingToolkit.tsx:53-76 | the mount effect's observers are the existing section ids in order, and the active id stays one of the six |
| Sections.SectionTracker.Disconnect | src/components/FloatingToolkit.tsx:78-80 | the effect's cleanup leaves no live observer |
| Sections.SectionTracker.OnEntries | src/components/FloatingToolkit.tsx:66-70 | an observer's callback makes its own id active iff some entry intersects, else the active id is unchanged; it stays one of the six |
| Experience.FilteredMembers | src/components/Experience.tsx:322 | the filter keeps exactly the entries of the chosen category, in table order |
| Experience.FilteredSizes | src/components/Experience.tsx:15-102 | "Leadership" has three entries, "Tech" and "Engineering" one each |
| Experience.AdvanceIndex | src/components/Experience.tsx:300 | the auto-advance step stays below the filtered length |
| Experience.PrevArrow | src/components/Experience.tsx:507 | the left arrow keeps the index in [0, length) |
| Experience.NextArrow | src/components/Experience.tsx:517 | the right arrow keeps the index in [0, length) |
| Experience.ArrowsInverse | src/components/Experience.tsx:505-519 | the arrows undo each other |
| Experience.NextArrowIsAdvance | src/components/Experience.tsx:517 | the right arrow moves exactly as an auto-advance tick does |
| Experience.Carousel.constructor | src/components/Experience.tsx:259-261 | starts in "Leadership" at card 0 with auto-advance on and no pending timers |
| Experience.Carousel.SelectCategory | src/components/Experience.tsx:286-289 | a change of category resets the index to 0 and turns auto-advance on iff it is "Leadership"; reselecting the current category changes nothing |
| Experience.Carousel.AutoAdvance | src/components/Experience.tsx:298-303 | a tick sets the index to (index + 1) mod the filtered length, keeping it in range |
| Experience.NoIntervalCases | src/components/Experience.tsx:293-296 | no interval runs outside "Leadership", with auto-advance off, or with at most one card |
| Experience.Carousel.ManualCardChange | src/components/Experience.tsx:309-319 | callable only where the stacked cards and arrows are rendered (other than one card); the index is the chosen one, auto-advance and the interval stop, and a resume timer holding the current category joins the pending ones, none cancelled |
| Experience.Carousel.ResumeFires | src/components/Experience.tsx:314-318 | the oldest resume timer turns auto-advance on only if its captured category was "Leadership"; nothing else changes |
| Experience.Carousel.PrevArrowClick | src/components/Experience.tsx:505-509 | the left arrow selects the previous card (0 wraps to the last) and pauses like a manual pick |
| Experience.Carousel.NextArrowClick | src/components/Experience.tsx:515-519 | the right arrow selects the next card (the last wraps to 0) and pauses like a manual pick |
| Experience.CardPlacement | src/components/Experience.tsx:429-473 | the if-chain over `let` variables gives the placement of the card's depth and side |
| Experience.LayoutLayers | src/components/Experience.tsx:442-473 | the active card is z-30, distance 1 is z-20 shifted ±180 px, further cards z-10 shifted ±280 px; the shift is negative iff the card is before the selected one |
| Experience.LayoutMirror | src/components/Experience.tsx:449-466 | a card k places before the selection is the mirror image of the card k places after it |
| Experience.LayoutDepthOrder | src/components/Experience.tsx:473 | a card further from the selection is never on a higher layer, and only the active card is on top |
| Experience.HeaderRevealCompletes | src/components/Experience.tsx:263-283 | this header's reveal ends with all of its text shown |
| FloatingToolkit.TooltipPosition | src/components/FloatingToolkit.tsx:34-47 | with no element or a zero window width the tooltip is on the right |
| FloatingToolkit.TooltipByDoubling | src/components/FloatingToolkit.tsx:38-44 | otherwise it is on the left iff the toolkit's centre is beyond half the screen width |
| FloatingToolkit.TooltipMonotone | src/components/FloatingToolkit.tsx:38-44 | moving the toolkit right never brings the tooltip back to the right-hand side |
| FloatingToolkit.Toolkit.constructor | src/components/FloatingToolkit.tsx:14-16 | the toolkit starts closed, with window size 0×0, active section "home" and no observers |
| FloatingToolkit.Toolkit.TooltipSide | src/components/FloatingToolkit.tsx:148 | the render-time side is `TooltipPosition` of the current rectangle and the stored window width, "right" while the width is 0 |
| FloatingToolkit.Toolkit.UpdateWindowSize | src/components/FloatingToolkit.tsx:21-26 | the stored window size is the one read |
| FloatingToolkit.Toolkit.Toggle | src/components/FloatingToolkit.tsx:94-96 | the menu flips between open and closed |
| FloatingToolkit.ToggleTwice | src/components/FloatingToolkit.tsx:94-96 | toggling twice restores the menu |
| FloatingToolkit.Toolkit.ScrollToNextSection | src/components/FloatingToolkit.tsx:83-92 | scrolls to the section after the active one iff its element exists, and changes no state |
| Navigation.NavigationBar.constructor | src/components/Navigation.tsx:8-9 | the bar starts unscrolled, with active section "home" and no observers |
| Navigation.IsScrolled | src/components/Navigation.tsx:12-14 | "scrolled" is true iff the scroll position exceeds 50 |
| Navigation.NavigationBar.OnScroll | src/components/Navigation.tsx:12-14 | the scroll listener sets the flag from the threshold |
| Navigation.NavItemIds | src/components/Navigation.tsx:60-67 | the rendered items carry the six observed ids in the same order |
| Navigation.OneHighlighted | src/components/Navigation.tsx:94-99 | at most one item is highlighted; with the active id among the sections, the item at its position is |
| Navigation.NavigationBar.ScrollToSection | src/components/Navigation.tsx:52-58 | scrolls to the clicked section only if its element exists, and never changes the active section |
| Projects.FilterProjects | src/components/Projects.tsx:103-107 | "all" returns the list unchanged, and no filter lengthens it |
| Projects.FilterSelects | src/components/Projects.tsx:105-107 | "featured" gives exactly the featured projects, any other value exactly the others, each in original order |
| Projects.FeaturedOtherPartition | src/components/Projects.tsx:105-107 | the featured and other results are disjoint and together make up the list |
| Projects.PageCounts | src/components/Projects.tsx:10-77 | the initial filter "all" shows all six; two are featured and four are other |
| Projects.HeaderRevealCompletes | src/components/Projects.tsx:83-101 | this header's reveal ends with all of its text shown |
| Skills.LevelsArePercentages | src/components/Skills.tsx:20-83 | every skill level lies in 0..100, as the bar width needs |
| Skills.HeaderRevealCompletes | src/components/Skills.tsx:93-111 | this header's reveal ends with all of its text shown |

## Left out

- Markup, Tailwind class strings and framer-motion props are presentation.
  The exception is the viewport tokens, which the getters return as data.
- Float-valued card styling is left out: scale, opacity and hover scale, and
  the Skills transition delays. `Placement` keeps only the integer parts of
  the transform.
- Browser APIs are parameters, not implementations. This covers
  intersection geometry and `rootMargin`, `matchMedia`, `localStorage`
  (as an `Option<string>` slot; a storage exception is not modelled),
  `innerWidth`/`innerHeight`, and `getBoundingClientRect` (as an optional
  left/width pair).
- `scrollIntoView` is not performed. It is represented by the returned target.
- Wall-clock time is left out. Each timer firing is one method call or
  `Typewriter.Event`. The periods (`Experience.AdvancePeriodMs`,
  `ResumeDelayMs`, `TypeDelayMs`, `TypePeriodMs`, the `Typewriter.Reveal`
  fields `delayMs` and `periodMs`, and `Viewport.OrientationDelayMs`) are
  recorded as documentation only: no contract reads them. The order of
  separate timers is not modelled, beyond the resume timers firing oldest
  first.
- Teardown is modelled only for the section observers
  (`Sections.SectionTracker.Disconnect`). The rest is not modelled, and the
  code does not give these guarantees, so none is claimed:
  - the typewriter cleanup clears only the outer timeout, not the interval;
  - the orientationchange closure is never removed;
  - resume timers from repeated clicks stack up: `pendingResumes` keeps them
    all;
  - the theme hook's media-query listener removal.
- `Typewriter.Reveal.OnInView`, `OnDelayElapsed` and the per-section
  `HeaderReveal` methods change state with `old`/`fresh` contracts. They
  are tied to `EnterView`, `DelayElapsed` and the constructor, whose
  properties are the rows above.
- `src/lib/utils.ts`, the theme toggle button, Hero, Footer, About and
  SectionLayout are not part of this model. They are presentation or thin
  wrappers.
- The toolkit's other buttons only log to the console and are not modelled.
- Descriptive fields of experiences and projects are not modelled: titles,
  descriptions, tags, links and images. The logic reads only the category,
  `featured` and `id`. Skill names are kept.
- Header texts are Dafny strings, which count Unicode scalar values, while
  JavaScript's `length` and `slice` count UTF-16 code units. All three
  header texts are ASCII, where the two agree.
- The document's state before mount (dark class, colour scheme) is taken as
  constructor parameters.
