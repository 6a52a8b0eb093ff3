/** The theme hook: a light/dark/system preference, resolved against the
    operating system's dark-mode flag, reflected on the document root and
    kept in a single storage slot. */
module ThemeHook {
  import opened Wrappers
  import Seqs

  /** The preference. `Other` is a string found in storage that is none of
      the three names: the hook casts the stored string without checking it,
      so such a value is carried along verbatim. */
  datatype Theme = Light | Dark | System | Other(name: string)

  /** The string the hook writes to storage and compares against. */
  function Name(t: Theme): string
  {
    match t
    case Light => "light"
    case Dark => "dark"
    case System => "system"
    case Other(n) => n
  }

  /** The values the hook can actually hold: an `Other` never spells one of
      the three names, nor the empty string (which storage reads as absent). */
  predicate WellFormed(t: Theme)
  {
    t.Other? ==> t.name !in {"", "light", "dark", "system"}
  }

  /** The storage key. */
  const StorageKey := "theme"

  /** `(localStorage.getItem("theme") as Theme) || "system"`: a missing or
      empty slot means "system", anything else is taken as it is. */
  function Parse(stored: Option<string>): (t: Theme)
    ensures WellFormed(t)
    ensures (stored == None || stored == Some("")) ==> t == System
    ensures stored.Some? && stored.value != "" ==> Name(t) == stored.value
  {
    match stored
    case None => System
    case Some(s) =>
      if s == "" then System
      else if s == "light" then Light
      else if s == "dark" then Dark
      else if s == "system" then System
      else Other(s)
  }

  /** Reading back what was written gives the same preference. */
  lemma ParseName(t: Theme)
    requires WellFormed(t)
    ensures Parse(Some(Name(t))) == t
  {
  }

  /** `getResolvedTheme`: "system" collapses to the OS flag, every other
      preference is its own resolution. */
  function Resolve(t: Theme, osDark: bool): (r: Theme)
    ensures r != System
    ensures r == Dark <==> t == Dark || (t == System && osDark)
    ensures r == Light <==> t == Light || (t == System && !osDark)
    ensures t != System ==> r == t
  {
    if t == System then (if osDark then Dark else Light) else t
  }

  /** A resolved theme no longer depends on the OS flag. */
  lemma ResolveStable(t: Theme, osDark: bool, osDark': bool)
    ensures Resolve(Resolve(t, osDark), osDark') == Resolve(t, osDark)
    ensures t != System ==> Resolve(t, osDark') == Resolve(t, osDark)
  {
  }

  /** The order the toggle walks through. */
  const Cycle: seq<Theme> := [Light, Dark, System]

  /** `cycleTheme`'s index arithmetic: the theme after `t` in `Cycle`,
      where a theme outside the list has index -1 and so goes to "light". */
  function NextTheme(t: Theme): (r: Theme)
    ensures r in Cycle
  {
    Cycle[(Seqs.IndexOf(Cycle, t) + 1) % |Cycle|]
  }

  lemma {:induction false} CycleOrder(n: string)
    ensures NextTheme(Light) == Dark
    ensures NextTheme(Dark) == System
    ensures NextTheme(System) == Light
    ensures NextTheme(Other(n)) == Light
  {
    assert Seqs.IndexOf(Cycle, Light) == 0;
    assert Seqs.IndexOf(Cycle, Dark) == 1;
    assert Seqs.IndexOf(Cycle, System) == 2;
    assert Seqs.IndexOf(Cycle, Other(n)) == -1;
  }

  /** Three presses of the toggle return to the starting preference. */
  lemma {:induction false} CycleThrice(t: Theme)
    requires t in Cycle
    ensures NextTheme(NextTheme(NextTheme(t))) == t
  {
    CycleOrder("");
  }

  /** The theme controller: the hook's state together with the parts of the
      environment it reads and writes. */
  class ThemeController {
    /** `theme`, `mounted` and `resolvedTheme` state of the hook. */
    var theme: Theme
    var mounted: bool
    var resolvedTheme: Theme
    /** `document.documentElement`: whether it has the "dark" class, and its
        `style.colorScheme`. */
    var darkClass: bool
    var colorScheme: string
    /** The storage slot under `StorageKey`. */
    var stored: Option<string>
    /** What the `prefers-color-scheme: dark` query currently reports. */
    var osDark: bool

    /** The document shows the resolved theme `r`. */
    predicate DocumentShows(r: Theme)
      reads this
    {
      darkClass == (r == Dark) && colorScheme == (if r == Dark then "dark" else "light")
    }

    /** Once mounted, storage holds the current preference and the document
        shows its resolution against the current OS flag. */
    ghost predicate Valid()
      reads this
    {
      && WellFormed(theme)
      && resolvedTheme != System
      && (mounted ==>
            && stored == Some(Name(theme))
            && resolvedTheme == Resolve(theme, osDark)
            && DocumentShows(resolvedTheme))
    }

    /** The first render: preference "system", resolved "light", not mounted;
        storage, the OS flag and the document are as the page found them. */
    constructor (stored: Option<string>, osDark: bool, darkClass: bool, colorScheme: string)
      ensures Valid()
      ensures theme == System && resolvedTheme == Light && !mounted
      ensures this.stored == stored && this.osDark == osDark
      ensures this.darkClass == darkClass && this.colorScheme == colorScheme
    {
      theme := System;
      mounted := false;
      resolvedTheme := Light;
      this.stored := stored;
      this.osDark := osDark;
      this.darkClass := darkClass;
      this.colorScheme := colorScheme;
    }

    /** `applyTheme`: resolve, record, and add or remove the "dark" class. */
    method ApplyTheme(t: Theme)
      modifies this`resolvedTheme, this`darkClass, this`colorScheme
      ensures resolvedTheme == Resolve(t, osDark)
      ensures DocumentShows(resolvedTheme)
    {
      var resolved := Resolve(t, osDark);
      resolvedTheme := resolved;
      if resolved == Dark {
        darkClass := true;
        colorScheme := "dark";
      } else {
        darkClass := false;
        colorScheme := "light";
      }
    }

    /** The effect on `[theme, mounted]`: once mounted, apply and persist. */
    method PersistEffect()
      modifies this`resolvedTheme, this`darkClass, this`colorScheme, this`stored
      ensures mounted ==> resolvedTheme == Resolve(theme, osDark) && DocumentShows(resolvedTheme)
      ensures mounted ==> stored == Some(Name(theme))
      ensures !mounted ==> unchanged(this)
    {
      if mounted {
        ApplyTheme(theme);
        stored := Some(Name(theme));
      }
    }

    /** The mount effect, followed by the persist effect that the change of
        `mounted` triggers: the stored preference (or "system") is adopted,
        applied and written back, so an empty slot now holds "system". */
    method Mount()
      requires Valid() && !mounted
      modifies this
      ensures Valid() && mounted
      ensures theme == Parse(old(stored))
      ensures stored == Some(Name(Parse(old(stored))))
      ensures resolvedTheme == Resolve(Parse(old(stored)), osDark)
      ensures osDark == old(osDark)
    {
      mounted := true;
      var saved := Parse(stored);
      theme := saved;
      ApplyTheme(saved);
      PersistEffect();
    }

    /** `setTheme`: React re-runs the persist effect only when the value
        differs; before mounting nothing but the state changes. */
    method SetTheme(t: Theme)
      requires Valid() && WellFormed(t)
      modifies this
      ensures Valid()
      ensures theme == t && mounted == old(mounted) && osDark == old(osDark)
      ensures mounted ==> stored == Some(Name(t)) && resolvedTheme == Resolve(t, osDark)
      ensures !mounted ==> stored == old(stored) && resolvedTheme == old(resolvedTheme)
      ensures !mounted ==> darkClass == old(darkClass) && colorScheme == old(colorScheme)
    {
      if t != theme {
        theme := t;
        PersistEffect();
      }
    }

    /** `cycleTheme`: move to the next preference of the cycle. */
    method CycleTheme() returns (newTheme: Theme)
      requires Valid()
      modifies this
      ensures Valid()
      ensures newTheme == NextTheme(old(theme)) && theme == newTheme
      ensures mounted == old(mounted) && osDark == old(osDark)
      ensures mounted ==> stored == Some(Name(newTheme))
      ensures !mounted ==> stored == old(stored) && resolvedTheme == old(resolvedTheme)
      ensures !mounted ==> darkClass == old(darkClass) && colorScheme == old(colorScheme)
    {
      newTheme := NextTheme(theme);
      SetTheme(newTheme);
    }

    /** An OS dark-mode change. The handler exists only after mounting, and
        it re-applies only when storage says "system". */
    method SystemThemeChange(dark: bool)
      requires Valid()
      modifies this
      ensures Valid()
      ensures osDark == dark
      ensures theme == old(theme) && stored == old(stored) && mounted == old(mounted)
      ensures !(mounted && Parse(stored) == System) ==>
                resolvedTheme == old(resolvedTheme) && darkClass == old(darkClass) && colorScheme == old(colorScheme)
      ensures mounted && theme == System ==> resolvedTheme == (if dark then Dark else Light)
    {
      osDark := dark;
      if mounted {
        var current := Parse(stored);
        if current == System {
          ApplyTheme(current);
        }
      }
    }
  }

  /** Toggling twice from "light" with the page mounted lands on "system",
      written to storage, with the OS flag deciding the document. */
  method ToggleScenario(osDark: bool)
  {
    var c := new ThemeController(Some("light"), osDark, false, "");
    c.Mount();
    assert c.theme == Light && !c.darkClass;
    var t := c.CycleTheme();
    CycleOrder("");
    assert t == Dark && c.darkClass && c.colorScheme == "dark";
    t := c.CycleTheme();
    assert t == System && c.stored == Some("system");
    assert c.darkClass == osDark;
    c.SystemThemeChange(!osDark);
    assert c.darkClass == !osDark;
  }
}
