/** The page's six section ids, the next-section lookup and the
    active-section tracking that both the navigation bar and the floating
    toolkit run: one intersection observer per section element found, each
    marking its own id active when an entry reports it intersecting. */
module Sections {
  import opened Wrappers
  import Seqs

  /** The section order, as both components declare it. */
  const SectionIds: seq<string> := ["home", "about", "experience", "projects", "skills", "contact"]

  const InitialSection := "home"

  lemma {:induction false} SectionIdsDistinct()
    ensures Seqs.Distinct(SectionIds)
  {
    forall i, j | 0 <= i < |SectionIds| && 0 <= j < |SectionIds| && SectionIds[i] == SectionIds[j]
      ensures i == j
    {
      assert SectionIds[i][0] == SectionIds[j][0] && |SectionIds[i]| == |SectionIds[j]|;
    }
  }

  /** `scrollToNextSection`'s index arithmetic over a list `ids`: the id
      after `active`, where an id outside the list has index -1 and so goes
      to the first. */
  function NextIn(ids: seq<string>, active: string): (r: string)
    requires |ids| > 0
    ensures r in ids
    ensures active !in ids ==> r == ids[0]
  {
    ids[(Seqs.IndexOf(ids, active) + 1) % |ids|]
  }

  /** The next section after `active` on this page. */
  function NextSection(active: string): (r: string)
    ensures r in SectionIds
    ensures active !in SectionIds ==> r == InitialSection
  {
    NextIn(SectionIds, active)
  }

  /** The position after `i` in a ring of `n` positions. */
  function Succ(i: nat, n: nat): nat
  {
    if i + 1 == n then 0 else i + 1
  }

  /** In a list of distinct ids the next of the `i`th is the one after it,
      the last wrapping around to the first: `(i + 1) mod n`. */
  lemma {:induction false} NextInWraps(ids: seq<string>, i: nat)
    requires Seqs.Distinct(ids) && i < |ids|
    ensures NextIn(ids, ids[i]) == ids[Succ(i, |ids|)]
    ensures Succ(i, |ids|) == (i + 1) % |ids|
  {
    Seqs.IndexOfDistinct(ids, i);
    SuccMod(i, |ids|);
  }

  lemma SuccMod(i: nat, n: nat)
    requires i < n
    ensures Succ(i, n) == (i + 1) % n
  {
    if i + 1 < n {
      assert (i + 1) % n == i + 1;
    } else {
      assert n % n == 0;
    }
  }

  /** On this page "contact" wraps around to "home". */
  lemma NextSectionWraps(i: nat)
    requires i < |SectionIds|
    ensures NextSection(SectionIds[i]) == SectionIds[(i + 1) % |SectionIds|]
  {
    SectionIdsDistinct();
    NextInWraps(SectionIds, i);
  }

  /** `NextIn` applied `n` times. */
  function NextN(ids: seq<string>, active: string, n: nat): string
    requires |ids| > 0
    decreases n
  {
    if n == 0 then active else NextN(ids, NextIn(ids, active), n - 1)
  }

  /** `Succ` applied `n` times. */
  function Walk(i: nat, n: nat, size: nat): nat
    decreases n
  {
    if n == 0 then i else Walk(Succ(i, size), n - 1, size)
  }

  /** `n` presses of "next section" walk `n` places round the list. */
  lemma {:induction false} NextNWalks(ids: seq<string>, i: nat, n: nat)
    requires Seqs.Distinct(ids) && i < |ids|
    ensures Walk(i, n, |ids|) < |ids|
    ensures NextN(ids, ids[i], n) == ids[Walk(i, n, |ids|)]
    decreases n
  {
    if n > 0 {
      NextInWraps(ids, i);
      NextNWalks(ids, Succ(i, |ids|), n - 1);
    }
  }

  /** Six presses come back to where they started. */
  lemma NextSixTimes(i: nat)
    requires i < |SectionIds|
    ensures NextN(SectionIds, SectionIds[i], |SectionIds|) == SectionIds[i]
  {
    SectionIdsDistinct();
    NextNWalks(SectionIds, i, |SectionIds|);
    assert Walk(i, 6, 6) == i;
  }

  /** The predicate "the element with this id exists". */
  function Exists(present: set<string>): string -> bool
  {
    id => id in present
  }

  /** The `forEach` that creates the observers: one per id, in order, whose
      element exists; missing ids are skipped. */
  method BuildObservers(ids: seq<string>, present: set<string>) returns (observers: seq<string>)
    ensures observers == Seqs.Filter(ids, Exists(present))
    ensures forall k :: 0 <= k < |observers| ==> observers[k] in ids && observers[k] in present
    ensures forall k :: 0 <= k < |ids| && ids[k] in present ==> ids[k] in observers
  {
    observers := [];
    var i := 0;
    while i < |ids|
      invariant 0 <= i <= |ids|
      invariant observers + Seqs.Filter(ids[i..], Exists(present)) == Seqs.Filter(ids, Exists(present))
    {
      assert ids[i..][1..] == ids[i + 1..];
      if ids[i] in present {
        observers := observers + [ids[i]];
      }
      i := i + 1;
    }
    assert ids[i..] == [];
    Seqs.FilterMembers(ids, Exists(present));
  }

  /** One observer callback: the active id after the observer of `id`
      reports `entries`. Only an intersecting entry marks `id` active. */
  function AfterEntries(active: string, id: string, entries: seq<bool>): string
  {
    if true in entries then id else active
  }

  /** A delivered callback: the observer's id and its entries' flags. */
  datatype Callback = Callback(id: string, entries: seq<bool>)

  /** The active id after a run of callbacks, in delivery order. */
  function ActiveAfter(active: string, callbacks: seq<Callback>): string
    decreases |callbacks|
  {
    if |callbacks| == 0 then active
    else ActiveAfter(AfterEntries(active, callbacks[0].id, callbacks[0].entries), callbacks[1..])
  }

  /** The id of the last callback that had an intersecting entry. */
  function LastIntersecting(callbacks: seq<Callback>): Option<string>
  {
    if |callbacks| == 0 then None
    else if true in callbacks[|callbacks| - 1].entries then Some(callbacks[|callbacks| - 1].id)
    else LastIntersecting(callbacks[..|callbacks| - 1])
  }

  lemma {:induction false} ActiveAfterSnoc(active: string, callbacks: seq<Callback>, c: Callback)
    ensures ActiveAfter(active, callbacks + [c]) == AfterEntries(ActiveAfter(active, callbacks), c.id, c.entries)
    decreases |callbacks|
  {
    if |callbacks| > 0 {
      assert (callbacks + [c])[1..] == callbacks[1..] + [c];
      ActiveAfterSnoc(AfterEntries(active, callbacks[0].id, callbacks[0].entries), callbacks[1..], c);
    }
  }

  /** The last intersecting callback wins; with none, the active id stays. */
  lemma {:induction false} LastIntersectingWins(active: string, callbacks: seq<Callback>)
    ensures ActiveAfter(active, callbacks) ==
              match LastIntersecting(callbacks) case Some(id) => id case None => active
    decreases |callbacks|
  {
    if |callbacks| > 0 {
      var init := callbacks[..|callbacks| - 1];
      var c := callbacks[|callbacks| - 1];
      assert callbacks == init + [c];
      ActiveAfterSnoc(active, init, c);
      LastIntersectingWins(active, init);
    }
  }

  /** "about" intersecting and then "experience": "experience" is active. */
  lemma AboutThenExperience()
    ensures ActiveAfter("home", [Callback("about", [true]), Callback("experience", [false, true])]) == "experience"
  {
  }

  /** The intersection tracking as the components hold it. */
  class SectionTracker {
    /** The `activeSection` state. */
    var activeSection: string
    /** The ids of the live observers, in creation order. */
    var observers: seq<string>

    ghost predicate Valid()
      reads this
    {
      activeSection in SectionIds && forall k :: 0 <= k < |observers| ==> observers[k] in SectionIds
    }

    constructor ()
      ensures Valid() && activeSection == InitialSection && observers == []
    {
      activeSection := InitialSection;
      observers := [];
    }

    /** The mount effect: an observer for each section element that exists. */
    method Observe(present: set<string>)
      requires Valid()
      modifies this`observers
      ensures Valid()
      ensures observers == Seqs.Filter(SectionIds, Exists(present))
    {
      observers := BuildObservers(SectionIds, present);
    }

    /** The effect's cleanup: every observer is disconnected. */
    method Disconnect()
      modifies this`observers
      ensures observers == []
    {
      observers := [];
    }

    /** The callback of observer `k`, walking its entries in order. */
    method OnEntries(k: nat, entries: seq<bool>)
      requires Valid() && k < |observers|
      modifies this`activeSection
      ensures Valid()
      ensures activeSection == AfterEntries(old(activeSection), observers[k], entries)
    {
      var i := 0;
      while i < |entries|
        invariant 0 <= i <= |entries|
        invariant activeSection == AfterEntries(old(activeSection), observers[k], entries[..i])
      {
        assert entries[..i + 1] == entries[..i] + [entries[i]];
        if entries[i] {
          activeSection := observers[k];
        }
        i := i + 1;
      }
      assert entries[..i] == entries;
    }
  }
}
