/** The experience section: a category filter over a fixed list of entries,
    a carousel index that auto-advances in the "Leadership" category, pauses
    on manual selection and resumes after an idle timer, the layering of the
    stacked cards, and the typewriter header. */
module Experience {
  import Seqs
  import Typewriter

  datatype Category = Tech | Engineering | Leadership

  /** An entry of the `experiences` table, with the fields the logic reads
      (the descriptive text is presentation). */
  datatype Entry = Entry(id: nat, category: Category, featured: bool)

  const Experiences: seq<Entry> := [
    Entry(1, Engineering, true),
    Entry(2, Leadership, true),
    Entry(3, Leadership, true),
    Entry(4, Leadership, false),
    Entry(5, Tech, true)
  ]

  /** The category that auto-advances, and the one selected at first. */
  const AutoCategory := Leadership

  const AdvancePeriodMs := 3000
  const ResumeDelayMs := 5000

  const HeaderText := "Leadership experience in project management, finance, and materials science research"
  const TypeDelayMs := 800
  const TypePeriodMs := 40

  function InCategory(c: Category): Entry -> bool
  {
    (e: Entry) => e.category == c
  }

  /** `experiences.filter(exp => exp.category === selectedCategory)`. */
  function Filtered(c: Category): (r: seq<Entry>)
    ensures |r| <= |Experiences|
  {
    Seqs.Filter(Experiences, InCategory(c))
  }

  /** The filter keeps exactly the entries of category `c`, in table order. */
  lemma FilteredMembers(c: Category)
    ensures forall i :: 0 <= i < |Filtered(c)| ==> Filtered(c)[i].category == c && Filtered(c)[i] in Experiences
    ensures forall i :: 0 <= i < |Experiences| && Experiences[i].category == c ==> Experiences[i] in Filtered(c)
    ensures Seqs.IsSubsequence(Filtered(c), Experiences)
  {
    Seqs.FilterMembers(Experiences, InCategory(c));
  }

  /** "Leadership" holds three entries; the other two categories one each, so
      only "Leadership" shows the stacked carousel and its arrows. */
  lemma {:induction false} FilteredSizes()
    ensures Filtered(Leadership) == Experiences[1..4] && |Filtered(Leadership)| == 3
    ensures Filtered(Tech) == [Experiences[4]] && |Filtered(Tech)| == 1
    ensures Filtered(Engineering) == [Experiences[0]] && |Filtered(Engineering)| == 1
  {
    var e := Experiences;
    assert e[4..] == [e[4]] && e[3..] == [e[3]] + e[4..] && e[2..] == [e[2]] + e[3..];
    assert e[1..] == [e[1]] + e[2..] && e == [e[0]] + e[1..];
    FilterSteps(Leadership);
    FilterSteps(Tech);
    FilterSteps(Engineering);
  }

  lemma {:induction false} FilterSteps(c: Category)
    ensures Seqs.Filter(Experiences, InCategory(c)) ==
              (if c == Engineering then [Experiences[0]] else []) +
              (if c == Leadership then Experiences[1..4] else []) +
              (if c == Tech then [Experiences[4]] else [])
  {
    var e, p := Experiences, InCategory(c);
    assert Seqs.Filter(e[5..], p) == [];
    assert e[4..][1..] == e[5..];
    assert Seqs.Filter(e[4..], p) == (if c == Tech then [e[4]] else []);
    assert e[3..][1..] == e[4..];
    assert Seqs.Filter(e[3..], p) == (if c == Leadership then [e[3]] else []) + Seqs.Filter(e[4..], p);
    assert e[2..][1..] == e[3..];
    assert Seqs.Filter(e[2..], p) == (if c == Leadership then [e[2]] else []) + Seqs.Filter(e[3..], p);
    assert e[1..][1..] == e[2..];
    assert Seqs.Filter(e[1..], p) == (if c == Leadership then [e[1]] else []) + Seqs.Filter(e[2..], p);
    assert Seqs.Filter(e, p) == (if c == Engineering then [e[0]] else []) + Seqs.Filter(e[1..], p);
    assert e[1..4] == [e[1], e[2], e[3]];
  }

  /** The interval's step `(prevIndex + 1) % length`. */
  function AdvanceIndex(i: nat, len: nat): (r: nat)
    requires len > 0
    ensures r < len
  {
    (i + 1) % len
  }

  /** The left arrow: 0 wraps round to the last card. */
  function PrevArrow(i: nat, len: nat): (r: nat)
    requires i < len
    ensures r < len
  {
    if i == 0 then len - 1 else i - 1
  }

  /** The right arrow: the last card wraps round to 0. */
  function NextArrow(i: nat, len: nat): (r: nat)
    requires i < len
    ensures r < len
  {
    if i == len - 1 then 0 else i + 1
  }

  /** The arrows undo each other. */
  lemma ArrowsInverse(i: nat, len: nat)
    requires i < len
    ensures PrevArrow(NextArrow(i, len), len) == i
    ensures NextArrow(PrevArrow(i, len), len) == i
  {
  }

  /** The right arrow moves exactly as one auto-advance tick does. */
  lemma {:induction false} NextArrowIsAdvance(i: nat, len: nat)
    requires i < len
    ensures NextArrow(i, len) == AdvanceIndex(i, len)
  {
    if i + 1 < len {
      assert (i + 1) % len == i + 1;
    } else {
      assert len % len == 0;
    }
  }

  /** The carousel state of the component. */
  class Carousel {
    var selectedCategory: Category
    var selectedCardIndex: nat
    var isAutoScrolling: bool
    /** The pending resume timeouts, oldest first, each holding the category
        its click captured. They are never cancelled and all have the same
        delay, so they fire in this order. */
    var pendingResumes: seq<Category>

    /** The index always names a card of the current category. */
    ghost predicate Valid()
      reads this
    {
      selectedCardIndex < |Filtered(selectedCategory)|
    }

    /** Whether the auto-advance effect has an interval running. */
    predicate IntervalRunning()
      reads this
    {
      selectedCategory == AutoCategory && isAutoScrolling && |Filtered(selectedCategory)| > 1
    }

    constructor ()
      ensures Valid()
      ensures selectedCategory == Leadership && selectedCardIndex == 0 && isAutoScrolling
      ensures pendingResumes == []
    {
      selectedCategory := Leadership;
      selectedCardIndex := 0;
      isAutoScrolling := true;
      pendingResumes := [];
    }

    /** A category button. React runs the reset effect only when the value
        changes: index 0, auto-advance on iff the category is "Leadership". */
    method SelectCategory(c: Category)
      requires Valid()
      modifies this
      ensures Valid()
      ensures selectedCategory == c && pendingResumes == old(pendingResumes)
      ensures c != old(selectedCategory) ==> selectedCardIndex == 0 && isAutoScrolling == (c == Leadership)
      ensures c == old(selectedCategory) ==>
                selectedCardIndex == old(selectedCardIndex) && isAutoScrolling == old(isAutoScrolling)
    {
      if c != selectedCategory {
        FilteredSizes();
        selectedCategory := c;
        selectedCardIndex := 0;
        isAutoScrolling := c == Leadership;
      }
    }

    /** A tick of the auto-advance interval, which runs only while
        `IntervalRunning()`. */
    method AutoAdvance()
      requires Valid() && IntervalRunning()
      modifies this`selectedCardIndex
      ensures Valid()
      ensures selectedCardIndex == AdvanceIndex(old(selectedCardIndex), |Filtered(selectedCategory)|)
    {
      var filtered := Filtered(selectedCategory);
      selectedCardIndex := (selectedCardIndex + 1) % |filtered|;
    }

    /** `handleManualCardChange`: select, pause, and schedule a resume that
        remembers the category of the moment of the click. Its callers (a
        card of the stack, an arrow) exist only when the category has other
        than one card; a lone card is rendered without a click handler. */
    method ManualCardChange(newIndex: nat)
      requires Valid() && newIndex < |Filtered(selectedCategory)|
      requires |Filtered(selectedCategory)| != 1
      modifies this
      ensures Valid()
      ensures selectedCardIndex == newIndex && !isAutoScrolling && !IntervalRunning()
      ensures selectedCategory == old(selectedCategory)
      ensures pendingResumes == old(pendingResumes) + [old(selectedCategory)]
    {
      selectedCardIndex := newIndex;
      isAutoScrolling := false;
      pendingResumes := pendingResumes + [selectedCategory];
    }

    /** The oldest resume timeout fires: auto-advance comes back on only if
        its captured category was "Leadership". */
    method ResumeFires()
      requires Valid() && |pendingResumes| > 0
      modifies this
      ensures Valid()
      ensures pendingResumes == old(pendingResumes[1..])
      ensures selectedCategory == old(selectedCategory) && selectedCardIndex == old(selectedCardIndex)
      ensures isAutoScrolling == (old(pendingResumes[0]) == Leadership || old(isAutoScrolling))
    {
      var captured := pendingResumes[0];
      pendingResumes := pendingResumes[1..];
      if captured == Leadership {
        isAutoScrolling := true;
      }
    }

    /** The left arrow, shown only when there is more than one card. */
    method PrevArrowClick()
      requires Valid() && |Filtered(selectedCategory)| != 1
      modifies this
      ensures Valid()
      ensures selectedCardIndex == PrevArrow(old(selectedCardIndex), |Filtered(old(selectedCategory))|)
      ensures !isAutoScrolling && selectedCategory == old(selectedCategory)
      ensures pendingResumes == old(pendingResumes) + [old(selectedCategory)]
    {
      var len := |Filtered(selectedCategory)|;
      var prevIndex := if selectedCardIndex == 0 then len - 1 else selectedCardIndex - 1;
      ManualCardChange(prevIndex);
    }

    /** The right arrow. */
    method NextArrowClick()
      requires Valid() && |Filtered(selectedCategory)| != 1
      modifies this
      ensures Valid()
      ensures selectedCardIndex == NextArrow(old(selectedCardIndex), |Filtered(old(selectedCategory))|)
      ensures !isAutoScrolling && selectedCategory == old(selectedCategory)
      ensures pendingResumes == old(pendingResumes) + [old(selectedCategory)]
    {
      var len := |Filtered(selectedCategory)|;
      var nextIndex := if selectedCardIndex == len - 1 then 0 else selectedCardIndex + 1;
      ManualCardChange(nextIndex);
    }
  }

  /** No interval runs outside "Leadership", with auto-advance off, or with
      at most one card. */
  lemma NoIntervalCases(c: Carousel)
    ensures c.selectedCategory != Leadership ==> !c.IntervalRunning()
    ensures !c.isAutoScrolling ==> !c.IntervalRunning()
    ensures |Filtered(c.selectedCategory)| <= 1 ==> !c.IntervalRunning()
  {
  }

  /** Auto-advancing through "Leadership" from the first card: three ticks
      visit the second and third cards and come back to the first. A click
      pauses it until the resume timeout fires. */
  method CarouselScenario()
  {
    FilteredSizes();
    var c := new Carousel();
    c.AutoAdvance();
    assert c.selectedCardIndex == 1;
    c.AutoAdvance();
    c.AutoAdvance();
    assert c.selectedCardIndex == 0;
    c.ManualCardChange(1);
    assert !c.IntervalRunning();
    c.ResumeFires();
    assert c.IntervalRunning() && c.selectedCardIndex == 1;
    c.SelectCategory(Tech);
    assert !c.IntervalRunning() && c.selectedCardIndex == 0;
  }

  /** The integer part of a card's transform and its stacking layer. */
  datatype Placement = Placement(
    z: int, translateX: int, translateY: int, rotateY: int, rotateZ: int, blur: int)

  /** `Math.abs(index - selectedCardIndex)`. */
  function Distance(index: nat, selected: nat): nat
  {
    if index < selected then selected - index else index - selected
  }

  /** The placement, stated by depth and side: depth 0 is the active card,
      depth 1 its neighbours, depth 2 everything further; the side is -1 for
      cards before the selected one and +1 otherwise. */
  function Layout(index: nat, selected: nat): (p: Placement)
  {
    var d := Distance(index, selected);
    var side := if index < selected then -1 else 1;
    if d == 0 then Placement(30, 0, 0, 0, 0, 0)
    else if d == 1 then Placement(20, side * 180, 30, -side * 25, side * 8, 3)
    else Placement(10, side * 280, 50 + (d - 1) * 20, -side * 35, side * 12, 3 + (d - 1) * 2)
  }

  /** The card styling loop body: `let` variables reassigned by an if-chain. */
  method CardPlacement(index: nat, selected: nat) returns (p: Placement)
    ensures p == Layout(index, selected)
  {
    var isActive := index == selected;
    var isBehind := index < selected;
    var distance := if index < selected then selected - index else index - selected;
    var translateX, translateY, rotateY, rotateZ, blur := 0, 0, 0, 0, 0;
    if isActive {
      translateX := 0;
      translateY := 0;
      blur := 0;
    } else if distance == 1 {
      translateX := if isBehind then -180 else 180;
      translateY := 30;
      blur := 3;
      rotateY := if isBehind then 25 else -25;
      rotateZ := if isBehind then -8 else 8;
    } else {
      translateX := if isBehind then -280 else 280;
      translateY := 50 + (distance - 1) * 20;
      blur := 3 + (distance - 1) * 2;
      rotateY := if isBehind then 35 else -35;
      rotateZ := if isBehind then -12 else 12;
    }
    var z := if isActive then 30 else if distance == 1 then 20 else 10;
    p := Placement(z, translateX, translateY, rotateY, rotateZ, blur);
  }

  /** Layers: the active card is z-30, its neighbours z-20 shifted 180 px,
      the rest z-10 shifted 280 px; the shift is leftward exactly for cards
      before the selected one. */
  lemma LayoutLayers(index: nat, selected: nat)
    ensures Layout(index, selected).z == 30 <==> index == selected
    ensures Layout(index, selected).z == 20 <==> Distance(index, selected) == 1
    ensures Layout(index, selected).z == 10 <==> Distance(index, selected) > 1
    ensures Layout(index, selected).translateX < 0 <==> index < selected
    ensures index != selected ==>
              Layout(index, selected).translateX == (if index < selected then -1 else 1) *
                (if Distance(index, selected) == 1 then 180 else 280)
  {
  }

  /** A card `k` places before the selection is the mirror image of the
      card `k` places after it. */
  lemma LayoutMirror(selected: nat, k: nat)
    requires 0 < k <= selected
    ensures var before, after := Layout(selected - k, selected), Layout(selected + k, selected);
      && before.z == after.z && before.translateY == after.translateY && before.blur == after.blur
      && before.translateX == -after.translateX
      && before.rotateY == -after.rotateY && before.rotateZ == -after.rotateZ
  {
  }

  /** A layer never rises as a card gets further from the selection, and the
      active card is the only one on top. */
  lemma {:induction false} LayoutDepthOrder(a: nat, b: nat, selected: nat)
    requires Distance(a, selected) <= Distance(b, selected)
    ensures Layout(a, selected).z >= Layout(b, selected).z
    ensures Layout(a, selected).z == 30 && Layout(b, selected).z == 30 ==> a == b
  {
    var da, db := Distance(a, selected), Distance(b, selected);
    assert da == 0 ==> a == selected;
    assert db == 0 ==> b == selected;
  }

  /** The header of this section. */
  method HeaderReveal() returns (r: Typewriter.Reveal)
    ensures fresh(r) && r.Valid() && r.State() == Typewriter.Start
    ensures r.text == HeaderText && r.delayMs == TypeDelayMs && r.periodMs == TypePeriodMs
  {
    r := new Typewriter.Reveal(HeaderText, TypeDelayMs, TypePeriodMs);
  }

  /** This header finishes after `|HeaderText| + 2` ticks, showing all of it. */
  lemma HeaderRevealCompletes(s: Typewriter.RevealState)
    requires Typewriter.Consistent(s, HeaderText) && s.phase == Typewriter.Typing(0)
    ensures Typewriter.Ticks(s, HeaderText, |HeaderText| + 2).displayed == HeaderText
  {
    Typewriter.RevealCompletes(s, HeaderText, 0);
  }
}
