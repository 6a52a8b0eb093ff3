/** The typewriter header shared by the Experience, Projects and Skills
    sections: once the section has entered view, a delay timer starts an
    interval that shows ever longer prefixes of the header text, then stops
    and hides the cursor. Time is a sequence of discrete timer events. */
module Typewriter {

  /** Where the reveal is. `Typing(index)` holds the interval's `index`
      variable: the length of the prefix the next tick shows. */
  datatype Phase = Inert | Delaying | Typing(index: nat) | Finished

  /** `isInView`, the timers' progress, `displayedText` and `showCursor`. */
  datatype RevealState = RevealState(inView: bool, phase: Phase, displayed: string, cursor: bool)

  const Start := RevealState(false, Inert, "", false)

  /** The states the reveal of `text` can be in: the shown text is always
      the prefix the last tick wrote, and the cursor shows only while typing. */
  ghost predicate Consistent(s: RevealState, text: string)
  {
    match s.phase
    case Inert => !s.inView && s.displayed == "" && !s.cursor
    case Delaying => s.inView && s.displayed == "" && !s.cursor
    case Typing(i) =>
      && s.inView && s.cursor && i <= |text| + 1
      && s.displayed == text[..if i == 0 then 0 else i - 1]
    case Finished => s.inView && s.displayed == text && !s.cursor
  }

  /** `isInView` turning true. The view hook fires once, and the effect runs
      only on a change of the flag, so a second entry does nothing. */
  function EnterView(s: RevealState): (r: RevealState)
    ensures r.inView
    ensures s.inView ==> r == s
    ensures !s.inView && s.phase == Inert ==> r.phase == Delaying && r.displayed == s.displayed
  {
    if s.inView then s
    else s.(inView := true, phase := if s.phase == Inert then Delaying else s.phase)
  }

  /** The 800 ms timeout: show the cursor and start the interval at index 0. */
  function DelayElapsed(s: RevealState): (r: RevealState)
    requires s.phase == Delaying
    ensures r.cursor && r.phase == Typing(0) && r.displayed == s.displayed
  {
    s.(phase := Typing(0), cursor := true)
  }

  /** One interval tick: while `index <= |text|`, show `text[..index]` and
      advance; after that, clear the interval and hide the cursor. */
  function Tick(s: RevealState, text: string): (r: RevealState)
    requires s.phase.Typing?
    requires s.phase.index <= |text| + 1
    ensures r.inView == s.inView
    ensures s.phase.index <= |text| ==>
              r.phase == Typing(s.phase.index + 1) && r.displayed == text[..s.phase.index] && r.cursor == s.cursor
    ensures s.phase.index == |text| + 1 ==> r.phase == Finished && r.displayed == s.displayed && !r.cursor
  {
    var i := s.phase.index;
    if i <= |text| then s.(displayed := text[..i], phase := Typing(i + 1))
    else s.(phase := Finished, cursor := false)
  }

  /** Every transition keeps the state consistent, and the shown text only
      ever grows, each time by extending what was shown. */
  lemma EnterViewConsistent(s: RevealState, text: string)
    requires Consistent(s, text)
    ensures Consistent(EnterView(s), text)
    ensures EnterView(s).displayed == s.displayed
  {
  }

  lemma DelayElapsedConsistent(s: RevealState, text: string)
    requires Consistent(s, text) && s.phase == Delaying
    ensures Consistent(DelayElapsed(s), text)
  {
  }

  lemma {:induction false} TickConsistent(s: RevealState, text: string)
    requires Consistent(s, text) && s.phase.Typing?
    ensures Consistent(Tick(s, text), text)
    ensures s.displayed <= Tick(s, text).displayed
  {
    var i := s.phase.index;
    if i <= |text| {
      var j := if i == 0 then 0 else i - 1;
      assert text[..j] == text[..i][..j];
    }
  }

  /** Ticks applied `n` times. */
  function Ticks(s: RevealState, text: string, n: nat): (r: RevealState)
    requires Consistent(s, text)
    ensures Consistent(r, text)
    decreases n
  {
    if n == 0 || !s.phase.Typing? then s
    else
      TickConsistent(s, text);
      Ticks(Tick(s, text), text, n - 1)
  }

  /** However many ticks pass, the shown text only extends. */
  lemma {:induction false} TicksGrow(s: RevealState, text: string, n: nat)
    requires Consistent(s, text)
    ensures s.displayed <= Ticks(s, text, n).displayed
    ensures s.displayed <= text
    decreases n
  {
    if n > 0 && s.phase.Typing? {
      TickConsistent(s, text);
      TicksGrow(Tick(s, text), text, n - 1);
    }
  }

  /** From the first tick, `|text| + 2` ticks finish the reveal with the
      whole text shown and the cursor hidden. */
  lemma {:induction false} RevealCompletes(s: RevealState, text: string, i: nat)
    requires Consistent(s, text) && s.phase == Typing(i)
    ensures Ticks(s, text, |text| + 2 - i) == s.(phase := Finished, displayed := text, cursor := false)
    decreases |text| + 2 - i
  {
    TickConsistent(s, text);
    var s' := Tick(s, text);
    if i <= |text| {
      RevealCompletes(s', text, i + 1);
      assert s'.(phase := Finished, displayed := text, cursor := false)
          == s.(phase := Finished, displayed := text, cursor := false);
    } else {
      assert text[..|text|] == text;
    }
  }

  /** Once finished, the reveal never changes again: no timer is left, and
      entering the view again is ignored. */
  lemma FinishedIsFinal(s: RevealState, text: string, n: nat)
    requires Consistent(s, text) && s.phase == Finished
    ensures Ticks(s, text, n) == s && EnterView(s) == s
  {
  }

  /** Out of view, nothing happens however many ticks of time pass. */
  lemma InertBeforeView(s: RevealState, text: string, n: nat)
    requires Consistent(s, text) && s.phase == Inert
    ensures Ticks(s, text, n) == s && s.displayed == "" && !s.cursor
  {
  }

  /** The events that reach a header: the view hook reporting it in view,
      the delay timeout, and a tick of the interval. */
  datatype Event = ViewEntered | DelayFired | IntervalFired

  /** One event. A timer event with no such timer pending (the timeout
      before the section is in view, a tick after `clearInterval`) does
      nothing. */
  function Step(s: RevealState, text: string, e: Event): (r: RevealState)
    requires Consistent(s, text)
    ensures Consistent(r, text)
  {
    match e
    case ViewEntered =>
      EnterViewConsistent(s, text);
      EnterView(s)
    case DelayFired =>
      if s.phase == Delaying then (DelayElapsedConsistent(s, text); DelayElapsed(s)) else s
    case IntervalFired =>
      if s.phase.Typing? then (TickConsistent(s, text); Tick(s, text)) else s
  }

  /** A run of events, in order. */
  function Run(s: RevealState, text: string, events: seq<Event>): (r: RevealState)
    requires Consistent(s, text)
    ensures Consistent(r, text)
    decreases |events|
  {
    if |events| == 0 then s else Run(Step(s, text, events[0]), text, events[1..])
  }

  /** However the events interleave, the shown text only ever extends. */
  lemma {:induction false} RunGrows(s: RevealState, text: string, events: seq<Event>)
    requires Consistent(s, text)
    ensures s.displayed <= Run(s, text, events).displayed
    decreases |events|
  {
    if |events| > 0 {
      var s' := Step(s, text, events[0]);
      if events[0] == IntervalFired && s.phase.Typing? {
        TickConsistent(s, text);
      }
      RunGrows(s', text, events[1..]);
    }
  }

  /** Until the view hook fires, no timer event changes anything: the text
      stays "" and the cursor hidden. */
  lemma {:induction false} NothingBeforeView(text: string, events: seq<Event>)
    requires ViewEntered !in events
    ensures Run(Start, text, events) == Start
    decreases |events|
  {
    if |events| > 0 {
      assert events[0] in events;
      assert forall k :: 0 <= k < |events[1..]| ==> events[1..][k] == events[k + 1];
      NothingBeforeView(text, events[1..]);
    }
  }

  /** One mounted header: the text and the two timer periods are fixed per
      section, the state changes through the timer and view events. */
  class Reveal {
    const text: string
    const delayMs: nat
    const periodMs: nat
    var inView: bool
    var phase: Phase
    var displayedText: string
    var showCursor: bool

    function State(): RevealState
      reads this
    {
      RevealState(inView, phase, displayedText, showCursor)
    }

    ghost predicate Valid()
      reads this
    {
      Consistent(State(), text)
    }

    constructor (text: string, delayMs: nat, periodMs: nat)
      ensures Valid() && State() == Start
      ensures this.text == text && this.delayMs == delayMs && this.periodMs == periodMs
    {
      this.text := text;
      this.delayMs := delayMs;
      this.periodMs := periodMs;
      inView := false;
      phase := Inert;
      displayedText := "";
      showCursor := false;
    }

    /** The view hook reports the section in view. */
    method OnInView()
      requires Valid()
      modifies this
      ensures Valid() && State() == EnterView(old(State()))
    {
      EnterViewConsistent(State(), text);
      if !inView {
        inView := true;
        if phase == Inert {
          phase := Delaying;
        }
      }
    }

    /** The delay timer fires. */
    method OnDelayElapsed()
      requires Valid() && phase == Delaying
      modifies this
      ensures Valid() && State() == DelayElapsed(old(State()))
    {
      DelayElapsedConsistent(State(), text);
      showCursor := true;
      phase := Typing(0);
    }

    /** The interval fires. */
    method OnTick()
      requires Valid() && phase.Typing?
      modifies this
      ensures Valid() && State() == Tick(old(State()), text)
      ensures old(displayedText) <= displayedText
    {
      TickConsistent(State(), text);
      var index := phase.index;
      if index <= |text| {
        displayedText := text[..index];
        phase := Typing(index + 1);
      } else {
        phase := Finished;
        showCursor := false;
      }
    }
  }
}
