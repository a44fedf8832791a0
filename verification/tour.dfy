/** The first-run onboarding tour: a five-step walkthrough with a step
    counter, Next / Skip buttons, keyboard shortcuts, progress dots, and a
    tooltip placed next to the highlighted element and kept inside the
    window.

    `isOpen` is owned by the parent; the tour "closes" by calling `onClose`,
    modelled here as clearing `isOpen`. The `onboarding_completed` entry in
    local storage is the boolean `completed`. */
module Tour {
  import opened Common

  datatype Side = Below | Above | RightOf | LeftOf

  datatype Align = Center | LeftEdge | RightEdge

  datatype TourStep = TourStep(id: int, target: string, heading: string, description: string, side: Side, align: Align)

  /** The five steps, in order. */
  const Steps: seq<TourStep> := [
    TourStep(1, "[data-tour=\"health-overview\"]", "Real-time Metrics",
      "These cards show live system metrics updated every 2 seconds via WebSocket.", Below, Center),
    TourStep(2, "[data-tour=\"status-badge\"]", "System Health",
      "This badge shows overall system health status at a glance.", Below, RightEdge),
    TourStep(3, "[data-tour=\"recent-alerts\"]", "Alert Details",
      "Click any alert to see AI-powered analysis and recommendations.", RightOf, Center),
    TourStep(4, "[data-tour=\"services-section\"]", "Service Monitoring",
      "Monitor uptime and health of all your services in real-time.", Above, Center),
    TourStep(5, "[data-tour=\"connection-indicator\"]", "Live Updates",
      "Green dot means you're receiving live updates from your systems.", Below, RightEdge)
  ]

  /** The number of entries in the table (see `StepLookup`). */
  const StepCount: int := 5

  /** `tourSteps.find(step => step.id === id)`: the first step with that id. */
  function FindStep(steps: seq<TourStep>, id: int): (r: Option<TourStep>)
    ensures r.Some? ==> r.value in steps && r.value.id == id
    ensures r.None? <==> forall k :: 0 <= k < |steps| ==> steps[k].id != id
    decreases |steps|
  {
    if |steps| == 0 then None
    else if steps[0].id == id then Some(steps[0])
    else FindStep(steps[1..], id)
  }

  /** The table's ids are 1 to 5 in order, so the lookup succeeds exactly for
      the steps in range and returns the step at that position. */
  lemma StepLookup(step: int)
    ensures 1 <= step <= StepCount ==> FindStep(Steps, step) == Some(Steps[step - 1])
    ensures !(1 <= step <= StepCount) ==> FindStep(Steps, step) == None
    ensures |Steps| == StepCount
  {
    TableNumbered();
    FindNumbered(Steps, 1, step);
  }

  /** The table holds five entries numbered 1 to 5 in order. */
  lemma TableNumbered()
    ensures |Steps| == StepCount
    ensures forall k :: 0 <= k < |Steps| ==> Steps[k].id == k + 1
  {
  }

  /** In a table numbered consecutively from `first`, the lookup finds the
      entry at position `id - first`, or nothing outside the numbering. */
  lemma {:induction false} FindNumbered(steps: seq<TourStep>, first: int, id: int)
    requires forall k :: 0 <= k < |steps| ==> steps[k].id == first + k
    ensures first <= id < first + |steps| ==> FindStep(steps, id) == Some(steps[id - first])
    ensures !(first <= id < first + |steps|) ==> FindStep(steps, id) == None
    decreases |steps|
  {
    if |steps| > 0 && id != first {
      FindNumbered(steps[1..], first + 1, id);
    }
  }

  datatype TourState = TourState(step: int, isOpen: bool, completed: bool)

  /** The step invariant: the step names an entry of the table. */
  predicate Valid(s: TourState)
  {
    1 <= s.step <= StepCount
  }

  /** A freshly mounted tour shows step 1; the flag is whatever storage held. */
  function Mount(isOpen: bool, stored: bool): (s: TourState)
    ensures Valid(s) && s.step == 1
  {
    TourState(1, isOpen, stored)
  }

  /** `handleSkip` and `handleComplete`: write the flag and close. */
  function Finish(s: TourState): (t: TourState)
    ensures t.completed && !t.isOpen && t.step == s.step
  {
    s.(completed := true, isOpen := false)
  }

  /** `handleNext`: advance, or finish on the last step. */
  function Next(s: TourState): (t: TourState)
    ensures s.step < StepCount ==> t == s.(step := s.step + 1)
    ensures s.step >= StepCount ==> t == Finish(s)
  {
    if s.step < StepCount then s.(step := s.step + 1) else Finish(s)
  }

  /** The window keydown handler. */
  function KeyDown(s: TourState, key: string): (t: TourState)
    ensures !s.isOpen ==> t == s
    ensures s.isOpen && key == "Escape" ==> t == Finish(s)
    ensures s.isOpen && key == "ArrowRight" ==> t == Next(s)
    ensures s.isOpen && key == "ArrowLeft" ==> t == (if s.step > 1 then s.(step := s.step - 1) else s)
    ensures key != "Escape" && key != "ArrowRight" && key != "ArrowLeft" ==> t == s
    ensures t.step != s.step ==> s.isOpen && (key == "ArrowRight" || key == "ArrowLeft")
  {
    if !s.isOpen then s
    else if key == "Escape" then Finish(s)
    else if key == "ArrowRight" then Next(s)
    else if key == "ArrowLeft" && s.step > 1 then s.(step := s.step - 1)
    else s
  }

  /** Everything the user can do: click Next, click either skip control
      (the close icon or "Skip Tour"), or press a key. */
  datatype Event = NextClick | SkipClick | Key(key: string)

  /** The component draws nothing unless it is open and the lookup of the
      current step succeeds; by `StepLookup` the second condition is
      "the step is in 1..5". */
  predicate Rendered(s: TourState)
  {
    s.isOpen && 1 <= s.step <= StepCount
  }

  lemma RenderedMeansFound(s: TourState)
    ensures Rendered(s) <==> s.isOpen && FindStep(Steps, s.step).Some?
  {
    StepLookup(s.step);
  }

  /** One event. Keys reach the window listener whatever is drawn; the two
      buttons exist only while the tooltip is drawn. */
  function Step(s: TourState, e: Event): (t: TourState)
    ensures !s.isOpen ==> t == s
    ensures e.Key? ==> t == KeyDown(s, e.key)
    ensures !e.Key? && !Rendered(s) ==> t == s
    ensures e.NextClick? && Rendered(s) && s.step < StepCount ==> t == s.(step := s.step + 1)
    ensures e.NextClick? && Rendered(s) && s.step == StepCount ==> t.completed && !t.isOpen && t.step == s.step
    ensures e.SkipClick? && Rendered(s) ==> t.completed && !t.isOpen && t.step == s.step
  {
    match e
    case Key(k) => KeyDown(s, k)
    case NextClick => if Rendered(s) then Next(s) else s
    case SkipClick => if Rendered(s) then Finish(s) else s
  }

  function Run(s: TourState, events: seq<Event>): TourState
    decreases |events|
  {
    if |events| == 0 then s else Run(Step(s, events[0]), events[1..])
  }

  /** Every single transition keeps the step within 1..5. */
  lemma StepPreservesValid(s: TourState, e: Event)
    requires Valid(s)
    ensures Valid(Step(s, e))
    ensures s.completed ==> Step(s, e).completed
    ensures !s.isOpen ==> Step(s, e) == s
  {
  }

  /** Any sequence of events from a valid state keeps the step within 1..5,
      never clears the completed flag, and never reopens the tour. */
  lemma {:induction false} RunPreservesValid(s: TourState, events: seq<Event>)
    requires Valid(s)
    ensures Valid(Run(s, events))
    ensures s.completed ==> Run(s, events).completed
    ensures !s.isOpen ==> Run(s, events) == s
    decreases |events|
  {
    if |events| > 0 {
      StepPreservesValid(s, events[0]);
      RunPreservesValid(Step(s, events[0]), events[1..]);
    }
  }

  /** While the last step is not passed, pressing Next `k` times advances the
      step by `k` and keeps the tour open. */
  lemma {:induction false} NextWalk(s: TourState, k: nat)
    requires Valid(s) && s.isOpen && s.step + k <= StepCount
    ensures Run(s, seq(k, _ => NextClick)) == s.(step := s.step + k)
    decreases k
  {
    if k > 0 {
      assert Step(s, NextClick) == s.(step := s.step + 1);
      assert seq(k, _ => NextClick)[1..] == seq(k - 1, _ => NextClick);
      NextWalk(s.(step := s.step + 1), k - 1);
    }
  }

  /** From a fresh open tour, four Next presses reach step 5 and the fifth
      finishes the tour. */
  lemma TourCompletesAfterFiveNexts(stored: bool)
    ensures var t := Run(Mount(true, stored), seq(StepCount, _ => NextClick));
      t.completed && !t.isOpen && t.step == StepCount
  {
    var s := Mount(true, stored);
    NextWalk(s, StepCount - 1);
    var events := seq(StepCount, _ => NextClick);
    assert events == seq(StepCount - 1, _ => NextClick) + [NextClick];
    RunAppend(s, seq(StepCount - 1, _ => NextClick), [NextClick]);
  }

  lemma {:induction false} RunAppend(s: TourState, a: seq<Event>, b: seq<Event>)
    ensures Run(s, a + b) == Run(Run(s, a), b)
    decreases |a|
  {
    if |a| > 0 {
      assert (a + b)[1..] == a[1..] + b;
      RunAppend(Step(s, a[0]), a[1..], b);
    } else {
      assert a + b == b;
    }
  }

  predicate IsLastStep(s: TourState)
  {
    s.step == StepCount
  }

  /** The primary button's caption. */
  function PrimaryLabel(s: TourState): (caption: string)
    ensures caption == "Done" <==> IsLastStep(s)
    ensures caption == "Done" || caption == "Next"
  {
    if IsLastStep(s) then "Done" else "Next"
  }

  /** On a valid state, the "Done" caption appears exactly when Next would
      finish the tour rather than advance it. */
  lemma DoneMeansNextFinishes(s: TourState)
    requires Valid(s)
    ensures PrimaryLabel(s) == "Done" <==> Next(s) == Finish(s)
  {
  }

  datatype Dot = Current | Done | Upcoming

  /** The style class of the dot for step `id` while `step` is shown. */
  function DotOf(id: int, step: int): (d: Dot)
    ensures d == Current <==> id == step
    ensures d == Done <==> id < step
    ensures d == Upcoming <==> step < id
  {
    if id == step then Current else if id < step then Done else Upcoming
  }

  /** One dot per table entry, classified by the entry's id. */
  function Dots(step: int): (ds: seq<Dot>)
    ensures |ds| == StepCount
    ensures forall k :: 0 <= k < |ds| ==> ds[k] == DotOf(k + 1, step)
  {
    TableNumbered();
    seq(|Steps|, k requires 0 <= k < |Steps| => DotOf(Steps[k].id, step))
  }

  function Count(ds: seq<Dot>, d: Dot): nat
    decreases |ds|
  {
    if |ds| == 0 then 0 else Count(ds[..|ds| - 1], d) + (if ds[|ds| - 1] == d then 1 else 0)
  }

  /** Dots for ids 1..m. */
  function DotsUpTo(m: nat, step: int): (ds: seq<Dot>)
    ensures |ds| == m
    ensures forall k :: 0 <= k < m ==> ds[k] == DotOf(k + 1, step)
    decreases m
  {
    if m == 0 then [] else DotsUpTo(m - 1, step) + [DotOf(m, step)]
  }

  lemma {:induction false} DotsUpToCounts(m: nat, step: int)
    requires 1 <= step
    ensures Count(DotsUpTo(m, step), Current) == (if step <= m then 1 else 0)
    ensures Count(DotsUpTo(m, step), Done) == (if step - 1 <= m then step - 1 else m)
    ensures Count(DotsUpTo(m, step), Upcoming) == (if step <= m then m - step else 0)
    decreases m
  {
    if m > 0 {
      DotsUpToCounts(m - 1, step);
      var ds := DotsUpTo(m, step);
      assert ds[..m - 1] == DotsUpTo(m - 1, step);
    }
  }

  /** On a valid step exactly one dot is current, the `step - 1` before it are
      done, and the rest are upcoming. */
  lemma DotCounts(step: int)
    requires 1 <= step <= StepCount
    ensures Count(Dots(step), Current) == 1
    ensures Count(Dots(step), Done) == step - 1
    ensures Count(Dots(step), Upcoming) == StepCount - step
  {
    assert Dots(step) == DotsUpTo(StepCount, step);
    DotsUpToCounts(StepCount, step);
  }

  /** The target element's bounding box, in viewport coordinates. */
  datatype Rect = Rect(top: real, left: real, right: real, bottom: real, width: real, height: real)

  datatype Position = Position(top: real, left: real)

  const TooltipWidth: real := 320.0
  const Gap: real := 16.0
  const Padding: real := 16.0
  const FallbackHeight: real := 200.0

  /** `tooltipRef.current?.offsetHeight || 200`: no element, or a height of 0,
      falls back to 200. */
  function TooltipHeight(measured: Option<real>): (h: real)
    ensures h != 0.0
    ensures measured.Some? && measured.value != 0.0 ==> h == measured.value
    ensures measured.None? || measured.value == 0.0 ==> h == FallbackHeight
  {
    if measured.Some? && measured.value != 0.0 then measured.value else FallbackHeight
  }

  /** Horizontal position of a tooltip placed above or below the target. */
  function AlignedLeft(align: Align, rect: Rect): (x: real)
    ensures align == Center ==> x + TooltipWidth / 2.0 == rect.left + rect.width / 2.0
    ensures align == RightEdge ==> x + TooltipWidth == rect.right
    ensures align == LeftEdge ==> x == rect.left
  {
    match align
    case Center => rect.left + rect.width / 2.0 - TooltipWidth / 2.0
    case RightEdge => rect.right - TooltipWidth
    case LeftEdge => rect.left
  }

  /** Where the tooltip goes before it is kept inside the window. */
  function Preferred(step: TourStep, rect: Rect, h: real): (p: Position)
    ensures step.side == Below ==> p.top - rect.bottom == Gap && p.left == AlignedLeft(step.align, rect)
    ensures step.side == Above ==> rect.top - (p.top + h) == Gap && p.left == AlignedLeft(step.align, rect)
    ensures step.side == RightOf ==> p.left - rect.right == Gap && p.top + h / 2.0 == rect.top + rect.height / 2.0
    ensures step.side == LeftOf ==> rect.left - (p.left + TooltipWidth) == Gap && p.top + h / 2.0 == rect.top + rect.height / 2.0
  {
    match step.side
    case Below => Position(rect.bottom + Gap, AlignedLeft(step.align, rect))
    case Above => Position(rect.top - h - Gap, AlignedLeft(step.align, rect))
    case RightOf => Position(rect.top + rect.height / 2.0 - h / 2.0, rect.right + Gap)
    case LeftOf => Position(rect.top + rect.height / 2.0 - h / 2.0, rect.left - TooltipWidth - Gap)
  }

  /** The pure part of `updatePositions`: place, then clamp into the window. */
  function TooltipPosition(step: TourStep, rect: Rect, measured: Option<real>, innerWidth: real, innerHeight: real): (p: Position)
    ensures p.left >= Padding && p.top >= Padding
    ensures innerWidth >= TooltipWidth + 2.0 * Padding ==> p.left <= innerWidth - TooltipWidth - Padding
    ensures innerHeight >= TooltipHeight(measured) + 2.0 * Padding ==> p.top <= innerHeight - TooltipHeight(measured) - Padding
  {
    var h := TooltipHeight(measured);
    var pref := Preferred(step, rect, h);
    Position(
      Clamp(Padding, innerHeight - h - Padding, pref.top),
      Clamp(Padding, innerWidth - TooltipWidth - Padding, pref.left))
  }

  /** Whether the preferred position already lies inside the window. */
  predicate Fits(p: Position, h: real, innerWidth: real, innerHeight: real)
  {
    Padding <= p.left <= innerWidth - TooltipWidth - Padding
    && Padding <= p.top <= innerHeight - h - Padding
  }

  /** When nothing has to be clamped, the tooltip sits where its side and
      alignment say: a centred tooltip shares the target's horizontal centre,
      a right-aligned one its right edge, and one below or above keeps a
      16-pixel gap to the target. */
  lemma PlacementWhenFits(step: TourStep, rect: Rect, measured: Option<real>, innerWidth: real, innerHeight: real)
    requires Fits(Preferred(step, rect, TooltipHeight(measured)), TooltipHeight(measured), innerWidth, innerHeight)
    ensures var p := TooltipPosition(step, rect, measured, innerWidth, innerHeight);
      var h := TooltipHeight(measured);
      && ((step.side == Below || step.side == Above) && step.align == Center ==>
            p.left + TooltipWidth / 2.0 == rect.left + rect.width / 2.0)
      && ((step.side == Below || step.side == Above) && step.align == RightEdge ==>
            p.left + TooltipWidth == rect.right)
      && (step.side == Below ==> p.top - rect.bottom == Gap)
      && (step.side == Above ==> rect.top - (p.top + h) == Gap)
      && (step.side == RightOf ==> p.left - rect.right == Gap && p.top + h / 2.0 == rect.top + rect.height / 2.0)
      && (step.side == LeftOf ==> rect.left - (p.left + TooltipWidth) == Gap)
  {
  }
}
