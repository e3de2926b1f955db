/** The carousel's autoplay and introduction state machine, as values. The
    timer is modelled by the delay of the one outstanding timeout, with no clock:
    a pending timer either fires (Fired) or is cleared. */
module Autoplay {
  import opened Wrappers

  /** Per-step reading pause after the introduction, in milliseconds. */
  const PauseMain: int := 11000
  /** Per-step pause during the introduction round, in milliseconds. */
  const PauseInitial: int := 2000
  /** Number of automatic steps in the introduction round. */
  const IntroSteps: nat := 6

  /** The state held by the four module-level variables, plus whether the
      `intro` class is on the rotator element. */
  datatype Control = Control(
    autoplay: bool,
    inInitialTour: bool,
    initialStepsDone: nat,
    pending: Option<int>,
    intro: bool)

  /** The delay of a scheduled step in the current mode. */
  function DelayFor(inInitialTour: bool): int {
    if inInitialTour then PauseInitial else PauseMain
  }

  /** What holds at every point: a pending timer needs autoplay and has the
      delay of the current mode; the introduction runs only with autoplay, is
      marked by the `intro` class, and has fewer than six steps done. */
  predicate Good(c: Control) {
    && (c.pending.Some? ==> c.autoplay && c.pending.value == DelayFor(c.inInitialTour))
    && (c.inInitialTour ==> c.autoplay)
    && c.intro == c.inInitialTour
    && c.initialStepsDone <= IntroSteps
    && (c.inInitialTour ==> c.initialStepsDone < IntroSteps)
  }

  /** What holds between events: in addition, autoplay always has its timer pending. */
  predicate Settled(c: Control) {
    Good(c) && (c.autoplay <==> c.pending.Some?)
  }

  /** scheduleNext: clear the timer; with autoplay on, arm one for the mode's delay. */
  function Scheduled(c: Control): Control {
    var cleared := c.(pending := None);
    if !c.autoplay then cleared else cleared.(pending := Some(DelayFor(c.inInitialTour)))
  }

  /** pause: autoplay off, timer cleared, and an interrupted introduction ends. */
  function Paused(c: Control): Control {
    var stopped := c.(autoplay := false, pending := None);
    if c.inInitialTour then stopped.(inInitialTour := false, intro := false) else stopped
  }

  /** play: autoplay on, then schedule the next step. */
  function Played(c: Control): Control {
    Scheduled(c.(autoplay := true))
  }

  /** The play toggle shared by the play button, the featured card and Space. */
  function Toggled(c: Control): Control {
    if c.autoplay then Paused(c) else Played(c)
  }

  /** The timer callback's effect on the control state (it also steps the cards
      forward): count an introduction step, end the introduction after the sixth
      and pause, otherwise schedule again. */
  function Fired(c: Control): Control
    requires c.pending.Some?
  {
    var fired := c.(pending := None);
    if fired.inInitialTour then
      var counted := fired.(initialStepsDone := fired.initialStepsDone + 1);
      if counted.initialStepsDone >= IntroSteps then
        Paused(counted.(inInitialTour := false, intro := false))
      else
        Scheduled(counted)
    else
      Scheduled(fired)
  }

  /** The state after start-up. Both flags start true, a narrow viewport or a
      reduced-motion preference clears both, the `intro` class is added for a
      wide viewport without reduced motion, and the init block then pauses or plays. */
  function Initial(isDesktop: bool, prefersReduce: bool): Control {
    var start := Control(true, true, 0, None, false);
    var narrow := if !isDesktop then start.(autoplay := false, inInitialTour := false) else start;
    var reduced := if prefersReduce then narrow.(autoplay := false, inInitialTour := false) else narrow;
    var marked := reduced.(intro := isDesktop && !prefersReduce);
    if prefersReduce then
      Paused(marked.(autoplay := false, inInitialTour := false)).(intro := false)
    else if isDesktop then
      Played(marked)
    else
      Paused(marked.(autoplay := false, inInitialTour := false)).(intro := false)
  }

  /** The inputs that reach the control state. Tick is the timer firing;
      Navigate is any manual move (next, prev, a dot, a non-featured card, the
      arrow keys), which pauses; TogglePlay is the play button, a click on the
      featured card or Space with focus inside the carousel. */
  datatype Input = Tick | Navigate | TogglePlay

  /** One input. A Tick with no timer pending is no event: nothing can fire. */
  function Step(c: Control, e: Input): Control {
    match e
    case Tick => if c.pending.Some? then Fired(c) else c
    case Navigate => Paused(c)
    case TogglePlay => Toggled(c)
  }

  /** A sequence of inputs, in order. */
  function Run(c: Control, es: seq<Input>): Control
    decreases |es|
  {
    if es == [] then c else Run(Step(c, es[0]), es[1..])
  }

  /** n timer firings in a row. */
  function Ticks(c: Control, n: nat): Control {
    if n == 0 then c else Step(Ticks(c, n - 1), Tick)
  }

  // ---- One transition at a time ----

  /** scheduleNext leaves at most one timer, pending exactly when autoplay is on,
      with the delay of the current mode. */
  lemma ScheduledTimer(c: Control)
    requires Good(c)
    ensures Settled(Scheduled(c))
    ensures Scheduled(c).pending.Some? <==> c.autoplay
    ensures c.autoplay ==> Scheduled(c).pending == Some(if c.inInitialTour then 2000 else 11000)
    ensures Scheduled(c).(pending := c.pending) == c
  {
  }

  /** pause leaves autoplay off, no timer and the introduction ended for good;
      the step count is untouched. */
  lemma PausedStops(c: Control)
    requires Good(c)
    ensures Settled(Paused(c))
    ensures !Paused(c).autoplay && Paused(c).pending.None?
    ensures !Paused(c).inInitialTour && !Paused(c).intro
    ensures Paused(c).initialStepsDone == c.initialStepsDone
  {
  }

  /** play turns autoplay on with a timer for the current mode, leaving the mode alone. */
  lemma PlayedRuns(c: Control)
    requires Good(c)
    ensures Settled(Played(c))
    ensures Played(c).autoplay && Played(c).pending == Some(DelayFor(c.inInitialTour))
    ensures Played(c).inInitialTour == c.inInitialTour
    ensures Played(c).initialStepsDone == c.initialStepsDone
  {
  }

  /** The play toggle flips autoplay. */
  lemma ToggledFlips(c: Control)
    requires Settled(c)
    ensures Settled(Toggled(c))
    ensures Toggled(c).autoplay == !c.autoplay
    ensures Toggled(c).inInitialTour ==> c.inInitialTour
  {
  }

  /** A timer firing counts an introduction step when in the introduction; the
      sixth one ends the introduction, stops autoplay and leaves no timer; outside
      the introduction the state comes back unchanged, with a new 11-second timer. */
  lemma FiredAdvances(c: Control)
    requires Settled(c) && c.pending.Some?
    ensures Settled(Fired(c))
    ensures Fired(c).initialStepsDone == c.initialStepsDone + (if c.inInitialTour then 1 else 0)
    ensures Fired(c).inInitialTour ==> c.inInitialTour
    ensures c.inInitialTour && c.initialStepsDone + 1 == IntroSteps ==>
      !Fired(c).inInitialTour && !Fired(c).autoplay && Fired(c).pending.None?
    ensures c.inInitialTour && c.initialStepsDone + 1 < IntroSteps ==> Fired(c) == c.(initialStepsDone := c.initialStepsDone + 1)
    ensures !c.inInitialTour ==> Fired(c) == c && c.pending == Some(PauseMain)
  {
  }

  /** Start-up: autoplay and the introduction are both on exactly for a wide
      viewport without reduced motion, and both off otherwise. */
  lemma InitialState(isDesktop: bool, prefersReduce: bool)
    ensures Settled(Initial(isDesktop, prefersReduce))
    ensures Initial(isDesktop, prefersReduce).autoplay == (isDesktop && !prefersReduce)
    ensures Initial(isDesktop, prefersReduce).inInitialTour == (isDesktop && !prefersReduce)
    ensures Initial(isDesktop, prefersReduce) ==
      if isDesktop && !prefersReduce then Control(true, true, 0, Some(PauseInitial), true)
      else Control(false, false, 0, None, false)
  {
  }

  /** No input replaces a pending timer: after any input other than a firing,
      a timer is pending only if none was pending before. A firing re-arms only
      after its own timer has run out (Fired clears it first). */
  lemma ArmsOnlyWhenIdle(c: Control, e: Input)
    requires Settled(c)
    ensures e != Tick && Step(c, e).pending.Some? ==> c.pending.None?
    ensures e == TogglePlay && !c.autoplay ==> c.pending.None? && Step(c, e).pending.Some?
  {
  }

  // ---- Whole runs ----

  /** Every input keeps the settled invariant. */
  lemma StepSettled(c: Control, e: Input)
    requires Settled(c)
    ensures Settled(Step(c, e))
    ensures Step(c, e).inInitialTour ==> c.inInitialTour
    ensures Step(c, e).initialStepsDone >= c.initialStepsDone
    ensures !c.inInitialTour ==> Step(c, e).initialStepsDone == c.initialStepsDone
  {
    match e
    case Tick => if c.pending.Some? { FiredAdvances(c); }
    case Navigate => PausedStops(c);
    case TogglePlay => ToggledFlips(c);
  }

  /** Any run of inputs keeps the invariant: at most one timer, pending exactly
      under autoplay with the mode's delay, and at most six introduction steps. */
  lemma {:induction false} RunSettled(c: Control, es: seq<Input>)
    requires Settled(c)
    ensures Settled(Run(c, es))
    ensures Run(c, es).initialStepsDone <= IntroSteps
    decreases |es|
  {
    if es != [] {
      StepSettled(c, es[0]);
      RunSettled(Step(c, es[0]), es[1..]);
    }
  }

  /** The introduction is one-shot: once it is over, no run of inputs brings it
      back, the `intro` class stays off and no further step is counted. */
  lemma {:induction false} IntroOneShot(c: Control, es: seq<Input>)
    requires Settled(c) && !c.inInitialTour
    ensures !Run(c, es).inInitialTour && !Run(c, es).intro
    ensures Run(c, es).initialStepsDone == c.initialStepsDone
    decreases |es|
  {
    if es != [] {
      StepSettled(c, es[0]);
      IntroOneShot(Step(c, es[0]), es[1..]);
    }
  }

  /** The introduction on a wide viewport without reduced motion: for the first
      five timer firings it keeps running with 2-second steps. */
  lemma {:induction false} IntroRunning(k: nat)
    requires k < IntroSteps
    ensures Ticks(Initial(true, false), k) == Control(true, true, k, Some(PauseInitial), true)
  {
    if k > 0 {
      IntroRunning(k - 1);
    }
  }

  /** After the sixth firing the introduction is over, autoplay is off and no
      timer is pending, so no further automatic step ever happens. */
  lemma IntroEnds(m: nat)
    ensures Ticks(Initial(true, false), IntroSteps) == Control(false, false, IntroSteps, None, false)
    ensures Ticks(Initial(true, false), IntroSteps + m) == Ticks(Initial(true, false), IntroSteps)
  {
    IntroRunning(IntroSteps - 1);
    TicksIdle(Ticks(Initial(true, false), IntroSteps), m);
    TicksAdd(Initial(true, false), IntroSteps, m);
  }

  /** Pausing during the introduction, after three of its six steps, ends it at
      once: autoplay is off, no timer is pending, and the remaining steps never occur. */
  lemma PauseDuringIntro(m: nat)
    ensures Paused(Ticks(Initial(true, false), 3)) == Control(false, false, 3, None, false)
    ensures Ticks(Paused(Ticks(Initial(true, false), 3)), m) == Control(false, false, 3, None, false)
  {
    IntroRunning(3);
    TicksIdle(Paused(Ticks(Initial(true, false), 3)), m);
  }

  /** With no timer pending, timer firings change nothing. */
  lemma {:induction false} TicksIdle(c: Control, m: nat)
    requires c.pending.None?
    ensures Ticks(c, m) == c
  {
    if m > 0 {
      TicksIdle(c, m - 1);
    }
  }

  /** Firings compose. */
  lemma {:induction false} TicksAdd(c: Control, n: nat, m: nat)
    ensures Ticks(c, n + m) == Ticks(Ticks(c, n), m)
  {
    if m > 0 {
      TicksAdd(c, n, m - 1);
    }
  }
}
