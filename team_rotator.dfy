/** The team-member carousel as the object the page holds: the cards'
    positions and the dots' selected flags are arrays rewritten in place, the
    module-level flags are fields, and every handler is a method. */
module TeamRotator {
  import opened Wrappers
  import opened Positions
  import opened Indicators
  import Autoplay

  class Rotator {
    /** data-position of each card, in card order. */
    const positions: array<int>
    /** aria-selected of each indicator dot; one dot per card. */
    const dots: array<bool>

    var autoplay: bool
    var inInitialTour: bool
    var initialStepsDone: nat
    /** The delay of the one outstanding step timer, if any. */
    var pending: Option<int>
    /** Whether the rotator element carries the `intro` class. */
    var intro: bool

    /** The control fields as one value. */
    ghost function Ctl(): Autoplay.Control
      reads this
    {
      Autoplay.Control(autoplay, inInitialTour, initialStepsDone, pending, intro)
    }

    /** Between 2 and 6 cards, one dot per card. */
    ghost predicate Shape()
      reads this
    {
      2 <= positions.Length <= Slots && dots.Length == positions.Length
    }

    /** What holds at every point: distinct positions in 1..6, dots that show the
        featured card, and the control invariant. */
    ghost predicate Consistent()
      reads this, positions, dots
    {
      && Shape()
      && WellFormed(positions[..])
      && dots[..] == Selection(positions[..])
      && Autoplay.Good(Ctl())
    }

    /** What holds between events: in addition, autoplay has its timer pending. */
    ghost predicate Valid()
      reads this, positions, dots
    {
      Consistent() && Autoplay.Settled(Ctl())
    }

    /** Start-up with cardCount cards found (at least two; later cards beyond the
        sixth are ignored): build the dots, assign positions 1..n, then pause or
        start the introduction. */
    constructor (cardCount: nat, isDesktop: bool, prefersReduce: bool)
      requires cardCount >= 2
      ensures Valid() && fresh(positions) && fresh(dots)
      ensures positions.Length == (if cardCount < Slots then cardCount else Slots)
      ensures positions[..] == Identity(positions.Length)
      ensures Ctl() == Autoplay.Initial(isDesktop, prefersReduce)
    {
      var n := if cardCount < Slots then cardCount else Slots;
      positions := new int[n];
      dots := new bool[n](k => k == 0);
      autoplay := true;
      inInitialTour := true;
      initialStepsDone := 0;
      pending := None;
      intro := false;
      new;
      if !isDesktop {
        autoplay := false;
        inInitialTour := false;
      }
      if prefersReduce {
        autoplay := false;
        inInitialTour := false;
      }
      if isDesktop && !prefersReduce {
        intro := true;
      }
      AssignPositions();
      if prefersReduce {
        autoplay := false;
        inInitialTour := false;
        Pause();
        intro := false;
      } else if isDesktop {
        Play();
      } else {
        autoplay := false;
        inInitialTour := false;
        Pause();
        intro := false;
      }
    }

    // ---- Positions ----

    /** Gives the cards positions 1..n in card order and refreshes the dots. */
    method AssignPositions()
      requires Shape()
      modifies positions, dots
      ensures positions[..] == Identity(positions.Length)
      ensures dots[..] == Selection(positions[..])
    {
      var k := 0;
      while k < positions.Length
        invariant 0 <= k <= positions.Length
        invariant forall j :: 0 <= j < k ==> positions[j] == j + 1
      {
        positions[k] := k + 1;
        k := k + 1;
      }
      assert positions[..] == Identity(positions.Length);
      UpdateDots();
    }

    /** Moves every card one slot forward, leaving the dots alone. */
    method DecrementAll()
      modifies positions
      ensures positions[..] == Forward(old(positions[..]))
    {
      var k := 0;
      while k < positions.Length
        invariant 0 <= k <= positions.Length
        invariant forall j :: 0 <= j < k ==> positions[j] == Dec(old(positions[j]))
        invariant forall j :: k <= j < positions.Length ==> positions[j] == old(positions[j])
      {
        positions[k] := Dec(positions[k]);
        k := k + 1;
      }
    }

    /** Moves every card one slot backward, leaving the dots alone. */
    method IncrementAll()
      modifies positions
      ensures positions[..] == Backward(old(positions[..]))
    {
      var k := 0;
      while k < positions.Length
        invariant 0 <= k <= positions.Length
        invariant forall j :: 0 <= j < k ==> positions[j] == Inc(old(positions[j]))
        invariant forall j :: k <= j < positions.Length ==> positions[j] == old(positions[j])
      {
        positions[k] := Inc(positions[k]);
        k := k + 1;
      }
    }

    /** The index of the first card at position 1, or -1. */
    method FindFeatured() returns (f: int)
      ensures f == FeaturedIndex(positions[..])
      ensures f == -1 || (0 <= f < positions.Length && positions[f] == 1)
    {
      f := 0;
      while f < positions.Length && positions[f] != 1
        invariant 0 <= f <= positions.Length
        invariant forall j :: 0 <= j < f ==> positions[j] != 1
      {
        f := f + 1;
      }
      if f == positions.Length {
        f := -1;
      }
    }

    /** Selects exactly the dot of the featured card, if any. */
    method UpdateDots()
      requires Shape()
      modifies dots
      ensures dots[..] == Selection(positions[..])
    {
      var featured := FindFeatured();
      var k := 0;
      while k < dots.Length
        invariant 0 <= k <= dots.Length
        invariant forall j :: 0 <= j < k ==> dots[j] == (j == featured)
      {
        dots[k] := k == featured;
        k := k + 1;
      }
    }

    /** stepForward: every position p becomes p - 1, with 1 wrapping to 6. */
    method StepForward()
      requires Consistent()
      modifies positions, dots
      ensures Consistent() && Ctl() == old(Ctl())
      ensures positions[..] == Forward(old(positions[..]))
    {
      ForwardWellFormed(positions[..]);
      DecrementAll();
      UpdateDots();
    }

    /** stepBackward: every position p becomes p + 1, with 6 wrapping to 1. */
    method StepBackward()
      requires Consistent()
      modifies positions, dots
      ensures Consistent() && Ctl() == old(Ctl())
      ensures positions[..] == Backward(old(positions[..]))
    {
      BackwardWellFormed(positions[..]);
      IncrementAll();
      UpdateDots();
    }

    /** jumpCardToFeatured: brings card i to position 1 by JumpShift increments of
        every card; nothing happens when it is already there. */
    method JumpToFeatured(i: nat)
      requires Consistent() && i < positions.Length
      modifies positions, dots
      ensures Consistent() && Ctl() == old(Ctl())
      ensures positions[..] == Jumped(old(positions[..]), i)
      ensures positions[i] == 1
    {
      JumpFeatures(positions[..], i);
      var target := positions[i];
      if target == 1 {
        return;
      }
      var shift := (Slots - target + 1) % Slots;
      var n := 0;
      while n < shift
        invariant 0 <= n <= shift
        invariant positions[..] == BackwardN(old(positions[..]), n)
      {
        IncrementAll();
        n := n + 1;
      }
      UpdateDots();
    }

    // ---- Autoplay ----

    /** scheduleNext: clears the timer and, under autoplay, arms one step after
        the delay of the current mode. */
    method ScheduleNext()
      requires Consistent()
      modifies this
      ensures Valid() && Ctl() == Autoplay.Scheduled(old(Ctl()))
      ensures pending.Some? <==> autoplay
    {
      pending := None;
      if !autoplay {
        return;
      }
      var delay := if inInitialTour then Autoplay.PauseInitial else Autoplay.PauseMain;
      pending := Some(delay);
    }

    /** pause: autoplay off, timer cleared, and the introduction ends if it was running. */
    method Pause()
      requires Consistent()
      modifies this
      ensures Valid() && Ctl() == Autoplay.Paused(old(Ctl()))
      ensures !autoplay && pending.None? && !inInitialTour && !intro
    {
      autoplay := false;
      pending := None;
      if inInitialTour {
        inInitialTour := false;
        intro := false;
      }
    }

    /** play: autoplay on and the next step scheduled. */
    method Play()
      requires Consistent()
      modifies this
      ensures Valid() && Ctl() == Autoplay.Played(old(Ctl()))
      ensures autoplay && pending == Some(Autoplay.DelayFor(inInitialTour))
    {
      autoplay := true;
      ScheduleNext();
    }

    /** The timer callback: one forward step, then either the end of the
        introduction after its sixth step or the next schedule. */
    method TimerFires()
      requires Valid() && pending.Some?
      modifies this, positions, dots
      ensures Valid() && Ctl() == Autoplay.Fired(old(Ctl()))
      ensures positions[..] == Forward(old(positions[..]))
    {
      Autoplay.FiredAdvances(Ctl());
      pending := None;
      StepForward();
      if inInitialTour {
        initialStepsDone := initialStepsDone + 1;
        if initialStepsDone >= Autoplay.IntroSteps {
          inInitialTour := false;
          intro := false;
          Pause();
          return;
        }
      }
      ScheduleNext();
    }

    /** The shared play toggle: pause when autoplaying, play otherwise. */
    method TogglePlay()
      requires Valid()
      modifies this
      ensures Valid() && Ctl() == Autoplay.Toggled(old(Ctl()))
      ensures autoplay == !old(autoplay)
      ensures inInitialTour ==> old(inInitialTour)
    {
      if autoplay {
        Pause();
      } else {
        Play();
      }
    }

    // ---- Input handlers ----

    /** The next button: pause, then one forward step. */
    method OnNext()
      requires Valid()
      modifies this, positions, dots
      ensures Valid() && Ctl() == Autoplay.Paused(old(Ctl()))
      ensures !autoplay && pending.None? && !inInitialTour
      ensures positions[..] == Forward(old(positions[..]))
    {
      Pause();
      StepForward();
    }

    /** The previous button: pause, then one backward step. */
    method OnPrev()
      requires Valid()
      modifies this, positions, dots
      ensures Valid() && Ctl() == Autoplay.Paused(old(Ctl()))
      ensures !autoplay && pending.None? && !inInitialTour
      ensures positions[..] == Backward(old(positions[..]))
    {
      Pause();
      StepBackward();
    }

    /** The play button: toggle autoplay. */
    method OnPlayButton()
      requires Valid()
      modifies this
      ensures Valid() && Ctl() == Autoplay.Toggled(old(Ctl()))
      ensures autoplay == !old(autoplay)
    {
      TogglePlay();
    }

    /** Dot i: pause, then bring card i to the featured slot. */
    method OnDot(i: nat)
      requires Valid() && i < dots.Length
      modifies this, positions, dots
      ensures Valid() && Ctl() == Autoplay.Paused(old(Ctl()))
      ensures !autoplay && pending.None? && !inInitialTour
      ensures positions[..] == Jumped(old(positions[..]), i) && positions[i] == 1
    {
      Pause();
      JumpToFeatured(i);
    }

    /** A click on card i: the featured card toggles autoplay; any other card
        pauses and is brought to the featured slot. */
    method OnCardClick(i: nat)
      requires Valid() && i < positions.Length
      modifies this, positions, dots
      ensures Valid()
      ensures old(positions[i]) == 1 ==> Ctl() == Autoplay.Toggled(old(Ctl())) && autoplay == !old(autoplay)
      ensures old(positions[i]) != 1 ==> Ctl() == Autoplay.Paused(old(Ctl()))
      ensures old(positions[i]) != 1 ==> !autoplay && pending.None? && !inInitialTour
      ensures positions[..] == Jumped(old(positions[..]), i) && positions[i] == 1
    {
      if positions[i] == 1 {
        TogglePlay();
      } else {
        Pause();
        JumpToFeatured(i);
      }
    }

    /** A key pressed inside the carousel: ArrowRight and ArrowLeft pause and
        step; Space toggles autoplay when focus is inside the carousel; any other
        key does nothing. */
    method OnKeyDown(key: string, focusInside: bool)
      requires Valid()
      modifies this, positions, dots
      ensures Valid()
      ensures key == "ArrowRight" ==> Ctl() == Autoplay.Paused(old(Ctl())) && positions[..] == Forward(old(positions[..]))
      ensures key == "ArrowLeft" ==> Ctl() == Autoplay.Paused(old(Ctl())) && positions[..] == Backward(old(positions[..]))
      ensures key == " " ==> positions[..] == old(positions[..])
      ensures key == " " && focusInside ==> Ctl() == Autoplay.Toggled(old(Ctl()))
      ensures key == " " && !focusInside ==> Ctl() == old(Ctl())
      ensures key != "ArrowRight" && key != "ArrowLeft" && key != " " ==>
        Ctl() == old(Ctl()) && positions[..] == old(positions[..])
      ensures key == "ArrowRight" || key == "ArrowLeft" ==> !autoplay && pending.None? && !inInitialTour
    {
      if key == "ArrowRight" {
        Pause();
        StepForward();
      }
      if key == "ArrowLeft" {
        Pause();
        StepBackward();
      }
      if key == " " {
        if focusInside {
          TogglePlay();
        }
      }
    }
  }

  /** The carousel's setup: with fewer than two cards nothing is set up. */
  method Mount(cardCount: nat, isDesktop: bool, prefersReduce: bool) returns (r: Option<Rotator>)
    ensures cardCount < 2 <==> r.None?
    ensures r.Some? ==> fresh(r.value) && fresh(r.value.positions) && fresh(r.value.dots) && r.value.Valid()
    ensures r.Some? ==> r.value.positions.Length == (if cardCount < Slots then cardCount else Slots)
    ensures r.Some? ==> r.value.Ctl() == Autoplay.Initial(isDesktop, prefersReduce)
    ensures r.Some? ==> r.value.positions[..] == Identity(r.value.positions.Length)
  {
    if cardCount < 2 {
      return None;
    }
    var rotator := new Rotator(cardCount, isDesktop, prefersReduce);
    r := Some(rotator);
  }
}
