# Team-member carousel

A model of the team rotator in `team-rotator.js`. It is a carousel of 2 to 6
team-member cards, each holding a position in 1..6; position 1 is the featured
card. Next/prev buttons, indicator dots, card clicks and the arrow keys rotate
the cards. A timer advances them automatically. On a wide viewport without a
reduced-motion preference, the carousel starts with a one-shot introduction
round of six 2-second steps, after which autoplay stops.

Files:

- `positions.dfy` (module `Positions`): the cyclic position arithmetic. It
  defines a forward step (p to p−1, 1 wraps to 6), a backward step (p to p+1,
  6 wraps to 1) and the jump to the featured slot, all as functions on
  sequences of positions. Lemmas prove that positions stay distinct in 1..6,
  that the two steps are inverses, and that the jump lands the chosen card on 1.
- `indicators.dfy` (module `Indicators`): which dot is selected, as a function
  of the positions, and the lemmas about how many dots can be selected.
- `autoplay.dfy` (module `Autoplay`): the four module-level variables and the
  `intro` class as one value, with `scheduleNext`, `pause`, `play`, the toggle
  and the timer callback as transition functions. Lemmas prove the timer
  invariant, the one-shot introduction and the start-up state.
- `team_rotator.dfy` (module `TeamRotator`): class `Rotator`. Its card
  positions and dot flags are arrays rewritten in place by loops, the flags are
  fields, and there is one method per handler. Each method is proved against
  the functions above. The handlers, `TimerFires` and `TogglePlay` keep the
  class invariant `Valid()`. `StepForward`, `StepBackward`, `JumpToFeatured`,
  `ScheduleNext`, `Pause` and `Play` keep the weaker `Consistent()`, which holds
  mid-handler (`ScheduleNext`, `Pause` and `Play` also end in `Valid()`). The
  loop helpers `DecrementAll`, `IncrementAll`, `AssignPositions`, `UpdateDots`
  and `FindFeatured` state only their effect on the arrays.
- `wrappers.dfy`: the `Option` type used for the pending timer.

The timer is the field `pending`: it holds the delay of the one outstanding
timeout, or `None`. `TimerFires` is the callback running. There is no clock.
The two media queries are the inputs `isDesktop` and `prefersReduce` of the
constructor. The Space key's focus test is the parameter `focusInside`.
The model has one timer field, so at most one timer exists by construction.
What is proved is that no input replaces a pending timer
(`Autoplay.ArmsOnlyWhenIdle`) and that a firing re-arms only after clearing
its own timer.

Two points where the carousel's intended behaviour and its code differ; the
model follows the code:

- The carousel is meant for six cards. The code keeps the first six of any
  number and runs with as few as two. With fewer than six cards, rotation moves
  the cards through all six slots, so at times no card is featured and no dot
  is selected. For every count n from 2 to 5, n forward steps from the start-up
  positions reach such a state (`Indicators.NoDotSelectedBelowSix`). "Exactly one dot
  selected" holds only with six cards (`Indicators.ExactlyOneSelectedWhenFull`).
- The comment on line 74 describes the jump as forward steps.
  The loop applies the backward (increment) rule `(6 − p + 1) % 6` times. The
  model does what the loop does. It proves that this arrangement equals the
  one p − 1 forward steps would give (`Positions.JumpIsForwardSteps`) and that
  the shift is the least number of increments that reaches 1
  (`Positions.JumpShiftMinimal`).

## Model

| member | source | states |
|---|---|---|
| `Positions.Identity` | team-rotator.js:45-47 | the start-up positions are 1..n in card order, distinct and in 1..6 |
| `Positions.Dec` | team-rotator.js:54 | a forward step maps a position in 1..6 into 1..6, to its predecessor modulo 6 |
| `Positions.Inc` | team-rotator.js:63 | a backward step maps a position in 1..6 into 1..6, to its successor modulo 6 |
| `Positions.Forward` | team-rotator.js:50-57 | stepForward on all cards: every position replaced by its `Dec` |
| `Positions.Backward` | team-rotator.js:59-66 | stepBackward on all cards: every position replaced by its `Inc` |
| `Positions.JumpShift` | team-rotator.js:74 | the jump's shift `(6 − p + 1) % 6` for a target at p |
| `Positions.Jumped` | team-rotator.js:68-86 | the jump: unchanged when the target is at 1, else `JumpShift` backward steps of every card |
| `Indicators.Selection` | team-rotator.js:106-110 | dot k's selected flag: k is the featured index |
| `Autoplay.Scheduled` | team-rotator.js:113-119 | scheduleNext: timer cleared, then armed with the mode's delay only under autoplay |
| `Autoplay.Paused` | team-rotator.js:139-148 | pause: autoplay off, timer cleared, and a running introduction ended with its `intro` class |
| `Autoplay.Played` | team-rotator.js:157-166 | play: autoplay on, then `Scheduled` |
| `Autoplay.Toggled` | team-rotator.js:170 | the toggle: `Paused` under autoplay, `Played` otherwise |
| `Autoplay.Fired` | team-rotator.js:119-135 | the timer callback: its timer gone, an introduction step counted, the sixth ending the introduction and pausing, otherwise `Scheduled` |
| `Autoplay.Initial` | team-rotator.js:22-41 | the state after lines 22-41 and the init block at 198-217 |
| `Autoplay.Step` | team-rotator.js:168-195 | one input: a firing (only with a timer pending), a manual move (pause) or a toggle |
| `Autoplay.Run` | team-rotator.js:168-195 | a sequence of inputs in order |
| `Positions.ForwardWellFormed` | team-rotator.js:50-57 | stepForward maps each p to p−1, with 1 becoming 6; distinct positions in 1..6 stay distinct and in 1..6 |
| `Positions.BackwardWellFormed` | team-rotator.js:59-66 | stepBackward maps each p to p+1, with 6 becoming 1; distinct positions in 1..6 stay distinct and in 1..6 |
| `Positions.StepsInverse` | team-rotator.js:50-66 | stepBackward after stepForward, and stepForward after stepBackward, restore every card's position |
| `Positions.ForwardNWellFormed` | team-rotator.js:50-57 | any number of forward steps keeps positions distinct and in 1..6 |
| `Positions.BackwardNWellFormed` | team-rotator.js:59-66 | any number of backward steps keeps positions distinct and in 1..6 |
| `Positions.ForwardNAt` | team-rotator.js:52-55 | n forward steps move every card by n decrements |
| `Positions.BackwardNAt` | team-rotator.js:75-80 | n rounds of the jump loop move every card by the same n increments |
| `Positions.IncNCongruent` | team-rotator.js:75-80 | n increments stay in 1..6 and add n modulo 6 |
| `Positions.DecNCongruent` | team-rotator.js:50-57 | n forward steps stay in 1..6 and subtract n modulo 6 |
| `Positions.FullCycle` | team-rotator.js:119-124 | six forward steps, the length of the introduction, bring every card back to its starting position |
| `Positions.JumpShiftBounds` | team-rotator.js:74 | the jump's shift is 0 exactly when the card is featured and lies in 1..5 otherwise |
| `Positions.JumpShiftMinimal` | team-rotator.js:74-80 | fewer increments than the shift never bring the card to position 1 |
| `Positions.JumpFeatures` | team-rotator.js:68-86 | after the jump the target holds position 1, positions stay distinct in 1..6, and every card moved by the same shift |
| `Positions.JumpIsForwardSteps` | team-rotator.js:68-86 | the jump's increments give the same arrangement as p−1 forward steps, for a target at p |
| `Indicators.FeaturedIndex` | team-rotator.js:107 | the result is the first card at position 1, or −1 exactly when no card is at 1 |
| `Indicators.SelectedIffFeatured` | team-rotator.js:106-110 | with distinct positions, dot k is selected iff card k holds position 1 |
| `Indicators.AtMostOneSelected` | team-rotator.js:109 | no two dots are selected at once |
| `Indicators.FullSetHasFeatured` | team-rotator.js:6 | six cards with distinct positions in 1..6 always include one at position 1 |
| `Indicators.ExactlyOneSelectedWhenFull` | team-rotator.js:106-110 | with six cards exactly one dot is selected, that of the card at position 1 |
| `Indicators.NoDotSelectedBelowSix` | team-rotator.js:6-7 | for every card count n from 2 to 5, n forward steps from positions 1..n leave no card at position 1 and no dot selected |
| `Indicators.NoDotSelectedWithTwoCards` | team-rotator.js:6-7 | the smallest case: two cards reach 5 and 6 after two forward steps, with no dot selected |
| `Autoplay.ScheduledTimer` | team-rotator.js:113-119 | scheduleNext leaves a timer pending iff autoplay is on, with delay 2000 in the introduction and 11000 otherwise, and changes nothing else |
| `Autoplay.PausedStops` | team-rotator.js:139-148 | pause leaves autoplay off, no timer pending, the introduction and its `intro` class ended, and the step count kept |
| `Autoplay.PlayedRuns` | team-rotator.js:157-166 | play turns autoplay on with one timer for the current mode and leaves the mode unchanged |
| `Autoplay.ToggledFlips` | team-rotator.js:170 | the play toggle flips autoplay and never starts the introduction |
| `Autoplay.FiredAdvances` | team-rotator.js:119-135 | the timer callback counts an introduction step; the sixth ends the introduction with autoplay off and no timer; outside the introduction it re-arms an 11000 timer and changes nothing else |
| `Autoplay.InitialState` | team-rotator.js:22-41 | after start-up, autoplay and the introduction are both on iff wide viewport and no reduced motion, with a 2000 timer; otherwise both are off with no timer |
| `Autoplay.ArmsOnlyWhenIdle` | team-rotator.js:113-119 | no input other than a firing arms a timer while one is pending; play from pause arms one where none was |
| `Autoplay.StepSettled` | team-rotator.js:168-195 | each input keeps the invariant, never starts the introduction and counts steps only inside it |
| `Autoplay.RunSettled` | team-rotator.js:113-148 | over any run of inputs: at most one timer, pending exactly under autoplay with the mode's delay, `intro` class exactly during the introduction, at most six introduction steps |
| `Autoplay.IntroOneShot` | team-rotator.js:144-148 | once the introduction is over, no run of inputs brings it or its `intro` class back, and no step is counted again |
| `Autoplay.IntroRunning` | team-rotator.js:116-131 | during the first five intro firings, the introduction runs with autoplay on and a 2000 timer |
| `Autoplay.IntroEnds` | team-rotator.js:122-130 | after the sixth firing the introduction is over, autoplay is off, no timer is pending, and later firings change nothing |
| `Autoplay.PauseDuringIntro` | team-rotator.js:144-148 | pausing after three intro steps ends the introduction and autoplay at once, and the remaining steps never happen |
| `TeamRotator.Rotator.constructor` | team-rotator.js:198-217 | start-up keeps min(count, 6) cards at positions 1..n in fresh arrays, the dots consistent, and the control state `Autoplay.Initial` |
| `TeamRotator.Rotator.AssignPositions` | team-rotator.js:45-48 | writes positions 1..n in card order and refreshes the dots |
| `TeamRotator.Rotator.DecrementAll` | team-rotator.js:52-55 | the in-place loop leaves the positions equal to one forward step of the old ones |
| `TeamRotator.Rotator.IncrementAll` | team-rotator.js:61-64 | the in-place loop leaves the positions equal to one backward step of the old ones |
| `TeamRotator.Rotator.FindFeatured` | team-rotator.js:107 | returns the index of the first card at position 1, or −1 |
| `TeamRotator.Rotator.UpdateDots` | team-rotator.js:106-110 | the dots' flags become the selection of the featured card |
| `TeamRotator.Rotator.StepForward` | team-rotator.js:50-57 | the positions become a forward step of the old ones, with the dots and the invariant kept |
| `TeamRotator.Rotator.StepBackward` | team-rotator.js:59-66 | the positions become a backward step of the old ones, with the dots and the invariant kept |
| `TeamRotator.Rotator.JumpToFeatured` | team-rotator.js:68-86 | the positions become the jump of the old ones and card i holds position 1 |
| `TeamRotator.Rotator.ScheduleNext` | team-rotator.js:113-136 | the control state becomes `Autoplay.Scheduled` of the old one; a timer is pending iff autoplay |
| `TeamRotator.Rotator.Pause` | team-rotator.js:139-155 | the control state becomes `Autoplay.Paused` of the old one: autoplay off, no timer, introduction ended |
| `TeamRotator.Rotator.Play` | team-rotator.js:157-166 | the control state becomes `Autoplay.Played` of the old one: autoplay on, one timer for the mode |
| `TeamRotator.Rotator.TimerFires` | team-rotator.js:119-135 | one forward step, and the control state becomes `Autoplay.Fired` of the old one |
| `TeamRotator.Rotator.TogglePlay` | team-rotator.js:176 | autoplay flips and the introduction never restarts |
| `TeamRotator.Rotator.OnNext` | team-rotator.js:168 | ends paused, out of the introduction, after one forward step |
| `TeamRotator.Rotator.OnPrev` | team-rotator.js:169 | ends paused, out of the introduction, after one backward step |
| `TeamRotator.Rotator.OnPlayButton` | team-rotator.js:170 | toggles autoplay |
| `TeamRotator.Rotator.OnDot` | team-rotator.js:98-101 | ends paused, out of the introduction, with card i at position 1 |
| `TeamRotator.Rotator.OnCardClick` | team-rotator.js:173-182 | the featured card toggles autoplay; any other card ends paused, out of the introduction and at position 1 |
| `TeamRotator.Rotator.OnKeyDown` | team-rotator.js:185-195 | ArrowRight/ArrowLeft end paused after a forward/backward step; Space toggles autoplay only with focus inside; other keys change nothing |
| `TeamRotator.Mount` | team-rotator.js:1-7 | with fewer than two cards nothing is set up; otherwise a fresh carousel with fresh arrays, min(count, 6) cards at positions 1..n, in its start-up state |

## Left out

- `image-modal.js` is not part of this model. It only copies an image's
  source and alt text into an overlay and shows or hides it.
- Real timing: `setTimeout` and `clearTimeout` are the `pending` field, and a
  firing is the `TimerFires` call. The CSS transition length `animDur` is
  never used by the code and is not modelled.
- `window.matchMedia` is the two constructor inputs.
- Presentation-only effects have no counterpart in the model. These are the
  `no-animate` class and the forced reflow of the jump, `dataset.autoplay`,
  the play button's `aria-pressed`, its text and its label, the dots'
  `aria-label`s and `preventDefault`.
- Event-listener registration and the `document.activeElement` test are left
  out. Each handler is a method, and Space takes `focusInside`. A missing
  optional button only means its handler is never called. The dots container
  is used without a guard, so dots are always present. A missing rotator
  element behaves like too few cards.
- A rotator element without a `[data-rotator-grid]` child makes line 6 throw
  (`querySelectorAll` on null) before anything is set up. The model has no
  such input: `Mount` takes only the number of cards found.
- Positions are ints, not strings parsed with `Number`. While positions stay
  in 1..6, the source's `%` (truncating) and Dafny's `%` (Euclidean) agree on
  `(6 − p + 1) % 6`.
- TeamRotator.Rotator.TimerFires: requires a pending timer, because a
  callback runs only for a timer that was set and not cleared. In
  `Autoplay.Step`, a `Tick` with no timer pending changes nothing.
