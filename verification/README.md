# Easy-mode basketball screen, as a verified state machine

The easy-mode screen of the basketball minigame puts a player-controlled
shooter on the bottom edge, a hoop that bounces left and right along the top
edge, and a ball that rests on the shooter's head until Space launches it
straight up. A 10 ms animation timeout moves the hoop and the ball; when the
ball reaches the hoop's height it is scored (two points if its centre is
strictly inside the hoop's horizontal extent, unless the hoop straddles the
left edge: see "## Findings") and put back on the shooter. A
1 s timeout counts the displayed time down.

This project models that game logic as a deterministic state machine over
mathematical integers:

- `GameState` (game_state.dfy): the `Game` value: screen size, the position
  and size of shooter, hoop and ball, the ball's resting height, the three
  step constants, `points`, `timeRemaining`, `ballInMotion`, and the signed
  hoop step whose sign is the hoop's direction. `Params` holds the values the
  widget's header fixes (steps and initial counters).
- `EasyMode` (easy_mode.dfy): one pure function per transition: the
  constructor's layout `Init`, the key handlers `PressLeft`, `PressRight` and
  `PressSpace`, `AnimateHoop`, `AnimateBall`, `DisplayTimeRemaining`, and
  `Step`/`Run` over a sequence of `Event`s (`KeyPress(k)`, `Frame`, `Second`).
  Both animation slots hang off the same timeout, hoop first, so a `Frame`
  is `AnimateBall(AnimateHoop(g))`.
- `Scoring` (scoring.dfy): the scoring test, both as it is written (through
  a `size_t`, which is what the game model uses) and as the code evidently
  intends it (signed), with the exact relation between the two.
- `CInts` (c_ints.dfy): the C++ `int` range and the signed-to-`size_t`
  conversion (reduction modulo 2^64, for a 64-bit `size_t`).
- `Invariants` (invariants.dfy): the invariant kept across every
  interleaving of keys and ticks.
- `Properties` (properties.dfy): laws relating several transitions.

easy_mode.h declares the step constants and initial counters; the model
takes them as parameters: `ValidParams` asks for positive shooter, hoop and ball steps and a
ball initially at rest. Clocks, timers, painting and labels are not modelled:
ticks are explicit `Frame` and `Second` events.

The model follows the code, including where it departs from what its own
comments and names suggest:

- The hoop and the shooter are not kept inside the screen: each can pass an
  edge by less than one step before it turns or stops (`Invariants.ShooterInRange`,
  `Invariants.HoopInRange`).
- The hoop's edge tests ignore its direction: the right-edge test is made
  first and flips any hoop there, even one already heading left. This is
  harmless only because of the coupled invariant `Invariants.HoopHeading`.
- The ball can rise past the hoop's lower edge by less than one step before
  it is scored. The landing test is `<=`, not an exact match, so a ball never
  skips it (`Properties.FlightLands`).
- easy_mode.h declares the initial points and time; the model takes them as
  parameters, and nothing stops points from starting negative.
- The scoring test compares through a `size_t`, so no shot scores while the
  hoop straddles the left screen edge (see "## Findings"); the game model
  keeps that behaviour.
- When the resting ball is already at hoop height (a screen more than about
  7.7 times wider than tall), every animation tick runs the scoring test and
  can score with no launch at all (`Properties.ScoreWithoutLaunchOnWideScreen`).

## Model

| member | source | states |
|---|---|---|
| `EasyMode.Init` | easy_mode.cpp:32-50 | Sizes are the stated fractions of the viewport rounded down; the shooter stands on the bottom edge inside the screen; the hoop hangs from the top edge, fits on screen and is centred to within a pixel; the ball is square and rests directly on the shooter's head at the shooter's x; header values are taken over |
| `EasyMode.PressLeft` | easy_mode.cpp:155-164 | The shooter moves iff its x is positive, and then by exactly one step left; a ball at rest keeps its offset to the shooter, a ball in flight does not move; nothing else changes |
| `EasyMode.PressRight` | easy_mode.cpp:165-174 | The shooter moves iff its x is below screen width minus shooter width, and then by exactly one step right; a ball at rest goes with it, a ball in flight does not; nothing else changes |
| `EasyMode.PressSpace` | easy_mode.cpp:175-181 | Only the in-flight flag can change; afterwards it is set iff it was set or the ball was at its resting height |
| `EasyMode.KeyPressEvent` | easy_mode.cpp:151-186 | Keys never touch points, clock or hoop; unrecognised keys change nothing |
| `EasyMode.AnimateHoop` | easy_mode.cpp:269-283 | Only the hoop's x and step change; the step keeps its magnitude and flips sign at most once, exactly when the hoop is at or past either edge; the hoop then moves by the new step |
| `EasyMode.AnimateBall` | easy_mode.cpp:297-316 | At or above hoop height the ball is scored, returned to rest under the shooter and stopped, without moving in that tick, and points rise by 2 iff the source's `size_t` scoring test holds; below it a ball in flight rises by exactly one step and a ball at rest stays; points change only in the reset tick and only by 2 |
| `EasyMode.Step` | easy_mode.cpp:45-53 | Only an animation tick moves the hoop; in that tick the ball is scored against the hoop where this same tick has already moved it, because the hoop slot is connected before the ball slot; key presses and clock ticks never change points; a clock tick changes nothing but the clock |
| `EasyMode.DisplayTimeRemaining` | easy_mode.cpp:78-80 | The clock loses exactly one second and nothing else changes |
| `Scoring.IsBallInHoop` | easy_mode.cpp:222-236 | The corrected, signed test: scores iff the ball's centre is strictly between the hoop's edges (a centre on an edge does not score); a score adds exactly 2 points and a miss leaves the game unchanged |
| `Scoring.IsBallInHoopAsWritten` | easy_mode.cpp:222-236 | Scores iff the ball's centre, converted to size_t, lies strictly between the hoop's edges converted to size_t; a score adds exactly 2 points and a miss leaves the game unchanged |
| `Scoring.AsWrittenVersusSigned` | easy_mode.cpp:222-225 | With the centre held in a size_t, the test agrees with the signed one except while the hoop straddles the left edge, where it never scores |
| `Scoring.AsWrittenAgreesOnScreen` | easy_mode.cpp:222-225 | With hoop x and centre non-negative, the size_t test and the signed test agree |
| `Scoring.AsWrittenMissesCentredBall` | easy_mode.cpp:222-225 | Hoop at x = -1 and 50 wide, ball centre at 20: the signed test scores, the size_t test misses |
| `Scoring.ScoringExamples` | easy_mode.cpp:222-236 | Hoop spanning 100..150 and a ball 10 wide: ball x 120 (centre 125) scores exactly 2 points; centres 99, 100, 150 and 151 score nothing; the size_t test gives the same answers |
| `CInts.ToSizeT` | easy_mode.cpp:222 | Conversion to size_t yields a value below 2^64 congruent to the input, keeps non-negative values and adds 2^64 to negative ones |
| `CInts.IntToSizeT` | easy_mode.cpp:222-225 | Any negative int becomes a size_t larger than every non-negative int |
| `Invariants.InitEstablishesInv` | easy_mode.cpp:36-50 | On a viewport at least 2 pixels wide the constructor's layout satisfies the invariant: shooter and hoop in range, ball glued to the shooter at rest, hoop heading away from the edge it is near |
| `Invariants.KeyPressPreservesInv` | easy_mode.cpp:151-181 | Every key keeps the invariant and the fixed layout, in particular the ball stays glued to the shooter while at rest |
| `Invariants.AnimateHoopPreservesInv` | easy_mode.cpp:269-283 | The bounce step keeps the hoop within one step of the screen and keeps it heading away from any edge it has reached |
| `Invariants.FramePreservesInv` | easy_mode.cpp:269-316 | One animation timeout keeps the invariant; the reset re-establishes the ball at rest on the shooter |
| `Invariants.StepPreservesInv` | easy_mode.cpp:151-316 | Every single event keeps the invariant and the fixed layout |
| `Invariants.RunPreservesInv` | easy_mode.cpp:151-316 | Any sequence of events keeps the invariant, the sprite sizes, the resting height, the steps and the hoop step's magnitude |
| `Invariants.ReachableBounds` | easy_mode.cpp:32-50 | From the constructor, after any interleaving of events: the shooter's x stays in (-step, W - W/12 + step), the hoop's x in (-hoop step, W - W/6 + hoop step), and a ball not in flight sits on the shooter's head at its x |
| `Properties.LeftThenRight` | easy_mode.cpp:155-174 | An effective Left followed by Right restores the whole game |
| `Properties.RightThenLeft` | easy_mode.cpp:155-174 | An effective Right followed by Left restores the whole game |
| `Properties.LeftPresses` | easy_mode.cpp:155-164 | n Left presses that all take effect move the shooter, and a ball at rest, exactly n steps left and change nothing else |
| `Properties.RightPresses` | easy_mode.cpp:165-174 | n Right presses that all take effect move the shooter, and a ball at rest, exactly n steps right and change nothing else |
| `Properties.LeftsThenRights` | easy_mode.cpp:155-174 | n Left presses not stopped by the edge followed by n Right presses restore the whole game |
| `Properties.RightsThenLefts` | easy_mode.cpp:155-174 | n Right presses not stopped by the edge followed by n Left presses restore the whole game |
| `Properties.SpaceIsOneShot` | easy_mode.cpp:175-181 | Pressing Space twice is pressing it once; a resting ball is launched; a ball in flight or above rest height ignores Space |
| `Properties.RunCountdown` | easy_mode.cpp:78-80 | After any events the clock equals its start minus the number of one-second ticks |
| `Properties.CountdownGoesNegative` | easy_mode.cpp:80 | The clock has no floor: more ticks than seconds left leave it negative |
| `Properties.StepPoints` | easy_mode.cpp:297-316 | Points change only in an animation tick that finds the ball at hoop height, and then by exactly 2 |
| `Properties.RunPoints` | easy_mode.cpp:297-316 | Over any events points never decrease, grow by an even amount, and by at most 2 per animation tick |
| `Properties.ScoreNeedsLaunch` | easy_mode.cpp:300-316 | When the resting ball is below hoop height, points can change only in an animation tick with the ball in flight |
| `Properties.ScoreWithoutLaunchOnWideScreen` | easy_mode.cpp:300-303 | On a 1200 by 120 screen the resting ball is already at hoop height and the first animation tick scores 2 with no launch |
| `Properties.MissedSwishAtLeftEdge` | easy_mode.cpp:222-225 | From the constructor on a 120 by 90 screen, 6 Left, 3 animation ticks, Space and 3 animation ticks bring the ball to hoop height with its centre at 5 inside a hoop spanning -10..10, and the game awards no points |
| `Properties.FlightClosedForm` | easy_mode.cpp:313-316 | While below hoop height, n ticks lift a ball in flight exactly n steps, keep it in flight and its x fixed, and change no points |
| `Properties.FlightLands` | easy_mode.cpp:300-316 | Every ball in flight is back at rest on the shooter after a bounded number of animation ticks |
| `Properties.HoopFullOvershootOnOnePixelScreen` | easy_mode.cpp:277-283 | On a 1-pixel-wide screen the hoop starts on the left edge and its first tick takes it a whole step past it, so the range bound needs width at least 2 |

## Left out

- Painting (`paintEvent`), pixmap loading and the destructor's deletes: rendering and resource handling with no game state.
- The three `QTimer`s and their scheduling, including the one-shot 60 s timer that calls the parent's `start_win_screen`: ticks are explicit `Frame` and `Second` events, and the end-of-round signal belongs to the parent, which is not part of this model.
- `showEvent` (window activation and focus) and every `repaint()` call: user-interface side effects only.
- `display_points` and the text half of `display_time_remaining`: number-to-text conversion and label updates; only the counters are modelled.
- Fixed-width `int` arithmetic: positions, points and the clock are unbounded integers, so a 32-bit overflow after billions of presses or ticks is not modelled; `Scoring.IntOperands` states the `int` range only where the `size_t` conversion needs it.
- The header's constants: they are parameters, and the invariants assume positive shooter, hoop and ball steps and a ball initially at rest.
- `Invariants.InitEstablishesInv`: holds only for viewports at least 2 pixels wide; at 1 pixel the hoop's first overshoot is a full step (`Properties.HoopFullOvershootOnOnePixelScreen`).
- `Scoring.BallCentre`: uses Dafny's division, which agrees with C++'s because ball widths are never negative.

## Findings

| source | as written | input that shows it | evidently intended | confidence | as-written member | corrected member |
|---|---|---|---|---|---|---|
| easy_mode.cpp:222-225 | The ball's centre is stored in a `size_t`, so the comparisons with the hoop's `int` edges convert them to unsigned; a hoop whose left edge is negative becomes a huge number and no ball can score while the hoop straddles the left edge | hoop x = -1 (one pixel of left overshoot), hoop width 50, ball centre 20: signed test scores, as-written test misses | the signed strict test hoop.x < centre < hoop.x + hoop width | not executed | `Scoring.IsBallInHoopAsWritten`, `Scoring.AsWrittenVersusSigned`, `Properties.MissedSwishAtLeftEdge` | `Scoring.IsBallInHoop` |

The game model (`EasyMode.AnimateBall`) scores with the as-written test
`Scoring.IsBallInHoopAsWritten`, as the program does; the signed test
`Scoring.IsBallInHoop` is the corrected variant.
`Scoring.AsWrittenMissesCentredBall` is a concrete counterexample,
`Properties.MissedSwishAtLeftEdge` reaches one from the constructor, and
`Scoring.AsWrittenAgreesOnScreen` shows the two tests agree whenever the
hoop's left edge and the ball's centre are on screen.
