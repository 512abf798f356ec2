# Breathe3D breathing-phase model

This project models the breathing-phase state machine of Breathe3D, a browser application in
which a glowing 3D shape grows and shrinks in time with guided breathing exercises.

The model covers:

- the common exercise engine `BaseBreathingExercise`;
- its three variants: square (4 equal timed phases), balanced (inhale and exhale of 4 s) and
  sleep (the 4-7-8 pattern, driven by an integer counter);
- the first prototype `Breathe3D/breathingExercise.js`, a four-stage cube animation held in
  module-level globals.

The engine is imperative, so it is modelled as one Dafny class, `Exercise.BreathingExercise`.
Its fields are the engine's fields:

- `scale`, `cycleStage`, `counter`, `lastTime`;
- `isIntro`, `isTransitioning`;
- `introStartTime`, `phaseDuration`, `phaseStartTime`, `initialScale`, `targetScale`;
- `duration`, `startTime`, `isInfinite`.

A `const variant` selects which subclass the object is. Each overridden method dispatches on
it. A subclass method that calls `super` calls the base method of the same name
(`BaseHandleIntroAnimation`, for example).

Every method names the fields it may change in a `modifies this`field` frame, so every field
outside the frame keeps its value; the `ensures` say how the fields inside the frame change.
A breathing frame's effect is stated once, as the two-state predicates `ScaleAndCounterStep`
and `BreathingStep` (on top of `ShapeFrame`, `CounterFrame` and `TimerFrame`), and an
introduction frame's as `IntroStep`. Every method of the class keeps the invariant `Valid`,
except the two that establish it: `Reset`, which runs from the constructor before the cycle part
holds and so requires only the engine part and ensures the whole invariant, and its helper
`ResetPhaseTiming`, which sets the phase fields while `Reset` has not yet moved back to stage 0.
The invariant says:

- the stage is in range;
- the scale lies in [min, maxScale];
- the introduction sits at stage 0 and is never in a transition;
- the timer is consistent with `isInfinite` and the configured duration;
- each variant keeps its own bounds: for square and balanced the fixed phase length and a
  counter in 1..4, for balanced also the (initial, target) endpoints of the stage, and for sleep
  the counter range of the current phase.

The rules each variant applies are pure functions in their own modules, with the lemmas about
them:

- `Square`: the instruction, the per-frame step, and the counter as quarters of the phase;
- `Balanced`: the clamped progress, the linear interpolation, and the counter as thirds of the
  phase;
- `Sleep`: the transition predicate, the entry counters, the tick, and the 4-7-8 lengths;
- `Stepping`: the capped and floored per-frame step that square and sleep share;
- `Cycle`: the stage modulo the stage count, and the `isTransitioning` guard over any
  interleaving of ticks and completions;
- `Clock`: the countdown and its `m:ss` text, with a read-back function and round-trip lemmas;
- `Visual`: the base engine's glow sizes, glow opacities and light intensity;
- `Config`: the shipped constants.

The prototype is the class `Prototype.BreathingPrototype` over its three globals. Its tick is the
function `Prototype.TickStep`, and lemmas about runs of ticks sit beside it.

The two sleep files, `exercises/sleepBreathing.js` and
`Breathe3D/Breathe3D/exercises/sleepBreathing.js`, contain the same code for every modelled
method. The correspondences are:

| method | exercises/sleepBreathing.js | Breathe3D/Breathe3D/exercises/sleepBreathing.js |
|---|---|---|
| `adjustShapeScale` | 29-38 | 14-23 |
| `shouldMoveToNextPhase` | 47-51 | 25-29 |
| `moveToNextPhase` | 60-64 | 31-35 |
| `updateInstruction` | 72-87 | 37-52 |
| `updateCounter` | 94-99 | 54-59 |
| `handleIntroAnimation` | 106-125 | 61-80 |
| `setupDOMElements` | 131-150 | 82-101 |

So one `Sleep` module and the sleep branch of the class model both files. The rows below cite
whichever of the two they were checked against.

Time is passed in explicitly as integer milliseconds:

- `t` is the animation-frame timestamp;
- `now` is `performance.now()`;
- `wall` is `Date.now()`.

The `setTimeout` of `startPhaseTransition` is split into two methods.
`BeginTransition` raises the guard and records when the callback is due. `CompleteTransition`
is the callback. A DOM element is an `Option`: `None` when it was not found, otherwise its text,
and for the counter also whether it is displayed. A Three.js object is reduced to whether it
exists, and the scene to the list of its children.

## Model

| member | source | states |
|---|---|---|
| Config.StageCount | Breathe3D/Breathe3D/config/config.js:28-41 | Every exercise kind has between 2 and 4 stages (square 4, balanced 2, sleep 3). |
| Config.ShippedConfig | Breathe3D/Breathe3D/config/config.js:45-52 | The configuration built for a kind has the phase count that the kind's code hard-codes as its stage count, and carries the duration the host chose; with an endless (-1) or non-negative duration it meets what the engine needs (a scale range containing 1 and a positive default counter). |
| Stepping.AdjustScale | exercises/squareBreathing.js:71-83 | One frame's step keeps the scale within [min, maxScale]. Hold stages leave it unchanged. The inhale never lowers it and adds exactly one step unless capped at the maximum. The exhale never raises it and removes exactly one step unless floored at the minimum. |
| Stepping.InhaleFrames | Breathe3D/Breathe3D/exercises/sleepBreathing.js:14-17 | An inhale of k frames equals min(scale + k*step, maxScale): k steps, capped once at the maximum. |
| Stepping.ExhaleFrames | exercises/sleepBreathing.js:33-35 | An exhale of k frames equals max(scale - k*step, min): k steps, floored once at the minimum. |
| Square.PhaseDuration | exercises/squareBreathing.js:16 | A phase lasts a whole number of seconds, exactly the configured counter, and at least one second. |
| Square.Instruction | exercises/squareBreathing.js:30-45 | The introduction shows the relax text. Outside it, "Inhale" appears exactly in stage 0, "Exhale" exactly in stage 2, and both holds read "Hold your breath". |
| Square.InstructionLap | exercises/squareBreathing.js:37-42 | One cycle reads Inhale, Hold, Exhale, Hold in that order. |
| Square.ScaleStep | exercises/squareBreathing.js:71 | The step is positive, and the 16 ms frames of one phase, taken together, sweep exactly the range from min to maxScale. |
| Square.InhaleSweepsRange | exercises/squareBreathing.js:71-77 | When a phase is a whole number of 16 ms frames, an inhale from min reaches maxScale on its last frame and is still below it one frame earlier. |
| Square.CounterDisplay | exercises/squareBreathing.js:96-109 | The displayed counter is always between 1 and 4, whatever the time. |
| Square.PhaseStartCounter | exercises/squareBreathing.js:102-109 | At the start of a phase the counter reads 1 in stages 0-1 and 4 in stages 2-3, whatever value the phase change left in it. |
| Square.CountUpBuckets | exercises/squareBreathing.js:102-103 | In stages 0-1 the counter is 1 plus the number of whole quarters of the phase elapsed, capped at 4 (integer arithmetic on milliseconds). |
| Square.CountDownBuckets | exercises/squareBreathing.js:104-106 | In stages 2-3 the counter is 4 minus the number of whole quarters elapsed, at least 1. |
| Square.CounterDirection | exercises/squareBreathing.js:96-109 | Within a phase the counter never decreases in stages 0-1 and never increases in stages 2-3 as time passes. |
| Balanced.StartCounter | exercises/balancedBreathing.js:62 | The counter a phase starts with is the one the phase's first frame shows, the counter read off a progress of 0, so the phase change and the next frame agree. |
| Balanced.PhasesJoin | exercises/balancedBreathing.js:60-75 | The two phases join up: each one starts at the scale where the other ends, and only the inhale moves upward. |
| Balanced.ClampProgress | exercises/balancedBreathing.js:81 | The clamped progress lies in [0,1]. It equals the raw progress inside that interval, 0 below it and 1 above it. |
| Balanced.Progress | exercises/balancedBreathing.js:79-81 | The progress lies in [0,1]. It is 0 at or before the phase start and 1 once the phase is over. In between, progress times the phase length is the elapsed time. |
| Balanced.Lerp | exercises/balancedBreathing.js:83 | The interpolation gives the initial scale at progress 0 and the target at progress 1, and never leaves the interval between them. |
| Balanced.LerpMidpoint | exercises/balancedBreathing.js:83 | At half progress the interpolated scale is the average of the endpoints. |
| Balanced.LerpTowardTarget | exercises/balancedBreathing.js:83 | More progress never moves the scale away from the target. |
| Balanced.ScaleAt | exercises/balancedBreathing.js:78-84 | The scale of a frame lies in [min, maxScale]. It is the phase's initial scale at its start and the target from its end on. |
| Balanced.HalfPhaseIsMidScale | exercises/balancedBreathing.js:20 | Two seconds into a 4 s phase, the shape is exactly halfway between min and maxScale, in either stage. |
| Balanced.ScaleDirection | exercises/balancedBreathing.js:78-84 | Over time the inhale only grows the shape and the exhale only shrinks it. |
| Balanced.CounterFromProgress | exercises/balancedBreathing.js:99-107 | For any progress in [0,1] the counter lies between 1 and 4. |
| Balanced.CounterThirds | exercises/balancedBreathing.js:99-107 | Which third of the phase each inhale count covers: a count c below 4 shows exactly while 3p is in [c-1, c), and 4 shows only at p = 1. The exhale mirrors this, with 1 shown only at p = 1. |
| Balanced.CounterDirection | exercises/balancedBreathing.js:103-107 | As progress increases, the inhale counter never decreases and the exhale counter never increases. |
| Balanced.CounterAtTime | exercises/balancedBreathing.js:79-107 | In milliseconds, the inhale counter is min(4, 1 + 3*elapsed div phaseDuration) and the exhale counter is max(1, 4 - 3*elapsed div phaseDuration). |
| Balanced.Instruction | exercises/balancedBreathing.js:46-51 | The introduction shows the relax text. Outside it, "Inhale" appears exactly in stage 0 and "Exhale" in every other stage. |
| Sleep.StartCounter | exercises/sleepBreathing.js:60-64 | The inhale and hold start their counter at 1 and the exhale at 8. No phase is complete at its start. |
| Sleep.StepTowardEnd | exercises/sleepBreathing.js:94-99 | A tick that steps the counter of an unfinished phase leaves exactly one tick fewer before the phase is complete. |
| Sleep.RangeInvariant | exercises/sleepBreathing.js:47-99 | Each phase starts in its range, and a tick keeps the counter in range: [1,5] inhaling, [1,8] holding, [0,8] exhaling. |
| Sleep.InRangeBetweenStartAndEnd | Breathe3D/Breathe3D/exercises/sleepBreathing.js:25-35 | The counter is in range exactly when it lies between the phase's start value and the first value that completes the phase. |
| Sleep.ShownCounts | Breathe3D/Breathe3D/exercises/sleepBreathing.js:25-59 | From any in-range counter, the values a phase shows before its transition count up to 4 when inhaling, up to 7 when holding, and down to 1 when exhaling. |
| Sleep.FourSevenEight | exercises/sleepBreathing.js:47-99 | From their starts the three phases show 1..4, 1..7 and 8..1: the 4-7-8 pattern. |
| Sleep.ShownThenComplete | Breathe3D/Breathe3D/exercises/sleepBreathing.js:25-59 | Stepping the counter once per shown value reaches a value that completes the phase, and no earlier step completes it. So each phase lasts exactly as many ticks as it shows values. |
| Sleep.Instruction | exercises/sleepBreathing.js:72-87 | Each of the three stages has its own text: Inhale, Hold your breath, Exhale. |
| Sleep.InhaleFromOneReachesMax | Breathe3D/Breathe3D/exercises/sleepBreathing.js:14-17 | An inhale that starts from the scale 1 set by the instruction reaches the shipped maximum 1.8 on its 320th frame, not earlier. |
| Cycle.NextStage | exercises/squareBreathing.js:55 | The next stage stays in [0,n). It is the following stage, wrapping from the last stage back to 0. |
| Cycle.StageAfterIsShift | exercises/balancedBreathing.js:61 | k phase changes move (stage + k) mod n. |
| Cycle.FullLap | exercises/sleepBreathing.js:61 | n phase changes return to the starting stage, and no shorter positive number does. |
| Cycle.StageAfterCompose | exercises/BaseBreathingExercise.js:351-355 | a phase changes followed by b more are a + b phase changes. |
| Cycle.PhaseOverStays | exercises/squareBreathing.js:48-51 | The timed predicate is false at the phase start and, once true, stays true as time goes on. |
| Cycle.Step | exercises/BaseBreathingExercise.js:335-356 | A tick or a completion keeps the stage in range. |
| Cycle.Run | exercises/BaseBreathingExercise.js:335-356 | Any run of ticks and completions keeps the stage in range. |
| Cycle.GuardAdvancesOncePerStart | exercises/BaseBreathingExercise.js:336-355 | Starting outside a transition, over any interleaving of ticks and completions: the number of phase advances equals the number of transitions started, minus one if a transition is still pending. The stage has moved exactly once per advance. So each trigger advances the phase at most once. |
| Cycle.GuardRun | exercises/BaseBreathingExercise.js:336-355 | The same balance from any starting guard, counting a pending transition as already started. |
| Clock.DigitChar | exercises/BaseBreathingExercise.js:402 | A digit value becomes a digit character that reads back as the same value. |
| Clock.DecimalTextDigits | exercises/BaseBreathingExercise.js:400-402 | The decimal text of a number is a non-empty string of digits with no leading zero except for 0 itself, and it is one character long exactly for numbers below 10. |
| Clock.DecimalRoundTrip | exercises/BaseBreathingExercise.js:400-402 | Reading back the decimal text of a number gives the number. |
| Clock.PadStart2 | exercises/BaseBreathingExercise.js:402 | Padding gives at least two characters. The original text is the suffix and every added character is '0'. |
| Clock.PadTwoDigits | exercises/BaseBreathingExercise.js:401-402 | A number below 100, once padded, is exactly its tens digit followed by its units digit. |
| Clock.IntTextReadsBack | exercises/BaseBreathingExercise.js:371-374 | The counter text of an integer reads back as that integer, with a leading minus sign when it is negative. |
| Clock.ClockTextParts | exercises/BaseBreathingExercise.js:400-402 | The timer text is digits, a colon and exactly two digits. The minutes part reads back as secs div 60, and the two digits as secs mod 60. |
| Clock.ClockRoundTrip | exercises/BaseBreathingExercise.js:400-402 | Reading back the m:ss text gives the seconds it was made from: 60*m + ss equals the seconds, with ss < 60. |
| Clock.ClockTextInjective | exercises/BaseBreathingExercise.js:400-402 | Different numbers of seconds give different timer texts. |
| Clock.Remaining | exercises/BaseBreathingExercise.js:390-391 | The remaining seconds are never negative, and are 0 exactly when the elapsed time has reached the duration. |
| Clock.RemainingSecond | exercises/BaseBreathingExercise.js:390-391 | A positive remainder r is shown exactly during the second that starts duration - r seconds into the session. |
| Clock.TimerUpdate | exercises/BaseBreathingExercise.js:390-402 | A timer update ends the session exactly when the elapsed time has reached the duration. |
| Clock.TimerShowsRemaining | exercises/BaseBreathingExercise.js:390-402 | When the timer shows a text, it is m:ss shaped and reads back as the positive number of seconds remaining. |
| Visual.ScaleProgress | exercises/BaseBreathingExercise.js:446-447 | The scale's progress is 0 at min and 1 at maxScale, lies in [0,1] in between, and is linear in the scale. |
| Visual.ProgressIncreasing | exercises/BaseBreathingExercise.js:459-460 | A larger scale is further along the range. |
| Visual.LightIntensity | exercises/BaseBreathingExercise.js:458-464 | The light is 0.5 at min and 2 at maxScale, and stays within [0.5, 2] for any scale in range. |
| Visual.LightIncreasing | exercises/BaseBreathingExercise.js:458-464 | A larger scale never gives a dimmer light. |
| Visual.ShellLayout | exercises/BaseBreathingExercise.js:427-465 | The inner shells are 1.2 times the core and the outer shells 1.4 times; front and back shells share their opacity. The exhale fixes the opacities at 0.45 and 0.15. For a scale in range the inner opacity lies in [0.15, 0.45] and the light in [0.5, 2]. |
| Visual.ShellsEnclose | exercises/BaseBreathingExercise.js:429-433 | Each shell is larger than what it surrounds: core < inner shell < outer shell. |
| Visual.GlowBrightensToExhale | exercises/BaseBreathingExercise.js:444-455 | Outside the exhale the inner glow brightens with the scale, and at maxScale it reaches exactly the exhale opacity 0.45, so it does not jump when the exhale begins. |
| Prototype.Instruction | Breathe3D/breathingExercise.js:65-83 | "Inspirez" appears exactly in stage 0, "Expirez" exactly in stage 2, and both holds read "Gardez votre respiration". |
| Prototype.TickStep | Breathe3D/breathingExercise.js:55-63 | A tick leaves the stage in [0,4). It changes the stage exactly when the counter was 0, moving to the next stage and showing 4; otherwise it shows the counter itself. The new counter is the shown value minus one. From a counter in [0,4] it shows a value in [1,4] and leaves a counter in [0,3]. |
| Prototype.Run | Breathe3D/breathingExercise.js:13 | k ticks leave the stage in range and show exactly k values. |
| Prototype.RunCompose | Breathe3D/breathingExercise.js:55-63 | a ticks followed by b more are a + b ticks, and the values shown are concatenated. |
| Prototype.FirstLap | Breathe3D/breathingExercise.js:5-7 | An example run, the start that `Laps` continues: from the initial globals the first four ticks show 4, 3, 2, 1 and stay in stage 0. |
| Prototype.Lap | Breathe3D/breathingExercise.js:56-62 | The step of the induction in `Laps`: from a counter at 0, four ticks move to the next stage and show 4, 3, 2, 1. |
| Prototype.Laps | Breathe3D/breathingExercise.js:55-63 | After the first lap, 4m ticks advance the stage m times and show 4, 3, 2, 1 m times: one stage every four ticks. |
| Prototype.CubeScale | Breathe3D/breathingExercise.js:45-53 | A frame grows the cube in stage 0, shrinks it in stage 2, and leaves it unchanged in stages 1 and 3. |
| Prototype.CubeInhaleUnbounded | Breathe3D/breathingExercise.js:45-48 | Without a clamp, k inhale frames add exactly k*0.01, so 81 frames from 1 already pass the later exercises' maximum 1.8. |
| Prototype.CubeExhaleUnbounded | Breathe3D/breathingExercise.js:49-51 | Without a floor, k exhale frames take away exactly k*0.01, so 21 frames from 1 already fall below the later exercises' minimum 0.8. |
| Prototype.BreathingPrototype.constructor | Breathe3D/breathingExercise.js:5-7 | The globals start at scale 1, stage 0 and counter 4, on a page whose counter element is there or not. |
| Prototype.BreathingPrototype.SetupCounter | Breathe3D/breathingExercise.js:30-37 | When the page has the counter element it shows the current counter; without it nothing changes (only an error is logged). |
| Prototype.BreathingPrototype.UpdateInstruction | Breathe3D/breathingExercise.js:65-83 | Writes the stage's text. In stage 0 it also resets the scale to 1; otherwise the scale is kept. |
| Prototype.BreathingPrototype.UpdateCounter | Breathe3D/breathingExercise.js:55-63 | The new stage and counter are those of `TickStep`, and the counter element shows its shown value. Only a tick that changes the stage rewrites the instruction, and only then can it reset the scale. The invariant (stage in [0,4), counter in [0,4]) is kept. |
| Prototype.BreathingPrototype.AdjustCubeScale | Breathe3D/breathingExercise.js:45-53 | The scale becomes the `CubeScale` of the stage and the old scale. |
| Exercise.RemoveNodeContents | exercises/BaseBreathingExercise.js:143-146 | Removing the point light from the scene removes exactly one copy of it from the scene's contents. |
| Exercise.RemoveNode | exercises/BaseBreathingExercise.js:144 | Removing a present object shortens the scene by one. Removing an absent object changes nothing. |
| Exercise.RemoveChildren | exercises/BaseBreathingExercise.js:148-150 | The loop removes the children front to back, and all of them. |
| Exercise.EmptyScene | exercises/BaseBreathingExercise.js:142-152 | When the point light is held it comes out first, followed by the other children front to back (the scene without that light, in order); otherwise the children come out front to back. Every child comes out exactly once. |
| Exercise.InstructionText | exercises/squareBreathing.js:30-45 | In every variant, outside the introduction, "Inhale" appears exactly in stage 0. The square and balanced introduction shows the relax text. |
| Exercise.EntryCounter | exercises/balancedBreathing.js:62 | The counter a phase change sets: within 1..4 for square and balanced, within the sleep phase's range and not yet complete for sleep, and for balanced exactly what the phase's first frame shows. |
| Exercise.BreathingExercise.constructor | exercises/BaseBreathingExercise.js:10-55 | A new exercise starts at scale min, stage 0, counter 1, in the introduction and not in a transition, with no elements, no scene, no duration and no start time. Square and balanced then reset, which also stamps the introduction, phase and last-tick times with now. |
| Exercise.BreathingExercise.Reset | exercises/squareBreathing.js:12-21 | Back to the start of the introduction: counter 1 and stage 0 at scale min, all clocks at now. Square sets the phase length to defaultCounter*1000. Balanced sets it to 4000, with endpoints (min, maxScale). |
| Exercise.BreathingExercise.ResetPhaseTiming | exercises/balancedBreathing.js:20-23 | Only the phase part of reset: the variant's phase length, the phase start, and for balanced the inhale's endpoints. Square leaves the endpoints alone. |
| Exercise.BreathingExercise.InitializePhase | exercises/balancedBreathing.js:30-38 | The start of a balanced inhale: counter 1, phase 4000 ms from now, endpoints (min, maxScale), scale min and stage 0. The invariant is kept. |
| Exercise.BreathingExercise.SetupDOMElements | exercises/BaseBreathingExercise.js:259-278 | Succeeds exactly when both elements are found. On success the counter is empty and hidden, and the instruction shows the base text (the sleep override writes the relax text instead). On failure nothing is written: a found element keeps the page's text, a missing one stays missing. |
| Exercise.BreathingExercise.SetupScene | exercises/BaseBreathingExercise.js:242-254 | The scene holds the four shells, the core shape and the two lights in the order they are added, and the point light is held. |
| Exercise.BreathingExercise.SetupTimer | exercises/BaseBreathingExercise.js:99-111 | An empty timer element is created. The duration is the configured one, isInfinite holds exactly when it is -1, and the countdown has not started. |
| Exercise.BreathingExercise.Init | exercises/BaseBreathingExercise.js:79-122 | init succeeds exactly when both elements are found; if either is missing the scene, light, timer, duration, countdown start and frames are untouched (for sleep also the scale and the clocks). Square and balanced reset first: counter 1 and the introduction, phase and tick clocks at now; sleep keeps its counter and phase start. On success the scene, timer and frame loop are running, with the introduction clock at now, and the relax text and a hidden counter showing. The first frame, which has no timestamp, only holds the shape at 1; square and balanced then put it back at min. |
| Exercise.BreathingExercise.StartSession | exercises/BaseBreathingExercise.js:89-120 | After the elements are found: the scene is built, the introduction clock starts at now, the timer is set up and the frame loop runs, with the shape at 1. |
| Exercise.BreathingExercise.InitTexts | exercises/squareBreathing.js:120-137 | Each element that exists gets the relax text or an empty hidden counter. A shape that exists goes to scale min. |
| Exercise.BreathingExercise.Cleanup | exercises/BaseBreathingExercise.js:127-175 | Afterwards frames, audio, light, scene, timer element, duration and start time are gone. The objects removed are exactly the scene's children, the point light first when it was held. |
| Exercise.BreathingExercise.ClearScene | exercises/BaseBreathingExercise.js:142-152 | The removal order is the point light first, when held, then the remaining children front to back; without the light, exactly the children in order. The removed objects are, as a multiset, the scene's. Afterwards there is no scene and no light. |
| Exercise.BreathingExercise.ForgetTimer | exercises/BaseBreathingExercise.js:166-169 | Timer element, duration and start time are forgotten, the session is no longer endless, and the engine invariant holds. |
| Exercise.BreathingExercise.UpdateInstruction | exercises/sleepBreathing.js:72-87 | Without an element nothing changes. Otherwise the element shows the variant's text for the stage. Only the sleep inhale resets the scale to 1. |
| Exercise.BreathingExercise.UpdateCounterDisplay | exercises/squareBreathing.js:88-113 | Without an element nothing changes. The base writes the current counter. Square hides the counter during the introduction; otherwise it recomputes the counter from the phase's progress and shows it. |
| Exercise.BreathingExercise.ShowCounter | exercises/BaseBreathingExercise.js:358-363 | The counter element, when present, is displayed with the refreshed counter. |
| Exercise.BreathingExercise.HideCounter | exercises/BaseBreathingExercise.js:365-369 | The counter element, when present, is hidden with its text kept. |
| Exercise.BreathingExercise.MoveToNextPhase | exercises/squareBreathing.js:54-59 | The stage moves to the next one modulo the variant's stage count, with that variant's entry counter. Square and balanced restart the phase clock at now. Balanced takes the new stage's endpoints. The instruction follows the new stage. The invariant is kept. |
| Exercise.BreathingExercise.UpdateCounterBasedOnProgress | exercises/balancedBreathing.js:90-110 | Without an element nothing changes. During the introduction the counter is hidden and kept. Otherwise it is set from the progress and shown. |
| Exercise.BreathingExercise.AdjustShapeScale | exercises/balancedBreathing.js:78-87 | Square holds 1 during the introduction and otherwise takes one capped or floored step of its phase's size. Sleep takes one 0.0025 step. Balanced sets the interpolated scale for the elapsed time and updates its counter from the same progress. The scale stays in [min, maxScale]. |
| Exercise.BreathingExercise.BeginTransition | exercises/BaseBreathingExercise.js:347-351 | The guard is raised, the counter is hidden, and the completion is due TransitionDuration (500 ms) later. |
| Exercise.BreathingExercise.CompleteTransition | exercises/BaseBreathingExercise.js:351-355 | The callback advances the stage exactly once and lowers the guard. It shows the counter at the new phase's entry value; for square that is the recomputed 1 or 4. The invariant is kept. |
| Exercise.BreathingExercise.UpdateCounter | exercises/BaseBreathingExercise.js:335-345 | During a transition nothing changes. Otherwise a transition starts exactly when the variant's shouldMoveToNextPhase held, and the counter text is refreshed. Sleep steps its counter only when no transition started, which keeps its range. |
| Exercise.BreathingExercise.UpdateTimer | exercises/BaseBreathingExercise.js:376-403 | With no timer element or an endless session nothing changes. During the introduction the full duration is shown. Afterwards the countdown starts on first use (a start time of 0 counts as unset) and either ends the session, exactly when the time is up, or shows the remaining m:ss. |
| Exercise.BreathingExercise.ShowFullDuration | exercises/BaseBreathingExercise.js:380-382 | The timer shows the whole configured duration as m:ss. |
| Exercise.BreathingExercise.CountDown | exercises/BaseBreathingExercise.js:386-402 | The countdown starts at the first update. After that the session ends or the remaining time is shown, as `TimerUpdate` decides. |
| Exercise.BreathingExercise.EndExercise | exercises/BaseBreathingExercise.js:405-425 | The session is marked as over. |
| Exercise.BreathingExercise.BaseHandleIntroAnimation | exercises/BaseBreathingExercise.js:299-322 | Before the introduction is over the shape is held at 1 and nothing else changes. Once it is over: stage 0, no longer in the introduction, the tick clock at t, the countdown started at wall, the inhale instruction shown, and the counter displayed. |
| Exercise.BreathingExercise.EndIntro | exercises/BaseBreathingExercise.js:312-321 | The end of the introduction: the introduction is over at stage 0, the tick and countdown clocks are started, the inhale instruction is shown and the counter is displayed. |
| Exercise.BreathingExercise.SquareIntroEnd | exercises/squareBreathing.js:149-161 | The square inhale starts now with counter 1 at scale min, showing "Inhale" and a displayed "1". |
| Exercise.BreathingExercise.SleepIntroEnd | exercises/sleepBreathing.js:114-124 | The sleep inhale starts now. The scale set to min is put back to 1 by the inhale instruction whenever the element exists. The counter is displayed. |
| Exercise.BreathingExercise.HandleIntroAnimation | exercises/squareBreathing.js:141-162 | During the introduction the shape stays at 1, the focus text replaces the relax text from the half-way point, and no clock, counter or phase changes. At its end every variant is at stage 0 showing "Inhale" with the phase clock at now. Square and balanced have counter 1 and scale min, and square shows "1". Sleep keeps its counter and ends at scale 1. |
| Exercise.BreathingExercise.VariantIntroEnd | exercises/balancedBreathing.js:121-128 | Each variant's start of the cycle: the balanced exercise re-initialises the inhale phase, square and sleep start their phase clock, and all show "Inhale" at stage 0. |
| Exercise.BreathingExercise.Animate | exercises/BaseBreathingExercise.js:280-297 | The next frame is requested. An introduction frame does what `IntroStep` says (see `IntroFrame`): the shape held at 1 with the focus text from half-way, then each variant's start of the cycle. A breathing frame does what `BreathingStep` says: see `BreathingFrame`. |
| Exercise.BreathingExercise.BreathingFrame | exercises/BaseBreathingExercise.js:289-296 | After the introduction the stage, the phase and the instruction stay. The scale takes the variant's step (square and sleep from the old scale, balanced from the elapsed time). A tick happens exactly when an interval has passed, and sets the last tick to t. The balanced counter follows the progress; a tick outside a transition refreshes the counter text, recomputes the square counter, steps the sleep counter, and starts a transition exactly when the variant's predicate held, hiding the counter. The timer then ends the session or shows the time left, as `TimerUpdate` decides. |
| Exercise.BreathingExercise.ShapeAndTick | exercises/BaseBreathingExercise.js:289-293 | The scale and counter part of a breathing frame, as `ScaleAndCounterStep` states it, with the invariant kept. |
| Exercise.BreathingExercise.IntroFrame | exercises/BaseBreathingExercise.js:284-287 | An introduction frame runs only the introduction, as `IntroStep` states. The timer, the guard and the session state are untouched. Before the end the shape stays at 1, the focus text shows from half-way, and the counter, its element, the clocks and the phase stay. At the end the cycle starts at the inhale: square has counter 1, scale min and a shown "1"; balanced has counter 1, scale min and the counter shown; sleep keeps its counter, ends at scale 1 and shows the counter. Only balanced changes its phase length and endpoints. |

## Left out

- The Three.js scene is left out: renderer, camera, geometry, materials, the mesh `scale.set` calls, the background colour transition of the introduction, and `onWindowResize`. It is calls into a rendering library. Only the numbers derived from `scale` are modelled (module `Visual`), and the scene is reduced to the list of its children.
- DOM styling is left out: opacity, classes, colours, shadows, and the creation and removal of the canvas and timer elements. An element is reduced to its text and, for the counter, whether it is displayed. The `visible` class added to the timer in a later animation frame is not modelled.
- The `endExercise` page switch, and the clean-up it runs once the audio has stopped, are left out. They are UI work behind an asynchronous promise; `EndExercise` records only that the session ended.
- The audio manager (`Breathe3D/Breathe3D/audio/AudioManager.js`) is not part of this model. Whether it is held is a boolean, and `init` playing the selected music is left out.
- `requestAnimationFrame`, `setInterval` and `setTimeout` are scheduling, so the interleaving of callbacks is left out. Each callback is a method that takes its timestamps as parameters, and the transition is split into `BeginTransition` and `CompleteTransition`. Over any interleaving of ticks and completions, the guard is stated by `Cycle.GuardAdvancesOncePerStart`.
- `exerciseManager.js` and `Breathe3D/app.js` are page wiring and are not part of this model, apart from the configuration `exerciseManager.js` builds, which `Config.ShippedConfig` models. `capitalizeFirstLetter` is not modelled.
- The base `adjustShapeScale` is left out as a method: every variant overrides it without calling `super`, so no frame runs it. Its glow and light numbers are the pure function `Visual.ShellLayout`.
- `updateCounter`, `moveToNextPhase` and `startPhaseTransition` only run from breathing frames, because `animate` returns right after `handleIntroAnimation` during the introduction. So `UpdateCounter`, `MoveToNextPhase` and `BeginTransition` require `!isIntro`. The intro branches inside the variant counter and scale methods are still modelled.
- Floating point is modelled as exact `real` arithmetic, with no IEEE rounding. So `Square.InhaleSweepsRange` is exact where the browser may land a rounding error away from maxScale.
- `setupScene` is modelled as always succeeding; it returns the renderer's canvas, which is never missing.
- Init's first frame has no timestamp, so in it every comparison with `undefined` is false: that frame only sets the scale to 1. The model writes this effect directly instead of calling `HandleIntroAnimation`.
- `initSquareBreathing` calls `reset` once more before `init`. The model does not repeat that call; `Init` resets anyway, so the state is the same.
- Exercise.BreathingExercise.Init: requires a fresh exercise (`isIntro`). A fresh exercise is the only state in which `init` is called, and a sleep exercise does not reset in `init`.
- Exercise.BreathingExercise.HandleIntroAnimation: requires the instruction element from the half-way point on. The variants write the focus text there without checking that the element exists, so without it the code would throw.
- Exercise.BreathingExercise.Animate: requires the scene, because the code renders it on every frame; without it the code throws.
- Exercise.BreathingExercise.CompleteTransition: requires a pending transition whose delay has passed, the only state in which the timer callback runs.
- Exercise.BreathingExercise.UpdateCounterBasedOnProgress: requires a progress in [0,1]; its only caller passes the clamped progress.
- Prototype.BreathingPrototype.UpdateInstruction: assumes the instruction element exists. The code reads it without a check, and a missing element would make it throw.
- Prototype.BreathingPrototype.UpdateCounter: requires the counter element. The code writes to it without a check, and a missing element would make it throw.
- Prototype.BreathingPrototype.AdjustCubeScale: the cube mesh is not modelled, so `scale.set` on it is left out.
