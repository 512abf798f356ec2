/** The rules of the sleep (4-7-8) exercise: three phases (inhale, hold, exhale) driven by an
    integer counter that the interval tick steps, and a fixed scale step of 0.0025 per frame. */
module Sleep {
  import opened Config
  import opened Stepping

  /** The per-frame scale step of the sleep exercise. */
  const ScaleStep: real := 0.0025

  /** The sleep `shouldMoveToNextPhase`: the inhale is over once the counter passes 4, the hold
      once it passes 7, the exhale once it drops below 1. */
  predicate PhaseComplete(stage: int, counter: int) {
    (stage == 0 && counter > 4) || (stage == 1 && counter > 7) || (stage == 2 && counter < 1)
  }

  /** The counter a phase starts from: 1 for the inhale and the hold, 8 for the exhale. */
  function StartCounter(stage: int): (c: int)
    ensures stage == 0 || stage == 1 ==> c == 1
    ensures stage != 0 && stage != 1 ==> c == 8
    ensures 0 <= stage < 3 ==> !PhaseComplete(stage, c)
  {
    if stage == 0 then 1 else if stage == 1 then 1 else 8
  }

  /** The counter change of a tick that does not start a transition: down while exhaling, up
      otherwise. */
  function CountStep(stage: int, counter: int): int {
    if stage == 2 then counter - 1 else counter + 1
  }

  /** Each step of an unfinished phase brings it exactly one tick closer to its end. */
  lemma StepTowardEnd(stage: int, counter: int)
    requires InRange(stage, counter) && !PhaseComplete(stage, counter)
    ensures TicksLeft(stage, CountStep(stage, counter)) == TicksLeft(stage, counter) - 1
  {
  }

  /** The values the counter takes within a phase: [1,5] while inhaling, [1,8] while holding,
      [0,8] while exhaling. */
  predicate InRange(stage: int, counter: int) {
    0 <= stage < 3 && (if stage == 2 then 0 else 1) <= counter <= (if stage == 0 then 5 else 8)
  }

  /** What a tick outside a transition does to the counter: a tick that finds the phase complete
      starts the transition and leaves the counter alone, any other tick steps it. */
  function TickCounter(stage: int, counter: int): (c: int)
  {
    if PhaseComplete(stage, counter) then counter else CountStep(stage, counter)
  }

  /** Every phase starts in range, and ticks keep the counter in range. */
  lemma RangeInvariant(stage: int, counter: int)
    requires 0 <= stage < 3
    ensures InRange(stage, StartCounter(stage))
    ensures InRange(stage, counter) ==> InRange(stage, TickCounter(stage, counter))
  {
  }

  /** The counter is in range exactly when it lies between the phase's start and the first value
      that completes it. */
  lemma InRangeBetweenStartAndEnd(stage: int, counter: int)
    requires 0 <= stage < 3
    ensures InRange(stage, counter) <==>
      if stage == 2 then 0 <= counter <= StartCounter(stage)
      else StartCounter(stage) <= counter <= (if stage == 0 then 5 else 8)
  {
  }

  /** How many more ticks a phase needs before the tick that completes it. */
  function TicksLeft(stage: int, counter: int): nat
    requires 0 <= stage < 3
  {
    if PhaseComplete(stage, counter) then 0
    else if stage == 2 then counter
    else (if stage == 0 then 5 else 8) - counter
  }

  /** The counter values shown by the ticks of a phase, starting with `counter`, up to but not
      including the tick that starts the transition (whose value is hidden at once). */
  function Shown(stage: int, counter: int): seq<int>
    requires 0 <= stage < 3
    decreases TicksLeft(stage, counter)
  {
    if PhaseComplete(stage, counter) then [] else [counter] + Shown(stage, CountStep(stage, counter))
  }

  /** The integers from `lo` up to `hi`. */
  function Ascending(lo: int, hi: int): seq<int>
    decreases hi - lo
  {
    if lo > hi then [] else [lo] + Ascending(lo + 1, hi)
  }

  /** The integers from `hi` down to `lo`. */
  function Descending(hi: int, lo: int): seq<int>
    decreases hi - lo
  {
    if hi < lo then [] else [hi] + Descending(hi - 1, lo)
  }

  /** From any counter in range, the shown values count up to 4 while inhaling, up to 7 while
      holding, and down to 1 while exhaling. */
  lemma {:induction false} ShownCounts(stage: int, counter: int)
    requires 0 <= stage < 3 && InRange(stage, counter)
    ensures stage == 0 ==> Shown(stage, counter) == Ascending(counter, 4)
    ensures stage == 1 ==> Shown(stage, counter) == Ascending(counter, 7)
    ensures stage == 2 ==> Shown(stage, counter) == Descending(counter, 1)
    decreases TicksLeft(stage, counter)
  {
    if !PhaseComplete(stage, counter) {
      ShownCounts(stage, CountStep(stage, counter));
    }
  }

  /** The 4-7-8 pattern: from its start, the inhale shows 1 to 4, the hold 1 to 7 and the
      exhale 8 down to 1, so the phases last 4, 7 and 8 shown counts. */
  lemma FourSevenEight()
    ensures Shown(0, StartCounter(0)) == [1, 2, 3, 4]
    ensures Shown(1, StartCounter(1)) == [1, 2, 3, 4, 5, 6, 7]
    ensures Shown(2, StartCounter(2)) == [8, 7, 6, 5, 4, 3, 2, 1]
  {
    ShownCounts(0, 1);
    ShownCounts(1, 1);
    ShownCounts(2, 8);
  }

  /** Stepping the counter from the phase start as many times as values are shown reaches the
      value that completes the phase, and no earlier value completes it. */
  lemma {:induction false} ShownThenComplete(stage: int, counter: int)
    requires 0 <= stage < 3 && InRange(stage, counter)
    ensures PhaseComplete(stage, Steps(stage, counter, |Shown(stage, counter)|))
    ensures forall k :: 0 <= k < |Shown(stage, counter)| ==> !PhaseComplete(stage, Steps(stage, counter, k))
    decreases TicksLeft(stage, counter)
  {
    if !PhaseComplete(stage, counter) {
      var next := CountStep(stage, counter);
      ShownThenComplete(stage, next);
      forall k | 0 <= k < |Shown(stage, counter)|
        ensures !PhaseComplete(stage, Steps(stage, counter, k))
      {
        if k > 0 {
          StepsShift(stage, counter, k - 1);
        }
      }
      StepsShift(stage, counter, |Shown(stage, next)|);
    }
  }

  /** The counter after `k` steps of a phase. */
  function Steps(stage: int, counter: int, k: nat): int {
    if k == 0 then counter else CountStep(stage, Steps(stage, counter, k - 1))
  }

  /** Taking one step first and then `k` is taking `k + 1`. */
  lemma {:induction false} StepsShift(stage: int, counter: int, k: nat)
    ensures Steps(stage, CountStep(stage, counter), k) == Steps(stage, counter, k + 1)
  {
    if k > 0 {
      StepsShift(stage, counter, k - 1);
    }
  }

  /** The instruction for a stage: each of the three stages has its own text. */
  function Instruction(stage: int): (t: string)
    requires 0 <= stage < 3
    ensures (t == "Inhale" <==> stage == 0) && (t == "Hold your breath" <==> stage == 1)
    ensures t == "Exhale" <==> stage == 2
  {
    match stage
    case 0 => "Inhale"
    case 1 => "Hold your breath"
    case 2 => "Exhale"
  }

  /** An inhale from the scale 1 that the instruction resets it to reaches the shipped largest
      scale on its 320th frame of 0.0025 and not before. */
  lemma InhaleFromOneReachesMax()
    ensures Frames(0, 1.0, ScaleStep, DefaultMaxScale, 320) == DefaultMaxScale
    ensures Frames(0, 1.0, ScaleStep, DefaultMaxScale, 319) < DefaultMaxScale
  {
    InhaleFrames(1.0, ScaleStep, DefaultMaxScale, 320);
    InhaleFrames(1.0, ScaleStep, DefaultMaxScale, 319);
  }
}
