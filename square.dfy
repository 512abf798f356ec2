/** The rules of the square (box) exercise: four equal, time-based phases (inhale, hold, exhale,
    hold), a fixed scale step per 16 ms frame, and a counter computed from the phase's progress. */
module Square {
  import opened Config
  import opened RealMath
  import opened Stepping

  /** Length of a phase for a configured counter, in milliseconds. */
  function PhaseDuration(defaultCounter: int): (d: int)
    requires defaultCounter >= 1
    ensures d >= 1000 && d % 1000 == 0 && d / 1000 == defaultCounter
  {
    defaultCounter * 1000
  }

  /** The instruction shown for a stage, or the introduction text. */
  function Instruction(isIntro: bool, stage: int): (t: string)
    requires 0 <= stage < 4
    ensures isIntro ==> t == RelaxText
    ensures !isIntro && stage % 2 == 1 ==> t == "Hold your breath"
    ensures !isIntro ==> (t == "Inhale" <==> stage == 0) && (t == "Exhale" <==> stage == 2)
  {
    if isIntro then RelaxText
    else match stage
      case 0 => "Inhale"
      case 1 => "Hold your breath"
      case 2 => "Exhale"
      case 3 => "Hold your breath"
  }

  /** A lap of four stages from the inhale reads Inhale, Hold, Exhale, Hold. */
  lemma InstructionLap()
    ensures [Instruction(false, 0), Instruction(false, 1), Instruction(false, 2), Instruction(false, 3)]
         == ["Inhale", "Hold your breath", "Exhale", "Hold your breath"]
  {
  }

  /** The per-frame scale step: the scale range divided by the number of 16 ms frames in a
      phase, so that the frames of one phase sweep exactly the whole range. */
  function ScaleStep(maxScale: real, phaseDuration: int): (step: real)
    requires MinScale < maxScale && phaseDuration > 0
    ensures step > 0.0
    ensures step * (phaseDuration as real / 16.0) == maxScale - MinScale
  {
    (maxScale - MinScale) / (phaseDuration as real / 16.0)
  }

  /** When a phase is a whole number of 16 ms frames, an inhale from the smallest scale reaches
      the largest scale on its last frame and not before. */
  lemma InhaleSweepsRange(maxScale: real, phaseDuration: int)
    requires MinScale < maxScale && phaseDuration > 0 && phaseDuration % 16 == 0
    ensures var step, k := ScaleStep(maxScale, phaseDuration), phaseDuration / 16;
      Frames(0, MinScale, step, maxScale, k) == maxScale
      && Frames(0, MinScale, step, maxScale, k - 1) < maxScale
  {
    var step, k := ScaleStep(maxScale, phaseDuration), phaseDuration / 16;
    WholeFrames(phaseDuration);
    SteppedIsLinear(MinScale, step, k);
    assert Stepped(MinScale, step, k) == maxScale;
    InhaleCapped(MinScale, step, maxScale, k);
    InhaleCapped(MinScale, step, maxScale, k - 1);
  }

  /** A phase of a whole number of 16 ms frames has exactly that many frames. */
  lemma WholeFrames(phaseDuration: int)
    requires phaseDuration > 0 && phaseDuration % 16 == 0
    ensures (phaseDuration / 16) as real == phaseDuration as real / 16.0
  {
    var k := phaseDuration / 16;
    assert k * 16 == phaseDuration;
    assert k as real * 16.0 == phaseDuration as real;
  }

  /** The counter shown `elapsed` ms into a phase: counting up 1 to 4 in the inhale and the
      first hold, down 4 to 1 in the exhale and the second hold, always clamped to 1..4. */
  function CounterDisplay(stage: int, elapsed: int, phaseDuration: int): (c: int)
    requires phaseDuration > 0
    ensures 1 <= c <= 4
  {
    var progress := elapsed as real / phaseDuration as real;
    var raw := if stage == 0 || stage == 1 then MaxInt(1, Floor(1.0 + progress * 4.0))
               else Ceil(4.0 - progress * 4.0);
    MinInt(MaxInt(raw, 1), 4)
  }

  /** At the very start of a phase the counter reads 1 when counting up and 4 when counting
      down, whatever value the phase change left in it. */
  lemma PhaseStartCounter(stage: int, phaseDuration: int)
    requires phaseDuration > 0
    ensures CounterDisplay(stage, 0, phaseDuration) == if stage == 0 || stage == 1 then 1 else 4
  {
  }

  /** Counting up is a bucket count: the counter is 1 plus the number of quarters of the phase
      already elapsed, at most 4. */
  lemma CountUpBuckets(stage: int, elapsed: int, phaseDuration: int)
    requires stage == 0 || stage == 1
    requires phaseDuration > 0 && elapsed >= 0
    ensures CounterDisplay(stage, elapsed, phaseDuration) == MinInt(4, 1 + 4 * elapsed / phaseDuration)
  {
    ScaledRatio(elapsed, phaseDuration, 4);
    FloorOfRatio(4 * elapsed, phaseDuration);
  }

  /** Counting down is the mirror image: 4 minus the number of quarters already elapsed, at
      least 1. */
  lemma CountDownBuckets(stage: int, elapsed: int, phaseDuration: int)
    requires stage == 2 || stage == 3
    requires phaseDuration > 0 && elapsed >= 0
    ensures CounterDisplay(stage, elapsed, phaseDuration) == MaxInt(1, 4 - 4 * elapsed / phaseDuration)
  {
    ScaledRatio(elapsed, phaseDuration, 4);
    FloorOfRatio(4 * elapsed, phaseDuration);
  }

  /** As time passes within a phase, the counter never goes down in the inhale and the first
      hold, and never goes up in the exhale and the second hold. */
  lemma CounterDirection(stage: int, e1: int, e2: int, phaseDuration: int)
    requires phaseDuration > 0 && e1 <= e2
    ensures stage == 0 || stage == 1 ==>
      CounterDisplay(stage, e1, phaseDuration) <= CounterDisplay(stage, e2, phaseDuration)
    ensures stage != 0 && stage != 1 ==>
      CounterDisplay(stage, e1, phaseDuration) >= CounterDisplay(stage, e2, phaseDuration)
  {
    var p1, p2 := e1 as real / phaseDuration as real, e2 as real / phaseDuration as real;
    DivideKeepsOrder(e1 as real, e2 as real, phaseDuration as real);
    FloorKeepsOrder(1.0 + p1 * 4.0, 1.0 + p2 * 4.0);
    FloorKeepsOrder(p1 * 4.0 - 4.0, p2 * 4.0 - 4.0);
  }
}
