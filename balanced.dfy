/** The rules of the balanced exercise: two phases of 4 s (inhale, exhale) whose scale is a
    time-based linear interpolation between the phase's initial and target scale, and whose
    counter is read off the phase's progress in three steps. */
module Balanced {
  import opened Config
  import opened RealMath
  import Cycle

  /** The scale a phase starts from and the scale it moves to: the inhale goes from the
      smallest to the largest scale, the exhale back. */
  function Endpoints(stage: int, maxScale: real): (real, real) {
    if stage == 0 then (MinScale, maxScale) else (maxScale, MinScale)
  }

  /** The two phases join up: each one starts where the other ends, and only the inhale moves
      upward. */
  lemma PhasesJoin(stage: int, maxScale: real)
    requires 0 <= stage < 2 && MinScale < maxScale
    ensures var next := Cycle.NextStage(stage, 2);
      Endpoints(stage, maxScale).1 == Endpoints(next, maxScale).0
      && Endpoints(stage, maxScale).0 == Endpoints(next, maxScale).1
    ensures Endpoints(stage, maxScale).0 < Endpoints(stage, maxScale).1 <==> stage == 0
  {
  }

  /** The counter value a phase starts with: what the per-frame counter shows at the very start
      of the phase, so the phase change and the next frame agree. */
  function StartCounter(stage: int): (c: int)
    ensures c == CounterFromProgress(stage, 0.0)
  {
    if stage == 0 then 1 else 4
  }

  /** `Math.min(1, Math.max(0, p))`. */
  function ClampProgress(p: real): (q: real)
    ensures 0.0 <= q <= 1.0
    ensures 0.0 <= p <= 1.0 ==> q == p
    ensures p < 0.0 ==> q == 0.0
    ensures p > 1.0 ==> q == 1.0
  {
    MinReal(1.0, MaxReal(0.0, p))
  }

  /** The clamped fraction of the phase that has passed `elapsed` ms after its start. */
  function Progress(elapsed: int, phaseDuration: int): (p: real)
    requires phaseDuration > 0
    ensures 0.0 <= p <= 1.0
    ensures elapsed <= 0 ==> p == 0.0
    ensures elapsed >= phaseDuration ==> p == 1.0
    ensures 0 <= elapsed <= phaseDuration ==> p * phaseDuration as real == elapsed as real
  {
    var raw := elapsed as real / phaseDuration as real;
    DivideKeepsOrder(elapsed as real, 0.0, phaseDuration as real);
    DivideKeepsOrder(phaseDuration as real, elapsed as real, phaseDuration as real);
    DivideKeepsOrder(0.0, elapsed as real, phaseDuration as real);
    DivideKeepsOrder(elapsed as real, phaseDuration as real, phaseDuration as real);
    ClampProgress(raw)
  }

  /** Linear interpolation from `a` to `b`: `a` at progress 0, `b` at progress 1, and in between
      on the way. */
  function Lerp(a: real, b: real, p: real): (r: real)
    requires 0.0 <= p <= 1.0
    ensures p == 0.0 ==> r == a
    ensures p == 1.0 ==> r == b
    ensures MinReal(a, b) <= r <= MaxReal(a, b)
  {
    FractionOf(b - a, p);
    FractionOf(a - b, p);
    a + (b - a) * p
  }

  /** Halfway through a phase the scale is halfway between its endpoints. */
  lemma LerpMidpoint(a: real, b: real)
    ensures Lerp(a, b, 0.5) == (a + b) / 2.0
  {
  }

  /** Later progress moves the interpolation further toward the target. */
  lemma LerpTowardTarget(a: real, b: real, p1: real, p2: real)
    requires 0.0 <= p1 <= p2 <= 1.0
    ensures a <= b ==> Lerp(a, b, p1) <= Lerp(a, b, p2)
    ensures b <= a ==> Lerp(a, b, p1) >= Lerp(a, b, p2)
  {
    assert Lerp(a, b, p2) - Lerp(a, b, p1) == (b - a) * (p2 - p1);
    assert a <= b ==> (b - a) * (p2 - p1) >= 0.0;
    assert b <= a ==> (a - b) * (p2 - p1) >= 0.0;
  }

  /** The scale `elapsed` ms into a phase of the given stage. */
  function ScaleAt(stage: int, elapsed: int, phaseDuration: int, maxScale: real): (s: real)
    requires phaseDuration > 0 && MinScale <= maxScale
    ensures MinScale <= s <= maxScale
    ensures elapsed <= 0 ==> s == Endpoints(stage, maxScale).0
    ensures elapsed >= phaseDuration ==> s == Endpoints(stage, maxScale).1
  {
    var (initial, target) := Endpoints(stage, maxScale);
    Lerp(initial, target, Progress(elapsed, phaseDuration))
  }

  /** In the balanced exercise at 4 s phases, half a phase in the scale is the middle of the
      scale range. */
  lemma HalfPhaseIsMidScale(stage: int, maxScale: real)
    requires MinScale <= maxScale
    ensures ScaleAt(stage, BalancedPhaseDuration / 2, BalancedPhaseDuration, maxScale)
         == (MinScale + maxScale) / 2.0
  {
    assert Progress(BalancedPhaseDuration / 2, BalancedPhaseDuration) == 0.5;
    var (initial, target) := Endpoints(stage, maxScale);
    LerpMidpoint(initial, target);
  }

  /** The inhale only grows the shape as time passes, the exhale only shrinks it. */
  lemma ScaleDirection(stage: int, e1: int, e2: int, phaseDuration: int, maxScale: real)
    requires phaseDuration > 0 && MinScale <= maxScale && e1 <= e2
    ensures stage == 0 ==> ScaleAt(stage, e1, phaseDuration, maxScale) <= ScaleAt(stage, e2, phaseDuration, maxScale)
    ensures stage != 0 ==> ScaleAt(stage, e1, phaseDuration, maxScale) >= ScaleAt(stage, e2, phaseDuration, maxScale)
  {
    var raw1, raw2 := e1 as real / phaseDuration as real, e2 as real / phaseDuration as real;
    DivideKeepsOrder(e1 as real, e2 as real, phaseDuration as real);
    var (initial, target) := Endpoints(stage, maxScale);
    LerpTowardTarget(initial, target, ClampProgress(raw1), ClampProgress(raw2));
  }

  /** The counter for a progress: inhaling it rises 1, 2, 3, 4 with each third of the phase;
      exhaling it falls 4, 3, 2, 1. */
  function CounterFromProgress(stage: int, p: real): (c: int)
    requires 0.0 <= p <= 1.0
    ensures 1 <= c <= 4
  {
    var steps := Floor(p * 3.0);
    assert 0 <= steps <= 3;
    if stage == 0 then MinInt(4, 1 + steps) else MaxInt(1, 4 - steps)
  }

  /** Which third of the phase each counter value stands for: inhaling, the counter `c` below 4
      is shown exactly while the progress is in [(c-1)/3, c/3), and 4 only at the very end;
      exhaling mirrors this. */
  lemma CounterThirds(stage: int, p: real)
    requires 0.0 <= p <= 1.0
    ensures var c := CounterFromProgress(stage, p);
      if stage == 0 then
        (c < 4 ==> (c - 1) as real <= p * 3.0 < c as real) && (c == 4 <==> p == 1.0)
      else
        (c > 1 ==> (4 - c) as real <= p * 3.0 < (5 - c) as real) && (c == 1 <==> p == 1.0)
  {
  }

  /** As the phase progresses the inhale counter never goes down and the exhale counter never
      goes up. */
  lemma CounterDirection(stage: int, p1: real, p2: real)
    requires 0.0 <= p1 <= p2 <= 1.0
    ensures stage == 0 ==> CounterFromProgress(stage, p1) <= CounterFromProgress(stage, p2)
    ensures stage != 0 ==> CounterFromProgress(stage, p1) >= CounterFromProgress(stage, p2)
  {
    FloorKeepsOrder(p1 * 3.0, p2 * 3.0);
  }

  /** In milliseconds: the inhale counter is 1 plus the number of thirds of the phase elapsed,
      at most 4; the exhale counter is 4 minus it, at least 1. */
  lemma CounterAtTime(stage: int, elapsed: int, phaseDuration: int)
    requires phaseDuration > 0 && 0 <= elapsed <= phaseDuration
    ensures stage == 0 ==>
      CounterFromProgress(stage, Progress(elapsed, phaseDuration)) == MinInt(4, 1 + 3 * elapsed / phaseDuration)
    ensures stage != 0 ==>
      CounterFromProgress(stage, Progress(elapsed, phaseDuration)) == MaxInt(1, 4 - 3 * elapsed / phaseDuration)
  {
    var p := Progress(elapsed, phaseDuration);
    assert p == elapsed as real / phaseDuration as real;
    assert p * 3.0 == (3 * elapsed) as real / phaseDuration as real;
    FloorOfRatio(3 * elapsed, phaseDuration);
  }

  /** The instruction shown for a stage, or the introduction text. */
  function Instruction(isIntro: bool, stage: int): (t: string)
    ensures isIntro ==> t == RelaxText
    ensures !isIntro ==> (t == "Inhale" <==> stage == 0) && (t == "Exhale" <==> stage != 0)
  {
    if isIntro then RelaxText else if stage == 0 then "Inhale" else "Exhale"
  }
}
