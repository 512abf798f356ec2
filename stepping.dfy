/** The fixed-step scale update the square and the sleep exercises share: each frame the inhale
    adds a step, capped at the largest scale, and the exhale subtracts it, floored at the smallest
    scale. */
module Stepping {
  import opened Config
  import opened RealMath

  /** One frame's scale update outside the introduction: the inhale (stage 0) grows the scale
      by the step up to the largest scale, the exhale (stage 2) shrinks it down to the smallest,
      every other stage keeps it. */
  function AdjustScale(stage: int, scale: real, step: real, maxScale: real): (r: real)
    requires step > 0.0
    ensures MinScale <= scale <= maxScale ==> MinScale <= r <= maxScale
    ensures stage != 0 && stage != 2 ==> r == scale
    ensures stage == 0 && scale <= maxScale ==> scale <= r && (r < maxScale ==> r == scale + step)
    ensures stage == 2 && MinScale <= scale ==> r <= scale && (r > MinScale ==> r == scale - step)
  {
    if stage == 0 then
      (if scale + step > maxScale then maxScale else scale + step)
    else if stage == 2 then
      (if scale - step < MinScale then MinScale else scale - step)
    else scale
  }

  /** The scale after `k` frames of one stage. */
  function Frames(stage: int, scale: real, step: real, maxScale: real, k: nat): real
    requires step > 0.0
  {
    if k == 0 then scale else AdjustScale(stage, Frames(stage, scale, step, maxScale, k - 1), step, maxScale)
  }

  /** One inhale frame applied to a capped scale is the cap applied one step further. */
  lemma InhaleStep(grown: real, step: real, maxScale: real)
    requires step > 0.0
    ensures AdjustScale(0, MinReal(grown, maxScale), step, maxScale) == MinReal(grown + step, maxScale)
  {
  }

  /** One exhale frame applied to a floored scale is the floor applied one step further. */
  lemma ExhaleStep(shrunk: real, step: real, maxScale: real)
    requires step > 0.0
    ensures AdjustScale(2, MaxReal(shrunk, MinScale), step, maxScale) == MaxReal(shrunk - step, MinScale)
  {
  }

  /** The scale `k` steps of `step` away from `scale`, counting step by step. */
  function Stepped(scale: real, step: real, k: nat): real {
    if k == 0 then scale else Stepped(scale, step, k - 1) + step
  }

  /** Counting `k` steps one at a time is adding `k` times the step. */
  lemma {:induction false} SteppedIsLinear(scale: real, step: real, k: nat)
    ensures Stepped(scale, step, k) == scale + k as real * step
  {
    if k > 0 {
      SteppedIsLinear(scale, step, k - 1);
      assert k as real * step == (k - 1) as real * step + step;
    }
  }

  /** An inhale of `k` frames grows the scale by `k` steps, capped at the largest scale. */
  lemma {:induction false} InhaleFrames(scale: real, step: real, maxScale: real, k: nat)
    requires step > 0.0 && scale <= maxScale
    ensures Frames(0, scale, step, maxScale, k) == MinReal(scale + k as real * step, maxScale)
  {
    InhaleCapped(scale, step, maxScale, k);
    SteppedIsLinear(scale, step, k);
  }

  lemma {:induction false} InhaleCapped(scale: real, step: real, maxScale: real, k: nat)
    requires step > 0.0 && scale <= maxScale
    ensures Frames(0, scale, step, maxScale, k) == MinReal(Stepped(scale, step, k), maxScale)
  {
    if k > 0 {
      InhaleCapped(scale, step, maxScale, k - 1);
      InhaleStep(Stepped(scale, step, k - 1), step, maxScale);
    }
  }

  /** An exhale of `k` frames shrinks the scale by `k` steps, floored at the smallest scale. */
  lemma {:induction false} ExhaleFrames(scale: real, step: real, maxScale: real, k: nat)
    requires step > 0.0 && MinScale <= scale
    ensures Frames(2, scale, step, maxScale, k) == MaxReal(scale - k as real * step, MinScale)
  {
    ExhaleFloored(scale, step, maxScale, k);
    SteppedIsLinear(scale, -step, k);
  }

  lemma {:induction false} ExhaleFloored(scale: real, step: real, maxScale: real, k: nat)
    requires step > 0.0 && MinScale <= scale
    ensures Frames(2, scale, step, maxScale, k) == MaxReal(Stepped(scale, -step, k), MinScale)
  {
    if k > 0 {
      ExhaleFloored(scale, step, maxScale, k - 1);
      ExhaleStep(Stepped(scale, -step, k - 1), step, maxScale);
    }
  }
}
