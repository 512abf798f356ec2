/** The numeric part of the base engine's shape update: the sizes of the core shape and its four
    glow shells, the shells' opacity, and the point light's intensity, all derived from `scale`. */
module Visual {
  import opened Config
  import RealMath

  /** Intensity of the point light at the smallest and the largest scale. */
  const LightMin: real := 0.5
  const LightMax: real := 2.0

  /** Opacity of the inner and the outer shells while exhaling. */
  const ExhaleGlowOpacity: real := 0.45
  const ExhaleOuterGlowOpacity: real := 0.15
  /** Otherwise the inner shells start at `BaseGlowOpacity` and gain up to `ExtraGlowOpacity`;
      the outer shells take `OuterGlowFactor` of that. */
  const BaseGlowOpacity: real := 0.15
  const ExtraGlowOpacity: real := 0.3
  const OuterGlowFactor: real := 0.33

  /** How far `scale` is along the range from the smallest to the largest scale. */
  function ScaleProgress(scale: real, maxScale: real): (p: real)
    requires MinScale < maxScale
    ensures MinScale <= scale <= maxScale ==> 0.0 <= p <= 1.0
    ensures scale == MinScale ==> p == 0.0
    ensures scale == maxScale ==> p == 1.0
    ensures p * (maxScale - MinScale) == scale - MinScale
  {
    (scale - MinScale) / (maxScale - MinScale)
  }

  /** A larger scale is further along the range. */
  lemma ProgressIncreasing(s1: real, s2: real, maxScale: real)
    requires MinScale < maxScale && s1 <= s2
    ensures ScaleProgress(s1, maxScale) <= ScaleProgress(s2, maxScale)
  {
    RealMath.DivideKeepsOrder(s1 - MinScale, s2 - MinScale, maxScale - MinScale);
  }

  /** The light intensity for a scale: linear from `LightMin` at the smallest scale to
      `LightMax` at the largest. */
  function LightIntensity(scale: real, maxScale: real): (i: real)
    requires MinScale < maxScale
    ensures MinScale <= scale <= maxScale ==> LightMin <= i <= LightMax
    ensures scale == MinScale ==> i == LightMin
    ensures scale == maxScale ==> i == LightMax
  {
    LightMin + (LightMax - LightMin) * ScaleProgress(scale, maxScale)
  }

  /** A larger scale never gives a dimmer light. */
  lemma LightIncreasing(s1: real, s2: real, maxScale: real)
    requires MinScale < maxScale && s1 <= s2
    ensures LightIntensity(s1, maxScale) <= LightIntensity(s2, maxScale)
  {
    ProgressIncreasing(s1, s2, maxScale);
  }

  /** Sizes and opacities of the five meshes and the light intensity after one base update. */
  datatype Layers = Layers(
    core: real, glow: real, outerGlow: real, backGlow: real, outerBackGlow: real,
    glowOpacity: real, outerGlowOpacity: real, backGlowOpacity: real, outerBackGlowOpacity: real,
    light: real)

  /** The base engine's shape update for a scale and a stage. */
  function ShellLayout(scale: real, stage: int, maxScale: real): (l: Layers)
    requires MinScale < maxScale
    ensures l.core == scale
    ensures l.glow == l.backGlow == 1.2 * scale && l.outerGlow == l.outerBackGlow == 1.4 * scale
    ensures l.backGlowOpacity == l.glowOpacity && l.outerBackGlowOpacity == l.outerGlowOpacity
    ensures stage == 2 ==>
      l.glowOpacity == ExhaleGlowOpacity && l.outerGlowOpacity == ExhaleOuterGlowOpacity
    ensures stage != 2 ==> l.outerGlowOpacity == l.glowOpacity * OuterGlowFactor
    ensures l.light == LightIntensity(scale, maxScale)
    ensures MinScale <= scale <= maxScale ==>
      BaseGlowOpacity <= l.glowOpacity <= ExhaleGlowOpacity
      && LightMin <= l.light <= LightMax
  {
    var glowOpacity := if stage == 2 then ExhaleGlowOpacity
                       else BaseGlowOpacity + ExtraGlowOpacity * ScaleProgress(scale, maxScale);
    var outerOpacity := if stage == 2 then ExhaleOuterGlowOpacity
                        else glowOpacity * OuterGlowFactor;
    Layers(scale, scale * 1.2, scale * 1.4, scale * 1.2, scale * 1.4,
      glowOpacity, outerOpacity, glowOpacity, outerOpacity,
      LightIntensity(scale, maxScale))
  }

  /** The shells always enclose the core: inner shells are larger than it, outer shells larger
      than the inner ones. */
  lemma ShellsEnclose(scale: real, stage: int, maxScale: real)
    requires MinScale < maxScale && MinScale <= scale
    ensures var l := ShellLayout(scale, stage, maxScale); l.core < l.glow < l.outerGlow
  {
  }

  /** Outside the exhale the inner shells brighten with the scale, and at the largest scale they
      reach exactly the exhale opacity, so the switch to exhaling does not jump. */
  lemma GlowBrightensToExhale(s1: real, s2: real, stage: int, maxScale: real)
    requires MinScale < maxScale && s1 <= s2 && stage != 2
    ensures ShellLayout(s1, stage, maxScale).glowOpacity <= ShellLayout(s2, stage, maxScale).glowOpacity
    ensures ShellLayout(maxScale, stage, maxScale).glowOpacity == ExhaleGlowOpacity
  {
    ProgressIncreasing(s1, s2, maxScale);
  }
}
