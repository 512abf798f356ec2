/** Configuration constants of the breathing application and the three exercise kinds. */
module Config {

  /** The three exercise kinds built on the common engine. */
  datatype Variant = SquareBreathing | BalancedBreathing | SleepBreathing

  /** Smallest scale of the breathing shape. */
  const MinScale: real := 0.8
  /** Largest scale configured for every exercise kind. */
  const DefaultMaxScale: real := 1.8

  /** Length of the calming introduction, in milliseconds. */
  const IntroDuration: int := 12000
  /** Delay between the start of a phase transition and the next phase, in milliseconds. */
  const TransitionDuration: int := 500
  /** Interval of the counter tick, in milliseconds. */
  const Interval: int := 1000

  /** Fixed phase length of the balanced exercise, in milliseconds. */
  const BalancedPhaseDuration: int := 4000

  /** Text shown before and during the first half of the introduction. */
  const RelaxText: string := "Relax and make yourself comfortable"
  /** Text shown from the middle of the introduction on. */
  const FocusText: string := "Focus on your breathing"

  /** Number of stages in the breathing cycle of each kind. */
  function StageCount(v: Variant): (n: int)
    ensures 2 <= n <= 4
  {
    match v
    case SquareBreathing => 4
    case BalancedBreathing => 2
    case SleepBreathing => 3
  }

  /** The per-exercise configuration the host hands to an exercise. */
  datatype ExerciseConfig = ExerciseConfig(
    maxScale: real,
    phases: int,
    defaultCounter: int,
    duration: int)  // seconds, or -1 for an endless session

  /** What the engine needs of a configuration: a scale range that contains 1, a positive
      counter and a duration that is either endless (-1) or a number of seconds. */
  predicate ConfigOk(c: ExerciseConfig) {
    1.0 <= c.maxScale && 1 <= c.defaultCounter && (c.duration == -1 || c.duration >= 0)
  }

  /** The configuration the host builds for a kind: the shipped constants plus the chosen
      duration. Its phase count agrees with the stage count the exercise code hard-codes, and
      with an endless or non-negative duration it is a configuration the engine accepts. */
  function ShippedConfig(v: Variant, duration: int): (c: ExerciseConfig)
    ensures c.phases == StageCount(v)
    ensures c.duration == duration
    ensures duration == -1 || duration >= 0 ==> ConfigOk(c)
  {
    match v
    case SquareBreathing => ExerciseConfig(DefaultMaxScale, 4, 4, duration)
    case BalancedBreathing => ExerciseConfig(DefaultMaxScale, 2, 4, duration)
    case SleepBreathing => ExerciseConfig(DefaultMaxScale, 3, 8, duration)
  }
}
