/** Stage arithmetic shared by every exercise, and the transition guard of the common engine:
    a tick that finds the phase over raises `isTransitioning`, and only the delayed completion
    advances the stage and lowers the flag again. */
module Cycle {

  /** The stage after `stage` in a cycle of `n` stages: the source's `(stage + 1) % n`. */
  function NextStage(stage: int, n: int): (r: int)
    requires 0 < n && 0 <= stage < n
    ensures 0 <= r < n
    ensures r == if stage == n - 1 then 0 else stage + 1
  {
    (stage + 1) % n
  }

  /** The stage reached after `k` advances. */
  function StageAfter(stage: int, n: int, k: nat): (r: int)
    requires 0 < n && 0 <= stage < n
  {
    if k == 0 then stage else NextStage(StageAfter(stage, n, k - 1), n)
  }

  /** Advancing `k` times moves `k` places around the cycle, and stays within it. */
  lemma {:induction false} StageAfterIsShift(stage: int, n: int, k: nat)
    requires 0 < n && 0 <= stage < n
    ensures StageAfter(stage, n, k) == (stage + k) % n
  {
    if k > 0 {
      StageAfterIsShift(stage, n, k - 1);
      ShiftStep(stage + k - 1, n);
    }
  }

  /** One step of the shift: `((x % n) + 1) % n == (x + 1) % n` for non-negative `x`. */
  lemma ShiftStep(x: nat, n: int)
    requires 0 < n
    ensures ((x % n) + 1) % n == (x + 1) % n
  {
    var q, r := x / n, x % n;
    if r + 1 < n {
      ModUnique(x + 1, n, q, r + 1);
      ModUnique(r + 1, n, 0, r + 1);
    } else {
      ModUnique(x + 1, n, q + 1, 0);
      ModUnique(r + 1, n, 1, 0);
    }
  }

  /** Division with remainder has one answer: if `x == q * n + r` with `0 <= r < n`, then `r`
      is `x % n` and `q` is `x / n`. */
  lemma ModUnique(x: int, n: int, q: int, r: int)
    requires 0 < n && 0 <= r < n && x == q * n + r
    ensures x % n == r && x / n == q
  {
    var q', r' := x / n, x % n;
    assert x == q' * n + r';
    var d := q - q';
    assert d * n == q * n - q' * n;
    assert d * n == r' - r;
    assert d >= 1 ==> d * n >= n;
    assert d <= -1 ==> -d * n >= n;
  }

  /** A full lap of `n` advances returns to the starting stage, and no shorter one does. */
  lemma FullLap(stage: int, n: int, k: nat)
    requires 0 < n && 0 <= stage < n
    ensures StageAfter(stage, n, n) == stage
    ensures 0 < k < n ==> StageAfter(stage, n, k) != stage
  {
    StageAfterIsShift(stage, n, n);
    ModUnique(stage + n, n, 1, stage);
    if 0 < k < n {
      StageAfterIsShift(stage, n, k);
      if stage + k < n {
        ModUnique(stage + k, n, 0, stage + k);
      } else {
        ModUnique(stage + k, n, 1, stage + k - n);
      }
    }
  }

  /** The time-based `shouldMoveToNextPhase` of the square and the balanced exercises: the
      current phase has lasted its full duration. */
  predicate PhaseOver(now: int, phaseStartTime: int, phaseDuration: int) {
    now - phaseStartTime >= phaseDuration
  }

  /** Once a phase is over it stays over as time goes on, and a phase that has just started is
      not over. */
  lemma PhaseOverStays(phaseStartTime: int, phaseDuration: int, t1: int, t2: int)
    requires phaseDuration > 0 && t1 <= t2
    ensures PhaseOver(t1, phaseStartTime, phaseDuration) ==> PhaseOver(t2, phaseStartTime, phaseDuration)
    ensures !PhaseOver(phaseStartTime, phaseStartTime, phaseDuration)
  {
  }

  /** The part of the engine state the transition protocol touches. */
  datatype Guard = Guard(stage: int, transitioning: bool)

  /** What can happen to the guard: a counter tick on which the variant's
      `shouldMoveToNextPhase` has value `fires`, or the delayed completion callback. */
  datatype Event = Tick(fires: bool) | Completion

  /** One event. A tick during a transition does nothing; a tick whose predicate fires starts a
      transition; the completion advances the stage and ends the transition. A completion only
      exists after a start, so one that finds no transition changes nothing. */
  function Step(g: Guard, e: Event, n: int): (r: Guard)
    requires 0 < n && 0 <= g.stage < n
    ensures 0 <= r.stage < n
  {
    match e
    case Tick(fires) => if g.transitioning || !fires then g else Guard(g.stage, true)
    case Completion => if g.transitioning then Guard(NextStage(g.stage, n), false) else g
  }

  /** How many transitions a run of events starts. */
  function Starts(g: Guard, es: seq<Event>, n: int): nat
    requires 0 < n && 0 <= g.stage < n
    decreases |es|
  {
    if es == [] then 0
    else
      var g' := Step(g, es[0], n);
      (if !g.transitioning && g'.transitioning then 1 else 0) + Starts(g', es[1..], n)
  }

  /** How many stage advances a run of events makes. */
  function Advances(g: Guard, es: seq<Event>, n: int): nat
    requires 0 < n && 0 <= g.stage < n
    decreases |es|
  {
    if es == [] then 0
    else
      var g' := Step(g, es[0], n);
      (if g.transitioning && !g'.transitioning then 1 else 0) + Advances(g', es[1..], n)
  }

  /** The guard after a run of events. */
  function Run(g: Guard, es: seq<Event>, n: int): (r: Guard)
    requires 0 < n && 0 <= g.stage < n
    ensures 0 <= r.stage < n
    decreases |es|
  {
    if es == [] then g else Run(Step(g, es[0], n), es[1..], n)
  }

  /** Over any interleaving of ticks and completions, starting outside a transition: each
      started transition advances the stage at most once (the advances are the completed
      starts), a transition still pending accounts for the one start not yet advanced, and the
      stage has moved exactly once per advance. */
  lemma {:induction false} GuardAdvancesOncePerStart(g: Guard, es: seq<Event>, n: int)
    requires 0 < n && 0 <= g.stage < n && !g.transitioning
    ensures var r := Run(g, es, n);
      Advances(g, es, n) + (if r.transitioning then 1 else 0) == Starts(g, es, n)
      && r.stage == StageAfter(g.stage, n, Advances(g, es, n))
  {
    GuardRun(g, es, n);
  }

  /** The same invariant from any guard: a pending start is counted as begun before the run. */
  lemma {:induction false} GuardRun(g: Guard, es: seq<Event>, n: int)
    requires 0 < n && 0 <= g.stage < n
    ensures var r := Run(g, es, n);
      Advances(g, es, n) + (if r.transitioning then 1 else 0)
        == Starts(g, es, n) + (if g.transitioning then 1 else 0)
      && r.stage == StageAfter(g.stage, n, Advances(g, es, n))
    decreases |es|
  {
    if es != [] {
      var g' := Step(g, es[0], n);
      GuardRun(g', es[1..], n);
      StageAfterCompose(g.stage, n, if g.transitioning && !g'.transitioning then 1 else 0,
        Advances(g', es[1..], n));
    }
  }

  /** Advancing `a` times and then `b` times is advancing `a + b` times. */
  lemma {:induction false} StageAfterCompose(stage: int, n: int, a: nat, b: nat)
    requires 0 < n && 0 <= stage < n
    ensures StageAfter(StageAfter(stage, n, a), n, b) == StageAfter(stage, n, a + b)
    decreases b
  {
    if b > 0 {
      StageAfterCompose(stage, n, a, b - 1);
    }
  }
}
