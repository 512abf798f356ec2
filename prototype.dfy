/** The first prototype of the exercise: a cube whose scale follows a four-stage cycle, driven
    by a counter that a one-second interval shows and then decrements. Its state is three
    module-level globals, modelled as the fields of one object. */
module Prototype {
  import Cycle
  import Stepping
  import opened Config
  import opened Clock
  import opened Dom

  /** Scale change of the cube per frame while inhaling or exhaling. */
  const CubeStep: real := 0.01

  /** The instruction the prototype writes for a stage. */
  function Instruction(stage: int): (t: string)
    requires 0 <= stage < 4
    ensures (t == "Inspirez" <==> stage == 0) && (t == "Expirez" <==> stage == 2)
    ensures stage % 2 == 1 ==> t == "Gardez votre respiration"
  {
    match stage
    case 0 => "Inspirez"
    case 1 => "Gardez votre respiration"
    case 2 => "Expirez"
    case 3 => "Gardez votre respiration"
  }

  /** The result of one interval tick: the new stage and counter, and the value shown. */
  datatype Tick = Tick(stage: int, counter: int, shown: int)

  /** One tick: a counter at 0 first moves to the next stage and back to 4; then the counter is
      shown and decremented. */
  function TickStep(stage: int, counter: int): (r: Tick)
    requires 0 <= stage < 4
    ensures 0 <= r.stage < 4
    ensures r.counter == r.shown - 1
    ensures r.stage != stage <==> counter == 0
    ensures counter == 0 ==> r.stage == Cycle.NextStage(stage, 4) && r.shown == 4
    ensures counter != 0 ==> r.shown == counter
    ensures 0 <= counter <= 4 ==> 1 <= r.shown <= 4 && 0 <= r.counter <= 3
  {
    if counter == 0 then Tick(Cycle.NextStage(stage, 4), 3, 4)
    else Tick(stage, counter - 1, counter)
  }

  /** Where `k` ticks lead, and the values they show in order. */
  datatype Trace = Trace(stage: int, counter: int, shown: seq<int>)

  function Run(stage: int, counter: int, k: nat): (r: Trace)
    requires 0 <= stage < 4
    ensures 0 <= r.stage < 4 && |r.shown| == k
    decreases k
  {
    if k == 0 then Trace(stage, counter, [])
    else
      var t := TickStep(stage, counter);
      var rest := Run(t.stage, t.counter, k - 1);
      Trace(rest.stage, rest.counter, [t.shown] + rest.shown)
  }

  /** Running `a` ticks and then `b` more is running `a + b` ticks. */
  lemma {:induction false} RunCompose(stage: int, counter: int, a: nat, b: nat)
    requires 0 <= stage < 4
    ensures var first := Run(stage, counter, a);
      var second := Run(first.stage, first.counter, b);
      Run(stage, counter, a + b) == Trace(second.stage, second.counter, first.shown + second.shown)
    decreases a
  {
    if a > 0 {
      var t := TickStep(stage, counter);
      RunCompose(t.stage, t.counter, a - 1, b);
      var first := Run(stage, counter, a);
      var second := Run(first.stage, first.counter, b);
      var restA := Run(t.stage, t.counter, a - 1);
      assert first.shown == [t.shown] + restA.shown;
      assert [t.shown] + (restA.shown + second.shown) == first.shown + second.shown;
    }
  }

  /** An example run from the initial globals: the first four ticks from counter 4 show
      4, 3, 2, 1 without leaving stage 0, after which `Laps` takes over. */
  lemma FirstLap()
    ensures Run(0, 4, 4) == Trace(0, 0, [4, 3, 2, 1])
  {
  }

  /** The step of `Laps`: from a counter at 0, four ticks advance the stage once and show
      4, 3, 2, 1. */
  lemma Lap(stage: int)
    requires 0 <= stage < 4
    ensures Run(stage, 0, 4) == Trace(Cycle.NextStage(stage, 4), 0, [4, 3, 2, 1])
  {
  }

  /** `m` copies of a sequence, one after the other. */
  function Repeat(s: seq<int>, m: nat): (r: seq<int>)
    ensures |r| == m * |s|
  {
    if m == 0 then [] else s + Repeat(s, m - 1)
  }

  /** After the first lap the stage advances once every four ticks: `4 * m` ticks from a
      counter at 0 move `m` stages on and show 4, 3, 2, 1 `m` times. */
  lemma {:induction false} Laps(stage: int, m: nat)
    requires 0 <= stage < 4
    ensures Run(stage, 0, 4 * m) == Trace(Cycle.StageAfter(stage, 4, m), 0, Repeat([4, 3, 2, 1], m))
    decreases m
  {
    if m > 0 {
      Lap(stage);
      var next := Cycle.NextStage(stage, 4);
      Laps(next, m - 1);
      RunCompose(stage, 0, 4, 4 * (m - 1));
      assert 4 + 4 * (m - 1) == 4 * m;
      Cycle.StageAfterCompose(stage, 4, 1, m - 1);
    }
  }

  /** The cube's scale change for one frame: up in stage 0, down in stage 2, with no bound. */
  function CubeScale(stage: int, scale: real): (r: real)
    ensures stage == 0 ==> r > scale
    ensures stage == 2 ==> r < scale
    ensures stage != 0 && stage != 2 ==> r == scale
  {
    if stage == 0 then scale + CubeStep else if stage == 2 then scale - CubeStep else scale
  }

  /** The scale after `k` frames of one stage. */
  function CubeFrames(stage: int, scale: real, k: nat): real {
    if k == 0 then scale else CubeScale(stage, CubeFrames(stage, scale, k - 1))
  }

  /** Without a clamp, an inhale of `k` frames adds exactly `k` steps, so a long enough inhale
      from 1 passes any largest scale: 81 frames already pass the later exercises' 1.8. */
  lemma {:induction false} CubeInhaleUnbounded(scale: real, k: nat)
    ensures CubeFrames(0, scale, k) == scale + k as real * CubeStep
    ensures CubeFrames(0, 1.0, 81) > DefaultMaxScale
  {
    CubeInhaleSteps(scale, k);
    Stepping.SteppedIsLinear(scale, CubeStep, k);
    CubeInhaleSteps(1.0, 81);
    Stepping.SteppedIsLinear(1.0, CubeStep, 81);
  }

  /** Without a floor, an exhale of `k` frames takes away exactly `k` steps, so 21 frames from 1
      already fall below the later exercises' smallest scale 0.8. */
  lemma {:induction false} CubeExhaleUnbounded(scale: real, k: nat)
    ensures CubeFrames(2, scale, k) == scale - k as real * CubeStep
    ensures CubeFrames(2, 1.0, 21) < MinScale
  {
    CubeExhaleSteps(scale, k);
    Stepping.SteppedIsLinear(scale, -CubeStep, k);
    CubeExhaleSteps(1.0, 21);
    Stepping.SteppedIsLinear(1.0, -CubeStep, 21);
  }

  /** Each exhale frame of the cube is one step down. */
  lemma {:induction false} CubeExhaleSteps(scale: real, k: nat)
    ensures CubeFrames(2, scale, k) == Stepping.Stepped(scale, -CubeStep, k)
  {
    if k > 0 {
      CubeExhaleSteps(scale, k - 1);
    }
  }

  /** Each inhale frame of the cube is one more step. */
  lemma {:induction false} CubeInhaleSteps(scale: real, k: nat)
    ensures CubeFrames(0, scale, k) == Stepping.Stepped(scale, CubeStep, k)
  {
    if k > 0 {
      CubeInhaleSteps(scale, k - 1);
    }
  }

  /** The prototype's state: the module globals `scale`, `cycleStage` and `counter`, the text of
      the instruction element, and the counter element (`None` when the page lacks it). */
  class BreathingPrototype {
    var scale: real
    var cycleStage: int
    var counter: int
    var instruction: string
    var counterElement: Option<string>

    predicate Valid()
      reads this
    {
      0 <= cycleStage < 4 && 0 <= counter <= 4
    }

    /** The initial values of the globals, on a page whose counter element is found or not;
        an empty text stands for whatever the page held before. */
    constructor(counterFound: bool)
      ensures Valid()
      ensures scale == 1.0 && cycleStage == 0 && counter == 4
      ensures instruction == "" && counterElement == (if counterFound then Some("") else None)
    {
      scale := 1.0;
      cycleStage := 0;
      counter := 4;
      instruction := "";
      counterElement := if counterFound then Some("") else None;
    }

    /** `setupCounter`: show the initial counter; without a counter element only an error is
        logged, and nothing changes. */
    method SetupCounter()
      modifies this`counterElement
      ensures counterElement == if old(counterElement).Some? then Some(IntText(counter)) else None
    {
      if counterElement.Some? {
        counterElement := Some(IntText(counter));
      }
    }

    /** `updateInstruction`: write the stage's text; entering the inhale resets the scale to 1. */
    method UpdateInstruction()
      requires Valid()
      modifies this`instruction, this`scale
      ensures instruction == Instruction(cycleStage)
      ensures scale == if cycleStage == 0 then 1.0 else old(scale)
    {
      instruction := Instruction(cycleStage);
      if cycleStage == 0 {
        scale := 1.0;
      }
    }

    /** `updateCounter`, the one-second tick. It writes the counter element without looking
        whether the page has one. */
    method UpdateCounter()
      requires Valid() && counterElement.Some?
      modifies this`cycleStage, this`counter, this`counterElement, this`instruction, this`scale
      ensures Valid()
      ensures var t := TickStep(old(cycleStage), old(counter));
        cycleStage == t.stage && counter == t.counter && counterElement == Some(IntText(t.shown))
      ensures old(counter) == 0 ==>
        instruction == Instruction(cycleStage) && scale == (if cycleStage == 0 then 1.0 else old(scale))
      ensures old(counter) != 0 ==> instruction == old(instruction) && scale == old(scale)
    {
      if counter == 0 {
        cycleStage := (cycleStage + 1) % 4;
        counter := 4;
        UpdateInstruction();
      }
      counterElement := Some(IntText(counter));
      counter := counter - 1;
    }

    /** `adjustCubeScale`, once per frame. */
    method AdjustCubeScale()
      modifies this`scale
      ensures scale == CubeScale(cycleStage, old(scale))
    {
      if cycleStage == 0 {
        scale := scale + CubeStep;
      } else if cycleStage == 2 {
        scale := scale - CubeStep;
      }
    }
  }
}
