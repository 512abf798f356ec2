/** The common exercise engine and its three variants. The base class and its square, balanced
    and sleep subclasses are one class here whose `variant` selects the overriding method; a
    subclass method that calls `super` calls the base method of the same name. Three.js objects
    are reduced to whether they exist, and each DOM element to whether it exists and what it
    shows. */
module Exercise {
  import opened Config
  import opened Clock
  import opened Dom
  import Cycle
  import Stepping
  import Square
  import Balanced
  import Sleep

  /** The objects the scene holds, in the order the set-up adds them. */
  datatype SceneNode =
    OuterBackGlowShell | BackGlowShell | OuterGlowShell | GlowShell | CoreShape | AmbientLight | PointLight

  const SceneOrder: seq<SceneNode> :=
    [OuterBackGlowShell, BackGlowShell, OuterGlowShell, GlowShell, CoreShape, AmbientLight, PointLight]

  /** The introduction text the base set-up writes before a square or balanced exercise replaces
      it with its own. */
  const BaseIntroText: string := "Détendez-vous et mettez-vous à l'aise"

  /** Taking one object out of the scene: its first occurrence goes, the rest keep their order. */
  function RemoveNode(s: seq<SceneNode>, n: SceneNode): (r: seq<SceneNode>)
    ensures n in s ==> |r| == |s| - 1
    ensures n !in s ==> r == s
  {
    if s == [] then []
    else if s[0] == n then s[1..]
    else [s[0]] + RemoveNode(s[1..], n)
  }

  /** Removing an object takes exactly one copy of it out of the scene's contents. */
  lemma {:induction false} RemoveNodeContents(s: seq<SceneNode>, n: SceneNode)
    ensures multiset(RemoveNode(s, n)) == multiset(s) - multiset{n}
  {
    if s != [] {
      var head, tail := s[0], s[1..];
      assert s == [head] + tail;
      assert multiset(s) == multiset{head} + multiset(tail);
      if head != n {
        RemoveNodeContents(tail, n);
        var r := RemoveNode(tail, n);
        assert RemoveNode(s, n) == [head] + r;
        assert multiset([head] + r) == multiset{head} + multiset(r);
      }
    }
  }

  /** The children the scene part of `cleanup` takes out, in order: the point light first when
      it is held, then the first child until none is left. Every child comes out exactly once. */
  method EmptyScene(children: seq<SceneNode>, withLight: bool) returns (removed: seq<SceneNode>)
    requires withLight ==> PointLight in children
    ensures multiset(removed) == multiset(children)
    ensures withLight ==> removed == [PointLight] + RemoveNode(children, PointLight)
    ensures !withLight ==> removed == children
  {
    var left := children;
    removed := [];
    if withLight {
      RemoveNodeContents(left, PointLight);
      left := RemoveNode(left, PointLight);
      removed := [PointLight];
    }
    var rest := RemoveChildren(left);
    assert multiset(removed + rest) == multiset(removed) + multiset(left);
    removed := removed + rest;
  }

  /** The loop of `cleanup` that removes the scene's first child until none is left: the
      children come out front to back. */
  method RemoveChildren(children: seq<SceneNode>) returns (removed: seq<SceneNode>)
    ensures removed == children
  {
    var left := children;
    removed := [];
    while |left| > 0
      invariant removed + left == children
      decreases |left|
    {
      assert left == [left[0]] + left[1..];
      removed := removed + [left[0]];
      left := left[1..];
    }
  }

  /** The instruction a variant's `updateInstruction` writes. */
  function InstructionText(v: Variant, isIntro: bool, stage: int): (t: string)
    requires 0 <= stage < StageCount(v)
    ensures !isIntro ==> (t == "Inhale" <==> stage == 0)
    ensures isIntro && v != SleepBreathing ==> t == RelaxText
  {
    match v
    case SquareBreathing => Square.Instruction(isIntro, stage)
    case BalancedBreathing => Balanced.Instruction(isIntro, stage)
    case SleepBreathing => Sleep.Instruction(stage)
  }

  /** The counter value a variant's `moveToNextPhase` sets for the stage just entered: within
      the 1..4 the square and balanced counters show, within the sleep phase's range without
      completing it yet, and for balanced the value its first frame shows. */
  function EntryCounter(v: Variant, stage: int): (c: int)
    ensures v != SleepBreathing ==> 1 <= c <= 4
    ensures v == SleepBreathing && 0 <= stage < 3 ==> Sleep.InRange(stage, c) && !Sleep.PhaseComplete(stage, c)
    ensures v == BalancedBreathing ==> c == Balanced.CounterFromProgress(stage, 0.0)
  {
    match v
    case SquareBreathing => 4
    case BalancedBreathing => Balanced.StartCounter(stage)
    case SleepBreathing => Sleep.StartCounter(stage)
  }

  class BreathingExercise {
    const variant: Variant
    const maxScale: real
    const defaultCounter: int
    const configDuration: int

    var scale: real
    var cycleStage: int
    var counter: int
    var lastTime: int
    var isIntro: bool
    var isTransitioning: bool
    var introStartTime: int
    /** Square and balanced only: the length and the start of the current phase. */
    var phaseDuration: int
    var phaseStartTime: int
    /** Balanced only: the scale the current phase moves from and to. */
    var initialScale: real
    var targetScale: real
    /** When the pending transition callback is due. */
    var transitionDueAt: int

    /** Session seconds (-1 for endless) and the wall-clock start of the countdown; `None` for
        the source's `null`. */
    var duration: Option<int>
    var startTime: Option<int>
    var isInfinite: bool
    /** Whether the session ran out and `endExercise` was called. */
    var ended: bool

    /** The DOM elements, `None` while missing: the instruction and timer with their text, the
        counter with its text and visibility. */
    var instructionElement: Option<string>
    var counterElement: Option<Display>
    var timerElement: Option<string>
    /** The scene with its children (its renderer, camera and shape exist exactly when it
        does), whether the point light is held, whether the audio manager is held, and whether
        an animation frame is requested. */
    var scene: Option<seq<SceneNode>>
    var light: bool
    var audio: bool
    var running: bool

    /** The invariants of the configuration, the timer and the scene. */
    predicate EngineValid()
      reads this`duration, this`isInfinite, this`timerElement, this`light, this`scene
    {
      1.0 <= maxScale && 1 <= defaultCounter && (configDuration == -1 || configDuration >= 0)
      && (isInfinite <==> duration == Some(-1))
      && (duration.Some? ==> duration.value == configDuration)
      && (timerElement.Some? ==> duration.Some?)
      && (light ==> scene.Some? && PointLight in scene.value)
    }

    /** The invariants of the breathing cycle: the stage and the scale in range, the
        introduction at stage 0 and never in a transition, and each variant's own bounds on its
        phase and counter. */
    predicate CycleValid()
      reads this`cycleStage, this`isIntro, this`isTransitioning, this`scale, this`phaseDuration,
        this`counter, this`initialScale, this`targetScale
    {
      0 <= cycleStage < StageCount(variant)
      && (isIntro ==> cycleStage == 0 && !isTransitioning)
      && MinScale <= scale <= maxScale
      && (variant == SquareBreathing ==>
            1 <= defaultCounter && phaseDuration == Square.PhaseDuration(defaultCounter) && 1 <= counter <= 4)
      && (variant == BalancedBreathing ==>
            phaseDuration == BalancedPhaseDuration && 1 <= counter <= 4
            && (initialScale, targetScale) == Balanced.Endpoints(cycleStage, maxScale))
      && (variant == SleepBreathing ==> Sleep.InRange(cycleStage, counter))
    }

    predicate Valid()
      reads this
    {
      EngineValid() && CycleValid()
    }

    /** The base constructor, followed by `reset` in the square and balanced exercises. */
    constructor(v: Variant, config: ExerciseConfig, now: int)
      requires ConfigOk(config)
      ensures Valid()
      ensures variant == v && maxScale == config.maxScale
      ensures defaultCounter == config.defaultCounter && configDuration == config.duration
      ensures scale == MinScale && cycleStage == 0 && counter == 1 && isIntro && !isTransitioning
      ensures duration == None && startTime == None && !isInfinite && !ended
      ensures instructionElement == None && counterElement == None && timerElement == None
      ensures scene == None && !light && audio && !running
      ensures v == SleepBreathing ==> lastTime == 0
      ensures v != SleepBreathing ==> introStartTime == now && phaseStartTime == now && lastTime == now
    {
      variant := v;
      maxScale := config.maxScale;
      defaultCounter := config.defaultCounter;
      configDuration := config.duration;
      scale := MinScale;
      cycleStage := 0;
      counter := 1;
      lastTime := 0;
      isIntro := true;
      isTransitioning := false;
      introStartTime := 0;
      phaseDuration := 0;
      phaseStartTime := 0;
      initialScale := MinScale;
      targetScale := config.maxScale;
      transitionDueAt := 0;
      duration := None;
      startTime := None;
      isInfinite := false;
      ended := false;
      instructionElement := None;
      counterElement := None;
      timerElement := None;
      scene := None;
      light := false;
      audio := true;
      running := false;
      new;
      if v != SleepBreathing {
        Reset(now);
      }
    }

    /** `reset` of the square and balanced exercises: back to the start of the introduction. */
    method Reset(now: int)
      requires EngineValid() && variant != SleepBreathing && !isTransitioning
      modifies this`isIntro, this`introStartTime, this`counter, this`phaseDuration,
        this`phaseStartTime, this`initialScale, this`targetScale, this`scale, this`cycleStage,
        this`lastTime
      ensures Valid()
      ensures isIntro && introStartTime == now && counter == 1 && phaseStartTime == now
      ensures scale == MinScale && cycleStage == 0 && lastTime == now
      ensures variant == SquareBreathing ==> (phaseDuration == defaultCounter * 1000
        && initialScale == old(initialScale) && targetScale == old(targetScale))
      ensures variant == BalancedBreathing ==> (phaseDuration == BalancedPhaseDuration
        && initialScale == MinScale && targetScale == maxScale)
    {
      isIntro := true;
      introStartTime := now;
      counter := 1;
      ResetPhaseTiming(now);
      scale := MinScale;
      cycleStage := 0;
      lastTime := now;
    }

    /** The phase part of `reset`: the phase length, its start, and for the balanced exercise
        the endpoints of the inhale. */
    method ResetPhaseTiming(now: int)
      requires variant != SleepBreathing && 1 <= defaultCounter && MinScale <= maxScale
      modifies this`phaseDuration, this`phaseStartTime, this`initialScale, this`targetScale
      ensures phaseStartTime == now
      ensures variant == SquareBreathing ==> (phaseDuration == Square.PhaseDuration(defaultCounter)
        && initialScale == old(initialScale) && targetScale == old(targetScale))
      ensures variant == BalancedBreathing ==> (phaseDuration == BalancedPhaseDuration
        && (initialScale, targetScale) == Balanced.Endpoints(0, maxScale))
    {
      if variant == SquareBreathing {
        phaseDuration := Square.PhaseDuration(defaultCounter);
      } else {
        phaseDuration := BalancedPhaseDuration;
      }
      phaseStartTime := now;
      if variant == BalancedBreathing {
        initialScale := MinScale;
        targetScale := maxScale;
      }
    }

    /** `initializePhase` of the balanced exercise: the start of an inhale. */
    method InitializePhase(now: int)
      requires Valid() && variant == BalancedBreathing
      modifies this`counter, this`phaseDuration, this`phaseStartTime, this`initialScale,
        this`targetScale, this`scale, this`cycleStage
      ensures Valid()
      ensures counter == 1 && phaseDuration == BalancedPhaseDuration && phaseStartTime == now
      ensures initialScale == MinScale && targetScale == maxScale && scale == MinScale
      ensures cycleStage == 0
    {
      counter := 1;
      phaseDuration := BalancedPhaseDuration;
      phaseStartTime := now;
      initialScale := MinScale;
      targetScale := maxScale;
      scale := MinScale;
      cycleStage := 0;
    }

    /** `setupDOMElements`: look the instruction and counter elements up; when both are there,
        show the introduction text and an empty, hidden counter (the sleep exercise writes its
        own text in place of the base one). A found element whose text is not written holds
        the text "", which stands for whatever the page showed in it. */
    method SetupDOMElements(instructionFound: bool, counterFound: bool) returns (ok: bool)
      requires Valid()
      modifies this`instructionElement, this`counterElement
      ensures Valid()
      ensures ok <==> instructionFound && counterFound
      ensures !ok ==> (instructionElement == (if instructionFound then Some("") else None)
        && counterElement == (if counterFound then Some(Display("", false)) else None))
      ensures instructionElement.Some? <==> instructionFound
      ensures counterElement.Some? <==> counterFound
      ensures ok ==> counterElement == Some(Display("", false))
      ensures ok ==> instructionElement == Some(if variant == SleepBreathing then RelaxText else BaseIntroText)
    {
      instructionElement := if instructionFound then Some("") else None;
      counterElement := if counterFound then Some(Display("", false)) else None;
      if !instructionFound || !counterFound {
        return false;
      }
      instructionElement := Some(if variant == SleepBreathing then RelaxText else BaseIntroText);
      counterElement := Some(Display("", false));
      return true;
    }

    /** `setupScene`: the shells, the core shape and the two lights, added in order. */
    method SetupScene()
      requires Valid()
      modifies this`scene, this`light
      ensures Valid()
      ensures scene == Some(SceneOrder) && light
      ensures PointLight in SceneOrder
    {
      scene := Some(SceneOrder);
      light := true;
      assert SceneOrder[6] == PointLight;
    }

    /** The timer part of `init`: a fresh, empty timer element and the configured duration,
        with the countdown not yet started. */
    method SetupTimer()
      requires Valid()
      modifies this`timerElement, this`duration, this`isInfinite, this`startTime
      ensures Valid()
      ensures timerElement == Some("") && duration == Some(configDuration) && startTime == None
      ensures isInfinite <==> configDuration == -1
    {
      timerElement := Some("");
      duration := Some(configDuration);
      isInfinite := configDuration == -1;
      startTime := None;
    }

    /** `init`: the square and balanced exercises reset first; the base then sets up the
        elements (stopping if one is missing), the scene, the timer and the duration, and runs a
        first frame without a timestamp, which only holds the shape at scale 1; the square and
        balanced exercises then write the introduction text again, hide the counter and put
        the shape at the smallest scale, whether or not the base stopped early. */
    method Init(now: int, instructionFound: bool, counterFound: bool)
      requires Valid() && isIntro
      modifies this`isIntro, this`introStartTime, this`counter, this`phaseDuration,
        this`phaseStartTime, this`initialScale, this`targetScale, this`scale, this`cycleStage,
        this`lastTime, this`instructionElement, this`counterElement, this`scene, this`light,
        this`timerElement, this`duration, this`isInfinite, this`startTime, this`running
      ensures Valid() && isIntro
      ensures instructionElement.Some? <==> instructionFound
      ensures counterElement.Some? <==> counterFound
      ensures !(instructionFound && counterFound) ==>
        scene == old(scene) && timerElement == old(timerElement) && running == old(running)
        && duration == old(duration)
      ensures instructionFound && counterFound ==>
        scene == Some(SceneOrder) && light && running && timerElement == Some("")
        && duration == Some(configDuration) && startTime == None
        && (isInfinite <==> configDuration == -1) && introStartTime == now && lastTime == now
      ensures instructionFound && counterFound ==> (counterElement == Some(Display("", false))
        && instructionElement == Some(RelaxText))
      ensures instructionFound && counterFound && variant == SleepBreathing ==> scale == 1.0
      ensures variant != SleepBreathing ==>
        counter == 1 && phaseStartTime == now && introStartTime == now && lastTime == now
      ensures variant == SleepBreathing ==> counter == old(counter) && phaseStartTime == old(phaseStartTime)
      ensures variant == SleepBreathing && !(instructionFound && counterFound) ==>
        scale == old(scale) && introStartTime == old(introStartTime) && lastTime == old(lastTime)
      ensures !(instructionFound && counterFound) ==>
        isInfinite == old(isInfinite) && startTime == old(startTime) && light == old(light)
      ensures variant != SleepBreathing ==> ((scene.Some? ==> scale == MinScale)
        && (instructionFound ==> instructionElement == Some(RelaxText))
        && (counterFound ==> counterElement == Some(Display("", false))))
    {
      if variant != SleepBreathing {
        Reset(now);
      }
      var ok := SetupDOMElements(instructionFound, counterFound);
      if ok {
        StartSession(now);
      }
      if variant != SleepBreathing {
        InitTexts();
      }
    }

    /** The part of the base `init` once both elements are found: the scene, the clock origin of
        the introduction, the timer, and a first frame without a timestamp, in which every
        comparison with the missing timestamp is false and the shape is only held at scale 1. */
    method StartSession(now: int)
      requires Valid() && isIntro
      modifies this`scene, this`light, this`introStartTime, this`lastTime, this`timerElement,
        this`duration, this`isInfinite, this`startTime, this`running, this`scale
      ensures Valid()
      ensures scene == Some(SceneOrder) && light && running && timerElement == Some("")
      ensures duration == Some(configDuration) && startTime == None
      ensures (isInfinite <==> configDuration == -1) && introStartTime == now && lastTime == now
      ensures scale == 1.0
    {
      SetupScene();
      introStartTime := now;
      lastTime := now;
      SetupTimer();
      running := true;
      scale := 1.0;
    }

    /** The part of the square and balanced `init` that follows the base one. */
    method InitTexts()
      requires Valid()
      modifies this`instructionElement, this`counterElement, this`scale
      ensures Valid()
      ensures instructionElement == if old(instructionElement).Some? then Some(RelaxText) else None
      ensures counterElement == if old(counterElement).Some? then Some(Display("", false)) else None
      ensures scale == if scene.Some? then MinScale else old(scale)
    {
      if instructionElement.Some? {
        instructionElement := Some(RelaxText);
      }
      if counterElement.Some? {
        counterElement := Some(Display("", false));
      }
      if scene.Some? {
        scale := MinScale;
      }
    }

    /** `cleanup`: stop the frames, release the audio, empty and drop the scene, and forget the
        timer and the duration. `removed` lists the scene's objects in the order they are taken
        out: the point light first, then the children front to back. */
    method Cleanup() returns (removed: seq<SceneNode>)
      requires Valid()
      modifies this`running, this`audio, this`light, this`scene, this`timerElement,
        this`duration, this`startTime, this`isInfinite
      ensures Valid()
      ensures !running && !audio && !light && scene == None && timerElement == None
      ensures duration == None && startTime == None && !isInfinite
      ensures old(scene) == None ==> removed == []
      ensures old(scene).Some? ==> multiset(removed) == multiset(old(scene).value)
      ensures old(scene).Some? && old(light) ==>
        removed == [PointLight] + RemoveNode(old(scene).value, PointLight)
      ensures old(scene).Some? && !old(light) ==> removed == old(scene).value
    {
      running := false;
      audio := false;
      removed := [];
      if scene.Some? {
        removed := ClearScene();
      }
      ForgetTimer();
    }

    /** The scene part of `cleanup`: take the point light out, then the first child until none
        is left, then drop the scene. */
    method ClearScene() returns (removed: seq<SceneNode>)
      requires Valid() && scene.Some?
      modifies this`scene, this`light
      ensures Valid()
      ensures scene == None && !light
      ensures multiset(removed) == multiset(old(scene).value)
      ensures old(light) ==> removed == [PointLight] + RemoveNode(old(scene).value, PointLight)
      ensures !old(light) ==> removed == old(scene).value
    {
      removed := EmptyScene(scene.value, light);
      light := false;
      scene := None;
    }

    /** The timer part of `cleanup`. */
    method ForgetTimer()
      requires Valid()
      modifies this`timerElement, this`duration, this`startTime, this`isInfinite
      ensures Valid()
      ensures timerElement == None && duration == None && startTime == None && !isInfinite
    {
      timerElement := None;
      duration := None;
      startTime := None;
      isInfinite := false;
    }

    /** The variant's `shouldMoveToNextPhase` at time `now`. */
    predicate ShouldMoveToNextPhase(now: int)
      reads this
    {
      if variant == SleepBreathing then Sleep.PhaseComplete(cycleStage, counter)
      else Cycle.PhaseOver(now, phaseStartTime, phaseDuration)
    }

    /** The variant's `updateInstruction`; the sleep exercise also puts the scale back to 1 on
        entering the inhale. Without an instruction element nothing happens. */
    method UpdateInstruction()
      requires Valid()
      modifies this`instructionElement, this`scale
      ensures Valid()
      ensures instructionElement ==
        if old(instructionElement).Some? then Some(InstructionText(variant, isIntro, cycleStage)) else None
      ensures scale ==
        if old(instructionElement).Some? && variant == SleepBreathing && cycleStage == 0 then 1.0 else old(scale)
    {
      if instructionElement == None {
        return;
      }
      instructionElement := Some(InstructionText(variant, isIntro, cycleStage));
      if variant == SleepBreathing && cycleStage == 0 {
        scale := 1.0;
      }
    }

    /** The counter display: the base writes the counter; the square exercise first recomputes
        it from the phase's progress and shows it, or only hides it during the introduction. */
    method UpdateCounterDisplay(now: int)
      requires Valid()
      modifies this`counter, this`counterElement
      ensures Valid()
      ensures old(counterElement) == None ==> counterElement == None && counter == old(counter)
      ensures old(counterElement).Some? && variant == SquareBreathing && isIntro ==>
        counter == old(counter) && counterElement == Some(old(counterElement).value.(visible := false))
      ensures old(counterElement).Some? && variant != SquareBreathing ==>
        counter == old(counter) && counterElement == Some(old(counterElement).value.(text := IntText(counter)))
      ensures old(counterElement).Some? && variant == SquareBreathing && !isIntro ==>
        counter == Square.CounterDisplay(cycleStage, now - phaseStartTime, phaseDuration)
        && counterElement == Some(Display(IntText(counter), true))
    {
      if counterElement == None {
        return;
      }
      if variant == SquareBreathing {
        if isIntro {
          counterElement := Some(counterElement.value.(visible := false));
          return;
        }
        counter := Square.CounterDisplay(cycleStage, now - phaseStartTime, phaseDuration);
        counterElement := Some(Display(IntText(counter), true));
      } else {
        counterElement := Some(counterElement.value.(text := IntText(counter)));
      }
    }

    /** `showCounter`: display the counter element and refresh it. */
    method ShowCounter(now: int)
      requires Valid()
      modifies this`counter, this`counterElement
      ensures Valid()
      ensures old(counterElement) == None ==> counterElement == None && counter == old(counter)
      ensures old(counterElement).Some? && variant != SquareBreathing ==>
        counter == old(counter) && counterElement == Some(Display(IntText(counter), true))
      ensures old(counterElement).Some? && variant == SquareBreathing && isIntro ==>
        counter == old(counter) && counterElement == Some(old(counterElement).value.(visible := false))
      ensures old(counterElement).Some? && variant == SquareBreathing && !isIntro ==>
        counter == Square.CounterDisplay(cycleStage, now - phaseStartTime, phaseDuration)
        && counterElement == Some(Display(IntText(counter), true))
    {
      if counterElement.Some? {
        counterElement := Some(counterElement.value.(visible := true));
        UpdateCounterDisplay(now);
      }
    }

    /** `hideCounter`. */
    method HideCounter()
      requires Valid()
      modifies this`counterElement
      ensures Valid()
      ensures counterElement == if old(counterElement).Some? then Some(old(counterElement).value.(visible := false)) else None
    {
      if counterElement.Some? {
        counterElement := Some(counterElement.value.(visible := false));
      }
    }

    /** The variant's `moveToNextPhase`: the next stage, its entry counter, a new phase start for
        the time-based variants, the balanced endpoints for the new stage, and the new
        instruction. */
    method MoveToNextPhase(now: int)
      requires Valid() && !isIntro
      modifies this`cycleStage, this`counter, this`phaseStartTime, this`initialScale,
        this`targetScale, this`instructionElement, this`scale
      ensures Valid()
      ensures cycleStage == Cycle.NextStage(old(cycleStage), StageCount(variant))
      ensures counter == EntryCounter(variant, cycleStage)
      ensures phaseStartTime == if variant == SleepBreathing then old(phaseStartTime) else now
      ensures variant != BalancedBreathing ==>
        initialScale == old(initialScale) && targetScale == old(targetScale)
      ensures instructionElement ==
        if old(instructionElement).Some? then Some(InstructionText(variant, false, cycleStage)) else None
      ensures scale ==
        if old(instructionElement).Some? && variant == SleepBreathing && cycleStage == 0 then 1.0 else old(scale)
    {
      cycleStage := (cycleStage + 1) % StageCount(variant);
      counter := EntryCounter(variant, cycleStage);
      if variant != SleepBreathing {
        phaseStartTime := now;
      }
      if variant == BalancedBreathing {
        var (initial, target) := Balanced.Endpoints(cycleStage, maxScale);
        initialScale := initial;
        targetScale := target;
      }
      UpdateInstruction();
    }

    /** `updateCounterBasedOnProgress` of the balanced exercise. */
    method UpdateCounterBasedOnProgress(progress: real)
      requires Valid() && variant == BalancedBreathing && 0.0 <= progress <= 1.0
      modifies this`counter, this`counterElement
      ensures Valid()
      ensures old(counterElement) == None || isIntro ==> counter == old(counter)
      ensures old(counterElement) == None ==> counterElement == None
      ensures old(counterElement).Some? && isIntro ==>
        counterElement == Some(old(counterElement).value.(visible := false))
      ensures old(counterElement).Some? && !isIntro ==>
        counter == Balanced.CounterFromProgress(cycleStage, progress)
        && counterElement == Some(Display(IntText(counter), true))
    {
      if counterElement == None {
        return;
      }
      if isIntro {
        counterElement := Some(counterElement.value.(visible := false));
        return;
      }
      counter := Balanced.CounterFromProgress(cycleStage, progress);
      counterElement := Some(Display(IntText(counter), true));
    }

    /** The variant's `adjustShapeScale` for one breathing frame. */
    method AdjustShapeScale(now: int)
      requires Valid()
      modifies this`scale, this`counter, this`counterElement
      ensures Valid()
      ensures variant == SquareBreathing ==>
        scale == (if isIntro then 1.0
                  else Stepping.AdjustScale(cycleStage, old(scale), Square.ScaleStep(maxScale, phaseDuration), maxScale))
      ensures variant == SleepBreathing ==>
        scale == Stepping.AdjustScale(cycleStage, old(scale), Sleep.ScaleStep, maxScale)
      ensures variant != BalancedBreathing ==> counter == old(counter) && counterElement == old(counterElement)
      ensures variant == BalancedBreathing ==>
        scale == Balanced.ScaleAt(cycleStage, now - phaseStartTime, phaseDuration, maxScale)
      ensures variant == BalancedBreathing && old(counterElement).Some? && !isIntro ==>
        counter == Balanced.CounterFromProgress(cycleStage, Balanced.Progress(now - phaseStartTime, phaseDuration))
        && counterElement == Some(Display(IntText(counter), true))
      ensures variant == BalancedBreathing && (old(counterElement) == None || isIntro) ==> counter == old(counter)
      ensures variant == BalancedBreathing && old(counterElement) == None ==> counterElement == None
      ensures variant == BalancedBreathing && old(counterElement).Some? && isIntro ==>
        counterElement == Some(old(counterElement).value.(visible := false))
    {
      match variant
      case SquareBreathing =>
        if isIntro {
          scale := 1.0;
        } else {
          var step := Square.ScaleStep(maxScale, phaseDuration);
          scale := Stepping.AdjustScale(cycleStage, scale, step, maxScale);
        }
      case BalancedBreathing =>
        var progress := Balanced.Progress(now - phaseStartTime, phaseDuration);
        scale := Balanced.Lerp(initialScale, targetScale, progress);
        UpdateCounterBasedOnProgress(progress);
      case SleepBreathing =>
        scale := Stepping.AdjustScale(cycleStage, scale, Sleep.ScaleStep, maxScale);
    }

    /** `startPhaseTransition`, its first half: raise the guard, hide the counter, and schedule
        the completion `TransitionDuration` ms later. */
    method BeginTransition(now: int)
      requires Valid() && !isIntro
      modifies this`isTransitioning, this`counterElement, this`transitionDueAt
      ensures Valid()
      ensures isTransitioning && transitionDueAt == now + TransitionDuration
      ensures counterElement == if old(counterElement).Some? then Some(old(counterElement).value.(visible := false)) else None
    {
      isTransitioning := true;
      HideCounter();
      transitionDueAt := now + TransitionDuration;
    }

    /** The delayed second half of `startPhaseTransition`: move to the next phase, show the
        counter again, and lower the guard. */
    method CompleteTransition(now: int)
      requires Valid() && isTransitioning && now >= transitionDueAt
      modifies this`cycleStage, this`counter, this`phaseStartTime, this`initialScale,
        this`targetScale, this`instructionElement, this`scale, this`counterElement,
        this`isTransitioning
      ensures Valid() && !isTransitioning
      ensures cycleStage == Cycle.NextStage(old(cycleStage), StageCount(variant))
      ensures phaseStartTime == if variant == SleepBreathing then old(phaseStartTime) else now
      ensures instructionElement ==
        if old(instructionElement).Some? then Some(InstructionText(variant, false, cycleStage)) else None
      ensures scale ==
        if old(instructionElement).Some? && variant == SleepBreathing && cycleStage == 0 then 1.0 else old(scale)
      ensures !(old(counterElement).Some? && variant == SquareBreathing) ==> counter == EntryCounter(variant, cycleStage)
      ensures old(counterElement).Some? && variant == SquareBreathing ==>
        counter == (if cycleStage == 0 || cycleStage == 1 then 1 else 4)
      ensures old(counterElement).Some? ==> counterElement == Some(Display(IntText(counter), true))
      ensures old(counterElement) == None ==> counterElement == None
      ensures variant != BalancedBreathing ==>
        initialScale == old(initialScale) && targetScale == old(targetScale)
    {
      MoveToNextPhase(now);
      ShowCounter(now);
      if variant == SquareBreathing {
        Square.PhaseStartCounter(cycleStage, phaseDuration);
      }
      isTransitioning := false;
    }

    /** `updateCounter`, the interval tick: nothing during a transition; otherwise refresh the
        counter and start a transition if the phase is over. The sleep exercise then steps its
        counter unless a transition is under way. */
    method UpdateCounter(now: int)
      requires Valid() && !isIntro
      modifies this`counter, this`counterElement, this`isTransitioning, this`transitionDueAt
      ensures Valid()
      ensures old(isTransitioning) ==> (isTransitioning && counter == old(counter)
        && counterElement == old(counterElement) && transitionDueAt == old(transitionDueAt))
      ensures !old(isTransitioning) ==> isTransitioning == old(ShouldMoveToNextPhase(now))
      ensures !old(isTransitioning) && isTransitioning ==> (transitionDueAt == now + TransitionDuration
        && (counterElement.Some? ==> !counterElement.value.visible))
      ensures !old(isTransitioning) && !isTransitioning ==> transitionDueAt == old(transitionDueAt)
      ensures !old(isTransitioning) && variant == SleepBreathing ==>
        counter == Sleep.TickCounter(cycleStage, old(counter))
      ensures !old(isTransitioning) && variant == BalancedBreathing ==> counter == old(counter)
      ensures !old(isTransitioning) && variant == SquareBreathing && old(counterElement).Some? ==>
        counter == Square.CounterDisplay(cycleStage, now - phaseStartTime, phaseDuration)
      ensures !old(isTransitioning) && old(counterElement).Some? ==> (counterElement.Some?
        && counterElement.value.text == IntText(if variant == SquareBreathing then counter else old(counter)))
      ensures !old(isTransitioning) && !isTransitioning && old(counterElement).Some? ==>
        counterElement.value.visible == (variant == SquareBreathing || old(counterElement).value.visible)
      ensures !old(isTransitioning) && old(counterElement) == None ==>
        counterElement == None && (variant != SleepBreathing ==> counter == old(counter))
    {
      if isTransitioning {
        return;
      }
      UpdateCounterDisplay(now);
      if ShouldMoveToNextPhase(now) {
        BeginTransition(now);
      }
      if variant == SleepBreathing && !isTransitioning {
        counter := Sleep.CountStep(cycleStage, counter);
      }
      if variant == SleepBreathing {
        Sleep.RangeInvariant(cycleStage, old(counter));
      }
    }

    /** `updateTimer`: nothing without a timer element or in an endless session; during the
        introduction the full duration is shown; afterwards the countdown starts on first use
        and the remaining time is shown, or the exercise ends. */
    method UpdateTimer(wall: int)
      requires Valid()
      modifies this`timerElement, this`startTime, this`ended
      ensures Valid()
      ensures old(timerElement) == None || isInfinite ==>
        timerElement == old(timerElement) && startTime == old(startTime) && ended == old(ended)
      ensures old(timerElement).Some? && !isInfinite && isIntro ==>
        timerElement == Some(ClockText(configDuration)) && startTime == old(startTime) && ended == old(ended)
      ensures old(timerElement).Some? && !isInfinite && !isIntro ==>
        startTime == (if old(startTime) == None || old(startTime) == Some(0) then Some(wall) else old(startTime))
      ensures old(timerElement).Some? && !isInfinite && !isIntro ==>
        match TimerUpdate(configDuration, wall - startTime.value)
        case EndSession => ended && timerElement == old(timerElement)
        case Show(text) => timerElement == Some(text) && ended == old(ended)
    {
      if timerElement == None || isInfinite {
        return;
      }
      if isIntro {
        ShowFullDuration();
      } else {
        CountDown(wall);
      }
    }

    /** The timer during the introduction: the whole configured duration. */
    method ShowFullDuration()
      requires Valid() && timerElement.Some? && !isInfinite
      modifies this`timerElement
      ensures Valid() && timerElement == Some(ClockText(configDuration))
    {
      timerElement := Some(ClockText(configDuration));
    }

    /** The timer after the introduction: start the countdown on its first update, then end the
        session or show the seconds left. */
    method CountDown(wall: int)
      requires Valid() && timerElement.Some?
      modifies this`timerElement, this`startTime, this`ended
      ensures Valid()
      ensures startTime == (if old(startTime) == None || old(startTime) == Some(0) then Some(wall) else old(startTime))
      ensures match TimerUpdate(configDuration, wall - startTime.value)
        case EndSession => ended && timerElement == old(timerElement)
        case Show(text) => timerElement == Some(text) && ended == old(ended)
    {
      if startTime == None || startTime == Some(0) {
        startTime := Some(wall);
      }
      var outcome := TimerUpdate(configDuration, wall - startTime.value);
      match outcome
      case EndSession =>
        EndExercise();
      case Show(text) =>
        timerElement := Some(text);
    }

    /** `endExercise`: the session is over (the page switch and the clean-up that follow once
        the audio has stopped are outside the model). */
    method EndExercise()
      requires Valid()
      modifies this`ended
      ensures Valid() && ended
    {
      ended := true;
    }

    /** The base `handleIntroAnimation`: hold the scale at 1; once the introduction is over,
        leave it at stage 0, start the interval and the countdown clock, write the instruction
        and display the counter. */
    method BaseHandleIntroAnimation(t: int, wall: int)
      requires Valid() && isIntro
      modifies this`scale, this`isIntro, this`cycleStage, this`lastTime, this`startTime,
        this`instructionElement, this`counterElement
      ensures Valid() && cycleStage == 0
      ensures t - introStartTime < IntroDuration ==>
        isIntro && scale == 1.0 && lastTime == old(lastTime) && startTime == old(startTime)
        && instructionElement == old(instructionElement) && counterElement == old(counterElement)
      ensures t - introStartTime >= IntroDuration ==>
        !isIntro && lastTime == t && startTime == Some(wall)
        && instructionElement == (if old(instructionElement).Some? then Some("Inhale") else None)
        && counterElement == (if old(counterElement).Some? then Some(old(counterElement).value.(visible := true)) else None)
        && scale == 1.0
    {
      scale := 1.0;
      if t - introStartTime >= IntroDuration {
        EndIntro(t, wall);
      }
    }

    /** The end of the base introduction: leave it at stage 0, start the interval and the
        countdown clock, write the instruction and display the counter. */
    method EndIntro(t: int, wall: int)
      requires Valid() && isIntro && scale == 1.0
      modifies this`isIntro, this`cycleStage, this`lastTime, this`startTime, this`instructionElement,
        this`counterElement, this`scale
      ensures Valid() && !isIntro && cycleStage == 0 && lastTime == t && startTime == Some(wall)
      ensures instructionElement == if old(instructionElement).Some? then Some("Inhale") else None
      ensures counterElement == if old(counterElement).Some? then Some(old(counterElement).value.(visible := true)) else None
      ensures scale == 1.0
    {
      isIntro := false;
      cycleStage := 0;
      lastTime := t;
      startTime := Some(wall);
      UpdateInstruction();
      if counterElement.Some? {
        counterElement := Some(counterElement.value.(visible := true));
      }
    }

    /** The end of the square introduction: the phase starts now with the counter at 1 and the
        shape at the smallest scale. */
    method SquareIntroEnd(now: int)
      requires Valid() && variant == SquareBreathing && !isIntro && cycleStage == 0
      modifies this`phaseStartTime, this`counter, this`scale, this`instructionElement, this`counterElement
      ensures Valid()
      ensures phaseStartTime == now && counter == 1 && scale == MinScale
      ensures instructionElement == if old(instructionElement).Some? then Some("Inhale") else None
      ensures counterElement == if old(counterElement).Some? then Some(Display("1", true)) else None
    {
      phaseStartTime := now;
      counter := 1;
      scale := MinScale;
      UpdateInstruction();
      if counterElement.Some? {
        counterElement := Some(Display(IntText(counter), true));
      }
    }

    /** The end of the sleep introduction: the phase starts now and the shape is put at the
        smallest scale, which the inhale instruction puts back to 1 at once. */
    method SleepIntroEnd(now: int)
      requires Valid() && variant == SleepBreathing && !isIntro && cycleStage == 0
      modifies this`phaseStartTime, this`scale, this`instructionElement, this`counterElement
      ensures Valid()
      ensures phaseStartTime == now
      ensures scale == if old(instructionElement).Some? then 1.0 else MinScale
      ensures instructionElement == if old(instructionElement).Some? then Some("Inhale") else None
      ensures counterElement == if old(counterElement).Some? then Some(old(counterElement).value.(visible := true)) else None
    {
      phaseStartTime := now;
      scale := MinScale;
      UpdateInstruction();
      if counterElement.Some? {
        counterElement := Some(counterElement.value.(visible := true));
      }
    }

    /** The variant's `handleIntroAnimation`: the base one, then the focus text from half the
        introduction on, then the variant's start of the breathing cycle at the inhale. The
        variants write the focus text without checking that the instruction element exists. */
    method HandleIntroAnimation(t: int, now: int, wall: int)
      requires Valid() && isIntro
      requires t - introStartTime >= IntroDuration / 2 ==> instructionElement.Some?
      modifies this`scale, this`isIntro, this`cycleStage, this`lastTime, this`startTime,
        this`instructionElement, this`counterElement, this`counter, this`phaseStartTime,
        this`phaseDuration, this`initialScale, this`targetScale
      ensures Valid()
      ensures t - introStartTime < IntroDuration ==>
        isIntro && scale == 1.0 && cycleStage == 0 && lastTime == old(lastTime)
        && startTime == old(startTime) && counter == old(counter) && counterElement == old(counterElement)
        && phaseStartTime == old(phaseStartTime)
        && instructionElement == (if t - introStartTime >= IntroDuration / 2 then Some(FocusText) else old(instructionElement))
      ensures t - introStartTime >= IntroDuration ==>
        !isIntro && cycleStage == 0 && lastTime == t && startTime == Some(wall)
        && instructionElement == Some("Inhale") && phaseStartTime == now
      ensures t - introStartTime >= IntroDuration && variant == SquareBreathing ==>
        counter == 1 && scale == MinScale
        && counterElement == (if old(counterElement).Some? then Some(Display("1", true)) else None)
      ensures t - introStartTime >= IntroDuration && variant == BalancedBreathing ==>
        counter == 1 && scale == MinScale
        && counterElement == (if old(counterElement).Some? then Some(old(counterElement).value.(visible := true)) else None)
      ensures t - introStartTime >= IntroDuration && variant == SleepBreathing ==>
        counter == old(counter) && scale == 1.0
        && counterElement == (if old(counterElement).Some? then Some(old(counterElement).value.(visible := true)) else None)
      ensures variant != BalancedBreathing || t - introStartTime < IntroDuration ==>
        phaseDuration == old(phaseDuration) && initialScale == old(initialScale) && targetScale == old(targetScale)
    {
      BaseHandleIntroAnimation(t, wall);
      if t - introStartTime >= IntroDuration / 2 {
        instructionElement := Some(FocusText);
      }
      if t - introStartTime >= IntroDuration {
        isIntro := false;
        VariantIntroEnd(now);
      }
    }

    /** The variant's start of the breathing cycle once the introduction is over. */
    method VariantIntroEnd(now: int)
      requires Valid() && !isIntro && cycleStage == 0 && instructionElement.Some?
      modifies this`scale, this`cycleStage, this`instructionElement, this`counterElement,
        this`counter, this`phaseStartTime, this`phaseDuration, this`initialScale, this`targetScale
      ensures Valid() && cycleStage == 0 && instructionElement == Some("Inhale") && phaseStartTime == now
      ensures variant == SquareBreathing ==> (counter == 1 && scale == MinScale
        && counterElement == (if old(counterElement).Some? then Some(Display("1", true)) else None))
      ensures variant == BalancedBreathing ==> (counter == 1 && scale == MinScale
        && counterElement == old(counterElement))
      ensures variant == SleepBreathing ==> (counter == old(counter) && scale == 1.0
        && counterElement == (if old(counterElement).Some? then Some(old(counterElement).value.(visible := true)) else None))
      ensures variant != BalancedBreathing ==> (phaseDuration == old(phaseDuration)
        && initialScale == old(initialScale) && targetScale == old(targetScale))
    {
      match variant
      case SquareBreathing =>
        cycleStage := 0;
        SquareIntroEnd(now);
      case BalancedBreathing =>
        InitializePhase(now);
        UpdateInstruction();
      case SleepBreathing =>
        cycleStage := 0;
        SleepIntroEnd(now);
    }

    /** The shape's scale after a breathing frame, from its scale before: the square and sleep
        exercises step it toward the phase's end point, the balanced one interpolates it from
        the phase's progress. */
    twostate predicate ShapeFrame(now: int)
      requires 1.0 <= maxScale && (variant != SleepBreathing ==> phaseDuration > 0)
      reads this`scale, this`cycleStage, this`phaseStartTime, this`phaseDuration
    {
      scale == match variant
        case SquareBreathing =>
          Stepping.AdjustScale(cycleStage, old(scale), Square.ScaleStep(maxScale, phaseDuration), maxScale)
        case BalancedBreathing => Balanced.ScaleAt(cycleStage, now - phaseStartTime, phaseDuration, maxScale)
        case SleepBreathing => Stepping.AdjustScale(cycleStage, old(scale), Sleep.ScaleStep, maxScale)
    }

    /** The counter and its element after a breathing frame, from their values before it. The
        balanced shape step first sets the counter from the phase's progress and shows it; then,
        when the frame `tick`s outside a transition, the display is refreshed (the square
        exercise recomputes its counter), the sleep counter takes one step, and the element ends
        with the counter's text, hidden when a transition has just started. */
    twostate predicate CounterFrame(tick: bool, now: int)
      requires variant != SleepBreathing ==> phaseDuration > 0
      reads this`counter, this`counterElement, this`isTransitioning, this`cycleStage,
        this`phaseStartTime, this`phaseDuration
    {
      var balancedShown := variant == BalancedBreathing && old(counterElement).Some?;
      var c1 := if balancedShown
        then Balanced.CounterFromProgress(cycleStage, Balanced.Progress(now - phaseStartTime, phaseDuration))
        else old(counter);
      var e1 := if balancedShown then Some(Display(IntText(c1), true)) else old(counterElement);
      if !tick || old(isTransitioning) then
        counter == c1 && counterElement == e1
      else
        counter == (match variant
          case SleepBreathing => Sleep.TickCounter(cycleStage, c1)
          case BalancedBreathing => c1
          case SquareBreathing =>
            if e1.Some? then Square.CounterDisplay(cycleStage, now - phaseStartTime, phaseDuration) else c1)
        && counterElement == (if e1 == None then None
          else Some(Display(IntText(if variant == SquareBreathing then counter else c1),
                            !isTransitioning && (variant == SquareBreathing || e1.value.visible))))
    }

    /** The countdown clock after a breathing frame: untouched without a timer element or in an
        endless session; otherwise the countdown starts at `wall` on its first update and the
        session either ends or shows the time left. */
    twostate predicate TimerFrame(wall: int)
      reads this`timerElement, this`startTime, this`ended, this`isInfinite
    {
      if old(timerElement) == None || isInfinite then
        timerElement == old(timerElement) && startTime == old(startTime) && ended == old(ended)
      else
        startTime == (if old(startTime) == None || old(startTime) == Some(0) then Some(wall) else old(startTime))
        && match TimerUpdate(configDuration, wall - startTime.value)
           case EndSession => ended && timerElement == old(timerElement)
           case Show(text) => timerElement == Some(text) && ended == old(ended)
    }

    /** What a breathing frame at timestamp `t` does before the clock, from the state before
        it: the stage, the phase and the instruction stay; the shape's scale and the counter move
        as `ShapeFrame` and `CounterFrame` say; the tick happens once an interval has passed
        since the last one, and outside a transition it starts one exactly when the phase is
        over. */
    twostate predicate ScaleAndCounterStep(t: int, now: int)
      requires 1.0 <= maxScale && CycleValid()
      reads this`isIntro, this`cycleStage, this`phaseStartTime, this`instructionElement,
        this`phaseDuration, this`initialScale, this`targetScale, this`lastTime, this`scale,
        this`counter, this`counterElement, this`isTransitioning, this`transitionDueAt
    {
      var tick := t - old(lastTime) >= Interval;
      !isIntro && cycleStage == old(cycleStage) && phaseStartTime == old(phaseStartTime)
      && instructionElement == old(instructionElement) && phaseDuration == old(phaseDuration)
      && initialScale == old(initialScale) && targetScale == old(targetScale)
      && lastTime == (if tick then t else old(lastTime))
      && ShapeFrame(now) && CounterFrame(tick, now)
      && (!tick || old(isTransitioning) ==>
            isTransitioning == old(isTransitioning) && transitionDueAt == old(transitionDueAt))
      && (tick && !old(isTransitioning) ==>
            isTransitioning == (if variant == SleepBreathing then Sleep.PhaseComplete(cycleStage, old(counter))
                                else Cycle.PhaseOver(now, phaseStartTime, phaseDuration))
            && (isTransitioning ==> transitionDueAt == now + TransitionDuration))
    }

    /** Everything a breathing frame does: the scale and the counter as
        `ScaleAndCounterStep` says, then the clock as `TimerFrame` says. */
    twostate predicate BreathingStep(t: int, now: int, wall: int)
      requires 1.0 <= maxScale && CycleValid()
      reads this`isIntro, this`cycleStage, this`phaseStartTime, this`instructionElement,
        this`phaseDuration, this`initialScale, this`targetScale, this`lastTime, this`scale,
        this`counter, this`counterElement, this`isTransitioning, this`transitionDueAt,
        this`timerElement, this`startTime, this`ended, this`isInfinite
    {
      ScaleAndCounterStep(t, now) && TimerFrame(wall)
    }

    /** What an introduction frame at timestamp `t` does, from the state before it: the clock
        and the transition are untouched; until the introduction is over the shape stays at
        scale 1, the focus text is shown from half-way on, and the counter, the tick time and
        the phase start stay; once it is over the breathing cycle starts at the inhale, with the
        tick and the countdown started and each variant's counter, scale and counter display.
        Only the balanced exercise touches its phase length and endpoints, and only at the end. */
    twostate predicate IntroStep(t: int, now: int, wall: int)
      reads this`timerElement, this`ended, this`isTransitioning, this`transitionDueAt, this`isIntro,
        this`scale, this`counter, this`counterElement, this`lastTime, this`startTime,
        this`phaseStartTime, this`cycleStage, this`instructionElement, this`introStartTime,
        this`phaseDuration, this`initialScale, this`targetScale
    {
      var shown := if old(counterElement).Some? then Some(old(counterElement).value.(visible := true)) else None;
      timerElement == old(timerElement) && ended == old(ended)
      && isTransitioning == old(isTransitioning) && transitionDueAt == old(transitionDueAt)
      && cycleStage == 0
      && (variant != BalancedBreathing || t - introStartTime < IntroDuration ==>
            phaseDuration == old(phaseDuration) && initialScale == old(initialScale)
            && targetScale == old(targetScale))
      && (t - introStartTime < IntroDuration ==>
            isIntro && scale == 1.0 && counter == old(counter) && counterElement == old(counterElement)
            && lastTime == old(lastTime) && startTime == old(startTime) && phaseStartTime == old(phaseStartTime)
            && instructionElement ==
                 (if t - introStartTime >= IntroDuration / 2 then Some(FocusText) else old(instructionElement)))
      && (t - introStartTime >= IntroDuration ==>
            !isIntro && lastTime == t && startTime == Some(wall)
            && instructionElement == Some("Inhale") && phaseStartTime == now
            && match variant
               case SquareBreathing =>
                 counter == 1 && scale == MinScale
                 && counterElement == (if old(counterElement).Some? then Some(Display("1", true)) else None)
               case BalancedBreathing => counter == 1 && scale == MinScale && counterElement == shown
               case SleepBreathing => counter == old(counter) && scale == 1.0 && counterElement == shown)
    }

    /** `animate`, one frame at timestamp `t` (with `now` for `performance.now()` and `wall`
        for `Date.now()`): the next frame is requested first; an introduction frame only runs
        the introduction; a breathing frame adjusts the scale, ticks the counter once an
        interval has passed since the last tick, and updates the timer. Rendering needs the
        scene. */
    method Animate(t: int, now: int, wall: int)
      requires Valid() && scene.Some?
      requires isIntro && t - introStartTime >= IntroDuration / 2 ==> instructionElement.Some?
      modifies this`scale, this`isIntro, this`cycleStage, this`lastTime, this`startTime,
        this`instructionElement, this`counterElement, this`counter, this`phaseStartTime,
        this`phaseDuration, this`initialScale, this`targetScale, this`isTransitioning,
        this`transitionDueAt, this`timerElement, this`ended, this`running
      ensures Valid() && running
      ensures old(isIntro) ==> IntroStep(t, now, wall)
      ensures !old(isIntro) ==> BreathingStep(t, now, wall)
    {
      running := true;
      if isIntro {
        IntroFrame(t, now, wall);
      } else {
        BreathingFrame(t, now, wall);
      }
    }

    /** The part of `animate` during the introduction. */
    method IntroFrame(t: int, now: int, wall: int)
      requires Valid() && isIntro
      requires t - introStartTime >= IntroDuration / 2 ==> instructionElement.Some?
      modifies this`scale, this`isIntro, this`cycleStage, this`lastTime, this`startTime,
        this`instructionElement, this`counterElement, this`counter, this`phaseStartTime,
        this`phaseDuration, this`initialScale, this`targetScale
      ensures Valid() && IntroStep(t, now, wall)
    {
      HandleIntroAnimation(t, now, wall);
    }

    /** The part of `animate` after the introduction: the shape's scale, the one-second tick of
        the counter, and the countdown clock. */
    method BreathingFrame(t: int, now: int, wall: int)
      requires Valid() && !isIntro
      modifies this`scale, this`lastTime, this`startTime, this`counterElement, this`counter,
        this`isTransitioning, this`transitionDueAt, this`timerElement, this`ended
      ensures Valid() && BreathingStep(t, now, wall)
    {
      ShapeAndTick(t, now);
      UpdateTimer(wall);
    }

    /** The shape's scale and, once an interval has passed since the last tick, the tick of the
        counter. */
    method ShapeAndTick(t: int, now: int)
      requires Valid() && !isIntro
      modifies this`scale, this`lastTime, this`counterElement, this`counter,
        this`isTransitioning, this`transitionDueAt
      ensures Valid() && ScaleAndCounterStep(t, now)
    {
      AdjustShapeScale(now);
      if t - lastTime >= Interval {
        UpdateCounter(now);
        lastTime := t;
      }
    }
  }
}
