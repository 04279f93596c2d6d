/**
 * `run` as a sequence of stages (build.js:8-184). Each setup stage either lets
 * the run continue or makes it `return -1` at once; the render stage runs
 * only after every setup stage has passed, and fails the run afterwards if
 * any single render failed.
 *
 * What the outside world answers (is openscad on the path, does a directory
 * exist, did a removal, the clone, the read and parse of the configuration,
 * the write, or each render succeed) is given as an `Environment`; the run
 * produces the trace of effects it performs and its return value.
 */
module Pipeline {
  import opened Wrappers
  import opened BuildConfig
  import opened Customiser
  import opened Effects
  import opened Render

  const BoslDir: string := "openscad/BOSL"
  const BoslRepository: string := "https://github.com/revarbat/BOSL.git"
  const ConfigFile: string := "./build-config.json"
  const CustomiserFile: string := "openscad/customiser.json"

  /** The stages of `run`, in the order it performs them. */
  datatype Stage =
    | ToolCheck        // build.js:11-17
    | BoslClean        // build.js:19-37
    | BoslClone        // build.js:39-47
    | ConfigLoad       // build.js:49-58
    | CustomiserWrite  // build.js:63-92
    | OutputClean      // build.js:94-116
    | OutputCreate     // build.js:118-121
    | Rendering        // build.js:123-183

  /** The stage `run` moves on to when a stage passes. */
  function Next(stage: Stage): Option<Stage>
  {
    match stage
    case ToolCheck => Some(BoslClean)
    case BoslClean => Some(BoslClone)
    case BoslClone => Some(ConfigLoad)
    case ConfigLoad => Some(CustomiserWrite)
    case CustomiserWrite => Some(OutputClean)
    case OutputClean => Some(OutputCreate)
    case OutputCreate => Some(Rendering)
    case Rendering => None
  }

  /** The position of a stage in the run. */
  function Rank(stage: Stage): nat
  {
    match stage
    case ToolCheck => 0
    case BoslClean => 1
    case BoslClone => 2
    case ConfigLoad => 3
    case CustomiserWrite => 4
    case OutputClean => 5
    case OutputCreate => 6
    case Rendering => 7
  }

  /** An effect, labelled with the stage that performed it. */
  datatype Step = Step(stage: Stage, effect: Effect)

  /** The answers of the outside world to the run's requests. */
  datatype Environment = Environment(
    dirname: string,              // __dirname
    rendererFound: bool,          // commandExists('openscad') resolves to true
    boslIsDirectory: bool,        // stat('openscad/BOSL') resolves to a directory
    boslRemoved: bool,            // the rmdir of the old checkout resolves
    cloned: bool,                 // git clone resolves
    config: Option<Config>,       // None: the read or JSON.parse throws
    customiserWritten: bool,      // the writeFile resolves
    outputIsDirectory: bool,      // stat of the output directory resolves to a directory
    outputRemoved: bool,          // the rmdir of the output directory resolves
    renderSucceeded: seq<bool>)   // one per render attempt, stems first, then connection blocks

  /** Whether a stage makes the run `return -1` straight away. */
  predicate Fails(env: Environment, stage: Stage)
  {
    match stage
    case ToolCheck => !env.rendererFound
    case BoslClean => env.boslIsDirectory && !env.boslRemoved
    case BoslClone => !env.cloned
    case ConfigLoad => env.config.None?
    case CustomiserWrite => !env.customiserWritten
    case OutputClean => env.outputIsDirectory && !env.outputRemoved
    case OutputCreate => false  // the mkdir calls are not guarded
    case Rendering => false     // render failures are collected, not returned at once
  }

  /** Some setup stage makes the run return early. */
  predicate SomeStageFails(env: Environment)
  {
    exists stage :: Fails(env, stage)
  }

  /** Labels each effect with the stage that performed it. */
  function Tagged(stage: Stage, effects: seq<Effect>): seq<Step>
  {
    seq(|effects|, i requires 0 <= i < |effects| => Step(stage, effects[i]))
  }

  /**
   * What a stage performs when it is reached. The two stages that use the
   * configuration are reached only after it has loaded.
   */
  function StageSteps(env: Environment, stage: Stage): seq<Step>
  {
    var paths := PathsFor(env.dirname);
    match stage
    case ToolCheck => [Step(ToolCheck, LookUpCommand(Renderer))]
    case BoslClean =>
      [Step(BoslClean, Stat(BoslDir))]
      + (if env.boslIsDirectory then [Step(BoslClean, RemoveTree(BoslDir))] else [])
    case BoslClone => [Step(BoslClone, Spawn("git", ["clone", BoslRepository, BoslDir]))]
    case ConfigLoad => [Step(ConfigLoad, ReadFile(ConfigFile))]
    case CustomiserWrite =>
      (match env.config
       case Some(config) => [Step(CustomiserWrite, WriteFile(CustomiserFile, Customise(config)))]
       case None => [])
    case OutputClean =>
      [Step(OutputClean, Stat(paths.outputBase))]
      + (if env.outputIsDirectory then [Step(OutputClean, RemoveTree(paths.outputBase))] else [])
    case OutputCreate =>
      [Step(OutputCreate, MakeDir(paths.outputBase)),
       Step(OutputCreate, MakeDir(paths.stemOutput)),
       Step(OutputCreate, MakeDir(paths.blockOutput))]
    case Rendering =>
      (match env.config
       case Some(config) => Tagged(Rendering, RenderTrace(paths, config))
       case None => [])
  }

  /**
   * The run from `stage` on: perform the stage, then stop if it failed and
   * otherwise move on to the next one.
   */
  function RunFrom(env: Environment, stage: Stage): seq<Step>
    decreases 7 - Rank(stage)
  {
    StageSteps(env, stage)
    + if Fails(env, stage) then []
      else match Next(stage)
        case None => []
        case Some(next) => RunFrom(env, next)
  }

  /** Everything `run` does, in order. */
  function RunTrace(env: Environment): seq<Step>
  {
    RunFrom(env, ToolCheck)
  }

  /** The stage performed just before `stage`. */
  function Previous(stage: Stage): (r: Option<Stage>)
    ensures r.None? <==> stage == ToolCheck
    ensures r.Some? ==> Next(r.value) == Some(stage) && Rank(r.value) + 1 == Rank(stage)
  {
    match stage
    case ToolCheck => None
    case BoslClean => Some(ToolCheck)
    case BoslClone => Some(BoslClean)
    case ConfigLoad => Some(BoslClone)
    case CustomiserWrite => Some(ConfigLoad)
    case OutputClean => Some(CustomiserWrite)
    case OutputCreate => Some(OutputClean)
    case Rendering => Some(OutputCreate)
  }

  /** What the stages before `stage` perform when all of them pass. */
  function Before(env: Environment, stage: Stage): seq<Step>
    decreases Rank(stage), 0
  {
    match Previous(stage)
    case None => []
    case Some(previous) => Upto(env, previous)
  }

  /** What the stages up to and including `stage` perform when the earlier ones pass. */
  function Upto(env: Environment, stage: Stage): seq<Step>
    decreases Rank(stage), 1
  {
    Before(env, stage) + StageSteps(env, stage)
  }

  /** The effects of a trace, without their stage labels. */
  function EffectsOf(trace: seq<Step>): (effects: seq<Effect>)
    ensures |effects| == |trace|
  {
    seq(|trace|, i requires 0 <= i < |trace| => trace[i].effect)
  }

  /** Every stage before `stage` passes. */
  predicate PassedBefore(env: Environment, stage: Stage)
  {
    forall earlier :: Rank(earlier) < Rank(stage) ==> !Fails(env, earlier)
  }

  /** The configuration's render attempts are the ones the outcomes are given for. */
  predicate OutcomesMatch(env: Environment)
  {
    env.config.Some? ==>
      |env.renderSucceeded| == |env.config.value.stems| + |env.config.value.connectionBlocks|
  }

  /**
   * `run`: the stages in order with their early returns. The result is
   * Some(-1) for `return -1` and None when `run` finishes without a value.
   */
  method Run(env: Environment) returns (trace: seq<Step>, result: Option<int>)
    requires OutcomesMatch(env)
    ensures trace == RunTrace(env)
    ensures result == if SomeStageFails(env) || false in env.renderSucceeded then Some(-1) else None
    ensures !env.rendererFound ==> trace == [Step(ToolCheck, LookUpCommand(Renderer))] && result == Some(-1)
  {
    trace := [Step(ToolCheck, LookUpCommand(Renderer))];
    assert trace == Upto(env, ToolCheck);
    if !env.rendererFound {
      StopsAt(env, ToolCheck);
      return trace, Some(-1);
    }

    // The stat, then the removal of an existing checkout.
    var steps := [Step(BoslClean, Stat(BoslDir))]
      + (if env.boslIsDirectory then [Step(BoslClean, RemoveTree(BoslDir))] else []);
    trace := trace + steps;
    assert trace == Upto(env, BoslClean);
    if env.boslIsDirectory && !env.boslRemoved {
      StopsAt(env, BoslClean);
      return trace, Some(-1);
    }

    trace := trace + [Step(BoslClone, Spawn("git", ["clone", BoslRepository, BoslDir]))];
    assert trace == Upto(env, BoslClone);
    if !env.cloned {
      StopsAt(env, BoslClone);
      return trace, Some(-1);
    }

    trace := trace + [Step(ConfigLoad, ReadFile(ConfigFile))];
    assert trace == Upto(env, ConfigLoad);
    if env.config.None? {
      StopsAt(env, ConfigLoad);
      return trace, Some(-1);
    }
    var config := env.config.value;

    var customiser := BuildCustomiser(config);
    trace := trace + [Step(CustomiserWrite, WriteFile(CustomiserFile, customiser))];
    assert trace == Upto(env, CustomiserWrite);
    if !env.customiserWritten {
      StopsAt(env, CustomiserWrite);
      return trace, Some(-1);
    }

    var paths := PathsFor(env.dirname);
    steps := [Step(OutputClean, Stat(paths.outputBase))]
      + (if env.outputIsDirectory then [Step(OutputClean, RemoveTree(paths.outputBase))] else []);
    trace := trace + steps;
    assert trace == Upto(env, OutputClean);
    if env.outputIsDirectory && !env.outputRemoved {
      StopsAt(env, OutputClean);
      return trace, Some(-1);
    }

    trace := trace + [Step(OutputCreate, MakeDir(paths.outputBase)),
                      Step(OutputCreate, MakeDir(paths.stemOutput)),
                      Step(OutputCreate, MakeDir(paths.blockOutput))];
    assert trace == Upto(env, OutputCreate);

    var hasErrors;
    steps, hasErrors := RenderStage(env, paths, config);
    trace := trace + steps;
    assert trace == Upto(env, Rendering);
    StopsAt(env, Rendering);
    NothingFails(env);
    if hasErrors {
      return trace, Some(-1);
    }
    return trace, None;
  }

  /** The render stage: both render loops, with the steps labelled as this stage's. */
  method RenderStage(env: Environment, paths: Paths, config: Config) returns (steps: seq<Step>, hasErrors: bool)
    requires OutcomesMatch(env) && env.config == Some(config) && paths == PathsFor(env.dirname)
    ensures steps == StageSteps(env, Rendering)
    ensures hasErrors <==> false in env.renderSucceeded
  {
    var renders;
    renders, hasErrors := RenderAll(paths, config, env.renderSucceeded);
    steps := Tagged(Rendering, renders);
  }

  /** When every earlier stage passes, the run is what they perform followed by the run from `stage`. */
  lemma {:induction false} Reaches(env: Environment, stage: Stage)
    requires PassedBefore(env, stage)
    ensures RunTrace(env) == Before(env, stage) + RunFrom(env, stage)
    decreases Rank(stage)
  {
    match Previous(stage)
    case None =>
      assert stage == ToolCheck;
    case Some(previous) =>
      Reaches(env, previous);
      assert RunFrom(env, previous) == StageSteps(env, previous) + RunFrom(env, stage);
      AppendAssociative(Before(env, previous), StageSteps(env, previous), RunFrom(env, stage));
  }

  /**
   * When every earlier stage passes and `stage` fails or is the last one,
   * the run ends with `stage`.
   */
  lemma StopsAt(env: Environment, stage: Stage)
    requires PassedBefore(env, stage)
    requires Fails(env, stage) || Next(stage).None?
    ensures RunTrace(env) == Upto(env, stage)
  {
    Reaches(env, stage);
    assert RunFrom(env, stage) == StageSteps(env, stage) + [];
  }

  /** The render stage never fails, so passing every earlier stage means no stage fails. */
  lemma NothingFails(env: Environment)
    requires PassedBefore(env, Rendering)
    ensures !SomeStageFails(env)
  {
  }

  lemma AppendAssociative(a: seq<Step>, b: seq<Step>, c: seq<Step>)
    ensures (a + b) + c == a + (b + c)
  {
  }

  /** Every step a stage performs is labelled with that stage; only rendering spawns the renderer. */
  lemma StageStepsTagged(env: Environment, stage: Stage)
    ensures forall i :: 0 <= i < |StageSteps(env, stage)| ==> StageSteps(env, stage)[i].stage == stage
    ensures stage != Rendering ==>
      forall i :: 0 <= i < |StageSteps(env, stage)| ==> !RendererCall(StageSteps(env, stage)[i].effect)
  {
  }

  /**
   * The stages up to `stage` label their steps with `stage` or an earlier one,
   * and before the render stage nothing invokes the renderer.
   */
  lemma {:induction false} UptoStages(env: Environment, stage: Stage)
    ensures forall i :: 0 <= i < |Upto(env, stage)| ==> Rank(Upto(env, stage)[i].stage) <= Rank(stage)
    ensures stage != Rendering ==>
      forall i :: 0 <= i < |Upto(env, stage)| ==> !RendererCall(Upto(env, stage)[i].effect)
    decreases Rank(stage)
  {
    StageStepsTagged(env, stage);
    match Previous(stage)
    case None =>
    case Some(previous) =>
      UptoStages(env, previous);
  }

  /**
   * The first failing stage ends the run: its own steps come last, no later
   * stage performs anything, and the renderer is never invoked.
   */
  lemma StopsAtFirstFailure(env: Environment, stage: Stage)
    requires PassedBefore(env, stage) && Fails(env, stage)
    ensures |RunTrace(env)| > 0 && RunTrace(env)[|RunTrace(env)| - 1].stage == stage
    ensures forall i :: 0 <= i < |RunTrace(env)| ==> Rank(RunTrace(env)[i].stage) <= Rank(stage)
    ensures forall i :: 0 <= i < |RunTrace(env)| ==> !RendererCall(RunTrace(env)[i].effect)
  {
    StopsAt(env, stage);
    UptoStages(env, stage);
    StageStepsTagged(env, stage);
    assert StageSteps(env, stage) != [];
  }

  /** Some stage is the first to fail whenever any stage fails. */
  lemma {:induction false} FirstFailure(env: Environment, stage: Stage)
    requires SomeStageFails(env) && PassedBefore(env, stage)
    ensures exists first :: PassedBefore(env, first) && Fails(env, first)
    decreases 7 - Rank(stage)
  {
    if !Fails(env, stage) {
      match Next(stage)
      case None =>
        assert false;
      case Some(next) =>
        FirstFailure(env, next);
    }
  }

  /**
   * When a setup stage fails, the render stage performs nothing: no step is
   * labelled with it and the renderer is never invoked.
   */
  lemma FailedRunRendersNothing(env: Environment)
    requires SomeStageFails(env)
    ensures forall i :: 0 <= i < |RunTrace(env)| ==> RunTrace(env)[i].stage != Rendering
    ensures Invocations(EffectsOf(RunTrace(env))) == []
  {
    FirstFailure(env, ToolCheck);
    var first :| PassedBefore(env, first) && Fails(env, first);
    StopsAtFirstFailure(env, first);
    NoInvocations(EffectsOf(RunTrace(env)));
  }

  /**
   * When every setup stage passes, the configuration was loaded, and the run
   * is the setup, in which nothing is rendered, followed by both render loops.
   */
  lemma CompleteSetup(env: Environment)
    requires !SomeStageFails(env)
    ensures env.config.Some?
    ensures RunTrace(env) == Before(env, Rendering) + Tagged(Rendering, RenderTrace(PathsFor(env.dirname), env.config.value))
    ensures forall i :: 0 <= i < |Before(env, Rendering)| ==>
      Before(env, Rendering)[i].stage != Rendering && !RendererCall(Before(env, Rendering)[i].effect)
  {
    assert !Fails(env, ConfigLoad);
    StopsAt(env, Rendering);
    UptoStages(env, OutputCreate);
  }

  /**
   * When every setup stage passes, the customiser document built from the
   * loaded configuration is written during the setup, before any rendering.
   */
  lemma CustomiserWrittenBeforeRendering(env: Environment)
    requires !SomeStageFails(env)
    ensures env.config.Some?
    ensures Step(CustomiserWrite, WriteFile(CustomiserFile, Customise(env.config.value))) in Before(env, Rendering)
  {
    assert !Fails(env, ConfigLoad);
    // The write is the last step up to its stage, and later stages only append.
    var written := Step(CustomiserWrite, WriteFile(CustomiserFile, Customise(env.config.value)));
    assert written in Upto(env, CustomiserWrite);
    assert Upto(env, OutputClean) == Upto(env, CustomiserWrite) + StageSteps(env, OutputClean);
    assert written in Upto(env, OutputClean);
    assert Before(env, Rendering) == Upto(env, OutputClean) + StageSteps(env, OutputCreate);
  }

  /**
   * A run whose setup passes invokes the renderer exactly once per stem and
   * then once per connection block, in configuration order, whichever
   * renders fail.
   */
  lemma CompleteRunInvocations(env: Environment)
    requires !SomeStageFails(env)
    ensures env.config.Some?
    ensures Invocations(EffectsOf(RunTrace(env)))
            == PlannedArgs(PathsFor(env.dirname), Stem, env.config.value.stems)
               + PlannedArgs(PathsFor(env.dirname), ConnectionBlock, env.config.value.connectionBlocks)
  {
    CompleteSetup(env);
    var setup, renders := Before(env, Rendering), RenderTrace(PathsFor(env.dirname), env.config.value);
    EffectsOfAppend(setup, Tagged(Rendering, renders));
    assert EffectsOf(Tagged(Rendering, renders)) == renders;
    InvocationsAppend(EffectsOf(setup), renders);
    NoInvocations(EffectsOf(setup));
    RenderAttempts(PathsFor(env.dirname), env.config.value);
  }

  lemma EffectsOfAppend(a: seq<Step>, b: seq<Step>)
    ensures EffectsOf(a + b) == EffectsOf(a) + EffectsOf(b)
  {
  }
}
