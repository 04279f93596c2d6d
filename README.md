# tb_mounts build orchestration, modelled in Dafny

`build.js` drives the build of the tb_mounts OpenSCAD models. Its `run`
function works through these steps in order:

1. It checks that `openscad` is on the path.
2. It removes any old `openscad/BOSL` checkout, then clones the BOSL library again.
3. It loads `build-config.json`.
4. It builds the customiser document and writes it to `openscad/customiser.json`. The document has one parameter set per stem (`stem_<name>`) and one per connection block (`block_<name>`).
5. It cleans and re-creates the output directory tree.
6. It runs `openscad` once for every stem and then once for every connection block. A failed render only sets `hasErrors`.

Every setup step that fails makes `run` return `-1` straight away (except the unguarded steps listed under "## Left out"). After rendering, `run` returns `-1` if any render failed.

The model has six modules:

- `Wrappers`: `Option`.
- `BuildConfig`: the parsed configuration.
- `Customiser`: the parameter sets.
  - `Put` and `Customise` are the functional specification.
  - `BuildCustomiser` is the two assignment loops, proved equal to `Customise`.
- `Effects`: what `run` asks of the outside world.
- `Render`: the render loops.
  - `RenderKind` is one `for ... of` loop, and `RenderAll` runs it for the stems and then for the connection blocks. They share the `hasErrors` flag.
  - `RenderTrace` and `Invocations` specify them.
- `Pipeline`: the whole of `run`.
  - `Run` is the straight-line method with its early returns.
  - `RunFrom` and `RunTrace` are the stage machine that specifies it. A passing stage moves on to `Next(stage)`; a failing stage ends the run.

The outside world's answers come in as an `Environment`. It says:

- whether `openscad` is found;
- whether each directory exists;
- whether each removal, the clone, the configuration read and parse, and the write succeed;
- one success flag per render attempt.

`run` produces a trace of effects, each labelled with its stage, and its return value. `Some(-1)` stands for `return -1`; `None` stands for finishing without a value. `__dirname` is an opaque string. The output directories, the customiser path given to `openscad -p` and the `.scad` model path are derived from it (build.js:95-97, 125-126). The BOSL checkout, the configuration file and the customiser write path are relative to the working directory, as in the source (build.js:22, 41, 53, 85).

## Model

| member | source | states |
|---|---|---|
| BuildConfig.DistinctNamesCount | build.js:70-81 | a collection without repeated names has exactly as many names as items |
| Customiser.BuildCustomiser | build.js:64-81 | the two assignment loops build the document specified by `Customise`: stems in order, then blocks, version "1" |
| Customiser.KeyInjective | build.js:71-78 | two keys are equal exactly when they come from the same collection and the same name |
| Customiser.KeysDisjoint | build.js:70-81 | no stem key equals a connection-block key |
| Customiser.PutSnoc | build.js:70-81 | each loop iteration assigns the next item's key its record on top of the earlier iterations' map |
| Customiser.PutKeys | build.js:70-81 | one loop adds exactly the collection's keys to the key set |
| Customiser.PutEntries | build.js:70-81 | after one loop every item's key maps to that item's single-field record, whatever the map held before |
| Customiser.PutKeeps | build.js:70-81 | one loop leaves every key outside the collection's keys with its old entry |
| Customiser.KeysCount | build.js:70-81 | a collection contributes one key per distinct name |
| Customiser.KeyInNames | build.js:71-78 | a key is among a collection's keys exactly when its name is among the collection's names |
| Customiser.CustomiseContents | build.js:64-81 | the key set is exactly the stem keys plus the block keys; each stem key maps to `stem_type: name`, each block key to `connection_block_type: name`; the version is "1" |
| Customiser.CustomiseSize | build.js:64-81 | the entry count is the distinct stem names plus the distinct block names, and N + M when names do not repeat |
| Customiser.RepeatedNameOverwrites | build.js:70-74 | the last assignment for a key stands, and a repeated name leaves the parameter sets unchanged |
| Customiser.RoundSnapDocument | build.js:64-81 | stem `round` and block `snap` give exactly `stem_round` and `block_snap` with their records |
| Render.RenderItem | build.js:130-151 | one iteration emits the licence notice exactly when a licence is present, then the renderer call; the iteration fails exactly when the render fails |
| Render.RenderKind | build.js:130-151 | one loop performs its collection's render effects in order, and its failure flag is set exactly when one of its attempts failed |
| Render.RenderAll | build.js:124-174 | the two loops perform the specified render trace, stems first; `hasErrors` is set exactly when some attempt failed |
| Render.InvocationsAppend | build.js:129-174 | the renderer calls of two traces run one after the other are those of the first, then those of the second |
| Render.ItemInvocations | build.js:135-145 | one iteration calls the renderer exactly once, with `-p customiser -P key -o outPath scadFile`, whatever the licence |
| Render.KindInvocations | build.js:130-151 | one loop calls the renderer once per item, in order, with that item's argument vector |
| Render.RenderAttempts | build.js:129-174 | there are exactly N + M attempts: every stem in order, then every block, whatever the outcomes |
| Render.PlannedSelectors | build.js:141-145 | every argument vector of a loop reads the customiser document and selects one of that loop's keys |
| Render.SelectorsAreParameterSets | build.js:141-145 | every call passes seven arguments, reads the customiser document, and selects a parameter set that the document holds |
| Render.OutPathInjective | build.js:132-156 | two items get the same output path exactly when they have the same name in the same collection; a repeated name therefore renders twice to one `.stl` path, the second render overwriting the first |
| Pipeline.Run | build.js:8-184 | `run` performs the stage-machine trace; it returns -1 exactly when a setup stage fails or some render failed; a missing `openscad` means one look-up and nothing else |
| Pipeline.RenderStage | build.js:123-174 | the render stage performs the render loops and reports a failure exactly when some attempt failed |
| Pipeline.Reaches | build.js:8-121 | when every earlier stage passes, the run is those stages' steps followed by the run from this stage |
| Pipeline.StopsAt | build.js:8-121 | when every earlier stage passes and this one fails, the run ends with this stage's steps |
| Pipeline.UptoStages | build.js:8-121 | the stages up to a stage label their steps with it or an earlier stage, and before rendering nothing calls the renderer |
| Pipeline.StopsAtFirstFailure | build.js:11-116 | after the first failing stage nothing later happens: the last step is that stage's, no step comes from a later stage, and the renderer is never called |
| Pipeline.FirstFailure | build.js:11-116 | whenever some stage fails, a first failing stage exists |
| Pipeline.FailedRunRendersNothing | build.js:11-116 | a run with a failing setup stage has no render-stage step and no renderer call |
| Pipeline.CompleteSetup | build.js:11-174 | when setup passes, the configuration was loaded and the run is the setup, which renders nothing, followed by both render loops |
| Pipeline.CustomiserWrittenBeforeRendering | build.js:63-121 | when setup passes, the document built from the loaded configuration is written during setup, before any rendering |
| Pipeline.CompleteRunInvocations | build.js:123-174 | when setup passes, the run calls the renderer exactly once per stem, then once per block, in order |

## Left out

- The file system, `commandExists`, `git` and `openscad` are not performed. Their outcomes are inputs (`Environment`), and the model records each request as an effect.
- Reading and `JSON.parse` of `build-config.json` are one outcome. A configuration that parses but lacks `stems` or `connection_blocks` throws outside the modelled paths and is not modelled. Non-string names are converted to strings by the template literals (a missing name becomes `undefined`); `ItemSpec.name: string` cannot represent them, so they are not modelled.
- Render.OutPathInjective: output paths are compared as strings and are not normalised, so a name containing `../`, or names differing only in case on a case-insensitive file system, may reach the same file through different paths; the file system is not modelled.
- `JSON.stringify` of the customiser document is not modelled. The write effect carries the document as a value.
- Log messages are not modelled. This includes the render-failure messages that interpolate the whole item and the licence notice text. Whether the notice is emitted is kept as the `LicenceNotice` effect.
- A `stat` that fails for a reason other than "not there" is treated like a missing directory, as the source's empty `catch` does.
- The customiser document is written to `openscad/customiser.json` relative to the working directory (build.js:85), but `openscad -p` is given `${__dirname}/openscad/customiser.json` (build.js:125, 142). The two are the same file only when the script runs from its own directory. The model keeps both paths as the source has them and does not relate them. `Render.SelectorsAreParameterSets` therefore speaks of the document `Customise(config)`, not of the file the renderer reads.
- `commandExists('openscad')` (build.js:12) is modelled as resolving to true or false (`Environment.rendererFound`), as the source's `if`/`else` expects. The `command-exists` package is not part of this model. If its promise rejects for a missing command instead, the `else` branch at build.js:14-17 is never reached. The rejection would then escape `run` into the wrapper's empty `catch` (build.js:187-193) instead of `return -1`. That path is not modelled, as with the unguarded `mkdir` calls below.
- The three `mkdir` calls at build.js:119-121 are not guarded in the source. A rejection would escape `run`; the model lets them always succeed.
- The anonymous async wrapper at build.js:187-193 calls `run` and discards its result. The process exit status is therefore not modelled. The `return -1`s suggest a failing exit status was meant; the model states it only as `run`'s return value.
- Running the build twice and finding the same output is not modelled, because the file system is not modelled.
