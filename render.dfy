/**
 * The externally visible effects of `run`, in the order it performs them.
 * File-system calls, `commandExists`, and the `git` and `openscad`
 * subprocesses are recorded here rather than performed; whether each
 * one succeeds is supplied by the caller.
 */
module Effects {
  import Customiser

  datatype Effect =
    | LookUpCommand(command: string)                           // commandExists
    | Stat(path: string)                                       // fs.promises.stat
    | RemoveTree(path: string)                                 // fs.promises.rmdir, recursive
    | Spawn(program: string, args: seq<string>)                // execa
    | ReadFile(path: string)                                   // fs.promises.readFile
    | WriteFile(path: string, document: Customiser.Customiser) // fs.promises.writeFile of the JSON
    | MakeDir(path: string)                                    // fs.promises.mkdir
    | LicenceNotice(licence: string)                           // the licence line of the log
}

/**
 * The render driver of `run` (build.js:124-183): one `openscad` invocation
 * per stem, then one per connection block, each failure only setting
 * `hasErrors`.
 */
module Render {
  import opened Wrappers
  import opened BuildConfig
  import opened Customiser
  import opened Effects

  const Renderer: string := "openscad"

  /**
   * The paths `run` derives from `__dirname` before rendering: the output
   * directory and its two subdirectories, the customiser document and the
   * OpenSCAD model.
   */
  datatype Paths = Paths(outputBase: string, stemOutput: string, blockOutput: string, customiser: string, scadFile: string)

  function PathsFor(dirname: string): Paths
  {
    var outputBase := dirname + "/output";
    Paths(outputBase, outputBase + "/stems", outputBase + "/connection_blocks",
          dirname + "/openscad/customiser.json", dirname + "/openscad/mount.scad")
  }

  /** `stemOutputBasePath` or `blockOutputBasePath`. */
  function OutputDir(paths: Paths, kind: Kind): string
  {
    match kind
    case Stem => paths.stemOutput
    case ConnectionBlock => paths.blockOutput
  }

  /** Where the renderer is told to write an item's model. */
  function OutPath(paths: Paths, kind: Kind, name: string): string
  {
    OutputDir(paths, kind) + "/" + name + ".stl"
  }

  /** The argument vector of the renderer for one item. */
  function RenderArgs(paths: Paths, kind: Kind, name: string): seq<string>
  {
    ["-p", paths.customiser, "-P", Key(kind, name), "-o", OutPath(paths, kind, name), paths.scadFile]
  }

  /** One loop iteration: the licence notice when a licence is present, then the invocation. */
  function ItemEffects(paths: Paths, kind: Kind, item: ItemSpec): seq<Effect>
  {
    (match item.licence
     case Some(licence) => [LicenceNotice(licence)]
     case None => [])
    + [Spawn(Renderer, RenderArgs(paths, kind, item.name))]
  }

  /** One render loop over a collection, in order. */
  function KindEffects(paths: Paths, kind: Kind, items: seq<ItemSpec>): seq<Effect>
    decreases |items|
  {
    if items == [] then []
    else KindEffects(paths, kind, items[..|items| - 1]) + ItemEffects(paths, kind, items[|items| - 1])
  }

  /** Both render loops: every stem, then every connection block. */
  function RenderTrace(paths: Paths, config: Config): seq<Effect>
  {
    KindEffects(paths, Stem, config.stems) + KindEffects(paths, ConnectionBlock, config.connectionBlocks)
  }

  /** Whether an effect is an invocation of the renderer. */
  predicate RendererCall(effect: Effect)
  {
    effect.Spawn? && effect.program == Renderer
  }

  /** The argument vectors of the renderer invocations in a trace, in order. */
  function Invocations(trace: seq<Effect>): seq<seq<string>>
    decreases |trace|
  {
    if trace == [] then []
    else
      var last := trace[|trace| - 1];
      Invocations(trace[..|trace| - 1]) + (if RendererCall(last) then [last.args] else [])
  }

  /** The argument vectors a collection should produce: one per item, in order. */
  function PlannedArgs(paths: Paths, kind: Kind, items: seq<ItemSpec>): seq<seq<string>>
  {
    seq(|items|, i requires 0 <= i < |items| => RenderArgs(paths, kind, items[i].name))
  }

  /**
   * One loop iteration: the licence notice when there is a licence, then the
   * renderer invocation inside its `try`; `failed` is what the `catch` records.
   */
  method RenderItem(paths: Paths, kind: Kind, item: ItemSpec, succeeded: bool)
    returns (effects: seq<Effect>, failed: bool)
    ensures effects == ItemEffects(paths, kind, item)
    ensures failed == !succeeded
  {
    effects := [];
    if item.licence.Some? {
      effects := effects + [LicenceNotice(item.licence.value)];
    }
    effects := effects + [Spawn(Renderer, RenderArgs(paths, kind, item.name))];
    failed := !succeeded;
  }

  /**
   * One render loop: every item of a collection in order, `outcomes[i]` being
   * whether attempt `i` succeeds; `failed` is set by the first failure and
   * never cleared.
   */
  method RenderKind(paths: Paths, kind: Kind, items: seq<ItemSpec>, outcomes: seq<bool>)
    returns (effects: seq<Effect>, failed: bool)
    requires |outcomes| == |items|
    ensures effects == KindEffects(paths, kind, items)
    ensures failed <==> false in outcomes
  {
    effects, failed := [], false;
    for i := 0 to |items|
      invariant effects == KindEffects(paths, kind, items[..i])
      invariant failed <==> false in outcomes[..i]
    {
      var itemEffects, itemFailed := RenderItem(paths, kind, items[i], outcomes[i]);
      KindEffectsSnoc(paths, kind, items, i);
      effects := effects + itemEffects;
      if itemFailed {
        failed := true;
      }
      assert outcomes[..i + 1] == outcomes[..i] + [outcomes[i]];
    }
    assert items[..|items|] == items;
    assert outcomes[..|items|] == outcomes;
  }

  /**
   * Both render loops: the stems take the first outcomes, the connection
   * blocks the rest; `hasErrors` is shared by the two loops.
   */
  method RenderAll(paths: Paths, config: Config, renderSucceeded: seq<bool>)
    returns (trace: seq<Effect>, hasErrors: bool)
    requires |renderSucceeded| == |config.stems| + |config.connectionBlocks|
    ensures trace == RenderTrace(paths, config)
    ensures hasErrors <==> false in renderSucceeded
  {
    var n := |config.stems|;
    var stemEffects, stemFailed := RenderKind(paths, Stem, config.stems, renderSucceeded[..n]);
    var blockEffects, blockFailed := RenderKind(paths, ConnectionBlock, config.connectionBlocks, renderSucceeded[n..]);
    trace := stemEffects + blockEffects;
    hasErrors := stemFailed || blockFailed;
    assert renderSucceeded == renderSucceeded[..n] + renderSucceeded[n..];
  }

  /** One more iteration of a render loop appends that item's effects. */
  lemma KindEffectsSnoc(paths: Paths, kind: Kind, items: seq<ItemSpec>, i: nat)
    requires i < |items|
    ensures KindEffects(paths, kind, items[..i + 1]) == KindEffects(paths, kind, items[..i]) + ItemEffects(paths, kind, items[i])
  {
    assert items[..i + 1][..i] == items[..i];
  }

  /** Invocations distribute over concatenation. */
  lemma {:induction false} InvocationsAppend(a: seq<Effect>, b: seq<Effect>)
    ensures Invocations(a + b) == Invocations(a) + Invocations(b)
    decreases |b|
  {
    if b != [] {
      var init, last := b[..|b| - 1], b[|b| - 1];
      assert (a + b)[..|a + b| - 1] == a + init;
      assert (a + b)[|a + b| - 1] == last;
      InvocationsAppend(a, init);
      var tail := if RendererCall(last) then [last.args] else [];
      assert Invocations(a + b) == Invocations(a + init) + tail;
      assert Invocations(b) == Invocations(init) + tail;
      assert (Invocations(a) + Invocations(init)) + tail == Invocations(a) + (Invocations(init) + tail);
    } else {
      assert a + b == a;
    }
  }

  /** One iteration invokes the renderer exactly once, whether or not a licence notice precedes it. */
  lemma ItemInvocations(paths: Paths, kind: Kind, item: ItemSpec)
    ensures Invocations(ItemEffects(paths, kind, item)) == [RenderArgs(paths, kind, item.name)]
  {
    var spawn := Spawn(Renderer, RenderArgs(paths, kind, item.name));
    match item.licence
    case None =>
      assert ItemEffects(paths, kind, item) == [spawn];
      assert [spawn][..0] == [];
    case Some(licence) =>
      var effects := [LicenceNotice(licence), spawn];
      assert ItemEffects(paths, kind, item) == effects;
      assert effects[..1] == [LicenceNotice(licence)];
      assert effects[..1][..0] == [];
      assert Invocations(effects[..1]) == [];
      assert Invocations(effects) == Invocations(effects[..1]) + [spawn.args];
  }

  /** One render loop invokes the renderer once per item, in order, whatever the licences. */
  lemma {:induction false} KindInvocations(paths: Paths, kind: Kind, items: seq<ItemSpec>)
    ensures Invocations(KindEffects(paths, kind, items)) == PlannedArgs(paths, kind, items)
    decreases |items|
  {
    if items != [] {
      var init, last := items[..|items| - 1], items[|items| - 1];
      KindInvocations(paths, kind, init);
      InvocationsAppend(KindEffects(paths, kind, init), ItemEffects(paths, kind, last));
      ItemInvocations(paths, kind, last);
      PlannedArgsSnoc(paths, kind, items);
    }
  }

  /** A trace without renderer calls has no invocations. */
  lemma {:induction false} NoInvocations(trace: seq<Effect>)
    requires forall i :: 0 <= i < |trace| ==> !RendererCall(trace[i])
    ensures Invocations(trace) == []
    decreases |trace|
  {
    if trace != [] {
      NoInvocations(trace[..|trace| - 1]);
    }
  }

  lemma PlannedArgsSnoc(paths: Paths, kind: Kind, items: seq<ItemSpec>)
    requires items != []
    ensures PlannedArgs(paths, kind, items)
            == PlannedArgs(paths, kind, items[..|items| - 1]) + [RenderArgs(paths, kind, items[|items| - 1].name)]
  {
  }

  /**
   * The render phase makes exactly |stems| + |connection blocks| attempts:
   * every stem in configuration order, then every block; the outcomes of the
   * attempts play no part in which attempts are made.
   */
  lemma RenderAttempts(paths: Paths, config: Config)
    ensures Invocations(RenderTrace(paths, config))
            == PlannedArgs(paths, Stem, config.stems) + PlannedArgs(paths, ConnectionBlock, config.connectionBlocks)
    ensures |Invocations(RenderTrace(paths, config))| == |config.stems| + |config.connectionBlocks|
  {
    InvocationsAppend(KindEffects(paths, Stem, config.stems), KindEffects(paths, ConnectionBlock, config.connectionBlocks));
    KindInvocations(paths, Stem, config.stems);
    KindInvocations(paths, ConnectionBlock, config.connectionBlocks);
  }

  /** Every argument vector of a loop reads the customiser document and selects one of the loop's keys. */
  lemma PlannedSelectors(paths: Paths, kind: Kind, items: seq<ItemSpec>)
    ensures forall args :: args in PlannedArgs(paths, kind, items) ==>
      |args| == 7 && args[1] == paths.customiser && args[3] in Keys(kind, items)
  {
    forall args | args in PlannedArgs(paths, kind, items)
      ensures |args| == 7 && args[1] == paths.customiser && args[3] in Keys(kind, items)
    {
      var i :| 0 <= i < |items| && PlannedArgs(paths, kind, items)[i] == args;
      assert items[i] in items;
    }
  }

  /**
   * Every invocation passes the `__dirname`-based customiser path and selects
   * a parameter set that the document built from the same configuration holds.
   */
  lemma SelectorsAreParameterSets(paths: Paths, config: Config)
    ensures forall args :: args in Invocations(RenderTrace(paths, config)) ==>
      |args| == 7 && args[1] == paths.customiser && args[3] in Customise(config).parameterSets
  {
    RenderAttempts(paths, config);
    CustomiseContents(config);
    PlannedSelectors(paths, Stem, config.stems);
    PlannedSelectors(paths, ConnectionBlock, config.connectionBlocks);
  }

  /** Two items get the same output path exactly when they have the same name in the same collection. */
  lemma OutPathInjective(dirname: string, k1: Kind, n1: string, k2: Kind, n2: string)
    ensures OutPath(PathsFor(dirname), k1, n1) == OutPath(PathsFor(dirname), k2, n2) <==> k1 == k2 && n1 == n2
  {
    var paths := PathsFor(dirname);
    var p1, p2 := OutputDir(paths, k1) + "/", OutputDir(paths, k2) + "/";
    var o1, o2 := OutPath(paths, k1, n1), OutPath(paths, k2, n2);
    assert o1 == p1 + n1 + ".stl";
    assert o2 == p2 + n2 + ".stl";
    if k1 != k2 {
      // The subdirectory names differ in their first character, just after "<dirname>/output/".
      var at := |dirname| + 8;
      assert p1[at] != p2[at];
      assert o1[at] == p1[at];
      assert o2[at] == p2[at];
    } else if o1 == o2 {
      assert |n1| == |n2|;
      assert n1 == o1[|p1|..|p1| + |n1|];
      assert n2 == o2[|p2|..|p2| + |n2|];
    }
  }
}
