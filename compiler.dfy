/** packages/core/src/compiler.ts: the compiler object a build runs through.
 *  It holds the context the compilations share (the module graph and the
 *  library's file collection), the output assets and the statistics, picks
 *  the plugin set from its options and taps every plugin of that set into
 *  fresh hooks, and steps through the build stages.
 *
 *  The hooks themselves are modelled by what is tapped into them (the names
 *  of the applied plugins, in order) and by the order in which the build
 *  calls them. */
module Compiler {
  import opened Wrappers
  import opened TemplateHooks
  import opened Modules
  import FileResolver

  // ---------------------------------------------------------------------
  // assets and statistics
  // ---------------------------------------------------------------------

  /** How an asset is written out: copied from its source file, or written
   *  from its text. */
  datatype AssetContentType = CopyContent | PlainContent

  /** An output file (packages/core/src/modules/AssetBase.ts). Its path
   *  getters are computations of the `path` library and are taken as
   *  given fields. */
  datatype Asset = Asset(contentType: AssetContentType, absPath: string, outputPath: string, content: string)

  /** A module's entry in the statistics: its name and its directory. */
  datatype CompileInfo = CompileInfo(rawname: string, basePath: string)

  /** `CompilerStats`: every field may be absent, and `{}` has none. */
  datatype CompilerStats = CompilerStats(complete: Option<seq<CompileInfo>>, fail: Option<seq<CompileInfo>>)

  const EMPTY_STATS := CompilerStats(None, None)

  // ---------------------------------------------------------------------
  // options and plugins
  // ---------------------------------------------------------------------

  /** The options a compiler is built from. The three flags are optional
   *  booleans. */
  datatype CompilerOptions = CompilerOptions(
    root: string,
    entry: string,
    outdir: string,
    design: Option<bool>,
    designLibrary: Option<bool>,
    pageDesign: Option<bool>)

  /** `!!flag` on an optional boolean. */
  function Coerce(flag: Option<bool>): (b: bool)
    ensures b <==> flag == Some(true)
  {
    flag.Some? && flag.value
  }

  /** The shipped plugins, by their `name`. */
  datatype PluginName =
    | CompilerInitializePlugin
    | ComponentCompilerEntryPlugin
    | ComponentCompilerDistributionPlugin
    | TemplateParserPlugin
    | ScriptParserPlugin
    | StyleParserPlugin
    | WxsParserPlugin
    | TagRuleH5ComponentsPlugin
    | TagNamePlugin
    | AttributesPlugin
    | AttributeAndTextPlugin
    | DirectivesPlugin
    | JsxGeneratorPlugin
    | TemplateGeneratorPlugin
    | StyleGeneratorPlugin
    | H5ComponentsGeneratorPlugin
    | WxsGeneratorPlugin
    | CompilationStatsPlugin
    | CompilerEmitAssetsPlugin
    | CompilerStatsPlugin
    | LibraryCompilerEntryPlugin
    | LibraryGeneratorPlugin

  /** A plugin: its name, and whether it has an `apply` function. */
  datatype Plugin = Plugin(name: PluginName, hasApply: bool)

  /** packages/core/src/plugins/design.ts: the plugins before compilation,
   *  the parsers, the template passes, the generators, the statistics and
   *  the plugins after compilation. */
  const DESIGN_PLUGINS: seq<PluginName> := [
    CompilerInitializePlugin,
    ComponentCompilerEntryPlugin,
    ComponentCompilerDistributionPlugin,
    TemplateParserPlugin,
    ScriptParserPlugin,
    StyleParserPlugin,
    WxsParserPlugin,
    TagRuleH5ComponentsPlugin,
    TagNamePlugin,
    AttributesPlugin,
    AttributeAndTextPlugin,
    DirectivesPlugin,
    JsxGeneratorPlugin,
    TemplateGeneratorPlugin,
    StyleGeneratorPlugin,
    H5ComponentsGeneratorPlugin,
    WxsGeneratorPlugin,
    CompilationStatsPlugin,
    CompilerEmitAssetsPlugin,
    CompilerStatsPlugin]

  /** packages/core/src/plugins/designLibrary.ts: no template passes and
   *  the library entry in place of the component entry. */
  const DESIGN_LIBRARY_PLUGINS: seq<PluginName> := [
    CompilerInitializePlugin,
    LibraryCompilerEntryPlugin,
    ScriptParserPlugin,
    StyleParserPlugin,
    WxsParserPlugin,
    WxsGeneratorPlugin,
    LibraryGeneratorPlugin,
    CompilationStatsPlugin,
    CompilerEmitAssetsPlugin,
    CompilerStatsPlugin]

  /** The instances a shipped list holds: every shipped plugin has an
   *  `apply` function. */
  function Instances(names: seq<PluginName>): (ps: seq<Plugin>)
    ensures |ps| == |names| && forall i :: 0 <= i < |names| ==> ps[i] == Plugin(names[i], true)
  {
    seq(|names|, i requires 0 <= i < |names| => Plugin(names[i], true))
  }

  /** The plugin set `registerPlugins` starts from. */
  function SelectPlugins(isDesignPlatform: bool, isDesignLibrary: bool): seq<Plugin>
  {
    if isDesignPlatform then
      if isDesignLibrary then Instances(DESIGN_LIBRARY_PLUGINS) else Instances(DESIGN_PLUGINS)
    else []
  }

  /** The library set needs both flags; the design flag alone gives the
   *  design set; without the design flag no plugin is registered, whatever
   *  the library flag says. */
  lemma SelectionCases(isDesignPlatform: bool, isDesignLibrary: bool)
    ensures isDesignPlatform && isDesignLibrary ==> Names(SelectPlugins(isDesignPlatform, isDesignLibrary)) == DESIGN_LIBRARY_PLUGINS
    ensures isDesignPlatform && !isDesignLibrary ==> Names(SelectPlugins(isDesignPlatform, isDesignLibrary)) == DESIGN_PLUGINS
    ensures !isDesignPlatform ==> |SelectPlugins(isDesignPlatform, isDesignLibrary)| == 0
    ensures TemplateParserPlugin in Names(SelectPlugins(isDesignPlatform, isDesignLibrary)) <==> isDesignPlatform && !isDesignLibrary
  {
    assert DESIGN_PLUGINS[3] == TemplateParserPlugin;
  }

  function Names(plugins: seq<Plugin>): (ns: seq<PluginName>)
    ensures |ns| == |plugins| && forall i :: 0 <= i < |plugins| ==> ns[i] == plugins[i].name
  {
    if plugins == [] then [] else [plugins[0].name] + Names(plugins[1..])
  }

  /** The names of the plugins that `registerPlugins` applies, in list
   *  order: those without an `apply` function are skipped. */
  function AppliedNames(plugins: seq<Plugin>): seq<PluginName>
  {
    if plugins == [] then []
    else (if plugins[0].hasApply then [plugins[0].name] else []) + AppliedNames(plugins[1..])
  }

  lemma {:induction false} AppliedNamesSnoc(plugins: seq<Plugin>, p: Plugin)
    ensures AppliedNames(plugins + [p]) == AppliedNames(plugins) + (if p.hasApply then [p.name] else [])
    decreases |plugins|
  {
    if plugins == [] {
      assert plugins + [p] == [p];
    } else {
      assert (plugins + [p])[1..] == plugins[1..] + [p];
      AppliedNamesSnoc(plugins[1..], p);
    }
  }

  /** A name is applied exactly when some plugin of the list with that name
   *  has an `apply` function. */
  lemma {:induction false} AppliedNamesMembers(plugins: seq<Plugin>, name: PluginName)
    ensures name in AppliedNames(plugins) <==> exists i :: 0 <= i < |plugins| && plugins[i].name == name && plugins[i].hasApply
    decreases |plugins|
  {
    if plugins != [] {
      AppliedNamesMembers(plugins[1..], name);
      if name in AppliedNames(plugins[1..]) {
        var i :| 0 <= i < |plugins[1..]| && plugins[1..][i].name == name && plugins[1..][i].hasApply;
        assert plugins[i + 1] == plugins[1..][i];
      }
      if exists i :: 0 <= i < |plugins| && plugins[i].name == name && plugins[i].hasApply {
        var i :| 0 <= i < |plugins| && plugins[i].name == name && plugins[i].hasApply;
        if i > 0 {
          assert plugins[1..][i - 1] == plugins[i];
        }
      }
    }
  }

  /** When every plugin has an `apply` function, every one is applied, in
   *  list order. */
  lemma {:induction false} AllApplied(plugins: seq<Plugin>)
    requires forall i :: 0 <= i < |plugins| ==> plugins[i].hasApply
    ensures AppliedNames(plugins) == Names(plugins)
    decreases |plugins|
  {
    if plugins != [] {
      AllApplied(plugins[1..]);
    }
  }

  /** Both shipped sets consist of plugins that all have `apply`: every one
   *  of them is tapped in. */
  lemma ShippedSetsFullyApplied()
    ensures AppliedNames(Instances(DESIGN_PLUGINS)) == DESIGN_PLUGINS
    ensures AppliedNames(Instances(DESIGN_LIBRARY_PLUGINS)) == DESIGN_LIBRARY_PLUGINS
  {
    AllApplied(Instances(DESIGN_PLUGINS));
    AllApplied(Instances(DESIGN_LIBRARY_PLUGINS));
  }

  // ---------------------------------------------------------------------
  // the build
  // ---------------------------------------------------------------------

  /** The compiler hooks the build calls. */
  datatype BuildStage =
    | Initialize | EntryDependency | BeforeCompile | CompileStage | Make
    | BeforeEmitAssets | EmitAssets | Done | AfterDone

  /** The stages `build` calls, in order. */
  const BUILD_ORDER: seq<BuildStage> :=
    [EntryDependency, BeforeCompile, CompileStage, Make, BeforeEmitAssets, EmitAssets, Done, AfterDone]

  /** What the asynchronous hooks report: `initialize` and `emitAssets`
   *  may end with an error, and each tap of `make` (one compilation's
   *  `compile`) either calls its callback or never does. A compilation
   *  calls it without an argument even when it failed, so `make` never
   *  sees an error. */
  datatype HookOutcomes = HookOutcomes(initializeFails: bool, makeCallbacks: seq<bool>, emitAssetsFails: bool)

  /** `make` is a parallel hook: its callback fires once every tap has
   *  called back, and at once when nothing is tapped. */
  predicate MakeCompletes(makeCallbacks: seq<bool>)
  {
    forall i :: 0 <= i < |makeCallbacks| ==> makeCallbacks[i]
  }

  /** The index of `make` in the build order: the stages up to it are
   *  called whatever `make` does. */
  const MAKE_INDEX := 3

  class Compiler {
    const options: CompilerOptions
    var conditionDefinitions: seq<string>
    var isDesignPlatform: bool
    var isDesignLibrary: bool
    var isPageDesign: bool
    /** `context.flattedModulesMap`, keyed by the module's `.wxml` path. */
    var flattedModulesMap: map<string, BaseModule>
    /** `context.collectionsMap`, keyed by file path. */
    var collectionsMap: Record<FileResolver.File>
    /** The output assets in insertion order, keyed by output path. */
    var assets: Record<Asset>
    var stats: CompilerStats
    /** The plugins tapped into the current hooks, in tapping order. */
    var applied: seq<PluginName>

    /** The state `init` leaves: an empty context, no assets, empty
     *  statistics, and the selected plugins tapped into fresh hooks. */
    predicate Initialized()
      reads this
    {
      flattedModulesMap == map[] && collectionsMap == [] && assets == [] && stats == EMPTY_STATS &&
      applied == AppliedNames(SelectPlugins(isDesignPlatform, isDesignLibrary))
    }

    constructor (options: CompilerOptions)
      ensures this.options == options && conditionDefinitions == ["H5"]
      ensures isDesignPlatform == Coerce(options.design)
      ensures isDesignLibrary == Coerce(options.designLibrary)
      ensures isPageDesign == Coerce(options.pageDesign)
      ensures Initialized()
    {
      this.options := options;
      conditionDefinitions := ["H5"];
      isDesignPlatform := Coerce(options.design);
      isDesignLibrary := Coerce(options.designLibrary);
      isPageDesign := Coerce(options.pageDesign);
      new;
      Init();
    }

    /** `init`: the context, assets, statistics and hooks are replaced, then
     *  the plugins are registered on the fresh hooks. */
    method Init()
      modifies this
      ensures Initialized()
      ensures conditionDefinitions == old(conditionDefinitions)
      ensures isDesignPlatform == old(isDesignPlatform) && isDesignLibrary == old(isDesignLibrary)
      ensures isPageDesign == old(isPageDesign)
    {
      flattedModulesMap := map[];
      collectionsMap := [];
      assets := [];
      stats := EMPTY_STATS;
      applied := [];
      RegisterPlugins();
    }

    /** `registerPlugins`: each plugin of the selected set is applied in
     *  list order, skipping those without `apply`. */
    method RegisterPlugins()
      modifies this`applied
      ensures applied == old(applied) + AppliedNames(SelectPlugins(isDesignPlatform, isDesignLibrary))
    {
      var plugins := SelectPlugins(isDesignPlatform, isDesignLibrary);
      for i := 0 to |plugins|
        invariant applied == old(applied) + AppliedNames(plugins[..i])
      {
        AppliedNamesSnoc(plugins[..i], plugins[i]);
        assert plugins[..i + 1] == plugins[..i] + [plugins[i]];
        if plugins[i].hasApply {
          applied := applied + [plugins[i].name];
        }
      }
      assert plugins[..|plugins|] == plugins;
    }

    /** `run`, then `build`: the build stages are called only when
     *  `initialize` reports no error; the stages after `make` only when
     *  every compilation calls back; an error reported by `emitAssets`
     *  does not stop the stages after it. */
    method Run(outcomes: HookOutcomes) returns (trace: seq<BuildStage>)
      ensures outcomes.initializeFails ==> trace == [Initialize]
      ensures !outcomes.initializeFails && MakeCompletes(outcomes.makeCallbacks) ==> trace == [Initialize] + BUILD_ORDER
      ensures !outcomes.initializeFails && !MakeCompletes(outcomes.makeCallbacks) ==>
        trace == [Initialize] + BUILD_ORDER[..MAKE_INDEX + 1]
    {
      trace := [Initialize];
      if outcomes.initializeFails {
        return;
      }
      var built := Build(outcomes);
      trace := trace + built;
    }

    /** `build`: the stages in order, `beforeEmitAssets` called from the
     *  `make` callback and `done` from the `emitAssets` callback. A
     *  compilation that never calls back leaves the build waiting in
     *  `make`. */
    method Build(outcomes: HookOutcomes) returns (trace: seq<BuildStage>)
      ensures trace <= BUILD_ORDER && MAKE_INDEX < |trace|
      ensures MakeCompletes(outcomes.makeCallbacks) ==> trace == BUILD_ORDER
      ensures !MakeCompletes(outcomes.makeCallbacks) ==> trace == BUILD_ORDER[..MAKE_INDEX + 1]
    {
      trace := [EntryDependency, BeforeCompile, CompileStage, Make];
      if !MakeCompletes(outcomes.makeCallbacks) {
        return;
      }
      trace := trace + [BeforeEmitAssets, EmitAssets];
      // the emitAssets callback runs whether or not a write reported an
      // error, so `done` and `afterDone` always follow
      trace := trace + [Done, AfterDone];
    }

    /** `rebuild`: `init` and then `run`. */
    method Rebuild(outcomes: HookOutcomes) returns (trace: seq<BuildStage>)
      modifies this
      ensures Initialized()
      ensures isDesignPlatform == old(isDesignPlatform) && isDesignLibrary == old(isDesignLibrary)
      ensures outcomes.initializeFails <==> trace == [Initialize]
      ensures !outcomes.initializeFails && MakeCompletes(outcomes.makeCallbacks) ==> trace == [Initialize] + BUILD_ORDER
      ensures !outcomes.initializeFails && !MakeCompletes(outcomes.makeCallbacks) ==>
        trace == [Initialize] + BUILD_ORDER[..MAKE_INDEX + 1]
    {
      Init();
      trace := Run(outcomes);
    }
  }
}
