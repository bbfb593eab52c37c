/** packages/core/src/Compilation.ts: the compilation of one module. It owns
 *  the per-module context (collected data names, the template and wxs
 *  registries, the stylesheet modules), its own template hooks and
 *  dependency collector, and a per-extension view of the assets it adds to
 *  the compiler's asset map. `compile` steps through its stages; the stages'
 *  effects belong to the plugins and are given here only as the outcome
 *  each stage reports. */
module Compilation {
  import opened Wrappers
  import opened Strings
  import opened TemplateHooks
  import opened Modules
  import opened Compiler
  import TagName
  import DependencyCollector

  // ---------------------------------------------------------------------
  // the compilation object
  // ---------------------------------------------------------------------

  /** A stylesheet module of `cssMap` (packages/core/src/modules/WxssModule.ts):
   *  its import URL is taken as given. */
  datatype WxssModule = WxssModule(name: string, absPath: string, importUrl: string, content: string)

  /** `path.match(/\.(.*?)$/)`, searched from position `k`: the text after
   *  the first `.` from which the rest of the path holds no line
   *  terminator (`.` does not match one, and `$` is the end of the text). */
  function ExtensionFrom(path: string, k: nat): (ext: Option<string>)
    requires k <= |path|
    ensures ext.Some? ==> exists i :: k <= i < |path| && path[i] == '.' && ext.value == path[i + 1..]
    ensures ext.None? ==> forall i :: k <= i < |path| && path[i] == '.' ==> !NoLineTerminator(path[i + 1..])
    decreases |path| - k
  {
    if k == |path| then None
    else if path[k] == '.' && NoLineTerminator(path[k + 1..]) then Some(path[k + 1..])
    else ExtensionFrom(path, k + 1)
  }

  /** The bucket `addAsset` files an asset under, if any. */
  function Extension(path: string): Option<string>
  {
    ExtensionFrom(path, 0)
  }

  lemma {:induction false} ExtensionFromAfterDot(stem: string, ext: string, k: nat)
    requires k <= |stem| && '.' !in stem[k..] && NoLineTerminator(ext)
    ensures ExtensionFrom(stem + "." + ext, k) == Some(ext)
    decreases |stem| - k
  {
    var path := stem + "." + ext;
    if k < |stem| {
      assert path[k] == stem[k] && stem[k] in stem[k..];
      assert stem[k + 1..] == stem[k..][1..];
      ExtensionFromAfterDot(stem, ext, k + 1);
    } else {
      assert path[k] == '.' && path[k + 1..] == ext;
    }
  }

  /** The bucket is everything after the FIRST `.` of the whole path, so
   *  `/out/a.b/c.tsx` is filed under `b/c.tsx` and `x.module.css` under
   *  `module.css`. */
  lemma ExtensionAfterFirstDot(stem: string, ext: string)
    requires '.' !in stem && NoLineTerminator(ext)
    ensures Extension(stem + "." + ext) == Some(ext)
  {
    assert stem[0..] == stem;
    ExtensionFromAfterDot(stem, ext, 0);
  }

  /** A path without `.` has no bucket. */
  lemma NoDotNoExtension(path: string)
    requires '.' !in path
    ensures Extension(path).None?
  {
  }

  /** The per-extension view after `addAsset(path, asset, noImport)`: an
   *  existing bucket gains the asset, a missing one is created unless
   *  `noImport` is set, and a path without extension changes nothing. */
  function Filed(buckets: map<string, set<Asset>>, path: string, asset: Asset, noImport: bool): map<string, set<Asset>>
  {
    match Extension(path)
    case None => buckets
    case Some(ext) =>
      if ext in buckets then buckets[ext := buckets[ext] + {asset}]
      else if noImport then buckets
      else buckets[ext := {asset}]
  }

  class Compilation {
    const compiler: Compiler
    const baseModule: BaseModule
    /** The per-extension view of the assets: each bucket a set. */
    var assets: map<string, set<Asset>>
    var templateJsxContent: Option<string>
    var addThisDataCollector: set<string>
    var entryAddThisDataCollector: set<string>
    /** `templateMap` and `wxsMap`. */
    var registries: TagName.Registries
    var cssMap: Record<WxssModule>
    const templateHooks: TemplateHookSet<AttributeOrigin, AttributeInfo>
    const collector: DependencyCollector.Collector

    /** `new Compilation(compiler, module)`, also what `createCompilation`
     *  builds: an empty context and fresh hooks and collector of its own. */
    constructor (compiler: Compiler, baseModule: BaseModule)
      ensures this.compiler == compiler && this.baseModule == baseModule
      ensures assets == map[] && templateJsxContent.None?
      ensures addThisDataCollector == {} && entryAddThisDataCollector == {}
      ensures registries == TagName.Registries(map[], map[]) && cssMap == []
      ensures fresh(templateHooks) && templateHooks.attribute == [] && templateHooks.directives == []
      ensures fresh(collector) && collector.state.None?
      ensures !collector.isCollecting && !collector.hasCollectingError
    {
      this.compiler := compiler;
      this.baseModule := baseModule;
      assets := map[];
      templateJsxContent := None;
      addThisDataCollector := {};
      entryAddThisDataCollector := {};
      registries := TagName.Registries(map[], map[]);
      cssMap := [];
      templateHooks := new TemplateHookSet();
      collector := new DependencyCollector.Collector();
    }

    /** `hasAsset(path)`: the compiler's asset map has the path. */
    predicate HasAsset(path: string)
      reads compiler
    {
      path in Keys(compiler.assets)
    }

    /** `addAsset(path, asset, noImport)`: the compiler's map keeps the
     *  first asset added under a path; the asset goes into the bucket of
     *  the path's extension, which is created unless `noImport` is set. */
    method AddAsset(path: string, asset: Asset, noImport: bool)
      modifies compiler`assets, this`assets
      ensures Get(compiler.assets, path) ==
        if Get(old(compiler.assets), path).Some? then Get(old(compiler.assets), path) else Some(asset)
      ensures forall p :: p != path ==> Get(compiler.assets, p) == Get(old(compiler.assets), p)
      ensures compiler.assets ==
        if path in Keys(old(compiler.assets)) then old(compiler.assets) else old(compiler.assets) + [(path, asset)]
      ensures assets == Filed(old(assets), path, asset, noImport)
      ensures HasAsset(path) && Keys(old(compiler.assets)) <= Keys(compiler.assets)
      ensures DistinctKeys(old(compiler.assets)) ==> DistinctKeys(compiler.assets)
      ensures Extension(path).None? ==> assets == old(assets)
      ensures Extension(path).Some? && Extension(path).value in old(assets) ==>
        assets == old(assets)[Extension(path).value := old(assets)[Extension(path).value] + {asset}]
      ensures Extension(path).Some? && Extension(path).value !in old(assets) && noImport ==> assets == old(assets)
      ensures Extension(path).Some? && Extension(path).value !in old(assets) && !noImport ==>
        assets == old(assets)[Extension(path).value := {asset}]
    {
      if !HasAsset(path) {
        AppendNewKey(compiler.assets, path, asset);
        compiler.assets := compiler.assets + [(path, asset)];
      }
      var ext := Extension(path);
      if ext.None? {
        return;
      }
      if ext.value in assets {
        assets := assets[ext.value := assets[ext.value] + {asset}];
      } else if !noImport {
        assets := assets[ext.value := {asset}];
      }
    }

    /** `compile(callback)`: the stages in order until one reports an
     *  error (see `CompileRunOf`). */
    method Compile(outcome: Stage -> StageOutcome) returns (run: CompileRun)
      ensures run == CompileRunOf(outcome)
    {
      var called: seq<Stage> := [];
      var i := 0;
      while i < |STAGES|
        invariant 0 <= i <= |STAGES| && called == STAGES[..i]
        invariant forall k :: 0 <= k < i ==> outcome(STAGES[k]).Succeeded?
      {
        var stage := STAGES[i];
        called := called + [stage];
        if outcome(stage).Failed? {
          FirstFailureIs(outcome, i);
          if Reported(stage) {
            // `fail` is called with the error, then the callback
            return CompileRun(called, [outcome(stage).error], 1);
          }
          // a rejected promise nobody handles: the chain just stops
          return CompileRun(called, [], 0);
        }
        i := i + 1;
      }
      FirstFailureIs(outcome, i);
      assert called == STAGES;
      return CompileRun(called + [Complete], [], 1);
    }
  }

  /** Appending an absent key keeps the keys distinct and the other
   *  entries as they were. */
  lemma AppendNewKey(r: Record<Asset>, path: string, asset: Asset)
    requires path !in Keys(r)
    ensures Get(r + [(path, asset)], path) == Some(asset)
    ensures forall p :: p != path ==> Get(r + [(path, asset)], p) == Get(r, p)
    ensures Keys(r + [(path, asset)]) == Keys(r) + [path]
    ensures DistinctKeys(r) ==> DistinctKeys(r + [(path, asset)])
  {
    PutSpec(r, path, asset);
    assert Put(r, path, asset) == r + [(path, asset)] by {
      PutAbsentAppends(r, path, asset);
    }
  }

  lemma {:induction false} PutAbsentAppends<V>(r: Record<V>, key: string, value: V)
    requires key !in Keys(r)
    ensures Put(r, key, value) == r + [(key, value)]
    decreases |r|
  {
    if r != [] {
      assert Keys(r) == [r[0].0] + Keys(r[1..]);
      PutAbsentAppends(r[1..], key, value);
      assert r == [r[0]] + r[1..];
    }
  }

  // ---------------------------------------------------------------------
  // the stage machine
  // ---------------------------------------------------------------------

  /** The compilation hooks `compile` calls, and `complete`. */
  datatype Stage =
    | InitializeStage | ParseTemplate | AfterParseTemplate | CollectionStart
    | CollectionComplete | BeforeProcessAssets | ProcessAssets | Complete

  /** What a stage reports: success, or an error (for the promise hooks, a
   *  rejection). */
  datatype StageOutcome = Succeeded | Failed(error: string)

  /** The stages before `complete`, in the order `compile` chains them. */
  const STAGES: seq<Stage> :=
    [InitializeStage, ParseTemplate, AfterParseTemplate, CollectionStart,
     CollectionComplete, BeforeProcessAssets, ProcessAssets]

  /** The stages called with a callback that handles their error:
   *  `initialize`, `parseTemplate` and `processAssets`. The others are
   *  promises whose rejection nobody handles. */
  predicate Reported(s: Stage)
  {
    s == InitializeStage || s == ParseTemplate || s == ProcessAssets
  }

  /** What one `compile` call does: the stages called in order, the errors
   *  the `fail` hook is called with, and the number of times the callback
   *  fires. */
  datatype CompileRun = CompileRun(called: seq<Stage>, failures: seq<string>, callbacks: nat)

  /** The position in `STAGES` of the first stage from `k` on that fails,
   *  or `|STAGES|` when none does. */
  function FirstFailure(outcome: Stage -> StageOutcome, k: nat): (j: nat)
    requires k <= |STAGES|
    ensures k <= j <= |STAGES|
    ensures forall i :: k <= i < j ==> outcome(STAGES[i]).Succeeded?
    ensures j < |STAGES| ==> outcome(STAGES[j]).Failed?
    decreases |STAGES| - k
  {
    if k == |STAGES| then k
    else if outcome(STAGES[k]).Failed? then k
    else FirstFailure(outcome, k + 1)
  }

  /** What `compile` does, stated over the first failing stage. */
  function CompileRunOf(outcome: Stage -> StageOutcome): CompileRun
  {
    var j := FirstFailure(outcome, 0);
    if j == |STAGES| then CompileRun(STAGES + [Complete], [], 1)
    else if Reported(STAGES[j]) then CompileRun(STAGES[..j + 1], [outcome(STAGES[j]).error], 1)
    else CompileRun(STAGES[..j + 1], [], 0)
  }

  /** A failing stage preceded only by succeeding ones is the first
   *  failure. */
  lemma FirstFailureIs(outcome: Stage -> StageOutcome, i: nat)
    requires i <= |STAGES|
    requires forall k :: 0 <= k < i ==> outcome(STAGES[k]).Succeeded?
    requires i < |STAGES| ==> outcome(STAGES[i]).Failed?
    ensures FirstFailure(outcome, 0) == i
  {
  }

  /** The callback fires at most once, `fail` at most once and only along
   *  with it, and `complete` and `fail` exclude each other. */
  lemma CallbackAtMostOnce(outcome: Stage -> StageOutcome)
    ensures CompileRunOf(outcome).callbacks <= 1
    ensures |CompileRunOf(outcome).failures| <= CompileRunOf(outcome).callbacks
    ensures Complete in CompileRunOf(outcome).called ==> CompileRunOf(outcome).failures == []
  {
    var j := FirstFailure(outcome, 0);
    if j < |STAGES| {
      assert forall k :: 0 <= k <= j ==> STAGES[..j + 1][k] == STAGES[k];
      assert Complete !in STAGES;
    }
  }

  /** The stages are called in the fixed order: what is called is a prefix
   *  of the stages followed by `complete`, and every stage called before
   *  the last one succeeded. */
  lemma StagesInOrder(outcome: Stage -> StageOutcome)
    ensures var run := CompileRunOf(outcome);
      run.called <= STAGES + [Complete] &&
      forall k :: 0 <= k < |run.called| - 1 ==> outcome(run.called[k]).Succeeded?
  {
    var j := FirstFailure(outcome, 0);
    if j < |STAGES| {
      assert STAGES[..j + 1] <= STAGES + [Complete];
    }
  }

  /** `complete` is called exactly when every stage succeeds, and then the
   *  callback fires once and `fail` never. */
  lemma CompleteIffAllSucceed(outcome: Stage -> StageOutcome)
    ensures Complete in CompileRunOf(outcome).called <==> forall k :: 0 <= k < |STAGES| ==> outcome(STAGES[k]).Succeeded?
    ensures Complete in CompileRunOf(outcome).called ==>
      CompileRunOf(outcome).failures == [] && CompileRunOf(outcome).callbacks == 1
  {
    var j := FirstFailure(outcome, 0);
    if j < |STAGES| {
      assert forall k :: 0 <= k <= j ==> STAGES[..j + 1][k] == STAGES[k];
      assert Complete !in STAGES[..j + 1];
    } else {
      assert (STAGES + [Complete])[|STAGES|] == Complete;
    }
  }

  /** An error in `initialize`, `parseTemplate` or `processAssets` calls
   *  `fail` once with that error and the callback once, and nothing after
   *  the failing stage runs. */
  lemma ReportedFailure(outcome: Stage -> StageOutcome, i: nat)
    requires i < |STAGES| && Reported(STAGES[i]) && outcome(STAGES[i]).Failed?
    requires forall k :: 0 <= k < i ==> outcome(STAGES[k]).Succeeded?
    ensures CompileRunOf(outcome) == CompileRun(STAGES[..i + 1], [outcome(STAGES[i]).error], 1)
  {
    FirstFailureIs(outcome, i);
  }

  /** A rejection in `afterParseTemplate`, the two collection stages or
   *  `beforeProcessAssets` stops the compilation without calling `fail`
   *  and without firing the callback: whoever waits on it waits forever. */
  lemma SilentRejection(outcome: Stage -> StageOutcome, i: nat)
    requires i < |STAGES| && !Reported(STAGES[i]) && outcome(STAGES[i]).Failed?
    requires forall k :: 0 <= k < i ==> outcome(STAGES[k]).Succeeded?
    ensures CompileRunOf(outcome).failures == [] && CompileRunOf(outcome).callbacks == 0
    ensures CompileRunOf(outcome).called == STAGES[..i + 1]
  {
    FirstFailureIs(outcome, i);
  }

  /** In particular, when processing the collected files fails (the
   *  aggregate error of `processFiles`), the callback never fires. */
  lemma ProcessingErrorLosesCallback(outcome: Stage -> StageOutcome)
    requires outcome(InitializeStage).Succeeded? && outcome(ParseTemplate).Succeeded?
    requires outcome(AfterParseTemplate).Succeeded? && outcome(CollectionStart).Succeeded?
    requires outcome(CollectionComplete).Failed? && StartsWith(outcome(CollectionComplete).error, DependencyCollector.PROCESS_FAILED)
    ensures CompileRunOf(outcome).callbacks == 0 && Complete !in CompileRunOf(outcome).called
  {
    SilentRejection(outcome, 4);
    assert forall k :: 0 <= k < 5 ==> STAGES[..5][k] == STAGES[k];
  }

  // ---------------------------------------------------------------------
  // what `make` waits for
  // ---------------------------------------------------------------------

  /** The taps of the compiler's `make` hook, one compilation each: for
   *  each, whether its `compile` calls the callback. */
  function MakeCallbacks(compilations: seq<Stage -> StageOutcome>): seq<bool>
  {
    seq(|compilations|, j requires 0 <= j < |compilations| => CompileRunOf(compilations[j]).callbacks == 1)
  }

  /** A compilation ends silently exactly when its first failing stage is
   *  one whose rejection nobody handles. */
  predicate EndsSilently(outcome: Stage -> StageOutcome)
  {
    FirstFailure(outcome, 0) < |STAGES| && !Reported(STAGES[FirstFailure(outcome, 0)])
  }

  /** `make` completes, and the build goes on to emit the assets, exactly
   *  when no compilation ends silently; a failure in `initialize`,
   *  `parseTemplate` or `processAssets` does not hold the build up. */
  lemma {:induction false} MakeCompletesIffNoSilentEnd(compilations: seq<Stage -> StageOutcome>)
    ensures MakeCompletes(MakeCallbacks(compilations)) <==>
      forall j :: 0 <= j < |compilations| ==> !EndsSilently(compilations[j])
  {
    var cbs := MakeCallbacks(compilations);
    forall j | 0 <= j < |compilations|
      ensures cbs[j] <==> !EndsSilently(compilations[j])
    {
      CallbackAtMostOnce(compilations[j]);
    }
  }

  /** One compilation whose `collectionComplete` rejects (the aggregate
   *  error of `processFiles`) keeps `make` from ever completing, whatever
   *  the other compilations do. */
  lemma ProcessingErrorStallsBuild(compilations: seq<Stage -> StageOutcome>, j: nat)
    requires j < |compilations|
    requires var outcome := compilations[j];
      outcome(InitializeStage).Succeeded? && outcome(ParseTemplate).Succeeded? &&
      outcome(AfterParseTemplate).Succeeded? && outcome(CollectionStart).Succeeded? &&
      outcome(CollectionComplete).Failed?
    ensures !MakeCompletes(MakeCallbacks(compilations))
  {
    SilentRejection(compilations[j], 4);
    assert !MakeCallbacks(compilations)[j];
  }
}
