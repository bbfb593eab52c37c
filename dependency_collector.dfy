/** packages/core/src/DependencyCollector.ts: gathering every file a module
 *  depends on, transitively, and running each gathered file through the
 *  per-type stages. Files are filed under their lower-cased normalised path,
 *  claimed before their own dependencies are gathered, so a file reached
 *  twice (or through a cycle) is gathered once.
 *
 *  The `collectDependencies` hooks are one function from a file to the files
 *  it depends on, and the concurrent `Promise.all` walks are taken in order,
 *  depth first. */
module DependencyCollector {
  import opened Wrappers
  import opened Strings
  import opened FileResolver
  import opened TemplateHooks
  import Paths

  // ---------------------------------------------------------------------
  // the collect state
  // ---------------------------------------------------------------------

  /** `lowerCaseNormalizePath(file.filePath)`. */
  function Key(f: File): string
  {
    Paths.LowerCaseNormalizePath(f.filePath)
  }

  /** The `collectDependencies` hook of each file type: the files a file
   *  adds to its dependency set. A type without a hook adds none. */
  type DepsOf = File -> seq<File>

  /** The `result` map of the collect state: each claimed key with the file
   *  that claimed it, in claiming order. */
  type Claims = seq<(string, File)>

  function KeySet(v: Claims): set<string>
  {
    set i | 0 <= i < |v| :: v[i].0
  }

  /** Each file is filed under its own key, and each key once. */
  predicate WellKeyed(key: File -> string, v: Claims)
  {
    (forall i :: 0 <= i < |v| ==> v[i].0 == key(v[i].1)) &&
    (forall i, j :: 0 <= i < j < |v| ==> v[i].0 != v[j].0)
  }

  /** Every file any file depends on lies in a finite set of keys: the file
   *  system is finite. The collection below is stated for any key function
   *  and used with `Key`. */
  ghost predicate Bounded(depsOf: DepsOf, key: File -> string, universe: set<string>)
  {
    forall f, d :: d in depsOf(f) ==> key(d) in universe
  }

  lemma KeySetAppend(v: Claims, k: string, f: File)
    ensures KeySet(v + [(k, f)]) == KeySet(v) + {k}
  {
    var w := v + [(k, f)];
    assert forall i :: 0 <= i < |v| ==> w[i] == v[i];
    assert w[|v|].0 == k;
  }

  lemma KeySetGrows(v: Claims, w: Claims)
    requires v <= w
    ensures KeySet(v) <= KeySet(w)
  {
    forall k | k in KeySet(v) ensures k in KeySet(w) {
      var i :| 0 <= i < |v| && v[i].0 == k;
      assert w[i] == v[i];
    }
  }

  /** `collectFileDependencies(pendingFile)`: a file whose key is taken
   *  is skipped; otherwise it claims its key, then its dependencies are
   *  collected one after the other. Nothing claimed is ever replaced. */
  function CollectOne(depsOf: DepsOf, key: File -> string, ghost universe: set<string>, v: Claims, f: File): (w: Claims)
    requires Bounded(depsOf, key, universe) && KeySet(v) <= universe && key(f) in universe
    ensures v <= w && KeySet(w) <= universe
    decreases universe - KeySet(v), 0, 0
  {
    if key(f) in KeySet(v) then v
    else
      var v' := v + [(key(f), f)];
      KeySetAppend(v, key(f), f);
      var w := CollectAll(depsOf, key, universe, v', depsOf(f));
      w
  }

  /** The files of a dependency set, collected in order. */
  function CollectAll(depsOf: DepsOf, key: File -> string, ghost universe: set<string>, v: Claims, fs: seq<File>): (w: Claims)
    requires Bounded(depsOf, key, universe) && KeySet(v) <= universe
    requires forall i :: 0 <= i < |fs| ==> key(fs[i]) in universe
    ensures v <= w && KeySet(w) <= universe
    decreases universe - KeySet(v), 1, |fs|
  {
    if fs == [] then v
    else
      var u := CollectAll(depsOf, key, universe, v, fs[..|fs| - 1]);
      KeySetGrows(v, u);
      CollectOne(depsOf, key, universe, u, fs[|fs| - 1])
  }

  /** An unclaimed file is claimed, then its dependencies are collected. */
  lemma CollectOneClaims(depsOf: DepsOf, key: File -> string, universe: set<string>, v: Claims, f: File)
    requires Bounded(depsOf, key, universe) && KeySet(v) <= universe && key(f) in universe
    requires key(f) !in KeySet(v)
    ensures KeySet(v + [(key(f), f)]) <= universe
    ensures CollectOne(depsOf, key, universe, v, f) == CollectAll(depsOf, key, universe, v + [(key(f), f)], depsOf(f))
  {
    KeySetAppend(v, key(f), f);
  }

  /** Collecting one more file of a list continues from the claims the
   *  files before it left. */
  lemma CollectAllStep(depsOf: DepsOf, key: File -> string, universe: set<string>, v: Claims, fs: seq<File>, i: nat)
    requires Bounded(depsOf, key, universe) && KeySet(v) <= universe
    requires forall j :: 0 <= j < |fs| ==> key(fs[j]) in universe
    requires i < |fs|
    ensures KeySet(CollectAll(depsOf, key, universe, v, fs[..i])) <= universe
    ensures CollectAll(depsOf, key, universe, v, fs[..i + 1]) ==
            CollectOne(depsOf, key, universe, CollectAll(depsOf, key, universe, v, fs[..i]), fs[i])
  {
    assert fs[..i + 1][..i] == fs[..i];
  }

  // ---------------------------------------------------------------------
  // what a collection gathers
  // ---------------------------------------------------------------------

  /** Every dependency of `f` has a claim in `w`. */
  ghost predicate DepsClaimed(depsOf: DepsOf, key: File -> string, f: File, w: Claims)
  {
    forall d :: d in depsOf(f) ==> key(d) in KeySet(w)
  }

  /** The file of claim `i` is one of `fs` or a dependency of a file claimed
   *  before it: it is reached from `fs`. */
  ghost predicate Reached(depsOf: DepsOf, fs: seq<File>, w: Claims, i: int)
    requires 0 <= i < |w|
  {
    w[i].1 in fs || exists j :: 0 <= j < i && w[i].1 in depsOf(w[j].1)
  }

  /** A collection keeps the claims well keyed, claims every file it is
   *  handed, claims the dependencies of every file it claims, and claims
   *  only files reached from those it is handed. */
  lemma {:induction false} CollectOneSpec(depsOf: DepsOf, key: File -> string, universe: set<string>, v: Claims, f: File)
    requires Bounded(depsOf, key, universe) && KeySet(v) <= universe && key(f) in universe
    requires WellKeyed(key, v)
    ensures var w := CollectOne(depsOf, key, universe, v, f);
      WellKeyed(key, w) && key(f) in KeySet(w) &&
      (forall i :: |v| <= i < |w| ==> DepsClaimed(depsOf, key, w[i].1, w)) &&
      (forall i :: |v| <= i < |w| ==> Reached(depsOf, [f], w, i))
    decreases universe - KeySet(v), 0, 0
  {
    var w := CollectOne(depsOf, key, universe, v, f);
    if key(f) !in KeySet(v) {
      var v' := v + [(key(f), f)];
      KeySetAppend(v, key(f), f);
      assert WellKeyed(key, v') by {
        forall i | 0 <= i < |v| ensures v'[i].0 != key(f) {
          assert v[i].0 in KeySet(v);
        }
      }
      CollectAllSpec(depsOf, key, universe, v', depsOf(f));
      assert w[|v|] == (key(f), f);
      assert key(f) in KeySet(w);
      forall i | |v| <= i < |w| ensures Reached(depsOf, [f], w, i) {
        if i > |v| {
          assert Reached(depsOf, depsOf(f), w, i);
          if w[i].1 in depsOf(f) {
            assert w[|v|].1 == f;
          }
        }
      }
    }
  }

  lemma {:induction false} CollectAllSpec(depsOf: DepsOf, key: File -> string, universe: set<string>, v: Claims, fs: seq<File>)
    requires Bounded(depsOf, key, universe) && KeySet(v) <= universe
    requires forall i :: 0 <= i < |fs| ==> key(fs[i]) in universe
    requires WellKeyed(key, v)
    ensures var w := CollectAll(depsOf, key, universe, v, fs);
      WellKeyed(key, w) && (forall i :: 0 <= i < |fs| ==> key(fs[i]) in KeySet(w)) &&
      (forall i :: |v| <= i < |w| ==> DepsClaimed(depsOf, key, w[i].1, w)) &&
      (forall i :: |v| <= i < |w| ==> Reached(depsOf, fs, w, i))
    decreases universe - KeySet(v), 1, |fs|
  {
    if fs != [] {
      var front := fs[..|fs| - 1];
      var last := fs[|fs| - 1];
      var u := CollectAll(depsOf, key, universe, v, front);
      CollectAllSpec(depsOf, key, universe, v, front);
      KeySetGrows(v, u);
      CollectOneSpec(depsOf, key, universe, u, last);
      var w := CollectOne(depsOf, key, universe, u, last);
      KeySetGrows(u, w);
      forall i | 0 <= i < |fs| ensures key(fs[i]) in KeySet(w) {
        if i < |fs| - 1 { assert fs[i] == front[i]; }
      }
      forall i | |v| <= i < |w| ensures DepsClaimed(depsOf, key, w[i].1, w) && Reached(depsOf, fs, w, i) {
        if i < |u| {
          assert w[i] == u[i];
          assert DepsClaimed(depsOf, key, u[i].1, u);
          assert Reached(depsOf, front, u, i);
          if u[i].1 in front {
            assert w[i].1 in fs;
          } else {
            var j :| 0 <= j < i && u[i].1 in depsOf(u[j].1);
            assert w[j] == u[j];
          }
        } else {
          assert Reached(depsOf, [last], w, i);
        }
      }
    }
  }

  // ---------------------------------------------------------------------
  // processing
  // ---------------------------------------------------------------------

  /** A stage hook of one file type: it is handed the contents the previous
   *  stage produced, and may fail. A failing stage's `Err` is the rejection
   *  value in its `String()` form (`"Error: <message>"` for an `Error`), so
   *  that `processFiles`' `PROCESS_FAILED + errors` concatenation, which
   *  stringifies each caught value and joins them with `,`, is exact. */
  type Stage = (JsValue, File) -> Result<JsValue>

  /** The `transform`, `transformToString` and `processFile` hook maps. */
  datatype Stages = Stages(
    transform: map<string, Stage>,
    transformToString: map<string, Stage>,
    processFile: map<string, Stage>)

  /** `hooks.get(file.fileType)?.promise(contents, ...)`: a type without a
   *  hook produces `undefined`. */
  function RunStage(hooks: map<string, Stage>, contents: JsValue, file: File): Result<JsValue>
  {
    if file.fileType in hooks then hooks[file.fileType](contents, file) else Ok(Undefined)
  }

  /** `processFile`: the three stages in order, each fed the previous one's
   *  result; the first failure ends it. */
  function ProcessFile(stages: Stages, file: File): Result<JsValue>
  {
    match RunStage(stages.transform, file.content, file)
    case Err(e) => Err(e)
    case Ok(transformed) =>
      match RunStage(stages.transformToString, transformed, file)
      case Err(e) => Err(e)
      case Ok(text) => RunStage(stages.processFile, text, file)
  }

  /** A type without a `transform` hook hands `undefined`, not the file's
   *  content, to `transformToString`, and a type without a
   *  `transformToString` hook hands `undefined` to `processFile`. */
  lemma MissingStageYieldsUndefined(stages: Stages, file: File)
    ensures file.fileType !in stages.transform && file.fileType in stages.transformToString ==>
      ProcessFile(stages, file) ==
        match stages.transformToString[file.fileType](Undefined, file)
        case Err(e) => Err(e)
        case Ok(text) => RunStage(stages.processFile, text, file)
    ensures file.fileType !in stages.transformToString && file.fileType in stages.processFile &&
            RunStage(stages.transform, file.content, file).Ok? ==>
      ProcessFile(stages, file) == stages.processFile[file.fileType](Undefined, file)
    ensures file.fileType !in stages.processFile && ProcessFile(stages, file).Ok? ==>
      ProcessFile(stages, file) == Ok(Undefined)
  {
  }

  /** The message `processFiles` throws, before the list of errors. */
  const PROCESS_FAILED: string := "解析文件失败！"

  /** The errors of the files that failed, in order. */
  function Errors(outcomes: seq<Result<JsValue>>): (es: seq<string>)
    ensures |es| <= |outcomes|
    ensures es == [] <==> forall i :: 0 <= i < |outcomes| ==> outcomes[i].Ok?
  {
    if outcomes == [] then []
    else Errors(outcomes[..|outcomes| - 1]) + (if outcomes[|outcomes| - 1].Err? then [outcomes[|outcomes| - 1].error] else [])
  }

  lemma ErrorsSnoc(outcomes: seq<Result<JsValue>>, o: Result<JsValue>)
    ensures Errors(outcomes + [o]) == Errors(outcomes) + (if o.Err? then [o.error] else [])
  {
    assert (outcomes + [o])[..|outcomes|] == outcomes;
  }

  /** The files in claiming order. */
  function Files(v: Claims): (files: seq<File>)
    ensures |files| == |v| && forall i :: 0 <= i < |v| ==> files[i] == v[i].1
  {
    if v == [] then [] else Files(v[..|v| - 1]) + [v[|v| - 1].1]
  }

  /** Well-keyed claims hold distinct files, so the set of the map's values
   *  lists each claimed file once. */
  lemma FilesDistinct(v: Claims)
    requires WellKeyed(Key, v)
    ensures forall i, j :: 0 <= i < j < |Files(v)| ==> Files(v)[i] != Files(v)[j]
  {
    forall i, j | 0 <= i < j < |v| ensures Files(v)[i] != Files(v)[j] {
      assert v[i].0 != v[j].0;
    }
  }

  // ---------------------------------------------------------------------
  // the collector
  // ---------------------------------------------------------------------

  /** The `DependencyCollector` of one compilation. `state` is
   *  `currentCollectState`, absent until a file is collected. */
  class Collector {
    var isCollecting: bool
    var hasCollectingError: bool
    var state: Option<Claims>

    constructor ()
      ensures !isCollecting && !hasCollectingError && state.None?
    {
      isCollecting := false;
      hasCollectingError := false;
      state := None;
    }

    /** `ensureCollectState`: an empty state is created when there is none. */
    method EnsureCollectState() returns (claims: Claims)
      modifies this
      ensures state == Some(old(state).GetOr([])) && claims == state.value
      ensures isCollecting == old(isCollecting) && hasCollectingError == old(hasCollectingError)
    {
      if state.None? {
        state := Some([]);
      }
      claims := state.value;
    }

    /** `collectFileDependencies(pendingFile)`. */
    method CollectFileDependencies(depsOf: DepsOf, ghost universe: set<string>, pending: File)
      requires Bounded(depsOf, Key, universe) && KeySet(state.GetOr([])) <= universe && Key(pending) in universe
      modifies this
      ensures state == Some(CollectOne(depsOf, Key, universe, old(state).GetOr([]), pending))
      ensures isCollecting == old(isCollecting) && hasCollectingError == old(hasCollectingError)
      decreases universe - KeySet(state.GetOr([])), 0
    {
      var claims := EnsureCollectState();
      var key := Key(pending);
      if key in KeySet(claims) {
        return;
      }
      ghost var before := claims;
      claims := claims + [(key, pending)];
      KeySetAppend(before, key, pending);
      state := Some(claims);
      CollectEachDependency(depsOf, universe, claims, depsOf(pending));
      CollectOneClaims(depsOf, Key, universe, before, pending);
    }

    /** The `Promise.all` over a claimed file's dependencies, taken in order. */
    method CollectEachDependency(depsOf: DepsOf, ghost universe: set<string>, ghost claims: Claims, dependencies: seq<File>)
      requires Bounded(depsOf, Key, universe) && KeySet(claims) <= universe
      requires forall j :: 0 <= j < |dependencies| ==> Key(dependencies[j]) in universe
      requires state == Some(claims)
      modifies this
      ensures state == Some(CollectAll(depsOf, Key, universe, claims, dependencies))
      ensures isCollecting == old(isCollecting) && hasCollectingError == old(hasCollectingError)
      decreases universe - KeySet(claims), 1
    {
      for i := 0 to |dependencies|
        invariant state == Some(CollectAll(depsOf, Key, universe, claims, dependencies[..i]))
        invariant isCollecting == old(isCollecting) && hasCollectingError == old(hasCollectingError)
      {
        CollectAllStep(depsOf, Key, universe, claims, dependencies, i);
        KeySetGrows(claims, state.value);
        CollectFileDependencies(depsOf, universe, dependencies[i]);
      }
      assert dependencies[..|dependencies|] == dependencies;
    }

    /** `collectDependencies(baseFiles)`: each base file collected in turn. */
    method CollectDependencies(depsOf: DepsOf, ghost universe: set<string>, baseFiles: seq<File>)
      requires Bounded(depsOf, Key, universe) && KeySet(state.GetOr([])) <= universe
      requires forall i :: 0 <= i < |baseFiles| ==> Key(baseFiles[i]) in universe
      modifies this
      ensures baseFiles == [] ==> state == old(state)
      ensures baseFiles != [] ==> state == Some(CollectAll(depsOf, Key, universe, old(state).GetOr([]), baseFiles))
      ensures isCollecting == old(isCollecting) && hasCollectingError == old(hasCollectingError)
    {
      if baseFiles == [] {
        return;
      }
      ghost var start := state.GetOr([]);
      CollectFileDependencies(depsOf, universe, baseFiles[0]);
      assert baseFiles[..1] == [baseFiles[0]];
      assert CollectAll(depsOf, Key, universe, start, baseFiles[..0]) == start;
      for i := 1 to |baseFiles|
        invariant state == Some(CollectAll(depsOf, Key, universe, start, baseFiles[..i]))
        invariant isCollecting == old(isCollecting) && hasCollectingError == old(hasCollectingError)
      {
        CollectAllStep(depsOf, Key, universe, start, baseFiles, i);
        CollectFileDependencies(depsOf, universe, baseFiles[i]);
      }
      assert baseFiles[..|baseFiles|] == baseFiles;
    }

    /** The `collectionStart` tap: the flags and state are reset, then,
     *  when the module has a script, the script is resolved, marked as the
     *  component's, and the closure of its dependencies is collected. The
     *  script itself is only claimed if a dependency leads back to it. */
    method CollectionStart(jsPath: string, loaders: Loaders, depsOf: DepsOf, ghost universe: set<string>)
      requires Bounded(depsOf, Key, universe)
      modifies this
      ensures isCollecting && !hasCollectingError
      ensures jsPath == "" ==> state.None?
      ensures jsPath != "" ==>
        var root := RootFile(loaders, jsPath);
        state == if depsOf(root) == [] then None else Some(CollectAll(depsOf, Key, universe, [], depsOf(root)))
    {
      isCollecting := true;
      hasCollectingError := false;
      state := None;
      if jsPath == "" {
        return;
      }
      var root := RootFile(loaders, jsPath);
      var baseFiles := depsOf(root);
      assert KeySet([]) == {};
      CollectDependencies(depsOf, universe, baseFiles);
    }

    /** The `collectionComplete` tap. With an error it only records that
     *  collecting failed; otherwise every claimed file is processed, in
     *  claiming order, and the failures are gathered into one error. */
    method CollectionComplete(err: bool, stages: Stages) returns (files: seq<File>, outcomes: seq<Result<JsValue>>, r: Result<()>)
      modifies this
      ensures !isCollecting && state == old(state)
      ensures err ==> hasCollectingError && files == [] && outcomes == [] && r == Ok(())
      ensures !err ==> hasCollectingError == old(hasCollectingError)
      ensures !err ==> files == Files(state.GetOr([]))
      ensures |outcomes| == |files| && forall i :: 0 <= i < |files| ==> outcomes[i] == ProcessFile(stages, files[i])
      ensures r.Ok? <==> Errors(outcomes) == []
      ensures r.Err? ==> r.error == PROCESS_FAILED + Join(Errors(outcomes), ",")
    {
      isCollecting := false;
      if err {
        hasCollectingError := true;
        return [], [], Ok(());
      }
      files := Files(state.GetOr([]));
      outcomes, r := ProcessFiles(stages, files);
    }
  }

  /** The module's script as the collection starts from it: resolved as a
   *  `js` file, with `meta.component` set. */
  function RootFile(loaders: Loaders, jsPath: string): (f: File)
    ensures f.filePath == Paths.Normalize(jsPath) && f.fileType == "js"
    ensures Get(f.meta, "component") == Some(Bool(true))
  {
    var f := ResolveFile(loaders, jsPath, "js");
    f.(meta := Put(f.meta, "component", Bool(true)))
  }

  /** `processFiles`: every file is processed, whatever happens to the
   *  others; the errors are gathered, and thrown together if there is any.
   *  The files run one after another here, so the errors are joined in file
   *  order; under `Promise.all` they arrive in rejection order. */
  method ProcessFiles(stages: Stages, files: seq<File>) returns (outcomes: seq<Result<JsValue>>, r: Result<()>)
    ensures |outcomes| == |files| && forall i :: 0 <= i < |files| ==> outcomes[i] == ProcessFile(stages, files[i])
    ensures r.Ok? <==> Errors(outcomes) == []
    ensures r.Err? ==> r.error == PROCESS_FAILED + Join(Errors(outcomes), ",")
  {
    outcomes := [];
    var errors: seq<string> := [];
    for i := 0 to |files|
      invariant |outcomes| == i && forall j :: 0 <= j < i ==> outcomes[j] == ProcessFile(stages, files[j])
      invariant errors == Errors(outcomes)
    {
      var outcome := ProcessFile(stages, files[i]);
      ErrorsSnoc(outcomes, outcome);
      outcomes := outcomes + [outcome];
      if outcome.Err? {
        errors := errors + [outcome.error];
      }
    }
    if |errors| != 0 {
      r := Err(PROCESS_FAILED + Join(errors, ","));
    } else {
      r := Ok(());
    }
  }

  /** A complete collection from a module's script gathers exactly the
   *  files reached from the script's dependencies: their closure, each
   *  under its own key, and each processed once. */
  lemma CollectionFromScript(depsOf: DepsOf, universe: set<string>, root: File)
    requires Bounded(depsOf, Key, universe)
    ensures var w := CollectAll(depsOf, Key, universe, [], depsOf(root));
      WellKeyed(Key, w) &&
      (forall d :: d in depsOf(root) ==> Key(d) in KeySet(w)) &&
      (forall i :: 0 <= i < |w| ==> DepsClaimed(depsOf, Key, w[i].1, w) && Reached(depsOf, depsOf(root), w, i)) &&
      (forall i, j :: 0 <= i < j < |Files(w)| ==> Files(w)[i] != Files(w)[j])
  {
    assert KeySet([]) == {};
    CollectAllSpec(depsOf, Key, universe, [], depsOf(root));
    var w := CollectAll(depsOf, Key, universe, [], depsOf(root));
    FilesDistinct(w);
    forall d | d in depsOf(root) ensures Key(d) in KeySet(w) {
      var i :| 0 <= i < |depsOf(root)| && depsOf(root)[i] == d;
    }
  }
}
