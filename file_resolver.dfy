/** packages/core/src/FileResolver.ts: the record a file is loaded into, the
 *  `LoadResult` tag a loader's result is recognised by, and the lookup of an
 *  entry path, including the `/miniprogram_npm/` package layout. The loaders,
 *  the `resolve` library and the reading of a package manifest are
 *  parameters. */
module FileResolver {
  import opened Wrappers
  import opened Strings
  import opened TemplateHooks
  import Paths

  // ---------------------------------------------------------------------
  // values and files
  // ---------------------------------------------------------------------

  /** The JavaScript values a loader hands back. */
  datatype JsValue =
    | Undefined
    | Null
    | Bool(b: bool)
    | Num(n: int)
    | Str(s: string)
    | Obj(fields: Record<JsValue>)

  predicate Truthy(v: JsValue)
  {
    match v
    case Undefined => false
    case Null => false
    case Bool(b) => b
    case Num(n) => n != 0
    case Str(s) => s != ""
    case Obj(_) => true
  }

  /** `v[name]`: a property of an object, `undefined` on anything else or
   *  when the object lacks it. */
  function Prop(v: JsValue, name: string): JsValue
  {
    if v.Obj? && Get(v.fields, name).Some? then Get(v.fields, name).value else Undefined
  }

  /** The property a `LoadResult` is tagged with. */
  const LOAD_RESULT_TAG: string := "$$loadResult$$"

  /** `isLoadResult`: a truthy object whose tag property is truthy. */
  predicate IsLoadResult(v: JsValue)
  {
    v.Obj? && Truthy(Prop(v, LOAD_RESULT_TAG))
  }

  /** `buildLoadResult(content, originalSource)`: a tagged result whose
   *  source is `null` when none is given. */
  function BuildLoadResult(content: JsValue, originalSource: JsValue): (r: JsValue)
    ensures IsLoadResult(r)
    ensures Prop(r, "content") == content
    ensures originalSource.Undefined? || originalSource.Null? ==> Prop(r, "source") == Null
    ensures !originalSource.Undefined? && !originalSource.Null? ==> Prop(r, "source") == originalSource
  {
    var source := if originalSource.Undefined? || originalSource.Null? then Null else originalSource;
    var fields := [("content", content), ("source", source), (LOAD_RESULT_TAG, Bool(true))];
    assert "content"[0] != LOAD_RESULT_TAG[0] && "source"[0] != LOAD_RESULT_TAG[0];
    assert Get(fields[2..], LOAD_RESULT_TAG) == Some(Bool(true));
    Obj(fields)
  }

  /** A file as the compilation holds it. `content` and `source` read
   *  `undefined` until a loader sets them; `fileType` is `""` when the
   *  file has none. */
  datatype File = File(filePath: string, fileType: string, content: JsValue, source: JsValue, meta: Record<JsValue>)

  /** The `loadFile` hook of each file type. */
  type Loaders = map<string, string -> JsValue>

  /** `loadFileSourceAndContent`: the loader's result if it is tagged,
   *  otherwise that result wrapped as content with no source. A type with
   *  no loader reads as a loader returning `undefined`. */
  function LoadFileSourceAndContent(loaders: Loaders, filePath: string, fileType: string): (r: JsValue)
    ensures IsLoadResult(r)
    ensures fileType !in loaders ==> Prop(r, "content") == Undefined && Prop(r, "source") == Null
    ensures fileType in loaders && IsLoadResult(loaders[fileType](filePath)) ==> r == loaders[fileType](filePath)
    ensures fileType in loaders && !IsLoadResult(loaders[fileType](filePath)) ==>
      Prop(r, "content") == loaders[fileType](filePath) && Prop(r, "source") == Null
  {
    var result := if fileType in loaders then loaders[fileType](filePath) else Undefined;
    if IsLoadResult(result) then result else BuildLoadResult(result, Null)
  }

  /** `resolveFile(fileAbsPath, fileType)`: the normalised path, the type and
   *  empty metadata; content and source are loaded only for a file with a
   *  type. */
  function ResolveFile(loaders: Loaders, fileAbsPath: string, fileType: string): (f: File)
    ensures f.filePath == Paths.Normalize(fileAbsPath) && f.fileType == fileType && f.meta == []
    ensures fileType == "" ==> f.content == Undefined && f.source == Undefined
    ensures fileType != "" && fileType !in loaders ==> f.content == Undefined && f.source == Null
    ensures fileType != "" && fileType in loaders && !IsLoadResult(loaders[fileType](f.filePath)) ==>
      f.content == loaders[fileType](f.filePath) && f.source == Null
    ensures fileType != "" && fileType in loaders && IsLoadResult(loaders[fileType](f.filePath)) ==>
      f.content == Prop(loaders[fileType](f.filePath), "content") && f.source == Prop(loaders[fileType](f.filePath), "source")
  {
    var path := Paths.Normalize(fileAbsPath);
    var result := File(path, fileType, Undefined, Undefined, []);
    if fileType != "" then
      var loadResult := LoadFileSourceAndContent(loaders, path, fileType);
      result.(content := Prop(loadResult, "content"), source := Prop(loadResult, "source"))
    else result
  }

  // ---------------------------------------------------------------------
  // resolveEntry
  // ---------------------------------------------------------------------

  const NPM_PREFIX: string := "/miniprogram_npm"

  /** The package an `/miniprogram_npm/...` path names and the path inside
   *  it. */
  datatype NpmTarget = NpmTarget(npmName: string, relativePath: string)

  /** `splited[i]` of the source, read as `undefined` past the end once
   *  interpolated. */
  function SegmentOrUndefined(segs: seq<string>, i: nat): string
  {
    if i < |segs| then segs[i] else "undefined"
  }

  /** The segment split of `resolveEntry`: a scoped package takes two
   *  segments, any other one. With fewer than three segments the third is
   *  `undefined` and reading its `startsWith` throws. */
  function SplitNpmPath(entryPath: string): (r: Result<NpmTarget>)
    ensures r.Err? <==> |Split(entryPath, '/')| < 3
  {
    var splited := Split(entryPath, '/');
    if |splited| < 3 then Err("TypeError: Cannot read properties of undefined (reading 'startsWith')")
    else if StartsWith(splited[2], "@") then
      Ok(NpmTarget(splited[2] + "/" + SegmentOrUndefined(splited, 3), Join(if |splited| > 4 then splited[4..] else [], "/")))
    else
      Ok(NpmTarget(splited[2], Join(splited[3..], "/")))
  }

  /** `/miniprogram_npm/@scope/pkg/rest...` names the package `@scope/pkg`,
   *  and `/miniprogram_npm/pkg/rest...` the package `pkg`; the rest is the
   *  path inside it. */
  lemma NpmPathSplit(pkg: seq<string>, rest: seq<string>)
    requires |pkg| == 1 || (|pkg| == 2 && StartsWith(pkg[0], "@"))
    requires |pkg| == 1 ==> !StartsWith(pkg[0], "@")
    requires forall i :: 0 <= i < |pkg| ==> '/' !in pkg[i]
    requires forall i :: 0 <= i < |rest| ==> '/' !in rest[i]
    ensures SplitNpmPath("/miniprogram_npm/" + Join(pkg + rest, "/")) == Ok(NpmTarget(Join(pkg, "/"), Join(rest, "/")))
  {
    var xs := pkg + rest;
    assert forall i :: 0 <= i < |xs| ==> '/' !in xs[i] by {
      forall i | 0 <= i < |xs| ensures '/' !in xs[i] {
        if i >= |pkg| { assert xs[i] == rest[i - |pkg|]; }
      }
    }
    var path := "/miniprogram_npm/" + Join(xs, "/");
    NpmSegments(xs);
    if |pkg| == 2 {
      assert Split(path, '/') == ["", "miniprogram_npm", pkg[0], pkg[1]] + rest;
      assert Join(pkg, "/") == pkg[0] + "/" + pkg[1];
      SplitScopedPackage(path, pkg[0], pkg[1], rest);
    } else {
      assert Split(path, '/') == ["", "miniprogram_npm", pkg[0]] + rest;
      SplitPlainPackage(path, pkg[0], rest);
    }
  }

  lemma SplitScopedPackage(path: string, scope: string, name: string, rest: seq<string>)
    requires Split(path, '/') == ["", "miniprogram_npm", scope, name] + rest
    requires StartsWith(scope, "@")
    ensures SplitNpmPath(path) == Ok(NpmTarget(scope + "/" + name, Join(rest, "/")))
  {
    var splited := Split(path, '/');
    if |splited| > 4 { assert splited[4..] == rest; } else { assert rest == []; }
  }

  lemma SplitPlainPackage(path: string, name: string, rest: seq<string>)
    requires Split(path, '/') == ["", "miniprogram_npm", name] + rest
    requires !StartsWith(name, "@")
    ensures SplitNpmPath(path) == Ok(NpmTarget(name, Join(rest, "/")))
  {
    assert Split(path, '/')[3..] == rest;
  }

  /** A path under `/miniprogram_npm/` splits into an empty segment, the
   *  directory and the segments after it. */
  lemma NpmSegments(xs: seq<string>)
    requires |xs| >= 1
    requires forall i :: 0 <= i < |xs| ==> '/' !in xs[i]
    ensures Split("/miniprogram_npm/" + Join(xs, "/"), '/') == ["", "miniprogram_npm"] + xs
  {
    var dir := "miniprogram_npm";
    assert '/' !in dir by {
      forall i | 0 <= i < |dir| ensures dir[i] != '/' { }
    }
    assert "/miniprogram_npm/" == "/" + dir + "/";
    SplitOfJoin(xs, '/');
    SegmentsBehind(dir, Join(xs, "/"));
  }

  lemma SegmentsBehind(dir: string, tail: string)
    requires '/' !in dir
    ensures Split("/" + dir + "/" + tail, '/') == ["", dir] + Split(tail, '/')
  {
    assert "/" + dir + "/" + tail == [] + ['/'] + (dir + ['/'] + tail);
    SplitConcat([], dir + ['/'] + tail, '/');
    SplitConcat(dir, tail, '/');
    SplitNoSeparator(dir, '/');
  }

  /** `resolveEntry(entryPath, options)`. `resolve` is the `resolve`
   *  library under the caller's options and `resolvePackage` under the
   *  base directory alone, each giving nothing when it fails.
   *  `readManifest` is `readJSONSync` on a package manifest followed by
   *  the read of its truthy `miniprogram` field: an error when the file
   *  cannot be read or is not JSON, which nothing catches, so the entry
   *  is rejected. `isScript` is `options.type === 'script'`. */
  function ResolveEntry(entryPath: string, resolve: string -> Option<string>, resolvePackage: string -> Option<string>,
                        readManifest: string -> Result<Option<string>>, isScript: bool): (r: Result<Option<string>>)
    ensures r.Err? ==>
      && StartsWith(entryPath, NPM_PREFIX)
      && (|Split(entryPath, '/')| < 3
          || (SplitNpmPath(entryPath).Ok? && ManifestFails(SplitNpmPath(entryPath).value, resolvePackage, readManifest)))
    ensures !StartsWith(entryPath, NPM_PREFIX) && !Paths.MaybeNpmPattern(entryPath) ==> r == Ok(resolve(entryPath))
    ensures !StartsWith(entryPath, NPM_PREFIX) && Paths.MaybeNpmPattern(entryPath) ==>
      r == Ok(if resolve("./" + entryPath).Some? || !isScript then resolve("./" + entryPath) else resolve(entryPath))
  {
    var fromPackage: Option<Result<Option<string>>> :=
      if StartsWith(entryPath, NPM_PREFIX) then
        match SplitNpmPath(entryPath)
        case Err(e) => Some(Err(e))
        case Ok(target) => PackageEntry(target, resolve, resolvePackage, readManifest)
      else None;
    if fromPackage.Some? then fromPackage.value
    else if !Paths.MaybeNpmPattern(entryPath) then Ok(resolve(entryPath))
    else
      var res := resolve("./" + entryPath);
      if res.Some? || !isScript then Ok(res) else Ok(resolve(entryPath))
  }

  /** The lookup of a `/miniprogram_npm/` target in its package: nothing
   *  when the manifest does not resolve, the read's error when it cannot
   *  be read, and otherwise the target under the manifest's directory and
   *  its `miniprogram` directory. */
  function PackageEntry(target: NpmTarget, resolve: string -> Option<string>, resolvePackage: string -> Option<string>,
                        readManifest: string -> Result<Option<string>>): Option<Result<Option<string>>>
  {
    var manifest := resolvePackage(target.npmName + "/package.json");
    if manifest.None? then None
    else match readManifest(manifest.value)
      case Err(e) => Some(Err(e))
      case Ok(field) =>
        Some(Ok(resolve(Paths.PathJoin([Paths.Dirname(manifest.value), field.GetOr(""), target.relativePath]))))
  }

  /** The package's manifest is found but cannot be read as JSON. */
  predicate ManifestFails(target: NpmTarget, resolvePackage: string -> Option<string>,
                          readManifest: string -> Result<Option<string>>)
  {
    var manifest := resolvePackage(target.npmName + "/package.json");
    manifest.Some? && readManifest(manifest.value).Err?
  }

  /** A package whose manifest resolves is looked up under the manifest's
   *  directory, inside its `miniprogram` directory when it names one; a
   *  manifest that cannot be read rejects the entry with the read's error.
   *  A package whose manifest does not resolve falls back on the path as
   *  given, which is not taken for a package name. */
  lemma NpmEntry(entryPath: string, resolve: string -> Option<string>, resolvePackage: string -> Option<string>,
                 readManifest: string -> Result<Option<string>>, isScript: bool)
    requires StartsWith(entryPath, NPM_PREFIX) && SplitNpmPath(entryPath).Ok?
    ensures var t := SplitNpmPath(entryPath).value;
      var manifest := resolvePackage(t.npmName + "/package.json");
      ResolveEntry(entryPath, resolve, resolvePackage, readManifest, isScript) ==
        if manifest.None? then Ok(resolve(entryPath))
        else if readManifest(manifest.value).Err? then Err(readManifest(manifest.value).error)
        else Ok(resolve(Paths.PathJoin([Paths.Dirname(manifest.value), readManifest(manifest.value).value.GetOr(""), t.relativePath])))
  {
    var t := SplitNpmPath(entryPath).value;
    var manifest := resolvePackage(t.npmName + "/package.json");
    assert entryPath[0] == '/' by { assert entryPath[..|NPM_PREFIX|][0] == entryPath[0]; }
    if manifest.None? {
      assert !Paths.MaybeNpmPattern(entryPath);
    }
  }
}
