/** packages/core/src/plugins/generator/WxsGeneratorPlugin.ts and
 *  packages/core/src/plugins/parser/WxsParserPlugin.ts: turning WXS modules
 *  into ES modules. Both plugins share `transformToString`: the first
 *  `module.exports =` becomes `export default ` and a two-line header that
 *  imports the WXS runtime is put in front. The generator emits the modules
 *  of the compilation's `wxsMap` at `processAssets`; the parser emits every
 *  `.wxs` file the dependency walk hands to `processFile`.
 *
 *  The file system, the conditional-compilation filter and the path
 *  computations of an asset are parameters (see `WxsEnv`). */
module Wxs {
  import opened Wrappers
  import opened Strings
  import opened TemplateHooks
  import opened Modules
  import opened Compiler
  import opened FileResolver
  import Compilation

  // ---------------------------------------------------------------------
  // transformToString
  // ---------------------------------------------------------------------

  const MODULE_WORD: string := "module"
  const EXPORTS_WORD: string := "exports"
  const EXPORT_DEFAULT: string := "export default "

  /** The two header lines; the second ends in a line break of its own. */
  const RUNTIME_IMPORT: string := "import { wxsRuntime } from '@matrix/runtime'"
  const GET_REG_EXP: string := "var getRegExp = wxsRuntime.getRegExp;\n"

  /** Where `/module.exports\s*=/` matches at position `i`: the end of the
   *  match. The `.` is unescaped, so any character but a line terminator
   *  may stand between the two words; `\s*` is greedy, and since `=` is no
   *  space, the match exists exactly when the longest run of spaces is
   *  followed by `=`. */
  function ExportsMatchAt(s: string, i: nat): (e: Option<nat>)
    ensures e.Some? ==> i + 15 <= e.value <= |s| && s[e.value - 1] == '='
  {
    if OccursAt(s, MODULE_WORD, i) && i + 6 < |s| && !IsLineTerminator(s[i + 6]) && OccursAt(s, EXPORTS_WORD, i + 7) then
      var sp := SpaceRun(s[i + 14..]);
      if i + 14 + sp < |s| && s[i + 14 + sp] == '=' then Some(i + 15 + sp) else None
    else None
  }

  /** The leftmost match at or after `k`, as its start and end. */
  function FirstExportsMatch(s: string, k: nat): (m: Option<(nat, nat)>)
    requires k <= |s|
    ensures m.Some? ==> k <= m.value.0 && ExportsMatchAt(s, m.value.0) == Some(m.value.1)
    ensures m.Some? ==> forall j :: k <= j < m.value.0 ==> ExportsMatchAt(s, j).None?
    ensures m.None? ==> forall j :: k <= j <= |s| ==> ExportsMatchAt(s, j).None?
    decreases |s| - k
  {
    if ExportsMatchAt(s, k).Some? then Some((k, ExportsMatchAt(s, k).value))
    else if k == |s| then None
    else FirstExportsMatch(s, k + 1)
  }

  /** `content.replace(/module.exports\s*=/, 'export default ')`: without
   *  the `g` flag only the leftmost match is replaced; text without a match
   *  is returned as it is. */
  function ReplaceExports(s: string): (r: string)
    ensures FirstExportsMatch(s, 0).None? ==> r == s
    ensures FirstExportsMatch(s, 0).Some? ==>
      var (i, e) := FirstExportsMatch(s, 0).value;
      e <= |s| && r == s[..i] + EXPORT_DEFAULT + s[e..]
  {
    match FirstExportsMatch(s, 0)
    case None => s
    case Some((i, e)) => s[..i] + EXPORT_DEFAULT + s[e..]
  }

  /** `transformToString`: the conditional-compilation filter, the export
   *  rewrite, and the header lines, joined by `\n`. */
  function TransformToString(conditional: string -> string, content: string): string
  {
    Join([RUNTIME_IMPORT, GET_REG_EXP, ReplaceExports(conditional(content))], "\n")
  }

  /** The header the transformed text starts with. */
  function Header(): string
  {
    RUNTIME_IMPORT + "\n" + GET_REG_EXP + "\n"
  }

  /** The transformed text is the header followed by the rewritten module,
   *  so the module can be read back by dropping the header. */
  lemma TransformedLayout(conditional: string -> string, content: string)
    ensures TransformToString(conditional, content) == Header() + ReplaceExports(conditional(content))
    ensures TransformToString(conditional, content)[|Header()|..] == ReplaceExports(conditional(content))
  {
    var body := ReplaceExports(conditional(content));
    assert Join([GET_REG_EXP, body], "\n") == GET_REG_EXP + "\n" + body by {
      assert [GET_REG_EXP, body][1..] == [body];
    }
    assert [RUNTIME_IMPORT, GET_REG_EXP, body][1..] == [GET_REG_EXP, body];
    assert TransformToString(conditional, content) == Header() + body;
  }

  /** A module that starts with `module<c>exports`, spaces and `=` has that
   *  head replaced by `export default `, for any `c` but a line terminator
   *  (`module.exports` and `module_exports` alike); the rest, including any
   *  later `module.exports =`, stays as written. */
  lemma ExportsHeadRewritten(c: char, spaces: string, rest: string)
    requires !IsLineTerminator(c) && AllSpaces(spaces)
    ensures ReplaceExports(MODULE_WORD + [c] + EXPORTS_WORD + spaces + "=" + rest) == EXPORT_DEFAULT + rest
  {
    var s := MODULE_WORD + [c] + EXPORTS_WORD + spaces + "=" + rest;
    assert s[..6] == MODULE_WORD && s[6] == c && s[7..14] == EXPORTS_WORD;
    assert s[14..] == spaces + ("=" + rest);
    SpaceRunOf(spaces, "=" + rest);
    assert s[14 + |spaces|] == '=';
    assert ExportsMatchAt(s, 0) == Some(15 + |spaces|);
    assert s[15 + |spaces|..] == rest;
  }

  // ---------------------------------------------------------------------
  // what the plugins work with
  // ---------------------------------------------------------------------

  /** The environment of both plugins: `fse.readFileSync` (the error's
   *  message when it throws), `conditionalCompilation` with the compiler's
   *  conditions, and the `outputPath` getter of an asset at a path. */
  datatype WxsEnv = WxsEnv(
    read: string -> Result<string>,
    conditional: string -> string,
    outputPathOf: string -> string)

  /** `new AssetWxs(compilation, type, absPath, content)` followed by
   *  `transformAssetContent`: a copy asset takes its text from the file,
   *  whatever content it is given, and a plain one its given content. */
  function NewAssetWxs(env: WxsEnv, contentType: AssetContentType, absPath: string, content: string): (r: Result<Asset>)
    ensures contentType == PlainContent ==> r.Ok?
    ensures contentType == CopyContent ==> (r.Err? <==> env.read(absPath).Err?)
    ensures r.Ok? ==> r.value.contentType == contentType && r.value.absPath == absPath
    ensures r.Ok? ==> r.value.outputPath == env.outputPathOf(absPath)
    ensures r.Ok? && contentType == PlainContent ==> r.value.content == TransformToString(env.conditional, content)
    ensures r.Ok? && contentType == CopyContent ==> r.value.content == TransformToString(env.conditional, env.read(absPath).value)
  {
    if contentType == PlainContent then
      Ok(Asset(PlainContent, absPath, env.outputPathOf(absPath), TransformToString(env.conditional, content)))
    else
      match env.read(absPath)
      case Err(e) => Err(e)
      case Ok(text) => Ok(Asset(contentType, absPath, env.outputPathOf(absPath), TransformToString(env.conditional, text)))
  }

  // ---------------------------------------------------------------------
  // WxsGeneratorPlugin: processAssets
  // ---------------------------------------------------------------------

  /** What `processAssets` has done so far: the compiler's asset map, the
   *  compilation's per-extension view, the import URLs found missing, and
   *  the error that ended the loop, if any. */
  datatype Generation = Generation(
    assets: Record<Asset>,
    buckets: map<string, set<Asset>>,
    missing: seq<string>,
    error: Option<string>)

  /** `compilation.addAsset(path, asset)` on a generation. */
  function Added(g: Generation, path: string, asset: Asset): Generation
  {
    g.(assets := if path in Keys(g.assets) then g.assets else g.assets + [(path, asset)],
       buckets := Compilation.Filed(g.buckets, path, asset, false))
  }

  /** One module of `wxsMap`. A copy module whose source is not among the
   *  module's `wxsPathList` only has its URL noted; a listed one is added
   *  under its source path unless that path is taken. An inline module is
   *  guarded by its source path as well but added under its output path.
   *  A failed read ends the loop. */
  function GenerateStep(env: WxsEnv, wxsPathList: seq<string>, g: Generation, w: WxsModule): Generation
  {
    if g.error.Some? then g
    else if w.wxsType == Copy && w.sourcePath !in wxsPathList then g.(missing := g.missing + [w.importUrl])
    else if w.sourcePath in Keys(g.assets) then g
    else
      var contentType := if w.wxsType == Copy then CopyContent else PlainContent;
      match NewAssetWxs(env, contentType, w.sourcePath, w.content)
      case Err(e) => g.(error := Some(e))
      case Ok(asset) => Added(g, if w.wxsType == Copy then w.sourcePath else asset.outputPath, asset)
  }

  /** The loop over `wxsMap.values()`, in that order. */
  function Generate(env: WxsEnv, wxsPathList: seq<string>, g: Generation, ws: seq<WxsModule>): Generation
    decreases |ws|
  {
    if ws == [] then g
    else GenerateStep(env, wxsPathList, Generate(env, wxsPathList, g, ws[..|ws| - 1]), ws[|ws| - 1])
  }

  /** The warning logged after the loop. */
  function MissingWarning(moduleName: string, missing: seq<string>): string
  {
    "[" + moduleName + "][WxsGeneratorPlugin] " + Join(missing, ",") + " not found."
  }

  /** How the tap settles: rejected with the read error, or resolved, with
   *  the warning it logged when some import is missing. */
  function Settled(moduleName: string, g: Generation): (r: Result<Option<string>>)
    ensures r.Err? <==> g.error.Some?
    ensures r.Ok? ==> (r.value.Some? <==> g.missing != [])
    ensures r.Ok? && r.value.Some? ==> r.value.value == MissingWarning(moduleName, g.missing)
  {
    if g.error.Some? then Err(g.error.value)
    else if g.missing != [] then Ok(Some(MissingWarning(moduleName, g.missing)))
    else Ok(None)
  }

  /** The `processAssets` tap. */
  method ProcessAssets(compilation: Compilation.Compilation, wxsModules: seq<WxsModule>, env: WxsEnv)
    returns (outcome: Result<Option<string>>)
    modifies compilation.compiler`assets, compilation`assets
    ensures var g := Generate(env, compilation.baseModule.wxsPathList,
                              Generation(old(compilation.compiler.assets), old(compilation.assets), [], None), wxsModules);
      compilation.compiler.assets == g.assets && compilation.assets == g.buckets
      && outcome == Settled(compilation.baseModule.name, g)
  {
    ghost var g0 := Generation(compilation.compiler.assets, compilation.assets, [], None);
    var wxsPathList := compilation.baseModule.wxsPathList;
    var importUrls: seq<string> := [];
    for i := 0 to |wxsModules|
      invariant Generate(env, wxsPathList, g0, wxsModules[..i])
        == Generation(compilation.compiler.assets, compilation.assets, importUrls, None)
    {
      var w := wxsModules[i];
      assert wxsModules[..i + 1][..i] == wxsModules[..i] && wxsModules[..i + 1][i] == w;
      if w.wxsType == Copy {
        if w.sourcePath !in wxsPathList {
          importUrls := importUrls + [w.importUrl];
          continue;
        }
        if !compilation.HasAsset(w.sourcePath) {
          var asset := NewAssetWxs(env, CopyContent, w.sourcePath, "");
          if asset.Err? {
            ErrorStays(env, wxsPathList, g0, wxsModules, i + 1);
            return Err(asset.error);
          }
          compilation.AddAsset(w.sourcePath, asset.value, false);
        }
      } else {
        if !compilation.HasAsset(w.sourcePath) {
          var asset := NewAssetWxs(env, PlainContent, w.sourcePath, w.content);
          compilation.AddAsset(asset.value.outputPath, asset.value, false);
        }
      }
    }
    assert wxsModules[..|wxsModules|] == wxsModules;
    if |importUrls| > 0 {
      outcome := Ok(Some(MissingWarning(compilation.baseModule.name, importUrls)));
    } else {
      outcome := Ok(None);
    }
  }

  /** Once a read has failed, the rest of the modules change nothing. */
  lemma {:induction false} ErrorStays(env: WxsEnv, wxsPathList: seq<string>, g: Generation, ws: seq<WxsModule>, k: nat)
    requires k <= |ws| && Generate(env, wxsPathList, g, ws[..k]).error.Some?
    ensures Generate(env, wxsPathList, g, ws) == Generate(env, wxsPathList, g, ws[..k])
    decreases |ws|
  {
    if k == |ws| {
      assert ws[..k] == ws;
    } else {
      var init := ws[..|ws| - 1];
      assert init[..k] == ws[..k];
      ErrorStays(env, wxsPathList, g, init, k);
    }
  }

  /** The import URLs of the copy modules that are not in the list, in
   *  order: what the warning names, whatever the asset map holds. */
  function Unlisted(wxsPathList: seq<string>, ws: seq<WxsModule>): seq<string>
    decreases |ws|
  {
    if ws == [] then []
    else
      var w := ws[|ws| - 1];
      Unlisted(wxsPathList, ws[..|ws| - 1]) + if w.wxsType == Copy && w.sourcePath !in wxsPathList then [w.importUrl] else []
  }

  /** Without a failed read, the missing imports are exactly the unlisted
   *  copy modules, and the assets registered before stay as they were,
   *  new ones only being appended. */
  lemma {:induction false} GenerateSummary(env: WxsEnv, wxsPathList: seq<string>, g: Generation, ws: seq<WxsModule>)
    ensures var r := Generate(env, wxsPathList, g, ws);
      r.error.None? ==> g.error.None? && r.missing == g.missing + Unlisted(wxsPathList, ws)
    ensures var r := Generate(env, wxsPathList, g, ws);
      |g.assets| <= |r.assets| && r.assets[..|g.assets|] == g.assets
    decreases |ws|
  {
    if ws != [] {
      var init := ws[..|ws| - 1];
      GenerateSummary(env, wxsPathList, g, init);
      var p := Generate(env, wxsPathList, g, init);
      assert p.assets[..|g.assets|] == g.assets;
      var r := Generate(env, wxsPathList, g, ws);
      assert r == GenerateStep(env, wxsPathList, p, ws[|ws| - 1]);
      assert |p.assets| <= |r.assets| && r.assets[..|p.assets|] == p.assets;
      assert r.assets[..|g.assets|] == p.assets[..|g.assets|];
    }
  }

  /** The three cases of the dispatch: an unlisted copy module adds no
   *  asset and only notes its URL; a listed copy module whose source path
   *  is free is added under that path with the file's transformed text; an
   *  inline module whose source path is free is added under its output
   *  path (when that is free) with its transformed content. */
  lemma DispatchCases(env: WxsEnv, wxsPathList: seq<string>, g: Generation, w: WxsModule)
    requires g.error.None?
    ensures w.wxsType == Copy && w.sourcePath !in wxsPathList ==>
      GenerateStep(env, wxsPathList, g, w) == g.(missing := g.missing + [w.importUrl])
    ensures w.wxsType == Copy && w.sourcePath in wxsPathList && w.sourcePath !in Keys(g.assets) && env.read(w.sourcePath).Ok? ==>
      GenerateStep(env, wxsPathList, g, w).assets
        == g.assets + [(w.sourcePath, Asset(CopyContent, w.sourcePath, env.outputPathOf(w.sourcePath),
                                            TransformToString(env.conditional, env.read(w.sourcePath).value)))]
    ensures w.wxsType == Copy && w.sourcePath in wxsPathList && w.sourcePath !in Keys(g.assets) && env.read(w.sourcePath).Err? ==>
      GenerateStep(env, wxsPathList, g, w) == g.(error := Some(env.read(w.sourcePath).error))
    ensures w.wxsType == Plain && w.sourcePath !in Keys(g.assets) && env.outputPathOf(w.sourcePath) !in Keys(g.assets) ==>
      GenerateStep(env, wxsPathList, g, w).assets
        == g.assets + [(env.outputPathOf(w.sourcePath), Asset(PlainContent, w.sourcePath, env.outputPathOf(w.sourcePath),
                                                              TransformToString(env.conditional, w.content)))]
    ensures w.sourcePath in Keys(g.assets) && (w.wxsType == Plain || w.sourcePath in wxsPathList) ==>
      GenerateStep(env, wxsPathList, g, w) == g
  {
  }

  lemma FiledTwice(buckets: map<string, set<Asset>>, path: string, asset: Asset)
    ensures Compilation.Filed(Compilation.Filed(buckets, path, asset, false), path, asset, false)
         == Compilation.Filed(buckets, path, asset, false)
  {
    var once := Compilation.Filed(buckets, path, asset, false);
    if Compilation.Extension(path).Some? {
      var ext := Compilation.Extension(path).value;
      assert ext in once && asset in once[ext];
      assert once[ext] + {asset} == once[ext];
    }
  }

  /** An inline module is guarded by its source path but registered under
   *  its output path, so the guard never sees its own asset; a second
   *  occurrence is nonetheless harmless, because `addAsset` keeps the
   *  first asset of a path. The same holds for a listed copy module, whose
   *  guard does see it. Only an unlisted URL is reported twice. */
  lemma DispatchTwice(env: WxsEnv, wxsPathList: seq<string>, g: Generation, w: WxsModule)
    requires w.wxsType == Plain || w.sourcePath in wxsPathList
    ensures GenerateStep(env, wxsPathList, GenerateStep(env, wxsPathList, g, w), w) == GenerateStep(env, wxsPathList, g, w)
    ensures w.wxsType == Plain && g.error.None? && w.sourcePath !in Keys(g.assets) && env.outputPathOf(w.sourcePath) != w.sourcePath ==>
      w.sourcePath !in Keys(GenerateStep(env, wxsPathList, g, w).assets)
  {
    var once := GenerateStep(env, wxsPathList, g, w);
    if g.error.None? && w.sourcePath !in Keys(g.assets) {
      var contentType := if w.wxsType == Copy then CopyContent else PlainContent;
      var asset := NewAssetWxs(env, contentType, w.sourcePath, w.content);
      if asset.Ok? {
        var path := if w.wxsType == Copy then w.sourcePath else asset.value.outputPath;
        assert once == Added(g, path, asset.value);
        KeysAppend(g.assets, path, asset.value);
        FiledTwice(g.buckets, path, asset.value);
      }
    }
  }

  lemma KeysAppend(r: Record<Asset>, path: string, asset: Asset)
    ensures Keys(r + [(path, asset)]) == Keys(r) + [path]
  {
  }

  // ---------------------------------------------------------------------
  // WxsParserPlugin
  // ---------------------------------------------------------------------

  /** The `loadFile` tap for `wxs`: a plain `{content, source}` object
   *  holding the file's text twice. */
  function WxsLoader(readText: string -> string): string -> JsValue
  {
    filePath => Obj([("content", Str(readText(filePath))), ("source", Str(readText(filePath)))])
  }

  /** The loader's object carries no `LoadResult` tag, so the file
   *  resolver wraps it: the file's content is the object itself, not its
   *  text, and its source is `null`. */
  lemma WxsLoadedAsObject(loaders: Loaders, readText: string -> string, filePath: string)
    requires "wxs" in loaders && loaders["wxs"] == WxsLoader(readText)
    ensures var f := ResolveFile(loaders, filePath, "wxs");
      f.content == Obj([("content", Str(readText(f.filePath))), ("source", Str(readText(f.filePath)))])
      && f.source == Null
  {
    var path := ResolveFile(loaders, filePath, "wxs").filePath;
    var v := WxsLoader(readText)(path);
    assert "content"[0] != LOAD_RESULT_TAG[0] && "source"[0] != LOAD_RESULT_TAG[0];
    assert Get(v.fields, LOAD_RESULT_TAG).None?;
    assert !IsLoadResult(v);
  }

  /** The compiler's map and the per-extension view after `processFile`:
   *  a copy asset of the file, under its output path. */
  function Processed(env: WxsEnv, assets: Record<Asset>, buckets: map<string, set<Asset>>, filePath: string): Generation
  {
    var g := Generation(assets, buckets, [], None);
    match NewAssetWxs(env, CopyContent, filePath, filePath)
    case Err(e) => g.(error := Some(e))
    case Ok(asset) => Added(g, asset.outputPath, asset)
  }

  /** The `processFile` tap for `wxs`; the content it is handed is not
   *  used. */
  method ProcessFile(compilation: Compilation.Compilation, filePath: string, env: WxsEnv)
    returns (error: Option<string>)
    modifies compilation.compiler`assets, compilation`assets
    ensures var g := Processed(env, old(compilation.compiler.assets), old(compilation.assets), filePath);
      compilation.compiler.assets == g.assets && compilation.assets == g.buckets && error == g.error
  {
    var asset := NewAssetWxs(env, CopyContent, filePath, filePath);
    if asset.Err? {
      return Some(asset.error);
    }
    compilation.AddAsset(asset.value.outputPath, asset.value, false);
    error := None;
  }

  /** The parser registers a `.wxs` file under its output path, the
   *  generator a listed `<wxs src>` module of the same file under its
   *  source path, with the same asset: when both run and the two paths
   *  differ, the file is registered twice. */
  lemma RegisteredTwice(env: WxsEnv, wxsPathList: seq<string>, assets: Record<Asset>, buckets: map<string, set<Asset>>, w: WxsModule)
    requires w.wxsType == Copy && w.sourcePath in wxsPathList && env.read(w.sourcePath).Ok?
    requires w.sourcePath !in Keys(assets) && env.outputPathOf(w.sourcePath) !in Keys(assets)
    requires env.outputPathOf(w.sourcePath) != w.sourcePath
    ensures var p := Processed(env, assets, buckets, w.sourcePath);
      var r := GenerateStep(env, wxsPathList, p, w);
      var a := NewAssetWxs(env, CopyContent, w.sourcePath, "").value;
      r.assets == assets + [(env.outputPathOf(w.sourcePath), a)] + [(w.sourcePath, a)]
  {
    var p := Processed(env, assets, buckets, w.sourcePath);
    KeysAppend(assets, env.outputPathOf(w.sourcePath), NewAssetWxs(env, CopyContent, w.sourcePath, w.sourcePath).value);
    assert w.sourcePath !in Keys(p.assets);
  }
}
