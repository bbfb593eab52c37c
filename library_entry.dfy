/** packages/core/src/plugins/compiler/LibraryCompilerEntryPlugin.ts: the
 *  entry of a library build. Every script, stylesheet and wxs file under the
 *  entry goes into the compiler's file collection, filed under its resolved
 *  path; everything else is ignored. The build then makes a single
 *  compilation, for a nameless component module. */
module LibraryEntry {
  import opened Wrappers
  import opened Strings
  import opened TemplateHooks
  import opened Modules
  import opened FileResolver
  import Paths
  import Compiler
  import Compilation

  /** The collection entry of a matched path (relative to the root), if the
   *  library collects it: `.ts` and `.js` files except `.d.ts`
   *  declarations as `js`, `.wxss` as `wxss`, `.wxs` as `wxs`. The entry
   *  has a resolved path, empty meta, and no content or source yet. */
  function Classify(item: string, root: string, cwd: string): (f: Option<File>)
    ensures f.Some? ==> f.value.filePath == Paths.Resolve([root, item], cwd) && f.value.meta == []
    ensures f.Some? ==> f.value.fileType in {"js", "wxss", "wxs"}
  {
    OfExtension(Paths.Extname(item), EndsWith(item, ".d.ts"), Paths.Resolve([root, item], cwd))
  }

  /** The entry of a file at `absPath` with extension `extname`;
   *  `declaration` tells a `.d.ts` file. */
  function OfExtension(extname: string, declaration: bool, absPath: string): (f: Option<File>)
    ensures f.Some? ==> f.value.filePath == absPath && f.value.meta == []
    ensures f.Some? ==> f.value.fileType in {"js", "wxss", "wxs"}
  {
    if (extname == ".ts" || extname == ".js") && !declaration then Some(File(absPath, "js", Undefined, Undefined, []))
    else if extname == ".wxss" then Some(File(absPath, "wxss", Undefined, Undefined, []))
    else if extname == ".wxs" then Some(File(absPath, "wxs", Undefined, Undefined, []))
    else None
  }

  /** Scripts are collected as `js` unless they are declaration files;
   *  stylesheets are tagged `wxss` (not `style`, the type the stylesheet
   *  loader is registered for), wxs files `wxs`; any other extension is
   *  dropped. */
  lemma ClassifyCases(item: string, root: string, cwd: string)
    ensures Paths.Extname(item) in {".ts", ".js"} ==>
      (Classify(item, root, cwd).Some? <==> !EndsWith(item, ".d.ts"))
    ensures Paths.Extname(item) in {".ts", ".js"} && !EndsWith(item, ".d.ts") ==> Classify(item, root, cwd).value.fileType == "js"
    ensures Paths.Extname(item) == ".wxss" ==> Classify(item, root, cwd).value.fileType == "wxss"
    ensures Paths.Extname(item) == ".wxs" ==> Classify(item, root, cwd).value.fileType == "wxs"
    ensures Paths.Extname(item) !in {".ts", ".js", ".wxss", ".wxs"} ==> Classify(item, root, cwd).None?
    ensures Classify(item, root, cwd).Some? ==> Classify(item, root, cwd).value.fileType != "style"
  {
    var absPath := Paths.Resolve([root, item], cwd);
    ScriptCases(Paths.Extname(item), EndsWith(item, ".d.ts"), absPath);
    OtherCases(Paths.Extname(item), EndsWith(item, ".d.ts"), absPath);
  }

  lemma ScriptCases(extname: string, declaration: bool, absPath: string)
    ensures extname in {".ts", ".js"} ==> (OfExtension(extname, declaration, absPath).Some? <==> !declaration)
    ensures extname in {".ts", ".js"} && !declaration ==> OfExtension(extname, declaration, absPath).value.fileType == "js"
  {
  }

  lemma OtherCases(extname: string, declaration: bool, absPath: string)
    ensures extname == ".wxss" ==> OfExtension(extname, declaration, absPath).value.fileType == "wxss"
    ensures extname == ".wxs" ==> OfExtension(extname, declaration, absPath).value.fileType == "wxs"
    ensures extname !in {".ts", ".js", ".wxss", ".wxs"} ==> OfExtension(extname, declaration, absPath).None?
    ensures OfExtension(extname, declaration, absPath).Some? ==> OfExtension(extname, declaration, absPath).value.fileType != "style"
  {
  }

  /** `Classify` under one root and working directory. */
  function ClassifyIn(root: string, cwd: string): string -> Option<File>
  {
    item => Classify(item, root, cwd)
  }

  /** The matched paths the library collects, resolved. */
  ghost predicate Collected(matches: seq<string>, root: string, cwd: string, p: string)
  {
    CollectedBy(ClassifyIn(root, cwd), matches, p)
  }

  /** The paths of the entries `classify` makes of `matches`. */
  ghost predicate CollectedBy(classify: string -> Option<File>, matches: seq<string>, p: string)
  {
    exists i :: 0 <= i < |matches| && classify(matches[i]).Some? && classify(matches[i]).value.filePath == p
  }

  /** The collection holds, each once and under its own path, the entries
   *  `classify` makes of `matches`. */
  ghost predicate FilesOf(classify: string -> Option<File>, matches: seq<string>, m: Record<File>)
  {
    DistinctKeys(m) &&
    (forall p :: Get(m, p).Some? <==> CollectedBy(classify, matches, p)) &&
    (forall p :: Get(m, p).Some? ==> Get(m, p).value.filePath == p && Get(m, p).value.fileType in {"js", "wxss", "wxs"})
  }

  /** Every file in the collection is the entry `classify` made of one of
   *  `matches`. */
  ghost predicate FromMatches(classify: string -> Option<File>, matches: seq<string>, m: Record<File>)
  {
    forall p :: Get(m, p).Some? ==> exists j :: 0 <= j < |matches| && classify(matches[j]) == Get(m, p)
  }

  /** The module the single library compilation is made for: nameless, a
   *  component using nothing, with no paths of its own. */
  function LibraryModule(options: Compiler.CompilerOptions, cwd: string): (m: BaseModule)
    ensures m.name == "" && m.moduleType == ComponentType && m.absPath == ""
    ensures m.entry == Paths.Resolve([options.root, options.entry], cwd)
    ensures m.jsonConfig == Some(JsonConfig(true, [], None, None, false)) && m.wxsPathList == []
    ensures m.enableStyleIsolation
  {
    NewBaseModule(ModuleOptions(
      "", ComponentType, Paths.Resolve([options.root, options.entry], cwd), "", "", "",
      Some(JsonConfig(true, [], None, None, false)), "", Some([])))
  }

  class LibraryPlugin {
    const cwd: string
    var collectionsMap: Record<File>

    constructor (cwd: string)
      ensures this.cwd == cwd && collectionsMap == []
    {
      this.cwd := cwd;
      collectionsMap := [];
    }

    /** The `entryDependency` tap: the collection is rebuilt from the files
     *  found under the entry and handed to the compiler's context. A path
     *  is in the collection exactly when a collected match resolves to it,
     *  and each path is filed once, with the file a match classified:
     *  its type is that match's classification and its meta is empty. */
    method EntryDependency(compiler: Compiler.Compiler, matches: seq<string>)
      modifies this, compiler`collectionsMap
      ensures compiler.collectionsMap == collectionsMap && DistinctKeys(collectionsMap)
      ensures forall p :: Get(collectionsMap, p).Some? <==> Collected(matches, compiler.options.root, cwd, p)
      ensures forall p :: Get(collectionsMap, p).Some? ==>
        Get(collectionsMap, p).value.filePath == p && Get(collectionsMap, p).value.fileType in {"js", "wxss", "wxs"}
      ensures forall p :: Get(collectionsMap, p).Some? ==>
        (Get(collectionsMap, p).value.meta == [] &&
         exists i :: 0 <= i < |matches| && Classify(matches[i], compiler.options.root, cwd) == Get(collectionsMap, p))
    {
      var classify := ClassifyIn(compiler.options.root, cwd);
      collectionsMap := [];
      for i := 0 to |matches|
        invariant FilesOf(classify, matches[..i], collectionsMap)
        invariant FromMatches(classify, matches[..i], collectionsMap)
      {
        var item := classify(matches[i]);
        FileEntryStep(classify, matches, i, collectionsMap);
        FromMatchesStep(classify, matches, i, collectionsMap);
        if item.Some? {
          collectionsMap := Put(collectionsMap, item.value.filePath, item.value);
        }
      }
      assert matches[..|matches|] == matches;
      FromMatchesClassified(compiler.options.root, cwd, matches, collectionsMap);
      compiler.collectionsMap := collectionsMap;
    }

    /** The `make` tap: one compilation, for the library module, compiled
     *  with the given stage outcomes. */
    method Make(compiler: Compiler.Compiler, outcome: Compilation.Stage -> Compilation.StageOutcome)
      returns (compilation: Compilation.Compilation, run: Compilation.CompileRun)
      ensures fresh(compilation) && compilation.compiler == compiler
      ensures compilation.baseModule == LibraryModule(compiler.options, cwd)
      ensures run == Compilation.CompileRunOf(outcome)
    {
      compilation := new Compilation.Compilation(compiler, LibraryModule(compiler.options, cwd));
      run := compilation.Compile(outcome);
    }
  }

  /** Filing the entry of one more match, if it has one, keeps the
   *  collection the entries of the matches so far. */
  lemma FileEntryStep(classify: string -> Option<File>, matches: seq<string>, i: nat, m: Record<File>)
    requires i < |matches|
    requires forall x :: classify(x).Some? ==> classify(x).value.fileType in {"js", "wxss", "wxs"}
    requires FilesOf(classify, matches[..i], m)
    ensures var item := classify(matches[i]);
      FilesOf(classify, matches[..i + 1], if item.Some? then Put(m, item.value.filePath, item.value) else m)
  {
    var item := classify(matches[i]);
    assert matches[..i + 1] == matches[..i] + [matches[i]];
    CollectedBySnoc(classify, matches[..i], matches[i]);
    if item.Some? {
      PutSpec(m, item.value.filePath, item.value);
      PutKeepsDistinct(m, item.value.filePath, item.value);
    }
  }

  /** Filing the entry of one more match keeps every filed file the entry
   *  of some match so far. */
  lemma FromMatchesStep(classify: string -> Option<File>, matches: seq<string>, i: nat, m: Record<File>)
    requires i < |matches|
    requires FromMatches(classify, matches[..i], m)
    ensures var item := classify(matches[i]);
      FromMatches(classify, matches[..i + 1], if item.Some? then Put(m, item.value.filePath, item.value) else m)
  {
    var item := classify(matches[i]);
    var m' := if item.Some? then Put(m, item.value.filePath, item.value) else m;
    var ms := matches[..i + 1];
    if item.Some? {
      PutSpec(m, item.value.filePath, item.value);
    }
    forall p | Get(m', p).Some?
      ensures exists j :: 0 <= j < |ms| && classify(ms[j]) == Get(m', p)
    {
      if item.Some? && p == item.value.filePath {
        assert ms[i] == matches[i];
      } else {
        var j :| 0 <= j < |matches[..i]| && classify(matches[..i][j]) == Get(m, p);
        assert ms[j] == matches[..i][j];
      }
    }
  }

  /** A collection filed from `Classify` holds files with empty meta, each
   *  the classification of one of the matches. */
  lemma FromMatchesClassified(root: string, cwd: string, matches: seq<string>, m: Record<File>)
    requires FromMatches(ClassifyIn(root, cwd), matches, m)
    ensures forall p :: Get(m, p).Some? ==>
      (Get(m, p).value.meta == [] &&
       exists i :: 0 <= i < |matches| && Classify(matches[i], root, cwd) == Get(m, p))
  {
    forall p | Get(m, p).Some?
      ensures Get(m, p).value.meta == [] &&
        exists i :: 0 <= i < |matches| && Classify(matches[i], root, cwd) == Get(m, p)
    {
      var j :| 0 <= j < |matches| && ClassifyIn(root, cwd)(matches[j]) == Get(m, p);
      assert Classify(matches[j], root, cwd) == Get(m, p);
    }
  }

  /** One more match adds the path of its entry, if it has one, and nothing else. */
  lemma CollectedBySnoc(classify: string -> Option<File>, matches: seq<string>, item: string)
    ensures forall p :: CollectedBy(classify, matches + [item], p) <==>
      CollectedBy(classify, matches, p) || (classify(item).Some? && classify(item).value.filePath == p)
  {
    var all := matches + [item];
    forall p | CollectedBy(classify, matches, p)
      ensures CollectedBy(classify, all, p)
    {
      var i :| 0 <= i < |matches| && classify(matches[i]).Some? && classify(matches[i]).value.filePath == p;
      assert all[i] == matches[i];
    }
    forall p | classify(item).Some? && classify(item).value.filePath == p
      ensures CollectedBy(classify, all, p)
    {
      assert all[|matches|] == item;
    }
    forall p | CollectedBy(classify, all, p)
      ensures CollectedBy(classify, matches, p) || (classify(item).Some? && classify(item).value.filePath == p)
    {
      var i :| 0 <= i < |all| && classify(all[i]).Some? && classify(all[i]).value.filePath == p;
      if i < |matches| {
        assert all[i] == matches[i];
      }
    }
  }
}
