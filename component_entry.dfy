/** packages/core/src/plugins/compiler/ComponentCompilerEntryPlugin.ts: the
 *  `entryDependency` tap of a design build. Every `.wxml` file under the
 *  entry becomes a page or component module, and so, transitively, does
 *  every component its JSON config names under `usingComponents`. A module
 *  is filed in the module map before the components it uses are walked, so
 *  a cycle of components meets the module already filed and stops.
 *
 *  The file system is a given set of existing paths, what reading and
 *  parsing a JSON config yields, and the `*.wxs` files of a directory. */
module ComponentEntry {
  import opened Wrappers
  import opened Strings
  import opened TemplateHooks
  import opened Modules
  import Paths
  import Utils
  import Compiler

  /** What the plugin sees of the file system and the `path` library's
   *  working directory. `readJson` is `None` when reading, the conditional
   *  compilation filter or `JSON.parse` throws; `wxsIn` gives the `*.wxs`
   *  files of a directory, resolved against it. */
  datatype FileSystem = FileSystem(
    files: set<string>,
    readJson: string -> Option<JsonConfig>,
    wxsIn: string -> seq<string>,
    cwd: string)

  /** A module before it is built: its name, its entry directory and the
   *  path of its `.wxml`. */
  datatype ModuleBasic = ModuleBasic(name: string, entry: string, absPath: string)

  // ---------------------------------------------------------------------
  // naming and the JSON config
  // ---------------------------------------------------------------------

  /** The module name of a matched `.wxml` path (relative to the root, `/`
   *  separated): its parent directory's name, as a component name. An empty
   *  match is skipped. A one-segment match would make the source name the
   *  module `strike2camelCase(undefined)`; the glob runs with
   *  `dotRelative: true` (ComponentCompilerEntryPlugin.ts:51), so every
   *  match starts with `./` and has at least two segments, and `None` there
   *  stands for a case that does not arise. */
  function MatchName(item: string): (name: Option<string>)
    ensures item == "" ==> name.None?
  {
    if item == "" then None
    else
      var segments := Split(item, '/');
      if |segments| < 2 then None
      else Some(Utils.Strike2CamelCase(segments[|segments| - 2]))
  }

  /** A file `dir/file` below some directories is named after `dir`. */
  lemma MatchNameIsParentDirectory(dirs: seq<string>, dir: string, file: string)
    requires forall i :: 0 <= i < |dirs| ==> '/' !in dirs[i]
    requires '/' !in dir && '/' !in file
    ensures MatchName(Join(dirs + [dir, file], "/")) == Some(Utils.Strike2CamelCase(dir))
  {
    var parts := dirs + [dir, file];
    NoSeparatorAppended(dirs, dir, file);
    MatchNameOfJoin(parts);
    assert parts[|parts| - 2] == dir;
  }

  lemma NoSeparatorAppended(dirs: seq<string>, dir: string, file: string)
    requires forall i :: 0 <= i < |dirs| ==> '/' !in dirs[i]
    requires '/' !in dir && '/' !in file
    ensures forall i :: 0 <= i < |dirs + [dir, file]| ==> '/' !in (dirs + [dir, file])[i]
  {
    var parts := dirs + [dir, file];
    forall i | 0 <= i < |parts| ensures '/' !in parts[i] {
      if i < |dirs| {
        assert parts[i] == dirs[i];
      }
    }
  }

  /** A path joined from two or more segments is named after the one before
   *  the last. */
  lemma MatchNameOfJoin(parts: seq<string>)
    requires |parts| >= 2 && forall i :: 0 <= i < |parts| ==> '/' !in parts[i]
    ensures MatchName(Join(parts, "/")) == Some(Utils.Strike2CamelCase(parts[|parts| - 2]))
  {
    Strings.SplitOfJoin(parts, '/');
    MatchNameOfSplit(Join(parts, "/"), parts);
  }

  /** A path that splits into two or more segments is named after the one
   *  before the last. */
  lemma MatchNameOfSplit(item: string, parts: seq<string>)
    requires Split(item, '/') == parts && |parts| >= 2
    ensures MatchName(item) == Some(Utils.Strike2CamelCase(parts[|parts| - 2]))
  {
  }

  /** `getJsonConfig`: the parsed config, or, when it cannot be read or
   *  parsed, a component using nothing and marked as an error. */
  function GetJsonConfig(parsed: Option<JsonConfig>): (config: JsonConfig)
    ensures parsed.Some? ==> config == parsed.value
    ensures parsed.None? ==> config.component && config.usingComponents == [] && config.error
  {
    match parsed
    case Some(c) => c
    case None => JsonConfig(true, [], None, None, true)
  }

  /** The module `genModuleSync` builds for a basic module whose config
   *  exists, before its used components are recorded. */
  function ModuleFor(fs: FileSystem, m: ModuleBasic): BaseModule
  {
    var configPath := Paths.GetPath(m.absPath, ".json");
    var config := GetJsonConfig(fs.readJson(configPath));
    var jsPath := if Paths.GetPath(m.absPath, ".js") in fs.files then Paths.GetPath(m.absPath, ".js")
                  else Paths.GetPath(m.absPath, ".ts");
    NewBaseModule(ModuleOptions(
      m.name, if config.component then ComponentType else PageType, m.entry, m.absPath,
      jsPath, configPath, Some(config), Paths.GetPath(m.absPath, ".wxss"),
      Some(fs.wxsIn(Paths.Dirname(m.absPath)))))
  }

  /** A module is a component exactly when its config says so, and a config
   *  that cannot be parsed makes it a component; its script is the `.js`
   *  beside the `.wxml`, or else the `.ts`; it keeps the name it was given
   *  and lists the `*.wxs` files of its directory. */
  lemma ModuleForFields(fs: FileSystem, m: ModuleBasic)
    ensures var config := GetJsonConfig(fs.readJson(Paths.GetPath(m.absPath, ".json")));
      (ModuleFor(fs, m).moduleType == ComponentType <==> config.component) &&
      (fs.readJson(Paths.GetPath(m.absPath, ".json")).None? ==> ModuleFor(fs, m).moduleType == ComponentType)
    ensures Paths.GetPath(m.absPath, ".js") in fs.files ==> ModuleFor(fs, m).jsPath == Paths.GetPath(m.absPath, ".js")
    ensures Paths.GetPath(m.absPath, ".js") !in fs.files ==> ModuleFor(fs, m).jsPath == Paths.GetPath(m.absPath, ".ts")
    ensures ModuleFor(fs, m).name == m.name && ModuleFor(fs, m).absPath == m.absPath && ModuleFor(fs, m).entry == m.entry
    ensures ModuleFor(fs, m).wxsPathList == fs.wxsIn(Paths.Dirname(m.absPath))
    ensures ModuleFor(fs, m).includeComponentsMap == [] && ModuleFor(fs, m).issuer == []
  {
  }

  // ---------------------------------------------------------------------
  // resolving a used component
  // ---------------------------------------------------------------------

  /** The `.wxml` a `usingComponents` entry of the module at `parentPath`
   *  points at: npm package paths are left to another plugin; an absolute
   *  path names `p.wxml` or else `p/index.wxml`; a relative one is taken
   *  beside the module the same way; a target that does not exist drops
   *  the entry. */
  function DependencyTarget(fs: FileSystem, parentPath: string, compPath: string): (target: Option<string>)
    ensures target.Some? ==> target.value in fs.files
    ensures Paths.MaybeNpmPath(Paths.PathString(compPath)) ==> target.None?
  {
    if Paths.MaybeNpmPath(Paths.PathString(compPath)) then None
    else
      var direct := if Paths.IsAbsolute(compPath) then compPath + ".wxml"
                    else Paths.Resolve([parentPath, "..", compPath + ".wxml"], fs.cwd);
      var index := if Paths.IsAbsolute(compPath) then Paths.Resolve([compPath, "index.wxml"], fs.cwd)
                   else Paths.Resolve([parentPath, "..", compPath, "index.wxml"], fs.cwd);
      if direct in fs.files then Some(direct)
      else if index in fs.files then Some(index)
      else None
  }

  /** The `.wxml` named directly wins over the directory's `index.wxml`;
   *  the index is taken only when the direct file is missing. */
  lemma DirectFileFirst(fs: FileSystem, parentPath: string, compPath: string)
    requires !Paths.MaybeNpmPath(Paths.PathString(compPath))
    ensures Paths.IsAbsolute(compPath) && compPath + ".wxml" in fs.files ==>
      DependencyTarget(fs, parentPath, compPath) == Some(compPath + ".wxml")
    ensures Paths.IsAbsolute(compPath) && compPath + ".wxml" !in fs.files ==>
      DependencyTarget(fs, parentPath, compPath) ==
        if Paths.Resolve([compPath, "index.wxml"], fs.cwd) in fs.files then Some(Paths.Resolve([compPath, "index.wxml"], fs.cwd)) else None
    ensures !Paths.IsAbsolute(compPath) && Paths.Resolve([parentPath, "..", compPath + ".wxml"], fs.cwd) in fs.files ==>
      DependencyTarget(fs, parentPath, compPath) == Some(Paths.Resolve([parentPath, "..", compPath + ".wxml"], fs.cwd))
  {
  }

  // ---------------------------------------------------------------------
  // the plugin
  // ---------------------------------------------------------------------

  /** A module filed earlier keeps everything but its `issuer` list, which
   *  can only grow. */
  predicate Preserved(before: BaseModule, after: BaseModule)
  {
    after == before.(issuer := after.issuer) && before.issuer <= after.issuer
  }

  /** The map grew: no key lost, and every earlier module preserved. */
  predicate Grown(before: map<string, BaseModule>, after: map<string, BaseModule>)
  {
    before.Keys <= after.Keys && forall k :: k in before ==> Preserved(before[k], after[k])
  }

  lemma GrownTransitive(a: map<string, BaseModule>, b: map<string, BaseModule>, c: map<string, BaseModule>)
    requires Grown(a, b) && Grown(b, c)
    ensures Grown(a, c)
  {
    forall k | k in a ensures Preserved(a[k], c[k]) {
      assert Preserved(a[k], b[k]) && Preserved(b[k], c[k]);
    }
  }

  /** Every recorded used component is imported by default from a path
   *  some `usingComponents` entry names, under that entry's tag as a
   *  component name. */
  ghost predicate IncludesFrom(includes: Record<IncludeComponent>, usingComponents: Record<string>)
  {
    forall n :: Get(includes, n).Some? ==>
      Get(includes, n).value.defaultExport &&
      exists t :: Get(usingComponents, t) == Some(Get(includes, n).value.from) && Utils.Strike2CamelCase(t) == n
  }

  class EntryPlugin {
    const fs: FileSystem
    var flattedModulesMap: map<string, BaseModule>

    constructor (fs: FileSystem)
      ensures this.fs == fs && flattedModulesMap == map[]
    {
      this.fs := fs;
      flattedModulesMap := map[];
    }

    /** A module path whose config exists is in the map. */
    predicate FiledIfConfigured(absPath: string)
      reads this
    {
      Paths.GetPath(absPath, ".json") in fs.files ==> absPath in flattedModulesMap
    }

    /** The `entryDependency` tap: a fresh map is filled from the matches of
     *  `.wxml` files found under the entry directory and handed to the compiler's
     *  context. Every match with a config ends up in the map. */
    method EntryDependency(compiler: Compiler.Compiler, matches: seq<string>)
      modifies this, compiler`flattedModulesMap
      ensures compiler.flattedModulesMap == flattedModulesMap
      ensures forall item :: item in matches && MatchName(item).Some? ==>
        FiledIfConfigured(Paths.Resolve([compiler.options.root, item], fs.cwd))
    {
      flattedModulesMap := map[];
      var root := compiler.options.root;
      var entry := Paths.Resolve([root, compiler.options.entry], fs.cwd);
      for i := 0 to |matches|
        invariant forall item :: item in matches[..i] && MatchName(item).Some? ==>
          FiledIfConfigured(Paths.Resolve([root, item], fs.cwd))
      {
        var name := MatchName(matches[i]);
        if name.Some? {
          var _ := GenModuleSync(ModuleBasic(name.value, entry, Paths.Resolve([root, matches[i]], fs.cwd)));
        }
        assert matches[..i + 1] == matches[..i] + [matches[i]];
      }
      assert matches[..|matches|] == matches;
      compiler.flattedModulesMap := flattedModulesMap;
    }

    /** `genModuleSync(module)`: a module already in the map, or one without
     *  a JSON config, is left alone; otherwise the module is built, filed
     *  under its path, and then the components it uses are walked. */
    method GenModuleSync(m: ModuleBasic) returns (created: bool)
      modifies this
      ensures created <==> m.absPath !in old(flattedModulesMap) && Paths.GetPath(m.absPath, ".json") in fs.files
      ensures !created ==> flattedModulesMap == old(flattedModulesMap)
      ensures created ==> m.absPath in flattedModulesMap
      ensures created ==> flattedModulesMap[m.absPath] == ModuleFor(fs, m).(includeComponentsMap := flattedModulesMap[m.absPath].includeComponentsMap, issuer := flattedModulesMap[m.absPath].issuer)
      ensures created ==> IncludesFrom(flattedModulesMap[m.absPath].includeComponentsMap, ModuleFor(fs, m).jsonConfig.value.usingComponents)
      ensures Grown(old(flattedModulesMap), flattedModulesMap)
      decreases fs.files - flattedModulesMap.Keys - {m.absPath}, 2
    {
      if m.absPath in flattedModulesMap {
        return false;
      }
      var configPath := Paths.GetPath(m.absPath, ".json");
      if configPath !in fs.files {
        return false;
      }
      var generated := ModuleFor(fs, m);
      flattedModulesMap := flattedModulesMap[m.absPath := generated];
      ghost var filed := flattedModulesMap;
      GenDepComponents(generated, generated.jsonConfig.value.usingComponents);
      assert old(flattedModulesMap) == filed - {m.absPath};
      return true;
    }

    /** `genDepComponents(module, usingComponents)`: each used component is
     *  resolved and either noted as a user of a module already filed or
     *  built as a new module; the new ones become the module's
     *  `includeComponentsMap`, which replaces whatever it held. */
    method GenDepComponents(parent: BaseModule, usingComponents: Record<string>)
      requires parent.absPath in flattedModulesMap
      modifies this
      ensures parent.absPath in flattedModulesMap
      ensures flattedModulesMap[parent.absPath].includeComponentsMap == [] <== usingComponents == []
      ensures IncludesFrom(flattedModulesMap[parent.absPath].includeComponentsMap, usingComponents)
      ensures var before := old(flattedModulesMap)[parent.absPath];
        var after := flattedModulesMap[parent.absPath];
        after == before.(includeComponentsMap := after.includeComponentsMap, issuer := after.issuer) &&
        before.issuer <= after.issuer
      ensures Grown(old(flattedModulesMap) - {parent.absPath}, flattedModulesMap)
      decreases fs.files - flattedModulesMap.Keys, 1
    {
      var includes: Record<IncludeComponent> := [];
      if usingComponents == [] {
        flattedModulesMap := flattedModulesMap[parent.absPath := flattedModulesMap[parent.absPath].(includeComponentsMap := includes)];
        return;
      }
      var tags := Keys(usingComponents);
      for i := 0 to |tags|
        invariant parent.absPath in flattedModulesMap
        invariant Grown(old(flattedModulesMap), flattedModulesMap)
        invariant IncludesFrom(includes, usingComponents)
      {
        var compPath := Get(usingComponents, tags[i]);
        ghost var before := flattedModulesMap;
        includes := VisitDependency(parent, tags[i], compPath.value, includes, usingComponents);
        GrownTransitive(old(flattedModulesMap), before, flattedModulesMap);
      }
      var after := flattedModulesMap[parent.absPath];
      flattedModulesMap := flattedModulesMap[parent.absPath := after.(includeComponentsMap := includes)];
      assert Preserved(old(flattedModulesMap)[parent.absPath], after);
    }

    /** One `usingComponents` entry of `genDepComponents`. */
    method VisitDependency(parent: BaseModule, tagName: string, compPath: string,
                           includes: Record<IncludeComponent>, ghost usingComponents: Record<string>)
      returns (includes': Record<IncludeComponent>)
      requires parent.absPath in flattedModulesMap
      requires Get(usingComponents, tagName) == Some(compPath) && IncludesFrom(includes, usingComponents)
      modifies this
      ensures parent.absPath in flattedModulesMap
      ensures Grown(old(flattedModulesMap), flattedModulesMap)
      ensures IncludesFrom(includes', usingComponents)
      ensures var target := DependencyTarget(fs, parent.absPath, compPath);
        target.None? ==> includes' == includes && flattedModulesMap == old(flattedModulesMap)
      ensures var target := DependencyTarget(fs, parent.absPath, compPath);
        target.Some? && target.value in old(flattedModulesMap) ==>
          includes' == includes &&
          flattedModulesMap == old(flattedModulesMap)[target.value :=
            old(flattedModulesMap)[target.value].(issuer := old(flattedModulesMap)[target.value].issuer + [parent.absPath])]
      ensures var target := DependencyTarget(fs, parent.absPath, compPath);
        target.Some? && target.value !in old(flattedModulesMap) ==>
          includes' == if Paths.GetPath(target.value, ".json") in fs.files
                      then Put(includes, Utils.Strike2CamelCase(tagName), IncludeComponent(compPath, true))
                      else includes
      decreases fs.files - flattedModulesMap.Keys, 0
    {
      includes' := includes;
      var target := DependencyTarget(fs, parent.absPath, compPath);
      if target.None? {
        return;
      }
      var depAbsPath := target.value;
      if depAbsPath in flattedModulesMap {
        var existing := flattedModulesMap[depAbsPath];
        flattedModulesMap := flattedModulesMap[depAbsPath := existing.(issuer := existing.issuer + [parent.absPath])];
        return;
      }
      var created := GenModuleSync(ModuleBasic(Utils.Strike2CamelCase(tagName), parent.entry, depAbsPath));
      if created {
        var name := Utils.Strike2CamelCase(tagName);
        includes' := Put(includes, name, IncludeComponent(compPath, true));
        PutSpec(includes, name, IncludeComponent(compPath, true));
        forall n | Get(includes', n).Some?
          ensures Get(includes', n).value.defaultExport &&
            exists t :: Get(usingComponents, t) == Some(Get(includes', n).value.from) && Utils.Strike2CamelCase(t) == n
        {
          if n == name {
            assert Get(usingComponents, tagName) == Some(compPath);
          }
        }
      }
    }
  }
}
