/** The module records of packages/core/src/modules: a page or component
 *  (BaseModule.ts), a `<template name>` declaration (WxmlTemplateModule.ts)
 *  and a `<wxs>` module (WxsModule.ts). Each field is derived once, when the
 *  record is built. */
module Modules {
  import opened Wrappers
  import opened Strings
  import opened TemplateHooks
  import Paths
  import Utils

  // ---------------------------------------------------------------------
  // BaseModule
  // ---------------------------------------------------------------------

  /** An `h5Components` entry of a module's JSON config: a bare string, or
   *  the tag, import source, props and export style of an H5 component. */
  datatype H5Component =
    | H5Alias(alias: string)
    | H5Entry(tag: string, src: Option<string>, props: Record<string>, defaultExport: Option<bool>)

  /** The JSON config of a page or component. `styleIsolation` is whatever
   *  text the file holds, if any. */
  datatype JsonConfig = JsonConfig(
    component: bool,
    usingComponents: Record<string>,
    h5Components: Option<Record<H5Component>>,
    styleIsolation: Option<string>,
    error: bool)

  datatype ModuleType = ComponentType | PageType

  /** An `includeComponentsMap` entry: where a used component is imported
   *  from. */
  datatype IncludeComponent = IncludeComponent(from: string, defaultExport: bool)

  datatype ModuleOptions = ModuleOptions(
    name: string,
    moduleType: ModuleType,
    entry: string,
    absPath: string,
    jsPath: string,
    jsonPath: string,
    jsonConfig: Option<JsonConfig>,
    wxssPath: string,
    wxsPathList: Option<seq<string>>)

  /** A page or component. `issuer` lists the `absPath` of each module found
   *  to use this one. */
  datatype BaseModule = BaseModule(
    name: string,
    moduleType: ModuleType,
    entry: string,
    absPath: string,
    basePath: string,
    jsPath: string,
    jsonPath: string,
    jsonConfig: Option<JsonConfig>,
    wxssPath: string,
    wxsPathList: seq<string>,
    includeComponentsMap: Record<IncludeComponent>,
    issuer: seq<string>,
    enableStyleIsolation: bool)

  /** `!styleIsolation || styleIsolation === 'isolated'` on a config that
   *  is present. */
  predicate IsolationSetting(config: JsonConfig)
  {
    config.styleIsolation.None? || config.styleIsolation.value == "" || config.styleIsolation.value == "isolated"
  }

  /** `new BaseModule(options)`. */
  function NewBaseModule(o: ModuleOptions): (m: BaseModule)
    ensures m.name == o.name && m.absPath == o.absPath && m.jsonConfig == o.jsonConfig
    ensures m.basePath == Paths.Dirname(o.absPath)
    ensures m.includeComponentsMap == [] && m.issuer == []
  {
    BaseModule(
      o.name, o.moduleType, o.entry, o.absPath, Paths.Dirname(o.absPath), o.jsPath, o.jsonPath,
      o.jsonConfig, o.wxssPath, o.wxsPathList.GetOr([]), [], [],
      if o.jsonConfig.Some? then IsolationSetting(o.jsonConfig.value) else true)
  }

  /** Styles are isolated unless a config asks for `apply-shared`,
   *  `shared` or any other non-empty value than `isolated`. */
  lemma StyleIsolationDefault(o: ModuleOptions)
    ensures o.jsonConfig.None? ==> NewBaseModule(o).enableStyleIsolation
    ensures o.jsonConfig.Some? && o.jsonConfig.value.styleIsolation.None? ==> NewBaseModule(o).enableStyleIsolation
    ensures o.jsonConfig.Some? && o.jsonConfig.value.styleIsolation == Some("isolated") ==> NewBaseModule(o).enableStyleIsolation
    ensures o.jsonConfig.Some? && o.jsonConfig.value.styleIsolation == Some("shared") ==> !NewBaseModule(o).enableStyleIsolation
    ensures o.jsonConfig.Some? && o.jsonConfig.value.styleIsolation == Some("apply-shared") ==> !NewBaseModule(o).enableStyleIsolation
  {
  }

  /** The `wxsPathList` option falls back to an empty list and is otherwise
   *  kept. */
  lemma WxsPathListDefault(o: ModuleOptions)
    ensures o.wxsPathList.None? ==> NewBaseModule(o).wxsPathList == []
    ensures o.wxsPathList.Some? ==> NewBaseModule(o).wxsPathList == o.wxsPathList.value
  {
  }

  /** `basePath` is the directory holding the module's `.wxml`. */
  lemma BasePathIsDirectory(o: ModuleOptions, dir: string, file: string)
    requires o.absPath == dir + "/" + file
    requires |dir| >= 2 && dir[0] == '/' && dir[1] != '/'
    requires file != [] && '/' !in file
    ensures NewBaseModule(o).basePath == dir
  {
    Paths.DirnameOfFile(dir, file);
  }

  // ---------------------------------------------------------------------
  // WxmlTemplateModule
  // ---------------------------------------------------------------------

  /** How an attribute that may be absent reads once interpolated into a
   *  string: an absent one reads `undefined`. */
  function Interpolated(v: Option<string>): string
  {
    if v.Some? then v.value else "undefined"
  }

  /** A `<template name>` declaration. The name is the `name` attribute,
   *  which may be absent. */
  datatype WxmlTemplateModule = WxmlTemplateModule(
    name: Option<string>,
    absPath: string,
    componentName: string,
    importUrl: string,
    children: seq<TemplateNode>)

  /** `strike2camelCase(name)`: an absent name passes through, and reads
   *  `undefined` once concatenated. */
  function ComponentBase(name: Option<string>): string
  {
    if name.Some? then Utils.Strike2CamelCase(name.value) else "undefined"
  }

  /** `new WxmlTemplateModule(baseModule, name, children)`; `cwd` stands
   *  for the working directory `path.resolve` falls back on. */
  function NewWxmlTemplateModule(base: BaseModule, name: Option<string>, children: seq<TemplateNode>, cwd: string): (t: WxmlTemplateModule)
    ensures t.name == name && t.children == children
    ensures EndsWith(t.componentName, "Template")
    ensures name.Some? ==> t.componentName == Utils.Strike2CamelCase(name.value) + "Template"
    ensures name.None? ==> t.componentName == "undefinedTemplate"
    ensures t.importUrl == "./" + (t.componentName + ".tsx")
  {
    var componentName := ComponentBase(name) + "Template";
    var importUrl := "./" + (componentName + ".tsx");
    assert componentName[|componentName| - 8..] == "Template";
    WxmlTemplateModule(name, Paths.Resolve([base.absPath, "../", importUrl], cwd), componentName, importUrl, children)
  }

  /** The template's `.tsx` sits beside the module's `.wxml`. */
  lemma TemplateBesideModule(base: BaseModule, name: Option<string>, children: seq<TemplateNode>, cwd: string,
                             dirSegs: seq<string>, file: string)
    requires base.absPath == "/" + Join(dirSegs + [file], "/")
    requires Paths.Canonical(dirSegs + [file], false)
    requires '/' !in ComponentBase(name)
    ensures var t := NewWxmlTemplateModule(base, name, children, cwd);
      t.absPath == "/" + Join(dirSegs + [t.componentName + ".tsx"], "/")
  {
    var c := ComponentBase(name) + "Template";
    assert c + ".tsx" != "" && c + ".tsx" != "." && c + ".tsx" != ".." by {
      assert |c + ".tsx"| >= 12;
    }
    Paths.ResolveBeside(dirSegs, file, c + ".tsx", cwd);
  }

  // ---------------------------------------------------------------------
  // WxsModule
  // ---------------------------------------------------------------------

  /** `copy`: a `<wxs src>` reference to a file; `plain`: an inline module. */
  datatype WxsType = Copy | Plain

  datatype WxsModule = WxsModule(
    wxsType: WxsType,
    name: Option<string>,
    basePath: string,
    sourcePath: string,
    importUrl: string,
    importUrlH5: string,
    children: seq<TemplateNode>,
    content: string)

  const NPM_DIR: string := "/miniprogram_npm/"

  /** `new WxsModule(baseModule, name, importUrl, children)`: `name` is the
   *  `module` attribute and `src` the `src` attribute, absent or empty for an
   *  inline module; `relative` is
   *  `path.relative`, and `cwd` the working directory `path.resolve` falls
   *  back on. */
  function NewWxsModule(base: BaseModule, name: Option<string>, src: Option<string>, children: seq<TemplateNode>,
                        relative: (string, string) -> string, cwd: string): (w: WxsModule)
    ensures w.name == name && w.children == children
    ensures w.wxsType == Copy <==> src.Some? && src.value != ""
    ensures w.wxsType == Copy ==> w.importUrl == src.value
    ensures w.wxsType == Plain ==> w.importUrl == "./" + Interpolated(name) + ".wxs"
    ensures StartsWith(w.importUrl, NPM_DIR) ==> w.importUrl == NPM_DIR + w.importUrlH5
    ensures !StartsWith(w.importUrl, NPM_DIR) ==> w.importUrlH5 == w.importUrl
  {
    var wxsType := if src.Some? && src.value != "" then Copy else Plain;
    var importUrl := if wxsType == Copy then src.value else "./" + Interpolated(name) + ".wxs";
    var sourcePath := Paths.Resolve([base.absPath, "../", importUrl], cwd);
    var importUrlH5 := if StartsWith(importUrl, NPM_DIR) then importUrl[|NPM_DIR|..] else importUrl;
    assert StartsWith(importUrl, NPM_DIR) ==> importUrl == importUrl[..|NPM_DIR|] + importUrl[|NPM_DIR|..];
    var content := if wxsType == Plain && |children| > 0 && children[0].Text? then children[0].data else "";
    WxsModule(wxsType, name, relative(base.entry, sourcePath), sourcePath, importUrl, importUrlH5, children, content)
  }

  /** Only an inline module whose first child is text has content, and it
   *  is that text. */
  lemma WxsContent(base: BaseModule, name: Option<string>, src: Option<string>, children: seq<TemplateNode>,
                   relative: (string, string) -> string, cwd: string)
    ensures var w := NewWxsModule(base, name, src, children, relative, cwd);
      w.content != "" ==> w.wxsType == Plain && |children| > 0 && children[0] == Text(w.content)
    ensures var w := NewWxsModule(base, name, src, children, relative, cwd);
      w.wxsType == Plain && |children| > 0 && children[0].Text? ==> w.content == children[0].data
  {
  }

  /** An inline module's source is `<name>.wxs` beside the module's
   *  `.wxml`. */
  lemma InlineWxsBesideModule(base: BaseModule, name: string, children: seq<TemplateNode>,
                              relative: (string, string) -> string, cwd: string, dirSegs: seq<string>, file: string)
    requires base.absPath == "/" + Join(dirSegs + [file], "/")
    requires Paths.Canonical(dirSegs + [file], false)
    requires '/' !in name
    ensures NewWxsModule(base, Some(name), None, children, relative, cwd).sourcePath == "/" + Join(dirSegs + [name + ".wxs"], "/")
  {
    assert "./" + name + ".wxs" == "./" + (name + ".wxs");
    assert |name + ".wxs"| >= 4;
    assert name + ".wxs" != ".." && name + ".wxs" != ".";
    Paths.ResolveBeside(dirSegs, file, name + ".wxs", cwd);
  }
}
