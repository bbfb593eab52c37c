/** packages/core/src/parsers/template/TagNamePlugin.ts: the plugin-wide
 *  table of tag transforms, and the `tagName` tap that gives each element
 *  its H5 name and registers `<template>` declarations and `<wxs>` modules
 *  with the compilation. */
module TagName {
  import opened Wrappers
  import opened Strings
  import opened TemplateHooks
  import TemplateConstants
  import opened Modules
  import TagRuleH5Components
  import Utils

  // ---------------------------------------------------------------------
  // the transform table
  // ---------------------------------------------------------------------

  /** The table after `forEach` over `table` has set one constant transform
   *  per entry on top of `base`. */
  function WithTable(base: map<string, TagTransform>, table: TemplateConstants.Table): map<string, TagTransform>
  {
    if table == [] then base
    else
      var last := table[|table| - 1];
      WithTable(base, table[..|table| - 1])[last.0 := ConstantTag(last.1)]
  }

  /** The table gains exactly the keys of `table`. */
  lemma {:induction false} WithTableKeys(base: map<string, TagTransform>, table: TemplateConstants.Table)
    ensures forall k :: k in WithTable(base, table) <==> k in base || k in Keys(table)
    decreases |table|
  {
    if table != [] {
      var init := table[..|table| - 1];
      KeysSnoc(table);
      WithTableKeys(base, init);
    }
  }

  /** A key of `base` that `table` does not list keeps its transform. */
  lemma {:induction false} WithTableOthers(base: map<string, TagTransform>, table: TemplateConstants.Table)
    ensures forall k :: k in base && k !in Keys(table) ==>
      k in WithTable(base, table) && WithTable(base, table)[k] == base[k]
    decreases |table|
  {
    if table != [] {
      var init := table[..|table| - 1];
      KeysSnoc(table);
      WithTableKeys(base, init);
      WithTableOthers(base, init);
    }
  }

  /** In a table without repeated keys, every entry's key maps to that
   *  entry's constant tag. */
  lemma {:induction false} WithTableEntries(base: map<string, TagTransform>, table: TemplateConstants.Table)
    requires TemplateConstants.NoDups(Keys(table))
    ensures forall j :: 0 <= j < |table| ==>
      table[j].0 in WithTable(base, table) && WithTable(base, table)[table[j].0] == ConstantTag(table[j].1)
    decreases |table|
  {
    if table != [] {
      var init := table[..|table| - 1];
      var last := table[|table| - 1];
      var ks := Keys(table);
      assert TemplateConstants.NoDups(Keys(init)) by {
        KeysSnoc(table);
        assert forall i :: 0 <= i < |init| ==> Keys(init)[i] == ks[i];
      }
      WithTableEntries(base, init);
      assert WithTable(base, table) == WithTable(base, init)[last.0 := ConstantTag(last.1)];
      forall j | 0 <= j < |init|
        ensures table[j].0 != last.0
      {
        assert ks[j] == table[j].0 && ks[|table| - 1] == last.0;
      }
      assert forall j :: 0 <= j < |init| ==> init[j] == table[j];
    }
  }

  lemma {:induction false} KeysSnoc(table: TemplateConstants.Table)
    requires table != []
    ensures Keys(table) == Keys(table[..|table| - 1]) + [table[|table| - 1].0]
    decreases |table|
  {
    if |table| > 1 {
      var tail := table[1..];
      KeysSnoc(tail);
      assert tail[..|tail| - 1] == table[..|table| - 1][1..];
    }
  }


  /** The default table has no repeated tag. */
  lemma TagNameMapDistinct()
    ensures TemplateConstants.NoDups(Keys(TemplateConstants.TAG_NAME_MAP))
  {
    TemplateConstants.KeysOfZip(TemplateConstants.DEFAULT_TAGS, TemplateConstants.DEFAULT_H5_TAGS);
    DefaultTagsDistinct();
  }

  lemma DefaultTagsDistinct()
    ensures TemplateConstants.NoDups(TemplateConstants.DEFAULT_TAGS)
  {
  }

  /** `TagNamePlugin`: one instance is created with the plugin list and kept
   *  for every compilation, so its table is shared by all of them. */
  class TagNamePlugin {
    const transforms: TagTransforms

    /** The constructor and `initTransforms`. */
    constructor ()
      ensures fresh(transforms)
      ensures transforms.entries == WithTable(map[], TemplateConstants.TAG_NAME_MAP)
    {
      transforms := new TagTransforms();
      new;
      InitTransforms();
    }

    /** `initTransforms`: one constant transform per default entry. */
    method InitTransforms()
      modifies transforms
      ensures transforms.entries == WithTable(old(transforms.entries), TemplateConstants.TAG_NAME_MAP)
    {
      SetEach(TemplateConstants.TAG_NAME_MAP);
    }

    /** The `forEach` of `initTransforms`: one constant transform per entry,
     *  in order. */
    method SetEach(table: TemplateConstants.Table)
      modifies transforms
      ensures transforms.entries == WithTable(old(transforms.entries), table)
    {
      for i := 0 to |table|
        invariant transforms.entries == WithTable(old(transforms.entries), table[..i])
      {
        assert table[..i + 1][..i] == table[..i];
        transforms.Set(table[i].0, ConstantTag(table[i].1));
      }
      assert table[..|table|] == table;
    }

    /** The plugin's `compilation` tap: `tagRule` is called with the shared
     *  table, where the H5-components plugin, tapped before it, installs
     *  the module's components. Nothing is ever removed. */
    method OnCompilation(config: Option<JsonConfig>)
      modifies transforms
      ensures forall k :: k in old(transforms.entries) ==> k in transforms.entries
      ensures config.Some? ==> forall k :: k in Keys(TagRuleH5Components.H5Components(config.value)) ==>
        k in transforms.entries && transforms.entries[k] == H5ComponentTag
      ensures forall k :: k in old(transforms.entries) && (config.None? || k !in Keys(TagRuleH5Components.H5Components(config.value))) ==>
        transforms.entries[k] == old(transforms.entries)[k]
    {
      TagRuleH5Components.TagRule(config, transforms);
    }
  }

  /** The fresh plugin's table renames exactly the default tags, each to
   *  its default H5 tag. */
  lemma InitialTable()
    ensures var t := WithTable(map[], TemplateConstants.TAG_NAME_MAP);
      (forall k :: k in t <==> k in Keys(TemplateConstants.TAG_NAME_MAP)) &&
      forall j :: 0 <= j < |TemplateConstants.TAG_NAME_MAP| ==>
        TemplateConstants.TAG_NAME_MAP[j].0 in t &&
        t[TemplateConstants.TAG_NAME_MAP[j].0] == ConstantTag(TemplateConstants.TAG_NAME_MAP[j].1)
  {
    TagNameMapDistinct();
    WithTableKeys(map[], TemplateConstants.TAG_NAME_MAP);
    WithTableEntries(map[], TemplateConstants.TAG_NAME_MAP);
  }

  // ---------------------------------------------------------------------
  // the tagName tap
  // ---------------------------------------------------------------------

  /** The compilation's `templateMap` and `wxsMap`, keyed by the `name` or
   *  `module` attribute, which may be absent. */
  datatype Registries = Registries(
    templates: map<Option<string>, WxmlTemplateModule>,
    wxs: map<Option<string>, WxsModule>)

  /** What the tap reads of the compilation: its module, the table as it
   *  stands, and the two `path` functions the module records use. */
  datatype TagContext = TagContext(
    baseModule: BaseModule,
    transforms: map<string, TagTransform>,
    cwd: string,
    relative: (string, string) -> string)

  /** The element and the registries after the tap. `h5Name` is `""` where
   *  the source leaves it unset. */
  datatype Tagged = Tagged(name: string, attribs: Record<string>, h5Name: string, registries: Registries)

  /** `parseTemplateTag`: a use (`is`) takes the registered template's
   *  component name, if any, and gains `callEvent`; a declaration is
   *  registered unless its name already is. */
  function ParseTemplateTag(ctx: TagContext, reg: Registries, name: string, attribs: Record<string>,
                            children: seq<TemplateNode>): (t: Tagged)
    ensures t.name == name && t.registries.wxs == reg.wxs
    ensures t.registries.templates.Keys >= reg.templates.Keys
    ensures forall k :: k in reg.templates ==> t.registries.templates[k] == reg.templates[k]
  {
    var use := Get(attribs, "is");
    if use.Some? && use.value != "" then
      var h5Name := if Some(use.value) in reg.templates then reg.templates[Some(use.value)].componentName else "";
      Tagged(name, Put(attribs, "callEvent", "callEvent"), h5Name, reg)
    else
      var declared := NewWxmlTemplateModule(ctx.baseModule, Get(attribs, "name"), children, ctx.cwd);
      var templates := if declared.name in reg.templates then reg.templates else reg.templates[declared.name := declared];
      Tagged(name, attribs, "", reg.(templates := templates))
  }

  /** `parseWxsTag`: the module is registered unless its name already is;
   *  the element gets no H5 name. */
  function ParseWxsTag(ctx: TagContext, reg: Registries, name: string, attribs: Record<string>,
                       children: seq<TemplateNode>): (t: Tagged)
    ensures t.name == name && t.attribs == attribs && t.h5Name == "" && t.registries.templates == reg.templates
    ensures t.registries.wxs.Keys >= reg.wxs.Keys
    ensures forall k :: k in reg.wxs ==> t.registries.wxs[k] == reg.wxs[k]
  {
    var m := NewWxsModule(ctx.baseModule, Get(attribs, "module"), Get(attribs, "src"), children, ctx.relative, ctx.cwd);
    var wxs := if m.name in reg.wxs then reg.wxs else reg.wxs[m.name := m];
    Tagged(name, attribs, "", reg.(wxs := wxs))
  }

  /** The `tagName` tap. An H5-components transform on a module without a
   *  config throws before changing anything; the tap is asynchronous, so
   *  the element is only left without an H5 name. */
  function TagNameOf(ctx: TagContext, reg: Registries, name: string, attribs: Record<string>,
                     children: seq<TemplateNode>): (t: Tagged)
    ensures t.registries.templates.Keys >= reg.templates.Keys && t.registries.wxs.Keys >= reg.wxs.Keys
    ensures forall k :: k in reg.templates ==> t.registries.templates[k] == reg.templates[k]
    ensures forall k :: k in reg.wxs ==> t.registries.wxs[k] == reg.wxs[k]
  {
    if name in ctx.transforms then
      match ctx.transforms[name]
      case ConstantTag(tag) => Tagged(name, attribs, tag, reg)
      case H5ComponentTag =>
        if ctx.baseModule.jsonConfig.None? then Tagged(name, attribs, "", reg)
        else
          var t := TagRuleH5Components.TagTransformH5(ctx.baseModule.jsonConfig.value, name, attribs);
          Tagged(t.name, t.attribs, t.tag, reg)
    else if name == "template" then ParseTemplateTag(ctx, reg, name, attribs, children)
    else if name == "wxs" then ParseWxsTag(ctx, reg, name, attribs, children)
    else Tagged(name, attribs, Utils.Strike2CamelCase(name), reg)
  }

  /** Resolution order: a table entry first, then `template`, then `wxs`,
   *  then the camel-cased name. A table entry for `template` or `wxs`
   *  would shadow their handling. */
  lemma ResolutionOrder(ctx: TagContext, reg: Registries, name: string, attribs: Record<string>, children: seq<TemplateNode>)
    ensures name in ctx.transforms && ctx.transforms[name].ConstantTag? ==>
      TagNameOf(ctx, reg, name, attribs, children) == Tagged(name, attribs, ctx.transforms[name].tag, reg)
    ensures name !in ctx.transforms && name == "template" ==>
      TagNameOf(ctx, reg, name, attribs, children) == ParseTemplateTag(ctx, reg, name, attribs, children)
    ensures name !in ctx.transforms && name == "wxs" ==>
      TagNameOf(ctx, reg, name, attribs, children).h5Name == ""
    ensures name !in ctx.transforms && name != "template" && name != "wxs" ==>
      TagNameOf(ctx, reg, name, attribs, children) == Tagged(name, attribs, Utils.Strike2CamelCase(name), reg)
  {
  }

  /** With the fresh table, every default tag renders as its default H5
   *  tag (`view` as `div`, `slot` as `Slot`, ...). */
  lemma DefaultTag(ctx: TagContext, reg: Registries, attribs: Record<string>, children: seq<TemplateNode>, j: nat)
    requires ctx.transforms == WithTable(map[], TemplateConstants.TAG_NAME_MAP)
    requires j < |TemplateConstants.TAG_NAME_MAP|
    ensures TagNameOf(ctx, reg, TemplateConstants.TAG_NAME_MAP[j].0, attribs, children).h5Name == TemplateConstants.TAG_NAME_MAP[j].1
  {
    InitialTable();
  }

  /** A hyphenated tag outside the table is camel-cased: `my-card` renders
   *  as `MyCard`. */
  lemma HyphenatedTag(ctx: TagContext, reg: Registries, attribs: Record<string>, children: seq<TemplateNode>,
                      head: string, tail: string)
    requires '-' !in head && '-' !in tail
    requires head + "-" + tail !in ctx.transforms
    ensures TagNameOf(ctx, reg, head + "-" + tail, attribs, children).h5Name ==
      Utils.FirstLetterUppercase(head) + Utils.FirstLetterUppercase(tail)
  {
    var name := head + "-" + tail;
    assert name != "template" && name != "wxs" by {
      assert name[|head|] == '-';
      NotPlainName(name);
    }
    ResolutionOrder(ctx, reg, name, attribs, children);
    Utils.Strike2CamelCaseOfPair(head, tail);
  }

  lemma NotPlainName(name: string)
    requires '-' in name
    ensures name != "template" && name != "wxs"
  {
    assert '-' !in "template" && '-' !in "wxs";
  }

  /** A template used after its declaration renders as the declared
   *  component; one used before, or never declared, renders nothing. Either
   *  way the use gains `callEvent="callEvent"`. */
  lemma TemplateUse(ctx: TagContext, reg: Registries, attribs: Record<string>, children: seq<TemplateNode>, used: string)
    requires "template" !in ctx.transforms
    requires Get(attribs, "is") == Some(used) && used != ""
    ensures var t := TagNameOf(ctx, reg, "template", attribs, children);
      t.h5Name == (if Some(used) in reg.templates then reg.templates[Some(used)].componentName else "") &&
      Get(t.attribs, "callEvent") == Some("callEvent") &&
      t.registries == reg
  {
    PutSpec(attribs, "callEvent", "callEvent");
  }

  /** A declaration registers under its name when that name is new, and
   *  the first declaration of a name wins; it renders nothing itself. */
  lemma TemplateDeclaration(ctx: TagContext, reg: Registries, attribs: Record<string>, children: seq<TemplateNode>)
    requires "template" !in ctx.transforms
    requires Get(attribs, "is").None? || Get(attribs, "is") == Some("")
    ensures var t := TagNameOf(ctx, reg, "template", attribs, children);
      var key := Get(attribs, "name");
      t.h5Name == "" && key in t.registries.templates &&
      (key in reg.templates ==> t.registries == reg) &&
      (key !in reg.templates ==> t.registries.templates[key] == NewWxmlTemplateModule(ctx.baseModule, key, children, ctx.cwd))
  {
  }

  /** A `<wxs>` module registers under its `module` name when that name is
   *  new; the first module of a name wins. */
  lemma WxsDeclaration(ctx: TagContext, reg: Registries, attribs: Record<string>, children: seq<TemplateNode>)
    requires "wxs" !in ctx.transforms
    ensures var t := TagNameOf(ctx, reg, "wxs", attribs, children);
      var key := Get(attribs, "module");
      key in t.registries.wxs &&
      (key in reg.wxs ==> t.registries == reg) &&
      (key !in reg.wxs ==>
        t.registries.wxs[key] == NewWxsModule(ctx.baseModule, key, Get(attribs, "src"), children, ctx.relative, ctx.cwd))
  {
  }

  /** An installed H5 component renames the element to the configured tag
   *  and spreads the configured props over its attributes. */
  lemma H5ComponentRenames(ctx: TagContext, reg: Registries, name: string, attribs: Record<string>,
                           children: seq<TemplateNode>, config: JsonConfig,
                           tag: string, src: Option<string>, props: Record<string>, defaultExport: Option<bool>, k: string)
    requires name in ctx.transforms && ctx.transforms[name] == H5ComponentTag
    requires ctx.baseModule.jsonConfig == Some(config)
    requires Get(TagRuleH5Components.H5Components(config), name) == Some(H5Entry(tag, src, props, defaultExport))
    requires DistinctKeys(props)
    ensures var t := TagNameOf(ctx, reg, name, attribs, children);
      t.name == t.h5Name == Utils.Strike2CamelCase(tag) &&
      Get(t.attribs, k) == (if Get(props, k).Some? then Get(props, k) else Get(attribs, k))
  {
    TagRuleH5Components.PropsWin(config, name, attribs, k);
  }
}
