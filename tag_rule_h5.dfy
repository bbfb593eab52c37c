/** packages/core/src/parsers/template/TagRuleH5ComponentsPlugin.ts: every
 *  tag listed under `h5Components` in a module's JSON config is given the
 *  H5-components transform, which renames the element to the configured
 *  component and spreads the configured props over its attributes. */
module TagRuleH5Components {
  import opened Wrappers
  import opened TemplateHooks
  import opened Modules
  import Utils

  /** `jsonConfig.h5Components || {}`. */
  function H5Components(config: JsonConfig): Record<H5Component>
  {
    config.h5Components.GetOr([])
  }

  /** The `tagRule` tap: installs the H5-components transform under every
   *  key of the module's `h5Components`, over whatever the table held.
   *  Without a config the tap throws before installing anything, and the
   *  asynchronous tap's rejection is not observed. */
  method TagRule(config: Option<JsonConfig>, transforms: TagTransforms)
    modifies transforms
    ensures config.None? ==> transforms.entries == old(transforms.entries)
    ensures config.Some? ==> forall k :: k in transforms.entries <==>
      k in old(transforms.entries) || k in Keys(H5Components(config.value))
    ensures config.Some? ==> forall k :: k in Keys(H5Components(config.value)) ==>
      transforms.entries[k] == H5ComponentTag
    ensures forall k :: k in old(transforms.entries) && (config.None? || k !in Keys(H5Components(config.value))) ==>
      transforms.entries[k] == old(transforms.entries)[k]
  {
    if config.None? {
      return;
    }
    var tags := Keys(H5Components(config.value));
    for i := 0 to |tags|
      invariant forall k :: k in transforms.entries <==> k in old(transforms.entries) || k in tags[..i]
      invariant forall k :: k in tags[..i] ==> transforms.entries[k] == H5ComponentTag
      invariant forall k :: k in old(transforms.entries) && k !in tags[..i] ==>
        transforms.entries[k] == old(transforms.entries)[k]
    {
      assert tags[..i + 1] == tags[..i] + [tags[i]];
      transforms.Set(tags[i], H5ComponentTag);
    }
    assert tags[..|tags|] == tags;
  }

  /** What `getH5CompInfo` returns: the tag to render, the props to spread
   *  and the import source. */
  datatype H5CompInfo = H5CompInfo(tagName: string, props: Record<string>, src: Option<string>)

  /** `getH5CompInfo(compilation, name)`: an object entry names its own
   *  tag, props and source; a missing or string entry keeps the element's
   *  own name camel-cased, with no props (this is what a transform left in
   *  the table by an earlier module meets). */
  function GetH5CompInfo(config: JsonConfig, name: string): (info: H5CompInfo)
    ensures Get(H5Components(config), name).Some? && Get(H5Components(config), name).value.H5Entry? ==>
      var e := Get(H5Components(config), name).value;
      info.tagName == Utils.Strike2CamelCase(e.tag) && info.props == e.props && info.src == e.src
    ensures Get(H5Components(config), name).None? || Get(H5Components(config), name).value.H5Alias? ==>
      info == H5CompInfo(Utils.Strike2CamelCase(name), [], None)
  {
    var entry: Option<H5Component> := Get(H5Components(config), name);
    match entry
    case None => H5CompInfo(Utils.Strike2CamelCase(name), [], None)
    case Some(H5Alias(_)) => H5CompInfo(Utils.Strike2CamelCase(name), [], None)
    case Some(H5Entry(tag, src, props, _)) => H5CompInfo(Utils.Strike2CamelCase(tag), props, src)
  }

  /** The element after `tagTransform`: its new name, its attributes, and
   *  the tag returned. */
  datatype Transformed = Transformed(name: string, attribs: Record<string>, tag: string)

  /** `tagTransform(compilation, elem)`: the props are spread over the
   *  attributes and the element takes the new tag as its name. */
  function TagTransformH5(config: JsonConfig, name: string, attribs: Record<string>): (t: Transformed)
    ensures t.name == t.tag == GetH5CompInfo(config, name).tagName
  {
    var info := GetH5CompInfo(config, name);
    Transformed(info.tagName, Spread(attribs, info.props), info.tagName)
  }

  /** Configured props win over the element's attributes; attributes the
   *  props do not name are kept. */
  lemma PropsWin(config: JsonConfig, name: string, attribs: Record<string>, k: string)
    requires DistinctKeys(GetH5CompInfo(config, name).props)
    ensures var props := GetH5CompInfo(config, name).props;
      Get(TagTransformH5(config, name, attribs).attribs, k) ==
        if Get(props, k).Some? then Get(props, k) else Get(attribs, k)
  {
    SpreadSpec(attribs, GetH5CompInfo(config, name).props);
  }
}
