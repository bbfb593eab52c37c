/** The attributes pass of packages/core/src/parsers/template/AttributesPlugin.ts:
 *  `hidden` is folded into `style`, a loop without a key gets an empty
 *  `wx:key`, the keys are ranked, and every attribute is rendered through
 *  the attribute hook; the rendered attributes, joined by single spaces, are
 *  the element's `attrContent`. */
module AttributesPlugin {
  import opened Wrappers
  import opened Strings
  import opened TemplateHooks
  import AttributeRanking
  import opened Mustache

  /** An element's `attribs` object, updated in place by the pass. */
  class AttributeMap {
    var entries: Record<string>

    constructor (entries: Record<string>)
      ensures this.entries == entries
    {
      this.entries := entries;
    }
  }

  // ---------------------------------------------------------------------
  // formatAttribute
  // ---------------------------------------------------------------------

  /** The text of one attribute, given what the attribute hook returned. */
  function FormatAttribute(info: Option<AttributeInfo>): (r: string)
    ensures info.None? || info.value.removeAttribute ==> r == ""
  {
    if info.None? then ""
    else
      var i := info.value;
      if i.removeAttribute then ""
      else if i.removeQuotes then i.attrName + "=" + i.attrValue
      else i.attrName + "=\"" + i.attrValue + "\""
  }

  /** A rendered attribute reads back as its name, `=`, and its value, the
   *  value in double quotes unless the handler asked for none. */
  lemma FormatAttributeReadsBack(i: AttributeInfo)
    requires !i.removeAttribute
    ensures var r := FormatAttribute(Some(i));
      var n := |i.attrName|;
      && StartsWith(r, i.attrName + "=")
      && (i.removeQuotes ==> r[n + 1..] == i.attrValue)
      && (!i.removeQuotes ==> |r| == n + |i.attrValue| + 3 && r[n + 1] == '"' && r[|r| - 1] == '"'
                              && r[n + 2..|r| - 1] == i.attrValue)
  {
    var r := FormatAttribute(Some(i));
    var n := |i.attrName|;
    if i.removeQuotes {
      assert r == (i.attrName + "=") + i.attrValue;
    } else {
      assert r == (i.attrName + "=\"") + i.attrValue + "\"";
    }
  }

  // ---------------------------------------------------------------------
  // getDisplay and mergeStyle
  // ---------------------------------------------------------------------

  const DISPLAY_SUFFIX: string := " ? \"none\" : \"\""

  /** `getDisplay`: the first `{{exp}}` of the `hidden` value becomes
   *  `exp ? "none" : ""`; a value without one is used whole. */
  function GetDisplay(hidden: string): (r: string)
  {
    var m := MustacheFrom(hidden, 0);
    if m.Some? then
      hidden[..m.value.0] + hidden[m.value.0 + 2..m.value.1] + DISPLAY_SUFFIX + hidden[m.value.1 + 2..]
    else hidden + DISPLAY_SUFFIX
  }

  /** A value without `{{` is used whole. */
  lemma GetDisplayPlain(hidden: string)
    requires IndexOf(hidden, "{{") == -1
    ensures GetDisplay(hidden) == hidden + " ? \"none\" : \"\""
  {
    IndexOfSpec(hidden, "{{");
    NoOpenNoMustache(hidden, 0);
  }

  /** Only the first `{{exp}}` is rewritten: text before it and everything
   *  after its closing braces, later mustaches included, is kept. */
  lemma GetDisplayFirstMustache(before: string, exp: string, after: string)
    requires IndexOf(before + "{", "{{") == -1
    requires IndexOf(exp, "}") == -1 && NoLineTerminator(exp)
    ensures GetDisplay(before + "{{" + exp + "}}" + after) == before + exp + " ? \"none\" : \"\"" + after
  {
    FirstMustacheLayout(before, exp, after);
    BindingPieces(before + "{{" + exp + "}}" + after, before, exp, after);
  }

  /** `mergeStyle`: the display declaration is added as one more
   *  `;`-separated segment. */
  function MergeStyle(toStyle: string, fromStyleValue: string): string
  {
    Join(Split(toStyle, ';') + ["display: {{" + fromStyleValue + "}}"], ";")
  }

  /** Splitting and re-joining leaves the style as it was, so the merge is
   *  the style with `;display: {{…}}` appended. */
  lemma MergeStyleAppends(toStyle: string, fromStyleValue: string)
    ensures MergeStyle(toStyle, fromStyleValue) == toStyle + ";display: {{" + fromStyleValue + "}}"
  {
    JoinAppend(Split(toStyle, ';'), "display: {{" + fromStyleValue + "}}", ";");
    SplitJoin(toStyle, ';');
  }

  /** The merged style has the original segments followed by the display
   *  segment, when the display expression has no `;`. */
  lemma MergeStyleSegments(toStyle: string, fromStyleValue: string)
    requires ';' !in fromStyleValue
    ensures Split(MergeStyle(toStyle, fromStyleValue), ';') == Split(toStyle, ';') + ["display: {{" + fromStyleValue + "}}"]
  {
    var seg := "display: {{" + fromStyleValue + "}}";
    assert ';' !in seg;
    SplitOfJoin(Split(toStyle, ';') + [seg], ';');
  }

  // ---------------------------------------------------------------------
  // resolveHidden and formatAttributes
  // ---------------------------------------------------------------------

  /** `attributes.k`, a missing key read as `''`. */
  function Attr(attributes: Record<string>, k: string): string
  {
    Get(attributes, k).GetOr("")
  }

  /** The attributes after `resolveHidden(keys, attributes)`. */
  function HiddenResolved(keys: seq<string>, attributes: Record<string>): Record<string>
  {
    var display := GetDisplay(Attr(attributes, "hidden"));
    var styled :=
      if "style" in keys then
        if Contains(Attr(attributes, "style"), "display") then attributes
        else Put(attributes, "style", MergeStyle(Attr(attributes, "style"), display))
      else Put(attributes, "style", "display: {{ " + display + " }}");
    Remove(styled, "hidden")
  }

  /** The attributes once `hidden` is resolved and a missing loop key added,
   *  just before ranking. */
  function Prepared(attributes: Record<string>): Record<string>
  {
    var keys := Keys(attributes);
    var a := if "hidden" in keys then HiddenResolved(keys, attributes) else attributes;
    if Attr(a, "wx:for") != "" && Attr(a, "wx:key") == "" then Put(a, "wx:key", "") else a
  }

  method ResolveHidden(keys: seq<string>, attributes: AttributeMap)
    modifies attributes
    ensures attributes.entries == HiddenResolved(keys, old(attributes.entries))
  {
    var display := GetDisplay(Attr(attributes.entries, "hidden"));
    if "style" in keys {
      if !Contains(Attr(attributes.entries, "style"), "display") {
        attributes.entries := Put(attributes.entries, "style", MergeStyle(Attr(attributes.entries, "style"), display));
      }
    } else {
      attributes.entries := Put(attributes.entries, "style", "display: {{ " + display + " }}");
    }
    attributes.entries := Remove(attributes.entries, "hidden");
  }

  /** The attribute hook, as seen by this pass: each call may update the
   *  element (the state `S`) and may return a result. */
  type AttributeHook<!S> = (S, AttributeOrigin) -> (S, Option<AttributeInfo>)

  /** The rendered attributes for the ranked keys, in order, with the
   *  element state threaded through the hook calls. */
  function FormatAll<S>(hook: AttributeHook<S>, state: S, ranked: seq<string>, attributes: Record<string>): (S, seq<string>)
    decreases |ranked|
  {
    if ranked == [] then (state, [])
    else
      var prev := FormatAll(hook, state, ranked[..|ranked| - 1], attributes);
      var k := ranked[|ranked| - 1];
      var (s, info) := hook(prev.0, AttributeOrigin(k, Attr(attributes, k)));
      (s, prev.1 + [FormatAttribute(info)])
  }

  /** Rendering one more ranked key appends its attribute. */
  lemma FormatAllSnoc<S>(hook: AttributeHook<S>, state: S, ranked: seq<string>, i: nat, attributes: Record<string>)
    requires i < |ranked|
    ensures var prev := FormatAll(hook, state, ranked[..i], attributes);
      var res := hook(prev.0, AttributeOrigin(ranked[i], Attr(attributes, ranked[i])));
      FormatAll(hook, state, ranked[..i + 1], attributes) == (res.0, prev.1 + [FormatAttribute(res.1)])
  {
    assert ranked[..i + 1][..i] == ranked[..i];
  }

  /** `formatAttributes`: prepares the attributes in place, then renders
   *  them in ranked order; returns the `attrContent` and the element state. */
  method FormatAttributes<S>(hook: AttributeHook<S>, state: S, attributes: AttributeMap) returns (content: string, after: S)
    modifies attributes
    ensures attributes.entries == Prepared(old(attributes.entries))
    ensures var all := FormatAll(hook, state, AttributeRanking.Ranked(Keys(attributes.entries)), attributes.entries);
      content == Join(all.1, " ") && after == all.0
  {
    Prepare(attributes);
    content, after := RenderAttributes(hook, state, attributes.entries);
  }

  /** The in-place part: `hidden` resolved, a missing loop key added. */
  method Prepare(attributes: AttributeMap)
    modifies attributes
    ensures attributes.entries == Prepared(old(attributes.entries))
  {
    var keys := Keys(attributes.entries);
    if "hidden" in keys {
      ResolveHidden(keys, attributes);
    }
    if Attr(attributes.entries, "wx:for") != "" && Attr(attributes.entries, "wx:key") == "" {
      attributes.entries := Put(attributes.entries, "wx:key", "");
    }
  }

  /** Ranking the keys, then `map(formatAttribute).join(' ')`. */
  method RenderAttributes<S>(hook: AttributeHook<S>, state: S, entries: Record<string>) returns (content: string, after: S)
    ensures var all := FormatAll(hook, state, AttributeRanking.Ranked(Keys(entries)), entries);
      content == Join(all.1, " ") && after == all.0
  {
    var current := Keys(entries);
    var arr := new string[|current|](i requires 0 <= i < |current| => current[i]);
    assert arr[..] == current;
    var keysAfterRanking := AttributeRanking.AttributePriorityRanking(arr);
    var parts: seq<string> := [];
    after := state;
    for i := 0 to |keysAfterRanking|
      invariant (after, parts) == FormatAll(hook, state, keysAfterRanking[..i], entries)
    {
      var key := keysAfterRanking[i];
      var res := hook(after, AttributeOrigin(key, Attr(entries, key)));
      FormatAllSnoc(hook, state, keysAfterRanking, i, entries);
      after := res.0;
      parts := parts + [FormatAttribute(res.1)];
    }
    assert keysAfterRanking[..|keysAfterRanking|] == keysAfterRanking;
    content := Join(parts, " ");
  }

  // ---------------------------------------------------------------------
  // properties
  // ---------------------------------------------------------------------

  /** `hidden` never survives the pass. */
  lemma HiddenAlwaysDeleted(attributes: Record<string>)
    ensures Get(Prepared(attributes), "hidden").None?
  {
    var keys := Keys(attributes);
    if "hidden" in keys {
      var display := GetDisplay(Attr(attributes, "hidden"));
      var styled :=
        if "style" in keys then
          if Contains(Attr(attributes, "style"), "display") then attributes
          else Put(attributes, "style", MergeStyle(Attr(attributes, "style"), display))
        else Put(attributes, "style", "display: {{ " + display + " }}");
      RemoveSpec(styled, "hidden");
      var a := HiddenResolved(keys, attributes);
      PutSpec(a, "wx:key", "");
    } else {
      PutSpec(attributes, "wx:key", "");
    }
  }

  /** Without a `style` attribute, `hidden` creates one holding the display
   *  expression. */
  lemma HiddenCreatesStyle(attributes: Record<string>)
    requires "hidden" in Keys(attributes) && "style" !in Keys(attributes)
    ensures Get(HiddenResolved(Keys(attributes), attributes), "style")
      == Some("display: {{ " + GetDisplay(Attr(attributes, "hidden")) + " }}")
  {
    var display := GetDisplay(Attr(attributes, "hidden"));
    var styled := Put(attributes, "style", "display: {{ " + display + " }}");
    PutSpec(attributes, "style", "display: {{ " + display + " }}");
    RemoveSpec(styled, "hidden");
  }

  /** A style that already mentions `display` wins over `hidden`: the pass
   *  leaves it as it was. */
  lemma DisplayStyleWins(attributes: Record<string>)
    requires "hidden" in Keys(attributes) && "style" in Keys(attributes)
    requires Contains(Attr(attributes, "style"), "display")
    ensures Get(HiddenResolved(Keys(attributes), attributes), "style") == Get(attributes, "style")
  {
    RemoveSpec(attributes, "hidden");
  }

  /** A style without `display` gets the display declaration appended. */
  lemma StyleGetsDisplay(attributes: Record<string>)
    requires "hidden" in Keys(attributes) && "style" in Keys(attributes)
    requires !Contains(Attr(attributes, "style"), "display")
    ensures Get(HiddenResolved(Keys(attributes), attributes), "style")
      == Some(Attr(attributes, "style") + ";display: {{" + GetDisplay(Attr(attributes, "hidden")) + "}}")
  {
    var display := GetDisplay(Attr(attributes, "hidden"));
    var styled := Put(attributes, "style", MergeStyle(Attr(attributes, "style"), display));
    PutSpec(attributes, "style", MergeStyle(Attr(attributes, "style"), display));
    RemoveSpec(styled, "hidden");
    MergeStyleAppends(Attr(attributes, "style"), display);
  }

  /** A loop without a key gets `wx:key = ''`; an existing key is kept. */
  lemma LoopGetsKey(attributes: Record<string>)
    requires "hidden" !in Keys(attributes)
    ensures Attr(attributes, "wx:for") != "" ==> Get(Prepared(attributes), "wx:key").Some?
    ensures Attr(attributes, "wx:key") != "" ==> Get(Prepared(attributes), "wx:key") == Get(attributes, "wx:key")
  {
    PutSpec(attributes, "wx:key", "");
  }

  /** The attribute content has one part per attribute, in ranked order:
   *  the parts, joined by single spaces, empty ones included. */
  lemma {:induction false} FormatAllParts<S>(hook: AttributeHook<S>, state: S, ranked: seq<string>, attributes: Record<string>)
    ensures |FormatAll(hook, state, ranked, attributes).1| == |ranked|
    decreases |ranked|
  {
    if ranked != [] {
      FormatAllParts(hook, state, ranked[..|ranked| - 1], attributes);
    }
  }
}
