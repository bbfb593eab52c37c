/** packages/core/src/plugins/parser/TemplateParserPlugin.ts: the two passes
 *  over a parsed `.wxml` file. The transform pass walks the tree in document
 *  order: every element gets a fresh collector and its H5 name, then (when it
 *  has one) its attributes and its children are transformed; text and
 *  comments get their output text. The generate pass then prints the tree
 *  bottom-up, each element's text wrapped by the directives hook.
 *
 *  The source writes its results into the tree's nodes; here the transform
 *  returns the tree as the generate pass reads it. */
module TemplateParser {
  import opened Wrappers
  import opened Strings
  import opened TemplateHooks
  import TagName
  import AttributeHandlers
  import AttributesPlugin
  import AttributeRanking
  import DirectivesPlugin
  import Directives

  // ---------------------------------------------------------------------
  // the transformed tree
  // ---------------------------------------------------------------------

  /** A node as the generate pass reads it: an element's H5 name (`""`
   *  when unset), attribute text, collector and key; any other node's
   *  `content`, which is unset for node kinds nobody handles. */
  datatype Transformed =
    | TransformedTag(h5Name: string, attrContent: string, isSingleTag: bool,
                     collector: NodeCollector, matrixKey: Option<string>, children: seq<Transformed>)
    | TransformedLeaf(content: Option<string>)

  /** What the transform threads from node to node: the compilation's
   *  registries and the next fresh key. */
  datatype ParseState = ParseState(registries: TagName.Registries, nextGuid: nat)

  /** The compilation as the passes see it. */
  datatype ParseContext = ParseContext(tag: TagName.TagContext, handlers: AttributeHandlers.HandlerContext)

  /** The result of transforming one node, and of a list of siblings: the
   *  state after it and the parent's collector after it. */
  datatype Step = Step(state: ParseState, parent: NodeCollector, node: Transformed)
  datatype Steps = Steps(state: ParseState, parent: NodeCollector, nodes: seq<Transformed>)

  /** The registries only grow, and a registered entry is never replaced. */
  predicate Extends(before: TagName.Registries, after: TagName.Registries)
  {
    before.templates.Keys <= after.templates.Keys && before.wxs.Keys <= after.wxs.Keys &&
    (forall k :: k in before.templates ==> after.templates[k] == before.templates[k]) &&
    (forall k :: k in before.wxs ==> after.wxs[k] == before.wxs[k])
  }

  lemma ExtendsTransitive(a: TagName.Registries, b: TagName.Registries, c: TagName.Registries)
    requires Extends(a, b) && Extends(b, c)
    ensures Extends(a, c)
  {
  }

  // ---------------------------------------------------------------------
  // transform
  // ---------------------------------------------------------------------

  /** The `attribute` hook as the attributes pass calls it. */
  function Hook(ctx: ParseContext): AttributesPlugin.AttributeHook<AttributeHandlers.ElemState>
  {
    (s, a) => AttributeHandlers.Handle(ctx.handlers, s, a)
  }

  /** The attributes pass on an element: its attribute text and the element
   *  as the handlers leave it. */
  function AttributesPass(ctx: ParseContext, s: AttributeHandlers.ElemState, attribs: Record<string>): (string, AttributeHandlers.ElemState)
  {
    var prepared := AttributesPlugin.Prepared(attribs);
    var all := AttributesPlugin.FormatAll(Hook(ctx), s, AttributeRanking.Ranked(Keys(prepared)), prepared);
    (Join(all.1, " "), all.0)
  }

  /** `correctTemplateNode`'s first fix: an `image` or `img` element loses
   *  its children. */
  function CorrectedChildren(name: string, children: seq<TemplateNode>): seq<TemplateNode>
  {
    if name == "image" || name == "img" then [] else children
  }

  /** `transformTemplateNode`: `parent` is the collector of the node's
   *  parent, which its conditions are appended to. An error a handler
   *  throws ends the whole pass. */
  function TransformNode(ctx: ParseContext, st: ParseState, node: TemplateNode, parent: NodeCollector): (r: Result<Step>)
    ensures r.Ok? ==> Extends(st.registries, r.value.state.registries)
    decreases node, 1
  {
    match node
    case Element(name, attribs, children, isSingleTag) =>
      var kids := CorrectedChildren(name, children);
      var tagged := TagName.TagNameOf(ctx.tag, st.registries, name, attribs, kids);
      var st1 := st.(registries := tagged.registries);
      if tagged.h5Name == "" then
        Ok(Step(st1, parent, TransformedTag("", "", isSingleTag, InitNodeCollector(), None, [])))
      else
        var s0 := AttributeHandlers.ElemState(tagged.name, Some(InitNodeCollector()), None, Some(parent), st.nextGuid, None);
        var (attrContent, s1) := AttributesPass(ctx, s0, tagged.attribs);
        if s1.error.Some? then Err(s1.error.value)
        else
          var own := s1.collector.GetOr(InitNodeCollector());
          var st2 := st1.(nextGuid := s1.nextGuid);
          var inner := TransformNodes(ctx, st2, kids, own, node);
          if inner.Err? then Err(inner.error)
          else
            Ok(Step(inner.value.state, s1.parentCollector.GetOr(parent),
                    TransformedTag(tagged.h5Name, attrContent, isSingleTag, inner.value.parent, s1.matrixKey, inner.value.nodes)))
    case Text(data) => Ok(Step(st, parent, TransformedLeaf(Some(AttributeHandlers.TextContent(ctx.handlers, data)))))
    case Comment(data) => Ok(Step(st, parent, TransformedLeaf(Some(CommentContent(data)))))
    case Unhandled => Ok(Step(st, parent, TransformedLeaf(None)))
  }

  /** `transformComment`. */
  function CommentContent(data: string): string
  {
    "{/* " + data + " */}"
  }

  /** `transformTemplateNodes`: the siblings in order, each seeing the state
   *  and parent collector the previous one left. `owner` only bounds the
   *  recursion. */
  function TransformNodes(ctx: ParseContext, st: ParseState, nodes: seq<TemplateNode>, parent: NodeCollector,
                          ghost owner: TemplateNode): (r: Result<Steps>)
    requires forall i :: 0 <= i < |nodes| ==> nodes[i] < owner
    ensures r.Ok? ==> Extends(st.registries, r.value.state.registries) && |r.value.nodes| == |nodes|
    decreases owner, 0, |nodes|
  {
    if nodes == [] then Ok(Steps(st, parent, []))
    else
      match TransformNodes(ctx, st, nodes[..|nodes| - 1], parent, owner)
      case Err(e) => Err(e)
      case Ok(prev) =>
        match TransformNode(ctx, prev.state, nodes[|nodes| - 1], prev.parent)
        case Err(e) => Err(e)
        case Ok(step) =>
          ExtendsTransitive(st.registries, prev.state.registries, step.state.registries);
          Ok(Steps(step.state, step.parent, prev.nodes + [step.node]))
  }

  /** Once a sibling fails, the whole list fails with its error. */
  lemma {:induction false} FailureStops(ctx: ParseContext, st: ParseState, nodes: seq<TemplateNode>, parent: NodeCollector,
                                        owner: TemplateNode, k: nat)
    requires forall i :: 0 <= i < |nodes| ==> nodes[i] < owner
    requires k <= |nodes|
    requires TransformNodes(ctx, st, nodes[..k], parent, owner).Err?
    ensures TransformNodes(ctx, st, nodes, parent, owner) == TransformNodes(ctx, st, nodes[..k], parent, owner)
    decreases |nodes| - k
  {
    if k < |nodes| {
      assert nodes[..k + 1][..k] == nodes[..k];
      FailureStops(ctx, st, nodes, parent, owner, k + 1);
    } else {
      assert nodes[..k] == nodes;
    }
  }

  /** One more sibling: the list's result is the previous siblings' result
   *  followed by the new node's. */
  lemma NodesSnoc(ctx: ParseContext, st: ParseState, nodes: seq<TemplateNode>, parent: NodeCollector,
                  owner: TemplateNode, i: nat, prev: Steps)
    requires forall i :: 0 <= i < |nodes| ==> nodes[i] < owner
    requires i < |nodes|
    requires TransformNodes(ctx, st, nodes[..i], parent, owner) == Ok(prev)
    ensures TransformNode(ctx, prev.state, nodes[i], prev.parent).Err? ==>
              TransformNodes(ctx, st, nodes[..i + 1], parent, owner).Err? &&
              TransformNodes(ctx, st, nodes[..i + 1], parent, owner).error == TransformNode(ctx, prev.state, nodes[i], prev.parent).error
    ensures TransformNode(ctx, prev.state, nodes[i], prev.parent).Ok? ==>
              var step := TransformNode(ctx, prev.state, nodes[i], prev.parent).value;
              TransformNodes(ctx, st, nodes[..i + 1], parent, owner) == Ok(Steps(step.state, step.parent, prev.nodes + [step.node]))
  {
    assert nodes[..i + 1][..i] == nodes[..i];
  }

  /** The transform pass over one node, writing nothing but its result. */
  method TransformTemplateNode(ctx: ParseContext, st: ParseState, node: TemplateNode, parent: NodeCollector) returns (r: Result<Step>)
    ensures r == TransformNode(ctx, st, node, parent)
    decreases node, 1
  {
    match node {
      case Element(name, attribs, children, isSingleTag) =>
        var kids := CorrectedChildren(name, children);
        var tagged := TagName.TagNameOf(ctx.tag, st.registries, name, attribs, kids);
        var st1 := st.(registries := tagged.registries);
        if tagged.h5Name == "" {
          return Ok(Step(st1, parent, TransformedTag("", "", isSingleTag, InitNodeCollector(), None, [])));
        }
        var s0 := AttributeHandlers.ElemState(tagged.name, Some(InitNodeCollector()), None, Some(parent), st.nextGuid, None);
        var attributes := new AttributesPlugin.AttributeMap(tagged.attribs);
        var attrContent, s1 := AttributesPlugin.FormatAttributes(Hook(ctx), s0, attributes);
        if s1.error.Some? {
          return Err(s1.error.value);
        }
        var own := s1.collector.GetOr(InitNodeCollector());
        var st2 := st1.(nextGuid := s1.nextGuid);
        var inner := TransformTemplateNodes(ctx, st2, kids, own, node);
        if inner.Err? {
          return Err(inner.error);
        }
        r := Ok(Step(inner.value.state, s1.parentCollector.GetOr(parent),
                     TransformedTag(tagged.h5Name, attrContent, isSingleTag, inner.value.parent, s1.matrixKey, inner.value.nodes)));
      case Text(data) =>
        r := Ok(Step(st, parent, TransformedLeaf(Some(AttributeHandlers.TextContent(ctx.handlers, data)))));
      case Comment(data) =>
        r := Ok(Step(st, parent, TransformedLeaf(Some(CommentContent(data)))));
      case Unhandled =>
        r := Ok(Step(st, parent, TransformedLeaf(None)));
    }
  }

  /** The `for` loop of `transformTemplateNodes`. */
  method TransformTemplateNodes(ctx: ParseContext, st: ParseState, nodes: seq<TemplateNode>, parent: NodeCollector,
                                ghost owner: TemplateNode) returns (r: Result<Steps>)
    requires forall i :: 0 <= i < |nodes| ==> nodes[i] < owner
    ensures r == TransformNodes(ctx, st, nodes, parent, owner)
    decreases owner, 0, |nodes|
  {
    var state := st;
    var collector := parent;
    var out: seq<Transformed> := [];
    for i := 0 to |nodes|
      invariant TransformNodes(ctx, st, nodes[..i], parent, owner) == Ok(Steps(state, collector, out))
    {
      var step := TransformTemplateNode(ctx, state, nodes[i], collector);
      NodesSnoc(ctx, st, nodes, parent, owner, i, Steps(state, collector, out));
      if step.Err? {
        FailureStops(ctx, st, nodes, parent, owner, i + 1);
        return Err(step.error);
      }
      state, collector, out := step.value.state, step.value.parent, out + [step.value.node];
    }
    assert nodes[..|nodes|] == nodes;
    r := Ok(Steps(state, collector, out));
  }

  // ---------------------------------------------------------------------
  // generate
  // ---------------------------------------------------------------------

  /** The text of an element before the directives hook: `<N`, the
   *  attributes after one space when there are any, then `/>` for a
   *  self-closing tag or the children between `>` and `</N>`. */
  function TagText(h5Name: string, attrContent: string, isSingleTag: bool, childrenText: string): string
  {
    var open := "<" + h5Name + (if attrContent != "" then " " + attrContent else "");
    if isSingleTag then open + "/>" else open + ">" + childrenText + "</" + h5Name + ">"
  }

  /** `generateTemplateNode`: `conditions` is the parent collector's
   *  `conditions_children`. A node nobody handled prints its unset content,
   *  which JavaScript concatenates as `undefined`. */
  function GenerateNode(n: Transformed, conditions: seq<AttributeInfo>): string
    decreases n, 1
  {
    match n
    case TransformedLeaf(content) => if content.Some? then content.value else "undefined"
    case TransformedTag(h5Name, attrContent, isSingleTag, collector, matrixKey, children) =>
      if h5Name == "" then ""
      else
        var text := TagText(h5Name, attrContent, isSingleTag, GenerateNodes(children, collector.conditionsChildren, n));
        DirectivesPlugin.DirectivesText(text, Some(collector), Directives.SiblingsConditions(conditions, matrixKey))
  }

  /** `generateTemplateNodes`: the siblings' texts, concatenated in order. */
  function GenerateNodes(ns: seq<Transformed>, conditions: seq<AttributeInfo>, ghost owner: Transformed): string
    requires forall i :: 0 <= i < |ns| ==> ns[i] < owner
    decreases owner, 0, |ns|
  {
    if ns == [] then "" else GenerateNodes(ns[..|ns| - 1], conditions, owner) + GenerateNode(ns[|ns| - 1], conditions)
  }

  /** `generateTag` and `generateTemplateNode`. */
  method GenerateTemplateNode(n: Transformed, conditions: seq<AttributeInfo>) returns (content: string)
    ensures content == GenerateNode(n, conditions)
    decreases n, 1
  {
    match n {
      case TransformedLeaf(c) =>
        content := if c.Some? then c.value else "undefined";
      case TransformedTag(h5Name, attrContent, isSingleTag, collector, matrixKey, children) =>
        if h5Name == "" {
          return "";
        }
        content := "<" + h5Name;
        if attrContent != "" {
          content := content + " " + attrContent;
        }
        ghost var open := content;
        assert open == "<" + h5Name + (if attrContent != "" then " " + attrContent else "");
        ghost var childrenText := GenerateNodes(children, collector.conditionsChildren, n);
        if isSingleTag {
          content := content + "/>";
        } else {
          content := content + ">";
          var inner := "";
          if |children| > 0 {
            inner := GenerateTemplateNodes(children, collector.conditionsChildren, n);
          }
          content := content + inner;
          content := content + "</" + h5Name + ">";
          assert content == open + ">" + childrenText + "</" + h5Name + ">";
        }
        assert content == TagText(h5Name, attrContent, isSingleTag, childrenText);
        var after;
        content, after := DirectivesPlugin.ApplyDirectives(content, Some(collector), matrixKey, conditions);
    }
  }

  /** The accumulator loop of `generateTemplateNodes`. */
  method GenerateTemplateNodes(ns: seq<Transformed>, conditions: seq<AttributeInfo>, ghost owner: Transformed) returns (content: string)
    requires forall i :: 0 <= i < |ns| ==> ns[i] < owner
    ensures content == GenerateNodes(ns, conditions, owner)
    decreases owner, 0, |ns|
  {
    content := "";
    for i := 0 to |ns|
      invariant content == GenerateNodes(ns[..i], conditions, owner)
    {
      assert ns[..i + 1][..i] == ns[..i];
      var text := GenerateTemplateNode(ns[i], conditions);
      content := content + text;
    }
    assert ns[..|ns|] == ns;
  }

  // ---------------------------------------------------------------------
  // properties of the two passes
  // ---------------------------------------------------------------------

  /** The siblings' text splits where the list does. */
  lemma {:induction false} GenerateNodesAppend(a: seq<Transformed>, b: seq<Transformed>, conditions: seq<AttributeInfo>,
                                               owner: Transformed)
    requires forall i :: 0 <= i < |a| ==> a[i] < owner
    requires forall i :: 0 <= i < |b| ==> b[i] < owner
    ensures forall i :: 0 <= i < |a + b| ==> (a + b)[i] < owner
    ensures GenerateNodes(a + b, conditions, owner) == GenerateNodes(a, conditions, owner) + GenerateNodes(b, conditions, owner)
    decreases |b|
  {
    assert forall i :: 0 <= i < |a + b| ==> (a + b)[i] < owner by {
      forall i | 0 <= i < |a + b| ensures (a + b)[i] < owner {
        if i >= |a| { assert (a + b)[i] == b[i - |a|]; }
      }
    }
    if b == [] {
      assert a + b == a;
    } else {
      var b' := b[..|b| - 1];
      assert (a + b)[..|a + b| - 1] == a + b';
      assert (a + b)[|a + b| - 1] == b[|b| - 1];
      GenerateNodesAppend(a, b', conditions, owner);
    }
  }

  /** An element whose collector holds no directive prints as its own tag:
   *  `<N attrs>` and the children's text and `</N>`, or `<N attrs/>`. */
  lemma PlainElementText(h5Name: string, attrContent: string, isSingleTag: bool, collector: NodeCollector,
                         matrixKey: Option<string>, children: seq<Transformed>, conditions: seq<AttributeInfo>)
    requires h5Name != "" && collector.directives == []
    ensures var n := TransformedTag(h5Name, attrContent, isSingleTag, collector, matrixKey, children);
      var open := "<" + h5Name + (if attrContent != "" then " " + attrContent else "");
      GenerateNode(n, conditions) ==
        if isSingleTag then open + "/>"
        else open + ">" + GenerateNodes(children, collector.conditionsChildren, n) + "</" + h5Name + ">"
  {
    var n := TransformedTag(h5Name, attrContent, isSingleTag, collector, matrixKey, children);
    var text := TagText(h5Name, attrContent, isSingleTag, GenerateNodes(children, collector.conditionsChildren, n));
    DirectivesPlugin.NoDirectivesKeepsText(text, Some(collector), Directives.SiblingsConditions(conditions, matrixKey));
  }

  /** A comment prints as a JSX comment, and a node nobody handles as
   *  `undefined`; neither changes the state or the parent's collector. */
  lemma LeafText(ctx: ParseContext, st: ParseState, data: string, parent: NodeCollector, conditions: seq<AttributeInfo>)
    ensures var r := TransformNode(ctx, st, Comment(data), parent);
      r.Ok? && r.value.state == st && r.value.parent == parent &&
      GenerateNode(r.value.node, conditions) == "{/* " + data + " */}"
    ensures var r := TransformNode(ctx, st, Unhandled, parent);
      r.Ok? && r.value.state == st && r.value.parent == parent &&
      GenerateNode(r.value.node, conditions) == "undefined"
  {
  }

  /** An element left without an H5 name is skipped: no attribute handler
   *  runs and no child is visited, so no key is drawn and the parent's
   *  collector is as before, and it prints nothing. */
  lemma UnnamedElementSkipped(ctx: ParseContext, st: ParseState, name: string, attribs: Record<string>,
                              children: seq<TemplateNode>, isSingleTag: bool, parent: NodeCollector,
                              conditions: seq<AttributeInfo>)
    requires TagName.TagNameOf(ctx.tag, st.registries, name, attribs, CorrectedChildren(name, children)).h5Name == ""
    ensures var r := TransformNode(ctx, st, Element(name, attribs, children, isSingleTag), parent);
      r.Ok? && r.value.state.nextGuid == st.nextGuid && r.value.parent == parent &&
      r.value.node.TransformedTag? && r.value.node.children == [] &&
      GenerateNode(r.value.node, conditions) == ""
  {
  }

  /** An `image` or `img` element is transformed without its children. */
  lemma ImageHasNoChildren(ctx: ParseContext, st: ParseState, name: string, attribs: Record<string>,
                           children: seq<TemplateNode>, isSingleTag: bool, parent: NodeCollector)
    requires name == "image" || name == "img"
    ensures var r := TransformNode(ctx, st, Element(name, attribs, children, isSingleTag), parent);
      r.Ok? ==> r.value.node.TransformedTag? && r.value.node.children == []
  {
    assert CorrectedChildren(name, children) == [];
  }

  /** A `<template>` declaration (one without `is`) or a `<wxs>` module:
   *  markup that registers something and renders nothing. */
  predicate Declaration(n: TemplateNode)
  {
    n.Element? &&
    ((n.name == "template" && (Get(n.attribs, "is").None? || Get(n.attribs, "is") == Some(""))) || n.name == "wxs")
  }

  /** Declarations are skipped one after the other. */
  lemma {:induction false} DeclarationsSkipped(ctx: ParseContext, st: ParseState, nodes: seq<TemplateNode>,
                                               parent: NodeCollector, owner: TemplateNode)
    requires "template" !in ctx.tag.transforms && "wxs" !in ctx.tag.transforms
    requires forall i :: 0 <= i < |nodes| ==> nodes[i] < owner && Declaration(nodes[i])
    ensures var r := TransformNodes(ctx, st, nodes, parent, owner);
      r.Ok? && r.value.parent == parent &&
      forall i :: 0 <= i < |r.value.nodes| ==> r.value.nodes[i].TransformedTag? && r.value.nodes[i].h5Name == ""
    decreases |nodes|
  {
    if nodes != [] {
      var front := nodes[..|nodes| - 1];
      DeclarationsSkipped(ctx, st, front, parent, owner);
      var prev := TransformNodes(ctx, st, front, parent, owner).value;
      DeclarationSkipped(ctx, prev.state, nodes[|nodes| - 1], prev.parent);
    }
  }

  /** One declaration is skipped. */
  lemma DeclarationSkipped(ctx: ParseContext, st: ParseState, n: TemplateNode, parent: NodeCollector)
    requires "template" !in ctx.tag.transforms && "wxs" !in ctx.tag.transforms
    requires Declaration(n)
    ensures var r := TransformNode(ctx, st, n, parent);
      r.Ok? && r.value.parent == parent && r.value.node.TransformedTag? && r.value.node.h5Name == ""
  {
    var tagged := TagName.TagNameOf(ctx.tag, st.registries, n.name, n.attribs, CorrectedChildren(n.name, n.children));
    assert tagged.h5Name == "";
  }

  /** Siblings that all print nothing print nothing together. */
  lemma {:induction false} SkippedPrintNothing(ns: seq<Transformed>, conditions: seq<AttributeInfo>, owner: Transformed)
    requires forall i :: 0 <= i < |ns| ==> ns[i] < owner && ns[i].TransformedTag? && ns[i].h5Name == ""
    ensures GenerateNodes(ns, conditions, owner) == ""
    decreases |ns|
  {
    if ns != [] {
      SkippedPrintNothing(ns[..|ns| - 1], conditions, owner);
    }
  }

  // ---------------------------------------------------------------------
  // parseTemplate
  // ---------------------------------------------------------------------

  /** What a successful parse leaves on the compilation: the JSX text and
   *  the registries and key counter as the transform left them. */
  datatype Parsed = Parsed(templateJsxContent: string, state: ParseState)

  /** The message of the error thrown on an empty result. */
  const PARSE_FAILED: string := "wxml解析失败!"

  /** The root, standing in as the owner of the top-level nodes. */
  function Root(roots: seq<TemplateNode>): TemplateNode
  {
    Element("", [], roots, false)
  }

  function RootOf(nodes: seq<Transformed>): Transformed
  {
    TransformedTag("", "", false, InitNodeCollector(), None, nodes)
  }

  /** The `parseTemplate` tap on a parsed file: the top-level nodes share
   *  the root's collector, which `correctTemplateNode` creates empty; an
   *  error in the transform, or an empty text, fails the parse. */
  function ParseResult(ctx: ParseContext, st: ParseState, roots: seq<TemplateNode>): (r: Result<Parsed>)
    ensures r.Ok? ==> r.value.templateJsxContent != ""
    ensures r.Ok? ==> Extends(st.registries, r.value.state.registries)
  {
    match TransformNodes(ctx, st, roots, InitNodeCollector(), Root(roots))
    case Err(e) => Err(e)
    case Ok(steps) =>
      var content := GenerateNodes(steps.nodes, steps.parent.conditionsChildren, RootOf(steps.nodes));
      if content != "" then Ok(Parsed(content, steps.state)) else Err(PARSE_FAILED)
  }

  method ParseTemplate(ctx: ParseContext, st: ParseState, roots: seq<TemplateNode>) returns (r: Result<Parsed>)
    ensures r == ParseResult(ctx, st, roots)
  {
    var astNodes := TransformTemplateNodes(ctx, st, roots, InitNodeCollector(), Root(roots));
    if astNodes.Err? {
      return Err(astNodes.error);
    }
    var steps := astNodes.value;
    var content := GenerateTemplateNodes(steps.nodes, steps.parent.conditionsChildren, RootOf(steps.nodes));
    if content != "" {
      r := Ok(Parsed(content, steps.state));
    } else {
      r := Err(PARSE_FAILED);
    }
  }

  /** A file holding nothing but `<template>` declarations and `<wxs>`
   *  modules, with no text between them, prints nothing and so fails the
   *  parse, although every declaration is registered. */
  lemma DeclarationsOnlyFail(ctx: ParseContext, st: ParseState, roots: seq<TemplateNode>)
    requires "template" !in ctx.tag.transforms && "wxs" !in ctx.tag.transforms
    requires forall i :: 0 <= i < |roots| ==> Declaration(roots[i])
    ensures ParseResult(ctx, st, roots) == Err(PARSE_FAILED)
  {
    DeclarationsSkipped(ctx, st, roots, InitNodeCollector(), Root(roots));
    var steps := TransformNodes(ctx, st, roots, InitNodeCollector(), Root(roots)).value;
    SkippedPrintNothing(steps.nodes, steps.parent.conditionsChildren, RootOf(steps.nodes));
  }
}
