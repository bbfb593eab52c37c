/** packages/core/src/parsers/style/postcssReplaceClassNamePlugin.ts: the
 *  stylesheet half of style isolation. Every class and id selector of every
 *  rule gets the `__<component>` suffix its markup received; inside
 *  `::part(...)` the tag names do. Other pseudo-classes are not entered, so
 *  `.a:not(.b)` keeps `.b` as written. */
module ReplaceClassName {
  import opened Strings
  import opened CssAst

  /** The suffix a scoped name receives. */
  function Suffix(componentName: string): string
  {
    "__" + componentName
  }

  /** `traversePartNode`: inside `::part`, selectors are entered and tag
   *  names suffixed; nothing else changes. */
  function TraversePartNode(node: SelNode, componentName: string): (r: SelNode)
    ensures r.Selector? <==> node.Selector?
    decreases node
  {
    match node
    case Selector(nodes) =>
      Selector(seq(|nodes|, i requires 0 <= i < |nodes| => TraversePartNode(nodes[i], componentName)))
    case Tag(value) => if componentName != "" then Tag(value + Suffix(componentName)) else node
    case _ => node
  }

  /** `traverseNode`: the root and selectors are entered, class and id
   *  names suffixed, and only `::part` pseudos entered (by
   *  `traversePartNode`). An empty component name changes nothing. */
  function TraverseNode(node: SelNode, componentName: string): (r: SelNode)
    decreases node
  {
    match node
    case SelRoot(nodes) =>
      SelRoot(seq(|nodes|, i requires 0 <= i < |nodes| => TraverseNode(nodes[i], componentName)))
    case Selector(nodes) =>
      Selector(seq(|nodes|, i requires 0 <= i < |nodes| => TraverseNode(nodes[i], componentName)))
    case Id(value) => if componentName != "" then Id(value + Suffix(componentName)) else node
    case ClassName(value) => if componentName != "" then ClassName(value + Suffix(componentName)) else node
    case Pseudo(value, nodes) =>
      if value == "::part" then
        Pseudo(value, seq(|nodes|, i requires 0 <= i < |nodes| => TraversePartNode(nodes[i], componentName)))
      else node
    case _ => node
  }

  /** The plugin's `walkRules`: every rule's selector, at any depth,
   *  rewritten; declarations, at-rules and comments as they were. */
  function ReplaceRules(node: CssNode, componentName: string): (r: CssNode)
    decreases node
  {
    match node
    case Rule(selector, nodes) =>
      Rule(TraverseNode(selector, componentName),
           seq(|nodes|, i requires 0 <= i < |nodes| => ReplaceRules(nodes[i], componentName)))
    case AtRule(name, params, nodes) =>
      AtRule(name, params, seq(|nodes|, i requires 0 <= i < |nodes| => ReplaceRules(nodes[i], componentName)))
    case _ => node
  }

  // ---------------------------------------------------------------------
  // an independent inverse: stripping one suffix
  // ---------------------------------------------------------------------

  /** A name with one `__<component>` suffix removed, if it has one. */
  function Unsuffix(value: string, componentName: string): (v: string)
    ensures v + Suffix(componentName) == value || v == value
  {
    var s := Suffix(componentName);
    if componentName != "" && EndsWith(value, s) then
      assert value[..|value| - |s|] + value[|value| - |s|..] == value;
      value[..|value| - |s|]
    else value
  }

  function UnscopePart(node: SelNode, componentName: string): SelNode
    decreases node
  {
    match node
    case Selector(nodes) =>
      Selector(seq(|nodes|, i requires 0 <= i < |nodes| => UnscopePart(nodes[i], componentName)))
    case Tag(value) => Tag(Unsuffix(value, componentName))
    case _ => node
  }

  /** The selector with every scoped name's suffix stripped, searched in
   *  the places the rewrite reaches. */
  function Unscope(node: SelNode, componentName: string): SelNode
    decreases node
  {
    match node
    case SelRoot(nodes) =>
      SelRoot(seq(|nodes|, i requires 0 <= i < |nodes| => Unscope(nodes[i], componentName)))
    case Selector(nodes) =>
      Selector(seq(|nodes|, i requires 0 <= i < |nodes| => Unscope(nodes[i], componentName)))
    case Id(value) => Id(Unsuffix(value, componentName))
    case ClassName(value) => ClassName(Unsuffix(value, componentName))
    case Pseudo(value, nodes) =>
      if value == "::part" then
        Pseudo(value, seq(|nodes|, i requires 0 <= i < |nodes| => UnscopePart(nodes[i], componentName)))
      else node
    case _ => node
  }

  lemma SuffixStripped(value: string, componentName: string)
    requires componentName != ""
    ensures Unsuffix(value + Suffix(componentName), componentName) == value
  {
    var v := value + Suffix(componentName);
    assert v[|v| - |Suffix(componentName)|..] == Suffix(componentName);
    assert v[..|v| - |Suffix(componentName)|] == value;
  }

  lemma {:induction false} PartRoundTrip(node: SelNode, componentName: string)
    requires componentName != ""
    ensures UnscopePart(TraversePartNode(node, componentName), componentName) == node
    decreases node
  {
    match node
    case Selector(nodes) =>
      forall i | 0 <= i < |nodes| { PartRoundTrip(nodes[i], componentName); }
      assert UnscopePart(TraversePartNode(node, componentName), componentName).nodes == nodes;
    case Tag(value) => SuffixStripped(value, componentName);
    case _ =>
  }

  /** Nothing is lost by the rewrite: stripping one suffix from each name
   *  it reaches gives the selector back. */
  lemma {:induction false} ScopeRoundTrip(node: SelNode, componentName: string)
    requires componentName != ""
    ensures Unscope(TraverseNode(node, componentName), componentName) == node
    decreases node
  {
    match node
    case SelRoot(nodes) =>
      forall i | 0 <= i < |nodes| { ScopeRoundTrip(nodes[i], componentName); }
      assert Unscope(TraverseNode(node, componentName), componentName).nodes == nodes;
    case Selector(nodes) =>
      forall i | 0 <= i < |nodes| { ScopeRoundTrip(nodes[i], componentName); }
      assert Unscope(TraverseNode(node, componentName), componentName).nodes == nodes;
    case Id(value) => SuffixStripped(value, componentName);
    case ClassName(value) => SuffixStripped(value, componentName);
    case Pseudo(value, nodes) =>
      if value == "::part" {
        forall i | 0 <= i < |nodes| { PartRoundTrip(nodes[i], componentName); }
        assert Unscope(TraverseNode(node, componentName), componentName).nodes == nodes;
      }
    case _ =>
  }

  lemma {:induction false} PartUnscoped(node: SelNode)
    ensures TraversePartNode(node, "") == node
    decreases node
  {
    match node
    case Selector(nodes) =>
      forall i | 0 <= i < |nodes| { PartUnscoped(nodes[i]); }
      assert TraversePartNode(node, "").nodes == nodes;
    case _ =>
  }

  /** Without isolation the pass passes every selector through as it is. */
  lemma {:induction false} EmptyNameUnchanged(node: SelNode)
    ensures TraverseNode(node, "") == node
    decreases node
  {
    match node
    case SelRoot(nodes) =>
      forall i | 0 <= i < |nodes| { EmptyNameUnchanged(nodes[i]); }
      assert TraverseNode(node, "").nodes == nodes;
    case Selector(nodes) =>
      forall i | 0 <= i < |nodes| { EmptyNameUnchanged(nodes[i]); }
      assert TraverseNode(node, "").nodes == nodes;
    case Pseudo(value, nodes) =>
      if value == "::part" {
        forall i | 0 <= i < |nodes| { PartUnscoped(nodes[i]); }
        assert TraverseNode(node, "").nodes == nodes;
      }
    case _ =>
  }

  /** Without isolation the whole stylesheet passes through unchanged. */
  lemma {:induction false} EmptyNameKeepsStylesheet(node: CssNode)
    ensures ReplaceRules(node, "") == node
    decreases node
  {
    match node
    case Rule(selector, nodes) =>
      EmptyNameUnchanged(selector);
      forall i | 0 <= i < |nodes| { EmptyNameKeepsStylesheet(nodes[i]); }
      assert ReplaceRules(node, "").nodes == nodes;
    case AtRule(_, _, nodes) =>
      forall i | 0 <= i < |nodes| { EmptyNameKeepsStylesheet(nodes[i]); }
      assert ReplaceRules(node, "").nodes == nodes;
    case _ =>
  }

  // ---------------------------------------------------------------------
  // every name the rewrite reaches carries the suffix
  // ---------------------------------------------------------------------

  /** Every tag inside a `::part` selector ends with the suffix. */
  predicate PartScoped(node: SelNode, componentName: string)
    decreases node
  {
    match node
    case Selector(nodes) => forall i :: 0 <= i < |nodes| ==> PartScoped(nodes[i], componentName)
    case Tag(value) => EndsWith(value, Suffix(componentName))
    case _ => true
  }

  /** Every class and id of the selector ends with the suffix, and so does
   *  every tag inside `::part`; other pseudos are not looked into. */
  predicate Scoped(node: SelNode, componentName: string)
    decreases node
  {
    match node
    case SelRoot(nodes) => forall i :: 0 <= i < |nodes| ==> Scoped(nodes[i], componentName)
    case Selector(nodes) => forall i :: 0 <= i < |nodes| ==> Scoped(nodes[i], componentName)
    case Id(value) => EndsWith(value, Suffix(componentName))
    case ClassName(value) => EndsWith(value, Suffix(componentName))
    case Pseudo(value, nodes) =>
      value == "::part" ==> forall i :: 0 <= i < |nodes| ==> PartScoped(nodes[i], componentName)
    case _ => true
  }

  /** Every rule's selector, at any depth, is scoped. */
  predicate SheetScoped(node: CssNode, componentName: string)
    decreases node
  {
    match node
    case Rule(selector, nodes) =>
      Scoped(selector, componentName) && forall i :: 0 <= i < |nodes| ==> SheetScoped(nodes[i], componentName)
    case AtRule(_, _, nodes) => forall i :: 0 <= i < |nodes| ==> SheetScoped(nodes[i], componentName)
    case _ => true
  }

  lemma SuffixEnds(value: string, componentName: string)
    ensures EndsWith(value + Suffix(componentName), Suffix(componentName))
  {
    var v := value + Suffix(componentName);
    assert v[|v| - |Suffix(componentName)|..] == Suffix(componentName);
  }

  lemma {:induction false} PartScopes(node: SelNode, componentName: string)
    requires componentName != ""
    ensures PartScoped(TraversePartNode(node, componentName), componentName)
    decreases node
  {
    match node
    case Selector(nodes) =>
      forall i | 0 <= i < |nodes| ensures PartScoped(TraversePartNode(nodes[i], componentName), componentName) {
        PartScopes(nodes[i], componentName);
      }
    case Tag(value) => SuffixEnds(value, componentName);
    case _ =>
  }

  /** With isolation on, every class and id the selector pass reaches ends
   *  with `__<component>`, as does every tag inside `::part`. */
  lemma {:induction false} TraverseScopes(node: SelNode, componentName: string)
    requires componentName != ""
    ensures Scoped(TraverseNode(node, componentName), componentName)
    decreases node
  {
    match node
    case SelRoot(nodes) =>
      forall i | 0 <= i < |nodes| ensures Scoped(TraverseNode(nodes[i], componentName), componentName) {
        TraverseScopes(nodes[i], componentName);
      }
    case Selector(nodes) =>
      forall i | 0 <= i < |nodes| ensures Scoped(TraverseNode(nodes[i], componentName), componentName) {
        TraverseScopes(nodes[i], componentName);
      }
    case Id(value) => SuffixEnds(value, componentName);
    case ClassName(value) => SuffixEnds(value, componentName);
    case Pseudo(value, nodes) =>
      if value == "::part" {
        forall i | 0 <= i < |nodes| ensures PartScoped(TraversePartNode(nodes[i], componentName), componentName) {
          PartScopes(nodes[i], componentName);
        }
      }
    case _ =>
  }

  /** With isolation on, every rule of the stylesheet, nested in at-rules
   *  or not, comes out scoped. */
  lemma {:induction false} StylesheetScoped(node: CssNode, componentName: string)
    requires componentName != ""
    ensures SheetScoped(ReplaceRules(node, componentName), componentName)
    decreases node
  {
    match node
    case Rule(selector, nodes) =>
      TraverseScopes(selector, componentName);
      forall i | 0 <= i < |nodes| ensures SheetScoped(ReplaceRules(nodes[i], componentName), componentName) {
        StylesheetScoped(nodes[i], componentName);
      }
    case AtRule(_, _, nodes) =>
      forall i | 0 <= i < |nodes| ensures SheetScoped(ReplaceRules(nodes[i], componentName), componentName) {
        StylesheetScoped(nodes[i], componentName);
      }
    case _ =>
  }

  /** A pseudo other than `::part` is passed through as written, whatever
   *  it contains. */
  lemma OtherPseudoUntouched(value: string, nodes: seq<SelNode>, componentName: string)
    requires value != "::part"
    ensures TraverseNode(Pseudo(value, nodes), componentName) == Pseudo(value, nodes)
  {
  }
}
