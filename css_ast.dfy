/** The trees the two postcss passes work on, as postcss and
 *  postcss-selector-parser hand them over. Parsing and printing are not
 *  modelled: a rule carries its selector already parsed. */
module CssAst {

  /** A node of a parsed selector. `OtherSel` stands for the node types the
   *  passes leave alone (combinators, attributes, the universal selector,
   *  strings, comments, nesting). */
  datatype SelNode =
    | SelRoot(nodes: seq<SelNode>)
    | Selector(nodes: seq<SelNode>)
    | Id(value: string)
    | ClassName(value: string)
    | Tag(value: string)
    | Pseudo(value: string, nodes: seq<SelNode>)
    | OtherSel(kind: string, value: string)

  /** A node of a stylesheet. */
  datatype CssNode =
    | Rule(selector: SelNode, nodes: seq<CssNode>)
    | AtRule(name: string, params: string, nodes: seq<CssNode>)
    | Decl(prop: string, value: string)
    | Comment(text: string)
}
