/** packages/core/src/parsers/style/postcssAdjustRemPlugin.ts: every length
 *  in `px` or `rpx` in a declaration becomes a call of the runtime's `rem`,
 *  written as a template-literal expression (the stylesheet ends up inside
 *  a template literal, see StyleParser.CssModuleContent). The declarations
 *  rewritten are those `walkDecls` finds below each rule `walkRules` finds,
 *  so a declaration directly under an at-rule is left alone and one under
 *  nested rules is rewritten once per enclosing rule. */
module AdjustRem {
  import opened Strings
  import opened CssAst
  import Utils

  /** The text put in place of one `digits + unit` match. */
  function RemExpression(numberUnit: string): string
  {
    "${rem(\"" + numberUnit + "\")}"
  }

  /** `replaceStyleRem`. */
  function ReplaceStyleRem(value: string): string
  {
    if Utils.HasUnitMatch(value) then Utils.RewriteUnits(value, RemExpression) else value
  }

  /** A lone length becomes one call of `rem`. */
  lemma ReplaceStyleRemSingle(digits: string, unit: string)
    requires digits != [] && forall i :: 0 <= i < |digits| ==> IsDigit(digits[i])
    requires unit == "px" || unit == "rpx"
    ensures ReplaceStyleRem(digits + unit) == RemExpression(digits + unit)
  {
    Utils.RewriteUnitsSingle(digits, unit, RemExpression);
    UnitMatchOfLength(digits, unit);
    MatchAfter([], digits + unit);
    assert [] + (digits + unit) == digits + unit;
  }

  /** In `1.5px` only the digits next to the unit are taken. */
  lemma ReplaceStyleRemDecimal(digits: string, intPart: string, unit: string)
    requires digits != [] && forall i :: 0 <= i < |digits| ==> IsDigit(digits[i])
    requires forall i :: 0 <= i < |intPart| ==> IsDigit(intPart[i])
    requires unit == "px" || unit == "rpx"
    ensures ReplaceStyleRem(intPart + "." + digits + unit) == intPart + "." + RemExpression(digits + unit)
  {
    Utils.RewriteUnitsDecimal(intPart, digits, unit, RemExpression);
    UnitMatchOfLength(digits, unit);
    MatchAfter(intPart + ".", digits + unit);
    assert intPart + "." + digits + unit == (intPart + ".") + (digits + unit);
  }

  lemma UnitMatchOfLength(digits: string, unit: string)
    requires digits != [] && forall i :: 0 <= i < |digits| ==> IsDigit(digits[i])
    requires unit == "px" || unit == "rpx"
    ensures Utils.UnitMatchAt(digits + unit)
  {
    Utils.DigitRunOfPrefix(digits, unit);
    assert (digits + unit)[|digits|..] == unit;
  }

  lemma {:induction false} MatchAfter(a: string, s: string)
    requires s != [] && Utils.UnitMatchAt(s)
    ensures Utils.HasUnitMatch(a + s)
    decreases |a|
  {
    if a == [] {
      assert a + s == s;
    } else {
      assert (a + s)[1..] == a[1..] + s;
      MatchAfter(a[1..], s);
    }
  }

  /** `node.walkDecls(decl => decl.value = replaceStyleRem(decl.value))`:
   *  every declaration below the node rewritten. */
  function WalkDecls(node: CssNode): (r: CssNode)
    decreases node
  {
    match node
    case Decl(prop, value) => Decl(prop, ReplaceStyleRem(value))
    case Rule(selector, nodes) =>
      Rule(selector, seq(|nodes|, i requires 0 <= i < |nodes| => WalkDecls(nodes[i])))
    case AtRule(name, params, nodes) =>
      AtRule(name, params, seq(|nodes|, i requires 0 <= i < |nodes| => WalkDecls(nodes[i])))
    case Comment(_) => node
  }

  /** `replaceStyleRem` applied `k` times. */
  function RemTimes(k: nat, value: string): string
  {
    if k == 0 then value else RemTimes(k - 1, ReplaceStyleRem(value))
  }

  /** The walk below a node enclosed by `k` rules: each declaration is
   *  rewritten once for every rule above it. */
  function AdjustUnder(node: CssNode, k: nat): (r: CssNode)
    decreases node
  {
    match node
    case Decl(prop, value) => Decl(prop, RemTimes(k, value))
    case Rule(selector, nodes) =>
      Rule(selector, seq(|nodes|, i requires 0 <= i < |nodes| => AdjustUnder(nodes[i], k + 1)))
    case AtRule(name, params, nodes) =>
      AtRule(name, params, seq(|nodes|, i requires 0 <= i < |nodes| => AdjustUnder(nodes[i], k)))
    case Comment(_) => node
  }

  /** `root.walkRules(rule => rule.walkDecls(...))` over a stylesheet. */
  function AdjustRem(node: CssNode): CssNode
  {
    AdjustUnder(node, 0)
  }

  lemma {:induction false} RemTimesAfter(k: nat, value: string)
    ensures RemTimes(k, ReplaceStyleRem(value)) == RemTimes(k + 1, value)
  {
  }

  lemma {:induction false} WalkThenAdjust(node: CssNode, k: nat)
    ensures AdjustUnder(WalkDecls(node), k) == AdjustUnder(node, k + 1)
    decreases node
  {
    match node
    case Decl(_, value) => RemTimesAfter(k, value);
    case Rule(_, nodes) =>
      forall i | 0 <= i < |nodes| { WalkThenAdjust(nodes[i], k + 1); }
      assert AdjustUnder(WalkDecls(node), k).nodes == AdjustUnder(node, k + 1).nodes;
    case AtRule(_, _, nodes) =>
      forall i | 0 <= i < |nodes| { WalkThenAdjust(nodes[i], k); }
      assert AdjustUnder(WalkDecls(node), k).nodes == AdjustUnder(node, k + 1).nodes;
    case Comment(_) =>
  }

  /** The closed form is the walk the plugin performs: at each rule, all
   *  declarations below it are rewritten, and the walk goes on into the
   *  rewritten children; at-rules are only passed through. */
  lemma WalkEquations(selector: SelNode, name: string, params: string, nodes: seq<CssNode>)
    ensures AdjustRem(Rule(selector, nodes))
      == Rule(selector, seq(|nodes|, i requires 0 <= i < |nodes| => AdjustRem(WalkDecls(nodes[i]))))
    ensures AdjustRem(AtRule(name, params, nodes))
      == AtRule(name, params, seq(|nodes|, i requires 0 <= i < |nodes| => AdjustRem(nodes[i])))
  {
    forall i | 0 <= i < |nodes| ensures AdjustRem(WalkDecls(nodes[i])) == AdjustUnder(nodes[i], 1) {
      WalkThenAdjust(nodes[i], 0);
    }
    assert AdjustRem(Rule(selector, nodes)).nodes
      == seq(|nodes|, i requires 0 <= i < |nodes| => AdjustRem(WalkDecls(nodes[i])));
  }

  // ---------------------------------------------------------------------
  // properties
  // ---------------------------------------------------------------------

  /** No declaration value below the node holds a length. */
  predicate NoLengths(node: CssNode)
    decreases node
  {
    match node
    case Decl(_, value) => !Utils.HasUnitMatch(value)
    case Rule(_, nodes) => forall i :: 0 <= i < |nodes| ==> NoLengths(nodes[i])
    case AtRule(_, _, nodes) => forall i :: 0 <= i < |nodes| ==> NoLengths(nodes[i])
    case Comment(_) => true
  }

  lemma {:induction false} RemTimesWithoutLength(k: nat, value: string)
    requires !Utils.HasUnitMatch(value)
    ensures RemTimes(k, value) == value
  {
    if k > 0 {
      RemTimesWithoutLength(k - 1, value);
    }
  }

  lemma {:induction false} AdjustUnderWithoutLengths(node: CssNode, k: nat)
    requires NoLengths(node)
    ensures AdjustUnder(node, k) == node
    decreases node
  {
    match node
    case Decl(_, value) => RemTimesWithoutLength(k, value);
    case Rule(_, nodes) =>
      forall i | 0 <= i < |nodes| { AdjustUnderWithoutLengths(nodes[i], k + 1); }
      assert AdjustUnder(node, k).nodes == nodes;
    case AtRule(_, _, nodes) =>
      forall i | 0 <= i < |nodes| { AdjustUnderWithoutLengths(nodes[i], k); }
      assert AdjustUnder(node, k).nodes == nodes;
    case Comment(_) =>
  }

  /** A stylesheet without lengths passes through unchanged. */
  lemma AdjustRemWithoutLengths(node: CssNode)
    requires NoLengths(node)
    ensures AdjustRem(node) == node
  {
    AdjustUnderWithoutLengths(node, 0);
  }

  /** The rewrite keeps the tree: the same nodes, selectors and
   *  properties, only declaration values differ. */
  predicate SameShape(a: CssNode, b: CssNode)
    decreases a
  {
    match a
    case Decl(prop, _) => b.Decl? && b.prop == prop
    case Rule(selector, nodes) =>
      b.Rule? && b.selector == selector && |b.nodes| == |nodes| &&
      forall i :: 0 <= i < |nodes| ==> SameShape(nodes[i], b.nodes[i])
    case AtRule(name, params, nodes) =>
      b.AtRule? && b.name == name && b.params == params && |b.nodes| == |nodes| &&
      forall i :: 0 <= i < |nodes| ==> SameShape(nodes[i], b.nodes[i])
    case Comment(_) => b == a
  }

  lemma {:induction false} WalkDeclsShape(node: CssNode)
    ensures SameShape(node, WalkDecls(node))
    decreases node
  {
    match node
    case Rule(_, nodes) => forall i | 0 <= i < |nodes| { WalkDeclsShape(nodes[i]); }
    case AtRule(_, _, nodes) => forall i | 0 <= i < |nodes| { WalkDeclsShape(nodes[i]); }
    case _ =>
  }

  lemma {:induction false} AdjustUnderShape(node: CssNode, k: nat)
    ensures SameShape(node, AdjustUnder(node, k))
    decreases node
  {
    match node
    case Rule(_, nodes) => forall i | 0 <= i < |nodes| { AdjustUnderShape(nodes[i], k + 1); }
    case AtRule(_, _, nodes) => forall i | 0 <= i < |nodes| { AdjustUnderShape(nodes[i], k); }
    case _ =>
  }

  /** The rewrite keeps every node, selector and property. */
  lemma AdjustRemShape(node: CssNode)
    ensures SameShape(node, AdjustRem(node))
  {
    AdjustUnderShape(node, 0);
  }

  /** How often each declaration is rewritten: once under a rule; not at
   *  all directly under an at-rule such as `@font-face`; twice under a
   *  rule nested in a rule. */
  lemma RewriteCounts(selector: SelNode, inner: SelNode, name: string, params: string, prop: string, value: string)
    ensures AdjustRem(Rule(selector, [Decl(prop, value)])) == Rule(selector, [Decl(prop, ReplaceStyleRem(value))])
    ensures AdjustRem(AtRule(name, params, [Decl(prop, value)])) == AtRule(name, params, [Decl(prop, value)])
    ensures AdjustRem(Rule(selector, [Rule(inner, [Decl(prop, value)])]))
      == Rule(selector, [Rule(inner, [Decl(prop, ReplaceStyleRem(ReplaceStyleRem(value)))])])
  {
    var d := Decl(prop, value);
    assert RemTimes(1, value) == ReplaceStyleRem(value);
    assert RemTimes(2, value) == ReplaceStyleRem(ReplaceStyleRem(value)) by {
      assert RemTimes(2, value) == RemTimes(1, ReplaceStyleRem(value));
    }
    assert AdjustUnder(d, 1) == Decl(prop, ReplaceStyleRem(value));
    assert AdjustUnder(d, 0) == d;
    assert AdjustUnder(d, 2) == Decl(prop, ReplaceStyleRem(ReplaceStyleRem(value)));
    assert AdjustRem(Rule(selector, [d])).nodes == [AdjustUnder(d, 1)];
    assert AdjustRem(AtRule(name, params, [d])).nodes == [AdjustUnder(d, 0)];
    assert AdjustUnder(Rule(inner, [d]), 1).nodes == [AdjustUnder(d, 2)];
    assert AdjustRem(Rule(selector, [Rule(inner, [d])])).nodes == [AdjustUnder(Rule(inner, [d]), 1)];
  }
}
