/** The walk of packages/core/src/parsers/template/collectThisData.ts: the
 *  identifiers of a `{{ }}` expression that may name component data, found
 *  by a recursive dispatch on the node type. The expression tree is what the
 *  expression parser returns; only the node kinds the walk distinguishes are
 *  kept apart. */
module CollectThisData {

  datatype Expr =
    | Identifier(name: string)
    | Member(obj: Expr, property: Expr, computed: bool)
    | Binary(left: Expr, right: Expr)
    | Conditional(test: Expr, consequent: Expr, alternate: Expr)
    | Logical(left: Expr, right: Expr)
    | Unary(argument: Expr)
    | Call(callee: Expr, arguments: seq<Expr>)
    | ObjectExpr(properties: seq<Expr>)
    | ObjectProperty(key: Expr, value: Expr)
      /** Any node type without a handler: literals, arrays, templates,
       *  spreads, arrow functions and the like. */
    | Other(kind: string)

  /** `next(ast, collector)`: the names pushed, in push order. */
  function Collect(e: Expr): seq<string>
    decreases e, 1
  {
    match e
    case Identifier(name) => [name]
    case Member(obj, property, computed) =>
      if obj.Identifier? then
        [obj.name] + (if computed && property.Identifier? then [property.name] else [])
      else Collect(obj)
    case Binary(left, right) => Collect(left) + Collect(right)
    case Conditional(test, consequent, alternate) => Collect(test) + Collect(consequent) + Collect(alternate)
    case Logical(left, right) => Collect(left) + Collect(right)
    case Unary(argument) => Collect(argument)
    case Call(_, arguments) => CollectAll(arguments, e)
    case ObjectExpr(properties) => CollectAll(properties, e)
    case ObjectProperty(_, value) => Collect(value)
    case Other(_) => []
  }

  /** `forEach(next)` over the children of `parent`. */
  function CollectAll(es: seq<Expr>, ghost parent: Expr): seq<string>
    requires forall i :: 0 <= i < |es| ==> es[i] < parent
    decreases parent, 0, |es|
  {
    if es == [] then [] else Collect(es[0]) + CollectAll(es[1..], parent)
  }

  /** Every identifier name in the tree, wherever it occurs. */
  function Identifiers(e: Expr): set<string>
    decreases e, 1
  {
    match e
    case Identifier(name) => {name}
    case Member(obj, property, _) => Identifiers(obj) + Identifiers(property)
    case Binary(left, right) => Identifiers(left) + Identifiers(right)
    case Conditional(test, consequent, alternate) => Identifiers(test) + Identifiers(consequent) + Identifiers(alternate)
    case Logical(left, right) => Identifiers(left) + Identifiers(right)
    case Unary(argument) => Identifiers(argument)
    case Call(callee, arguments) => Identifiers(callee) + IdentifiersAll(arguments, e)
    case ObjectExpr(properties) => IdentifiersAll(properties, e)
    case ObjectProperty(key, value) => Identifiers(key) + Identifiers(value)
    case Other(_) => {}
  }

  function IdentifiersAll(es: seq<Expr>, ghost parent: Expr): set<string>
    requires forall i :: 0 <= i < |es| ==> es[i] < parent
    decreases parent, 0, |es|
  {
    if es == [] then {} else Identifiers(es[0]) + IdentifiersAll(es[1..], parent)
  }

  /** Every collected name is an identifier of the expression: the walk
   *  invents nothing. */
  lemma {:induction false} CollectedAreIdentifiers(e: Expr)
    ensures forall n :: n in Collect(e) ==> n in Identifiers(e)
    decreases e, 1
  {
    match e
    case Identifier(_) =>
    case Member(obj, property, _) =>
      if !obj.Identifier? {
        CollectedAreIdentifiers(obj);
      }
    case Binary(left, right) =>
      CollectedAreIdentifiers(left);
      CollectedAreIdentifiers(right);
    case Conditional(test, consequent, alternate) =>
      CollectedAreIdentifiers(test);
      CollectedAreIdentifiers(consequent);
      CollectedAreIdentifiers(alternate);
    case Logical(left, right) =>
      CollectedAreIdentifiers(left);
      CollectedAreIdentifiers(right);
    case Unary(argument) =>
      CollectedAreIdentifiers(argument);
    case Call(_, arguments) =>
      CollectedAllAreIdentifiers(arguments, e);
    case ObjectExpr(properties) =>
      CollectedAllAreIdentifiers(properties, e);
    case ObjectProperty(_, value) =>
      CollectedAreIdentifiers(value);
    case Other(_) =>
  }

  lemma {:induction false} CollectedAllAreIdentifiers(es: seq<Expr>, parent: Expr)
    requires forall i :: 0 <= i < |es| ==> es[i] < parent
    ensures forall n :: n in CollectAll(es, parent) ==> n in IdentifiersAll(es, parent)
    decreases parent, 0, |es|
  {
    if es != [] {
      CollectedAreIdentifiers(es[0]);
      CollectedAllAreIdentifiers(es[1..], parent);
    }
  }

  /** The walk never looks into a callee, an object property's key, or
   *  the property of a member access unless that access is computed on an
   *  identifier: putting anything else in those places changes nothing
   *  collected. */
  lemma IgnoredPositions(callee: Expr, key: Expr, obj: Expr, property: Expr, computed: bool,
                         other: Expr, arguments: seq<Expr>, value: Expr)
    ensures Collect(Call(callee, arguments)) == Collect(Call(other, arguments))
    ensures Collect(ObjectProperty(key, value)) == Collect(ObjectProperty(other, value)) == Collect(value)
    ensures !obj.Identifier? ==>
      Collect(Member(obj, property, computed)) == Collect(obj) == Collect(Member(obj, other, computed))
    ensures obj.Identifier? && !(computed && property.Identifier?) ==>
      Collect(Member(obj, property, computed)) == [obj.name]
  {
    CollectAllParentFree(arguments, Call(callee, arguments), Call(other, arguments));
  }

  /** The parent only bounds the recursion; the names do not depend on it. */
  lemma {:induction false} CollectAllParentFree(es: seq<Expr>, p: Expr, q: Expr)
    requires forall i :: 0 <= i < |es| ==> es[i] < p && es[i] < q
    ensures CollectAll(es, p) == CollectAll(es, q)
    decreases |es|
  {
    if es != [] {
      CollectAllParentFree(es[1..], p, q);
    }
  }

  /** A call on arguments is collected argument by argument, in order. */
  lemma {:induction false} CallCollectsArguments(callee: Expr, a: Expr, rest: seq<Expr>)
    ensures Collect(Call(callee, [a] + rest)) == Collect(a) + Collect(Call(callee, rest))
  {
    var e := Call(callee, [a] + rest);
    assert ([a] + rest)[1..] == rest;
    CollectAllParentFree(rest, e, Call(callee, rest));
  }
}
