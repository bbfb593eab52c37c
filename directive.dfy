/** The directive lowering of packages/core/src/parsers/template/directive.ts:
 *  a `Directive` object wraps the generated text of an element in the JSX for
 *  `if`, `elif`, `else`, `for` or the merged `forWithIf`, reading the
 *  conditions its earlier siblings recorded in their parent's collector. */
module Directives {
  import opened Wrappers
  import opened Strings
  import opened TemplateHooks

  /** Loop options: the names bound for the item, the index and the key. */
  datatype DirectiveOptions = DirectiveOptions(key: string, item: string, index: string)

  /** `a || b` on strings: the empty string is falsy. */
  function OrDefault(a: string, b: string): string
  {
    if a == "" then b else a
  }

  /** `${expOrFn}`: a `[for, if]` pair prints as its elements joined by `,`. */
  function ExpText(e: ExpOrFn): string
  {
    match e
    case Exp(s) => s
    case Pair(a, b) => a + "," + b
  }

  /** The item name of `this.options.item || 'item'` (no options: `{}`). */
  function ItemName(options: Option<DirectiveOptions>): string
  {
    if options.Some? then OrDefault(options.value.item, "item") else "item"
  }

  function IndexName(options: Option<DirectiveOptions>): string
  {
    if options.Some? then OrDefault(options.value.index, "index") else "index"
  }

  /** `${this.options.key}`: `undefined` without options. */
  function KeyText(options: Option<DirectiveOptions>): string
  {
    if options.Some? then options.value.key else "undefined"
  }

  /** `String(s[i])` for the destructuring of a string: a character, or
   *  `undefined` past its end. */
  function CharOrUndefined(s: string, i: nat): string
  {
    if i < |s| then [s[i]] else "undefined"
  }

  /** `const [forExp, ifExp] = this.expOrFn || []`. */
  function ForAndIf(e: ExpOrFn): (string, string)
  {
    match e
    case Pair(a, b) => (a, b)
    case Exp(s) => (CharOrUndefined(s, 0), CharOrUndefined(s, 1))
  }

  // ---------------------------------------------------------------------
  // the wrapper texts
  // ---------------------------------------------------------------------

  function IfText(exp: string, tag: string): string
  {
    "{ !!(" + exp + ") && ( " + tag + " ) }"
  }

  function ElifText(ifExpStr: string, exp: string, tag: string): string
  {
    "{ (" + ifExpStr + ") && (" + exp + ") && ( " + tag + " ) }"
  }

  function ElseText(exp: string, tag: string): string
  {
    "{ (" + exp + ") && ( " + tag + " ) }"
  }

  function ForText(exp: string, item: string, index: string, tag: string): string
  {
    "{ (" + exp + ") && (" + exp + ").map((" + item + ", " + index + ") => (" + tag + ")) }"
  }

  function ForWithIfText(forExp: string, ifExp: string, item: string, index: string, key: string, tag: string): string
  {
    "{ (" + forExp + ") && (" + forExp + ").map((" + item + ", " + index + ") => ("
    + ifExp + ") && <React.Fragment key={" + key + "}> " + tag + " </React.Fragment>) }"
  }

  /** The guard of an `elif`: the negation of the first `if` among the
   *  sibling conditions, `undefined` when there is none. */
  function ElifGuard(siblings: seq<AttributeInfo>): string
  {
    if siblings == [] then "undefined"
    else if siblings[0].attrName == "if" then "!(" + siblings[0].attrValue + ")"
    else ElifGuard(siblings[1..])
  }

  function Negations(siblings: seq<AttributeInfo>): (r: seq<string>)
    ensures |r| == |siblings|
    ensures forall i :: 0 <= i < |siblings| ==> r[i] == "!(" + siblings[i].attrValue + ")"
  {
    if siblings == [] then [] else ["!(" + siblings[0].attrValue + ")"] + Negations(siblings[1..])
  }

  /** The condition of an `else` written without one: every sibling condition
   *  negated, joined by `&&`. */
  function ElseCondition(siblings: seq<AttributeInfo>): string
  {
    Join(Negations(siblings), " && ")
  }

  // ---------------------------------------------------------------------
  // getSiblingsConditions
  // ---------------------------------------------------------------------

  /** `findIndex` of the entry carrying the key. */
  function FindIndex(conditions: seq<AttributeInfo>, key: string): (i: int)
    ensures -1 <= i < |conditions|
    ensures i >= 0 ==> conditions[i].matrixKey == Some(key)
    ensures forall j :: 0 <= j < |conditions| && (i == -1 || j < i) ==> conditions[j].matrixKey != Some(key)
  {
    if conditions == [] then -1
    else
      var k := FindIndex(conditions[..|conditions| - 1], key);
      if k >= 0 then k else if conditions[|conditions| - 1].matrixKey == Some(key) then |conditions| - 1 else -1
  }

  /** The start of the run of `elif` entries that ends just before `p`. */
  function ElifRunStart(conditions: seq<AttributeInfo>, p: nat): (s: nat)
    requires p <= |conditions|
    ensures s <= p
    ensures forall j :: s <= j < p ==> conditions[j].attrName == "elif"
    ensures s == 0 || conditions[s - 1].attrName != "elif"
  {
    if p == 0 || conditions[p - 1].attrName != "elif" then p else ElifRunStart(conditions, p - 1)
  }

  /** The conditions that govern the element whose key is `matrixKey`. */
  function SiblingsConditions(conditions: seq<AttributeInfo>, matrixKey: Option<string>): seq<AttributeInfo>
  {
    if matrixKey.None? || matrixKey.value == "" then conditions
    else
      var p := FindIndex(conditions, matrixKey.value);
      if p <= 0 then []
      else
        var s := ElifRunStart(conditions, p);
        (if s > 0 && conditions[s - 1].attrName == "if" then [conditions[s - 1]] else []) + conditions[s..p]
  }

  /** Without a key the parent's whole list is returned. */
  lemma SiblingsConditionsWithoutKey(conditions: seq<AttributeInfo>)
    ensures SiblingsConditions(conditions, None) == conditions
    ensures SiblingsConditions(conditions, Some("")) == conditions
  {
  }

  /** For an entry at position p > 0 the governing conditions are the
   *  maximal `elif` run just before p, behind the `if` just before that run
   *  when there is one; every entry returned is an `elif`, except a leading
   *  `if`. */
  lemma SiblingsConditionsShape(conditions: seq<AttributeInfo>, key: string)
    requires key != "" && FindIndex(conditions, key) > 0
    ensures var p := FindIndex(conditions, key);
      var r := SiblingsConditions(conditions, Some(key));
      var s := ElifRunStart(conditions, p);
      && (forall j :: 0 <= j < |r| ==> r[j].attrName == "elif" || (j == 0 && r[j].attrName == "if"))
      && r[|r| - (p - s)..] == conditions[s..p]
      && (s > 0 && conditions[s - 1].attrName == "if" <==> |r| == p - s + 1)
  {
    var p := FindIndex(conditions, key);
    var s := ElifRunStart(conditions, p);
    var r := SiblingsConditions(conditions, Some(key));
    SiblingsConditionsAt(conditions, key, p, s);
    RunShape(conditions, p, s, r);
  }

  lemma SiblingsConditionsAt(conditions: seq<AttributeInfo>, key: string, p: int, s: nat)
    requires key != "" && p == FindIndex(conditions, key) && p > 0 && s == ElifRunStart(conditions, p)
    ensures SiblingsConditions(conditions, Some(key)) ==
      (if s > 0 && conditions[s - 1].attrName == "if" then [conditions[s - 1]] else []) + conditions[s..p]
  {
  }

  /** An `elif` run between s and p, behind the entry before it when that
   *  is an `if`. */
  lemma RunShape(conditions: seq<AttributeInfo>, p: nat, s: nat, r: seq<AttributeInfo>)
    requires s <= p <= |conditions|
    requires forall j :: s <= j < p ==> conditions[j].attrName == "elif"
    requires r == (if s > 0 && conditions[s - 1].attrName == "if" then [conditions[s - 1]] else []) + conditions[s..p]
    ensures forall j :: 0 <= j < |r| ==> r[j].attrName == "elif" || (j == 0 && r[j].attrName == "if")
    ensures r[|r| - (p - s)..] == conditions[s..p]
    ensures s > 0 && conditions[s - 1].attrName == "if" <==> |r| == p - s + 1
  {
  }

  /** An entry at the front of the list, or not in it, has no governing
   *  conditions. */
  lemma SiblingsConditionsFirst(conditions: seq<AttributeInfo>, key: string)
    requires key != "" && FindIndex(conditions, key) <= 0
    ensures SiblingsConditions(conditions, Some(key)) == []
  {
  }

  // ---------------------------------------------------------------------
  // the Directive object
  // ---------------------------------------------------------------------

  class Directive {
    /** The directive name: `if`, `elif`, `else`, `for` or `forWithIf`. */
    var dir: string
    var expOrFn: ExpOrFn
    /** The element's text so far. */
    var tag: string
    var result: string
    var options: Option<DirectiveOptions>
    /** The element's `matrixKey`. */
    var matrixKey: Option<string>
    /** `elem.parent.collector.conditions_children`, or `[]` when the element
     *  has no parent or the parent has no collector. */
    var parentConditions: seq<AttributeInfo>

    /** `new Directive(elem, dir, expOrFn, tag, options)`: the result starts as
     *  the tag text. */
    constructor (matrixKey: Option<string>, parentConditions: seq<AttributeInfo>, dir: string,
                 expOrFn: ExpOrFn, tag: string, options: Option<DirectiveOptions>)
      ensures this.dir == dir && this.expOrFn == expOrFn && this.tag == tag && this.options == options
      ensures this.matrixKey == matrixKey && this.parentConditions == parentConditions
      ensures result == tag
    {
      this.dir := dir;
      this.expOrFn := expOrFn;
      this.tag := tag;
      this.result := tag;
      this.options := options;
      this.matrixKey := matrixKey;
      this.parentConditions := parentConditions;
    }

    /** `getSiblingsConditions`: walks back from the element's own entry over
     *  the `elif` entries, `unshift`ing each, then the `if` before them. */
    method GetSiblingsConditions() returns (r: seq<AttributeInfo>)
      ensures r == SiblingsConditions(parentConditions, matrixKey)
    {
      var conditions := parentConditions;
      if matrixKey.None? || matrixKey.value == "" {
        return conditions;
      }
      var findIndex := FindIndex(conditions, matrixKey.value);
      if findIndex > 0 {
        var thisConditions: seq<AttributeInfo> := [];
        var currentIndex := findIndex - 1;
        while currentIndex >= 0 && conditions[currentIndex].attrName == "elif"
          invariant -1 <= currentIndex < findIndex
          invariant thisConditions == conditions[currentIndex + 1..findIndex]
          invariant forall j :: currentIndex < j < findIndex ==> conditions[j].attrName == "elif"
          invariant ElifRunStart(conditions, findIndex) <= currentIndex + 1
          decreases currentIndex
        {
          thisConditions := [conditions[currentIndex]] + thisConditions;
          currentIndex := currentIndex - 1;
          RunStartBelow(conditions, findIndex, currentIndex + 1);
        }
        RunStartAt(conditions, findIndex, currentIndex + 1);
        if currentIndex >= 0 && conditions[currentIndex].attrName == "if" {
          thisConditions := [conditions[currentIndex]] + thisConditions;
        }
        return thisConditions;
      }
      return [];
    }

    method IfDirective()
      modifies this
      ensures result == IfText(ExpText(expOrFn), tag)
      ensures dir == old(dir) && expOrFn == old(expOrFn) && tag == old(tag) && options == old(options)
      ensures matrixKey == old(matrixKey) && parentConditions == old(parentConditions)
    {
      result := IfText(ExpText(expOrFn), tag);
    }

    method ElifDirective()
      modifies this
      ensures result == ElifText(ElifGuard(SiblingsConditions(parentConditions, matrixKey)), ExpText(expOrFn), tag)
      ensures dir == old(dir) && expOrFn == old(expOrFn) && tag == old(tag) && options == old(options)
      ensures matrixKey == old(matrixKey) && parentConditions == old(parentConditions)
    {
      var siblings := GetSiblingsConditions();
      var ifExpStr := ElifGuard(siblings);
      result := ElifText(ifExpStr, ExpText(expOrFn), tag);
    }

    /** An `else` without an expression takes the negated sibling conditions
     *  as its expression. */
    method ElseDirective()
      modifies this
      ensures old(expOrFn) == Exp("") ==> expOrFn == Exp(ElseCondition(SiblingsConditions(parentConditions, matrixKey)))
      ensures old(expOrFn) != Exp("") ==> expOrFn == old(expOrFn)
      ensures result == ElseText(ExpText(expOrFn), tag)
      ensures dir == old(dir) && tag == old(tag) && options == old(options)
      ensures matrixKey == old(matrixKey) && parentConditions == old(parentConditions)
    {
      if expOrFn == Exp("") {
        var siblings := GetSiblingsConditions();
        expOrFn := Exp(ElseCondition(siblings));
      }
      result := ElseText(ExpText(expOrFn), tag);
    }

    method ForDirective()
      modifies this
      ensures result == ForText(ExpText(expOrFn), ItemName(options), IndexName(options), tag)
      ensures dir == old(dir) && expOrFn == old(expOrFn) && tag == old(tag) && options == old(options)
      ensures matrixKey == old(matrixKey) && parentConditions == old(parentConditions)
    {
      result := ForText(ExpText(expOrFn), ItemName(options), IndexName(options), tag);
    }

    method ForWithIfDirective()
      modifies this
      ensures result == ForWithIfResult(expOrFn, options, tag)
      ensures dir == old(dir) && expOrFn == old(expOrFn) && tag == old(tag) && options == old(options)
      ensures matrixKey == old(matrixKey) && parentConditions == old(parentConditions)
    {
      var (forExp, ifExp) := ForAndIf(expOrFn);
      result := ForWithIfText(forExp, ifExp, ItemName(options), IndexName(options), KeyText(options), tag);
    }

    /** `parse`: dispatch on the directive name; an unknown name only logs,
     *  so the result stays the tag text. */
    method Parse()
      requires result == tag
      modifies this
      ensures result == DirectiveResult(old(dir), old(expOrFn), old(tag), old(options),
                                        SiblingsConditions(old(parentConditions), old(matrixKey)))
    {
      if dir == "if" {
        IfDirective();
      } else if dir == "elif" {
        ElifDirective();
      } else if dir == "else" {
        ElseDirective();
      } else if dir == "for" {
        ForDirective();
      } else if dir == "forWithIf" {
        ForWithIfDirective();
      }
    }
  }

  lemma RunStartBelow(conditions: seq<AttributeInfo>, p: nat, c: int)
    requires 0 <= c < p <= |conditions|
    requires forall j :: c <= j < p ==> conditions[j].attrName == "elif"
    ensures ElifRunStart(conditions, p) <= c
    decreases p - c
  {
    if c < p - 1 {
      RunStartBelow(conditions, p - 1, c);
    }
  }

  lemma RunStartAt(conditions: seq<AttributeInfo>, p: nat, c: int)
    requires 0 <= c <= p <= |conditions|
    requires forall j :: c <= j < p ==> conditions[j].attrName == "elif"
    requires c == 0 || conditions[c - 1].attrName != "elif"
    ensures ElifRunStart(conditions, p) == c
    decreases p - c
  {
    if c < p {
      RunStartAt(conditions, p - 1, c);
    }
  }

  function ForWithIfResult(expOrFn: ExpOrFn, options: Option<DirectiveOptions>, tag: string): string
  {
    ForWithIfText(ForAndIf(expOrFn).0, ForAndIf(expOrFn).1, ItemName(options), IndexName(options), KeyText(options), tag)
  }

  /** What the `directive` helper returns for one directive. */
  function DirectiveResult(dir: string, expOrFn: ExpOrFn, tag: string, options: Option<DirectiveOptions>,
                           siblings: seq<AttributeInfo>): string
  {
    if dir == "if" then IfText(ExpText(expOrFn), tag)
    else if dir == "elif" then ElifText(ElifGuard(siblings), ExpText(expOrFn), tag)
    else if dir == "else" then
      ElseText(if expOrFn == Exp("") then ElseCondition(siblings) else ExpText(expOrFn), tag)
    else if dir == "for" then ForText(ExpText(expOrFn), ItemName(options), IndexName(options), tag)
    else if dir == "forWithIf" then ForWithIfResult(expOrFn, options, tag)
    else tag
  }

  /** `directive(elem, dir, expOrFn, tag, options)`: a fresh `Directive`,
   *  parsed, and its result. */
  method RunDirective(matrixKey: Option<string>, parentConditions: seq<AttributeInfo>, dir: string,
                      expOrFn: ExpOrFn, tag: string, options: Option<DirectiveOptions>) returns (r: string)
    ensures r == DirectiveResult(dir, expOrFn, tag, options, SiblingsConditions(parentConditions, matrixKey))
  {
    var d := new Directive(matrixKey, parentConditions, dir, expOrFn, tag, options);
    d.Parse();
    r := d.result;
  }

  // ---------------------------------------------------------------------
  // properties of the lowering
  // ---------------------------------------------------------------------

  /** `{ <guard> && ( <tag> ) }`: the element, rendered only when the
   *  guard holds. */
  function Guarded(guard: string, tag: string): string
  {
    "{ " + guard + " && ( " + tag + " ) }"
  }

  /** `if a` renders its element under `!!(a)`, and the `else` right after
   *  it, written without a condition, under exactly the negation `!(a)`:
   *  one of the two elements is rendered, never both. */
  lemma IfElseComplement(a: string, ifTag: string, elseTag: string, k1: string, k2: string)
    requires k2 != "" && k1 != k2
    ensures var conditions := [
        AttributeInfo("if", a, Some(k1), false, false),
        AttributeInfo("else", "", Some(k2), false, false)];
      var negation := "!(" + a + ")";
      && DirectiveResult("if", Exp(a), ifTag, None, []) == Guarded("!" + negation, ifTag)
      && DirectiveResult("else", Exp(""), elseTag, None, SiblingsConditions(conditions, Some(k2)))
           == Guarded("(" + negation + ")", elseTag)
  {
    var first := AttributeInfo("if", a, Some(k1), false, false);
    ElseAfterIf(first, AttributeInfo("else", "", Some(k2), false, false));
    NegatedSingle(first);
    ElseWithoutCondition(elseTag, [first]);
    IfGuarded(a, ifTag);
    ElseGuarded("!(" + a + ")", elseTag);
  }

  lemma IfGuarded(a: string, tag: string)
    ensures DirectiveResult("if", Exp(a), tag, None, []) == Guarded("!" + ("!(" + a + ")"), tag)
  {
    assert DirectiveResult("if", Exp(a), tag, None, []) == IfText(a, tag);
  }

  lemma ElseGuarded(condition: string, tag: string)
    ensures ElseText(condition, tag) == Guarded("(" + condition + ")", tag)
  {
  }

  /** An `else` right after an `if` has that `if` alone as its siblings. */
  lemma ElseAfterIf(first: AttributeInfo, second: AttributeInfo)
    requires first.attrName == "if"
    requires second.matrixKey.Some? && second.matrixKey.value != "" && first.matrixKey != second.matrixKey
    ensures SiblingsConditions([first, second], second.matrixKey) == [first]
  {
    var conditions := [first, second];
    assert FindIndex(conditions, second.matrixKey.value) == 1;
    RunStartAt(conditions, 1, 1);
  }

  lemma NegatedSingle(first: AttributeInfo)
    ensures ElseCondition([first]) == "!(" + first.attrValue + ")"
  {
    assert Negations([first]) == ["!(" + first.attrValue + ")"];
  }

  /** An unknown directive only logs: the element's text is unchanged. */
  lemma UnknownDirectiveKeepsTag(dir: string, expOrFn: ExpOrFn, tag: string, options: Option<DirectiveOptions>,
                                 siblings: seq<AttributeInfo>)
    requires dir != "if" && dir != "elif" && dir != "else" && dir != "for" && dir != "forWithIf"
    ensures DirectiveResult(dir, expOrFn, tag, options, siblings) == tag
  {
  }

  /** `elif` is guarded only by the first `if` of its sibling conditions: in
   *  the chain `if a / elif b / elif c` the second `elif` is guarded by `!(a)`
   *  alone, so it is not exclusive with the first `elif`. */
  lemma ConsecutiveElifsNotExclusive(a: string, b: string, c: string, tag: string, k1: string, k2: string, k3: string)
    requires k3 != "" && k3 != k1 && k3 != k2
    ensures var conditions := [
        AttributeInfo("if", a, Some(k1), false, false),
        AttributeInfo("elif", b, Some(k2), false, false),
        AttributeInfo("elif", c, Some(k3), false, false)];
      var siblings := SiblingsConditions(conditions, Some(k3));
      && siblings == conditions[..2]
      && DirectiveResult("elif", Exp(c), tag, None, siblings) == "{ (!(" + a + ")) && (" + c + ") && ( " + tag + " ) }"
  {
    var conditions := [
        AttributeInfo("if", a, Some(k1), false, false),
        AttributeInfo("elif", b, Some(k2), false, false),
        AttributeInfo("elif", c, Some(k3), false, false)];
    assert FindIndex(conditions, k3) == 2;
    RunStartAt(conditions, 2, 1);
  }

  /** An `elif` with no governing `if` is guarded by `(undefined)`. */
  lemma ElifWithoutIf(b: string, tag: string, siblings: seq<AttributeInfo>)
    requires forall j :: 0 <= j < |siblings| ==> siblings[j].attrName != "if"
    ensures DirectiveResult("elif", Exp(b), tag, None, siblings) == "{ (undefined) && (" + b + ") && ( " + tag + " ) }"
  {
    ElifGuardNone(siblings);
  }

  lemma {:induction false} ElifGuardNone(siblings: seq<AttributeInfo>)
    requires forall j :: 0 <= j < |siblings| ==> siblings[j].attrName != "if"
    ensures ElifGuard(siblings) == "undefined"
    decreases |siblings|
  {
    if siblings != [] {
      ElifGuardNone(siblings[1..]);
    }
  }

  /** An `else` after `if a / elif b` is guarded by `!(a) && !(b)`. */
  lemma ElseAfterChain(a: string, b: string, tag: string, k1: string, k2: string, k3: string)
    requires k3 != "" && k3 != k1 && k3 != k2
    ensures var conditions := [
        AttributeInfo("if", a, Some(k1), false, false),
        AttributeInfo("elif", b, Some(k2), false, false),
        AttributeInfo("else", "", Some(k3), false, false)];
      DirectiveResult("else", Exp(""), tag, None, SiblingsConditions(conditions, Some(k3)))
        == "{ (!(" + a + ") && !(" + b + ")) && ( " + tag + " ) }"
  {
    var conditions := [
        AttributeInfo("if", a, Some(k1), false, false),
        AttributeInfo("elif", b, Some(k2), false, false),
        AttributeInfo("else", "", Some(k3), false, false)];
    ChainSiblings(conditions, k3);
    ElseAfterPair(tag, conditions[0], conditions[1]);
  }

  /** An `else` after two siblings negates both. */
  lemma ElseAfterPair(tag: string, first: AttributeInfo, second: AttributeInfo)
    ensures DirectiveResult("else", Exp(""), tag, None, [first, second])
      == "{ (!(" + first.attrValue + ") && !(" + second.attrValue + ")) && ( " + tag + " ) }"
  {
    var cond := "!(" + first.attrValue + ") && !(" + second.attrValue + ")";
    assert ElseCondition([first, second]) == cond by { NegatedPair(first, second); }
    ElseWithoutCondition(tag, [first, second]);
  }

  lemma ElseWithoutCondition(tag: string, siblings: seq<AttributeInfo>)
    ensures DirectiveResult("else", Exp(""), tag, None, siblings) == ElseText(ElseCondition(siblings), tag)
  {
  }

  lemma ChainSiblings(conditions: seq<AttributeInfo>, key: string)
    requires |conditions| == 3 && key != ""
    requires conditions[0].attrName == "if" && conditions[1].attrName == "elif"
    requires conditions[2].matrixKey == Some(key)
    requires conditions[0].matrixKey != Some(key) && conditions[1].matrixKey != Some(key)
    ensures SiblingsConditions(conditions, Some(key)) == [conditions[0], conditions[1]]
  {
    assert FindIndex(conditions, key) == 2;
    RunStartAt(conditions, 2, 1);
  }

  /** Two siblings negated and joined: `!(a) && !(b)`. */
  lemma NegatedPair(first: AttributeInfo, second: AttributeInfo)
    ensures ElseCondition([first, second]) == "!(" + first.attrValue + ") && !(" + second.attrValue + ")"
  {
    var ns := Negations([first, second]);
    assert ns == ["!(" + first.attrValue + ")", "!(" + second.attrValue + ")"];
    assert Join(ns, " && ") == "!(" + first.attrValue + ")" + " && " + "!(" + second.attrValue + ")";
  }

}
