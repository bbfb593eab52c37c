/** The attribute and text handlers of
 *  packages/core/src/parsers/template/AttributeAndTextPlugin.ts: seven
 *  handlers tapped, in order, on the bail hook `attribute`; the text-node
 *  handler; the static class, id and style formatting; and the scope test
 *  that decides which identifiers of a binding are component data.
 *
 *  A handler may update the element it is handed (its collector, its
 *  `matrixKey`, its parent's collector), so an element is a value threaded
 *  through the handler calls. Printing a binding parses and prints
 *  JavaScript, so the printer is a parameter of the model. */
module AttributeHandlers {
  import opened Wrappers
  import opened Strings
  import opened TemplateHooks
  import TemplateConstants
  import opened Mustache
  import Utils
  import Runtime
  import CollectThisData

  // ---------------------------------------------------------------------
  // the element and the compilation, as the handlers see them
  // ---------------------------------------------------------------------

  /** What the handlers read and change of the element being rendered: its
   *  tag name, its collector, its `matrixKey`, its parent's collector (the
   *  one its siblings append to as well), the next fresh key, and the error a
   *  handler threw. */
  datatype ElemState = ElemState(
    name: string,
    collector: Option<NodeCollector>,
    matrixKey: Option<string>,
    parentCollector: Option<NodeCollector>,
    nextGuid: nat,
    error: Option<string>)

  /** Which printer a binding goes through, and with which callback. */
  datatype MustacheUse =
      /** `formatSingleMustacheValue` with the callback `code => code`. */
    | Code
      /** `formatSingleMustacheValue` with `code => {wmrt.stringify(code)}`. */
    | Stringify
      /** `formatSingleMustacheValue` with `isTemplateData`. */
    | TemplateData
      /** `formatMultipleMustacheValue` with its default options. */
    | Multiple
      /** the `{{ }}` branch of `formatStyleValue`. */
    | StyleValue
      /** the `{{ }}` branch of `formatRuntimeAttrValue`. */
    | RuntimeValue(useCssScope: bool)
      /** the text-node callback `before{code}after`. */
    | TextData

  /** The compilation as the handlers see it: the module's name, whether its
   *  styles are isolated, and the binding printer. */
  datatype HandlerContext = HandlerContext(
    componentName: string,
    enableStyleIsolation: bool,
    format: (MustacheUse, string) -> string)

  /** `fakeGuid()`: the n-th fresh key. */
  function FreshKey(n: nat): string
  {
    "guid" + Runtime.NatToString(n)
  }

  lemma {:induction false} NatToStringInjective(m: nat, n: nat)
    ensures Runtime.NatToString(m) == Runtime.NatToString(n) ==> m == n
    decreases m
  {
    var a := Runtime.NatToString(m);
    var b := Runtime.NatToString(n);
    if a == b {
      if m < 10 && n < 10 {
        assert a[0] == b[0];
      } else {
        assert m >= 10 && n >= 10;
        assert a[|a| - 1] == b[|b| - 1];
        assert a[..|a| - 1] == Runtime.NatToString(m / 10);
        assert b[..|b| - 1] == Runtime.NatToString(n / 10);
        NatToStringInjective(m / 10, n / 10);
      }
    }
  }

  /** Keys drawn at different times differ. */
  lemma FreshKeyInjective(m: nat, n: nat)
    ensures FreshKey(m) == FreshKey(n) ==> m == n
  {
    if FreshKey(m) == FreshKey(n) {
      assert FreshKey(m)[4..] == Runtime.NatToString(m);
      assert FreshKey(n)[4..] == Runtime.NatToString(n);
      NatToStringInjective(m, n);
    }
  }

  // ---------------------------------------------------------------------
  // text nodes
  // ---------------------------------------------------------------------

  /** The `textNode` tap: the content of a text node. */
  function TextContent(ctx: HandlerContext, data: string): string
  {
    if HasMustache(data) then ctx.format(TextData, data) else data
  }

  /** Text without a binding is emitted as it is. */
  lemma TextWithoutBindingKept(ctx: HandlerContext, data: string)
    requires !HasMustache(data)
    ensures TextContent(ctx, data) == data
  {
  }

  // ---------------------------------------------------------------------
  // 1. directives
  // ---------------------------------------------------------------------

  /** The value a directive is recorded with: the printed binding, or a
   *  plain value as an array literal (`[${value.split(',')}]`), or nothing. */
  function DirectiveValue(ctx: HandlerContext, value: string): string
  {
    if HasMustache(value) then ctx.format(Code, value)
    else if value == "" then ""
    else "[" + Join(Split(value, ','), ",") + "]"
  }

  /** Splitting on `,` and printing the array joins it with `,` again, so a
   *  plain value v becomes exactly `[v]`. */
  lemma DirectiveValueBrackets(ctx: HandlerContext, value: string)
    requires !HasMustache(value) && value != ""
    ensures DirectiveValue(ctx, value) == "[" + value + "]"
  {
    SplitJoin(value, ',');
  }

  /** Recording directive `dir` with value `v` on an element that has a
   *  collector. */
  function RecordDirective(s: ElemState, dir: string, v: string): ElemState
    requires s.collector.Some?
  {
    var c := s.collector.value;
    var c1 := c.(directives := Put(c.directives, dir, Exp(v)));
    if dir == "if" || dir == "elif" || dir == "else" then
      var key := FreshKey(s.nextGuid);
      var entry := AttributeInfo(dir, v, Some(key), false, false);
      var parent :=
        if s.parentCollector.Some?
        then Some(s.parentCollector.value.(conditionsChildren := s.parentCollector.value.conditionsChildren + [entry]))
        else None;
      s.(collector := Some(c1), matrixKey := Some(key), parentCollector := parent, nextGuid := s.nextGuid + 1)
    else if dir == "for" then
      s.(collector := Some(c1.(variables := Put(Put(c1.variables, "item", "item"), "index", "index"))))
    else
      s.(collector := Some(c1))
  }

  function DirectiveHandler(ctx: HandlerContext, s: ElemState, attr: AttributeOrigin): (ElemState, Option<AttributeInfo>)
  {
    var dir := TemplateConstants.Lookup(TemplateConstants.DIRECTIVES_MAP, attr.key);
    if dir.None? then (s, None)
    else
      var v := DirectiveValue(ctx, attr.value);
      var s1 := if s.collector.Some? then RecordDirective(s, dir.value, v) else s;
      (s1, Some(AttributeInfo(dir.value, v, None, true, false)))
  }

  // ---------------------------------------------------------------------
  // 2. events
  // ---------------------------------------------------------------------

  /** The length of the prefix `/^(bind:|catch:|bind|catch)/` matches, the
   *  alternatives tried in that order; 0 when none does. */
  function EventPrefixLength(key: string): (n: nat)
    ensures n <= |key|
  {
    if StartsWith(key, "bind:") then 5
    else if StartsWith(key, "catch:") then 6
    else if StartsWith(key, "bind") then 4
    else if StartsWith(key, "catch") then 5
    else 0
  }

  predicate IsEventKey(key: string)
  {
    TemplateConstants.Lookup(TemplateConstants.EVENTS_MAP, key).Some? || EventPrefixLength(key) > 0
  }

  /** The React name of an event attribute: the table's, or the prefix
   *  replaced by `on`, camel-cased, with the third character upper-cased.
   *  A name that comes out shorter than three characters has no third
   *  character, and upper-casing it throws a TypeError. */
  function EventName(key: string): Result<string>
  {
    var mapped := TemplateConstants.Lookup(TemplateConstants.EVENTS_MAP, key);
    if mapped.Some? then Ok(mapped.value) else DerivedEventName(key)
  }

  /** The name of an event attribute the table does not list. */
  function DerivedEventName(key: string): Result<string>
  {
    var n := Utils.Camelcase("on" + key[EventPrefixLength(key)..]);
    if |n| < 3 then Err("TypeError: Cannot read properties of undefined (reading 'toUpperCase')")
    else Ok(n[..2] + [UpperChar(n[2])] + n[3..])
  }

  /** `{ wmrt.event(V, this) }`, with a plain V quoted. */
  function EventValue(ctx: HandlerContext, value: string): string
  {
    var v := if HasMustache(value) then ctx.format(Code, value) else "\"" + value + "\"";
    "{ wmrt.event(" + v + ", this) }"
  }

  /** A thrown error ends the rendering: it is recorded on the element and
   *  the attribute is dropped. */
  function EventHandler(ctx: HandlerContext, s: ElemState, attr: AttributeOrigin): (ElemState, Option<AttributeInfo>)
  {
    if !IsEventKey(attr.key) then (s, None)
    else
      match EventName(attr.key)
      case Err(e) => (s.(error := Some(e)), Some(AttributeInfo(attr.key, attr.value, None, true, false)))
      case Ok(n) => (s, Some(AttributeInfo(n, EventValue(ctx, attr.value), None, false, true)))
  }

  // ---------------------------------------------------------------------
  // 3. loop variables
  // ---------------------------------------------------------------------

  /** `variables[k] || d`. */
  function VarOr(variables: Record<string>, k: string, d: string): (r: string)
    ensures d != "" ==> r != ""
  {
    var v := Get(variables, k);
    if v.Some? && v.value != "" then v.value else d
  }

  /** The key expression `wx:key` resolves to, given the loop's item and
   *  index names. */
  function KeyValue(value: string, item: string, index: string): string
  {
    var k :=
      if value != "" && Trim(value) == "*this" then item
      else if value != "" && value != index then item + "." + value
      else value;
    if k == "" then index else k
  }

  function VariableHandler(ctx: HandlerContext, s: ElemState, attr: AttributeOrigin): (ElemState, Option<AttributeInfo>)
  {
    var name := TemplateConstants.Lookup(TemplateConstants.VARIABLES_MAP, attr.key);
    if name.None? then (s, None)
    else
      var removed := attr.key in TemplateConstants.REMOVE_ATTRIBUTES;
      if s.collector.Some? && attr.key == "wx:key" then
        var c := s.collector.value;
        var k := KeyValue(attr.value, VarOr(c.variables, "item", "item"), VarOr(c.variables, "index", "index"));
        (s.(collector := Some(c.(variables := Put(c.variables, "key", k)))),
         Some(AttributeInfo(name.value, "{ " + k + " }", None, removed, true)))
      else
        var v :=
          if attr.key != "wx:key" && HasMustache(attr.value)
          then ReplaceMustaches(attr.value, 0, "{ ", " }")
          else "{ " + attr.value + "}";
        var s1 :=
          if s.collector.Some?
          then s.(collector := Some(s.collector.value.(variables := Put(s.collector.value.variables, name.value, attr.value))))
          else s;
        (s1, Some(AttributeInfo(name.value, v, None, removed, true)))
  }

  // ---------------------------------------------------------------------
  // 4. class, id, style and ref
  // ---------------------------------------------------------------------

  /** `filter(item => item)`. */
  function NonEmpty(tokens: seq<string>): (r: seq<string>)
    ensures forall k :: 0 <= k < |r| ==> r[k] != ""
    ensures (forall k :: 0 <= k < |tokens| ==> tokens[k] != "") ==> r == tokens
  {
    if tokens == [] then []
    else if tokens[0] == "" then NonEmpty(tokens[1..])
    else [tokens[0]] + NonEmpty(tokens[1..])
  }

  /** The branch of `formatRuntimeAttrValue` for a value without a binding:
   *  tokens split on single spaces, empty ones dropped, and with the scope
   *  on each suffixed `__<module>`. */
  function StaticRuntimeValue(value: string, useCssScope: bool, componentName: string): string
  {
    var tokens := Split(value, ' ');
    if useCssScope then Join(Runtime.ScopeTokens(tokens, componentName), " ")
    else Join(NonEmpty(tokens), " ")
  }

  /** `formatRuntimeAttrValue`: the value and whether it goes unquoted. */
  function RuntimeAttrValue(ctx: HandlerContext, value: string, useCssScope: bool): (string, bool)
  {
    if HasMustache(value) then (ctx.format(RuntimeValue(useCssScope), value), true)
    else (StaticRuntimeValue(value, useCssScope, ctx.componentName), false)
  }

  /** `splitBy(str, flag)`: the text before and after the first `flag`.
   *  Without one, `slice(0, -1)` drops the last character and `slice(0)` is
   *  the whole string. */
  function SplitBy(str: string, flag: char): (string, string)
  {
    var idx := IndexOf(str, [flag]);
    if idx == -1 then (if str == "" then "" else str[..|str| - 1], str)
    else (str[..idx], str[idx + 1..])
  }

  /** With the flag present the two parts rejoin to the string, and the
   *  first has no flag. */
  lemma SplitByRejoins(str: string, flag: char)
    requires flag in str
    ensures SplitBy(str, flag).0 + [flag] + SplitBy(str, flag).1 == str
    ensures flag !in SplitBy(str, flag).0
  {
    var i :| 0 <= i < |str| && str[i] == flag;
    assert OccursAt(str, [flag], i);
    var idx := IndexOf(str, [flag]);
    IndexOfSpec(str, [flag]);
    assert idx >= 0;
    assert str[idx..idx + 1] == [flag];
    forall j | 0 <= j < idx ensures str[j] != flag {
      assert !OccursAt(str, [flag], j);
      assert str[j..j + 1] == [str[j]];
    }
    assert str == str[..idx] + [flag] + str[idx + 1..];
  }

  /** The style key as written: camel-cased when it has a `-`, unless it is
   *  a custom property (`--x`). */
  function StyleKey(k: string): string
  {
    if k != "" && !StartsWith(k, "--") && '-' in k then Utils.Camelcase(k) else k
  }

  function DropTrailingComma(s: string): string
  {
    if EndsWith(s, ",") then s[..|s| - 1] else s
  }

  /** One `;`-separated segment of a style without bindings: `"k": "v"`, or
   *  `"k": v` when the value holds a length turned into a `rem` call, or
   *  nothing when the segment has no `:`. */
  function StyleItem(item: string): Option<string>
  {
    if ':' !in item then None
    else
      var parts := SplitBy(item, ':');
      var k := Trim(parts.0);
      var v := Trim(parts.1);
      if Contains(k, "{{") then Some(DropTrailingComma(item))
      else if Contains(v, "px") then
        var r := Utils.Rpx2Rem(v, true);
        Some("\"" + StyleKey(k) + "\": " + (if Contains(r, "${") then "`" + r + "`" else r))
      else Some("\"" + StyleKey(k) + "\": \"" + v + "\"")
  }

  function StyleItems(items: seq<string>): seq<string>
  {
    if items == [] then []
    else
      var rest := StyleItems(items[1..]);
      match StyleItem(items[0])
      case Some(x) => [x] + rest
      case None => rest
  }

  /** `formatStyleValue`: an object literal `{{…}}` of the declarations. */
  function FormatStyleValue(ctx: HandlerContext, value: string): string
  {
    if HasMustache(value) then ctx.format(StyleValue, value)
    else "{{" + Join(StyleItems(Split(value, ';')), ",") + "}}"
  }

  function AttrsHandler(ctx: HandlerContext, s: ElemState, attr: AttributeOrigin): (ElemState, Option<AttributeInfo>)
  {
    var mapped := TemplateConstants.Lookup(TemplateConstants.ATTRS_MAP, attr.key);
    if mapped.None? then (s, None)
    else
      var key := attr.key;
      var name := if mapped.value != "" then mapped.value else key;
      if key == "style" || key == "ext-style" || key == "extStyle" then
        (s, Some(AttributeInfo(name, FormatStyleValue(ctx, attr.value), None, false, true)))
      else if key == "class" || key == "id" || key == "ext-class" then
        var scope := (key == "class" || key == "ext-class") && ctx.enableStyleIsolation;
        var r := RuntimeAttrValue(ctx, attr.value, scope);
        (s, Some(AttributeInfo(name, r.0, None, false, r.1)))
      else if key == "ref" then
        if IsWholeMustache(attr.value) then
          (s, Some(AttributeInfo(key, ctx.format(Multiple, attr.value), None, false, true)))
        else
          var r := RuntimeAttrValue(ctx, attr.value, false);
          (s, Some(AttributeInfo(key, r.0, None, false, r.1)))
      else (s, None)
  }

  // ---------------------------------------------------------------------
  // 5.-7. dataset, template data and the fallback
  // ---------------------------------------------------------------------

  function DatasetHandler(ctx: HandlerContext, s: ElemState, attr: AttributeOrigin): (ElemState, Option<AttributeInfo>)
  {
    if !StartsWith(attr.key, "data-") then (s, None)
    else if HasMustache(attr.value) then (s, Some(AttributeInfo(attr.key, ctx.format(Stringify, attr.value), None, false, true)))
    else (s, Some(AttributeInfo(attr.key, attr.value, None, false, false)))
  }

  function TemplateHandler(ctx: HandlerContext, s: ElemState, attr: AttributeOrigin): (ElemState, Option<AttributeInfo>)
  {
    if !(s.name == "template" && (attr.key == "data" || attr.key == "callEvent")) then (s, None)
    else if attr.key == "callEvent" then (s, Some(AttributeInfo(attr.key, "{this.callEvent}", None, false, true)))
    else if HasMustache(attr.value) then (s, Some(AttributeInfo(attr.key, ctx.format(TemplateData, attr.value), None, false, true)))
    else (s, Some(AttributeInfo(attr.key, attr.value, None, false, false)))
  }

  /** The last handler: an empty value stands for `{{true}}`. */
  function FallbackHandler(ctx: HandlerContext, s: ElemState, attr: AttributeOrigin): (ElemState, Option<AttributeInfo>)
  {
    var value := if attr.value == "" then "{{true}}" else attr.value;
    if HasMustache(value) then (s, Some(AttributeInfo(Utils.Camelcase(attr.key), ctx.format(Multiple, value), None, false, true)))
    else (s, Some(AttributeInfo(Utils.Camelcase(attr.key), value, None, false, false)))
  }

  // ---------------------------------------------------------------------
  // the bail chain
  // ---------------------------------------------------------------------

  /** The handlers tapped into the `attribute` hook. */
  datatype Tap = DirectivesTap | EventsTap | VariablesTap | AttrsTap | DatasetTap | TemplateDataTap | FallbackTap

  /** The handlers in registration order. */
  const TAPS: seq<Tap> := [DirectivesTap, EventsTap, VariablesTap, AttrsTap, DatasetTap, TemplateDataTap, FallbackTap]

  function RunTap(ctx: HandlerContext, t: Tap, s: ElemState, attr: AttributeOrigin): (ElemState, Option<AttributeInfo>)
  {
    match t
    case DirectivesTap => DirectiveHandler(ctx, s, attr)
    case EventsTap => EventHandler(ctx, s, attr)
    case VariablesTap => VariableHandler(ctx, s, attr)
    case AttrsTap => AttrsHandler(ctx, s, attr)
    case DatasetTap => DatasetHandler(ctx, s, attr)
    case TemplateDataTap => TemplateHandler(ctx, s, attr)
    case FallbackTap => FallbackHandler(ctx, s, attr)
  }

  /** The `attribute` hook is a bail hook whose handlers may also update the
   *  element they are handed: from the handler at `i` on, the element is
   *  passed on, as each handler left it, to the next, until one returns a
   *  result. */
  function Bail(ctx: HandlerContext, i: nat, s: ElemState, attr: AttributeOrigin): (ElemState, Option<AttributeInfo>)
    decreases |TAPS| - i
  {
    if i >= |TAPS| then (s, None)
    else
      var first := RunTap(ctx, TAPS[i], s, attr);
      if first.1.Some? then first else Bail(ctx, i + 1, first.0, attr)
  }

  /** One call of the `attribute` hook. Once a handler has thrown nothing
   *  more is handled. */
  function Handle(ctx: HandlerContext, s: ElemState, attr: AttributeOrigin): (ElemState, Option<AttributeInfo>)
  {
    if s.error.Some? then (s, None) else Bail(ctx, 0, s, attr)
  }

  /** A handler that declines and leaves the element as it is hands the
   *  attribute on to the next. */
  lemma BailPast(ctx: HandlerContext, i: nat, s: ElemState, attr: AttributeOrigin)
    requires i < |TAPS| && RunTap(ctx, TAPS[i], s, attr) == (s, None)
    ensures Bail(ctx, i, s, attr) == Bail(ctx, i + 1, s, attr)
  {
  }

  /** The first handler that answers decides the hook's result. */
  lemma BailAnswered(ctx: HandlerContext, i: nat, s: ElemState, attr: AttributeOrigin)
    requires i < |TAPS| && RunTap(ctx, TAPS[i], s, attr).1.Some?
    ensures Bail(ctx, i, s, attr) == RunTap(ctx, TAPS[i], s, attr)
  {
  }

  /** When the last handler answers for every element, the hook always has
   *  a result. */
  lemma {:induction false} BailAnswers(ctx: HandlerContext, i: nat, s: ElemState, attr: AttributeOrigin)
    requires i < |TAPS|
    ensures Bail(ctx, i, s, attr).1.Some?
    decreases |TAPS| - i
  {
    if i < |TAPS| - 1 && RunTap(ctx, TAPS[i], s, attr).1.None? {
      BailAnswers(ctx, i + 1, RunTap(ctx, TAPS[i], s, attr).0, attr);
    } else if i == |TAPS| - 1 {
      FallbackAnswers(ctx, s, attr);
    }
  }

  /** The fallback answers every attribute, so the hook always does. */
  lemma HandleAlwaysAnswers(ctx: HandlerContext, s: ElemState, attr: AttributeOrigin)
    requires s.error.None?
    ensures Handle(ctx, s, attr).1.Some?
  {
    BailAnswers(ctx, 0, s, attr);
  }

  /** A directive attribute is decided by the first handler. */
  lemma DirectiveFirst(ctx: HandlerContext, s: ElemState, attr: AttributeOrigin)
    requires s.error.None?
    requires TemplateConstants.Lookup(TemplateConstants.DIRECTIVES_MAP, attr.key).Some?
    ensures Handle(ctx, s, attr) == DirectiveHandler(ctx, s, attr)
  {
    assert TAPS[0] == DirectivesTap;
  }

  /** A directive is never emitted; it is recorded on the element's
   *  collector under its short name. `if`, `elif` and `else` give the
   *  element a fresh key and append the condition, with that key, to the
   *  parent's list; `for` names its item and index `item` and `index`. */
  lemma DirectiveRecorded(ctx: HandlerContext, s: ElemState, attr: AttributeOrigin, dir: string)
    requires s.error.None? && s.collector.Some?
    requires TemplateConstants.Lookup(TemplateConstants.DIRECTIVES_MAP, attr.key) == Some(dir)
    ensures var r := Handle(ctx, s, attr);
      var v := DirectiveValue(ctx, attr.value);
      && r.1 == Some(AttributeInfo(dir, v, None, true, false))
      && r.0.collector.Some?
      && Get(r.0.collector.value.directives, dir) == Some(Exp(v))
      && r.0.error.None? && r.0.name == s.name
      && (dir == "if" || dir == "elif" || dir == "else" ==>
            && r.0.matrixKey == Some(FreshKey(s.nextGuid))
            && r.0.nextGuid == s.nextGuid + 1
            && (s.parentCollector.Some? ==>
                  r.0.parentCollector == Some(s.parentCollector.value.(conditionsChildren :=
                    s.parentCollector.value.conditionsChildren + [AttributeInfo(dir, v, Some(FreshKey(s.nextGuid)), false, false)])))
            && (s.parentCollector.None? ==> r.0.parentCollector.None?))
      && (dir == "for" ==>
            && Get(r.0.collector.value.variables, "item") == Some("item")
            && Get(r.0.collector.value.variables, "index") == Some("index")
            && r.0.matrixKey == s.matrixKey && r.0.parentCollector == s.parentCollector)
  {
    DirectiveFirst(ctx, s, attr);
    var v := DirectiveValue(ctx, attr.value);
    var c := s.collector.value;
    var c1 := c.(directives := Put(c.directives, dir, Exp(v)));
    PutSpec(c.directives, dir, Exp(v));
    if dir == "for" {
      PutSpec(c1.variables, "item", "item");
      PutSpec(Put(c1.variables, "item", "item"), "index", "index");
    }
  }

  /** A directive renders as nothing. */
  lemma DirectiveNeverEmitted(ctx: HandlerContext, s: ElemState, attr: AttributeOrigin)
    requires s.error.None?
    requires TemplateConstants.Lookup(TemplateConstants.DIRECTIVES_MAP, attr.key).Some?
    ensures Handle(ctx, s, attr).1.Some? && Handle(ctx, s, attr).1.value.removeAttribute
  {
    DirectiveFirst(ctx, s, attr);
  }

  /** An attribute no earlier handler claims falls through to the fallback,
   *  and the element is left as it was. */
  lemma FallThrough(ctx: HandlerContext, s: ElemState, attr: AttributeOrigin)
    requires s.error.None?
    requires TemplateConstants.Lookup(TemplateConstants.DIRECTIVES_MAP, attr.key).None?
    requires !IsEventKey(attr.key)
    requires TemplateConstants.Lookup(TemplateConstants.VARIABLES_MAP, attr.key).None?
    requires TemplateConstants.Lookup(TemplateConstants.ATTRS_MAP, attr.key).None?
    requires !StartsWith(attr.key, "data-")
    requires !(s.name == "template" && (attr.key == "data" || attr.key == "callEvent"))
    ensures Handle(ctx, s, attr) == FallbackHandler(ctx, s, attr)
  {
    DirectiveDeclines(ctx, s, attr);
    EventDeclines(ctx, s, attr);
    VariableDeclines(ctx, s, attr);
    AttrsDeclines(ctx, s, attr);
    DatasetDeclines(ctx, s, attr);
    TemplateDeclines(ctx, s, attr);
    BailToFallback(ctx, s, attr);
  }

  /** When the first six handlers decline, the fallback answers. */
  lemma BailToFallback(ctx: HandlerContext, s: ElemState, attr: AttributeOrigin)
    requires s.error.None?
    requires RunTap(ctx, DirectivesTap, s, attr) == (s, None) && RunTap(ctx, EventsTap, s, attr) == (s, None)
    requires RunTap(ctx, VariablesTap, s, attr) == (s, None) && RunTap(ctx, AttrsTap, s, attr) == (s, None)
    requires RunTap(ctx, DatasetTap, s, attr) == (s, None) && RunTap(ctx, TemplateDataTap, s, attr) == (s, None)
    ensures Handle(ctx, s, attr) == FallbackHandler(ctx, s, attr)
  {
    FallbackAnswers(ctx, s, attr);
    assert Bail(ctx, 6, s, attr) == FallbackHandler(ctx, s, attr);
    assert Bail(ctx, 5, s, attr) == Bail(ctx, 6, s, attr);
    assert Bail(ctx, 4, s, attr) == Bail(ctx, 5, s, attr);
    assert Bail(ctx, 3, s, attr) == Bail(ctx, 4, s, attr);
    assert Bail(ctx, 2, s, attr) == Bail(ctx, 3, s, attr);
    assert Bail(ctx, 1, s, attr) == Bail(ctx, 2, s, attr);
  }

  /** Each handler but the fallback declines an attribute it does not
   *  know, leaving the element as it is; the fallback always answers. */
  lemma DirectiveDeclines(ctx: HandlerContext, s: ElemState, attr: AttributeOrigin)
    requires TemplateConstants.Lookup(TemplateConstants.DIRECTIVES_MAP, attr.key).None?
    ensures RunTap(ctx, DirectivesTap, s, attr) == (s, None)
  {
  }

  lemma EventDeclines(ctx: HandlerContext, s: ElemState, attr: AttributeOrigin)
    requires !IsEventKey(attr.key)
    ensures RunTap(ctx, EventsTap, s, attr) == (s, None)
  {
  }

  lemma VariableDeclines(ctx: HandlerContext, s: ElemState, attr: AttributeOrigin)
    requires TemplateConstants.Lookup(TemplateConstants.VARIABLES_MAP, attr.key).None?
    ensures RunTap(ctx, VariablesTap, s, attr) == (s, None)
  {
  }

  lemma AttrsDeclines(ctx: HandlerContext, s: ElemState, attr: AttributeOrigin)
    requires TemplateConstants.Lookup(TemplateConstants.ATTRS_MAP, attr.key).None?
    ensures RunTap(ctx, AttrsTap, s, attr) == (s, None)
  {
  }

  lemma DatasetDeclines(ctx: HandlerContext, s: ElemState, attr: AttributeOrigin)
    requires !StartsWith(attr.key, "data-")
    ensures RunTap(ctx, DatasetTap, s, attr) == (s, None)
  {
  }

  lemma TemplateDeclines(ctx: HandlerContext, s: ElemState, attr: AttributeOrigin)
    requires !(s.name == "template" && (attr.key == "data" || attr.key == "callEvent"))
    ensures RunTap(ctx, TemplateDataTap, s, attr) == (s, None)
  {
  }

  lemma FallbackAnswers(ctx: HandlerContext, s: ElemState, attr: AttributeOrigin)
    ensures RunTap(ctx, FallbackTap, s, attr) == FallbackHandler(ctx, s, attr)
    ensures RunTap(ctx, FallbackTap, s, attr).1.Some?
  {
  }

  /** An empty value counts as `{{true}}`; the name is camel-cased; a value
   *  without a binding stays quoted. */
  lemma FallbackValues(ctx: HandlerContext, s: ElemState, key: string, value: string)
    ensures FallbackHandler(ctx, s, AttributeOrigin(key, "")) ==
      (s, Some(AttributeInfo(Utils.Camelcase(key), ctx.format(Multiple, "{{true}}"), None, false, true)))
    ensures value != "" && !HasMustache(value) ==>
      FallbackHandler(ctx, s, AttributeOrigin(key, value)) ==
      (s, Some(AttributeInfo(Utils.Camelcase(key), value, None, false, false)))
  {
    assert "{{" + "true" + "}}" == "{{true}}";
    WrappedIsMustache("true");
  }

  /** Once a handler has thrown, the element no longer changes. */
  lemma ErrorStops(ctx: HandlerContext, s: ElemState, attr: AttributeOrigin)
    requires s.error.Some?
    ensures Handle(ctx, s, attr) == (s, None)
  {
  }

  // ---------------------------------------------------------------------
  // event names
  // ---------------------------------------------------------------------

  lemma NotStartsWith(s: string, p: string, i: nat)
    requires i < |p| && i < |s| && s[i] != p[i]
    ensures !StartsWith(s, p)
  {
    if |p| <= |s| {
      assert s[..|p|][i] == s[i];
    }
  }

  /** Which prefix the event pattern takes off `p + rest`. */
  lemma EventPrefixOf(p: string, rest: string)
    requires p == "bind:" || p == "catch:" || p == "bind" || p == "catch"
    requires rest == "" || rest[0] != ':'
    ensures EventPrefixLength(p + rest) == |p|
  {
    var key := p + rest;
    assert key[..|p|] == p;
    if p == "bind" {
      if rest != "" {
        NotStartsWith(key, "bind:", 4);
      }
      NotStartsWith(key, "catch:", 0);
    } else if p == "catch" {
      NotStartsWith(key, "bind:", 0);
      if rest != "" {
        NotStartsWith(key, "catch:", 5);
      }
      NotStartsWith(key, "bind", 0);
    } else if p == "catch:" {
      NotStartsWith(key, "bind:", 0);
    }
  }

  lemma OnCapitalized(rest: string)
    requires rest != ""
    ensures var n := "on" + rest; n[..2] + [UpperChar(n[2])] + n[3..] == "on" + Utils.FirstLetterUppercase(rest)
  {
    var n := "on" + rest;
    assert n[..2] == "on" && n[2] == rest[0] && n[3..] == rest[1..];
    var u := Utils.FirstLetterUppercase(rest);
    assert u == [UpperChar(rest[0])] + rest[1..];
  }

  lemma EventNameOfPlain(key: string, rest: string)
    requires TemplateConstants.Lookup(TemplateConstants.EVENTS_MAP, key).None?
    requires key[EventPrefixLength(key)..] == rest
    requires rest != "" && '-' !in rest
    ensures EventName(key) == Ok("on" + Utils.FirstLetterUppercase(rest))
  {
    var n := "on" + rest;
    assert '-' !in n;
    Utils.CamelcaseIdentityWithoutDash(n);
    OnCapitalized(rest);
  }

  /** A prefixed event name `bind:x`, `catch:x`, `bindx` or `catchx` not in
   *  the table becomes `on` followed by x with its first letter upper-cased. */
  lemma EventNamePrefixed(p: string, rest: string)
    requires p == "bind:" || p == "catch:" || p == "bind" || p == "catch"
    requires rest != "" && '-' !in rest && rest[0] != ':'
    requires TemplateConstants.Lookup(TemplateConstants.EVENTS_MAP, p + rest).None?
    ensures IsEventKey(p + rest)
    ensures EventName(p + rest) == Ok("on" + Utils.FirstLetterUppercase(rest))
  {
    var key := p + rest;
    EventPrefixOf(p, rest);
    assert key[|p|..] == rest;
    EventNameOfPlain(key, rest);
  }

  lemma OnUnchanged()
    ensures Utils.Camelcase("on") == "on"
  {
    Utils.CamelcaseIdentityWithoutDash("on");
  }

  lemma DerivedEventNameShort(key: string, n: nat)
    requires EventPrefixLength(key) == n == |key|
    ensures DerivedEventName(key).Err?
  {
    assert key[n..] == "";
    assert "on" + key[n..] == "on";
    OnUnchanged();
  }

  lemma EventNameShort(key: string)
    requires TemplateConstants.Lookup(TemplateConstants.EVENTS_MAP, key).None?
    requires EventPrefixLength(key) == |key|
    ensures EventName(key).Err?
  {
    DerivedEventNameShort(key, |key|);
  }



  /** A thrown error is recorded on the element, and the attribute is
   *  answered (and removed) so that no later handler sees it. */
  lemma EventErrorRecorded(ctx: HandlerContext, s: ElemState, attr: AttributeOrigin)
    requires IsEventKey(attr.key) && EventName(attr.key).Err?
    ensures EventHandler(ctx, s, attr) ==
      (s.(error := Some(EventName(attr.key).error)), Some(AttributeInfo(attr.key, attr.value, None, true, false)))
  {
  }

  /** A bare prefix leaves `on` alone, which has no third character: the
   *  handler throws. */
  lemma EventNameBarePrefix(ctx: HandlerContext, s: ElemState, p: string)
    requires p == "bind:" || p == "catch:" || p == "bind" || p == "catch"
    requires TemplateConstants.Lookup(TemplateConstants.EVENTS_MAP, p).None?
    ensures EventName(p).Err?
    ensures EventHandler(ctx, s, AttributeOrigin(p, "")).0.error.Some?
  {
    EventPrefixOf(p, "");
    assert p + "" == p;
    EventNameShort(p);
    EventErrorRecorded(ctx, s, AttributeOrigin(p, ""));
  }


  /** A key starting with neither `b` nor `c` is no event. */
  lemma NoEventPrefix(key: string)
    requires key != "" && key[0] != 'b' && key[0] != 'c'
    ensures !IsEventKey(key)
  {
    NotStartsWith(key, "bind:", 0);
    NotStartsWith(key, "catch:", 0);
    NotStartsWith(key, "bind", 0);
    NotStartsWith(key, "catch", 0);
    TemplateConstants.EventKeysArePrefixed();
    TemplateConstants.LookupSpec(TemplateConstants.EVENTS_MAP, key);
  }

  /** A plain handler name is quoted inside `wmrt.event`, and the attribute
   *  goes out unquoted. */
  lemma EventValuePlain(ctx: HandlerContext, s: ElemState, attr: AttributeOrigin)
    requires IsEventKey(attr.key) && EventName(attr.key).Ok? && !HasMustache(attr.value)
    ensures EventHandler(ctx, s, attr) ==
      (s, Some(AttributeInfo(EventName(attr.key).value, "{ wmrt.event(" + ("\"" + attr.value + "\"") + ", this) }", None, false, true)))
  {
  }

  // ---------------------------------------------------------------------
  // wx:key
  // ---------------------------------------------------------------------

  /** `*this` is the item itself; the index name is the index; any other
   *  non-empty value is a field of the item; no value is the index. */
  lemma KeyValueCases(value: string, item: string, index: string)
    requires item != ""
    ensures value != "" && Trim(value) == "*this" ==> KeyValue(value, item, index) == item
    ensures value != "" && Trim(value) != "*this" && value != index ==> KeyValue(value, item, index) == item + "." + value
    ensures value != "" && Trim(value) != "*this" && value == index ==> KeyValue(value, item, index) == index
    ensures value == "" ==> KeyValue(value, item, index) == index
  {
  }

  /** `wx:key` on an element with a collector is resolved against the item
   *  and index names recorded so far (`item` and `index` when none), stored
   *  as the loop's key, and emitted as `key={ k }`. */
  lemma WxKeyVariable(ctx: HandlerContext, s: ElemState, value: string)
    requires s.collector.Some?
    ensures var vars := s.collector.value.variables;
      var k := KeyValue(value, VarOr(vars, "item", "item"), VarOr(vars, "index", "index"));
      var r := VariableHandler(ctx, s, AttributeOrigin("wx:key", value));
      && r.1 == Some(AttributeInfo("key", "{ " + k + " }", None, false, true))
      && r.0.collector.Some?
      && Get(r.0.collector.value.variables, "key") == Some(k)
  {
    TemplateConstants.VariablesMapExact("wx:key");
    TemplateConstants.RemovedAreVariables();
    var c := s.collector.value;
    var k := KeyValue(value, VarOr(c.variables, "item", "item"), VarOr(c.variables, "index", "index"));
    PutSpec(c.variables, "key", k);
  }

  lemma WxKeyResolved(ctx: HandlerContext, s: ElemState, value: string)
    requires s.error.None? && s.collector.Some?
    ensures var vars := s.collector.value.variables;
      var k := KeyValue(value, VarOr(vars, "item", "item"), VarOr(vars, "index", "index"));
      var r := Handle(ctx, s, AttributeOrigin("wx:key", value));
      && r.1 == Some(AttributeInfo("key", "{ " + k + " }", None, false, true))
      && r.0.collector.Some?
      && Get(r.0.collector.value.variables, "key") == Some(k)
  {
    var attr := AttributeOrigin("wx:key", value);
    TemplateConstants.DirectivesMapExact("wx:key");
    DirectiveDeclines(ctx, s, attr);
    NoEventPrefix("wx:key");
    EventDeclines(ctx, s, attr);
    WxKeyVariable(ctx, s, value);
    HandledByVariables(ctx, s, attr);
  }

  /** An attribute the first two handlers decline and the third answers is
   *  the third's. */
  lemma HandledByVariables(ctx: HandlerContext, s: ElemState, attr: AttributeOrigin)
    requires s.error.None?
    requires RunTap(ctx, DirectivesTap, s, attr) == (s, None) && RunTap(ctx, EventsTap, s, attr) == (s, None)
    requires RunTap(ctx, VariablesTap, s, attr).1.Some?
    ensures Handle(ctx, s, attr) == RunTap(ctx, VariablesTap, s, attr)
  {
    BailPastTwo(ctx, 0, s, attr);
    BailAnswered(ctx, 2, s, attr);
  }

  /** Two handlers in a row that decline hand the attribute on past both. */
  lemma BailPastTwo(ctx: HandlerContext, i: nat, s: ElemState, attr: AttributeOrigin)
    requires i + 1 < |TAPS| && RunTap(ctx, TAPS[i], s, attr) == (s, None) && RunTap(ctx, TAPS[i + 1], s, attr) == (s, None)
    ensures Bail(ctx, i, s, attr) == Bail(ctx, i + 2, s, attr)
  {
    BailPast(ctx, i, s, attr);
    BailPast(ctx, i + 1, s, attr);
  }


  // ---------------------------------------------------------------------
  // class and id
  // ---------------------------------------------------------------------

  /** With isolation on, a static class list is scoped at compile time
   *  exactly as `wmrt.cn` would scope it at run time. */
  lemma StaticClassMatchesRuntime(value: string, componentName: string)
    requires value != ""
    ensures Runtime.Cn(Runtime.Str(value), componentName) == Runtime.Str(StaticRuntimeValue(value, true, componentName))
  {
  }

  /** `class` becomes `className`, scoped when styles are isolated. */
  lemma ClassScoped(ctx: HandlerContext, s: ElemState, value: string)
    requires !HasMustache(value)
    ensures AttrsHandler(ctx, s, AttributeOrigin("class", value)) ==
      (s, Some(AttributeInfo("className", StaticRuntimeValue(value, ctx.enableStyleIsolation, ctx.componentName), None, false, false)))
  {
    TemplateConstants.AttrsMapExact("class");
  }

  /** `id` is never scoped. */
  lemma IdNotScoped(ctx: HandlerContext, s: ElemState, value: string)
    requires !HasMustache(value)
    ensures AttrsHandler(ctx, s, AttributeOrigin("id", value)) ==
      (s, Some(AttributeInfo("id", StaticRuntimeValue(value, false, ctx.componentName), None, false, false)))
  {
    TemplateConstants.AttrsMapExact("id");
  }

  /** A static value without stray spaces is emitted as written when it is
   *  not scoped. */
  lemma UnscopedAsWritten(value: string, componentName: string)
    requires forall k :: 0 <= k < |Split(value, ' ')| ==> Split(value, ' ')[k] != ""
    ensures StaticRuntimeValue(value, false, componentName) == value
  {
    SplitJoin(value, ' ');
  }

  // ---------------------------------------------------------------------
  // style
  // ---------------------------------------------------------------------

  lemma NoBraceNoOpenAt(s: string)
    requires '{' !in s
    ensures forall j :: 0 <= j ==> !OccursAt(s, "{{", j)
  {
    forall j | 0 <= j ensures !OccursAt(s, "{{", j) {
      if j + 2 <= |s| {
        assert s[j..j + 2][0] == s[j];
      }
    }
  }

  lemma NoBraceNoMustache(s: string)
    requires '{' !in s
    ensures !HasMustache(s) && !Contains(s, "{{")
  {
    NoBraceNoOpenAt(s);
    NoOpenNoMustache(s, 0);
    IndexOfSpec(s, "{{");
  }

  /** `{{e}}` is a binding when e has no `}` and no line break. */
  lemma WrappedIsMustache(exp: string)
    requires '}' !in exp && NoLineTerminator(exp)
    ensures HasMustache("{{" + exp + "}}")
  {
    var t := "{{" + exp + "}}";
    forall j | 0 <= j ensures !OccursAt(exp, "}", j) {
      if j + 1 <= |exp| {
        assert exp[j..j + 1][0] == exp[j];
      }
    }
    assert t[2..2 + |exp|] == exp;
    assert t[2 + |exp|..2 + |exp| + 2] == "}}";
    IndexOfSpec(exp, "}");
    CloseAfterExp(t, 2, exp);
    assert t[0..2] == "{{";
  }

  /** One plain declaration `k:v` followed by `; ` becomes `{{"k": "v"}}`:
   *  the empty last segment is dropped (the run-time `wmrt.style` throws on
   *  the same text). */
  lemma StyleOneDeclaration(ctx: HandlerContext, k: string, v: string)
    requires k != "" && v != ""
    requires !IsSpace(k[0]) && !IsSpace(k[|k| - 1]) && !IsSpace(v[0]) && !IsSpace(v[|v| - 1])
    requires ':' !in k && ';' !in k && ';' !in v && '-' !in k && '{' !in k && '{' !in v
    requires !Contains(v, "px")
    ensures FormatStyleValue(ctx, k + ":" + v + "; ") == "{{" + ("\"" + k + "\": \"" + v + "\"") + "}}"
  {
    var decl := k + ":" + v;
    var value := decl + "; ";
    var item := "\"" + k + "\": \"" + v + "\"";
    OneDeclarationNoMustache(k, v);
    StyleDeclarationSplit(decl);
    StyleItemPlain(k, v);
    ItemsOfSplit(value, decl, item);
    FormatStyleOfItems(ctx, value, [item]);
    assert Join([item], ",") == item;
  }

  /** The declaration text has no braces, hence no mustache. */
  lemma OneDeclarationNoMustache(k: string, v: string)
    requires '{' !in k && '{' !in v
    ensures !HasMustache(k + ":" + v + "; ")
  {
    var value := k + ":" + v + "; ";
    assert '{' !in value;
    NoBraceNoMustache(value);
  }

  lemma FormatStyleOfItems(ctx: HandlerContext, value: string, items: seq<string>)
    requires !HasMustache(value) && StyleItems(Split(value, ';')) == items
    ensures FormatStyleValue(ctx, value) == "{{" + Join(items, ",") + "}}"
  {
  }

  lemma ItemsOfSplit(value: string, decl: string, item: string)
    requires Split(value, ';') == [decl, " "] && StyleItem(decl) == Some(item)
    ensures StyleItems(Split(value, ';')) == [item]
  {
    StyleItemsOfOne(decl, " ", item);
  }

  lemma StyleItemsOfOne(decl: string, tail: string, item: string)
    requires StyleItem(decl) == Some(item) && ':' !in tail
    ensures StyleItems([decl, tail]) == [item]
  {
    assert [decl, tail][1..] == [tail];
    assert StyleItems([tail]) == [];
  }


  lemma StyleDeclarationSplit(decl: string)
    requires ';' !in decl
    ensures Split(decl + "; ", ';') == [decl, " "]
  {
    assert decl + "; " == decl + [';'] + " ";
    SplitConcat(decl, " ", ';');
    SplitNoSeparator(decl, ';');
    SplitNoSeparator(" ", ';');
  }

  lemma SplitByAt(k: string, v: string, flag: char)
    requires flag !in k
    ensures SplitBy(k + [flag] + v, flag) == (k, v)
  {
    var str := k + [flag] + v;
    assert str[|k|] == flag;
    SplitByRejoins(str, flag);
    var parts := SplitBy(str, flag);
    assert str[..|k|] == k;
    assert str[|parts.0|] == flag;
    assert |parts.0| == |k|;
    assert parts.0 == str[..|k|] == k;
    assert parts.1 == str[|k| + 1..] == v;
  }

  lemma TrimUnchanged(x: string)
    requires x != "" && !IsSpace(x[0]) && !IsSpace(x[|x| - 1])
    ensures Trim(x) == x
  {
    assert TrimStart(x) == x;
  }

  lemma StyleItemPlain(k: string, v: string)
    requires k != "" && v != ""
    requires !IsSpace(k[0]) && !IsSpace(k[|k| - 1]) && !IsSpace(v[0]) && !IsSpace(v[|v| - 1])
    requires ':' !in k && '-' !in k && '{' !in k
    requires !Contains(v, "px")
    ensures StyleItem(k + ":" + v) == Some("\"" + k + "\": \"" + v + "\"")
  {
    assert k + ":" + v == k + [':'] + v;
    SplitByAt(k, v, ':');
    TrimUnchanged(k);
    TrimUnchanged(v);
    NoBraceNoMustache(k);
    assert StyleKey(k) == k;
  }

  /** A plain declaration: trimmed key and value, no `:` in the key, no `;`
   *  and no brace in either, and no length in the value. */
  predicate PlainDeclaration(k: string, v: string)
  {
    k != "" && v != "" &&
    !IsSpace(k[0]) && !IsSpace(k[|k| - 1]) && !IsSpace(v[0]) && !IsSpace(v[|v| - 1]) &&
    ':' !in k && ';' !in k && ';' !in v && '{' !in k && '{' !in v && !Contains(v, "px")
  }

  /** The segments `k:v` of the declarations. */
  function Declarations(ks: seq<string>, vs: seq<string>): (ds: seq<string>)
    requires |ks| == |vs|
    ensures |ds| == |ks|
  {
    if ks == [] then [] else [ks[0] + ":" + vs[0]] + Declarations(ks[1..], vs[1..])
  }

  /** The object entries `"key": "v"` of the declarations, keys as
   *  `StyleKey` writes them. */
  function PlainItems(ks: seq<string>, vs: seq<string>): (items: seq<string>)
    requires |ks| == |vs|
    ensures |items| == |ks|
    ensures forall i :: 0 <= i < |ks| ==> items[i] == "\"" + StyleKey(ks[i]) + "\": \"" + vs[i] + "\""
  {
    if ks == [] then [] else ["\"" + StyleKey(ks[0]) + "\": \"" + vs[0] + "\""] + PlainItems(ks[1..], vs[1..])
  }

  /** A plain declaration becomes one entry under its camel-cased key. */
  lemma StyleItemKeyed(k: string, v: string)
    requires PlainDeclaration(k, v)
    ensures StyleItem(k + ":" + v) == Some("\"" + StyleKey(k) + "\": \"" + v + "\"")
  {
    assert k + ":" + v == k + [':'] + v;
    SplitByAt(k, v, ':');
    TrimUnchanged(k);
    TrimUnchanged(v);
    NoBraceNoMustache(k);
  }

  /** The present results of `f` over `xs`, in order. */
  function FilterMap(f: string -> Option<string>, xs: seq<string>): seq<string>
  {
    if xs == [] then []
    else (if f(xs[0]).Some? then [f(xs[0]).value] else []) + FilterMap(f, xs[1..])
  }

  lemma {:induction false} FilterMapAppend(f: string -> Option<string>, xs: seq<string>, ys: seq<string>)
    ensures FilterMap(f, xs + ys) == FilterMap(f, xs) + FilterMap(f, ys)
    decreases |xs|
  {
    if xs != [] {
      var head := if f(xs[0]).Some? then [f(xs[0]).value] else [];
      assert (xs + ys)[0] == xs[0];
      assert (xs + ys)[1..] == xs[1..] + ys;
      FilterMapAppend(f, xs[1..], ys);
      calc {
        FilterMap(f, xs + ys);
        head + FilterMap(f, xs[1..] + ys);
        head + (FilterMap(f, xs[1..]) + FilterMap(f, ys));
        (head + FilterMap(f, xs[1..])) + FilterMap(f, ys);
      }
    } else {
      assert xs + ys == ys;
    }
  }

  /** Where `f` is present on every element, its results are kept, one per
   *  element. */
  lemma {:induction false} FilterMapAll(f: string -> Option<string>, xs: seq<string>, ys: seq<string>)
    requires |xs| == |ys| && forall i :: 0 <= i < |xs| ==> f(xs[i]) == Some(ys[i])
    ensures FilterMap(f, xs) == ys
    decreases |xs|
  {
    if xs != [] {
      FilterMapAll(f, xs[1..], ys[1..]);
    }
  }

  lemma {:induction false} StyleItemsFilterMap(xs: seq<string>)
    ensures StyleItems(xs) == FilterMap(StyleItem, xs)
    decreases |xs|
  {
    if xs != [] {
      StyleItemsFilterMap(xs[1..]);
    }
  }

  /** The segments are formatted one by one, in order. */
  lemma StyleItemsAppend(xs: seq<string>, ys: seq<string>)
    ensures StyleItems(xs + ys) == StyleItems(xs) + StyleItems(ys)
  {
    StyleItemsFilterMap(xs + ys);
    StyleItemsFilterMap(xs);
    StyleItemsFilterMap(ys);
    FilterMapAppend(StyleItem, xs, ys);
  }

  /** A segment without `:` contributes nothing, wherever it stands. */
  lemma StyleSegmentDropped(xs: seq<string>, x: string, ys: seq<string>)
    requires ':' !in x
    ensures StyleItems(xs + [x] + ys) == StyleItems(xs + ys)
  {
    StyleItemsFilterMap(xs + [x] + ys);
    StyleItemsFilterMap(xs + ys);
    FilterMapAppend(StyleItem, xs + [x], ys);
    FilterMapAppend(StyleItem, xs, [x]);
    FilterMapAppend(StyleItem, xs, ys);
    assert StyleItem(x).None?;
    assert FilterMap(StyleItem, [x]) == [];
  }

  lemma StyleItemsOfDeclarations(ks: seq<string>, vs: seq<string>)
    requires |ks| == |vs| && forall i :: 0 <= i < |ks| ==> PlainDeclaration(ks[i], vs[i])
    ensures StyleItems(Declarations(ks, vs)) == PlainItems(ks, vs)
  {
    var ds := Declarations(ks, vs);
    var items := PlainItems(ks, vs);
    forall i | 0 <= i < |ds| ensures StyleItem(ds[i]) == Some(items[i]) {
      DeclarationAt(ks, vs, i);
      StyleItemKeyed(ks[i], vs[i]);
    }
    StyleItemsFilterMap(ds);
    FilterMapAll(StyleItem, ds, items);
  }

  lemma {:induction false} JoinAvoids(parts: seq<string>, sep: string, c: char)
    requires c !in sep && forall i :: 0 <= i < |parts| ==> c !in parts[i]
    ensures c !in Join(parts, sep)
    decreases |parts|
  {
    if |parts| > 1 {
      JoinAvoids(parts[1..], sep, c);
    }
  }

  /** Several plain declarations `k1:v1;k2:v2;…` become the object literal
   *  of their entries in order, each key camel-cased unless it is a custom
   *  property. */
  lemma StyleDeclarations(ctx: HandlerContext, ks: seq<string>, vs: seq<string>)
    requires |ks| == |vs| >= 1 && forall i :: 0 <= i < |ks| ==> PlainDeclaration(ks[i], vs[i])
    ensures FormatStyleValue(ctx, Join(Declarations(ks, vs), ";")) == "{{" + Join(PlainItems(ks, vs), ",") + "}}"
  {
    var ds := Declarations(ks, vs);
    forall i | 0 <= i < |ds| ensures ';' !in ds[i] && '{' !in ds[i] {
      DeclarationAt(ks, vs, i);
    }
    JoinAvoids(ds, ";", '{');
    NoBraceNoMustache(Join(ds, ";"));
    SplitOfJoin(ds, ';');
    StyleItemsOfDeclarations(ks, vs);
  }

  lemma {:induction false} DeclarationAt(ks: seq<string>, vs: seq<string>, i: nat)
    requires |ks| == |vs| && i < |ks|
    ensures Declarations(ks, vs)[i] == ks[i] + ":" + vs[i]
    decreases i
  {
    if i > 0 {
      DeclarationAt(ks[1..], vs[1..], i - 1);
    }
  }

  // ---------------------------------------------------------------------
  // the referenced-data filter
  // ---------------------------------------------------------------------

  /** `isForAttribute`: the part of `attr` before the first `.` is the
   *  loop's item, index or key name. */
  predicate IsForAttribute(variables: Record<string>, attr: string)
  {
    var head := Split(attr, '.')[0];
    Get(variables, "item") == Some(head) || Get(variables, "index") == Some(head) || Get(variables, "key") == Some(head)
  }

  /** A `for` on the element owning this collector binds `attr`. */
  predicate ScopeBinds(c: Option<NodeCollector>, attr: string)
  {
    c.Some? && "for" in Keys(c.value.directives) && IsForAttribute(c.value.variables, attr)
  }

  /** `chain` lists the collectors from the element up to the root; the name
   *  is bound by the `for` of one of them. */
  predicate UnderScopeFor(chain: seq<Option<NodeCollector>>, attr: string)
  {
    chain != [] && (ScopeBinds(chain[0], attr) || UnderScopeFor(chain[1..], attr))
  }

  /** `isUnderScopeFor`: the walk from the element up through its parents. */
  method IsUnderScopeFor(chain: seq<Option<NodeCollector>>, attr: string) returns (r: bool)
    ensures r == UnderScopeFor(chain, attr)
  {
    var i := 0;
    while i < |chain|
      invariant 0 <= i <= |chain|
      invariant UnderScopeFor(chain, attr) == UnderScopeFor(chain[i..], attr)
    {
      var binds := BindsHere(chain[i], attr);
      if binds {
        return true;
      }
      assert chain[i..][1..] == chain[i + 1..];
      i := i + 1;
    }
    return false;
  }

  /** One step of the walk: whether this collector's `for` binds `attr`. */
  method BindsHere(current: Option<NodeCollector>, attr: string) returns (r: bool)
    ensures r == ScopeBinds(current, attr)
  {
    if current.Some? {
      var dirs := Keys(current.value.directives);
      if "for" in dirs && IsForAttribute(current.value.variables, attr) {
        return true;
      }
    }
    return false;
  }

  /** After `wx:for` has been handled on an element, its item and index
   *  (and any member path under them) are bound for that element. */
  lemma ForBindsItem(ctx: HandlerContext, s: ElemState, value: string, attr: string, outer: seq<Option<NodeCollector>>)
    requires s.error.None? && s.collector.Some?
    requires Split(attr, '.')[0] == "item" || Split(attr, '.')[0] == "index"
    ensures UnderScopeFor([Handle(ctx, s, AttributeOrigin("wx:for", value)).0.collector] + outer, attr)
  {
    var a := AttributeOrigin("wx:for", value);
    assert TemplateConstants.Lookup(TemplateConstants.DIRECTIVES_MAP, "wx:for") == Some("for");
    DirectiveRecorded(ctx, s, a, "for");
    var c := Handle(ctx, s, a).0.collector;
    assert ScopeBinds(c, attr);
    assert ([c] + outer)[0] == c;
  }

  /** The names one binding adds to the module's referenced data. */
  function Referenced(names: seq<string>, chain: seq<Option<NodeCollector>>): set<string>
  {
    set n | n in names && n != "undefined" && !UnderScopeFor(chain, n)
  }

  /** The `forEach` over the collected identifiers: every name that is not
   *  `undefined` and not bound by an enclosing `for` is added. */
  method AddReferencedData(names: seq<string>, chain: seq<Option<NodeCollector>>, referenced: set<string>) returns (r: set<string>)
    ensures r == referenced + Referenced(names, chain)
  {
    r := referenced;
    for k := 0 to |names|
      invariant r == referenced + Referenced(names[..k], chain)
    {
      var under := IsUnderScopeFor(chain, names[k]);
      assert names[..k + 1] == names[..k] + [names[k]];
      if !under && names[k] != "undefined" {
        r := r + {names[k]};
      }
    }
    assert names[..|names|] == names;
  }

  /** What a binding adds is among the identifiers written in it. */
  lemma ReferencedAreIdentifiers(e: CollectThisData.Expr, chain: seq<Option<NodeCollector>>)
    ensures Referenced(CollectThisData.Collect(e), chain) <= CollectThisData.Identifiers(e)
    ensures "undefined" !in Referenced(CollectThisData.Collect(e), chain)
  {
    CollectThisData.CollectedAreIdentifiers(e);
  }
}
