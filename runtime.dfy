/** The class-name and style helpers of the browser runtime
 *  (packages/runtime/src/wmrt.js): `camelcase`, `wmrt.cn` and `wmrt.style`,
 *  over a small model of JavaScript values. `wmrt.rem` (a floating-point unit
 *  conversion) is a parameter. */
module Runtime {
  import opened Wrappers
  import opened Strings
  import Utils

  /** The JavaScript values the helpers receive. Numbers are integers here. */
  datatype JsVal =
    | Undefined
    | Null
    | Bool(b: bool)
    | Num(n: int)
    | Str(s: string)
    | Arr(items: seq<JsVal>)
    | Obj

  /** JavaScript falsiness (with integers only, `0` is the one falsy number). */
  predicate Falsy(v: JsVal)
  {
    v == Undefined || v == Null || v == Bool(false) || v == Num(0) || v == Str("")
  }

  function DigitChar(d: nat): (c: char)
    requires d < 10
    ensures IsDigit(c)
  {
    ('0' as int + d) as char
  }

  function NatToString(n: nat): (r: string)
    ensures |r| >= 1 && forall i :: 0 <= i < |r| ==> IsDigit(r[i])
    ensures (|r| == 1) == (n < 10)
  {
    if n < 10 then [DigitChar(n)] else NatToString(n / 10) + [DigitChar(n % 10)]
  }

  /** `'' + n` for an integer. */
  function IntToString(n: int): (r: string)
    ensures |r| >= 1
  {
    if n < 0 then "-" + NatToString(-n) else NatToString(n)
  }

  /** `String(v)` as `Array.prototype.join` applies it to an element:
   *  `undefined` and `null` become the empty string. */
  function ElementString(v: JsVal): string
  {
    match v
    case Undefined => ""
    case Null => ""
    case Bool(b) => if b then "true" else "false"
    case Num(n) => IntToString(n)
    case Str(s) => s
    case Arr(items) => JoinValues(items, ",")
    case Obj => "[object Object]"
  }

  function JoinValues(items: seq<JsVal>, sep: string): string
    decreases items, 1
  {
    if items == [] then ""
    else if |items| == 1 then ElementString(items[0])
    else ElementString(items[0]) + sep + JoinValues(items[1..], sep)
  }

  // ---------------------------------------------------------------------
  // camelcase
  // ---------------------------------------------------------------------

  /** The `map` step of the runtime `camelcase`: the segment at index 0 is
   *  kept, every other has its first character upper-cased. */
  function MapSegments(segments: seq<string>, firstIndex: nat): (r: seq<string>)
    ensures |r| == |segments|
  {
    if segments == [] then []
    else
      [if firstIndex == 0 then segments[0] else Utils.FirstLetterUppercase(segments[0])]
      + MapSegments(segments[1..], firstIndex + 1)
  }

  /** `join('')`. */
  function Concat(parts: seq<string>): string
  {
    if parts == [] then "" else parts[0] + Concat(parts[1..])
  }

  /** The runtime's own copy of `camelcase`, as split, indexed map and join. */
  function Camelcase(name: string): string
  {
    Concat(MapSegments(Split(name, '-'), 0))
  }

  lemma {:induction false} MapTailIsCapitalized(segments: seq<string>, firstIndex: nat)
    requires firstIndex > 0
    ensures Concat(MapSegments(segments, firstIndex)) == Utils.CapitalizedTail(segments)
    decreases |segments|
  {
    if segments != [] {
      MapTailIsCapitalized(segments[1..], firstIndex + 1);
    }
  }

  /** The runtime `camelcase` and the shared utility agree on every input. */
  lemma CamelcaseAgrees(name: string)
    ensures Camelcase(name) == Utils.Camelcase(name)
  {
    var segments := Split(name, '-');
    MapTailIsCapitalized(segments[1..], 1);
    assert MapSegments(segments, 0) == [segments[0]] + MapSegments(segments[1..], 1);
  }

  // ---------------------------------------------------------------------
  // wmrt.cn
  // ---------------------------------------------------------------------

  /** The `map` and `filter` of `cn`: empty tokens are dropped, every other is
   *  suffixed `__<componentName>`. */
  function ScopeTokens(tokens: seq<string>, componentName: string): (r: seq<string>)
    ensures |r| <= |tokens|
    ensures forall k :: 0 <= k < |r| ==> r[k] != ""
  {
    if tokens == [] then []
    else if tokens[0] == "" then ScopeTokens(tokens[1..], componentName)
    else [tokens[0] + "__" + componentName] + ScopeTokens(tokens[1..], componentName)
  }

  /** `wmrt.cn(clsName, componentName)`. */
  function Cn(clsName: JsVal, componentName: string): JsVal
  {
    var v := if clsName.Num? then Str(IntToString(clsName.n)) else clsName;
    if Falsy(v) then v
    else if v.Str? then Str(Join(ScopeTokens(Split(v.s, ' '), componentName), " "))
    else if v.Arr? then Str(Join(ScopeTokens(Split(JoinValues(v.items, " "), ' '), componentName), " "))
    else v
  }

  /** A number is turned into a string before the falsiness test, so `0` is
   *  scoped like any class name; falsy values and values that are neither
   *  strings nor arrays come back unchanged. */
  lemma CnCases(v: JsVal, componentName: string)
    ensures Cn(Num(0), componentName) == Str("0__" + componentName)
    ensures Falsy(v) && !v.Num? ==> Cn(v, componentName) == v
    ensures v == Bool(true) || v == Obj ==> Cn(v, componentName) == v
    ensures v.Num? ==> Cn(v, componentName).Str? && Cn(v, componentName).s != ""
  {
    assert IntToString(0) == "0";
    SplitNoSeparator("0", ' ');
    if v.Num? {
      var s := IntToString(v.n);
      assert s[0] != ' ' by {
        if v.n < 0 { assert s[0] == '-'; } else { assert IsDigit(s[0]); }
      }
      var tokens := Split(s, ' ');
      assert tokens[0] != "";
      assert ScopeTokens(tokens, componentName) != [];
    }
  }

  /** Tokens separated by single spaces come out in order, each with the
   *  component suffix, and the empty ones (from doubled spaces) are gone:
   *  splitting the result on spaces gives exactly the scoped tokens. */
  lemma CnScopesEveryToken(s: string, componentName: string)
    requires s != [] && ' ' !in componentName
    ensures Cn(Str(s), componentName).Str?
    ensures var out := Cn(Str(s), componentName).s;
      var scoped := ScopeTokens(Split(s, ' '), componentName);
      scoped != [] ==> Split(out, ' ') == scoped
  {
    var scoped := ScopeTokens(Split(s, ' '), componentName);
    if scoped != [] {
      ScopeTokensHaveNoSpace(Split(s, ' '), componentName);
      SplitOfJoin(scoped, ' ');
    }
  }

  lemma {:induction false} ScopeTokensHaveNoSpace(tokens: seq<string>, componentName: string)
    requires ' ' !in componentName
    requires forall k :: 0 <= k < |tokens| ==> ' ' !in tokens[k]
    ensures forall k :: 0 <= k < |ScopeTokens(tokens, componentName)| ==> ' ' !in ScopeTokens(tokens, componentName)[k]
    decreases |tokens|
  {
    if tokens != [] {
      ScopeTokensHaveNoSpace(tokens[1..], componentName);
      var t := tokens[0] + "__" + componentName;
      assert forall i :: 0 <= i < |t| ==> t[i] != ' ' by {
        forall i | 0 <= i < |t| ensures t[i] != ' ' {
          if i < |tokens[0]| { assert t[i] == tokens[0][i]; }
          else if i >= |tokens[0]| + 2 { assert t[i] == componentName[i - |tokens[0]| - 2]; }
        }
      }
    }
  }

  /** A single token gets exactly the suffix. */
  lemma ScopeOneToken(token: string, componentName: string)
    requires token != [] && ' ' !in token
    ensures Cn(Str(token), componentName) == Str(token + "__" + componentName)
  {
    SplitNoSeparator(token, ' ');
  }

  /** The strings `join` makes of an array's elements. */
  function ElementStrings(items: seq<JsVal>): seq<string>
  {
    seq(|items|, k requires 0 <= k < |items| => ElementString(items[k]))
  }

  lemma {:induction false} JoinValuesIsJoin(items: seq<JsVal>, sep: string)
    ensures JoinValues(items, sep) == Join(ElementStrings(items), sep)
    decreases |items|
  {
    if |items| > 1 {
      JoinValuesIsJoin(items[1..], sep);
      assert ElementStrings(items)[1..] == ElementStrings(items[1..]);
    }
  }

  /** An array of class names (`undefined`, `null` and `''` among them
   *  standing for no class) becomes its non-empty entries, in order, each
   *  with the component suffix, separated by single spaces. */
  lemma CnOfArray(items: seq<JsVal>, componentName: string)
    requires forall k :: 0 <= k < |items| ==> ' ' !in ElementString(items[k])
    ensures Cn(Arr(items), componentName) == Str(Join(ScopeTokens(ElementStrings(items), componentName), " "))
  {
    JoinValuesIsJoin(items, " ");
    if items != [] {
      assert " " == [' '];
      SplitOfJoin(ElementStrings(items), ' ');
    }
  }

  // ---------------------------------------------------------------------
  // wmrt.style
  // ---------------------------------------------------------------------

  /** A style object: keys in insertion order, each with its value. */
  type StyleObject = seq<(string, string)>

  function IndexOfKey(obj: StyleObject, key: string): (i: int)
    ensures -1 <= i < |obj|
    ensures i >= 0 ==> obj[i].0 == key
    ensures i == -1 ==> forall k :: 0 <= k < |obj| ==> obj[k].0 != key
    ensures i >= 0 ==> forall k :: 0 <= k < i ==> obj[k].0 != key
  {
    if obj == [] then -1
    else
      var j := IndexOfKey(obj[..|obj| - 1], key);
      if j >= 0 then j else if obj[|obj| - 1].0 == key then |obj| - 1 else -1
  }

  /** `obj[key] = value` on a plain object: an existing key keeps its place
   *  and takes the new value, a new key goes last. */
  function SetKey(obj: StyleObject, key: string, value: string): (r: StyleObject)
    ensures IndexOfKey(obj, key) >= 0 ==> |r| == |obj| && IndexOfKey(r, key) == IndexOfKey(obj, key)
    ensures IndexOfKey(obj, key) == -1 ==> r == obj + [(key, value)]
    ensures IndexOfKey(r, key) >= 0 && r[IndexOfKey(r, key)] == (key, value)
    ensures forall j :: 0 <= j < |obj| && obj[j].0 != key ==> r[j] == obj[j]
  {
    var i := IndexOfKey(obj, key);
    if i >= 0 then
      var r := obj[i := (key, value)];
      FirstKeyIndex(r, key, i);
      r
    else
      var r := obj + [(key, value)];
      FirstKeyIndex(r, key, |obj|);
      r
  }

  /** The first position holding a key is the one `IndexOfKey` finds. */
  lemma FirstKeyIndex(obj: StyleObject, key: string, i: nat)
    requires i < |obj| && obj[i].0 == key
    requires forall k :: 0 <= k < i ==> obj[k].0 != key
    ensures IndexOfKey(obj, key) == i
  {
  }

  /** The property name a style key becomes: trimmed, then camelcased when it
   *  contains `-` and does not start with `--`. */
  function StyleKey(k: string): string
  {
    var t := Trim(k);
    if !StartsWith(t, "--") && '-' in t then Camelcase(t) else t
  }

  /** The text between the first and the second `:` of a segment, if there is
   *  a first `:`. */
  function ValueAfterColon(pair: string): Option<string>
  {
    var parts := Split(pair, ':');
    if |parts| >= 2 then Some(parts[1]) else None
  }

  /** One step of the `reduce` of `wmrt.style`: an empty key is skipped; a
   *  non-empty key without a `:` reaches `undefined.trim()` and throws. */
  function StyleStep(obj: StyleObject, pair: string, rem: string -> string): Result<StyleObject>
  {
    var k := Split(pair, ':')[0];
    if k == "" then Ok(obj)
    else
      match ValueAfterColon(pair)
      case None => Err("TypeError: Cannot read properties of undefined (reading 'trim')")
      case Some(v) => Ok(SetKey(obj, StyleKey(k), rem(Trim(v))))
  }

  function StyleFold(obj: StyleObject, pairs: seq<string>, rem: string -> string): Result<StyleObject>
    decreases |pairs|
  {
    if pairs == [] then Ok(obj)
    else
      match StyleStep(obj, pairs[0], rem)
      case Err(e) => Err(e)
      case Ok(next) => StyleFold(next, pairs[1..], rem)
  }

  /** `wmrt.style(style)`: `null` (here `None`) for a falsy input, the style
   *  object for a string, and a thrown error for any other value, which has
   *  no `split`. */
  function Style(style: JsVal, rem: string -> string): Result<Option<StyleObject>>
  {
    if Falsy(style) then Ok(None)
    else if !style.Str? then Err("TypeError: style.split is not a function")
    else
      match StyleFold([], Split(style.s, ';'), rem)
      case Err(e) => Err(e)
      case Ok(obj) => Ok(Some(obj))
  }

  /** A declaration `k: v` is read as the trimmed, camelcased key and the
   *  converted trimmed value; only the text up to a second `:` is the value. */
  lemma StyleDeclaration(k: string, v: string, more: string, rem: string -> string)
    requires k != [] && ':' !in k && ':' !in v && ';' !in k && ';' !in v && ';' !in more
    ensures Style(Str(k + ":" + v + ":" + more), rem) == Ok(Some([(StyleKey(k), rem(Trim(v)))]))
    ensures Style(Str(k + ":" + v), rem) == Ok(Some([(StyleKey(k), rem(Trim(v)))]))
  {
    var rest := ":" + more;
    assert k + ":" + v + ":" + more == k + ":" + v + rest;
    StepOfDeclaration(k, v, rest, rem);
    assert k + ":" + v + [] == k + ":" + v;
    StepOfDeclaration(k, v, [], rem);
  }

  lemma StepOfDeclaration(k: string, v: string, rest: string, rem: string -> string)
    requires k != [] && ':' !in k && ':' !in v && ';' !in k && ';' !in v && ';' !in rest
    requires rest == [] || rest[0] == ':'
    ensures Style(Str(k + ":" + v + rest), rem) == Ok(Some([(StyleKey(k), rem(Trim(v)))]))
  {
    var pair := k + ":" + v + rest;
    DeclarationParts(k, v, rest);
    assert ValueAfterColon(pair) == Some(v);
    assert SetKey([], StyleKey(k), rem(Trim(v))) == [(StyleKey(k), rem(Trim(v)))];
    assert StyleStep([], pair, rem) == Ok([(StyleKey(k), rem(Trim(v)))]);
    StyleOneSegment(pair, rem);
  }

  lemma DeclarationParts(k: string, v: string, rest: string)
    requires ':' !in k && ':' !in v && ';' !in k && ';' !in v && ';' !in rest
    requires rest == [] || rest[0] == ':'
    ensures var parts := Split(k + ":" + v + rest, ':');
      |parts| >= 2 && parts[0] == k && parts[1] == v
    ensures ';' !in k + ":" + v + rest
  {
    DeclarationSplit(k, v, rest);
    NoSemicolonJoined(k, ":", v, rest);
  }

  /** A declaration `k:v` followed by nothing or by more `:`-parts splits
   *  into `k`, `v`, and so on. */
  lemma DeclarationSplit(k: string, v: string, rest: string)
    requires ':' !in k && ':' !in v
    requires rest == [] || rest[0] == ':'
    ensures var parts := Split(k + ":" + v + rest, ':');
      |parts| >= 2 && parts[0] == k && parts[1] == v
  {
    assert k + ":" + v + rest == k + [':'] + (v + rest);
    SplitAround(k, v + rest, ':');
    SplitHead(v, rest, ':');
  }

  lemma SplitAround(k: string, t: string, sep: char)
    requires sep !in k
    ensures Split(k + [sep] + t, sep) == [k] + Split(t, sep)
  {
    SplitNoSeparator(k, sep);
    SplitConcat(k, t, sep);
  }

  /** The first part of a split is what comes before the first separator. */
  lemma SplitHead(v: string, rest: string, sep: char)
    requires sep !in v
    requires rest == [] || rest[0] == sep
    ensures Split(v + rest, sep)[0] == v
  {
    SplitNoSeparator(v, sep);
    if rest != [] {
      SplitConcat(v, rest[1..], sep);
      assert v + rest == v + [sep] + rest[1..];
    } else {
      assert v + rest == v;
    }
  }

  lemma NoSemicolonJoined(a: string, b: string, c: string, d: string)
    requires ';' !in a && ';' !in b && ';' !in c && ';' !in d
    ensures ';' !in a + b + c + d
  {
  }

  lemma StyleOneSegment(pair: string, rem: string -> string)
    requires pair != [] && ';' !in pair
    ensures Style(Str(pair), rem) == match StyleStep([], pair, rem)
      case Err(e) => Err(e)
      case Ok(obj) => Ok(Some(obj))
  {
    SplitNoSeparator(pair, ';');
    match StyleStep([], pair, rem)
    case Err(e) =>
    case Ok(obj) => assert StyleFold(obj, [], rem) == Ok(obj);
  }

  /** Segments whose key is empty, such as the text after a final `;`, are
   *  skipped. */
  lemma StyleSkipsEmptyKey(obj: StyleObject, pair: string, rem: string -> string)
    requires pair == [] || pair[0] == ':'
    ensures StyleStep(obj, pair, rem) == Ok(obj)
  {
    if pair != [] {
      assert pair == [] + [':'] + pair[1..];
      SplitConcat([], pair[1..], ':');
    }
  }

  /** As written, a style string ending in `"; "` always throws: its last
   *  segment `" "` is a non-empty key without a `:`. */
  lemma StyleTrailingSpaceThrows(s: string, rem: string -> string)
    ensures Style(Str(s + "; "), rem).Err?
  {
    SplitConcat(s, " ", ';');
    assert s + "; " == s + [';'] + " ";
    SplitNoSeparator(" ", ';');
    SplitNoSeparator(" ", ':');
    FoldEndsInError([], Split(s, ';'), " ", rem);
  }

  lemma {:induction false} FoldEndsInError(obj: StyleObject, pairs: seq<string>, last: string, rem: string -> string)
    requires StyleStep(obj, last, rem).Err?
    requires forall o :: StyleStep(o, last, rem).Err?
    ensures StyleFold(obj, pairs + [last], rem).Err?
    decreases |pairs|
  {
    if pairs == [] {
      assert pairs + [last] == [last];
    } else {
      assert (pairs + [last])[1..] == pairs[1..] + [last];
      match StyleStep(obj, pairs[0], rem)
      case Err(_) =>
      case Ok(next) => FoldEndsInError(next, pairs[1..], last, rem);
    }
  }

  /** The evident intent: a segment without a `:` is skipped instead of
   *  throwing. */
  function StyleStepTolerant(obj: StyleObject, pair: string, rem: string -> string): StyleObject
  {
    var k := Split(pair, ':')[0];
    if k == "" then obj
    else
      match ValueAfterColon(pair)
      case None => obj
      case Some(v) => SetKey(obj, StyleKey(k), rem(Trim(v)))
  }

  function StyleFoldTolerant(obj: StyleObject, pairs: seq<string>, rem: string -> string): StyleObject
    decreases |pairs|
  {
    if pairs == [] then obj else StyleFoldTolerant(StyleStepTolerant(obj, pairs[0], rem), pairs[1..], rem)
  }

  /** The corrected `wmrt.style`: never throws on a string. */
  function StyleTolerant(style: JsVal, rem: string -> string): Result<Option<StyleObject>>
  {
    if Falsy(style) then Ok(None)
    else if !style.Str? then Err("TypeError: style.split is not a function")
    else Ok(Some(StyleFoldTolerant([], Split(style.s, ';'), rem)))
  }

  /** The corrected version accepts every string, and wherever the original
   *  produces a style object the two agree. */
  lemma StyleTolerantAgrees(style: JsVal, rem: string -> string)
    ensures style.Str? ==> StyleTolerant(style, rem).Ok?
    ensures Style(style, rem).Ok? ==> StyleTolerant(style, rem) == Style(style, rem)
  {
    if style.Str? && !Falsy(style) {
      var pairs := Split(style.s, ';');
      if StyleFold([], pairs, rem).Ok? {
        FoldTolerantAgrees([], pairs, rem);
      }
    }
  }

  lemma {:induction false} FoldTolerantAgrees(obj: StyleObject, pairs: seq<string>, rem: string -> string)
    requires StyleFold(obj, pairs, rem).Ok?
    ensures StyleFoldTolerant(obj, pairs, rem) == StyleFold(obj, pairs, rem).value
    decreases |pairs|
  {
    if pairs != [] {
      StepTolerantAgrees(obj, pairs[0], rem);
      FoldTolerantAgrees(StyleStep(obj, pairs[0], rem).value, pairs[1..], rem);
    }
  }

  lemma StepTolerantAgrees(obj: StyleObject, pair: string, rem: string -> string)
    requires StyleStep(obj, pair, rem).Ok?
    ensures StyleStepTolerant(obj, pair, rem) == StyleStep(obj, pair, rem).value
  {
  }
}
