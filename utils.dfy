/** The shared string utilities of packages/utils/src/utils.ts: first-letter
 *  capitalisation, kebab-to-camel case conversion and the `px`/`rpx` to `rem`
 *  call rewrite (whose scanner the style plugin reuses). */
module Utils {
  import opened Strings

  // ---------------------------------------------------------------------
  // firstLetterUppercase / camelcase / strike2camelCase
  // ---------------------------------------------------------------------

  /** `firstLetterUppercase`: the empty string is returned as it is, any other
   *  string has only its first character upper-cased. */
  function FirstLetterUppercase(name: string): (r: string)
    ensures |r| == |name|
    ensures name == [] ==> r == name
    ensures name != [] ==> r[0] == UpperChar(name[0]) && r[1..] == name[1..]
  {
    if name == [] then name else [UpperChar(name[0])] + name[1..]
  }

  lemma FirstLetterUppercaseIdempotent(name: string)
    ensures FirstLetterUppercase(FirstLetterUppercase(name)) == FirstLetterUppercase(name)
  {
  }

  /** The segments after the first, each with its first character
   *  upper-cased, concatenated (the `map` and `join('')` of `camelcase`). */
  function CapitalizedTail(segments: seq<string>): string
  {
    if segments == [] then "" else FirstLetterUppercase(segments[0]) + CapitalizedTail(segments[1..])
  }

  /** `camelcase`: split on `-`, keep the first segment, capitalise every
   *  later segment's first character, join with nothing. */
  function Camelcase(name: string): string
  {
    var segments := Split(name, '-');
    segments[0] + CapitalizedTail(segments[1..])
  }

  /** `strike2camelCase`: camelcase only when the name contains `-`, then
   *  upper-case the first letter. */
  function Strike2CamelCase(name: string): string
  {
    var tagName := if '-' in name then Camelcase(name) else name;
    FirstLetterUppercase(tagName)
  }

  /** Reference definition of camel-casing, character by character: a `-` is
   *  dropped and the text after it starts with an upper-case letter. */
  function CamelcaseByChars(s: string): string
  {
    if s == [] then []
    else if s[0] == '-' then FirstLetterUppercase(CamelcaseByChars(s[1..]))
    else [s[0]] + CamelcaseByChars(s[1..])
  }

  lemma {:induction false} NoDashAfterUpper(p: string)
    requires '-' !in p
    ensures '-' !in FirstLetterUppercase(p)
  {
    if p != [] {
      var r := FirstLetterUppercase(p);
      assert r == [UpperChar(p[0])] + p[1..];
      assert p[0] in p;
    }
  }

  lemma {:induction false} CapitalizedTailNoDash(segments: seq<string>)
    requires forall k :: 0 <= k < |segments| ==> '-' !in segments[k]
    ensures '-' !in CapitalizedTail(segments)
    decreases |segments|
  {
    if segments != [] {
      NoDashAfterUpper(segments[0]);
      CapitalizedTailNoDash(segments[1..]);
    }
  }

  /** The output of `camelcase` never contains `-`. */
  lemma CamelcaseHasNoDash(name: string)
    ensures '-' !in Camelcase(name)
  {
    var segments := Split(name, '-');
    CapitalizedTailNoDash(segments[1..]);
  }

  /** `camelcase` is the identity on names without `-`. */
  lemma CamelcaseIdentityWithoutDash(name: string)
    requires '-' !in name
    ensures Camelcase(name) == name
  {
    SplitNoSeparator(name, '-');
  }

  /** The `-` test in `strike2camelCase` changes nothing: the result is always
   *  the capitalised camel-case form. */
  lemma Strike2CamelCaseIsCapitalizedCamelcase(name: string)
    ensures Strike2CamelCase(name) == FirstLetterUppercase(Camelcase(name))
  {
    if '-' !in name {
      CamelcaseIdentityWithoutDash(name);
    }
  }

  lemma {:induction false} CapitalizedTailStartsUpper(segments: seq<string>)
    ensures FirstLetterUppercase(CapitalizedTail(segments)) == CapitalizedTail(segments)
    decreases |segments|
  {
    if segments != [] {
      if segments[0] == [] {
        CapitalizedTailStartsUpper(segments[1..]);
      } else {
        var rest := CapitalizedTail(segments[1..]);
        assert CapitalizedTail(segments) == FirstLetterUppercase(segments[0]) + rest;
      }
    }
  }

  lemma CamelcaseAfterDash(s: string)
    requires s != [] && s[0] == '-'
    ensures Camelcase(s) == CapitalizedTail(Split(s[1..], '-'))
  {
    assert Split(s, '-') == [""] + Split(s[1..], '-');
  }

  lemma CamelcaseAfterOther(s: string)
    requires s != [] && s[0] != '-'
    ensures Camelcase(s) == [s[0]] + Camelcase(s[1..])
  {
    var rest := Split(s[1..], '-');
    assert Split(s, '-') == [[s[0]] + rest[0]] + rest[1..];
  }

  lemma {:induction false} ByCharsAfterPlain(p: string, t: string)
    requires '-' !in p
    ensures CamelcaseByChars(p + t) == p + CamelcaseByChars(t)
    decreases |p|
  {
    if p != [] {
      assert (p + t)[0] == p[0] && p[0] != '-';
      assert (p + t)[1..] == p[1..] + t;
      assert '-' !in p[1..] by { assert forall c :: c in p[1..] ==> c in p; }
      ByCharsAfterPlain(p[1..], t);
      assert CamelcaseByChars(p + t) == [p[0]] + (p[1..] + CamelcaseByChars(t));
      assert p + CamelcaseByChars(t) == [p[0]] + (p[1..] + CamelcaseByChars(t)) by {
        assert p == [p[0]] + p[1..];
      }
    } else {
      assert p + t == t;
    }
  }

  /** Two dash-free words joined by one `-` come out as the two words, each
   *  capitalised: `my-card` becomes `MyCard`. */
  lemma Strike2CamelCaseOfPair(head: string, tail: string)
    requires '-' !in head && '-' !in tail
    ensures Strike2CamelCase(head + "-" + tail) == FirstLetterUppercase(head) + FirstLetterUppercase(tail)
  {
    var name := head + "-" + tail;
    assert name[|head|] == '-';
    assert name == head + ("-" + tail);
    assert CamelcaseByChars(tail) == tail by { ByCharsAfterPlain(tail, []); assert tail + [] == tail; }
    assert CamelcaseByChars("-" + tail) == FirstLetterUppercase(tail) by { assert ("-" + tail)[1..] == tail; }
    ByCharsAfterPlain(head, "-" + tail);
    CamelcaseMatchesByChars(name);
    Strike2CamelCaseIsCapitalizedCamelcase(name);
    FirstLetterUppercaseIdempotent(tail);
  }

  /** `camelcase` agrees with the character-by-character reference. */
  lemma {:induction false} CamelcaseMatchesByChars(s: string)
    ensures Camelcase(s) == CamelcaseByChars(s)
    decreases |s|
  {
    if s == [] {
    } else {
      CamelcaseMatchesByChars(s[1..]);
      if s[0] == '-' {
        var rest := Split(s[1..], '-');
        CamelcaseAfterDash(s);
        var tail := CapitalizedTail(rest[1..]);
        assert CapitalizedTail(rest) == FirstLetterUppercase(rest[0]) + tail;
        assert Camelcase(s[1..]) == rest[0] + tail;
        if rest[0] == [] {
          CapitalizedTailStartsUpper(rest[1..]);
          assert rest[0] + tail == tail;
        } else {
          FirstLetterOfConcat(rest[0], tail);
        }
      } else {
        CamelcaseAfterOther(s);
      }
    }
  }

  lemma FirstLetterOfConcat(a: string, b: string)
    requires a != []
    ensures FirstLetterUppercase(a + b) == FirstLetterUppercase(a) + b
  {
    assert (a + b)[1..] == a[1..] + b;
  }

  // ---------------------------------------------------------------------
  // The global replacement of /(\d+)(rpx|px)/
  // ---------------------------------------------------------------------

  /** Length of the run of digits that starts `s`. */
  function DigitRun(s: string): (n: nat)
    ensures n <= |s|
    ensures forall i :: 0 <= i < n ==> IsDigit(s[i])
    ensures n == |s| || !IsDigit(s[n])
  {
    if s != [] && IsDigit(s[0]) then 1 + DigitRun(s[1..]) else 0
  }

  /** The unit `rpx` or `px` that starts `s`, tried in that order, or `""`. */
  function UnitAt(s: string): (u: string)
    ensures u == "" || u == "rpx" || u == "px"
    ensures u != "" ==> StartsWith(s, u)
  {
    if StartsWith(s, "rpx") then "rpx" else if StartsWith(s, "px") then "px" else ""
  }

  /** The pattern matches at the start of `s`: a digit run directly followed
   *  by a unit. Shorter digit runs cannot match, since a digit would then
   *  stand where the unit must start. */
  predicate UnitMatchAt(s: string)
  {
    DigitRun(s) > 0 && UnitAt(s[DigitRun(s)..]) != ""
  }

  /** `/(\d+)(rpx|px)/.test(s)`. */
  predicate HasUnitMatch(s: string)
    decreases |s|
  {
    s != [] && (UnitMatchAt(s) || HasUnitMatch(s[1..]))
  }

  /** `s.replace(/(\d+)(rpx|px)/g, f)`: scanning from the left, each match is
   *  replaced by `wrap(digits + unit)` and scanning resumes after it. */
  function RewriteUnits(s: string, wrap: string -> string): string
    decreases |s|
  {
    if s == [] then []
    else if UnitMatchAt(s) then
      var n := DigitRun(s);
      var u := UnitAt(s[n..]);
      wrap(s[..n] + u) + RewriteUnits(s[n + |u|..], wrap)
    else [s[0]] + RewriteUnits(s[1..], wrap)
  }

  /** A text without a match is left unchanged by the global replacement,
   *  so the `test` guards of the source only short-cut. */
  lemma {:induction false} RewriteUnitsWithoutMatch(s: string, wrap: string -> string)
    requires !HasUnitMatch(s)
    ensures RewriteUnits(s, wrap) == s
    decreases |s|
  {
    if s != [] {
      RewriteUnitsWithoutMatch(s[1..], wrap);
      assert s == [s[0]] + s[1..];
    }
  }

  /** One digit run followed by its unit is replaced as a whole. */
  lemma RewriteUnitsSingle(digits: string, unit: string, wrap: string -> string)
    requires digits != [] && forall i :: 0 <= i < |digits| ==> IsDigit(digits[i])
    requires unit == "px" || unit == "rpx"
    ensures RewriteUnits(digits + unit, wrap) == wrap(digits + unit)
  {
    var s := digits + unit;
    DigitRunOfPrefix(digits, unit);
    assert s[|digits|..] == unit;
    assert s[..|digits|] == digits;
    assert s[|digits| + |unit|..] == [];
  }

  lemma {:induction false} DigitRunOfPrefix(digits: string, rest: string)
    requires forall i :: 0 <= i < |digits| ==> IsDigit(digits[i])
    requires rest == [] || !IsDigit(rest[0])
    ensures DigitRun(digits + rest) == |digits|
    decreases |digits|
  {
    if digits != [] {
      assert (digits + rest)[1..] == digits[1..] + rest;
      DigitRunOfPrefix(digits[1..], rest);
    } else {
      assert digits + rest == rest;
    }
  }

  /** A text ending in a character that cannot continue a match (not a digit,
   *  `r` or `p`) is rewritten on its own: the replacement distributes over
   *  concatenation at such a boundary. */
  lemma {:induction false} RewriteUnitsAppend(a: string, b: string, wrap: string -> string)
    requires a != [] ==> !IsDigit(a[|a| - 1]) && a[|a| - 1] != 'r' && a[|a| - 1] != 'p'
    ensures RewriteUnits(a + b, wrap) == RewriteUnits(a, wrap) + RewriteUnits(b, wrap)
    decreases |a|
  {
    if a == [] {
      assert a + b == b;
    } else {
      MatchInsidePrefix(a, b);
      var k := ScanStep(a);
      RewriteUnitsAppend(a[k..], b, wrap);
      AppendStep(a, b, wrap, k);
    }
  }

  /** How much of `s` the first step of the scan consumes. */
  function ScanStep(s: string): (k: nat)
    requires s != []
    ensures 0 < k <= |s|
  {
    if UnitMatchAt(s) then DigitRun(s) + |UnitAt(s[DigitRun(s)..])| else 1
  }

  lemma AppendStep(a: string, b: string, wrap: string -> string, k: nat)
    requires a != [] && k == ScanStep(a)
    requires DigitRun(a + b) == DigitRun(a)
    requires UnitAt((a + b)[DigitRun(a)..]) == UnitAt(a[DigitRun(a)..])
    requires UnitMatchAt(a + b) == UnitMatchAt(a)
    requires RewriteUnits(a[k..] + b, wrap) == RewriteUnits(a[k..], wrap) + RewriteUnits(b, wrap)
    ensures RewriteUnits(a + b, wrap) == RewriteUnits(a, wrap) + RewriteUnits(b, wrap)
  {
    var head := if UnitMatchAt(a) then wrap(a[..DigitRun(a)] + UnitAt(a[DigitRun(a)..])) else [a[0]];
    StepOfConcat(a, b, wrap, k, head);
    StepOfPrefix(a, wrap, k, head);
    Regroup(head, RewriteUnits(a[k..] + b, wrap), RewriteUnits(a[k..], wrap), RewriteUnits(b, wrap));
  }

  lemma StepOfConcat(a: string, b: string, wrap: string -> string, k: nat, head: string)
    requires a != [] && k == ScanStep(a)
    requires DigitRun(a + b) == DigitRun(a)
    requires UnitAt((a + b)[DigitRun(a)..]) == UnitAt(a[DigitRun(a)..])
    requires UnitMatchAt(a + b) == UnitMatchAt(a)
    requires head == if UnitMatchAt(a) then wrap(a[..DigitRun(a)] + UnitAt(a[DigitRun(a)..])) else [a[0]]
    ensures RewriteUnits(a + b, wrap) == head + RewriteUnits(a[k..] + b, wrap)
  {
    if UnitMatchAt(a) {
      ConcatSlices(a, b, DigitRun(a), k);
      RewriteUnitsMatchStep(a + b, wrap);
    } else {
      ConcatSlices(a, b, 1, k);
      RewriteUnitsPlainStep(a + b, wrap);
    }
  }

  lemma ConcatSlices(a: string, b: string, n: nat, k: nat)
    requires n <= k <= |a|
    ensures (a + b)[..n] == a[..n] && (a + b)[k..] == a[k..] + b
  {
  }

  lemma StepOfPrefix(a: string, wrap: string -> string, k: nat, head: string)
    requires a != [] && k == ScanStep(a)
    requires head == if UnitMatchAt(a) then wrap(a[..DigitRun(a)] + UnitAt(a[DigitRun(a)..])) else [a[0]]
    ensures RewriteUnits(a, wrap) == head + RewriteUnits(a[k..], wrap)
  {
    if UnitMatchAt(a) {
      RewriteUnitsMatchStep(a, wrap);
    } else {
      RewriteUnitsPlainStep(a, wrap);
    }
  }

  lemma Regroup(h: string, x: string, y: string, z: string)
    requires x == y + z
    ensures h + x == (h + y) + z
  {
  }

  /** One step of the scan where the pattern matches at the start. */
  lemma RewriteUnitsMatchStep(s: string, wrap: string -> string)
    requires s != [] && UnitMatchAt(s)
    ensures RewriteUnits(s, wrap) ==
      wrap(s[..DigitRun(s)] + UnitAt(s[DigitRun(s)..]))
      + RewriteUnits(s[DigitRun(s) + |UnitAt(s[DigitRun(s)..])|..], wrap)
  {
  }

  /** One step of the scan where it does not: the first character is kept. */
  lemma RewriteUnitsPlainStep(s: string, wrap: string -> string)
    requires s != [] && !UnitMatchAt(s)
    ensures RewriteUnits(s, wrap) == [s[0]] + RewriteUnits(s[1..], wrap)
  {
  }

  /** At a boundary that cannot continue a match, whether and how the pattern
   *  matches at the start of `a + b` is decided inside `a`. */
  lemma MatchInsidePrefix(a: string, b: string)
    requires a != [] && !IsDigit(a[|a| - 1]) && a[|a| - 1] != 'r' && a[|a| - 1] != 'p'
    ensures DigitRun(a + b) == DigitRun(a) < |a|
    ensures UnitAt((a + b)[DigitRun(a)..]) == UnitAt(a[DigitRun(a)..])
    ensures DigitRun(a) + |UnitAt(a[DigitRun(a)..])| <= |a|
    ensures UnitMatchAt(a + b) == UnitMatchAt(a)
  {
    DigitRunInside(a, b);
    var n := DigitRun(a);
    assert (a + b)[n..] == a[n..] + b;
    UnitAtInside(a[n..], b);
  }

  lemma {:induction false} DigitRunInside(a: string, b: string)
    requires a != [] && !IsDigit(a[|a| - 1])
    ensures DigitRun(a + b) == DigitRun(a) < |a|
    decreases |a|
  {
    if IsDigit(a[0]) {
      assert (a + b)[1..] == a[1..] + b;
      DigitRunInside(a[1..], b);
    }
  }

  lemma UnitAtInside(t: string, b: string)
    requires t != [] && t[|t| - 1] != 'r' && t[|t| - 1] != 'p'
    ensures UnitAt(t + b) == UnitAt(t)
    ensures |UnitAt(t)| <= |t|
  {
    var s := t + b;
    if |t| >= 3 {
      assert s[..3] == t[..3];
      assert s[..2] == t[..2];
    } else if |t| == 2 {
      assert s[..2] == t;
      assert !StartsWith(t, "rpx");
      if |s| >= 3 { assert s[..3][1] == s[1] == t[1]; }
    } else {
      assert !StartsWith(t, "rpx") && !StartsWith(t, "px");
      assert s[0] == t[0];
      if |s| >= 3 { assert s[..3][0] == s[0]; }
      if |s| >= 2 { assert s[..2][0] == s[0]; }
    }
  }

  /** Only the digits directly before the unit are captured: in `1.5px` the
   *  integer part and the point stay outside the call. */
  lemma RewriteUnitsDecimal(intPart: string, frac: string, unit: string, wrap: string -> string)
    requires forall i :: 0 <= i < |intPart| ==> IsDigit(intPart[i])
    requires frac != [] && forall i :: 0 <= i < |frac| ==> IsDigit(frac[i])
    requires unit == "px" || unit == "rpx"
    ensures RewriteUnits(intPart + "." + frac + unit, wrap) == intPart + "." + wrap(frac + unit)
  {
    var a := intPart + ".";
    assert a[|a| - 1] == '.';
    assert intPart + "." + frac + unit == a + (frac + unit);
    RewriteUnitsAppend(a, frac + unit, wrap);
    RewriteUnitsSingle(frac, unit, wrap);
    NoMatchBeforePoint(intPart);
    RewriteUnitsWithoutMatch(a, wrap);
  }

  lemma {:induction false} NoMatchBeforePoint(digits: string)
    requires forall i :: 0 <= i < |digits| ==> IsDigit(digits[i])
    ensures !HasUnitMatch(digits + ".")
    decreases |digits|
  {
    var s := digits + ".";
    DigitRunOfPrefix(digits, ".");
    assert s[|digits|..] == ".";
    assert !StartsWith(".", "px") && !StartsWith(".", "rpx");
    if digits != [] {
      assert s[1..] == digits[1..] + ".";
      NoMatchBeforePoint(digits[1..]);
    } else {
      assert s[1..] == [];
    }
  }

  /** The call text `rpx2rem` puts in place of one match. */
  function RemCall(numberUnit: string, returnExp: bool): string
  {
    var call := "this.props.wmrt.rem(\"" + numberUnit + "\")";
    if returnExp then "${" + call + "}" else call
  }

  /** `rpx2rem`: every `digits(rpx|px)` becomes a `this.props.wmrt.rem` call,
   *  wrapped as a template-literal expression when `returnExp` is set. */
  function Rpx2Rem(content: string, returnExp: bool): string
  {
    if HasUnitMatch(content) then RewriteUnits(content, nu => RemCall(nu, returnExp)) else content
  }

  /** `rpx2rem` leaves text without a match unchanged, and replaces a lone
   *  length by its call. */
  lemma Rpx2RemCases(content: string, returnExp: bool, digits: string, unit: string)
    requires digits != [] && forall i :: 0 <= i < |digits| ==> IsDigit(digits[i])
    requires unit == "px" || unit == "rpx"
    ensures !HasUnitMatch(content) ==> Rpx2Rem(content, returnExp) == content
    ensures Rpx2Rem(digits + unit, returnExp) == RemCall(digits + unit, returnExp)
  {
    var wrap := nu => RemCall(nu, returnExp);
    RewriteUnitsSingle(digits, unit, wrap);
    var s := digits + unit;
    DigitRunOfPrefix(digits, unit);
    assert s[|digits|..] == unit;
    assert UnitMatchAt(s);
  }
}
