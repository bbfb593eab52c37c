/** The `{{ … }}` data-binding syntax of the markup as the compiler finds it
 *  with the regular expression `/\{\{(.*?)\}\}/`: where a binding opens, where
 *  its expression ends, and the global rewrite of every binding. Without the
 *  `s` flag `.` does not match a line terminator, so a binding never spans
 *  lines. */
module Mustache {
  import opened Wrappers
  import opened Strings

  /** The `.*?}}` part of `/\{\{(.*?)\}\}/` from position j: the first `}}`
   *  reached before any line terminator, or -1. */
  function CloseAt(s: string, j: nat): (k: int)
    requires j <= |s|
    ensures k == -1 || (j <= k && k + 2 <= |s|)
    decreases |s| - j
  {
    if j + 2 > |s| then -1
    else if s[j..j + 2] == "}}" then j
    else if IsLineTerminator(s[j]) then -1
    else CloseAt(s, j + 1)
  }

  /** The close found is the first `}}` from j, with no line terminator
   *  between. */
  lemma {:induction false} CloseAtSpec(s: string, j: nat)
    requires j <= |s|
    ensures var k := CloseAt(s, j);
      k != -1 ==> OccursAt(s, "}}", k) && NoLineTerminator(s[j..k]) && forall m :: j <= m < k ==> !OccursAt(s, "}}", m)
    decreases |s| - j
  {
    if j + 2 <= |s| && s[j..j + 2] != "}}" && !IsLineTerminator(s[j]) {
      var k := CloseAt(s, j + 1);
      CloseAtSpec(s, j + 1);
      if k != -1 {
        assert s[j..k] == [s[j]] + s[j + 1..k];
      }
    }
  }

  /** No close is found exactly when every `}}` from j has a line terminator
   *  before it: the lazy `.*?` cannot cross a line break. */
  lemma {:induction false} CloseAtNone(s: string, j: nat)
    requires j <= |s|
    ensures CloseAt(s, j) == -1 ==> forall m :: j <= m && OccursAt(s, "}}", m) ==> !NoLineTerminator(s[j..m])
    decreases |s| - j
  {
    if CloseAt(s, j) == -1 && j + 2 <= |s| {
      if IsLineTerminator(s[j]) {
        forall m | j <= m && OccursAt(s, "}}", m) ensures !NoLineTerminator(s[j..m]) {
          assert s[j..m][0] == s[j];
        }
      } else {
        CloseAtNone(s, j + 1);
        forall m | j <= m && OccursAt(s, "}}", m) ensures !NoLineTerminator(s[j..m]) {
          assert m != j;
          var t :| 0 <= t < |s[j + 1..m]| && IsLineTerminator(s[j + 1..m][t]);
          assert s[j..m][t + 1] == s[j + 1..m][t];
        }
      }
    }
  }

  /** The first match of `/\{\{(.*?)\}\}/` at or after position i: where the
   *  braces open and where the captured text ends. */
  function MustacheFrom(s: string, i: nat): (m: Option<(nat, nat)>)
    requires i <= |s|
    ensures m.Some? ==> i <= m.value.0 && m.value.0 + 2 <= m.value.1 && m.value.1 + 2 <= |s|
    decreases |s| - i
  {
    if i + 2 > |s| then None
    else if s[i..i + 2] == "{{" && CloseAt(s, i + 2) != -1 then Some((i, CloseAt(s, i + 2)))
    else MustacheFrom(s, i + 1)
  }

  /** `/\{\{(.*?)\}\}/.test(s)`; the greedy `/\{\{(.*)\}\}/` matches exactly
   *  the same strings. */
  predicate HasMustache(s: string)
  {
    MustacheFrom(s, 0).Some?
  }

  /** `/^\{\{(.*?)\}\}$/.test(s)`: the whole string is one binding. */
  predicate IsWholeMustache(s: string)
  {
    |s| >= 4 && StartsWith(s, "{{") && EndsWith(s, "}}") && NoLineTerminator(s[2..|s| - 2])
  }

  /** `s.replace(/\{\{(.*?)\}\}/g, (_, e) => open + e + close)` from position
   *  i: every binding, left to right, resuming after each match. */
  function ReplaceMustaches(s: string, i: nat, open: string, close: string): (r: string)
    requires i <= |s|
    decreases |s| - i
  {
    var m := MustacheFrom(s, i);
    if m.None? then s[i..]
    else s[i..m.value.0] + open + s[m.value.0 + 2..m.value.1] + close + ReplaceMustaches(s, m.value.1 + 2, open, close)
  }

  lemma {:induction false} NoOpenNoMustache(s: string, i: nat)
    requires i <= |s|
    requires forall j :: i <= j ==> !OccursAt(s, "{{", j)
    ensures MustacheFrom(s, i).None?
    decreases |s| - i
  {
    if i + 2 <= |s| {
      assert !OccursAt(s, "{{", i);
      NoOpenNoMustache(s, i + 1);
    }
  }

  lemma {:induction false} CloseAfterExp(s: string, j: nat, exp: string)
    requires j + |exp| + 2 <= |s| && s[j..j + |exp|] == exp && s[j + |exp|..j + |exp| + 2] == "}}"
    requires IndexOf(exp, "}") == -1 && NoLineTerminator(exp)
    ensures CloseAt(s, j) == j + |exp|
    decreases |exp|
  {
    if exp != [] {
      IndexOfSpec(exp, "}");
      assert s[j] == exp[0];
      assert s[j..j + 2] != "}}" by {
        assert !OccursAt(exp, "}", 0);
      }
      assert s[j + 1..j + 1 + |exp[1..]|] == exp[1..];
      assert IndexOf(exp[1..], "}") == -1 by {
        forall m | 0 <= m ensures !OccursAt(exp[1..], "}", m) {
          assert !OccursAt(exp, "}", m + 1);
          if m + 1 <= |exp[1..]| {
            assert exp[1..][m..m + 1] == exp[m + 1..m + 2];
          }
        }
        IndexOfSpec(exp[1..], "}");
      }
      assert !IsLineTerminator(exp[0]);
      CloseAfterExp(s, j + 1, exp[1..]);
    }
  }

  /** A binding opening at i, with no `{{` before it, is the first one. */
  lemma MustacheSkipsPrefix(s: string, i: nat)
    requires i + 2 <= |s| && OccursAt(s, "{{", i) && CloseAt(s, i + 2) != -1
    requires forall j :: 0 <= j < i ==> !OccursAt(s, "{{", j)
    ensures MustacheFrom(s, 0) == Some((i, CloseAt(s, i + 2)))
  {
    MustacheSkip(s, i, 0);
  }

  /** Where `sub` is absent from a prefix, within that prefix, it is absent
   *  from the whole string. */
  lemma PrefixKeepsAbsence(s: string, p: string, sub: string, j: nat)
    requires |p| <= |s| && s[..|p|] == p && j + |sub| <= |p|
    requires IndexOf(p, sub) == -1
    ensures !OccursAt(s, sub, j)
  {
    IndexOfSpec(p, sub);
    OccursInPrefix(s, p, sub, j);
  }

  /** Where `sub` is absent from a suffix, it is absent from the whole
   *  string from there on. */
  lemma SuffixKeepsAbsence(s: string, t: string, sub: string, m: nat)
    requires |t| <= |s| && s[|s| - |t|..] == t && |s| - |t| <= m
    requires IndexOf(t, sub) == -1
    ensures !OccursAt(s, sub, m)
  {
    var d := |s| - |t|;
    assert !OccursAt(t, sub, m - d);
    if m + |sub| <= |s| {
      forall x | m <= x < m + |sub| ensures s[x] == t[x - d] {
        assert s[d..][x - d] == s[x];
      }
      assert s[m..m + |sub|] == t[m - d..m - d + |sub|];
    }
  }

  lemma OccursInPrefix(s: string, p: string, sub: string, j: nat)
    requires |p| <= |s| && s[..|p|] == p && j + |sub| <= |p|
    ensures OccursAt(s, sub, j) ==> OccursAt(p, sub, j)
  {
    forall k | j <= k < j + |sub| ensures s[k] == p[k] {
      assert s[..|p|][k] == s[k];
    }
    assert s[j..j + |sub|] == p[j..j + |sub|];
  }

  /** The first binding of `before{{exp}}after` is the written one. */
  lemma FirstMustacheLayout(before: string, exp: string, after: string)
    requires IndexOf(before + "{", "{{") == -1
    requires IndexOf(exp, "}") == -1 && NoLineTerminator(exp)
    ensures MustacheFrom(before + "{{" + exp + "}}" + after, 0) == Some((|before|, |before| + 2 + |exp|))
  {
    var s := before + "{{" + exp + "}}" + after;
    var i, k := |before|, |before| + 2 + |exp|;
    assert CloseAt(s, i + 2) == k by {
      BindingPieces(s, before, exp, after);
      CloseAfterExp(s, i + 2, exp);
    }
    assert OccursAt(s, "{{", i) by {
      BindingPieces(s, before, exp, after);
    }
    assert forall j :: 0 <= j < i ==> !OccursAt(s, "{{", j) by {
      forall j | 0 <= j < i ensures !OccursAt(s, "{{", j) {
        BindingPieces(s, before, exp, after);
        PrefixKeepsAbsence(s, before + "{", "{{", j);
      }
    }
    MustacheSkipsPrefix(s, i);
  }

  /** A text whose only binding lies at i is rewritten there alone. */
  lemma ReplaceOnlyOne(s: string, i: nat, k: nat, open: string, close: string)
    requires k + 2 <= |s| && MustacheFrom(s, 0) == Some((i, k)) && MustacheFrom(s, k + 2).None?
    ensures ReplaceMustaches(s, 0, open, close) == s[0..i] + open + s[i + 2..k] + close + s[k + 2..]
  {
    assert ReplaceMustaches(s, k + 2, open, close) == s[k + 2..];
  }

  /** The pieces of `before{{exp}}after`, by position. */
  lemma BindingPieces(s: string, before: string, exp: string, after: string)
    requires s == before + "{{" + exp + "}}" + after
    ensures var i, j := |before|, |before| + 2 + |exp|;
      && |s| == j + 2 + |after|
      && s[..i] == before && s[..i + 1] == before + "{" && s[i + 1] == '{' && s[i..i + 2] == "{{"
      && s[i + 2..j] == exp && s[j..j + 2] == "}}" && s[j + 2..] == after
  {
  }


  lemma {:induction false} MustacheSkip(s: string, p: nat, i: nat)
    requires i <= p && p + 2 <= |s|
    requires forall j :: i <= j < p ==> !OccursAt(s, "{{", j)
    ensures MustacheFrom(s, i) == MustacheFrom(s, p)
    decreases p - i
  {
    if i < p {
      assert s[i..i + 2] != "{{" by {
        assert !OccursAt(s, "{{", i);
      }
      MustacheSkip(s, p, i + 1);
    }
  }

  /** Without a binding the global rewrite leaves the text as it was. */
  lemma ReplaceWithoutMustache(s: string, open: string, close: string)
    requires !HasMustache(s)
    ensures ReplaceMustaches(s, 0, open, close) == s
  {
  }

  /** A single binding `{{e}}` is rewritten to `open e close`, the text
   *  around it kept. */
  lemma ReplaceOneMustache(before: string, exp: string, after: string, open: string, close: string)
    requires IndexOf(before + "{", "{{") == -1
    requires IndexOf(exp, "}") == -1 && NoLineTerminator(exp)
    requires IndexOf(after, "{{") == -1
    ensures ReplaceMustaches(before + "{{" + exp + "}}" + after, 0, open, close) == before + open + exp + close + after
  {
    var s := before + "{{" + exp + "}}" + after;
    var i, k := |before|, |before| + 2 + |exp|;
    FirstMustacheLayout(before, exp, after);
    assert MustacheFrom(s, k + 2).None? by {
      forall m | k + 2 <= m ensures !OccursAt(s, "{{", m) {
        BindingPieces(s, before, exp, after);
        SuffixKeepsAbsence(s, after, "{{", m);
      }
      NoOpenNoMustache(s, k + 2);
    }
    ReplaceOnlyOne(s, i, k, open, close);
    BindingPieces(s, before, exp, after);
  }
}
