/** `attributePriorityRanking` of packages/core/src/parsers/template/utils.ts:
 *  attribute keys listed in `DIRECTIVES_PRIORITY` come first, in the table's
 *  order, followed by every other key in its original order. */
module AttributeRanking {
  import opened TemplateConstants

  /** `Array.prototype.indexOf`. */
  function IndexOfKey(s: seq<string>, x: string): (i: int)
    ensures -1 <= i < |s|
    ensures i >= 0 ==> s[i] == x && x !in s[..i]
    ensures i == -1 <==> x !in s
  {
    if s == [] then -1
    else if s[0] == x then 0
    else
      var k := IndexOfKey(s[1..], x);
      if k == -1 then -1
      else
        assert s[..k + 1] == [s[0]] + s[1..][..k];
        k + 1
  }

  /** `splice(indexOf(x), 1)` when `x` is present: the first occurrence goes. */
  function RemoveFirst(s: seq<string>, x: string): seq<string>
  {
    if s == [] then []
    else if s[0] == x then s[1..]
    else [s[0]] + RemoveFirst(s[1..], x)
  }

  /** Removing the first occurrence removes one copy from the multiset. */
  lemma {:induction false} RemoveFirstMultiset(s: seq<string>, x: string)
    ensures multiset(RemoveFirst(s, x)) == if x in s then multiset(s) - multiset{x} else multiset(s)
    decreases |s|
  {
    if s != [] {
      assert s == [s[0]] + s[1..];
      if s[0] != x {
        RemoveFirstMultiset(s[1..], x);
      }
    }
  }

  /** Taking the keys of `order` out of `keys`, one after the other: the keys
   *  taken, in `order`'s order, and what remains. */
  function Extract(keys: seq<string>, order: seq<string>): (seq<string>, seq<string>)
    decreases |order|
  {
    if order == [] then ([], keys)
    else if order[0] in keys then
      var e := Extract(RemoveFirst(keys, order[0]), order[1..]);
      ([order[0]] + e.0, e.1)
    else Extract(keys, order[1..])
  }

  /** The ranking order: the priority groups one after the other. */
  function RankOrder(): seq<string>
  {
    Flatten(DIRECTIVES_PRIORITY)
  }

  /** The specification of the ranking: the taken keys, then the rest. */
  function Ranked(keys: seq<string>): seq<string>
  {
    var e := Extract(keys, RankOrder());
    e.0 + e.1
  }

  /** The keys of `order` present in `keys`, in `order`'s order. */
  function Present(order: seq<string>, keys: seq<string>): (r: seq<string>)
    ensures forall x :: x in r <==> x in order && x in keys
  {
    if order == [] then []
    else (if order[0] in keys then [order[0]] else []) + Present(order[1..], keys)
  }

  /** The keys not in `order`, in their own order. */
  function Without(keys: seq<string>, order: seq<string>): (r: seq<string>)
    ensures forall x :: x in r <==> x in keys && x !in order
  {
    if keys == [] then []
    else (if keys[0] in order then [] else [keys[0]]) + Without(keys[1..], order)
  }

  // ---------------------------------------------------------------------
  // the imperative ranking
  // ---------------------------------------------------------------------

  /** `attributePriorityRanking`: copies the keys, moves each priority key
   *  found in the copy onto `ranks`, group by group, then appends what is
   *  left. The input array is read only. */
  method AttributePriorityRanking(attributeKeys: array<string>) returns (ranks: seq<string>)
    ensures ranks == Ranked(attributeKeys[..])
  {
    var keysCopy := attributeKeys[..];
    ranks := [];
    ghost var done: seq<string> := [];
    for g := 0 to |DIRECTIVES_PRIORITY|
      invariant done == Flatten(DIRECTIVES_PRIORITY[..g])
      invariant ranks == Extract(attributeKeys[..], done).0
      invariant keysCopy == Extract(attributeKeys[..], done).1
    {
      var dirsOfDiffLevel := DIRECTIVES_PRIORITY[g];
      var intersections: seq<string> := [];
      assert done + dirsOfDiffLevel[..0] == done;
      for j := 0 to |dirsOfDiffLevel|
        invariant ranks + intersections == Extract(attributeKeys[..], done + dirsOfDiffLevel[..j]).0
        invariant keysCopy == Extract(attributeKeys[..], done + dirsOfDiffLevel[..j]).1
      {
        var dir := dirsOfDiffLevel[j];
        var idx := IndexOfKey(keysCopy, dir);
        TakeStep(attributeKeys[..], done, dirsOfDiffLevel, j, ranks + intersections, keysCopy);
        if idx > -1 {
          keysCopy := keysCopy[..idx] + keysCopy[idx + 1..];
          assert ranks + (intersections + [dir]) == (ranks + intersections) + [dir];
          intersections := intersections + [dir];
        }
      }
      assert dirsOfDiffLevel[..|dirsOfDiffLevel|] == dirsOfDiffLevel;
      if |intersections| > 0 {
        ranks := ranks + intersections;
      }
      FlattenSnoc(DIRECTIVES_PRIORITY, g);
      done := done + dirsOfDiffLevel;
    }
    assert DIRECTIVES_PRIORITY[..|DIRECTIVES_PRIORITY|] == DIRECTIVES_PRIORITY;
    if |keysCopy| > 0 {
      ranks := ranks + keysCopy;
    }
  }

  /** One iteration of the inner loop: the key is found in the copy and
   *  spliced out, or it is absent and nothing changes. */
  lemma TakeStep(orig: seq<string>, done: seq<string>, group: seq<string>, j: nat,
                 taken: seq<string>, keysCopy: seq<string>)
    requires j < |group|
    requires taken == Extract(orig, done + group[..j]).0
    requires keysCopy == Extract(orig, done + group[..j]).1
    ensures var idx := IndexOfKey(keysCopy, group[j]);
      var e := Extract(orig, done + group[..j + 1]);
      (idx > -1 ==> e.0 == taken + [group[j]] && e.1 == keysCopy[..idx] + keysCopy[idx + 1..])
      && (idx == -1 ==> e.0 == taken && e.1 == keysCopy)
  {
    var dir := group[j];
    ExtractSnoc(orig, done + group[..j], dir);
    assert done + group[..j + 1] == (done + group[..j]) + [dir];
    var idx := IndexOfKey(keysCopy, dir);
    if idx > -1 {
      SpliceIsRemoveFirst(keysCopy, dir, idx);
    }
  }

  lemma FlattenSnoc(groups: seq<seq<string>>, g: nat)
    requires g < |groups|
    ensures Flatten(groups[..g + 1]) == Flatten(groups[..g]) + groups[g]
  {
    FlattenAppend(groups[..g], [groups[g]]);
    assert groups[..g + 1] == groups[..g] + [groups[g]];
  }

  lemma {:induction false} FlattenAppend(a: seq<seq<string>>, b: seq<seq<string>>)
    ensures Flatten(a + b) == Flatten(a) + Flatten(b)
    decreases |a|
  {
    if a == [] {
      assert a + b == b;
    } else {
      assert (a + b)[1..] == a[1..] + b;
      FlattenAppend(a[1..], b);
    }
  }

  lemma {:induction false} SpliceIsRemoveFirst(s: seq<string>, x: string, idx: int)
    requires idx == IndexOfKey(s, x) && idx >= 0
    ensures s[..idx] + s[idx + 1..] == RemoveFirst(s, x)
    decreases |s|
  {
    if s[0] == x {
      assert idx == 0;
      assert s[..0] + s[1..] == s[1..];
    } else {
      var t := s[1..];
      var k := IndexOfKey(t, x);
      assert idx == k + 1;
      SpliceIsRemoveFirst(t, x, k);
      assert s[..idx] == [s[0]] + t[..k];
      assert s[idx + 1..] == t[k + 1..];
    }
  }

  /** One more key of the order: taken from what remains, if present. */
  lemma {:induction false} ExtractSnoc(keys: seq<string>, order: seq<string>, d: string)
    ensures var e := Extract(keys, order);
      Extract(keys, order + [d]) == if d in e.1 then (e.0 + [d], RemoveFirst(e.1, d)) else e
    decreases |order|
  {
    if order == [] {
      assert order + [d] == [d];
      assert [d][1..] == [];
      assert Extract(keys, []) == ([], keys);
      if d in keys {
        assert Extract(RemoveFirst(keys, d), []) == ([], RemoveFirst(keys, d));
        assert [d] + [] == [d];
        assert Extract(keys, [d]) == ([d], RemoveFirst(keys, d));
      } else {
        assert Extract(keys, [d]) == Extract(keys, []);
      }
    } else {
      assert (order + [d])[1..] == order[1..] + [d];
      assert (order + [d])[0] == order[0];
      if order[0] in keys {
        ExtractSnoc(RemoveFirst(keys, order[0]), order[1..], d);
        var e := Extract(RemoveFirst(keys, order[0]), order[1..]);
        assert Extract(keys, order) == ([order[0]] + e.0, e.1);
        assert [order[0]] + (e.0 + [d]) == ([order[0]] + e.0) + [d];
      } else {
        ExtractSnoc(keys, order[1..], d);
      }
    }
  }

  // ---------------------------------------------------------------------
  // properties of the ranking
  // ---------------------------------------------------------------------

  lemma {:induction false} ExtractPermutes(keys: seq<string>, order: seq<string>)
    ensures multiset(Extract(keys, order).0) + multiset(Extract(keys, order).1) == multiset(keys)
    decreases |order|
  {
    if order != [] {
      if order[0] in keys {
        var x := order[0];
        RemoveFirstMultiset(keys, x);
        ExtractPermutes(RemoveFirst(keys, x), order[1..]);
        assert multiset(keys)[x] >= 1;
        assert multiset{x} + (multiset(keys) - multiset{x}) == multiset(keys);
        var e := Extract(RemoveFirst(keys, x), order[1..]);
        assert multiset([x] + e.0) == multiset{x} + multiset(e.0);
      } else {
        ExtractPermutes(keys, order[1..]);
      }
    }
  }

  /** The result is a permutation of the input keys. */
  lemma RankedIsPermutation(keys: seq<string>)
    ensures multiset(Ranked(keys)) == multiset(keys)
  {
    ExtractPermutes(keys, RankOrder());
  }

  lemma RemoveFirstMembership(keys: seq<string>, x: string, y: string)
    requires x != y
    ensures y in RemoveFirst(keys, x) <==> y in keys
  {
    RemoveFirstMultiset(keys, x);
    assert y in RemoveFirst(keys, x) <==> multiset(RemoveFirst(keys, x))[y] > 0;
  }

  lemma {:induction false} ExtractTakesPresent(keys: seq<string>, order: seq<string>)
    requires NoDups(order)
    ensures Extract(keys, order).0 == Present(order, keys)
    decreases |order|
  {
    if order != [] {
      var rest := if order[0] in keys then RemoveFirst(keys, order[0]) else keys;
      ExtractTakesPresent(rest, order[1..]);
      forall y | y in order[1..] ensures y in rest <==> y in keys {
        if order[0] in keys { RemoveFirstMembership(keys, order[0], y); }
      }
      PresentCongruent(order[1..], rest, keys);
    }
  }

  /** `Present` only looks at which keys of the order are present. */
  lemma {:induction false} PresentCongruent(order: seq<string>, a: seq<string>, b: seq<string>)
    requires forall y :: y in order ==> (y in a <==> y in b)
    ensures Present(order, a) == Present(order, b)
    decreases |order|
  {
    if order != [] {
      PresentCongruent(order[1..], a, b);
    }
  }

  lemma RemoveFirstNoDups(keys: seq<string>, x: string)
    requires NoDups(keys)
    ensures RemoveFirst(keys, x) == Without(keys, [x])
    ensures NoDups(RemoveFirst(keys, x))
    decreases |keys|
  {
    if keys != [] {
      RemoveFirstNoDups(keys[1..], x);
      if keys[0] == x {
        assert x !in keys[1..];
        WithoutAbsent(keys[1..], [x]);
      }
    }
  }

  lemma {:induction false} WithoutAbsent(keys: seq<string>, order: seq<string>)
    requires forall y :: y in keys ==> y !in order
    ensures Without(keys, order) == keys
    decreases |keys|
  {
    if keys != [] {
      WithoutAbsent(keys[1..], order);
    }
  }

  lemma {:induction false} WithoutTwice(keys: seq<string>, x: string, order: seq<string>)
    ensures Without(Without(keys, [x]), order) == Without(keys, [x] + order)
    decreases |keys|
  {
    if keys != [] {
      WithoutTwice(keys[1..], x, order);
      var k := keys[0];
      assert k in [x] + order <==> k == x || k in order;
      if k == x {
        assert Without(keys, [x]) == Without(keys[1..], [x]);
      } else {
        assert Without(keys, [x]) == [k] + Without(keys[1..], [x]);
        assert ([k] + Without(keys[1..], [x]))[1..] == Without(keys[1..], [x]);
      }
    }
  }

  lemma {:induction false} ExtractLeavesWithout(keys: seq<string>, order: seq<string>)
    requires NoDups(keys)
    ensures Extract(keys, order).1 == Without(keys, order)
    decreases |order|
  {
    if order == [] {
      WithoutAbsent(keys, order);
    } else {
      var x := order[0];
      RemoveFirstNoDups(keys, x);
      if x in keys {
        ExtractLeavesWithout(RemoveFirst(keys, x), order[1..]);
      } else {
        ExtractLeavesWithout(keys, order[1..]);
        WithoutAbsent(keys, [x]);
      }
      WithoutTwice(keys, x, order[1..]);
      assert [x] + order[1..] == order;
    }
  }

  /** For distinct keys (the keys of an attribute object), the ranking is the
   *  priority keys present, in the table's order, followed by the other keys
   *  in their original relative order; `wx:elif` and `wx:else` are among the
   *  latter. */
  lemma RankedShape(keys: seq<string>)
    requires NoDups(keys)
    ensures Ranked(keys) == Present(RankOrder(), keys) + Without(keys, RankOrder())
    ensures Ranked(keys) == Present(["wx:for", "wx:for-item", "wx:for-index", "wx:key", "wx:if"], keys)
                          + Without(keys, ["wx:for", "wx:for-item", "wx:for-index", "wx:key", "wx:if"])
  {
    PriorityGroups();
    ExtractTakesPresent(keys, RankOrder());
    ExtractLeavesWithout(keys, RankOrder());
  }

  lemma {:induction false} PresentNoDups(order: seq<string>, keys: seq<string>)
    requires NoDups(order)
    ensures NoDups(Present(order, keys))
    decreases |order|
  {
    if order != [] {
      PresentNoDups(order[1..], keys);
    }
  }

  lemma {:induction false} WithoutNoDups(keys: seq<string>, order: seq<string>)
    requires NoDups(keys)
    ensures NoDups(Without(keys, order))
    decreases |keys|
  {
    if keys != [] {
      WithoutNoDups(keys[1..], order);
    }
  }

  lemma {:induction false} WithoutConcat(a: seq<string>, b: seq<string>, order: seq<string>)
    ensures Without(a + b, order) == Without(a, order) + Without(b, order)
    decreases |a|
  {
    if a == [] {
      assert a + b == b;
    } else {
      assert (a + b)[1..] == a[1..] + b;
      WithoutConcat(a[1..], b, order);
    }
  }

  lemma {:induction false} WithoutAll(a: seq<string>, order: seq<string>)
    requires forall y :: y in a ==> y in order
    ensures Without(a, order) == []
    decreases |a|
  {
    if a != [] {
      WithoutAll(a[1..], order);
    }
  }

  /** Ranking is idempotent. */
  lemma RankedIdempotent(keys: seq<string>)
    requires NoDups(keys)
    ensures Ranked(Ranked(keys)) == Ranked(keys)
  {
    var order := RankOrder();
    RankedShape(keys);
    var a := Present(order, keys);
    var b := Without(keys, order);
    RankedNoDups(keys);
    RankedShape(a + b);
    PresentCongruent(order, a + b, keys);
    WithoutOfRanked(a, b, order);
  }

  lemma RankedNoDups(keys: seq<string>)
    requires NoDups(keys)
    ensures NoDups(Present(RankOrder(), keys) + Without(keys, RankOrder()))
  {
    var order := RankOrder();
    PriorityGroups();
    PresentNoDups(order, keys);
    WithoutNoDups(keys, order);
    NoDupsConcat(Present(order, keys), Without(keys, order));
  }

  lemma NoDupsConcat(a: seq<string>, b: seq<string>)
    requires NoDups(a) && NoDups(b)
    requires forall y :: y in a ==> y !in b
    ensures NoDups(a + b)
  {
    var c := a + b;
    forall i, j | 0 <= i < j < |c| ensures c[i] != c[j] {
      if i < |a| && j >= |a| {
        assert c[i] in a && c[j] in b;
      }
    }
  }

  lemma WithoutOfRanked(a: seq<string>, b: seq<string>, order: seq<string>)
    requires forall y :: y in a ==> y in order
    requires forall y :: y in b ==> y !in order
    ensures Without(a + b, order) == b
  {
    WithoutConcat(a, b, order);
    WithoutAll(a, order);
    WithoutAbsent(b, order);
  }

  /** Reordering only the priority keys of the input does not change the
   *  result. */
  lemma RankedIgnoresPriorityOrder(keys1: seq<string>, keys2: seq<string>)
    requires NoDups(keys1) && NoDups(keys2)
    requires forall x :: x in keys1 <==> x in keys2
    requires Without(keys1, RankOrder()) == Without(keys2, RankOrder())
    ensures Ranked(keys1) == Ranked(keys2)
  {
    RankedShape(keys1);
    RankedShape(keys2);
    PresentCongruent(RankOrder(), keys1, keys2);
  }
}
