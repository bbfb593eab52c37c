/** The directives waterfall handler of
 *  packages/core/src/parsers/template/DirectivesPlugin.ts: the directives an
 *  element's collector recorded are folded over its generated text, each
 *  wrapping the text the previous one produced. */
module DirectivesPlugin {
  import opened Wrappers
  import opened TemplateHooks
  import opened Directives
  import AttributeRanking
  import TemplateConstants

  /** `variables.k`, with a missing entry read as the falsy `''`. */
  function Variable(variables: Record<string>, k: string): string
  {
    Get(variables, k).GetOr("")
  }

  /** The loop options: present only when `for` is among the directives. */
  function LoopOptions(dirs: seq<string>, variables: Record<string>): (o: Option<DirectiveOptions>)
    ensures "for" !in dirs <==> o.None?
  {
    if "for" in dirs then
      var index := OrDefault(Variable(variables, "index"), "index");
      Some(DirectiveOptions(OrDefault(Variable(variables, "key"), index),
                            OrDefault(Variable(variables, "item"), "item"),
                            index))
    else None
  }

  /** The directive names in the order they are applied: `for` and `if`
   *  together are replaced by one leading `forWithIf`. */
  function DirectiveOrder(dirs: seq<string>): seq<string>
  {
    if "for" in dirs && "if" in dirs then
      AttributeRanking.RemoveFirst(AttributeRanking.RemoveFirst(["forWithIf"] + dirs, "for"), "if")
    else dirs
  }

  /** The collector's directive record after the merge. */
  function MergedDirectives(directives: Record<ExpOrFn>): Record<ExpOrFn>
  {
    var dirs := Keys(directives);
    if "for" in dirs && "if" in dirs then
      Put(directives, "forWithIf", Pair(ExpText(DirValue(directives, "for")), ExpText(DirValue(directives, "if"))))
    else directives
  }

  /** `directives[dir]`; every name applied is a key of the record, so the
   *  fallback is never used. */
  function DirValue(directives: Record<ExpOrFn>, dir: string): ExpOrFn
  {
    Get(directives, dir).GetOr(Exp("undefined"))
  }

  /** `dirs.reduce(...)`: each directive wraps the text so far. */
  function FoldDirectives(dirs: seq<string>, directives: Record<ExpOrFn>, tag: string,
                          options: Option<DirectiveOptions>, siblings: seq<AttributeInfo>): string
    decreases |dirs|
  {
    if dirs == [] then tag
    else
      var last := dirs[|dirs| - 1];
      DirectiveResult(last, DirValue(directives, last),
                      FoldDirectives(dirs[..|dirs| - 1], directives, tag, options, siblings), options, siblings)
  }

  /** The text the handler returns. */
  function DirectivesText(tagContent: string, collector: Option<NodeCollector>, siblings: seq<AttributeInfo>): string
  {
    if collector.None? || collector.value.directives == [] then tagContent
    else
      var dirs := Keys(collector.value.directives);
      FoldDirectives(DirectiveOrder(dirs), MergedDirectives(collector.value.directives), tagContent,
                     LoopOptions(dirs, collector.value.variables), siblings)
  }

  /** The element's collector after the handler. */
  function CollectorAfter(collector: Option<NodeCollector>): Option<NodeCollector>
  {
    if collector.None? then collector
    else Some(collector.value.(directives := MergedDirectives(collector.value.directives)))
  }

  /** The handler: returns the wrapped text and the element's collector, whose
   *  directive record gains the `forWithIf` entry when `for` and `if` meet. */
  method ApplyDirectives(tagContent: string, collector: Option<NodeCollector>, matrixKey: Option<string>,
                         parentConditions: seq<AttributeInfo>) returns (r: string, after: Option<NodeCollector>)
    ensures r == DirectivesText(tagContent, collector, SiblingsConditions(parentConditions, matrixKey))
    ensures after == CollectorAfter(collector)
  {
    after := collector;
    if collector.None? {
      return tagContent, after;
    }
    var directives := collector.value.directives;
    var variables := collector.value.variables;
    var dirs := Keys(directives);
    if |dirs| == 0 {
      return tagContent, after;
    }
    var options: Option<DirectiveOptions> := None;
    if "for" in dirs {
      var index := OrDefault(Variable(variables, "index"), "index");
      options := Some(DirectiveOptions(OrDefault(Variable(variables, "key"), "index"),
                                       OrDefault(Variable(variables, "item"), "item"), index));
      options := Some(options.value.(key := OrDefault(Variable(variables, "key"), OrDefault(index, "index"))));
    }
    var order := dirs;
    if "for" in dirs && "if" in dirs {
      order, directives := MergeForWithIf(dirs, directives);
    }
    after := Some(collector.value.(directives := directives));
    r := Reduce(order, directives, tagContent, options, matrixKey, parentConditions);
  }

  /** Step 1 and 2 of the merge: `forWithIf` is put first and recorded as the
   *  `[for, if]` pair, then the first `for` and the first `if` are spliced
   *  out. */
  method MergeForWithIf(dirs: seq<string>, directives: Record<ExpOrFn>) returns (order: seq<string>, merged: Record<ExpOrFn>)
    requires dirs == Keys(directives) && "for" in dirs && "if" in dirs
    ensures order == DirectiveOrder(dirs)
    ensures merged == MergedDirectives(directives)
  {
    order := ["forWithIf"] + dirs;
    merged := Put(directives, "forWithIf",
                  Pair(ExpText(DirValue(directives, "for")), ExpText(DirValue(directives, "if"))));
    var forIdx := AttributeRanking.IndexOfKey(order, "for");
    AttributeRanking.SpliceIsRemoveFirst(order, "for", forIdx);
    order := order[..forIdx] + order[forIdx + 1..];
    AttributeRanking.RemoveFirstMembership(["forWithIf"] + dirs, "for", "if");
    var ifIdx := AttributeRanking.IndexOfKey(order, "if");
    AttributeRanking.SpliceIsRemoveFirst(order, "if", ifIdx);
    order := order[..ifIdx] + order[ifIdx + 1..];
  }

  /** `dirs.reduce((tagContent, dir) => directive(...), tagContent)`. */
  method Reduce(order: seq<string>, directives: Record<ExpOrFn>, tagContent: string, options: Option<DirectiveOptions>,
                matrixKey: Option<string>, parentConditions: seq<AttributeInfo>) returns (r: string)
    ensures r == FoldDirectives(order, directives, tagContent, options, SiblingsConditions(parentConditions, matrixKey))
  {
    r := tagContent;
    for i := 0 to |order|
      invariant r == FoldDirectives(order[..i], directives, tagContent, options, SiblingsConditions(parentConditions, matrixKey))
    {
      assert order[..i + 1][..i] == order[..i];
      r := RunDirective(matrixKey, parentConditions, order[i], DirValue(directives, order[i]), r, options);
    }
    assert order[..|order|] == order;
  }

  // ---------------------------------------------------------------------
  // properties
  // ---------------------------------------------------------------------

  /** No collector, or a collector without directives: the text is returned
   *  unchanged. */
  lemma NoDirectivesKeepsText(tagContent: string, collector: Option<NodeCollector>, siblings: seq<AttributeInfo>)
    requires collector.None? || collector.value.directives == []
    ensures DirectivesText(tagContent, collector, siblings) == tagContent
  {
  }

  /** `for` and `if` on one element are applied as one leading `forWithIf`
   *  and never separately; the other directives keep their order. */
  lemma ForAndIfMerge(dirs: seq<string>)
    requires "for" in dirs && "if" in dirs
    requires TemplateConstants.NoDups(dirs)
    ensures DirectiveOrder(dirs) == ["forWithIf"] + AttributeRanking.Without(dirs, ["for", "if"])
    ensures "for" !in DirectiveOrder(dirs) && "if" !in DirectiveOrder(dirs)
  {
    var rest := AttributeRanking.RemoveFirst(dirs, "for");
    RemoveFirstBehind("forWithIf", dirs, "for");
    RemoveFirstBehind("forWithIf", rest, "if");
    AttributeRanking.RemoveFirstNoDups(dirs, "for");
    AttributeRanking.RemoveFirstNoDups(rest, "if");
    WithoutBoth(dirs);
  }

  lemma RemoveFirstBehind(h: string, dirs: seq<string>, x: string)
    requires h != x
    ensures AttributeRanking.RemoveFirst([h] + dirs, x) == [h] + AttributeRanking.RemoveFirst(dirs, x)
  {
    assert ([h] + dirs)[1..] == dirs;
  }

  /** The merge removes exactly two names and adds one. */
  lemma ForAndIfMergeLength(dirs: seq<string>)
    requires "for" in dirs && "if" in dirs
    ensures |DirectiveOrder(dirs)| == |dirs| - 1
  {
    var rest := AttributeRanking.RemoveFirst(dirs, "for");
    RemoveFirstBehind("forWithIf", dirs, "for");
    RemoveFirstBehind("forWithIf", rest, "if");
    AttributeRanking.RemoveFirstMembership(dirs, "for", "if");
    var last := AttributeRanking.RemoveFirst(rest, "if");
    AttributeRanking.RemoveFirstMultiset(dirs, "for");
    AttributeRanking.RemoveFirstMultiset(rest, "if");
    assert |rest| == |multiset(rest)| == |dirs| - 1;
    assert |last| == |multiset(last)| == |rest| - 1;
  }

  lemma {:induction false} WithoutBoth(dirs: seq<string>)
    ensures AttributeRanking.Without(AttributeRanking.Without(dirs, ["for"]), ["if"])
         == AttributeRanking.Without(dirs, ["for", "if"])
    decreases |dirs|
  {
    if dirs != [] {
      var h, t := dirs[0], dirs[1..];
      var w := AttributeRanking.Without(t, ["for"]);
      WithoutBoth(t);
      assert AttributeRanking.Without(dirs, ["for"]) == (if h == "for" then [] else [h]) + w;
      if h != "for" {
        assert ([h] + w)[0] == h && ([h] + w)[1..] == w;
        assert AttributeRanking.Without([h] + w, ["if"]) == (if h == "if" then [] else [h]) + AttributeRanking.Without(w, ["if"]);
      } else {
        assert [] + w == w;
      }
    }
  }

  /** The collector records the `[for, if]` pair under `forWithIf`, the
   *  other entries unchanged. */
  lemma MergedRecordsPair(directives: Record<ExpOrFn>)
    requires "for" in Keys(directives) && "if" in Keys(directives)
    ensures Get(MergedDirectives(directives), "forWithIf")
      == Some(Pair(ExpText(DirValue(directives, "for")), ExpText(DirValue(directives, "if"))))
    ensures forall k :: k != "forWithIf" ==> Get(MergedDirectives(directives), k) == Get(directives, k)
  {
    PutSpec(directives, "forWithIf", Pair(ExpText(DirValue(directives, "for")), ExpText(DirValue(directives, "if"))));
  }

  /** Without `for` there are no loop options; with it the item and index
   *  default to `item` and `index`, and the key defaults to the index. */
  lemma LoopOptionsDefaults(dirs: seq<string>, variables: Record<string>)
    requires "for" in dirs
    ensures var o := LoopOptions(dirs, variables).value;
      && o.item == (if Variable(variables, "item") == "" then "item" else Variable(variables, "item"))
      && o.index == (if Variable(variables, "index") == "" then "index" else Variable(variables, "index"))
      && o.key == (if Variable(variables, "key") == "" then o.index else Variable(variables, "key"))
      && o.item != "" && o.index != "" && o.key != ""
  {
  }

  /** The fold: applying one more directive wraps the previous result. */
  lemma FoldSnoc(dirs: seq<string>, d: string, directives: Record<ExpOrFn>, tag: string,
                 options: Option<DirectiveOptions>, siblings: seq<AttributeInfo>)
    ensures FoldDirectives(dirs + [d], directives, tag, options, siblings)
      == DirectiveResult(d, DirValue(directives, d), FoldDirectives(dirs, directives, tag, options, siblings), options, siblings)
  {
    assert (dirs + [d])[..|dirs|] == dirs;
  }

  /** A single `if` recorded on an element gives exactly the `if` wrapper. */
  lemma SingleIf(e: string, tagContent: string, variables: Record<string>, siblings: seq<AttributeInfo>)
    ensures DirectivesText(tagContent, Some(NodeCollector([("if", Exp(e))], [], variables)), siblings)
      == "{ !!(" + e + ") && ( " + tagContent + " ) }"
  {
    var c := NodeCollector([("if", Exp(e))], [], variables);
    assert Keys(c.directives) == ["if"];
    assert DirectiveOrder(["if"]) == ["if"];
    assert FoldDirectives(["if"], c.directives, tagContent, None, siblings)
      == DirectiveResult("if", Exp(e), tagContent, None, siblings);
  }
}
