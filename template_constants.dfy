/** The lookup tables of packages/core/src/parsers/template/constants.ts. A
 *  JavaScript `Map` keeps its entries in insertion order, so each table is a
 *  sequence of (key, value) pairs. */
module TemplateConstants {
  import opened Wrappers
  import opened Strings
  import TemplateHooks

  type Table = TemplateHooks.Record<string>

  /** `map.get(key)`: the value filed under `key`, if any. */
  function Lookup(table: Table, key: string): Option<string>
  {
    if table == [] then None
    else if table[0].0 == key then Some(table[0].1)
    else Lookup(table[1..], key)
  }

  /** A lookup finds a key exactly when the table lists it, and what it
   *  finds is listed with that key. */
  lemma {:induction false} LookupSpec(table: Table, key: string)
    ensures Lookup(table, key).Some? <==> key in TemplateHooks.Keys(table)
    ensures Lookup(table, key).Some? ==> (key, Lookup(table, key).value) in table
  {
    if table != [] && table[0].0 != key {
      LookupSpec(table[1..], key);
      assert TemplateHooks.Keys(table) == [table[0].0] + TemplateHooks.Keys(table[1..]);
    }
  }

  function Values(table: Table): (vs: seq<string>)
    ensures |vs| == |table| && forall i :: 0 <= i < |table| ==> vs[i] == table[i].1
  {
    if table == [] then [] else [table[0].1] + Values(table[1..])
  }

  /** Two columns of equal length paired row by row. */
  function Zip(keys: seq<string>, values: seq<string>): (table: Table)
    requires |keys| == |values|
    ensures |table| == |keys| && forall i :: 0 <= i < |keys| ==> table[i] == (keys[i], values[i])
  {
    if keys == [] then [] else [(keys[0], values[0])] + Zip(keys[1..], values[1..])
  }

  lemma KeysOfZip(keys: seq<string>, values: seq<string>)
    requires |keys| == |values|
    ensures TemplateHooks.Keys(Zip(keys, values)) == keys
  {
  }

  /** Default tag renaming, mini-program tag to H5 tag, kept as its two
   *  columns: `view` to `div`, `text` to `span`, ..., `slot` to `Slot`. */
  const TAG_NAME_MAP: Table := Zip(DEFAULT_TAGS, DEFAULT_H5_TAGS)

  const DEFAULT_TAGS: seq<string> := ["view", "text", "image", "block", "button", "input", "video", "audio", "a", "hr", "slot"]

  const DEFAULT_H5_TAGS: seq<string> :=
    ["div", "span", "img", "React.Fragment", "button", "input", "video", "audio", "a", "hr", "Slot"]

  /** The directives that change the structure of the generated JSX. */
  const DIRECTIVES_MAP: Table := [
    ("wx:if", "if"), ("wx:elif", "elif"), ("wx:else", "else"), ("wx:for", "for")
  ]

  /** The order in which attributes are handled, group by group. */
  const DIRECTIVES_PRIORITY: seq<seq<string>> := [
    ["wx:for"], ["wx:for-item", "wx:for-index"], ["wx:key"], ["wx:if"]
  ]

  /** Attributes renamed on the way to React. */
  const ATTRS_MAP: Table := [
    ("class", "className"), ("style", "style"), ("id", "id"), ("ext-class", "extClass"),
    ("ext-style", "extStyle"), ("extStyle", "extStyle"), ("ref", "ref")
  ]

  /** Attributes whose value names a variable of the loop. */
  const VARIABLES_MAP: Table := [
    ("wx:key", "key"), ("wx:for-index", "index"), ("wx:for-item", "item")
  ]

  /** Attributes that are consumed and never emitted. */
  const REMOVE_ATTRIBUTES: seq<string> := ["wx:for-index", "wx:for-item"]

  /** Mini-program event attributes with a fixed React name. */
  const EVENTS_MAP: Table := [
    ("bindtap", "onClick"), ("bind:tap", "onClick"), ("catchtap", "onClick"),
    ("catch:tap", "onClick"), ("bindinput", "onChange"),
    ("bindtouchstart", "onTouchStart"), ("bindtouchmove", "onTouchMove"),
    ("bindtouchend", "onTouchEnd"), ("bindtouchcancel", "onTouchCancel"),
    ("bind:touchstart", "onTouchStart"), ("bind:touchmove", "onTouchMove"),
    ("bind:touchend", "onTouchEnd"), ("bind:touchcancel", "onTouchCancel")
  ]

  /** The priority groups flattened: the order ranked keys come out in. */
  function Flatten(groups: seq<seq<string>>): (r: seq<string>)
    ensures forall x :: x in r <==> exists g :: 0 <= g < |groups| && x in groups[g]
  {
    if groups == [] then []
    else
      var rest := Flatten(groups[1..]);
      assert forall x :: (exists g :: 1 <= g < |groups| && x in groups[g]) <==> x in rest by {
        forall x ensures (exists g :: 1 <= g < |groups| && x in groups[g]) <==> x in rest {
          if x in rest {
            var g :| 0 <= g < |groups[1..]| && x in groups[1..][g];
            assert x in groups[g + 1];
          }
        }
      }
      groups[0] + rest
  }

  predicate NoDups(s: seq<string>)
  {
    forall i, j :: 0 <= i < j < |s| ==> s[i] != s[j]
  }

  /** `DIRECTIVES_MAP` maps exactly the four directive attributes to their
   *  directive names. */
  lemma DirectivesMapExact(k: string)
    ensures Lookup(DIRECTIVES_MAP, k) == (
      if k == "wx:if" then Some("if")
      else if k == "wx:elif" then Some("elif")
      else if k == "wx:else" then Some("else")
      else if k == "wx:for" then Some("for")
      else None)
  {
    LookupSpec(DIRECTIVES_MAP, k);
  }

  /** The priority groups are pairwise disjoint (no key is listed twice), in
   *  the order `wx:for`, `wx:for-item`, `wx:for-index`, `wx:key`, `wx:if`, and
   *  `wx:elif` and `wx:else` are in none of them. */
  lemma PriorityGroups()
    ensures Flatten(DIRECTIVES_PRIORITY) == ["wx:for", "wx:for-item", "wx:for-index", "wx:key", "wx:if"]
    ensures NoDups(Flatten(DIRECTIVES_PRIORITY))
    ensures "wx:elif" !in Flatten(DIRECTIVES_PRIORITY) && "wx:else" !in Flatten(DIRECTIVES_PRIORITY)
  {
  }

  /** Every removed attribute is a loop-variable attribute, and `wx:key` is
   *  kept. */
  lemma RemovedAreVariables()
    ensures forall a :: a in REMOVE_ATTRIBUTES ==> a in TemplateHooks.Keys(VARIABLES_MAP)
    ensures "wx:key" !in REMOVE_ATTRIBUTES
  {
  }

  /** Every fixed event name is a React handler name. */
  lemma EventsStartWithOn()
    ensures forall i :: 0 <= i < |EVENTS_MAP| ==> StartsWith(EVENTS_MAP[i].1, "on")
  {
    forall i | 0 <= i < |EVENTS_MAP| ensures StartsWith(EVENTS_MAP[i].1, "on") {
      var v := EVENTS_MAP[i].1;
      assert v[..2] == "on" by {
        assert v == "onClick" || v == "onChange" || v == "onTouchStart" || v == "onTouchMove"
          || v == "onTouchEnd" || v == "onTouchCancel";
      }
    }
  }

  /** No attribute is both a directive, a loop variable and a renamed
   *  attribute: the three key sets are pairwise disjoint. */
  lemma KeySetsDisjoint()
    ensures forall k :: Lookup(DIRECTIVES_MAP, k).Some? ==> Lookup(VARIABLES_MAP, k).None? && Lookup(ATTRS_MAP, k).None?
    ensures forall k :: Lookup(VARIABLES_MAP, k).Some? ==> Lookup(ATTRS_MAP, k).None?
  {
    forall k
      ensures Lookup(DIRECTIVES_MAP, k).Some? ==> Lookup(VARIABLES_MAP, k).None? && Lookup(ATTRS_MAP, k).None?
      ensures Lookup(VARIABLES_MAP, k).Some? ==> Lookup(ATTRS_MAP, k).None?
    {
      DirectivesMapExact(k);
      VariablesMapExact(k);
      AttrsMapExact(k);
    }
  }

  /** `ATTRS_MAP` renames exactly these seven attributes. */
  lemma AttrsMapExact(k: string)
    ensures Lookup(ATTRS_MAP, k) == (
      if k == "class" then Some("className")
      else if k == "style" then Some("style")
      else if k == "id" then Some("id")
      else if k == "ext-class" then Some("extClass")
      else if k == "ext-style" then Some("extStyle")
      else if k == "extStyle" then Some("extStyle")
      else if k == "ref" then Some("ref")
      else None)
  {
    LookupSpec(ATTRS_MAP, k);
  }

  /** `VARIABLES_MAP` names exactly the loop's key, index and item. */
  lemma VariablesMapExact(k: string)
    ensures Lookup(VARIABLES_MAP, k) == (
      if k == "wx:key" then Some("key")
      else if k == "wx:for-index" then Some("index")
      else if k == "wx:for-item" then Some("item")
      else None)
  {
    LookupSpec(VARIABLES_MAP, k);
  }

  /** Every fixed event attribute starts with `bind` or `catch`. */
  lemma EventKeysArePrefixed()
    ensures forall i :: 0 <= i < |EVENTS_MAP| ==>
      StartsWith(EVENTS_MAP[i].0, "bind") || StartsWith(EVENTS_MAP[i].0, "catch")
  {
    forall i | 0 <= i < |EVENTS_MAP|
      ensures StartsWith(EVENTS_MAP[i].0, "bind") || StartsWith(EVENTS_MAP[i].0, "catch")
    {
      var k := EVENTS_MAP[i].0;
      assert k[..4] == "bind" || k[..5] == "catch" by {
        assert k == "bindtap" || k == "bind:tap" || k == "catchtap" || k == "catch:tap"
          || k == "bindinput" || k == "bindtouchstart" || k == "bindtouchmove" || k == "bindtouchend"
          || k == "bindtouchcancel" || k == "bind:touchstart" || k == "bind:touchmove"
          || k == "bind:touchend" || k == "bind:touchcancel";
      }
    }
  }
}
