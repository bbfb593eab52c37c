/** The records and hook kinds of packages/core/src/templateHooks.ts: the
 *  per-attribute result, the per-element collector of directives, loop
 *  variables and sibling conditions, and the behaviour of the bail and
 *  waterfall hooks the template passes are chained through. */
module TemplateHooks {
  import opened Wrappers

  /** An attribute as written in the markup. */
  datatype AttributeOrigin = AttributeOrigin(key: string, value: string)

  /** What an attribute handler decides for one attribute. */
  datatype AttributeInfo = AttributeInfo(
    attrName: string,
    attrValue: string,
    matrixKey: Option<string>,
    removeAttribute: bool,
    removeQuotes: bool)

  /** The value of a directive: an expression, or the `[for, if]` pair of a
   *  merged `forWithIf`. */
  datatype ExpOrFn = Exp(s: string) | Pair(forExp: string, ifExp: string)

  /** An ordered string-keyed record (a plain object: keys keep their
   *  insertion order, a re-assigned key keeps its place). */
  type Record<V> = seq<(string, V)>

  function Get<V>(r: Record<V>, key: string): (v: Option<V>)
    ensures v.Some? <==> key in Keys(r)
    ensures v.Some? ==> (key, v.value) in r
  {
    if r == [] then None else if r[0].0 == key then Some(r[0].1) else Get(r[1..], key)
  }

  function Keys<V>(r: Record<V>): (ks: seq<string>)
    ensures |ks| == |r| && forall i :: 0 <= i < |r| ==> ks[i] == r[i].0
  {
    if r == [] then [] else [r[0].0] + Keys(r[1..])
  }

  /** `r[key] = value`. */
  function Put<V>(r: Record<V>, key: string, value: V): Record<V>
  {
    if r == [] then [(key, value)]
    else if r[0].0 == key then [(key, value)] + r[1..]
    else [r[0]] + Put(r[1..], key, value)
  }

  /** After `r[key] = value` the key holds the value, the other keys are
   *  untouched, and a new key is appended to the key order. */
  lemma PutSpec<V>(r: Record<V>, key: string, value: V)
    ensures Get(Put(r, key, value), key) == Some(value)
    ensures forall k :: k != key ==> Get(Put(r, key, value), k) == Get(r, k)
    ensures key in Keys(r) ==> Keys(Put(r, key, value)) == Keys(r)
    ensures key !in Keys(r) ==> Keys(Put(r, key, value)) == Keys(r) + [key]
  {
    PutGet(r, key, value);
    PutKeys(r, key, value);
  }

  lemma {:induction false} PutGet<V>(r: Record<V>, key: string, value: V)
    ensures Get(Put(r, key, value), key) == Some(value)
    ensures forall k :: k != key ==> Get(Put(r, key, value), k) == Get(r, k)
    decreases |r|
  {
    if r != [] && r[0].0 != key {
      PutGet(r[1..], key, value);
      var rest := Put(r[1..], key, value);
      assert Put(r, key, value) == [r[0]] + rest;
      assert ([r[0]] + rest)[1..] == rest;
    } else if r != [] {
      assert ([(key, value)] + r[1..])[1..] == r[1..];
    }
  }

  lemma {:induction false} PutKeys<V>(r: Record<V>, key: string, value: V)
    ensures key in Keys(r) ==> Keys(Put(r, key, value)) == Keys(r)
    ensures key !in Keys(r) ==> Keys(Put(r, key, value)) == Keys(r) + [key]
    decreases |r|
  {
    if r != [] && r[0].0 != key {
      PutKeys(r[1..], key, value);
      var rest := Put(r[1..], key, value);
      assert Put(r, key, value) == [r[0]] + rest;
      assert ([r[0]] + rest)[1..] == rest;
      assert Keys(r) == [r[0].0] + Keys(r[1..]);
      assert Keys(Put(r, key, value)) == [r[0].0] + Keys(rest);
    } else if r != [] {
      assert ([(key, value)] + r[1..])[1..] == r[1..];
      assert Keys(Put(r, key, value)) == [key] + Keys(r[1..]);
      assert Keys(r)[0] == key;
    }
  }

  /** `r[key] = value` adds no entry other than `(key, value)`. */
  lemma {:induction false} PutEntries<V>(r: Record<V>, key: string, value: V)
    ensures forall x :: x in Put(r, key, value) ==> x == (key, value) || x in r
    decreases |r|
  {
    if r != [] && r[0].0 != key {
      PutEntries(r[1..], key, value);
      assert Put(r, key, value) == [r[0]] + Put(r[1..], key, value);
    } else if r != [] {
      assert forall x :: x in r[1..] ==> x in r;
    }
  }

  /** `delete r[key]`. */
  function Remove<V>(r: Record<V>, key: string): Record<V>
  {
    if r == [] then []
    else if r[0].0 == key then Remove(r[1..], key)
    else [r[0]] + Remove(r[1..], key)
  }

  /** After `delete r[key]` the key is gone and every other key keeps its
   *  value and its place. */
  lemma {:induction false} RemoveSpec<V>(r: Record<V>, key: string)
    ensures Get(Remove(r, key), key).None?
    ensures forall k :: k != key ==> Get(Remove(r, key), k) == Get(r, k)
    ensures key !in Keys(r) ==> Remove(r, key) == r
    decreases |r|
  {
    if r != [] {
      RemoveSpec(r[1..], key);
      if r[0].0 != key {
        assert Keys(r) == [r[0].0] + Keys(r[1..]);
      }
    }
  }

  /** A plain object's keys are distinct. */
  predicate DistinctKeys<V>(r: Record<V>)
  {
    forall i, j :: 0 <= i < j < |r| ==> r[i].0 != r[j].0
  }

  /** `r[key] = value` keeps a plain object's keys distinct. */
  lemma PutKeepsDistinct<V>(r: Record<V>, key: string, value: V)
    requires DistinctKeys(r)
    ensures DistinctKeys(Put(r, key, value))
  {
    var p := Put(r, key, value);
    PutKeys(r, key, value);
    forall i, j | 0 <= i < j < |p|
      ensures p[i].0 != p[j].0
    {
      assert Keys(p)[i] == p[i].0 && Keys(p)[j] == p[j].0;
      if j < |r| {
        assert Keys(r)[i] == r[i].0 && Keys(r)[j] == r[j].0;
      } else {
        assert Keys(r)[i] == r[i].0;
      }
    }
  }


  /** `{...a, ...b}`: the entries of `b` assigned over those of `a`. */
  function Spread<V>(a: Record<V>, b: Record<V>): Record<V>
    decreases |b|
  {
    if b == [] then a else Spread(Put(a, b[0].0, b[0].1), b[1..])
  }

  /** In `{...a, ...b}` the entries of `b` win; every other key keeps its
   *  value from `a`. */
  lemma {:induction false} SpreadSpec<V>(a: Record<V>, b: Record<V>)
    requires DistinctKeys(b)
    ensures forall k :: Get(Spread(a, b), k) == if Get(b, k).Some? then Get(b, k) else Get(a, k)
    decreases |b|
  {
    if b != [] {
      var a' := Put(a, b[0].0, b[0].1);
      PutSpec(a, b[0].0, b[0].1);
      SpreadSpec(a', b[1..]);
      assert b[0].0 !in Keys(b[1..]) by {
        forall i | 0 <= i < |b[1..]| ensures Keys(b[1..])[i] != b[0].0 {
          assert b[1..][i] == b[i + 1];
        }
      }
    }
  }

  /** The collector every element (and the root) carries through the
   *  template passes. */
  datatype NodeCollector = NodeCollector(
    directives: Record<ExpOrFn>,
    conditionsChildren: seq<AttributeInfo>,
    variables: Record<string>)

  /** `initNodeCollector`: a collector with nothing recorded. */
  function InitNodeCollector(): (c: NodeCollector)
    ensures c.directives == [] && c.conditionsChildren == [] && c.variables == []
  {
    NodeCollector([], [], [])
  }

  /** A node of the parsed markup. Script and style elements are elements
   *  like any other; processing instructions and CDATA sections are kept
   *  apart only as nodes nobody handles. `isSingleTag` is the element field
   *  templateHooks.ts:76 declares; no code of the system sets it, so for
   *  parsed markup it is always `false` and elements print with a closing
   *  tag. It is kept as an input to reproduce the `/>` branch of
   *  `generateTag`. */
  datatype TemplateNode =
    | Element(name: string, attribs: Record<string>, children: seq<TemplateNode>, isSingleTag: bool)
    | Text(data: string)
    | Comment(data: string)
    | Unhandled

  /** The tag transforms the plugins install, keyed by tag name: a fixed
   *  H5 tag, or the H5-components transform of the module's config. */
  datatype TagTransform = ConstantTag(tag: string) | H5ComponentTag

  /** A `TagTransforms` object: the transform installed for each tag name,
   *  assigned in place by the plugins holding it. */
  class TagTransforms {
    var entries: map<string, TagTransform>

    constructor ()
      ensures entries == map[]
    {
      entries := map[];
    }

    /** `transforms[name] = transform`. */
    method Set(name: string, transform: TagTransform)
      modifies this
      ensures entries == old(entries)[name := transform]
    {
      entries := entries[name := transform];
    }
  }

  // ---------------------------------------------------------------------
  // hook kinds
  // ---------------------------------------------------------------------

  /** A bail hook: handlers are asked in registration order and the first
   *  that returns a result decides. */
  function CallBail<A, R>(handlers: seq<A -> Option<R>>, arg: A): (r: Option<R>)
  {
    if handlers == [] then None
    else if handlers[0](arg).Some? then handlers[0](arg)
    else CallBail(handlers[1..], arg)
  }

  /** The result of a bail hook is that of the earliest handler with one;
   *  when none has one there is no result. */
  lemma {:induction false} CallBailFirst<A, R>(handlers: seq<A -> Option<R>>, arg: A, i: nat)
    requires i < |handlers| && handlers[i](arg).Some?
    requires forall j :: 0 <= j < i ==> handlers[j](arg).None?
    ensures CallBail(handlers, arg) == handlers[i](arg)
    decreases i
  {
    if i > 0 {
      CallBailFirst(handlers[1..], arg, i - 1);
    }
  }

  lemma {:induction false} CallBailNone<A, R>(handlers: seq<A -> Option<R>>, arg: A)
    requires forall j :: 0 <= j < |handlers| ==> handlers[j](arg).None?
    ensures CallBail(handlers, arg).None?
    decreases |handlers|
  {
    if handlers != [] {
      CallBailNone(handlers[1..], arg);
    }
  }

  /** A waterfall hook: each handler receives the previous handler's value. */
  function CallWaterfall<T>(handlers: seq<T -> T>, init: T): T
    decreases |handlers|
  {
    if handlers == [] then init else CallWaterfall(handlers[1..], handlers[0](init))
  }

  /** Registering one more handler applies it to what the others produced. */
  lemma {:induction false} CallWaterfallSnoc<T>(handlers: seq<T -> T>, h: T -> T, init: T)
    ensures CallWaterfall(handlers + [h], init) == h(CallWaterfall(handlers, init))
    decreases |handlers|
  {
    if handlers == [] {
      assert handlers + [h] == [h];
    } else {
      assert (handlers + [h])[1..] == handlers[1..] + [h];
      CallWaterfallSnoc(handlers[1..], h, handlers[0](init));
    }
  }

  /** `createTemplateHooks`: every call yields hooks with no handler tapped,
   *  so two compilations share no handlers through them. */
  class TemplateHookSet<A, R> {
    var attribute: seq<A -> Option<R>>
    var directives: seq<string -> string>

    constructor ()
      ensures attribute == [] && directives == []
    {
      attribute := [];
      directives := [];
    }

    /** `tap` on the attribute hook. */
    method TapAttribute(handler: A -> Option<R>)
      modifies this
      ensures attribute == old(attribute) + [handler]
      ensures directives == old(directives)
    {
      attribute := attribute + [handler];
    }

    /** `tap` on the directives hook. */
    method TapDirectives(handler: string -> string)
      modifies this
      ensures directives == old(directives) + [handler]
      ensures attribute == old(attribute)
    {
      directives := directives + [handler];
    }
  }
}
