/**
 * Option resolution: the `extend` merge and the three layers every
 * validation call combines (library defaults, instance options, call
 * options).
 */
module Resolve {
  import opened JsValues

  /** The library's default options. Keys it leaves undefined are simply absent. */
  const DefaultOptions: Options := map[
    "strict" := Bool(false),
    "canonize" := Bool(true),
    "returnNullOnErrors" := Bool(true),
    "stopAfterFirstError" := Bool(false),
    "optional" := Bool(false),
    "allowOverwriteValidator" := Bool(false),
    "returnUndefined" := Bool(true)
  ]

  /** `extend(target, source)`: every property of source that is not undefined overwrites target's. */
  function Extend(target: Options, source: Options): (r: Options)
    ensures forall k :: Opt(r, k) == (if Opt(source, k) != Undefined then Opt(source, k) else Opt(target, k))
  {
    target + map k | k in source && source[k] != Undefined :: source[k]
  }

  /** The first of three values that is not undefined (or undefined if none is). */
  function FirstDefined(a: Value, b: Value, c: Value): Value {
    if a != Undefined then a else if b != Undefined then b else c
  }

  /** `extend({}, defaults, instanceOptions, callOptions)`: the first layer from the call side that defines a key wins. */
  function Resolved(defaults: Options, instance: Options, call: Options): (r: Options)
    ensures forall k :: Opt(r, k) == FirstDefined(Opt(call, k), Opt(instance, k), Opt(defaults, k))
  {
    Extend(Extend(Extend(map[], defaults), instance), call)
  }

  /** Merging the same options twice is merging them once: an override that persisted stays as it is. */
  lemma ExtendIdempotent(target: Options, source: Options)
    ensures Extend(Extend(target, source), source) == Extend(target, source)
  {
  }

  /** A merge with nothing (an absent options argument) changes nothing. */
  lemma ExtendEmpty(target: Options)
    ensures Extend(target, map[]) == target
  {
  }

  /** Two successive merges read like one merge of the later layer over the earlier one. */
  lemma ExtendAssociative(a: Options, b: Options, c: Options)
    ensures forall k :: Opt(Extend(Extend(a, b), c), k) == Opt(Extend(a, Extend(b, c)), k)
  {
  }
}
