/**
 * What the drivers promise: option precedence aside (see Resolve), the
 * `stopAfterFirstError` guard, the optional/default case, the `canonize`
 * choice, rejection of the whole input, the short circuit on the first
 * failing element, and that exceptions in transformations never escape.
 */
module DriverLaws {
  import opened Wrappers
  import opened JsValues
  import opened Host
  import opened Definitions
  import opened Transform
  import opened Drivers

  predicate NoPreTransforms(o: Options) {
    !Truthy(Opt(o, "preTransform")) && !Truthy(Opt(o, "preTransformItem"))
  }

  predicate NoPostTransforms(o: Options) {
    !Truthy(Opt(o, "postTransformItem")) && !Truthy(Opt(o, "postTransform"))
  }

  /** The element or value passes the definition. */
  predicate ItemValid(definition: DefinitionFn, x: Value, o: Options) {
    definition(x, o).Normal? && definition(x, o).value.valid
  }

  /** The value a validated element is replaced by: its canonical form when `canonize` is set. */
  function CanonOf(definition: DefinitionFn, x: Value, o: Options): Value {
    if Flag(o, "canonize") && definition(x, o).Normal? then definition(x, o).value.data else x
  }

  function Canonized(definition: DefinitionFn, xs: seq<Value>, o: Options): (r: seq<Value>)
    ensures |r| == |xs| && forall j :: 0 <= j < |xs| ==> r[j] == CanonOf(definition, xs[j], o)
  {
    seq(|xs|, j requires 0 <= j < |xs| => CanonOf(definition, xs[j], o))
  }

  /** A definition that cannot throw with these options. */
  ghost predicate NeverThrows(definition: DefinitionFn, o: Options) {
    forall x :: definition(x, o).Normal?
  }

  /**
   * The built-in definitions never throw, except the enumerated ones when
   * their table is not an object, and `num` and `str` when evaluating a
   * `regExp` option throws.
   */
  lemma BuiltinNeverThrows(id: nat, o: Options, host: Env)
    requires id < BuiltinCount && (id < 5 || id > 7 || Opt(o, "enumerated").Obj?)
    requires (id != 2 && id != 3) || !Flag(o, "regExp")
    ensures NeverThrows(DefinitionOf(id, host), o)
  {
  }

  // ---------------------------------------------------------------------------
  // Guard, optional value, canonize
  // ---------------------------------------------------------------------------

  /** With `stopAfterFirstError` set and an error already stored, no entry point stores anything. */
  lemma StopAfterFirstErrorSkips(shape: Shape, definition: DefinitionFn, data: Value, o: Options, host: Env)
    requires Flag(o, "stopAfterFirstError")
    ensures ShapeOutcome(shape, definition, data, o, false, host) == Skip
  {
  }

  /**
   * An undefined scalar with `optional` set is valid without running the
   * definition: the stored value is `defaultValue` (or the undefined input
   * itself when `canonize` is off), and nothing is stored when that is
   * undefined and `returnUndefined` is off.
   */
  lemma OptionalScalar(definition: DefinitionFn, o: Options, wrongEmpty: bool, host: Env)
    requires !Stops(o, wrongEmpty) && NoPreTransforms(o) && NoPostTransforms(o) && Flag(o, "optional")
    ensures DataOutcome(definition, Undefined, o, wrongEmpty, host) ==
      if Opt(o, "defaultValue") != Undefined || Flag(o, "returnUndefined") then
        Accept(if Flag(o, "canonize") then Opt(o, "defaultValue") else Undefined)
      else Skip
  {
  }

  /** An undefined array or object with `optional` set is accepted as `defaultValue`, when `returnUndefined` is on. */
  lemma OptionalCollection(shape: Shape, definition: DefinitionFn, o: Options, wrongEmpty: bool, host: Env)
    requires shape != Scalar
    requires !Stops(o, wrongEmpty) && NoPreTransforms(o) && NoPostTransforms(o) && Flag(o, "optional")
    ensures CollectionOutcome(shape, definition, Undefined, o, wrongEmpty, host) ==
      if Flag(o, "returnUndefined") then Accept(Opt(o, "defaultValue")) else Skip
  {
  }

  /**
   * Otherwise a scalar's outcome is the definition's verdict: a rejection
   * stores the input, an acceptance stores the canonical data when
   * `canonize` is on and the input when it is off, and a valid undefined
   * result is dropped unless `returnUndefined` is on.
   */
  lemma ScalarVerdict(definition: DefinitionFn, data: Value, o: Options, wrongEmpty: bool, host: Env, r: DefResult)
    requires !Stops(o, wrongEmpty) && NoPreTransforms(o) && NoPostTransforms(o)
    requires !(data == Undefined && Flag(o, "optional"))
    requires definition(data, o) == Normal(r)
    ensures DataOutcome(definition, data, o, wrongEmpty, host) ==
      if !r.valid then Reject(data)
      else if r.data != Undefined || Flag(o, "returnUndefined") then Accept(if Flag(o, "canonize") then r.data else data)
      else Skip
  {
  }

  /**
   * A scalar rejection records what `data` held when the step failed: the
   * original input when `preTransform` throws, its result when
   * `preTransformItem` throws, and the result of both otherwise (a rejection
   * by the definition or a throw in a post-transformation); never canonical
   * data.
   */
  lemma ScalarRejectionStoresInput(definition: DefinitionFn, data: Value, o: Options, wrongEmpty: bool, host: Env)
    requires !Stops(o, wrongEmpty)
    ensures var out := DataOutcome(definition, data, o, wrongEmpty, host);
      match Transformed(data, Opt(o, "preTransform"), host)
      case Abrupt(_) => out == Reject(data)
      case Normal(d1) =>
        match Transformed(d1, Opt(o, "preTransformItem"), host)
        case Abrupt(_) => out == Reject(d1)
        case Normal(d2) => out.Reject? ==> out == Reject(d2)
  {
  }

  /**
   * An array or object rejection records the whole input: the original when
   * `preTransform` throws, and its result whenever `preTransform` succeeded;
   * never the partly canonized copy.
   */
  lemma CollectionRejectionStoresInput(shape: Shape, definition: DefinitionFn, data: Value, o: Options, wrongEmpty: bool, host: Env)
    requires shape != Scalar && !Stops(o, wrongEmpty)
    ensures var out := CollectionOutcome(shape, definition, data, o, wrongEmpty, host);
      match Transformed(data, Opt(o, "preTransform"), host)
      case Abrupt(_) => out == Reject(data)
      case Normal(d) => out.Reject? ==> out == Reject(d)
  {
  }

  /**
   * An input of the wrong kind (not an array, or not a plain object) is
   * invalid unless it is an optional undefined. Because no definition ran,
   * the store condition falls back on `returnUndefined` alone: with it off,
   * nothing is recorded.
   */
  lemma WrongKindRejected(shape: Shape, definition: DefinitionFn, data: Value, o: Options, wrongEmpty: bool, host: Env)
    requires shape != Scalar && !Stops(o, wrongEmpty) && !Truthy(Opt(o, "preTransform"))
    requires !(shape == ArrayShape && data.Arr?) && !(shape == ObjectShape && data.Obj?)
    requires !(data == Undefined && Flag(o, "optional"))
    ensures CollectionOutcome(shape, definition, data, o, wrongEmpty, host) ==
      if Flag(o, "returnUndefined") then Reject(data) else Skip
  {
  }

  // ---------------------------------------------------------------------------
  // Exceptions
  // ---------------------------------------------------------------------------

  lemma {:induction false} ScanArrayNeverDefinitionThrew(definition: DefinitionFn, val: seq<Value>, i: nat, last: Option<DefResult>, o: Options, host: Env)
    requires i <= |val| && NeverThrows(definition, o)
    ensures !ScanArray(definition, val, i, last, o, host).DefinitionThrew?
    decreases |val| - i
  {
    if i < |val| {
      match ItemStep(definition, val[i], o, host, Arr(val))
      case Stop(s) =>
      case Next(v, r) => ScanArrayNeverDefinitionThrew(definition, val[i := v], i + 1, Some(r), o, host);
    }
  }

  lemma {:induction false} ScanObjectNeverDefinitionThrew(definition: DefinitionFn, keys: seq<string>, val: Record, i: nat, last: Option<DefResult>, o: Options, host: Env)
    requires i <= |keys| && NeverThrows(definition, o)
    ensures !ScanObject(definition, keys, val, i, last, o, host).DefinitionThrew?
    decreases |keys| - i
  {
    if i < |keys| {
      match ItemStep(definition, Get(val, keys[i]), o, host, Obj(val))
      case Stop(s) =>
      case Next(v, r) => ScanObjectNeverDefinitionThrew(definition, keys, Set(val, keys[i], v), i + 1, Some(r), o, host);
    }
  }

  /**
   * Whatever the transformations throw, a built-in definition that cannot
   * throw never makes a validation call throw: every transformation
   * exception ends as a rejection.
   */
  lemma TransformExceptionsNeverEscape(shape: Shape, definition: DefinitionFn, data: Value, o: Options, wrongEmpty: bool, host: Env)
    requires NeverThrows(definition, o)
    ensures !ShapeOutcome(shape, definition, data, o, wrongEmpty, host).Raise?
  {
    if shape == Scalar {
      ScalarNeverRaises(definition, data, o, wrongEmpty, host);
    } else {
      CollectionNeverRaises(shape, definition, data, o, wrongEmpty, host);
    }
  }

  lemma ScalarNeverRaises(definition: DefinitionFn, data: Value, o: Options, wrongEmpty: bool, host: Env)
    requires NeverThrows(definition, o)
    ensures !DataOutcome(definition, data, o, wrongEmpty, host).Raise?
  {
    forall d ensures !DataAfterPre(definition, d, o, host).Raise? {
      assert definition(d, o).Normal?;
    }
  }

  /** An array or object call throws only when its loop ended in the definition's exception. */
  lemma CollectionRaises(shape: Shape, definition: DefinitionFn, data: Value, o: Options, wrongEmpty: bool, host: Env)
    requires shape != Scalar && CollectionOutcome(shape, definition, data, o, wrongEmpty, host).Raise?
    ensures Transformed(data, Opt(o, "preTransform"), host).Normal?
    ensures CollectionScan(shape, definition, Transformed(data, Opt(o, "preTransform"), host).value, o, host).DefinitionThrew?
  {
  }

  lemma CollectionNeverRaises(shape: Shape, definition: DefinitionFn, data: Value, o: Options, wrongEmpty: bool, host: Env)
    requires shape != Scalar && NeverThrows(definition, o)
    ensures !CollectionOutcome(shape, definition, data, o, wrongEmpty, host).Raise?
  {
    if CollectionOutcome(shape, definition, data, o, wrongEmpty, host).Raise? {
      CollectionRaises(shape, definition, data, o, wrongEmpty, host);
      var d := Transformed(data, Opt(o, "preTransform"), host).value;
      if shape == ArrayShape && d.Arr? {
        ScanArrayNeverDefinitionThrew(definition, d.items, 0, None, o, host);
      } else if shape == ObjectShape && d.Obj? {
        ScanObjectNeverDefinitionThrew(definition, Keys(d.fields), DeepCopy(d).fields, 0, None, o, host);
      }
    }
  }

  // ---------------------------------------------------------------------------
  // Arrays
  // ---------------------------------------------------------------------------

  predicate NoItemTransforms(o: Options) {
    !Truthy(Opt(o, "preTransformItem")) && !Truthy(Opt(o, "postTransformItem"))
  }

  /** Every element passes the definition. */
  predicate AllValid(definition: DefinitionFn, xs: seq<Value>, o: Options) {
    forall j :: 0 <= j < |xs| ==> ItemValid(definition, xs[j], o)
  }

  lemma AllValidCons(definition: DefinitionFn, xs: seq<Value>, o: Options)
    requires |xs| > 0
    ensures AllValid(definition, xs, o) <==> ItemValid(definition, xs[0], o) && AllValid(definition, xs[1..], o)
  {
    assert forall j :: 0 < j < |xs| ==> xs[1..][j - 1] == xs[j];
  }

  /** Without item transformations, a valid element is written back as its canonical form. */
  lemma ItemStepValid(definition: DefinitionFn, x: Value, o: Options, host: Env, val: Value)
    requires NoItemTransforms(o) && ItemValid(definition, x, o)
    ensures ItemStep(definition, x, o, host, val) == Next(CanonOf(definition, x, o), definition(x, o).value)
  {
  }

  /** Without item transformations, an element that does not pass ends the loop, and not as a success. */
  lemma ItemStepInvalid(definition: DefinitionFn, x: Value, o: Options, host: Env, val: Value)
    requires NoItemTransforms(o) && !ItemValid(definition, x, o)
    ensures ItemStep(definition, x, o, host, val).Stop?
    ensures !(ItemStep(definition, x, o, host, val).s.Finished? && ItemStep(definition, x, o, host, val).s.ok)
  {
  }

  /** A valid element moves the array loop on by one, its canonical form written back. */
  lemma ScanArrayStep(definition: DefinitionFn, val: seq<Value>, i: nat, last: Option<DefResult>, o: Options, host: Env)
    requires i < |val| && NoItemTransforms(o) && ItemValid(definition, val[i], o)
    ensures ScanArray(definition, val, i, last, o, host)
         == ScanArray(definition, val[i := CanonOf(definition, val[i], o)], i + 1, Some(definition(val[i], o).value), o, host)
  {
    ItemStepValid(definition, val[i], o, host, Arr(val));
  }

  /** Without item transformations, the loop over `val[i..]` completes with every element passing exactly when each of them is valid. */
  lemma {:induction false} ScanArrayOkIff(definition: DefinitionFn, val: seq<Value>, i: nat, last: Option<DefResult>, o: Options, host: Env)
    requires i <= |val| && NoItemTransforms(o)
    ensures var s := ScanArray(definition, val, i, last, o, host);
      (s.Finished? && s.ok) <==> AllValid(definition, val[i..], o)
    decreases |val| - i
  {
    if i < |val| {
      AllValidCons(definition, val[i..], o);
      assert val[i..][0] == val[i] && val[i..][1..] == val[i + 1..];
      if ItemValid(definition, val[i], o) {
        var v := CanonOf(definition, val[i], o);
        ScanArrayStep(definition, val, i, last, o, host);
        ScanArrayOkIff(definition, val[i := v], i + 1, Some(definition(val[i], o).value), o, host);
        assert val[i := v][i + 1..] == val[i + 1..];
      } else {
        ItemStepInvalid(definition, val[i], o, host, Arr(val));
      }
    }
  }

  /** When every element of `val[i..]` is valid, the loop ends with the canonized copy and the last element's result as `res`. */
  lemma {:induction false} ScanArrayResult(definition: DefinitionFn, val: seq<Value>, i: nat, last: Option<DefResult>, o: Options, host: Env)
    requires i <= |val| && NoItemTransforms(o) && AllValid(definition, val[i..], o)
    ensures ScanArray(definition, val, i, last, o, host)
         == Finished(Arr(val[..i] + Canonized(definition, val[i..], o)), true,
                     if i < |val| then Some(definition(val[|val| - 1], o).value) else last)
    decreases |val| - i
  {
    if i == |val| {
      assert val[..i] + Canonized(definition, val[i..], o) == val;
    } else {
      var v := CanonOf(definition, val[i], o);
      var val' := val[i := v];
      var rest := Canonized(definition, val[i + 1..], o);
      assert val'[i + 1..] == val[i + 1..] && val'[..i + 1] + rest == val[..i] + ([v] + rest) by {
        Splice(val, i, v, rest);
      }
      assert ItemValid(definition, val[i], o) && AllValid(definition, val'[i + 1..], o) by {
        AllValidCons(definition, val[i..], o);
        assert val[i..][0] == val[i] && val[i..][1..] == val[i + 1..];
      }
      assert Canonized(definition, val[i..], o) == [v] + rest by {
        CanonizedCons(definition, val[i..], o);
        assert val[i..][0] == val[i] && val[i..][1..] == val[i + 1..];
      }
      ScanArrayStep(definition, val, i, last, o, host);
      ScanArrayResult(definition, val', i + 1, Some(definition(val[i], o).value), o, host);
      if i + 1 < |val| {
        assert val'[|val| - 1] == val[|val| - 1];
      }
    }
  }

  /** The canonized elements of a non-empty sequence: the first one's canonical form, then the rest. */
  lemma CanonizedCons(definition: DefinitionFn, xs: seq<Value>, o: Options)
    requires |xs| > 0
    ensures Canonized(definition, xs, o) == [CanonOf(definition, xs[0], o)] + Canonized(definition, xs[1..], o)
  {
  }

  /** With `canonize` off, the canonized elements are the elements themselves. */
  lemma CanonizedWithoutCanonize(definition: DefinitionFn, xs: seq<Value>, o: Options)
    requires !Flag(o, "canonize")
    ensures Canonized(definition, xs, o) == xs
  {
  }

  /** Writing `v` back at `i` and moving past it keeps the copy's prefix followed by the canonized rest. */
  lemma Splice(val: seq<Value>, i: nat, v: Value, rest: seq<Value>)
    requires i < |val|
    ensures val[i := v][i + 1..] == val[i + 1..]
    ensures val[i := v][..i + 1] + rest == val[..i] + ([v] + rest)
  {
    assert val[i := v][..i + 1] == val[..i] + [v];
  }

  /** After the loop, with no `postTransform`: what the loop produced is stored exactly when every element passed. */
  lemma ConcludedPlain(d: Value, s: Scan, o: Options, host: Env)
    requires !Truthy(Opt(o, "postTransform"))
    ensures Concluded(d, s, o, host).Accept? <==>
      s.Finished? && s.ok && ((s.last.Some? && (!s.last.value.valid || s.last.value.data != Undefined)) || Flag(o, "returnUndefined"))
    ensures Concluded(d, s, o, host).Accept? ==> Concluded(d, s, o, host).value == s.val
  {
  }

  /** The array driver with no `preTransform` is the loop over the input's elements. */
  lemma ArrayOutcomeIsScan(definition: DefinitionFn, items: seq<Value>, o: Options, wrongEmpty: bool, host: Env)
    requires !Stops(o, wrongEmpty) && !Truthy(Opt(o, "preTransform"))
    ensures CollectionOutcome(ArrayShape, definition, Arr(items), o, wrongEmpty, host)
         == Concluded(Arr(items), ScanArray(definition, items, 0, None, o, host), o, host)
  {
  }

  /**
   * Without transformations, an array is accepted exactly when every element
   * is valid and either the last element's canonical data is defined or
   * `returnUndefined` is on; what is stored is the array of canonical forms,
   * which is the input itself when `canonize` is off.
   */
  lemma ArrayAcceptsIff(definition: DefinitionFn, items: seq<Value>, o: Options, wrongEmpty: bool, host: Env)
    requires !Stops(o, wrongEmpty) && NoPreTransforms(o) && NoPostTransforms(o)
    ensures CollectionOutcome(ArrayShape, definition, Arr(items), o, wrongEmpty, host).Accept? <==>
      AllValid(definition, items, o) &&
      ((|items| > 0 && definition(items[|items| - 1], o).value.data != Undefined) || Flag(o, "returnUndefined"))
    ensures CollectionOutcome(ArrayShape, definition, Arr(items), o, wrongEmpty, host).Accept? ==>
      CollectionOutcome(ArrayShape, definition, Arr(items), o, wrongEmpty, host).value == Arr(Canonized(definition, items, o))
    ensures CollectionOutcome(ArrayShape, definition, Arr(items), o, wrongEmpty, host).Accept? && !Flag(o, "canonize") ==>
      CollectionOutcome(ArrayShape, definition, Arr(items), o, wrongEmpty, host).value == Arr(items)
  {
    var s := ScanArray(definition, items, 0, None, o, host);
    ArrayOutcomeIsScan(definition, items, o, wrongEmpty, host);
    ConcludedPlain(Arr(items), s, o, host);
    assert items[0..] == items;
    ScanArrayOkIff(definition, items, 0, None, o, host);
    if AllValid(definition, items, o) {
      ScanArrayResult(definition, items, 0, None, o, host);
      assert items[..0] + Canonized(definition, items, o) == Canonized(definition, items, o);
    }
    if !Flag(o, "canonize") {
      CanonizedWithoutCanonize(definition, items, o);
    }
  }

  /** What `defined` says of each element: valid exactly when it is not undefined, with the element as its data. */
  lemma DefinedItems(items: seq<Value>, o: Options, host: Env)
    ensures AllValid(DefinitionOf(0, host), items, o) <==> forall j :: 0 <= j < |items| ==> items[j] != Undefined
    ensures Canonized(DefinitionOf(0, host), items, o) == items
    ensures |items| > 0 ==> DefinitionOf(0, host)(items[|items| - 1], o) == Normal(DefResult(items[|items| - 1], items[|items| - 1] != Undefined))
  {
  }

  /** `definedArray` accepts an array exactly when no element is undefined (an empty one only if `returnUndefined`). */
  lemma DefinedArrayAcceptsIff(items: seq<Value>, o: Options, wrongEmpty: bool, host: Env)
    requires !Stops(o, wrongEmpty) && NoPreTransforms(o) && NoPostTransforms(o)
    ensures CollectionOutcome(ArrayShape, DefinitionOf(0, host), Arr(items), o, wrongEmpty, host).Accept? <==>
      (forall j :: 0 <= j < |items| ==> items[j] != Undefined) && (|items| > 0 || Flag(o, "returnUndefined"))
    ensures CollectionOutcome(ArrayShape, DefinitionOf(0, host), Arr(items), o, wrongEmpty, host).Accept? ==>
      CollectionOutcome(ArrayShape, DefinitionOf(0, host), Arr(items), o, wrongEmpty, host).value == Arr(items)
  {
    ArrayAcceptsIff(DefinitionOf(0, host), items, o, wrongEmpty, host);
    DefinedItems(items, o, host);
  }

  lemma {:induction false} ScanArrayReachesFailure(definition: DefinitionFn, val: seq<Value>, i: nat, last: Option<DefResult>, o: Options, host: Env, k: nat)
    requires i <= k < |val| && !Truthy(Opt(o, "preTransformItem"))
    requires forall j :: i <= j < k ==> definition(val[j], o).Normal?
    requires definition(val[k], o).Normal? && !definition(val[k], o).value.valid
    ensures var s := ScanArray(definition, val, i, last, o, host);
      s.ItemThrew? || (s.Finished? && !s.ok && s.last.Some? && !s.last.value.valid)
    decreases k - i
  {
    match ItemStep(definition, val[i], o, host, Arr(val))
    case Stop(s) =>
    case Next(v, r) =>
      assert i < k;
      ScanArrayReachesFailure(definition, val[i := v], i + 1, Some(r), o, host, k);
  }

  /**
   * The short circuit: once an element fails, the elements after it are
   * never validated, so whatever they are (even ones whose definition would
   * throw) the whole input is rejected as it was given.
   */
  lemma ArrayShortCircuit(definition: DefinitionFn, pre: seq<Value>, bad: Value, rest: seq<Value>, o: Options, wrongEmpty: bool, host: Env)
    requires !Stops(o, wrongEmpty) && NoPreTransforms(o)
    requires forall j :: 0 <= j < |pre| ==> definition(pre[j], o).Normal?
    requires definition(bad, o).Normal? && !definition(bad, o).value.valid
    ensures CollectionOutcome(ArrayShape, definition, Arr(pre + [bad] + rest), o, wrongEmpty, host) == Reject(Arr(pre + [bad] + rest))
  {
    var items := pre + [bad] + rest;
    assert items[|pre|] == bad;
    assert forall j :: 0 <= j < |pre| ==> items[j] == pre[j];
    ScanArrayReachesFailure(definition, items, 0, None, o, host, |pre|);
  }

  // ---------------------------------------------------------------------------
  // Objects
  // ---------------------------------------------------------------------------

  predicate Distinct(keys: seq<string>) {
    forall a, b :: 0 <= a < b < |keys| ==> keys[a] != keys[b]
  }

  /** A valid value moves the object loop on by one, its canonical form written back. */
  lemma ScanObjectStep(definition: DefinitionFn, keys: seq<string>, val: Record, i: nat, last: Option<DefResult>, o: Options, host: Env)
    requires i < |keys| && NoItemTransforms(o) && ItemValid(definition, Get(val, keys[i]), o)
    ensures ScanObject(definition, keys, val, i, last, o, host)
         == ScanObject(definition, keys, Set(val, keys[i], CanonOf(definition, Get(val, keys[i]), o)), i + 1,
                       Some(definition(Get(val, keys[i]), o).value), o, host)
  {
    ItemStepValid(definition, Get(val, keys[i]), o, host, Obj(val));
  }

  /** Writing the value under `keys[i]` leaves the values under the later keys alone. */
  lemma SetKeepsLater(keys: seq<string>, val: Record, i: nat, v: Value)
    requires i < |keys| && Distinct(keys)
    ensures forall j :: i + 1 <= j < |keys| ==> Get(Set(val, keys[i], v), keys[j]) == Get(val, keys[j])
  {
    forall j | i + 1 <= j < |keys|
      ensures Get(Set(val, keys[i], v), keys[j]) == Get(val, keys[j])
    {
      assert keys[j] != keys[i];
    }
  }

  /** The keys from `i` on are `keys[i]`, which does not come again, then the keys after it. */
  lemma KeysFrom(keys: seq<string>, i: nat)
    requires i < |keys| && Distinct(keys)
    ensures keys[i] !in keys[i + 1..]
    ensures forall k :: k in keys[i..] <==> k == keys[i] || k in keys[i + 1..]
  {
    assert keys[i..] == [keys[i]] + keys[i + 1..];
    var rest := keys[i + 1..];
    forall j | 0 <= j < |rest|
      ensures rest[j] != keys[i]
    {
      assert rest[j] == keys[i + 1 + j];
    }
  }

  /** Without item transformations, the loop over `keys[i..]` completes with every value passing exactly when each is valid. */
  lemma {:induction false} ScanObjectOkIff(definition: DefinitionFn, keys: seq<string>, val: Record, i: nat, last: Option<DefResult>, o: Options, host: Env)
    requires i <= |keys| && Distinct(keys) && NoItemTransforms(o)
    ensures var s := ScanObject(definition, keys, val, i, last, o, host);
      (s.Finished? && s.ok) <==> forall j :: i <= j < |keys| ==> ItemValid(definition, Get(val, keys[j]), o)
    decreases |keys| - i
  {
    if i < |keys| {
      var x := Get(val, keys[i]);
      if ItemValid(definition, x, o) {
        var v := CanonOf(definition, x, o);
        ScanObjectStep(definition, keys, val, i, last, o, host);
        SetKeepsLater(keys, val, i, v);
        ScanObjectOkIff(definition, keys, Set(val, keys[i], v), i + 1, Some(definition(x, o).value), o, host);
      } else {
        ItemStepInvalid(definition, x, o, host, Obj(val));
      }
    }
  }

  /**
   * When every value under `keys[i..]` is valid, the loop completes and the
   * copy maps those keys to their canonized values and keeps every other
   * property.
   */
  lemma {:induction false} ScanObjectResult(definition: DefinitionFn, keys: seq<string>, val: Record, i: nat, last: Option<DefResult>, o: Options, host: Env)
    requires i <= |keys| && Distinct(keys) && NoItemTransforms(o)
    requires forall j :: i <= j < |keys| ==> ItemValid(definition, Get(val, keys[j]), o)
    ensures var s := ScanObject(definition, keys, val, i, last, o, host);
      s.Finished? && s.ok && s.val.Obj? && forall k ::
        Get(s.val.fields, k) == if k in keys[i..] then CanonOf(definition, Get(val, k), o) else Get(val, k)
    decreases |keys| - i
  {
    if i < |keys| {
      var x := Get(val, keys[i]);
      var v := CanonOf(definition, x, o);
      var val' := Set(val, keys[i], v);
      ScanObjectStep(definition, keys, val, i, last, o, host);
      SetKeepsLater(keys, val, i, v);
      ScanObjectResult(definition, keys, val', i + 1, Some(definition(x, o).value), o, host);
      KeysFrom(keys, i);
    }
  }

  /**
   * An accepted object (no transformations, and, as in JavaScript, no
   * repeated property names) had every value valid, as copied by the deep
   * `extend`; what is stored holds, for every property of the input, the
   * canonical form of that copy (the copy itself when `canonize` is off).
   */
  lemma ObjectAcceptance(definition: DefinitionFn, fields: Record, o: Options, wrongEmpty: bool, host: Env)
    requires UniqueKeys(fields) && NoPreTransforms(o) && NoPostTransforms(o)
    requires CollectionOutcome(ObjectShape, definition, Obj(fields), o, wrongEmpty, host).Accept?
    ensures forall j :: 0 <= j < |fields| ==> ItemValid(definition, DeepCopy(fields[j].1), o)
    ensures var v := CollectionOutcome(ObjectShape, definition, Obj(fields), o, wrongEmpty, host).value;
      v.Obj? && forall k :: k in Keys(fields) ==> Get(v.fields, k) == CanonOf(definition, DeepCopy(Get(fields, k)), o)
    ensures var v := CollectionOutcome(ObjectShape, definition, Obj(fields), o, wrongEmpty, host).value;
      !Flag(o, "canonize") ==> forall k :: Get(v.fields, k) == DeepCopy(Get(fields, k))
  {
    var keys := Keys(fields);
    var copy := DeepCopy(Obj(fields)).fields;
    var s := ScanObject(definition, keys, copy, 0, None, o, host);
    ObjectOutcomeIsScan(definition, fields, o, wrongEmpty, host);
    ConcludedPlain(Obj(fields), s, o, host);
    assert Distinct(keys);
    ScanObjectOkIff(definition, keys, copy, 0, None, o, host);
    ScanObjectResult(definition, keys, copy, 0, None, o, host);
    assert keys[0..] == keys;
    forall k ensures Get(copy, k) == DeepCopy(Get(fields, k)) {
      GetCopyFields(fields, 0, k);
      assert fields[0..] == fields;
    }
    forall j | 0 <= j < |fields| ensures Get(fields, keys[j]) == fields[j].1 {
      FirstOccurrence(fields, j);
    }
  }

  /** Reading the deep copy under the input's `j`-th name gives the deep copy of its `j`-th value. */
  lemma CopyReads(fields: Record)
    requires UniqueKeys(fields)
    ensures forall j :: 0 <= j < |fields| ==> Get(DeepCopy(Obj(fields)).fields, Keys(fields)[j]) == DeepCopy(fields[j].1)
  {
    forall j | 0 <= j < |fields| ensures Get(DeepCopy(Obj(fields)).fields, Keys(fields)[j]) == DeepCopy(fields[j].1) {
      GetCopyFields(fields, 0, fields[j].0);
      assert fields[0..] == fields;
      FirstOccurrence(fields, j);
    }
  }

  /** When every value under `keys[i..]` is valid, `res` ends as the result for the last key. */
  lemma {:induction false} ScanObjectLast(definition: DefinitionFn, keys: seq<string>, val: Record, i: nat, last: Option<DefResult>, o: Options, host: Env)
    requires i <= |keys| && Distinct(keys) && NoItemTransforms(o)
    requires forall j :: i <= j < |keys| ==> ItemValid(definition, Get(val, keys[j]), o)
    ensures var s := ScanObject(definition, keys, val, i, last, o, host);
      s.Finished? && if i < |keys| then ItemValid(definition, Get(val, keys[|keys| - 1]), o)
        && s.last == Some(definition(Get(val, keys[|keys| - 1]), o).value) else s.last == last
    decreases |keys| - i
  {
    if i < |keys| {
      var x := Get(val, keys[i]);
      var v := CanonOf(definition, x, o);
      ScanObjectStep(definition, keys, val, i, last, o, host);
      SetKeepsLater(keys, val, i, v);
      ScanObjectLast(definition, keys, Set(val, keys[i], v), i + 1, Some(definition(x, o).value), o, host);
    }
  }

  /**
   * Without transformations, an object (with no repeated property names, as
   * in JavaScript) is accepted exactly when the deep copy of every value is
   * valid and either the last value's canonical data is defined or
   * `returnUndefined` is on.
   */
  lemma ObjectAcceptsIff(definition: DefinitionFn, fields: Record, o: Options, wrongEmpty: bool, host: Env)
    requires UniqueKeys(fields) && !Stops(o, wrongEmpty) && NoPreTransforms(o) && NoPostTransforms(o)
    ensures CollectionOutcome(ObjectShape, definition, Obj(fields), o, wrongEmpty, host).Accept? <==>
      (forall j :: 0 <= j < |fields| ==> ItemValid(definition, DeepCopy(fields[j].1), o)) &&
      ((|fields| > 0 && definition(DeepCopy(fields[|fields| - 1].1), o).value.data != Undefined) || Flag(o, "returnUndefined"))
  {
    var keys := Keys(fields);
    var copy := DeepCopy(Obj(fields)).fields;
    var s := ScanObject(definition, keys, copy, 0, None, o, host);
    ObjectOutcomeIsScan(definition, fields, o, wrongEmpty, host);
    ConcludedPlain(Obj(fields), s, o, host);
    assert Distinct(keys);
    CopyReads(fields);
    ScanObjectOkIff(definition, keys, copy, 0, None, o, host);
    if forall j :: 0 <= j < |fields| ==> ItemValid(definition, DeepCopy(fields[j].1), o) {
      ScanObjectLast(definition, keys, copy, 0, None, o, host);
    }
  }

  /** The object loop stops at the first value whose definition rejects it. */
  lemma {:induction false} ScanObjectReachesFailure(definition: DefinitionFn, keys: seq<string>, val: Record, i: nat, last: Option<DefResult>, o: Options, host: Env, k: nat)
    requires i <= k < |keys| && Distinct(keys) && !Truthy(Opt(o, "preTransformItem"))
    requires forall j :: i <= j < k ==> definition(Get(val, keys[j]), o).Normal?
    requires definition(Get(val, keys[k]), o).Normal? && !definition(Get(val, keys[k]), o).value.valid
    ensures var s := ScanObject(definition, keys, val, i, last, o, host);
      s.ItemThrew? || (s.Finished? && !s.ok && s.last.Some? && !s.last.value.valid)
    decreases k - i
  {
    match ItemStep(definition, Get(val, keys[i]), o, host, Obj(val))
    case Stop(s) =>
    case Next(v, r) =>
      assert i < k;
      SetKeepsLater(keys, val, i, v);
      ScanObjectReachesFailure(definition, keys, Set(val, keys[i], v), i + 1, Some(r), o, host, k);
  }

  /**
   * The short circuit for objects: once a value fails, the properties after
   * it are never validated, so whatever they hold (even values whose
   * definition would throw) the whole input is rejected as it was given.
   */
  lemma ObjectShortCircuit(definition: DefinitionFn, pre: Record, k: string, bad: Value, rest: Record, o: Options, wrongEmpty: bool, host: Env)
    requires !Stops(o, wrongEmpty) && NoPreTransforms(o)
    requires UniqueKeys(pre + [(k, bad)] + rest)
    requires forall j :: 0 <= j < |pre| ==> definition(DeepCopy(pre[j].1), o).Normal?
    requires definition(DeepCopy(bad), o).Normal? && !definition(DeepCopy(bad), o).value.valid
    ensures CollectionOutcome(ObjectShape, definition, Obj(pre + [(k, bad)] + rest), o, wrongEmpty, host)
         == Reject(Obj(pre + [(k, bad)] + rest))
  {
    var fields := pre + [(k, bad)] + rest;
    var keys := Keys(fields);
    var copy := DeepCopy(Obj(fields)).fields;
    assert fields[|pre|] == (k, bad);
    assert forall j :: 0 <= j < |pre| ==> fields[j] == pre[j];
    CopyReads(fields);
    assert Distinct(keys);
    ObjectOutcomeIsScan(definition, fields, o, wrongEmpty, host);
    ScanObjectReachesFailure(definition, keys, copy, 0, None, o, host, |pre|);
  }

  /** The object driver with no `preTransform` is the loop over the deep copy's keys. */
  lemma ObjectOutcomeIsScan(definition: DefinitionFn, fields: Record, o: Options, wrongEmpty: bool, host: Env)
    requires !Truthy(Opt(o, "preTransform"))
    ensures !Stops(o, wrongEmpty) ==>
      CollectionOutcome(ObjectShape, definition, Obj(fields), o, wrongEmpty, host)
      == Concluded(Obj(fields), ScanObject(definition, Keys(fields), DeepCopy(Obj(fields)).fields, 0, None, o, host), o, host)
    ensures Stops(o, wrongEmpty) ==> CollectionOutcome(ObjectShape, definition, Obj(fields), o, wrongEmpty, host) == Skip
  {
  }

  /** Reading the deep copy is deep-copying what is read, for an object without repeated names. */
  lemma {:induction false} GetCopyFields(fields: Record, i: nat, k: string)
    requires i <= |fields| && UniqueKeys(fields)
    ensures Get(CopyFields(fields, i), k) == DeepCopy(Get(fields[i..], k))
    decreases |fields| - i
  {
    if i < |fields| {
      GetCopyFields(fields, i + 1, k);
      assert fields[i..][1..] == fields[i + 1..];
      if fields[i].0 == k {
        FindIn(fields[i + 1..], k);
        var tail := fields[i + 1..];
        var ks := Keys(tail);
        forall j | 0 <= j < |ks| ensures ks[j] != k {
          assert tail[j] == fields[i + 1 + j];
        }
        assert k !in ks;
      }
    }
  }
}
