/**
 * The three drivers that run a validator definition over a field:
 * `validateData` for a single value, `validateArray` for the elements of
 * an array and `validateObject` for the values of a plain object. Each
 * decides one outcome for the field, which `store` then records.
 *
 * Here they are functions of the definition (a function value, as the
 * drivers receive it), of the resolved options, of whether the error store
 * is empty (for `stopAfterFirstError`) and of the host; the instance
 * methods in the Facade module run them step by step.
 */
module Drivers {
  import opened Wrappers
  import opened JsValues
  import opened Host
  import opened Definitions
  import opened Transform

  /** What a validation call does to the result store. */
  datatype Outcome =
    | Skip                      // stores nothing
    | Accept(value: Value)      // ok[key] := value
    | Reject(value: Value)      // wrong[key] := value
    | Raise(exception: Exception) // the definition threw; the call throws

  /** The three entry points every validator name gets: `name`, `nameArray`, `nameObject`. */
  datatype Shape = Scalar | ArrayShape | ObjectShape

  /** `store(validator, key, original, canonized, valid)` applied to `(ok, wrong)`. */
  function Stored(ok: Record, wrong: Record, key: string, out: Outcome): (r: (Record, Record))
    ensures out.Accept? ==> r == (Set(ok, key, out.value), wrong)
    ensures out.Reject? ==> r == (ok, Set(wrong, key, out.value))
    ensures !out.Accept? && !out.Reject? ==> r == (ok, wrong)
  {
    match out
    case Accept(v) => (Set(ok, key, v), wrong)
    case Reject(v) => (ok, Set(wrong, key, v))
    case _ => (ok, wrong)
  }

  predicate Stops(o: Options, wrongEmpty: bool) {
    Flag(o, "stopAfterFirstError") && !wrongEmpty
  }

  // ---------------------------------------------------------------------------
  // validateData
  // ---------------------------------------------------------------------------

  /** The definition's result, or `{ defaultValue, true }` for an optional undefined input. */
  function Verdict(definition: DefinitionFn, d: Value, o: Options, host: Env): Completion<DefResult> {
    if d == Undefined && Flag(o, "optional") then Normal(DefResult(Opt(o, "defaultValue"), true))
    else definition(d, o)
  }

  /** Whether the driver stores anything: not when a valid result is undefined and `returnUndefined` is off. */
  predicate Keeps(r: DefResult, o: Options) {
    !r.valid || r.data != Undefined || Flag(o, "returnUndefined")
  }

  /** The post-transformations of a scalar result; a throw rejects the pre-transformed input `d`. */
  function Finalized(r: DefResult, d: Value, o: Options, host: Env): Outcome {
    var td := if Flag(o, "canonize") then r.data else d;
    match Transformed(td, Opt(o, "postTransformItem"), host)
    case Abrupt(_) => Reject(d)
    case Normal(t1) =>
      match Transformed(t1, Opt(o, "postTransform"), host)
      case Abrupt(_) => Reject(d)
      case Normal(t2) => if r.valid then Accept(t2) else Reject(d)
  }

  function DataAfterPre(definition: DefinitionFn, d: Value, o: Options, host: Env): Outcome {
    match Verdict(definition, d, o, host)
    case Abrupt(e) => Raise(e)
    case Normal(r) => if Keeps(r, o) then Finalized(r, d, o, host) else Skip
  }

  /** `validateData` */
  function DataOutcome(definition: DefinitionFn, data: Value, o: Options, wrongEmpty: bool, host: Env): Outcome {
    if Stops(o, wrongEmpty) then Skip
    else match Transformed(data, Opt(o, "preTransform"), host)
      case Abrupt(_) => Reject(data)
      case Normal(d1) =>
        match Transformed(d1, Opt(o, "preTransformItem"), host)
        case Abrupt(_) => Reject(d1)
        case Normal(d2) => DataAfterPre(definition, d2, o, host)
  }

  // ---------------------------------------------------------------------------
  // validateArray, validateObject
  // ---------------------------------------------------------------------------

  /**
   * Where the element loop ends: with the copy, whether every element
   * passed and the last definition result (`res`); or with an exception in
   * an item transformation (caught) or in the definition (not caught).
   */
  datatype Scan =
    | Finished(val: Value, ok: bool, last: Option<DefResult>)
    | ItemThrew
    | DefinitionThrew(e: Exception)

  /** One element: the value to write back, or how the loop ends here. */
  datatype Step = Next(v: Value, r: DefResult) | Stop(s: Scan)

  /** Validating one element `x`: pre-transform, define, canonize, post-transform. */
  function ItemStep(definition: DefinitionFn, x: Value, o: Options, host: Env, val: Value): Step {
    match Transformed(x, Opt(o, "preTransformItem"), host)
    case Abrupt(_) => Stop(ItemThrew)
    case Normal(item) =>
      match definition(item, o)
      case Abrupt(e) => Stop(DefinitionThrew(e))
      case Normal(r) =>
        if !r.valid then Stop(Finished(val, false, Some(r)))
        else
          var v1 := if Flag(o, "canonize") then r.data else x;
          match Transformed(v1, Opt(o, "postTransformItem"), host)
          case Abrupt(_) => Stop(ItemThrew)
          case Normal(v2) => Next(v2, r)
  }

  /** The loop of `validateArray` from index `i`, over the copy `val`. */
  function ScanArray(definition: DefinitionFn, val: seq<Value>, i: nat, last: Option<DefResult>, o: Options, host: Env): Scan
    requires i <= |val|
    decreases |val| - i
  {
    if i == |val| then Finished(Arr(val), true, last)
    else match ItemStep(definition, val[i], o, host, Arr(val))
      case Stop(s) => s
      case Next(v, r) => ScanArray(definition, val[i := v], i + 1, Some(r), o, host)
  }

  /** The loop of `validateObject` over the input's keys from index `i`, over the copy `val`. */
  function ScanObject(definition: DefinitionFn, keys: seq<string>, val: Record, i: nat, last: Option<DefResult>, o: Options, host: Env): Scan
    requires i <= |keys|
    decreases |keys| - i
  {
    if i == |keys| then Finished(Obj(val), true, last)
    else match ItemStep(definition, Get(val, keys[i]), o, host, Obj(val))
      case Stop(s) => s
      case Next(v, r) => ScanObject(definition, keys, Set(val, keys[i], v), i + 1, Some(r), o, host)
  }

  /** The loop for an input of the right kind, the optional default, or a plain failure. */
  function CollectionScan(shape: Shape, definition: DefinitionFn, d: Value, o: Options, host: Env): Scan {
    if shape == ArrayShape && d.Arr? then ScanArray(definition, d.items, 0, None, o, host)
    else if shape == ObjectShape && d.Obj? then
      ScanObject(definition, Keys(d.fields), DeepCopy(d).fields, 0, None, o, host)
    else if d == Undefined && Flag(o, "optional") then Finished(Opt(o, "defaultValue"), true, None)
    else Finished(Undefined, false, None)
  }

  /**
   * After the loop. The store condition reads `res`, the last definition
   * result, which is unset when no element was validated: then only
   * `returnUndefined` decides.
   */
  function Concluded(d: Value, s: Scan, o: Options, host: Env): Outcome {
    match s
    case ItemThrew => Reject(d)
    case DefinitionThrew(e) => Raise(e)
    case Finished(val, ok, last) =>
      if (last.Some? && (!last.value.valid || last.value.data != Undefined)) || Flag(o, "returnUndefined") then
        Published(d, val, ok, o, host)
      else Skip
  }

  /** The store at the end of `validateArray`/`validateObject`: the post-transformed copy, or the input `d`. */
  function Published(d: Value, val: Value, ok: bool, o: Options, host: Env): Outcome {
    match Transformed(val, Opt(o, "postTransform"), host)
    case Abrupt(_) => Reject(d)
    case Normal(v) => if ok then Accept(v) else Reject(d)
  }

  /** `validateArray` (shape ArrayShape) and `validateObject` (shape ObjectShape). */
  function CollectionOutcome(shape: Shape, definition: DefinitionFn, data: Value, o: Options, wrongEmpty: bool, host: Env): Outcome
    requires shape != Scalar
  {
    if Stops(o, wrongEmpty) then Skip
    else match Transformed(data, Opt(o, "preTransform"), host)
      case Abrupt(_) => Reject(data)
      case Normal(d) => Concluded(d, CollectionScan(shape, definition, d, o, host), o, host)
  }

  /** The outcome of the entry point of the given shape. */
  function ShapeOutcome(shape: Shape, definition: DefinitionFn, data: Value, o: Options, wrongEmpty: bool, host: Env): Outcome {
    if shape == Scalar then DataOutcome(definition, data, o, wrongEmpty, host)
    else CollectionOutcome(shape, definition, data, o, wrongEmpty, host)
  }
}
