/**
 * The built-in validator definitions. Each is a function
 * `(data, options) -> { data, valid }`: `valid` says whether the input is
 * accepted and `data` is its canonical form.
 *
 * The function values `Fn(0)` .. `Fn(8)` are these definitions, in the order
 * the library registers them: defined, bool, num, str, fn, enumerated,
 * enumeratedKey, enumeratedKeyValue, json.
 */
module Definitions {
  import opened Wrappers
  import opened JsValues
  import opened Host

  const BuiltinCount: nat := 9

  /** The registration names of the built-in definitions, by id. */
  const BuiltinNames: seq<string> :=
    ["defined", "bool", "num", "str", "fn", "enumerated", "enumeratedKey", "enumeratedKeyValue", "json"]

  /** `{ data, valid }` as the JavaScript object a caller would see. */
  function ResultObject(r: DefResult): Value {
    Obj([("data", r.data), ("valid", Bool(r.valid))])
  }

  // ---------------------------------------------------------------------------
  // defined, fn
  // ---------------------------------------------------------------------------

  /** Accepts anything but `undefined`, unchanged. */
  function ValidatorDefined(data: Value): (r: DefResult)
    ensures r.data == data
    ensures r.valid <==> !data.Undefined?
  {
    DefResult(data, data != Undefined)
  }

  /** Accepts functions only, unchanged. */
  function ValidatorFn(data: Value): (r: DefResult)
    ensures r.data == data
    ensures r.valid <==> data.Fn?
  {
    DefResult(data, data.Fn?)
  }

  // ---------------------------------------------------------------------------
  // bool
  // ---------------------------------------------------------------------------

  /**
   * Strict: only booleans are valid and are returned unchanged. Otherwise
   * everything is valid: the strings 'false' and '0' become false and any
   * other value becomes its truthiness.
   */
  function ValidatorBool(data: Value, o: Options): (r: DefResult)
    ensures Flag(o, "strict") ==> r.data == data && (r.valid <==> data.Bool?)
    ensures !Flag(o, "strict") ==> r.valid && r.data.Bool?
    ensures !Flag(o, "strict") ==>
      (r.data == Bool(true) <==> Truthy(data) && data != Str("false") && data != Str("0"))
  {
    if Flag(o, "strict") then DefResult(data, data.Bool?)
    else if data.Str? then
      if data.s == "false" || data.s == "0" then DefResult(Bool(false), true)
      else DefResult(Bool(Truthy(data)), true)
    else DefResult(Bool(Truthy(data)), true)
  }

  /** A canonical boolean validates to itself. */
  lemma BoolIdempotent(data: Value, o: Options)
    requires ValidatorBool(data, o).valid
    ensures ValidatorBool(ValidatorBool(data, o).data, o) == ValidatorBool(data, o)
  {
  }

  // ---------------------------------------------------------------------------
  // num
  // ---------------------------------------------------------------------------

  /** `isNumeric`: a number, or a string holding a decimal integer numeral. */
  predicate IsNumeric(v: Value) {
    v.Num? || (v.Str? && DecimalInteger(v.s).Some?)
  }

  /** `Math.max(a, b)`, where None is NaN. */
  function MaxNum(a: Option<int>, b: Option<int>): (r: Option<int>)
    ensures r.Some? <==> a.Some? && b.Some?
    ensures r.Some? ==> r.value >= a.value && r.value >= b.value && (r.value == a.value || r.value == b.value)
  {
    if a.Some? && b.Some? then Some(if a.value >= b.value then a.value else b.value) else None
  }

  /** `Math.min(a, b)`, where None is NaN. */
  function MinNum(a: Option<int>, b: Option<int>): (r: Option<int>)
    ensures r.Some? <==> a.Some? && b.Some?
    ensures r.Some? ==> r.value <= a.value && r.value <= b.value && (r.value == a.value || r.value == b.value)
  {
    if a.Some? && b.Some? then Some(if a.value <= b.value then a.value else b.value) else None
  }

  /** A numeric comparison whose operands may be NaN: NaN compares false. */
  predicate Less(a: Option<int>, b: Option<int>, orEqual: bool) {
    a.Some? && b.Some? && (a.value < b.value || (orEqual && a.value == b.value))
  }

  /** `x | 0`, where NaN truncates to 0. */
  function Int32Of(x: Option<int>): Option<int> {
    match x
    case Some(n) => Some(ToInt32(n))
    case None => Some(0)
  }

  /** The value after `integer`, `min` and `max` are applied. */
  function Clamped(x: Option<int>, o: Options, fnText: nat -> string): Option<int> {
    var v := if Flag(o, "integer") then Int32Of(x) else x;
    var v := if Opt(o, "min") != Undefined then MaxNum(ToNumber(Opt(o, "min"), fnText), v) else v;
    if Opt(o, "max") != Undefined then MinNum(v, ToNumber(Opt(o, "max"), fnText)) else v
  }

  /** The `rangeMin` / `rangeMax` checks on the clamped value. */
  predicate InRange(v: Option<int>, o: Options, fnText: nat -> string) {
    var lowOk := Opt(o, "rangeMin") == Undefined || Less(ToNumber(Opt(o, "rangeMin"), fnText), v, Flag(o, "minEq"));
    lowOk && (Opt(o, "rangeMax") == Undefined || Less(v, ToNumber(Opt(o, "rangeMax"), fnText), Flag(o, "maxEq")))
  }

  /** The type test of `num`: strict accepts numbers only, otherwise numeric strings too. */
  predicate NumTypeOk(data: Value, o: Options) {
    if Flag(o, "strict") then data.Num? else IsNumeric(data)
  }

  /**
   * `options.regExp.exec(data) !== null`, a string pattern being compiled
   * first. A pattern that is neither a string nor an object has no `exec`,
   * so calling it throws a TypeError; for the others the host decides.
   */
  function NumPattern(p: Value, data: Value, host: Env): Completion<bool> {
    if p.Str? || p.Obj? then host.regExpMatches(p, data) else Abrupt(TypeError)
  }

  /**
   * A failing type test gives `{ undefined, false }`. Otherwise the value is
   * `Number(data)`, truncated to 32 bits under `integer` and clamped by `min`
   * and `max`; it is valid exactly when it passes `rangeMin` and `rangeMax`
   * (inclusive under `minEq` / `maxEq`) and then matches `regExp`, whose
   * evaluation is the only thing that can throw.
   */
  function ValidatorNum(data: Value, o: Options, host: Env): (r: Completion<DefResult>)
    ensures !NumTypeOk(data, o) ==> r == Normal(DefResult(Undefined, false))
    ensures NumTypeOk(data, o) && r.Normal? ==>
      (r.value.data.Num? || r.value.data.NaN?) &&
      ToNumber(r.value.data, host.fnText) == Clamped(ToNumber(data, host.fnText), o, host.fnText)
    ensures r.Normal? ==> (r.value.valid <==> (NumTypeOk(data, o)
      && (Opt(o, "rangeMin") == Undefined ||
          Less(ToNumber(Opt(o, "rangeMin"), host.fnText), ToNumber(r.value.data, host.fnText), Flag(o, "minEq")))
      && (Opt(o, "rangeMax") == Undefined ||
          Less(ToNumber(r.value.data, host.fnText), ToNumber(Opt(o, "rangeMax"), host.fnText), Flag(o, "maxEq")))
      && (!Flag(o, "regExp") || NumPattern(Opt(o, "regExp"), data, host) == Normal(true))))
    ensures r.Abrupt? <==> (NumTypeOk(data, o) && InRange(Clamped(ToNumber(data, host.fnText), o, host.fnText), o, host.fnText)
      && Flag(o, "regExp") && NumPattern(Opt(o, "regExp"), data, host).Abrupt?)
    ensures r.Abrupt? ==> r.exception == NumPattern(Opt(o, "regExp"), data, host).exception
    ensures r.Abrupt? && !Opt(o, "regExp").Str? && !Opt(o, "regExp").Obj? ==> r.exception == TypeError
  {
    if !NumTypeOk(data, o) then Normal(DefResult(Undefined, false))
    else
      var v := Clamped(ToNumber(data, host.fnText), o, host.fnText);
      if InRange(v, o, host.fnText) && Flag(o, "regExp") then
        match NumPattern(Opt(o, "regExp"), data, host)
        case Abrupt(e) => Abrupt(e)
        case Normal(m) => Normal(DefResult(NumberValue(v), m))
      else Normal(DefResult(NumberValue(v), InRange(v, o, host.fnText)))
  }

  /** With numeric `min` <= `max`, an accepted number lies between them. */
  lemma NumClamps(data: Value, o: Options, host: Env, lo: int, hi: int)
    requires ToNumber(Opt(o, "min"), host.fnText) == Some(lo) && Opt(o, "min") != Undefined
    requires ToNumber(Opt(o, "max"), host.fnText) == Some(hi) && Opt(o, "max") != Undefined
    requires lo <= hi
    requires NumTypeOk(data, o)
    ensures ValidatorNum(data, o, host).Normal? ==> ValidatorNum(data, o, host).value.data.Num?
    ensures ValidatorNum(data, o, host).Normal? ==> lo <= ValidatorNum(data, o, host).value.data.n <= hi
  {
  }

  /** With `integer` and no clamping, the result is a signed 32-bit integer. */
  lemma NumIntegerIs32Bit(data: Value, o: Options, host: Env)
    requires Flag(o, "integer") && Opt(o, "min") == Undefined && Opt(o, "max") == Undefined
    requires NumTypeOk(data, o)
    ensures ValidatorNum(data, o, host).Normal? ==> ValidatorNum(data, o, host).value.data.Num?
    ensures ValidatorNum(data, o, host).Normal? ==> -0x8000_0000 <= ValidatorNum(data, o, host).value.data.n < 0x8000_0000
  {
  }

  /** Clamping a clamped value changes nothing, even after a second 32-bit truncation. */
  lemma {:induction false} ClampedIdempotent(n: int, o: Options, fnText: nat -> string)
    requires Clamped(Some(n), o, fnText).Some?
    ensures Clamped(Clamped(Some(n), o, fnText), o, fnText) == Clamped(Some(n), o, fnText)
  {
    var v := Clamped(Some(n), o, fnText).value;
    if Flag(o, "integer") {
      if -0x8000_0000 <= v < 0x8000_0000 {
        ToInt32OfInt32(v);
      } else {
        // v lies outside 32 bits, so it is a bound that clamping reached; its
        // truncation is clamped back to the same bound
        assert -0x8000_0000 <= ToInt32(v) < 0x8000_0000;
      }
    }
  }

  /** An accepted number validates to itself again, when no regExp is given. */
  lemma NumIdempotent(data: Value, o: Options, host: Env)
    requires !Flag(o, "regExp")
    requires ValidatorNum(data, o, host).Normal? && ValidatorNum(data, o, host).value.valid
    requires ValidatorNum(data, o, host).value.data.Num?
    ensures ValidatorNum(ValidatorNum(data, o, host).value.data, o, host) == ValidatorNum(data, o, host)
  {
    var n := ToNumber(data, host.fnText).value;
    ClampedIdempotent(n, o, host.fnText);
  }

  // ---------------------------------------------------------------------------
  // str
  // ---------------------------------------------------------------------------

  predicate IsLower(s: string) {
    forall i :: 0 <= i < |s| ==> LowerChar(s[i]) == s[i]
  }

  predicate IsUpper(s: string) {
    forall i :: 0 <= i < |s| ==> UpperChar(s[i]) == s[i]
  }

  /** Shorter than a truthy `minLength`. */
  predicate TooShort(val: string, o: Options, fnText: nat -> string) {
    Flag(o, "minLength") && Less(Some(|val|), ToNumber(Opt(o, "minLength"), fnText), false)
  }

  /** Longer than a truthy `maxLength`. */
  predicate TooLong(val: string, o: Options, fnText: nat -> string) {
    Flag(o, "maxLength") && Less(ToNumber(Opt(o, "maxLength"), fnText), Some(|val|), false)
  }

  /** `options.append || ''`, the ellipsis `truncate` appends. */
  function Ellipsis(o: Options): Value {
    if Flag(o, "append") then Opt(o, "append") else Str("")
  }

  /** The string after the length rules, and whether it is still valid. */
  function StrLengthRules(val: string, typeOk: bool, o: Options, host: Env): (string, bool) {
    var ok := if TooShort(val, o, host.fnText) then false else typeOk;
    if ok && TooLong(val, o, host.fnText) then
      if Flag(o, "truncate") then (host.truncate(val, Opt(o, "maxLength"), Ellipsis(o)), true)
      else (val, false)
    else (val, ok)
  }

  /**
   * `val.search(options.regExp) !== -1`. A pattern that is not a string or
   * an object is converted with `String()` and compiled; the host decides
   * the rest.
   */
  function StrPattern(p: Value, text: string, host: Env): Completion<bool> {
    host.regExpMatches(if p.Str? || p.Obj? then p else Str(ToStr(p, host.fnText)), Str(text))
  }

  /** `lowerCase` wins over `upperCase`; without either the string is kept. */
  function CaseRule(s: string, o: Options): (r: string)
    ensures |r| == |s|
    ensures Flag(o, "lowerCase") ==> IsLower(r)
    ensures !Flag(o, "lowerCase") && Flag(o, "upperCase") ==> IsUpper(r)
    ensures !Flag(o, "lowerCase") && !Flag(o, "upperCase") ==> r == s
  {
    if Flag(o, "lowerCase") then ToLower(s) else if Flag(o, "upperCase") then ToUpper(s) else s
  }

  /**
   * The input is converted with `String()`. It passes the length rules when
   * it has the right type (strict mode accepts strings only), is not shorter
   * than `minLength`, and is not longer than `maxLength` unless `truncate`
   * is set, in which case the truncated text is kept. A string that passed is
   * then matched against `regExp`, whose evaluation is the only thing that
   * can throw; the case rule is applied last, to valid and invalid results
   * alike.
   */
  function ValidatorStr(data: Value, o: Options, host: Env): (r: Completion<DefResult>)
    ensures var val := ToStr(data, host.fnText);
      var lengthOk := (!Flag(o, "strict") || data.Str?) && !TooShort(val, o, host.fnText)
        && (!TooLong(val, o, host.fnText) || Flag(o, "truncate"));
      var text := if lengthOk && TooLong(val, o, host.fnText) then host.truncate(val, Opt(o, "maxLength"), Ellipsis(o)) else val;
      && (r.Normal? ==> r.value.data == Str(CaseRule(text, o)))
      && (r.Normal? ==> (r.value.valid <==>
            lengthOk && (!Flag(o, "regExp") || StrPattern(Opt(o, "regExp"), text, host) == Normal(true))))
      && (r.Abrupt? <==> lengthOk && Flag(o, "regExp") && StrPattern(Opt(o, "regExp"), text, host).Abrupt?)
      && (r.Abrupt? ==> r.exception == StrPattern(Opt(o, "regExp"), text, host).exception)
    ensures r.Normal? && !Flag(o, "truncate") ==> |r.value.data.s| == |ToStr(data, host.fnText)|
    ensures r.Normal? && Flag(o, "lowerCase") ==> IsLower(r.value.data.s)
    ensures r.Normal? && !Flag(o, "lowerCase") && Flag(o, "upperCase") ==> IsUpper(r.value.data.s)
  {
    var (val, ok) := StrLengthRules(ToStr(data, host.fnText), !Flag(o, "strict") || data.Str?, o, host);
    if ok && Flag(o, "regExp") then
      match StrPattern(Opt(o, "regExp"), val, host)
      case Abrupt(e) => Abrupt(e)
      case Normal(m) => Normal(DefResult(Str(CaseRule(val, o)), m))
    else Normal(DefResult(Str(CaseRule(val, o)), ok))
  }

  lemma CaseRuleIdempotent(s: string, o: Options)
    ensures CaseRule(CaseRule(s, o), o) == CaseRule(s, o)
  {
  }

  /** An accepted string validates to itself again, when neither truncate nor regExp is given. */
  lemma StrIdempotent(data: Value, o: Options, host: Env)
    requires !Flag(o, "truncate") && !Flag(o, "regExp")
    requires ValidatorStr(data, o, host).Normal? && ValidatorStr(data, o, host).value.valid
    ensures ValidatorStr(ValidatorStr(data, o, host).value.data, o, host) == ValidatorStr(data, o, host)
  {
    var s := ToStr(data, host.fnText);
    CaseRuleIdempotent(StrLengthRules(s, true, o, host).0, o);
  }

  // ---------------------------------------------------------------------------
  // enumerated, enumeratedKey, enumeratedKeyValue
  // ---------------------------------------------------------------------------

  /** The comparison the enumerated validators use. */
  predicate Matches(data: Value, candidate: Value, strict: bool, fnText: nat -> string) {
    if strict then StrictEq(data, candidate) else LooseEq(data, candidate, fnText)
  }

  /** The first candidate at or after `i` that matches `data`. */
  function FirstMatchFrom(data: Value, cands: seq<Value>, i: nat, strict: bool, fnText: nat -> string): (r: Option<nat>)
    requires i <= |cands|
    ensures r.Some? ==> i <= r.value < |cands| && Matches(data, cands[r.value], strict, fnText)
    ensures r.Some? ==> forall j :: i <= j < r.value ==> !Matches(data, cands[j], strict, fnText)
    ensures r.None? ==> forall j :: i <= j < |cands| ==> !Matches(data, cands[j], strict, fnText)
    decreases |cands| - i
  {
    if i == |cands| then None
    else if Matches(data, cands[i], strict, fnText) then Some(i)
    else FirstMatchFrom(data, cands, i + 1, strict, fnText)
  }

  function FirstMatch(data: Value, cands: seq<Value>, strict: bool, fnText: nat -> string): Option<nat> {
    FirstMatchFrom(data, cands, 0, strict, fnText)
  }

  /** The `for…in` search with its early `break`, proved to find the first match. */
  method FindFirstMatch(data: Value, cands: seq<Value>, strict: bool, fnText: nat -> string)
    returns (r: Option<nat>)
    ensures r == FirstMatch(data, cands, strict, fnText)
  {
    r := None;
    var i := 0;
    while i < |cands|
      invariant 0 <= i <= |cands| && r == None
      invariant FirstMatchFrom(data, cands, 0, strict, fnText) == FirstMatchFrom(data, cands, i, strict, fnText)
    {
      if Matches(data, cands[i], strict, fnText) {
        r := Some(i);
        break;
      }
      i := i + 1;
    }
  }

  function Values(r: Record): (vs: seq<Value>)
    ensures |vs| == |r| && forall i :: 0 <= i < |r| ==> vs[i] == r[i].1
  {
    seq(|r|, i requires 0 <= i < |r| => r[i].1)
  }

  /** The property names as the string values `for…in` yields. */
  function KeyValues(r: Record): (vs: seq<Value>)
    ensures |vs| == |r| && forall i :: 0 <= i < |r| ==> vs[i] == Str(r[i].0)
  {
    seq(|r|, i requires 0 <= i < |r| => Str(r[i].0))
  }

  /** Which part of the table an enumerated validator matches and returns. */
  datatype EnumMode = ByValue | KeyForKey | ValueForKey

  /**
   * `options.enumerated` must be a plain object, or the definition throws.
   * The input is compared with the table's values (`ByValue`) or keys; the
   * first match gives the matched value, the matched key, or the matched
   * key's value; no match gives `{ null, false }`.
   */
  function ValidatorEnumerated(mode: EnumMode, data: Value, o: Options, fnText: nat -> string): (r: Completion<DefResult>)
    ensures r.Abrupt? <==> !Opt(o, "enumerated").Obj?
    ensures r.Abrupt? ==> r.exception == EnumeratedNotObject
  {
    var table := Opt(o, "enumerated");
    if !table.Obj? then Abrupt(EnumeratedNotObject)
    else
      var cands := if mode == ByValue then Values(table.fields) else KeyValues(table.fields);
      match FirstMatch(data, cands, Flag(o, "strict"), fnText)
      case None => Normal(DefResult(Null, false))
      case Some(i) =>
        Normal(DefResult(if mode == KeyForKey then Str(table.fields[i].0) else table.fields[i].1, true))
  }

  /** What entry `i` of the table offers to the comparison: its value, or its key. */
  function Candidate(mode: EnumMode, fields: Record, i: nat): Value
    requires i < |fields|
  {
    if mode == ByValue then fields[i].1 else Str(fields[i].0)
  }

  /** What a match at entry `i` returns: the key for enumeratedKey, the value otherwise. */
  function Answer(mode: EnumMode, fields: Record, i: nat): Value
    requires i < |fields|
  {
    if mode == KeyForKey then Str(fields[i].0) else fields[i].1
  }

  /**
   * With a plain-object table nothing is thrown. A match is found exactly
   * when some entry matches, and then the result is what the first matching
   * entry returns, as the `for…in` loop with its `break` gives; no match
   * gives `{ null, false }`.
   */
  lemma EnumeratedFindsFirst(mode: EnumMode, data: Value, o: Options, fnText: nat -> string, fields: Record)
    requires Opt(o, "enumerated") == Obj(fields)
    ensures ValidatorEnumerated(mode, data, o, fnText).Normal?
    ensures var r := ValidatorEnumerated(mode, data, o, fnText).value;
      r.valid <==> exists i :: 0 <= i < |fields| && Matches(data, Candidate(mode, fields, i), Flag(o, "strict"), fnText)
    ensures var r := ValidatorEnumerated(mode, data, o, fnText).value;
      !r.valid ==> r.data == Null
    ensures var r := ValidatorEnumerated(mode, data, o, fnText).value;
      r.valid ==> exists i :: (0 <= i < |fields| && Matches(data, Candidate(mode, fields, i), Flag(o, "strict"), fnText)
        && (forall j :: 0 <= j < i ==> !Matches(data, Candidate(mode, fields, j), Flag(o, "strict"), fnText))
        && r.data == Answer(mode, fields, i))
  {
    var strict := Flag(o, "strict");
    var cands := if mode == ByValue then Values(fields) else KeyValues(fields);
    assert forall i :: 0 <= i < |fields| ==> cands[i] == Candidate(mode, fields, i);
    match FirstMatch(data, cands, strict, fnText)
    case None =>
      assert ValidatorEnumerated(mode, data, o, fnText) == Normal(DefResult(Null, false));
    case Some(i) =>
      assert ValidatorEnumerated(mode, data, o, fnText) == Normal(DefResult(Answer(mode, fields, i), true));
      assert Matches(data, Candidate(mode, fields, i), strict, fnText);
  }

  /** In strict mode a value match returns the input itself. */
  lemma EnumeratedStrictReturnsInput(data: Value, o: Options, fnText: nat -> string)
    requires Opt(o, "enumerated").Obj? && Flag(o, "strict")
    requires ValidatorEnumerated(ByValue, data, o, fnText).value.valid
    ensures ValidatorEnumerated(ByValue, data, o, fnText).value.data == data
  {
  }

  /** The value enumeratedKeyValue returns is what the matched key, returned by enumeratedKey, holds. */
  lemma KeyValueIsValueOfKey(data: Value, o: Options, fnText: nat -> string)
    requires Opt(o, "enumerated").Obj?
    requires ValidatorEnumerated(KeyForKey, data, o, fnText).value.valid
    ensures ValidatorEnumerated(ValueForKey, data, o, fnText).value.valid
    ensures ValidatorEnumerated(ValueForKey, data, o, fnText).value.data
         == Get(Opt(o, "enumerated").fields, ValidatorEnumerated(KeyForKey, data, o, fnText).value.data.s)
  {
    var fields := Opt(o, "enumerated").fields;
    var strict := Flag(o, "strict");
    var i := FirstMatch(data, KeyValues(fields), strict, fnText).value;
    FirstOccurrence(fields, i);
  }

  /** Get finds the first property with a name; none before index i has the name of entry i,
      when none of them matches what entry i matches. */
  lemma {:induction false} FirstOccurrence(fields: Record, i: nat)
    requires i < |fields|
    requires forall j :: 0 <= j < i ==> fields[j].0 != fields[i].0
    ensures Get(fields, fields[i].0) == fields[i].1
  {
    if i > 0 {
      assert fields[0].0 != fields[i].0;
      FirstOccurrence(fields[1..], i - 1);
    }
  }

  /** Loosely, a number finds the key that spells it: `123` matches the key '123'. */
  lemma NumberFindsItsKey(n: int, o: Options, fnText: nat -> string, k: nat)
    requires Opt(o, "enumerated").Obj? && !Flag(o, "strict")
    requires k < |Opt(o, "enumerated").fields| && Opt(o, "enumerated").fields[k].0 == IntToString(n)
    ensures ValidatorEnumerated(KeyForKey, Num(n), o, fnText).value.valid
  {
    NumLooseEqItsString(n, fnText);
    assert KeyValues(Opt(o, "enumerated").fields)[k] == Str(IntToString(n));
  }

  /** Strictly, only a string can match a key. */
  lemma StrictKeyNeedsString(mode: EnumMode, data: Value, o: Options, fnText: nat -> string)
    requires mode != ByValue && Opt(o, "enumerated").Obj? && Flag(o, "strict") && !data.Str?
    ensures ValidatorEnumerated(mode, data, o, fnText) == Normal(DefResult(Null, false))
  {
  }

  // ---------------------------------------------------------------------------
  // json and dispatch
  // ---------------------------------------------------------------------------

  /** `JSON.parse(data)`: the parsed value is valid; an unparsable input is returned invalid. */
  function ValidatorJson(data: Value, host: Env): (r: DefResult)
    ensures r.valid <==> host.parseJson(ToStr(data, host.fnText)).Some?
    ensures r.valid ==> r.data == host.parseJson(ToStr(data, host.fnText)).value
    ensures !r.valid ==> r.data == data
  {
    match host.parseJson(ToStr(data, host.fnText))
    case Some(v) => DefResult(v, true)
    case None => DefResult(data, false)
  }

  /**
   * Runs the definition `Fn(id)`: a built-in one, or a caller-supplied one
   * through the host. Of the built-ins only the enumerated ones, and `num`
   * and `str` through a `regExp` option, can throw.
   */
  function Definition(id: nat, data: Value, o: Options, host: Env): (r: Completion<DefResult>)
    ensures id < BuiltinCount && id != 5 && id != 6 && id != 7 && !((id == 2 || id == 3) && Flag(o, "regExp")) ==> r.Normal?
  {
    if id == 0 then Normal(ValidatorDefined(data))
    else if id == 1 then Normal(ValidatorBool(data, o))
    else if id == 2 then ValidatorNum(data, o, host)
    else if id == 3 then ValidatorStr(data, o, host)
    else if id == 4 then Normal(ValidatorFn(data))
    else if id == 5 then ValidatorEnumerated(ByValue, data, o, host.fnText)
    else if id == 6 then ValidatorEnumerated(KeyForKey, data, o, host.fnText)
    else if id == 7 then ValidatorEnumerated(ValueForKey, data, o, host.fnText)
    else if id == 8 then Normal(ValidatorJson(data, host))
    else host.define(id, data, o)
  }

  /** A definition as the drivers call it: `definition(data, options)`. */
  type DefinitionFn = (Value, Options) -> Completion<DefResult>

  /** The definition registered under number `id`, as the function value the drivers are handed. */
  function DefinitionOf(id: nat, host: Env): DefinitionFn {
    (data, o) => Definition(id, data, o, host)
  }

  /** The definitions run step by step, the enumerated ones by their search loop. */
  method RunDefinition(id: nat, data: Value, o: Options, host: Env) returns (r: Completion<DefResult>)
    ensures r == Definition(id, data, o, host)
  {
    if 5 <= id <= 7 {
      var mode := if id == 5 then ByValue else if id == 6 then KeyForKey else ValueForKey;
      r := RunEnumerated(mode, data, o, host.fnText);
    } else if id == 1 {
      var b := RunBool(data, o);
      r := Normal(b);
    } else if id == 2 {
      r := RunNum(data, o, host);
    } else if id == 3 {
      r := RunStr(data, o, host);
    } else {
      r := Definition(id, data, o, host);
    }
  }

  /** `validatorBool`, assigning `val` and `ok` branch by branch. */
  method RunBool(data: Value, o: Options) returns (r: DefResult)
    ensures r == ValidatorBool(data, o)
  {
    var val: Value;
    var ok: bool;
    if Flag(o, "strict") {
      val := data;
      ok := data.Bool?;
    } else if data.Str? {
      ok := true;
      if data.s == "false" || data.s == "0" {
        val := Bool(false);
      } else {
        val := Bool(Truthy(data));
      }
    } else {
      val := Bool(Truthy(data));
      ok := true;
    }
    r := DefResult(val, ok);
  }

  /** `validatorNum`, updating `val` and `ok` rule by rule. */
  method RunNum(data: Value, o: Options, host: Env) returns (r: Completion<DefResult>)
    ensures r == ValidatorNum(data, o, host)
  {
    var ok := if Flag(o, "strict") then data.Num? else IsNumeric(data);
    if !ok {
      return Normal(DefResult(Undefined, false));
    }
    var val := ToNumber(data, host.fnText);
    if Flag(o, "integer") {
      val := Int32Of(val);
    }
    if Opt(o, "min") != Undefined {
      val := MaxNum(ToNumber(Opt(o, "min"), host.fnText), val);
    }
    if Opt(o, "max") != Undefined {
      val := MinNum(val, ToNumber(Opt(o, "max"), host.fnText));
    }
    assert val == Clamped(ToNumber(data, host.fnText), o, host.fnText);
    if Opt(o, "rangeMin") != Undefined {
      ok := Less(ToNumber(Opt(o, "rangeMin"), host.fnText), val, Flag(o, "minEq"));
    }
    if ok && Opt(o, "rangeMax") != Undefined {
      ok := Less(val, ToNumber(Opt(o, "rangeMax"), host.fnText), Flag(o, "maxEq"));
    }
    assert ok == InRange(val, o, host.fnText);
    if ok && Flag(o, "regExp") {
      var found := NumPattern(Opt(o, "regExp"), data, host);
      if found.Abrupt? {
        return Abrupt(found.exception);
      }
      ok := found.value;
    }
    r := Normal(DefResult(NumberValue(val), ok));
  }

  /** `validatorStr`, updating `val` and `ok` rule by rule. */
  method RunStr(data: Value, o: Options, host: Env) returns (r: Completion<DefResult>)
    ensures r == ValidatorStr(data, o, host)
  {
    var val, ok := RunLengthRules(ToStr(data, host.fnText), !Flag(o, "strict") || data.Str?, o, host);
    if ok && Flag(o, "regExp") {
      var found := StrPattern(Opt(o, "regExp"), val, host);
      if found.Abrupt? {
        return Abrupt(found.exception);
      }
      ok := found.value;
    }
    if Flag(o, "lowerCase") {
      val := ToLower(val);
    } else if Flag(o, "upperCase") {
      val := ToUpper(val);
    }
    r := Normal(DefResult(Str(val), ok));
  }

  /** The `minLength`, `maxLength` and `truncate` rules of `validatorStr`. */
  method RunLengthRules(s: string, typeOk: bool, o: Options, host: Env) returns (val: string, ok: bool)
    ensures (val, ok) == StrLengthRules(s, typeOk, o, host)
  {
    val, ok := s, typeOk;
    if TooShort(val, o, host.fnText) {
      ok := false;
    }
    if ok && TooLong(val, o, host.fnText) {
      if Flag(o, "truncate") {
        val := host.truncate(val, Opt(o, "maxLength"), Ellipsis(o));
      } else {
        ok := false;
      }
    }
  }

  /** `enumerated`, `enumeratedKey` and `enumeratedKeyValue`, searching the table with a loop. */
  method RunEnumerated(mode: EnumMode, data: Value, o: Options, fnText: nat -> string) returns (r: Completion<DefResult>)
    ensures r == ValidatorEnumerated(mode, data, o, fnText)
  {
    var table := Opt(o, "enumerated");
    if !table.Obj? {
      return Abrupt(EnumeratedNotObject);
    }
    var cands := if mode == ByValue then Values(table.fields) else KeyValues(table.fields);
    var found := FindFirstMatch(data, cands, Flag(o, "strict"), fnText);
    match found {
      case None =>
        r := Normal(DefResult(Null, false));
      case Some(i) =>
        r := Normal(DefResult(if mode == KeyForKey then Str(table.fields[i].0) else table.fields[i].1, true));
    }
  }

  /**
   * A built-in definition called as a plain one-argument function (say, as
   * a transformation): `options` is undefined, so those that read an option
   * throw a TypeError, the enumerated ones throw their own error, and the
   * others return their `{ data, valid }` object.
   */
  function CalledWithoutOptions(id: nat, x: Value, host: Env): (r: Completion<Value>)
    requires id < BuiltinCount
    ensures (id == 1 || id == 2 || id == 3) <==> r == Abrupt(TypeError)
  {
    if id == 0 then Normal(ResultObject(ValidatorDefined(x)))
    else if id == 4 then Normal(ResultObject(ValidatorFn(x)))
    else if id == 8 then Normal(ResultObject(ValidatorJson(x, host)))
    else if 5 <= id <= 7 then Abrupt(EnumeratedNotObject)
    else Abrupt(TypeError)
  }
}
