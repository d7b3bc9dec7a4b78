/**
 * The dynamically typed values the validator works on, and the parts of the
 * JavaScript semantics the library relies on: truthiness, property records,
 * `String()`, `Number()`, `===`, `==`, the `| 0` truncation and the deep copy
 * made by `extend(true, {}, data)`.
 */
module JsValues {
  import opened Wrappers

  /**
   * A JavaScript value. Numbers are integers (plus NaN); an object is the
   * ordered list of its own enumerable properties, in for-in order; a
   * function is known by an identity, its behaviour comes from the host.
   */
  datatype Value =
    | Undefined
    | Null
    | Bool(b: bool)
    | Num(n: int)
    | NaN
    | Str(s: string)
    | Arr(items: seq<Value>)
    | Obj(fields: seq<(string, Value)>)
    | Fn(id: nat)

  /** A plain object's properties, in enumeration order (`{ key => value }`). */
  type Record = seq<(string, Value)>

  /** An options bag: absent keys read as `undefined`. */
  type Options = map<string, Value>

  /** `!!v` */
  predicate Truthy(v: Value) {
    match v
    case Undefined => false
    case Null => false
    case Bool(b) => b
    case Num(n) => n != 0
    case NaN => false
    case Str(s) => s != ""
    case _ => true
  }

  /** `options[k]` */
  function Opt(o: Options, k: string): Value {
    if k in o then o[k] else Undefined
  }

  /** `if (options[k])` */
  predicate Flag(o: Options, k: string) {
    Truthy(Opt(o, k))
  }

  // ---------------------------------------------------------------------------
  // Records: property lookup and assignment on a plain object
  // ---------------------------------------------------------------------------

  function Keys(r: Record): (ks: seq<string>)
    ensures |ks| == |r| && forall i :: 0 <= i < |r| ==> ks[i] == r[i].0
  {
    seq(|r|, i requires 0 <= i < |r| => r[i].0)
  }

  /** The value of own property `k`, if there is one (the first, should keys repeat). */
  function Find(r: Record, k: string): Option<Value> {
    if r == [] then None
    else if r[0].0 == k then Some(r[0].1)
    else Find(r[1..], k)
  }

  /** `obj[k]`: a missing property reads as `undefined`. */
  function Get(r: Record, k: string): Value {
    match Find(r, k)
    case Some(v) => v
    case None => Undefined
  }

  /**
   * `obj[k] = v`: an existing property keeps its place, a new one is added
   * at the end of the enumeration order.
   */
  function Set(r: Record, k: string, v: Value): (r': Record)
    ensures Find(r', k) == Some(v)
    ensures forall k' :: k' != k ==> Find(r', k') == Find(r, k')
    ensures k in Keys(r) ==> Keys(r') == Keys(r)
    ensures k !in Keys(r) ==> Keys(r') == Keys(r) + [k]
  {
    if r == [] then [(k, v)]
    else if r[0].0 == k then [(k, v)] + r[1..]
    else [r[0]] + Set(r[1..], k, v)
  }

  /** No property name occurs twice, as in every JavaScript object. */
  predicate UniqueKeys(r: Record) {
    forall i, j :: 0 <= i < j < |r| ==> r[i].0 != r[j].0
  }

  lemma {:induction false} FindIn(r: Record, k: string)
    ensures Find(r, k).Some? <==> k in Keys(r)
  {
    if r != [] {
      FindIn(r[1..], k);
      assert Keys(r) == [r[0].0] + Keys(r[1..]);
    }
  }

  /** Assignment never creates a second property with the same name. */
  lemma {:induction false} SetKeepsKeysUnique(r: Record, k: string, v: Value)
    requires UniqueKeys(r)
    ensures UniqueKeys(Set(r, k, v))
  {
    var r' := Set(r, k, v);
    var ks, ks' := Keys(r), Keys(r');
    forall i, j | 0 <= i < j < |r'| ensures r'[i].0 != r'[j].0 {
      assert ks'[i] == r'[i].0 && ks'[j] == r'[j].0;
      if k in ks {
        assert ks' == ks;
      } else {
        assert ks' == ks + [k];
        if j == |r| {
          assert ks'[i] == ks[i];
        }
      }
    }
  }

  /**
   * The `[key, value]` pairs a `for…in` loop visits: an object's properties,
   * an array's indices, a string's character positions; nothing otherwise.
   */
  function ForInEntries(v: Value): (r: Record)
    ensures v.Obj? ==> r == v.fields
  {
    match v
    case Obj(fields) => fields
    case Arr(items) => seq(|items|, i requires 0 <= i < |items| => (NatToString(i), items[i]))
    case Str(s) => seq(|s|, i requires 0 <= i < |s| => (NatToString(i), Str([s[i]])))
    case _ => []
  }

  /** The index a canonical array-index key names, below `len`. */
  function IndexKey(key: string, len: nat): Option<nat> {
    var i := DigitsValue(key);
    if i.Some? && i.value < len && NatToString(i.value) == key then i else None
  }

  /**
   * `v[key]`: reading a property of undefined or null throws (None here);
   * an object yields its property; an array its element and a string its
   * one-character string at a canonical index, and both their `length`;
   * anything else undefined.
   */
  function PropertyOf(v: Value, key: string): (r: Option<Value>)
    ensures r.None? <==> v.Undefined? || v.Null?
    ensures v.Obj? ==> r == Some(Get(v.fields, key))
    ensures v.Arr? && key == "length" ==> r == Some(Num(|v.items|))
    ensures v.Str? && key == "length" ==> r == Some(Num(|v.s|))
  {
    match v
    case Undefined => None
    case Null => None
    case Obj(fields) => Some(Get(fields, key))
    case Arr(items) =>
      if key == "length" then Some(Num(|items|))
      else (match IndexKey(key, |items|)
        case Some(i) => Some(items[i])
        case None => Some(Undefined))
    case Str(s) =>
      if key == "length" then Some(Num(|s|))
      else (match IndexKey(key, |s|)
        case Some(i) => Some(Str([s[i]]))
        case None => Some(Undefined))
    case _ => Some(Undefined)
  }

  /** For an array or a string, reading each key `for…in` yields gives the value it yields with it. */
  lemma PropertyOfForInEntry(v: Value, j: nat)
    requires (v.Arr? || v.Str?) && j < |ForInEntries(v)|
    ensures PropertyOf(v, ForInEntries(v)[j].0) == Some(ForInEntries(v)[j].1)
  {
    DigitsValueOfNatToString(j);
    assert NatToString(j) != "length" by {
      assert IsDigit(NatToString(j)[0]);
    }
  }

  /** A record read as an options bag (the last of repeated names wins, as an assignment would). */
  function RecordToOptions(r: Record): Options
    decreases |r|
  {
    if r == [] then map[] else RecordToOptions(r[..|r| - 1])[r[|r| - 1].0 := r[|r| - 1].1]
  }

  /** An options argument: a plain object's properties; anything else contributes none. */
  function ToOptions(v: Value): Options {
    if v.Obj? then RecordToOptions(v.fields) else map[]
  }

  // ---------------------------------------------------------------------------
  // Numbers and strings
  // ---------------------------------------------------------------------------

  /** `n | 0`: two's-complement wrap-around into a signed 32-bit integer. */
  function ToInt32(n: int): (r: int)
    ensures -0x8000_0000 <= r < 0x8000_0000
    ensures (r - n) % 0x1_0000_0000 == 0
  {
    (n + 0x8000_0000) % 0x1_0000_0000 - 0x8000_0000
  }

  lemma ToInt32OfInt32(n: int)
    requires -0x8000_0000 <= n < 0x8000_0000
    ensures ToInt32(n) == n
  {
    assert 0 <= n + 0x8000_0000 < 0x1_0000_0000;
  }

  predicate IsDigit(c: char) {
    '0' <= c <= '9'
  }

  function DigitChar(d: nat): (c: char)
    requires d < 10
    ensures IsDigit(c) && c as int - '0' as int == d
  {
    ('0' as int + d) as char
  }

  /** The decimal digits of `n`, most significant first. */
  function NatToString(n: nat): (s: string)
    ensures |s| > 0 && forall i :: 0 <= i < |s| ==> IsDigit(s[i])
  {
    if n < 10 then [DigitChar(n)] else NatToString(n / 10) + [DigitChar(n % 10)]
  }

  /** `String(n)` for an integer. */
  function IntToString(n: int): string {
    if n < 0 then "-" + NatToString(-n) else NatToString(n)
  }

  /** The value of a non-empty string of decimal digits. */
  function DigitsValue(s: string): Option<nat>
    decreases |s|
  {
    if s == [] || !IsDigit(s[|s| - 1]) then None
    else
      var d := s[|s| - 1] as int - '0' as int;
      if |s| == 1 then Some(d)
      else match DigitsValue(s[..|s| - 1])
        case None => None
        case Some(m) => Some(m * 10 + d)
  }

  /** An optionally signed decimal integer numeral; anything else is not one. */
  function DecimalInteger(s: string): Option<int> {
    if s != [] && (s[0] == '-' || s[0] == '+') then
      match DigitsValue(s[1..])
      case None => None
      case Some(m) =>
        var n: int := if s[0] == '-' then 0 - m as int else m;
        Some(n)
    else
      match DigitsValue(s)
      case None => None
      case Some(m) => Some(m)
  }

  lemma {:induction false} DigitsValueOfNatToString(n: nat)
    ensures DigitsValue(NatToString(n)) == Some(n)
  {
    if n >= 10 {
      var s := NatToString(n);
      DigitsValueOfNatToString(n / 10);
      assert s[..|s| - 1] == NatToString(n / 10);
    }
  }

  /** Printing an integer and reading it back gives the integer again. */
  lemma DecimalIntegerOfIntToString(n: int)
    ensures DecimalInteger(IntToString(n)) == Some(n)
  {
    var m: nat := if n < 0 then -n else n;
    var digits := NatToString(m);
    DigitsValueOfNatToString(m);
    assert digits[0] != '-' && digits[0] != '+' by {
      assert IsDigit(digits[0]);
    }
    if n < 0 {
      var s := "-" + digits;
      assert s[0] == '-' && s[1..] == digits;
    }
  }

  /** `Number(s)` for a string: the empty string is 0, a non-numeral is NaN (None). */
  function StrToNumber(s: string): Option<int> {
    if s == "" then Some(0) else DecimalInteger(s)
  }

  /**
   * `String(v)`. Arrays join their elements with "," (undefined and null
   * elements print as ""), plain objects print as "[object Object]" and a
   * function prints as its source text, which the host knows.
   */
  function ToStr(v: Value, fnText: nat -> string): string
    decreases v, 1
  {
    match v
    case Undefined => "undefined"
    case Null => "null"
    case Bool(b) => if b then "true" else "false"
    case Num(n) => IntToString(n)
    case NaN => "NaN"
    case Str(s) => s
    case Arr(items) => JoinFrom(items, 0, fnText)
    case Obj(_) => "[object Object]"
    case Fn(id) => fnText(id)
  }

  /** `items.slice(i).join(",")` */
  function JoinFrom(items: seq<Value>, i: nat, fnText: nat -> string): string
    requires i <= |items|
    decreases Arr(items), 0, |items| - i
  {
    if i == |items| then ""
    else
      var head := if items[i].Undefined? || items[i].Null? then "" else ToStr(items[i], fnText);
      if i + 1 == |items| then head else head + "," + JoinFrom(items, i + 1, fnText)
  }

  /** `Number(v)`; None stands for NaN. */
  function ToNumber(v: Value, fnText: nat -> string): Option<int> {
    match v
    case Undefined => None
    case Null => Some(0)
    case Bool(b) => Some(if b then 1 else 0)
    case Num(n) => Some(n)
    case NaN => None
    case Str(s) => StrToNumber(s)
    case _ => StrToNumber(ToStr(v, fnText))
  }

  /** A number or plain value back from a numeric computation (None is NaN). */
  function NumberValue(x: Option<int>): Value {
    match x
    case Some(n) => Num(n)
    case None => NaN
  }

  // ---------------------------------------------------------------------------
  // Equality
  // ---------------------------------------------------------------------------

  predicate IsObjectLike(v: Value) {
    v.Arr? || v.Obj? || v.Fn?
  }

  /**
   * `a === b`. NaN equals nothing; arrays and objects, which JavaScript
   * compares by identity, are compared by contents here.
   */
  predicate StrictEq(a: Value, b: Value) {
    !a.NaN? && a == b
  }

  /** `a == b` between two primitives (booleans, numbers, NaN, strings). */
  predicate PrimitiveLooseEq(a: Value, b: Value, fnText: nat -> string) {
    if a.Str? && b.Str? then a.s == b.s
    else
      var x, y := ToNumber(a, fnText), ToNumber(b, fnText);
      x.Some? && x == y
  }

  /**
   * `a == b`: undefined and null equal only each other; two objects compare
   * as with `===`; otherwise an object is turned into its string and the two
   * primitives are compared, as numbers unless both are strings.
   */
  predicate LooseEq(a: Value, b: Value, fnText: nat -> string) {
    if a.Undefined? || a.Null? then b.Undefined? || b.Null?
    else if b.Undefined? || b.Null? then false
    else if IsObjectLike(a) && IsObjectLike(b) then StrictEq(a, b)
    else
      var pa := if IsObjectLike(a) then Str(ToStr(a, fnText)) else a;
      var pb := if IsObjectLike(b) then Str(ToStr(b, fnText)) else b;
      PrimitiveLooseEq(pa, pb, fnText)
  }

  /** Whatever is `===` is also `==`. */
  lemma StrictEqImpliesLooseEq(a: Value, b: Value, fnText: nat -> string)
    requires StrictEq(a, b)
    ensures LooseEq(a, b, fnText)
  {
  }

  /** A number is `==` to its decimal string, in either order. */
  lemma NumLooseEqItsString(n: int, fnText: nat -> string)
    ensures LooseEq(Num(n), Str(IntToString(n)), fnText)
    ensures LooseEq(Str(IntToString(n)), Num(n), fnText)
  {
    DecimalIntegerOfIntToString(n);
    assert IntToString(n) != "" by {
      assert |NatToString(if n < 0 then -n else n)| > 0;
    }
  }

  // ---------------------------------------------------------------------------
  // ASCII case mapping
  // ---------------------------------------------------------------------------

  function LowerChar(c: char): char {
    if 'A' <= c <= 'Z' then (c as int + 32) as char else c
  }

  function UpperChar(c: char): char {
    if 'a' <= c <= 'z' then (c as int - 32) as char else c
  }

  /** `s.toLowerCase()` */
  function ToLower(s: string): (r: string)
    ensures |r| == |s| && forall i :: 0 <= i < |s| ==> r[i] == LowerChar(s[i])
  {
    seq(|s|, i requires 0 <= i < |s| => LowerChar(s[i]))
  }

  /** `s.toUpperCase()` */
  function ToUpper(s: string): (r: string)
    ensures |r| == |s| && forall i :: 0 <= i < |s| ==> r[i] == UpperChar(s[i])
  {
    seq(|s|, i requires 0 <= i < |s| => UpperChar(s[i]))
  }

  // ---------------------------------------------------------------------------
  // extend(true, {}, data)
  // ---------------------------------------------------------------------------

  /**
   * The copy made by a deep `extend`: properties whose value is undefined are
   * not copied, nested plain objects and arrays are copied in turn, and an
   * array copy ends at its last element that is not undefined.
   */
  function DeepCopy(v: Value): (r: Value)
    ensures r.Obj? <==> v.Obj?
    ensures r.Arr? <==> v.Arr?
    ensures r == Undefined <==> v == Undefined
    decreases v, 1
  {
    match v
    case Arr(items) => Arr(TrimUndefined(CopyItems(items, 0)))
    case Obj(fields) => Obj(CopyFields(fields, 0))
    case _ => v
  }

  function CopyItems(items: seq<Value>, i: nat): (r: seq<Value>)
    requires i <= |items|
    ensures |r| == |items| - i
    decreases Arr(items), 0, |items| - i
  {
    if i == |items| then [] else [DeepCopy(items[i])] + CopyItems(items, i + 1)
  }

  function CopyFields(fields: Record, i: nat): Record
    requires i <= |fields|
    decreases Obj(fields), 0, |fields| - i
  {
    if i == |fields| then []
    else if fields[i].1.Undefined? then CopyFields(fields, i + 1)
    else [(fields[i].0, DeepCopy(fields[i].1))] + CopyFields(fields, i + 1)
  }

  function TrimUndefined(s: seq<Value>): (r: seq<Value>)
    ensures |r| <= |s| && r == s[..|r|]
    ensures r == [] || !r[|r| - 1].Undefined?
  {
    if s == [] || !s[|s| - 1].Undefined? then s else TrimUndefined(s[..|s| - 1])
  }
}
