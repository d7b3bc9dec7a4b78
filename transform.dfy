/**
 * `applyTransformation`: a falsy transformation leaves the value alone, a
 * list of functions is applied left to right, anything else is called once.
 */
module Transform {
  import opened JsValues
  import opened Host
  import opened Definitions

  /** `f(x)`; calling a value that is not a function throws a TypeError. */
  function CallOne(f: Value, x: Value, host: Env): Completion<Value> {
    match f
    case Fn(id) => if id < BuiltinCount then CalledWithoutOptions(id, x, host) else host.call(id, x)
    case _ => Abrupt(TypeError)
  }

  /** The functions `fs[i..]` applied in order, the first exception ending the chain. */
  function Chain(x: Value, fs: seq<Value>, i: nat, host: Env): Completion<Value>
    requires i <= |fs|
    decreases |fs| - i
  {
    if i == |fs| then Normal(x)
    else match CallOne(fs[i], x, host)
      case Abrupt(e) => Abrupt(e)
      case Normal(y) => Chain(y, fs, i + 1, host)
  }

  /** What `applyTransformation(x, t)` returns or throws. */
  function Transformed(x: Value, t: Value, host: Env): Completion<Value> {
    if !Truthy(t) then Normal(x)
    else if t.Arr? then Chain(x, t.items, 0, host)
    else CallOne(t, x, host)
  }

  /** The loop of `applyTransformation`, threading the value through the list. */
  method ApplyTransformation(x: Value, t: Value, host: Env) returns (r: Completion<Value>)
    ensures r == Transformed(x, t, host)
  {
    if !Truthy(t) {
      return Normal(x);
    }
    if !t.Arr? {
      return CallOne(t, x, host);
    }
    var data := x;
    var i := 0;
    while i < |t.items|
      invariant 0 <= i <= |t.items|
      invariant Chain(x, t.items, 0, host) == Chain(data, t.items, i, host)
    {
      var step := CallOne(t.items[i], data, host);
      if step.Abrupt? {
        return Abrupt(step.exception);
      }
      data := step.value;
      i := i + 1;
    }
    r := Normal(data);
  }

  /** `x` then `Transformed`: sequencing two completions. */
  function Then(c: Completion<Value>, fs: seq<Value>, host: Env): Completion<Value> {
    match c
    case Abrupt(e) => Abrupt(e)
    case Normal(y) => Chain(y, fs, 0, host)
  }

  lemma {:induction false} ChainAppendFrom(x: Value, f: seq<Value>, g: seq<Value>, i: nat, host: Env)
    requires i <= |f|
    ensures Chain(x, f + g, i, host) == Then(Chain(x, f, i, host), g, host)
    decreases |f| - i
  {
    if i == |f| {
      ShiftChain(x, f, g, 0, host);
    } else {
      assert (f + g)[i] == f[i];
      match CallOne(f[i], x, host)
      case Abrupt(e) =>
      case Normal(y) => ChainAppendFrom(y, f, g, i + 1, host);
    }
  }

  lemma {:induction false} ShiftChain(x: Value, f: seq<Value>, g: seq<Value>, j: nat, host: Env)
    requires j <= |g|
    ensures Chain(x, f + g, |f| + j, host) == Chain(x, g, j, host)
    decreases |g| - j
  {
    if j < |g| {
      assert (f + g)[|f| + j] == g[j];
      match CallOne(g[j], x, host)
      case Abrupt(e) =>
      case Normal(y) => ShiftChain(y, f, g, j + 1, host);
    }
  }

  /** Transformation lists compose: applying `f + g` is applying `f`, then `g` to its result. */
  lemma ChainComposes(x: Value, f: seq<Value>, g: seq<Value>, host: Env)
    ensures Transformed(x, Arr(f + g), host) == Then(Transformed(x, Arr(f), host), g, host)
  {
    ChainAppendFrom(x, f, g, 0, host);
  }

  /** A single function and the list holding only it are the same transformation. */
  lemma SingleIsListOfOne(x: Value, f: Value, host: Env)
    requires Truthy(f) && !f.Arr?
    ensures Transformed(x, f, host) == Transformed(x, Arr([f]), host)
  {
    match CallOne(f, x, host)
    case Abrupt(e) =>
    case Normal(y) => assert Chain(y, [f], 1, host) == Normal(y);
  }

  /** No transformation, and the empty list, are the identity. */
  lemma AbsentIsIdentity(x: Value, t: Value, host: Env)
    requires !Truthy(t) || t == Arr([])
    ensures Transformed(x, t, host) == Normal(x)
  {
  }

  /** Anything that is not a function, or a list holding one, throws a TypeError. */
  lemma NonFunctionThrows(x: Value, t: Value, host: Env)
    requires Truthy(t) && !t.Arr? && !t.Fn?
    ensures Transformed(x, t, host) == Abrupt(TypeError)
  {
  }
}
