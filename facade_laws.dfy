/**
 * Laws of the facade, stated on the functions the Facade methods are
 * proved against: what registration forbids, what a call on an alias
 * leaves behind, what `schema` reads, what `valid` returns and what the
 * table holds once the module has loaded.
 */
module FacadeLaws {
  import opened Wrappers
  import opened JsValues
  import opened Host
  import opened Definitions
  import opened Resolve
  import opened Drivers
  import opened Scopes
  import opened Startup

  // ---------------------------------------------------------------------------
  // Registration
  // ---------------------------------------------------------------------------

  /** A validator name registered on the prototype cannot be registered there again without `allowOverwriteValidator`. */
  lemma ValidatorTwiceFails(entries: Entries, name: Value, def: Value, again: Value, e: Entries)
    requires ValidatorAdded(entries, name, def, ToPrototype, PrototypeTaken(entries), false) == Ok(e)
    ensures ValidatorAdded(e, name, again, ToPrototype, PrototypeTaken(e), false)
         == if again.Fn? then Err(AlreadyDefined(name.s)) else Err(DefinitionNotFunction)
  {
    assert name.s in e;
  }

  /** The same holds on an instance, whose check also sees the prototype's names. */
  lemma InstanceValidatorTwiceFails(local: Entries, global: Entries, name: Value, def: Value, again: Value, e: Entries)
    requires ValidatorAdded(local, name, def, ToInstance, InstanceTaken(local, global), false) == Ok(e)
    ensures ValidatorAdded(e, name, again, ToInstance, InstanceTaken(e, global), false)
         == if again.Fn? then Err(AlreadyDefined(name.s)) else Err(DefinitionNotFunction)
  {
    assert name.s in e;
  }

  /**
   * An instance cannot take a name whose entry point exists on the
   * prototype, unless it may overwrite: a valid registration of a validator,
   * or an alias of any validator the instance sees, fails with the collision
   * on one of the name's entry points.
   */
  lemma InstanceSeesPrototype(local: Entries, global: Entries, name: string, def: nat, underlying: string, s: Shape)
    requires name != "" && name + Suffix(s) in global
    requires forall t: Shape :: underlying + Suffix(t) in InstanceTaken(local, global)
    ensures var r := ValidatorAdded(local, Str(name), Fn(def), ToInstance, InstanceTaken(local, global), false);
      r.Err? && r.error.AlreadyDefined? && exists t: Shape :: r.error.name == name + Suffix(t)
    ensures var r := AliasCheck(name, underlying, InstanceTaken(local, global), false);
      r.Some? && r.value.AlreadyDefined? && exists t: Shape :: r.value.name == name + Suffix(t)
  {
    assert name + Suffix(s) in InstanceTaken(local, global);
  }

  /** An alias name registered on the prototype cannot be registered there again without `allowOverwriteValidator`. */
  lemma AliasTwiceFails(entries: Entries, cells: Cells, alias: string, underlying: string, options: Options,
                        again: string, options': Options, t: (Entries, Cells))
    requires AliasAdded(entries, cells, alias, underlying, options, PrototypeTaken(entries), false) == Ok(t)
    requires forall s: Shape :: again + Suffix(s) in PrototypeTaken(t.0)
    ensures AliasAdded(t.0, t.1, alias, again, options', PrototypeTaken(t.0), false) == Err(AlreadyDefined(alias))
  {
    assert alias in t.0;
  }

  /** A schema name cannot be added twice to the same list without `allowOverwriteValidator`. */
  lemma SchemaTwiceFails(schemas: Schemas, name: string, schema: Value, again: Value, s: Schemas)
    requires SchemaAdded(schemas, name, schema, false) == Ok(s)
    ensures SchemaAdded(s, name, again, false) == Err(SchemaAlreadyDefined(name))
  {
  }

  /** The schema lists are separate: a global schema never blocks an instance's `addSchema`. */
  lemma SchemaListsSeparate(local: Schemas, global: Schemas, name: string, schema: Value)
    requires name !in local && name !in ObjectMembers && name in global
    ensures SchemaCheck(name, local, false).None?
    ensures SchemaLookup(local, global, name) == Some(global[name])
  {
  }

  /** Reading a property of this value throws. */
  predicate Nullish(v: Value) {
    v.Undefined? || v.Null?
  }

  /** Normalizing fails exactly when some property of the schema is undefined or null. */
  lemma {:induction false} NormalizedFails(es: Record, i: nat, definition: Record)
    requires i <= |es|
    ensures NormalizedFrom(es, i, definition).None? <==> exists j :: i <= j < |es| && Nullish(es[j].1)
    decreases |es| - i
  {
    if i < |es| {
      var e := SchemaEntry(es[i].1);
      if e.None? {
        assert Nullish(es[i].1);
      } else {
        var next := Set(definition, es[i].0, e.value);
        NormalizedFails(es, i + 1, next);
        assert NormalizedFrom(es, i, definition) == NormalizedFrom(es, i + 1, next);
        assert (exists j :: i <= j < |es| && Nullish(es[j].1)) ==> (exists j :: i + 1 <= j < |es| && Nullish(es[j].1)) by {
          assert !Nullish(es[i].1);
        }
      }
    }
  }

  /** A normalized schema has a `{ validator, options }` entry under every key of the schema, and only those. */
  lemma {:induction false} NormalizedKeys(es: Record, i: nat, definition: Record)
    requires i <= |es|
    requires NormalizedFrom(es, i, definition).Some?
    ensures forall k :: Find(NormalizedFrom(es, i, definition).value, k).Some? <==>
      Find(definition, k).Some? || exists j :: i <= j < |es| && es[j].0 == k
    decreases |es| - i
  {
    if i < |es| {
      var next := Set(definition, es[i].0, SchemaEntry(es[i].1).value);
      NormalizedKeys(es, i + 1, next);
      forall k
        ensures (Find(next, k).Some? || exists j :: i + 1 <= j < |es| && es[j].0 == k) <==>
                (Find(definition, k).Some? || exists j :: i <= j < |es| && es[j].0 == k)
      {
        if k == es[i].0 {
          assert Find(next, k).Some?;
        }
      }
    }
  }

  // ---------------------------------------------------------------------------
  // Calls
  // ---------------------------------------------------------------------------

  /** A call looked up on the prototype alone never touches the instance's alias cells. */
  lemma {:induction false} GlobalCallKeepsLocalCells(cx: Context, st: CallState, name: string, key: string, data: Value,
                                                     opts: Options, host: Env, fuel: nat)
    ensures Call(cx, st, name, true, key, data, opts, host, fuel).0.localCells == st.localCells
    decreases fuel, 1
  {
    match Lookup(cx, name, true)
    case None =>
    case Some((h, isLocal)) =>
      GlobalHandleKeepsLocalCells(cx, st, h, key, data, opts, host, fuel);
  }

  /** What the prototype's entry point `h` does leaves the instance's alias cells alone. */
  lemma {:induction false} GlobalHandleKeepsLocalCells(cx: Context, st: CallState, h: Handler, key: string, data: Value,
                                                       opts: Options, host: Env, fuel: nat)
    ensures Handle(cx, st, h, false, key, data, opts, host, fuel).0.localCells == st.localCells
    decreases fuel, 0
  {
    match h
    case Driver(shape, def) =>
      DriverCallKeepsCells(cx, st, shape, def, key, data, opts, host);
    case AliasFor(shape, alias, underlying) =>
      if fuel > 0 {
        var merged := Extend(CellOf(st, alias, false), opts);
        AliasCallForwards(cx, st, shape, alias, underlying, false, key, data, opts, host, fuel);
        GlobalCallKeepsLocalCells(cx, WithCell(st, alias, false, merged), underlying + Suffix(shape), key, data, merged, host, fuel - 1);
      }
  }

  /** A driver changes the result store only. */
  lemma DriverCallKeepsCells(cx: Context, st: CallState, shape: Shape, def: nat, key: string, data: Value, opts: Options, host: Env)
    ensures DriverCall(cx, st, shape, def, key, data, opts, host).0.localCells == st.localCells
    ensures DriverCall(cx, st, shape, def, key, data, opts, host).0.globalCells == st.globalCells
  {
  }

  /**
   * Calling an alias of a validator with options merges them into the
   * alias's options for good: the call validates with the merged options and
   * leaves them in the cell, where the next call starts from them.
   */
  lemma AliasOverridePersists(cx: Context, st: CallState, shape: Shape, alias: string, underlying: string, isLocal: bool,
                              key: string, data: Value, opts: Options, host: Env, fuel: nat, def: nat, found: bool)
    requires fuel > 0
    requires Lookup(cx, underlying + Suffix(shape), !isLocal) == Some((Driver(shape, def), found))
    ensures var merged := Extend(CellOf(st, alias, isLocal), opts);
      var r := AliasCall(cx, st, shape, alias, underlying, isLocal, key, data, opts, host, fuel);
      r == DriverCall(cx, WithCell(st, alias, isLocal, merged), shape, def, key, data, merged, host)
      && CellOf(r.0, alias, isLocal) == merged
  {
    AliasCallForwards(cx, st, shape, alias, underlying, isLocal, key, data, opts, host, fuel);
  }

  /** `schema` reads `data` only at the keys of the schema: other properties of the data change nothing. */
  lemma {:induction false} SchemaIgnoresOtherKeys(cx: Context, st: CallState, definition: Record, i: nat,
                                                  data: Value, data': Value, host: Env, fuel: nat)
    requires i <= |definition|
    requires forall j :: i <= j < |definition| ==> PropertyOf(data, definition[j].0) == PropertyOf(data', definition[j].0)
    ensures SchemaRun(cx, st, definition, i, data, host, fuel) == SchemaRun(cx, st, definition, i, data', host, fuel)
    decreases |definition| - i
  {
    if i < |definition| {
      var r := SchemaStep(cx, st, definition, i, data, host, fuel);
      assert r == SchemaStep(cx, st, definition, i, data', host, fuel);
      SchemaIgnoresOtherKeys(cx, r.0, definition, i + 1, data, data', host, fuel);
    }
  }

  /** `schema` starts from an empty store: what earlier calls stored does not change its result. */
  lemma SchemaResetsFirst(cx: Context, st: CallState, st': CallState, local: Schemas, global: Schemas, name: string,
                          data: Value, host: Env, fuel: nat)
    requires st.localCells == st'.localCells && st.globalCells == st'.globalCells
    requires SchemaLookup(local, global, name).Some?
    ensures SchemaCall(cx, st, local, global, name, data, host, fuel) == SchemaCall(cx, st', local, global, name, data, host, fuel)
  {
    assert st.(ok := [], wrong := []) == st'.(ok := [], wrong := []);
  }

  // ---------------------------------------------------------------------------
  // valid
  // ---------------------------------------------------------------------------

  lemma SliceMember<T>(s: seq<T>, i: nat, x: T)
    requires i < |s|
    ensures x in s[i..] <==> x == s[i] || x in s[i + 1..]
  {
    assert s[i..] == [s[i]] + s[i + 1..];
  }

  /** `base` after `base[k] = ok[k]` for the keys of `ok` from `i`: those keys read as in `ok`, the rest as in `base`. */
  lemma {:induction false} MergedReads(base: Record, ok: Record, i: nat, k: string)
    requires i <= |ok|
    ensures Find(MergedFrom(base, ok, i), k) == if k in Keys(ok)[i..] then Find(ok, k) else Find(base, k)
    decreases |ok| - i
  {
    if i < |ok| {
      var n := ok[i].0;
      var next := Set(base, n, Get(ok, n));
      MergedReads(next, ok, i + 1, k);
      assert MergedFrom(base, ok, i) == MergedFrom(next, ok, i + 1);
      SliceMember(Keys(ok), i, k);
      if k == n {
        assert Find(next, k) == Find(ok, k) by {
          FindIn(ok, k);
          assert Keys(ok)[i] == n;
        }
      } else {
        assert Find(next, k) == Find(base, k);
      }
    }
  }

  /**
   * `valid(base)`: a base that is neither undefined nor a plain object
   * throws; null exactly when the instance's own `returnNullOnErrors` is set
   * and something failed; otherwise `ok` itself, or `base` with the
   * properties of `ok` written over it.
   */
  lemma ValidResult(ok: Record, wrong: Record, o: Options, base: Value)
    ensures ValidOf(ok, wrong, o, base) == Err(BaseNotObject) <==> base != Undefined && !base.Obj?
    ensures ValidOf(ok, wrong, o, base) == Ok(Null) <==>
      (base == Undefined || base.Obj?) && Flag(o, "returnNullOnErrors") && wrong != []
    ensures base == Undefined && !(Flag(o, "returnNullOnErrors") && wrong != []) ==> ValidOf(ok, wrong, o, base) == Ok(Obj(ok))
    ensures base.Obj? && !(Flag(o, "returnNullOnErrors") && wrong != []) ==>
      ValidOf(ok, wrong, o, base).Ok? && ValidOf(ok, wrong, o, base).value.Obj? &&
      forall k :: Find(ValidOf(ok, wrong, o, base).value.fields, k) == if k in Keys(ok) then Find(ok, k) else Find(base.fields, k)
  {
    if base.Obj? && !(Flag(o, "returnNullOnErrors") && wrong != []) {
      forall k
        ensures Find(MergedFrom(base.fields, ok, 0), k) == if k in Keys(ok) then Find(ok, k) else Find(base.fields, k)
      {
        MergedReads(base.fields, ok, 0, k);
        assert Keys(ok)[0..] == Keys(ok);
      }
    }
  }

  // ---------------------------------------------------------------------------
  // The loaded module
  // ---------------------------------------------------------------------------

  /** Once loaded, each built-in entry point of a fresh instance runs its definition's driver from the prototype. */
  lemma FreshInstanceRunsBuiltin(global: Entries, cells: Cells, instanceOptions: Options, defaults: Options, i: nat, s: Shape)
    requires Loaded(global, cells) && i < |BuiltinNames|
    ensures Lookup(Context(map[], global, instanceOptions, defaults), BuiltinNames[i] + Suffix(s), false) == Some((Driver(s, i), false))
  {
    assert HasDriver(global, i, s);
  }

  /** Once loaded, each built-in alias forwards from the prototype, closing over the options of `aliases.js`. */
  lemma FreshInstanceRunsAlias(global: Entries, cells: Cells, instanceOptions: Options, defaults: Options, j: nat, s: Shape)
    requires Loaded(global, cells) && j < |BuiltinAliases|
    ensures var (a, u, o) := BuiltinAliases[j];
      Lookup(Context(map[], global, instanceOptions, defaults), a + Suffix(s), false) == Some((AliasFor(s, a, u), false))
      && CellOf(CallState([], [], map[], cells), a, false) == o
  {
    assert HasForward(global, j, s);
    assert HasCell(cells, j);
  }

  /**
   * `positiveInt(key, data)` on a fresh instance, first call: the `num`
   * driver on the prototype with `integer`, `rangeMin: 1` and `minEq`
   * over the instance's and the default options.
   */
  lemma PositiveIntIsNum(global: Entries, cells: Cells, io: Options, defaults: Options, key: string, data: Value,
                         host: Env, fuel: nat)
    requires Loaded(global, cells) && fuel > 0
    ensures var cx := Context(map[], global, io, defaults);
      var st := CallState([], [], map[], cells);
      var aliasOptions := BuiltinAliases[1].2;
      Call(cx, st, "positiveInt", false, key, data, map[], host, fuel)
      == DriverCall(cx, WithCell(st, "positiveInt", false, aliasOptions), Scalar, 2, key, data, aliasOptions, host)
  {
    var cx := Context(map[], global, io, defaults);
    var st := CallState([], [], map[], cells);
    FreshInstanceRunsAlias(global, cells, io, defaults, 1, Scalar);
    assert "positiveInt" + Suffix(Scalar) == "positiveInt";
    assert "num" + Suffix(Scalar) == "num";
    ExtendEmpty(BuiltinAliases[1].2);
    AliasCallForwards(cx, st, Scalar, "positiveInt", "num", false, key, data, map[], host, fuel);
    FreshInstanceRunsBuiltin(global, cells, io, defaults, 2, Scalar);
  }
}
