/**
 * The `Validator` facade. `Registry` holds what the source keeps on the
 * constructor and its prototype: the global validator table (with the
 * alias option cells), the global schema list and `Validator.defaultOptions`.
 * A `Validator` instance holds its options, its result store (`ok`,
 * `wrong`), its own schema list and its own validator table.
 *
 * Every method that validates, dispatches or registers is proved against a
 * function of the Scopes or Drivers module: the state it leaves and the
 * error it throws are those the function computes from the state it
 * started in. The resets, `errors` and the constructors state their new
 * state directly.
 */
module Facade {
  import opened Wrappers
  import opened JsValues
  import opened Host
  import opened Definitions
  import opened Resolve
  import opened Transform
  import opened Drivers
  import opened Scopes
  import opened Startup

  /** The normalization loop of `addSchema`: `definition[key] = { validator, options }` for each property. */
  method NormalizeSchema(schema: Value) returns (r: Option<Record>)
    ensures r == Normalized(schema)
  {
    var es := ForInEntries(schema);
    var definition: Record := [];
    var i := 0;
    while i < |es|
      invariant 0 <= i <= |es|
      invariant NormalizedFrom(es, i, definition) == Normalized(schema)
    {
      var property := es[i].1;
      var validator := PropertyOf(property, "validator");
      var options := PropertyOf(property, "options");
      if validator.None? || options.None? {
        return None;
      }
      definition := Set(definition, es[i].0, Obj([("validator", validator.value), ("options", options.value)]));
      i := i + 1;
    }
    r := Some(definition);
  }

  /** The element loop of `validateArray`, over a copy (`data.slice()`) of the items. */
  method ArrayLoop(def: nat, items: seq<Value>, o: Options, host: Env) returns (s: Scan)
    ensures s == ScanArray(DefinitionOf(def, host), items, 0, None, o, host)
  {
    var val := new Value[|items|](j requires 0 <= j < |items| => items[j]);
    assert val[..] == items;
    var last: Option<DefResult> := None;
    var i := 0;
    while i < val.Length
      invariant 0 <= i <= val.Length
      invariant ScanArray(DefinitionOf(def, host), items, 0, None, o, host) == ScanArray(DefinitionOf(def, host), val[..], i, last, o, host)
    {
      ghost var cur := val[..];
      var x := val[i];
      var item := ApplyTransformation(x, Opt(o, "preTransformItem"), host);
      if item.Abrupt? {
        return ItemThrew;
      }
      var res := RunDefinition(def, item.value, o, host);
      if res.Abrupt? {
        return DefinitionThrew(res.exception);
      }
      if !res.value.valid {
        return Finished(Arr(val[..]), false, Some(res.value));
      }
      var v := if Flag(o, "canonize") then res.value.data else x;
      var post := ApplyTransformation(v, Opt(o, "postTransformItem"), host);
      if post.Abrupt? {
        return ItemThrew;
      }
      assert ItemStep(DefinitionOf(def, host), cur[i], o, host, Arr(cur)) == Next(post.value, res.value);
      val[i] := post.value;
      assert val[..] == cur[i := post.value];
      last := Some(res.value);
      i := i + 1;
    }
    s := Finished(Arr(val[..]), true, last);
  }

  /** The property loop of `validateObject`, over a deep copy of the object. */
  method ObjectLoop(def: nat, fields: Record, o: Options, host: Env) returns (s: Scan)
    ensures s == ScanObject(DefinitionOf(def, host), Keys(fields), DeepCopy(Obj(fields)).fields, 0, None, o, host)
  {
    var keys := Keys(fields);
    var val := DeepCopy(Obj(fields)).fields;
    var last: Option<DefResult> := None;
    var i := 0;
    while i < |keys|
      invariant 0 <= i <= |keys|
      invariant ScanObject(DefinitionOf(def, host), keys, DeepCopy(Obj(fields)).fields, 0, None, o, host) == ScanObject(DefinitionOf(def, host), keys, val, i, last, o, host)
    {
      var item := ApplyTransformation(Get(val, keys[i]), Opt(o, "preTransformItem"), host);
      if item.Abrupt? {
        return ItemThrew;
      }
      var res := RunDefinition(def, item.value, o, host);
      if res.Abrupt? {
        return DefinitionThrew(res.exception);
      }
      if !res.value.valid {
        return Finished(Obj(val), false, Some(res.value));
      }
      var v := if Flag(o, "canonize") then res.value.data else Get(val, keys[i]);
      var post := ApplyTransformation(v, Opt(o, "postTransformItem"), host);
      if post.Abrupt? {
        return ItemThrew;
      }
      val := Set(val, keys[i], post.value);
      last := Some(res.value);
      i := i + 1;
    }
    s := Finished(Obj(val), true, last);
  }

  /** `Validator` itself: its prototype's table, the global schemas and the default options. */
  class Registry {
    var entries: Entries
    var aliasOptions: Cells
    var schemaList: Schemas
    var defaultOptions: Options

    /** Loading the module: the built-in definitions, then the built-in aliases. */
    constructor ()
      ensures Loaded(entries, aliasOptions)
      ensures schemaList == map[] && defaultOptions == DefaultOptions
    {
      entries := map[];
      aliasOptions := map[];
      schemaList := map[];
      defaultOptions := DefaultOptions;
      new;
      LoadBuiltins();
      LoadAliases();
    }

    /** `addDefaultValidators`: every built-in definition, registered on the prototype. */
    method LoadBuiltins()
      requires entries.Keys == EntryKeys(0) && !Flag(defaultOptions, "allowOverwriteValidator")
      modifies this`entries
      ensures BuiltinsAt(entries, |BuiltinNames|)
    {
      var i := 0;
      while i < |BuiltinNames|
        invariant 0 <= i <= |BuiltinNames|
        invariant BuiltinsAt(entries, i)
      {
        LoadBuiltin(i);
        i := i + 1;
      }
    }

    /** `addDefaultAliases`: the aliases of `aliases.js`, registered on the prototype. */
    method LoadAliases()
      requires BuiltinsAt(entries, |BuiltinNames|)
      requires aliasOptions == map[] && !Flag(defaultOptions, "allowOverwriteValidator")
      modifies this`entries, this`aliasOptions
      ensures Loaded(entries, aliasOptions)
    {
      AliasesStart(entries, aliasOptions);
      var j := 0;
      while j < |BuiltinAliases|
        invariant 0 <= j <= |BuiltinAliases|
        invariant AliasesAt(entries, aliasOptions, j)
      {
        LoadAlias(j);
        j := j + 1;
      }
    }

    /** One turn of `addDefaultValidators`: the `i`-th built-in, which never collides. */
    method LoadBuiltin(i: nat)
      requires i < |BuiltinNames| && BuiltinsAt(entries, i)
      requires !Flag(defaultOptions, "allowOverwriteValidator")
      modifies this`entries
      ensures BuiltinsAt(entries, i + 1)
    {
      BuiltinsStep(entries, i);
      BuiltinStep(i, entries);
      var f := AddValidator(Str(BuiltinNames[i]), Fn(i));
    }

    /** One turn of `addDefaultAliases`: the `j`-th alias of `aliases.js`, which never collides. */
    method LoadAlias(j: nat)
      requires j < |BuiltinAliases| && AliasesAt(entries, aliasOptions, j)
      requires !Flag(defaultOptions, "allowOverwriteValidator")
      modifies this`entries, this`aliasOptions
      ensures AliasesAt(entries, aliasOptions, j + 1)
    {
      AliasesStep(entries, aliasOptions, j);
      var (alias, underlying, options) := BuiltinAliases[j];
      AliasStep(j, entries, aliasOptions);
      var f := AddAlias(alias, underlying, options);
    }

    /** `Validator.addValidator(name, definition)`: install on the prototype, checked against it. */
    method AddValidator(name: Value, definition: Value) returns (f: Option<Failure>)
      modifies this`entries
      ensures match ValidatorAdded(old(entries), name, definition, ToPrototype, PrototypeTaken(old(entries)),
                                   Flag(defaultOptions, "allowOverwriteValidator"))
              case Ok(e) => f.None? && entries == e
              case Err(x) => f == Some(x) && entries == old(entries)
    {
      f := ValidatorCheck(name, definition, ToPrototype, PrototypeTaken(entries), Flag(defaultOptions, "allowOverwriteValidator"));
      if f.None? {
        entries := InstallDriver(entries, name.s, definition.id);
      }
    }

    /** `Validator.addAlias(alias, validatorName, options)` on the prototype. */
    method AddAlias(alias: string, validatorName: string, options: Options) returns (f: Option<Failure>)
      modifies this`entries, this`aliasOptions
      ensures match AliasAdded(old(entries), old(aliasOptions), alias, validatorName, options,
                               PrototypeTaken(old(entries)), Flag(defaultOptions, "allowOverwriteValidator"))
              case Ok(t) => f.None? && (entries, aliasOptions) == t
              case Err(x) => f == Some(x) && entries == old(entries) && aliasOptions == old(aliasOptions)
    {
      f := AliasCheck(alias, validatorName, PrototypeTaken(entries), Flag(defaultOptions, "allowOverwriteValidator"));
      if f.None? {
        entries := InstallAlias(entries, alias, validatorName);
        aliasOptions := aliasOptions[alias := options];
      }
    }

    /** `Validator.addSchema(name, schema)` into the global schema list. */
    method AddSchema(name: string, schema: Value) returns (f: Option<Failure>)
      modifies this`schemaList
      ensures match SchemaAdded(old(schemaList), name, schema, Flag(defaultOptions, "allowOverwriteValidator"))
              case Ok(s) => f.None? && schemaList == s
              case Err(x) => f == Some(x) && schemaList == old(schemaList)
    {
      f := SchemaCheck(name, schemaList, Flag(defaultOptions, "allowOverwriteValidator"));
      if f.Some? {
        return;
      }
      var d := NormalizeSchema(schema);
      if d.None? {
        return Some(PropertyOfNullish);
      }
      schemaList := schemaList[name := d.value];
    }
  }

  /** A `Validator` instance. */
  class Validator {
    const registry: Registry
    var options: Options
    var ok: Record
    var wrong: Record
    var schemaList: Schemas
    var entries: Entries
    var aliasOptions: Cells

    /** The fields `new Validator(options)` sets before loading `options.validators`. */
    constructor (registry: Registry, options: Value)
      ensures this.registry == registry
      ensures this.options == (if Truthy(options) then ToOptions(options) else map[])
      ensures ok == [] && wrong == [] && schemaList == map[] && entries == map[] && aliasOptions == map[]
    {
      this.registry := registry;
      this.options := if Truthy(options) then ToOptions(options) else map[];
      ok := [];
      wrong := [];
      schemaList := map[];
      entries := map[];
      aliasOptions := map[];
    }

    /** What a call on this instance reads. */
    function Cx(): Context
      reads this`entries, this`options, registry`entries, registry`defaultOptions
    {
      Context(entries, registry.entries, options, registry.defaultOptions)
    }

    /** What a call on this instance changes. */
    function State(): CallState
      reads this`ok, this`wrong, this`aliasOptions, registry`aliasOptions
    {
      CallState(ok, wrong, aliasOptions, registry.aliasOptions)
    }

    /** The options a driver validates with: defaults, then the instance's, then the call's. */
    function ResolvedOptions(callOptions: Options): Options
      reads this`options, registry`defaultOptions
    {
      Resolved(registry.defaultOptions, options, callOptions)
    }

    /** `store(this, key, original, canonized, valid)` */
    method Store(key: string, original: Value, canonized: Value, valid: bool)
      modifies this`ok, this`wrong
      ensures (ok, wrong) == Stored(old(ok), old(wrong), key, if valid then Accept(canonized) else Reject(original))
    {
      if valid {
        ok := Set(ok, key, canonized);
      } else {
        wrong := Set(wrong, key, original);
      }
    }

    /** `validateData(this, definition, key, data, callOptions)` */
    method ValidateData(def: nat, key: string, data: Value, callOptions: Options, host: Env) returns (exc: Option<Exception>)
      modifies this`ok, this`wrong
      ensures (ok, wrong, exc) == Effect(old(ok), old(wrong), key,
                DataOutcome(DefinitionOf(def, host), data, ResolvedOptions(callOptions), old(wrong) == [], host))
    {
      exc := ValidateScalar(def, key, data, Resolved(registry.defaultOptions, options, callOptions), host);
    }

    /** `validateData` once the options are resolved. */
    method ValidateScalar(def: nat, key: string, data: Value, o: Options, host: Env) returns (exc: Option<Exception>)
      modifies this`ok, this`wrong
      ensures (ok, wrong, exc) == Effect(old(ok), old(wrong), key, DataOutcome(DefinitionOf(def, host), data, o, old(wrong) == [], host))
    {
      if Flag(o, "stopAfterFirstError") && wrong != [] {
        return None;
      }
      var pre := ApplyTransformation(data, Opt(o, "preTransform"), host);
      if pre.Abrupt? {
        Store(key, data, data, false);
        return None;
      }
      var pre2 := ApplyTransformation(pre.value, Opt(o, "preTransformItem"), host);
      if pre2.Abrupt? {
        Store(key, pre.value, pre.value, false);
        return None;
      }
      exc := Decide(def, key, pre2.value, o, host);
    }

    /** `validateData` once the input `d` is pre-transformed: the definition, or the optional default. */
    method Decide(def: nat, key: string, d: Value, o: Options, host: Env) returns (exc: Option<Exception>)
      modifies this`ok, this`wrong
      ensures (ok, wrong, exc) == Effect(old(ok), old(wrong), key, DataAfterPre(DefinitionOf(def, host), d, o, host))
    {
      var res := Judge(def, d, o, host);
      if res.Abrupt? {
        return Some(res.exception);
      }
      var r := res.value;
      if !r.valid || r.data != Undefined || Flag(o, "returnUndefined") {
        Finalize(key, r, d, o, host);
      }
      return None;
    }

    /** The definition's result, or the default for an optional undefined input. */
    static method Judge(def: nat, d: Value, o: Options, host: Env) returns (res: Completion<DefResult>)
      ensures res == Verdict(DefinitionOf(def, host), d, o, host)
    {
      if d == Undefined && Flag(o, "optional") {
        res := Normal(DefResult(Opt(o, "defaultValue"), true));
      } else {
        res := RunDefinition(def, d, o, host);
      }
    }

    /** `validateData` after the definition: post-transformations and the store. */
    method Finalize(key: string, r: DefResult, d: Value, o: Options, host: Env)
      modifies this`ok, this`wrong
      ensures (ok, wrong) == Stored(old(ok), old(wrong), key, Finalized(r, d, o, host))
    {
      var td := if Flag(o, "canonize") then r.data else d;
      var post := ApplyTransformation(td, Opt(o, "postTransformItem"), host);
      if post.Abrupt? {
        Store(key, d, d, false);
        return;
      }
      var post2 := ApplyTransformation(post.value, Opt(o, "postTransform"), host);
      if post2.Abrupt? {
        Store(key, d, d, false);
        return;
      }
      Store(key, d, post2.value, r.valid);
    }

    /** After the element loop: the post-transformation of the copy and the store. */
    method Settle(key: string, d: Value, s: Scan, o: Options, host: Env) returns (exc: Option<Exception>)
      modifies this`ok, this`wrong
      ensures (ok, wrong, exc) == Effect(old(ok), old(wrong), key, Concluded(d, s, o, host))
    {
      match s {
        case ItemThrew =>
          Store(key, d, d, false);
          return None;
        case DefinitionThrew(e) =>
          return Some(e);
        case Finished(val, allOk, last) =>
          if (last.Some? && (!last.value.valid || last.value.data != Undefined)) || Flag(o, "returnUndefined") {
            Publish(key, d, val, allOk, o, host);
          }
          return None;
      }
    }

    /** The post-transformation of the copy and the store. */
    method Publish(key: string, d: Value, val: Value, allOk: bool, o: Options, host: Env)
      modifies this`ok, this`wrong
      ensures (ok, wrong) == Stored(old(ok), old(wrong), key, Published(d, val, allOk, o, host))
    {
      var post := ApplyTransformation(val, Opt(o, "postTransform"), host);
      if post.Abrupt? {
        Store(key, d, d, false);
        return;
      }
      Store(key, d, post.value, allOk);
    }

    /** `validateArray` (ArrayShape) or `validateObject` (ObjectShape) once the options are resolved. */
    method ValidateCollection(shape: Shape, def: nat, key: string, data: Value, o: Options, host: Env)
      returns (exc: Option<Exception>)
      requires shape != Scalar
      modifies this`ok, this`wrong
      ensures (ok, wrong, exc) == Effect(old(ok), old(wrong), key, CollectionOutcome(shape, DefinitionOf(def, host), data, o, old(wrong) == [], host))
    {
      if Flag(o, "stopAfterFirstError") && wrong != [] {
        return None;
      }
      var pre := ApplyTransformation(data, Opt(o, "preTransform"), host);
      if pre.Abrupt? {
        Store(key, data, data, false);
        return None;
      }
      var d := pre.value;
      var s: Scan;
      if shape == ArrayShape && d.Arr? {
        s := ArrayLoop(def, d.items, o, host);
      } else if shape == ObjectShape && d.Obj? {
        s := ObjectLoop(def, d.fields, o, host);
      } else if d == Undefined && Flag(o, "optional") {
        s := Finished(Opt(o, "defaultValue"), true, None);
      } else {
        s := Finished(Undefined, false, None);
      }
      exc := Settle(key, d, s, o, host);
    }

    /** `validateArray(this, definition, key, data, callOptions)` */
    method ValidateArray(def: nat, key: string, data: Value, callOptions: Options, host: Env) returns (exc: Option<Exception>)
      modifies this`ok, this`wrong
      ensures (ok, wrong, exc) == Effect(old(ok), old(wrong), key,
                CollectionOutcome(ArrayShape, DefinitionOf(def, host), data, ResolvedOptions(callOptions), old(wrong) == [], host))
    {
      exc := ValidateCollection(ArrayShape, def, key, data, Resolved(registry.defaultOptions, options, callOptions), host);
    }

    /** `validateObject(this, definition, key, data, callOptions)` */
    method ValidateObject(def: nat, key: string, data: Value, callOptions: Options, host: Env) returns (exc: Option<Exception>)
      modifies this`ok, this`wrong
      ensures (ok, wrong, exc) == Effect(old(ok), old(wrong), key,
                CollectionOutcome(ObjectShape, DefinitionOf(def, host), data, ResolvedOptions(callOptions), old(wrong) == [], host))
    {
      exc := ValidateCollection(ObjectShape, def, key, data, Resolved(registry.defaultOptions, options, callOptions), host);
    }

    /** The driver of the entry point of the given shape. */
    method Drive(shape: Shape, def: nat, key: string, data: Value, opts: Options, host: Env) returns (exc: Option<Exception>)
      modifies this`ok, this`wrong
      ensures (ok, wrong, exc) == Effect(old(ok), old(wrong), key,
                ShapeOutcome(shape, DefinitionOf(def, host), data, ResolvedOptions(opts), old(wrong) == [], host))
    {
      if shape == Scalar {
        exc := ValidateData(def, key, data, opts, host);
      } else if shape == ArrayShape {
        exc := ValidateArray(def, key, data, opts, host);
      } else {
        exc := ValidateObject(def, key, data, opts, host);
      }
    }

    /**
     * `this[name](key, data, opts)`, the lookup starting at the instance
     * (or at the prototype when `globalOnly`).
     */
    method Invoke(name: string, globalOnly: bool, key: string, data: Value, opts: Options, host: Env, fuel: nat)
      returns (f: Option<Failure>)
      modifies this`ok, this`wrong, this`aliasOptions, registry`aliasOptions
      ensures (State(), f) == Call(old(Cx()), old(State()), name, globalOnly, key, data, opts, host, fuel)
      ensures Cx() == old(Cx())
      decreases fuel, 2
    {
      var found := Lookup(Cx(), name, globalOnly);
      if found.None? {
        return Some(NotAFunction(name));
      }
      f := Dispatch(found.value.0, found.value.1, key, data, opts, host, fuel);
    }

    /** Calling the entry point `h` that the lookup found. */
    method Dispatch(h: Handler, isLocal: bool, key: string, data: Value, opts: Options, host: Env, fuel: nat)
      returns (f: Option<Failure>)
      modifies this`ok, this`wrong, this`aliasOptions, registry`aliasOptions
      ensures (State(), f) == Handle(old(Cx()), old(State()), h, isLocal, key, data, opts, host, fuel)
      ensures Cx() == old(Cx())
      decreases fuel, 1
    {
      match h {
        case Driver(shape, def) =>
          f := CallDriver(shape, def, key, data, opts, host);
        case AliasFor(shape, alias, underlying) =>
          f := CallAlias(shape, alias, underlying, isLocal, key, data, opts, host, fuel);
      }
    }

    /** A driver entry point: validate and store. */
    method CallDriver(shape: Shape, def: nat, key: string, data: Value, opts: Options, host: Env)
      returns (f: Option<Failure>)
      modifies this`ok, this`wrong
      ensures (State(), f) == DriverCall(old(Cx()), old(State()), shape, def, key, data, opts, host)
      ensures Cx() == old(Cx())
    {
      var exc := Drive(shape, def, key, data, opts, host);
      f := if exc.Some? then Some(Threw(exc.value)) else None;
    }

    /** An alias entry point: merge the call options into its cell, then call the aliased validator. */
    method CallAlias(shape: Shape, alias: string, underlying: string, isLocal: bool, key: string, data: Value,
                     opts: Options, host: Env, fuel: nat)
      returns (f: Option<Failure>)
      modifies this`ok, this`wrong, this`aliasOptions, registry`aliasOptions
      ensures (State(), f) == AliasCall(old(Cx()), old(State()), shape, alias, underlying, isLocal, key, data, opts, host, fuel)
      ensures Cx() == old(Cx())
      decreases fuel, 0
    {
      ghost var st := State();
      var merged := Extend(CellOf(State(), alias, isLocal), opts);
      SetCell(alias, isLocal, merged);
      if fuel == 0 {
        return Some(StackOverflow);
      }
      f := Invoke(underlying + Suffix(shape), !isLocal, key, data, merged, host, fuel - 1);
      AliasCallForwards(Cx(), st, shape, alias, underlying, isLocal, key, data, opts, host, fuel);
    }

    /** The alias's options cell, on the instance or on the prototype, set to `cell`. */
    method SetCell(alias: string, isLocal: bool, cell: Options)
      modifies this`aliasOptions, registry`aliasOptions
      ensures State() == WithCell(old(State()), alias, isLocal, cell)
      ensures Cx() == old(Cx())
    {
      if isLocal {
        aliasOptions := aliasOptions[alias := cell];
      } else {
        registry.aliasOptions := registry.aliasOptions[alias := cell];
      }
    }

    /** `errors()` */
    function Errors(): (r: Value)
      reads this`wrong
      ensures r == Null <==> wrong == []
      ensures r != Null ==> r == Obj(wrong)
    {
      if wrong == [] then Null else Obj(wrong)
    }

    /** `valid(base)` */
    method Valid(base: Value) returns (r: Result<Value, Failure>)
      ensures r == ValidOf(ok, wrong, options, base)
    {
      if base != Undefined && !base.Obj? {
        return Err(BaseNotObject);
      }
      if !Flag(options, "returnNullOnErrors") || wrong == [] {
        if base.Obj? {
          var merged := base.fields;
          var i := 0;
          while i < |ok|
            invariant 0 <= i <= |ok|
            invariant MergedFrom(merged, ok, i) == MergedFrom(base.fields, ok, 0)
          {
            merged := Set(merged, ok[i].0, Get(ok, ok[i].0));
            i := i + 1;
          }
          return Ok(Obj(merged));
        }
        return Ok(Obj(ok));
      }
      return Ok(Null);
    }

    /** `reset()` */
    method Reset()
      modifies this`ok, this`wrong
      ensures ok == [] && wrong == []
    {
      ok := [];
      wrong := [];
    }

    /** `resetErrors()` */
    method ResetErrors()
      modifies this`wrong
      ensures wrong == []
    {
      wrong := [];
    }

    /** `resetValid()` */
    method ResetValid()
      modifies this`ok
      ensures ok == []
    {
      ok := [];
    }

    /** `schema(name, data)`: every property of the schema validated from `data[key]`. */
    method Schema(name: string, data: Value, host: Env, fuel: nat) returns (f: Option<Failure>)
      modifies this`ok, this`wrong, this`aliasOptions, registry`aliasOptions
      ensures (State(), f) == SchemaCall(old(Cx()), old(State()), schemaList, registry.schemaList, name, data, host, fuel)
      ensures Cx() == old(Cx())
    {
      var found := SchemaLookup(schemaList, registry.schemaList, name);
      if found.None? {
        return Some(SchemaNotFound);
      }
      Reset();
      f := SchemaProperties(found.value, data, host, fuel);
    }

    /** The loop of `schema`: the properties in order, up to the first failure. */
    method SchemaProperties(definition: Record, data: Value, host: Env, fuel: nat) returns (f: Option<Failure>)
      modifies this`ok, this`wrong, this`aliasOptions, registry`aliasOptions
      ensures (State(), f) == SchemaRun(old(Cx()), old(State()), definition, 0, data, host, fuel)
      ensures Cx() == old(Cx())
    {
      ghost var cx := Cx();
      ghost var goal := SchemaRun(cx, State(), definition, 0, data, host, fuel);
      var i := 0;
      while i < |definition|
        invariant 0 <= i <= |definition|
        invariant Cx() == cx
        invariant SchemaRun(cx, State(), definition, i, data, host, fuel) == goal
      {
        f := SchemaProperty(definition, i, data, host, fuel);
        if f.Some? {
          return;
        }
        i := i + 1;
      }
      return None;
    }

    /** One property of a schema: look up its validator, options and value, and call it. */
    method SchemaProperty(definition: Record, i: nat, data: Value, host: Env, fuel: nat) returns (f: Option<Failure>)
      requires i < |definition|
      modifies this`ok, this`wrong, this`aliasOptions, registry`aliasOptions
      ensures (State(), f) == SchemaStep(old(Cx()), old(State()), definition, i, data, host, fuel)
      ensures Cx() == old(Cx())
    {
      var key := definition[i].0;
      var property := Get(definition, key);
      var validator := PropertyOf(property, "validator");
      var options := PropertyOf(property, "options");
      var item := PropertyOf(data, key);
      if validator.None? || options.None? || item.None? {
        return Some(PropertyOfNullish);
      }
      f := Invoke(ToStr(validator.value, host.fnText), false, key, item.value, ToOptions(options.value), host, fuel);
    }

    /** `addValidator(name, definition)` on this instance: checked against its own names and the prototype's. */
    method AddValidator(name: Value, definition: Value) returns (f: Option<Failure>)
      modifies this`entries
      ensures match ValidatorAdded(old(entries), name, definition, ToInstance, InstanceTaken(old(entries), registry.entries),
                                   Flag(options, "allowOverwriteValidator"))
              case Ok(e) => f.None? && entries == e
              case Err(x) => f == Some(x) && entries == old(entries)
    {
      f := ValidatorCheck(name, definition, ToInstance, InstanceTaken(entries, registry.entries), Flag(options, "allowOverwriteValidator"));
      if f.None? {
        entries := InstallDriver(entries, name.s, definition.id);
      }
    }

    /** `addAlias(alias, validatorName, options)` on this instance. */
    method AddAlias(alias: string, validatorName: string, aliasOpts: Options) returns (f: Option<Failure>)
      modifies this`entries, this`aliasOptions
      ensures match AliasAdded(old(entries), old(aliasOptions), alias, validatorName, aliasOpts,
                               InstanceTaken(old(entries), registry.entries), Flag(options, "allowOverwriteValidator"))
              case Ok(t) => f.None? && (entries, aliasOptions) == t
              case Err(x) => f == Some(x) && entries == old(entries) && aliasOptions == old(aliasOptions)
    {
      f := AliasCheck(alias, validatorName, InstanceTaken(entries, registry.entries), Flag(options, "allowOverwriteValidator"));
      if f.None? {
        entries := InstallAlias(entries, alias, validatorName);
        aliasOptions := aliasOptions[alias := aliasOpts];
      }
    }

    /** `addSchema(name, schema)` into this instance's schema list. */
    method AddSchema(name: string, schema: Value) returns (f: Option<Failure>)
      modifies this`schemaList
      ensures match SchemaAdded(old(schemaList), name, schema, Flag(options, "allowOverwriteValidator"))
              case Ok(s) => f.None? && schemaList == s
              case Err(x) => f == Some(x) && schemaList == old(schemaList)
    {
      f := SchemaCheck(name, schemaList, Flag(options, "allowOverwriteValidator"));
      if f.Some? {
        return;
      }
      var d := NormalizeSchema(schema);
      if d.None? {
        return Some(PropertyOfNullish);
      }
      schemaList := schemaList[name := d.value];
    }

    /** The loop of the constructor: each property of `options.validators` added to this instance. */
    method LoadValidators() returns (f: Option<Failure>)
      modifies this`entries
      ensures var vs := Opt(options, "validators");
              match Preloaded(old(entries), registry.entries, Flag(options, "allowOverwriteValidator"),
                              if Truthy(vs) then ForInEntries(vs) else [], 0)
              case Ok(e) => f.None? && entries == e
              case Err(x) => f.Some? && f.value == x
    {
      var vs := Opt(options, "validators");
      if !Truthy(vs) {
        return None;
      }
      var es := ForInEntries(vs);
      var i := 0;
      while i < |es|
        invariant 0 <= i <= |es|
        invariant Preloaded(entries, registry.entries, Flag(options, "allowOverwriteValidator"), es, i)
               == Preloaded(old(entries), registry.entries, Flag(options, "allowOverwriteValidator"), es, 0)
      {
        f := AddValidator(Str(es[i].0), es[i].1);
        if f.Some? {
          return;
        }
        i := i + 1;
      }
      return None;
    }
  }

  /** The registrations of `options.validators` from entry `i`, each on the instance, stopping at the first throw. */
  function Preloaded(local: Entries, global: Entries, allowOverwrite: bool, es: Record, i: nat): Result<Entries, Failure>
    requires i <= |es|
    decreases |es| - i
  {
    if i == |es| then Ok(local)
    else match ValidatorAdded(local, Str(es[i].0), es[i].1, ToInstance, InstanceTaken(local, global), allowOverwrite)
      case Err(f) => Err(f)
      case Ok(next) => Preloaded(next, global, allowOverwrite, es, i + 1)
  }

  /** `new Validator(options)`: the instance, or what its constructor throws. */
  method NewValidator(registry: Registry, options: Value) returns (v: Validator, f: Option<Failure>)
    ensures fresh(v) && v.registry == registry
    ensures v.options == (if Truthy(options) then ToOptions(options) else map[])
    ensures v.ok == [] && v.wrong == [] && v.schemaList == map[] && v.aliasOptions == map[]
    ensures var vs := Opt(v.options, "validators");
            match Preloaded(map[], registry.entries, Flag(v.options, "allowOverwriteValidator"),
                            if Truthy(vs) then ForInEntries(vs) else [], 0)
            case Ok(e) => f.None? && v.entries == e
            case Err(x) => f == Some(x)
  {
    v := new Validator(registry, options);
    f := v.LoadValidators();
  }
}
