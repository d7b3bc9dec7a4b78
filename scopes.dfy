/**
 * The name tables behind the facade: which validator, alias and schema
 * names exist on `Validator.prototype` (the global scope) and on one
 * instance (its own properties), the checks `addValidator`, `addAlias` and
 * `addSchema` run before installing a name, and what calling a name does.
 *
 * Every function here is the specification the methods of the Facade
 * module are proved against.
 */
module Scopes {
  import opened Wrappers
  import opened JsValues
  import opened Host
  import opened Definitions
  import opened Resolve
  import opened Drivers

  /** Why a facade operation throws. */
  datatype Failure =
    | InvalidName                        // addValidator: the name is not a non-empty string
    | DefinitionNotFunction              // addValidator: the definition is not a function
    | NotAnInstance                      // addValidator: the target is not a Validator
    | AlreadyDefined(name: string)       // a name to install is taken
    | MethodUndefined(name: string)      // addAlias: an entry point of the aliased validator is missing
    | SchemaAlreadyDefined(name: string) // addSchema: the schema name is taken
    | SchemaNotFound                     // schema: no schema of that name
    | BaseNotObject                      // valid: the base is neither undefined nor a plain object
    | NotAFunction(name: string)         // calling a name that holds no validator
    | PropertyOfNullish                  // reading a property of undefined or null
    | Threw(e: Exception)                // a validator definition threw
    | StackOverflow                      // an alias chain that does not end

  /**
   * What an installed name does: run a driver over a definition, or forward
   * to the entry point of the same shape of another name (an alias).
   */
  datatype Handler =
    | Driver(shape: Shape, def: nat)
    | AliasFor(shape: Shape, alias: string, underlying: string)

  type Entries = map<string, Handler>

  /** The options object each alias closes over, by alias name. */
  type Cells = map<string, Options>

  /** Normalized schema definitions, by schema name. */
  type Schemas = map<string, Record>

  function Suffix(shape: Shape): string {
    match shape
    case Scalar => ""
    case ArrayShape => "Array"
    case ObjectShape => "Object"
  }

  /** The methods `Validator.prototype` defines itself. */
  const FacadeMembers: set<string> := {
    "constructor", "errors", "valid", "reset", "resetErrors", "resetValid",
    "addValidator", "addAlias", "schema", "addSchema"
  }

  /** The properties every plain object inherits from `Object.prototype`. */
  const ObjectMembers: set<string> := {
    "constructor", "hasOwnProperty", "isPrototypeOf", "propertyIsEnumerable",
    "toLocaleString", "toString", "valueOf", "__defineGetter__", "__defineSetter__",
    "__lookupGetter__", "__lookupSetter__", "__proto__"
  }

  /** The own properties the constructor gives every instance. */
  const InstanceFields: set<string> := {"options", "ok", "wrong", "schemaList"}

  /** The names that read as truthy on `Validator.prototype`. */
  function PrototypeTaken(global: Entries): set<string> {
    FacadeMembers + ObjectMembers + global.Keys
  }

  /** The names that read as truthy on an instance: its own, then the prototype's. */
  function InstanceTaken(local: Entries, global: Entries): set<string> {
    InstanceFields + local.Keys + PrototypeTaken(global)
  }

  /** The first of `name`, `nameArray`, `nameObject` that is taken. */
  function FirstTaken(name: string, taken: set<string>): (r: Option<string>)
    ensures r.None? <==> forall s: Shape :: name + Suffix(s) !in taken
    ensures r.Some? ==> r.value in taken && exists s: Shape :: r.value == name + Suffix(s)
  {
    assert name + Suffix(Scalar) == name;
    if name in taken then Some(name)
    else if name + Suffix(ArrayShape) in taken then Some(name + Suffix(ArrayShape))
    else if name + Suffix(ObjectShape) in taken then Some(name + Suffix(ObjectShape))
    else None
  }

  /** The first of `name`, `nameArray`, `nameObject` that is NOT taken. */
  function FirstMissing(name: string, taken: set<string>): (r: Option<string>)
    ensures r.None? <==> forall s: Shape :: name + Suffix(s) in taken
    ensures r.Some? ==> r.value !in taken && exists s: Shape :: r.value == name + Suffix(s)
  {
    assert name + Suffix(Scalar) == name;
    if name !in taken then Some(name)
    else if name + Suffix(ArrayShape) !in taken then Some(name + Suffix(ArrayShape))
    else if name + Suffix(ObjectShape) !in taken then Some(name + Suffix(ObjectShape))
    else None
  }

  /** Where `addValidator` installs: the prototype, the instance passed, or something else. */
  datatype Target = ToPrototype | ToInstance | ToOther

  // ---------------------------------------------------------------------------
  // addValidator
  // ---------------------------------------------------------------------------

  /** The checks of `addValidator`, in the order it makes them. */
  function ValidatorCheck(name: Value, definition: Value, target: Target, taken: set<string>, allowOverwrite: bool): (r: Option<Failure>)
    ensures r.None? <==>
      name.Str? && name.s != "" && definition.Fn? && target != ToOther &&
      (allowOverwrite || forall s: Shape :: name.s + Suffix(s) !in taken)
    ensures r == Some(InvalidName) <==> !name.Str? || name.s == ""
    ensures r.Some? && r.value.AlreadyDefined? ==>
      !allowOverwrite && r.value.name in taken && exists s: Shape :: r.value.name == name.s + Suffix(s)
  {
    if !name.Str? || name.s == "" then Some(InvalidName)
    else if !definition.Fn? then Some(DefinitionNotFunction)
    else if target == ToOther then Some(NotAnInstance)
    else if allowOverwrite then None
    else match FirstTaken(name.s, taken)
      case Some(n) => Some(AlreadyDefined(n))
      case None => None
  }

  /** The three entry points of a definition, each driving it over its shape. */
  function InstallDriver(entries: Entries, name: string, def: nat): (r: Entries)
    ensures forall s: Shape :: name + Suffix(s) in r && r[name + Suffix(s)] == Driver(s, def)
    ensures r.Keys == entries.Keys + {name, name + "Array", name + "Object"}
    ensures forall k :: k in entries && k != name && k != name + "Array" && k != name + "Object" ==> r[k] == entries[k]
  {
    assert name + Suffix(Scalar) == name;
    assert |name + "Array"| != |name + "Object"|;
    entries[name := Driver(Scalar, def)][name + "Array" := Driver(ArrayShape, def)][name + "Object" := Driver(ObjectShape, def)]
  }

  /** `addValidator(name, definition)` on a table: the new table, or why it throws. */
  function ValidatorAdded(entries: Entries, name: Value, definition: Value, target: Target, taken: set<string>, allowOverwrite: bool): Result<Entries, Failure> {
    match ValidatorCheck(name, definition, target, taken, allowOverwrite)
    case Some(f) => Err(f)
    case None => Ok(InstallDriver(entries, name.s, definition.id))
  }

  /** A non-empty name whose three entry points are all free installs a function definition. */
  lemma FreeNameInstalls(entries: Entries, name: string, def: nat, target: Target, taken: set<string>, allowOverwrite: bool)
    requires name != "" && target != ToOther
    requires allowOverwrite || forall s: Shape :: name + Suffix(s) !in taken
    ensures ValidatorAdded(entries, Str(name), Fn(def), target, taken, allowOverwrite) == Ok(InstallDriver(entries, name, def))
  {
  }

  // ---------------------------------------------------------------------------
  // addAlias
  // ---------------------------------------------------------------------------

  /** The checks of `addAlias`: the aliased validator first, then the alias's own names. */
  function AliasCheck(alias: string, underlying: string, taken: set<string>, allowOverwrite: bool): (r: Option<Failure>)
    ensures r.None? <==>
      (forall s: Shape :: underlying + Suffix(s) in taken) &&
      (allowOverwrite || forall s: Shape :: alias + Suffix(s) !in taken)
    ensures r.Some? && r.value.MethodUndefined? ==> r.value.name !in taken
    ensures r.Some? && r.value.AlreadyDefined? ==>
      !allowOverwrite && (forall s: Shape :: underlying + Suffix(s) in taken) && r.value.name in taken
  {
    match FirstMissing(underlying, taken)
    case Some(n) => Some(MethodUndefined(n))
    case None =>
      if allowOverwrite then None
      else match FirstTaken(alias, taken)
        case Some(n) => Some(AlreadyDefined(n))
        case None => None
  }

  /** The three entry points of an alias, each forwarding to the same shape. */
  function InstallAlias(entries: Entries, alias: string, underlying: string): (r: Entries)
    ensures forall s: Shape :: alias + Suffix(s) in r && r[alias + Suffix(s)] == AliasFor(s, alias, underlying)
    ensures r.Keys == entries.Keys + {alias, alias + "Array", alias + "Object"}
    ensures forall k :: k in entries && k != alias && k != alias + "Array" && k != alias + "Object" ==> r[k] == entries[k]
  {
    assert alias + Suffix(Scalar) == alias;
    assert |alias + "Array"| != |alias + "Object"|;
    entries[alias := AliasFor(Scalar, alias, underlying)]
      [alias + "Array" := AliasFor(ArrayShape, alias, underlying)]
      [alias + "Object" := AliasFor(ObjectShape, alias, underlying)]
  }

  /** `addAlias(alias, underlying, options)` on a table and its cells. */
  function AliasAdded(entries: Entries, cells: Cells, alias: string, underlying: string, options: Options,
                      taken: set<string>, allowOverwrite: bool): Result<(Entries, Cells), Failure> {
    match AliasCheck(alias, underlying, taken, allowOverwrite)
    case Some(f) => Err(f)
    case None => Ok((InstallAlias(entries, alias, underlying), cells[alias := options]))
  }

  /** An alias of an existing validator whose own entry points are free is installed with its options. */
  lemma FreeAliasInstalls(entries: Entries, cells: Cells, alias: string, underlying: string, options: Options,
                          taken: set<string>, allowOverwrite: bool)
    requires forall s: Shape :: underlying + Suffix(s) in taken
    requires allowOverwrite || forall s: Shape :: alias + Suffix(s) !in taken
    ensures AliasAdded(entries, cells, alias, underlying, options, taken, allowOverwrite)
         == Ok((InstallAlias(entries, alias, underlying), cells[alias := options]))
  {
  }

  // ---------------------------------------------------------------------------
  // addSchema
  // ---------------------------------------------------------------------------

  /** The check of `addSchema`: only the schema list it adds to counts (with what every object inherits). */
  function SchemaCheck(name: string, schemas: Schemas, allowOverwrite: bool): (r: Option<Failure>)
    ensures r.Some? <==> !allowOverwrite && (name in schemas || name in ObjectMembers)
    ensures r.Some? ==> r == Some(SchemaAlreadyDefined(name))
  {
    if !allowOverwrite && (name in schemas || name in ObjectMembers) then Some(SchemaAlreadyDefined(name))
    else None
  }

  /** `{ validator: property.validator, options: property.options }` (None: the property is undefined or null). */
  function SchemaEntry(property: Value): (r: Option<Value>)
    ensures r.None? <==> property.Undefined? || property.Null?
    ensures property.Obj? ==> r == Some(Obj([("validator", Get(property.fields, "validator")),
                                            ("options", Get(property.fields, "options"))]))
  {
    match (PropertyOf(property, "validator"), PropertyOf(property, "options"))
    case (Some(v), Some(o)) => Some(Obj([("validator", v), ("options", o)]))
    case _ => None
  }

  /** The normalization loop of `addSchema` from entry `i`, building `definition`. */
  function NormalizedFrom(es: Record, i: nat, definition: Record): Option<Record>
    requires i <= |es|
    decreases |es| - i
  {
    if i == |es| then Some(definition)
    else match SchemaEntry(es[i].1)
      case None => None
      case Some(f) => NormalizedFrom(es, i + 1, Set(definition, es[i].0, f))
  }

  function Normalized(schema: Value): Option<Record> {
    NormalizedFrom(ForInEntries(schema), 0, [])
  }

  /** `addSchema(name, schema)` on a schema list. */
  function SchemaAdded(schemas: Schemas, name: string, schema: Value, allowOverwrite: bool): Result<Schemas, Failure> {
    match SchemaCheck(name, schemas, allowOverwrite)
    case Some(f) => Err(f)
    case None =>
      match Normalized(schema)
      case None => Err(PropertyOfNullish)
      case Some(d) => Ok(schemas[name := d])
  }

  // ---------------------------------------------------------------------------
  // Calling a name
  // ---------------------------------------------------------------------------

  /** What a call reads: the instance's and the prototype's tables, and both option layers below the call. */
  datatype Context = Context(local: Entries, global: Entries, instanceOptions: Options, defaults: Options)

  /** What a call changes: the instance's result store and the alias cells. */
  datatype CallState = CallState(ok: Record, wrong: Record, localCells: Cells, globalCells: Cells)

  /**
   * `target[name]`: the instance's own entry first unless the lookup starts
   * at the prototype; the flag says whether the entry found is the instance's.
   */
  function Lookup(cx: Context, name: string, globalOnly: bool): (r: Option<(Handler, bool)>)
    ensures r.None? <==> (globalOnly || name !in cx.local) && name !in cx.global
    ensures r.Some? && r.value.1 ==> !globalOnly && name in cx.local && r.value.0 == cx.local[name]
    ensures r.Some? && !r.value.1 ==> (globalOnly || name !in cx.local) && r.value.0 == cx.global[name]
  {
    if !globalOnly && name in cx.local then Some((cx.local[name], true))
    else if name in cx.global then Some((cx.global[name], false))
    else None
  }

  function CellOf(st: CallState, alias: string, isLocal: bool): Options {
    var cells := if isLocal then st.localCells else st.globalCells;
    if alias in cells then cells[alias] else map[]
  }

  function WithCell(st: CallState, alias: string, isLocal: bool, cell: Options): CallState {
    if isLocal then st.(localCells := st.localCells[alias := cell])
    else st.(globalCells := st.globalCells[alias := cell])
  }

  /** A driver's outcome applied to the store: the new `ok`, `wrong` and the exception, if any. */
  function Effect(ok: Record, wrong: Record, key: string, out: Outcome): (r: (Record, Record, Option<Exception>))
    ensures out.Raise? ==> r == (ok, wrong, Some(out.exception))
    ensures !out.Raise? ==> (r.0, r.1) == Stored(ok, wrong, key, out) && r.2.None?
  {
    if out.Raise? then (ok, wrong, Some(out.exception))
    else var (ok', wrong') := Stored(ok, wrong, key, out); (ok', wrong', None)
  }

  /**
   * `this[name](key, data, opts)`: a driver resolves the options and stores
   * its outcome; an alias first merges the call options into its cell (the
   * merge persists) and calls the same shape of the aliased name, looked up
   * from where the alias was installed. `fuel` bounds the chain of aliases.
   */
  function Call(cx: Context, st: CallState, name: string, globalOnly: bool, key: string, data: Value,
                opts: Options, host: Env, fuel: nat): (CallState, Option<Failure>)
    decreases fuel, 2
  {
    match Lookup(cx, name, globalOnly)
    case None => (st, Some(NotAFunction(name)))
    case Some((h, isLocal)) => Handle(cx, st, h, isLocal, key, data, opts, host, fuel)
  }

  /** What the entry point `h`, found locally (`isLocal`) or on the prototype, does when called. */
  function Handle(cx: Context, st: CallState, h: Handler, isLocal: bool, key: string, data: Value,
                  opts: Options, host: Env, fuel: nat): (CallState, Option<Failure>)
    decreases fuel, 1
  {
    match h
    case Driver(shape, def) => DriverCall(cx, st, shape, def, key, data, opts, host)
    case AliasFor(shape, alias, underlying) => AliasCall(cx, st, shape, alias, underlying, isLocal, key, data, opts, host, fuel)
  }

  /** A driver resolves the options and stores its outcome. */
  function DriverCall(cx: Context, st: CallState, shape: Shape, def: nat, key: string, data: Value,
                      opts: Options, host: Env): (CallState, Option<Failure>)
  {
    var o := Resolved(cx.defaults, cx.instanceOptions, opts);
    var e := Effect(st.ok, st.wrong, key, ShapeOutcome(shape, DefinitionOf(def, host), data, o, st.wrong == [], host));
    (st.(ok := e.0, wrong := e.1), if e.2.Some? then Some(Threw(e.2.value)) else None)
  }

  /** An alias merges the call options into its cell, then calls the same shape of the aliased name. */
  function AliasCall(cx: Context, st: CallState, shape: Shape, alias: string, underlying: string, isLocal: bool,
                     key: string, data: Value, opts: Options, host: Env, fuel: nat): (CallState, Option<Failure>)
    decreases fuel, 0
  {
    var merged := Extend(CellOf(st, alias, isLocal), opts);
    var st' := WithCell(st, alias, isLocal, merged);
    if fuel == 0 then (st', Some(StackOverflow))
    else Call(cx, st', underlying + Suffix(shape), !isLocal, key, data, merged, host, fuel - 1)
  }
  /** With fuel left, an alias call is the call of the aliased entry point with the merged cell. */
  lemma AliasCallForwards(cx: Context, st: CallState, shape: Shape, alias: string, underlying: string, isLocal: bool,
                          key: string, data: Value, opts: Options, host: Env, fuel: nat)
    requires fuel > 0
    ensures var merged := Extend(CellOf(st, alias, isLocal), opts);
      AliasCall(cx, st, shape, alias, underlying, isLocal, key, data, opts, host, fuel)
      == Call(cx, WithCell(st, alias, isLocal, merged), underlying + Suffix(shape), !isLocal, key, data, merged, host, fuel - 1)
  {
  }


  // ---------------------------------------------------------------------------
  // schema
  // ---------------------------------------------------------------------------

  /** `this.schemaList[name] || Validator.schemaList[name]`; a name every object inherits finds a schema without properties. */
  function SchemaLookup(local: Schemas, global: Schemas, name: string): (r: Option<Record>)
    ensures r.None? <==> name !in local && name !in ObjectMembers && name !in global
    ensures name in local ==> r == Some(local[name])
  {
    if name in local then Some(local[name])
    else if name in ObjectMembers then Some([])
    else if name in global then Some(global[name])
    else None
  }

  /** Property `i` of a schema: its validator, called on `data[key]` with its options. */
  function SchemaStep(cx: Context, st: CallState, definition: Record, i: nat, data: Value, host: Env, fuel: nat): (CallState, Option<Failure>)
    requires i < |definition|
  {
    var key := definition[i].0;
    var property := Get(definition, key);
    var validator := PropertyOf(property, "validator");
    var options := PropertyOf(property, "options");
    var item := PropertyOf(data, key);
    if validator.None? || options.None? || item.None? then (st, Some(PropertyOfNullish))
    else Call(cx, st, ToStr(validator.value, host.fnText), false, key, item.value, ToOptions(options.value), host, fuel)
  }

  /** The loop of `schema` from property `i`, ending at the first failure. */
  function SchemaRun(cx: Context, st: CallState, definition: Record, i: nat, data: Value, host: Env, fuel: nat): (CallState, Option<Failure>)
    requires i <= |definition|
    decreases |definition| - i
  {
    if i == |definition| then (st, None)
    else
      var r := SchemaStep(cx, st, definition, i, data, host, fuel);
      if r.1.Some? then r else SchemaRun(cx, r.0, definition, i + 1, data, host, fuel)
  }

  /** `schema(name, data)`: find the schema, reset the store, run it. */
  function SchemaCall(cx: Context, st: CallState, local: Schemas, global: Schemas, name: string, data: Value,
                      host: Env, fuel: nat): (CallState, Option<Failure>) {
    match SchemaLookup(local, global, name)
    case None => (st, Some(SchemaNotFound))
    case Some(d) => SchemaRun(cx, st.(ok := [], wrong := []), d, 0, data, host, fuel)
  }

  // ---------------------------------------------------------------------------
  // errors, valid
  // ---------------------------------------------------------------------------

  /** `base[k] = ok[k]` for every key of `ok` from index `i`. */
  function MergedFrom(base: Record, ok: Record, i: nat): Record
    requires i <= |ok|
    decreases |ok| - i
  {
    if i == |ok| then base else MergedFrom(Set(base, ok[i].0, Get(ok, ok[i].0)), ok, i + 1)
  }

  /** `valid(base)` for the instance options `o`. */
  function ValidOf(ok: Record, wrong: Record, o: Options, base: Value): Result<Value, Failure> {
    if base != Undefined && !base.Obj? then Err(BaseNotObject)
    else if !Flag(o, "returnNullOnErrors") || wrong == [] then
      if base.Obj? then Ok(Obj(MergedFrom(base.fields, ok, 0))) else Ok(Obj(ok))
    else Ok(Null)
  }
}
