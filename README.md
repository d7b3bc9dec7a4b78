# bulk-validator, modelled in Dafny

This project models the core of the JavaScript `bulk-validator` library.

- A `Validator` instance keeps two result records: `ok` for accepted values and `wrong` for rejected ones.
- Each validation call runs one validator definition `(data, options) -> { data, valid }` over a field and records the outcome under the field's key. The definition runs over a single value (`validateData`), over the elements of an array (`validateArray`) or over the values of a plain object (`validateObject`).
- Options are resolved per call from three layers: the library defaults, the instance's options and the call's options.
- Pre- and post-transformations wrap the definition, and an exception in any of them becomes a rejection.
- Every registered validator name `n` gets three entry points: `n`, `nArray` and `nObject`.
- Aliases and schemas can be registered globally (on the prototype) or on one instance. An instance looks a name up in its own table first, then on the prototype.
- The built-in definitions are modelled too: `defined`, `bool`, `num`, `str`, `fn`, `enumerated`, `enumeratedKey`, `enumeratedKeyValue` and `json`.

Layout:

| file | module | what it holds |
|---|---|---|
| `wrappers.dfy` | `Wrappers` | `Option`, `Result` |
| `js_values.dfy` | `JsValues` | JavaScript values; `Get`/`Set` on ordered records; truthiness; `String()`, `Number()`, `===`, `==`; the 32-bit truncation; the deep copy made by `extend(true, {}, x)` |
| `host.dfy` | `Host` | what the library receives from outside: caller-supplied functions, regular expressions, `truncate`, `JSON.parse` |
| `definitions.dfy` | `Definitions` | the built-in definitions, as functions and as the step-by-step methods the source writes |
| `resolve.dfy` | `Resolve` | the `extend` merge and per-call option resolution |
| `transform.dfy` | `Transform` | `applyTransformation` |
| `drivers.dfy` | `Drivers` | what `store`, `validateData`, `validateArray` and `validateObject` record, as functions |
| `driver_laws.dfy` | `DriverLaws` | what the drivers promise |
| `scopes.dfy` | `Scopes` | name tables, registration checks, dispatch of calls and aliases, `schema`, `valid` |
| `startup.dfy` | `Startup` | loading the built-in definitions and `src/aliases.js`, proved never to collide |
| `facade.dfy` | `Facade` | the `Registry` class (prototype, global schema list, `defaultOptions`) and the `Validator` class; each method is proved against the functions above |
| `facade_laws.dfy` | `FacadeLaws` | laws of registration, alias calls, `schema` and `valid` |

JavaScript values are the datatype `JsValues.Value`. A plain object is the ordered list of its own properties, in `for…in` order. `ok` and `wrong` are such records, not maps, because `errors()` and `valid()` hand out the objects themselves and `valid(base)` copies `ok` in enumeration order. Assignment `obj[k] = v` is `JsValues.Set`: an existing key keeps its place and a new key goes at the end (JavaScript's ordering of integer-like keys is not modelled; see "Left out"). A function value is `Fn(id)`. Ids 0 to 8 are the built-in definitions in the order of `src/definitions.js:11-21`. Any other id is a caller-supplied function, and its behaviour is a parameter (`Host.Env`).

The model keeps these behaviours of the code as written, including where a tidier design would differ:

- `store` writes one record only, so a key may be in both `ok` and `wrong` (`src/index.js:51-57`).
- An alias call merges the call options into the alias's saved options, and the merged options persist into later calls (`src/index.js:604`). They are not merged fresh on each call.
- `valid(base)` writes the accepted values into `base` itself and returns `base`. It does not copy `base` first.
- `valid()` reads only the instance's own `returnNullOnErrors`, never the library defaults (`src/index.js:359`). So on `new Validator()` with errors present, `valid()` returns `ok`, not `null`.
- Options have three layers: defaults, instance options and call options. An alias's saved options enter as call options.
- `addValidator` checks only that the name is a non-empty string, not that it is identifier-like.
- `addSchema` ignores its `options` argument (`src/index.js:692-711`), so the model's `AddSchema` does not take one.
- `validateData` runs `preTransformItem` before the optional check (`src/index.js:107-114`).
- The doc comment of `returnUndefined` (`src/index.js:31`) says undefined values are left out of `valid()` when the option is true. The code does the opposite: a valid undefined result is stored only when `returnUndefined` is true (`src/index.js:123`, `src/index.js:208`, `src/index.js:288`). The model follows the code.
- `validateArray` and `validateObject` decide whether to store from `res`, the last definition result. For an input of the wrong kind no definition runs and `res` is unset, so with `returnUndefined` off nothing is recorded at all (`src/index.js:204-208`, `DriverLaws.WrongKindRejected`).

## Model

| member | source | states |
|---|---|---|
| `Drivers.Stored` | src/index.js:51-57 | an accepted outcome sets `ok[key]` and leaves `wrong` unchanged; a rejected one sets `wrong[key]` and leaves `ok` unchanged; a skipped one changes neither |
| `Facade.Validator.Store` | src/index.js:51-57 | the store method's new `ok`/`wrong` are exactly `Stored` of the old ones |
| `JsValues.Set` | src/index.js:53-55 | after `obj[k] = v`, `k` reads as `v` and every other key reads as before; an existing key keeps its position, a new key is appended (integer-like keys included, see Left out) |
| `JsValues.PropertyOf` | src/index.js:468 | `data[key]` throws for undefined or null data, reads an object's property, and gives an array's or a string's `length` |
| `JsValues.PropertyOfForInEntry` | src/index.js:468 | for an array or a string, reading each key `for…in` yields gives the element (or one-character string) it yields with it |
| `JsValues.SetKeepsKeysUnique` | src/index.js:53-55 | assignment never creates a second property with the same name |
| `Transform.ApplyTransformation` | src/index.js:66-82 | the loop returns what `Transformed` specifies: a falsy transformation is the identity, a list is applied left to right, anything else is called once |
| `Transform.ChainComposes` | src/index.js:73-76 | applying the list `f + g` is applying `f`, then `g` to its result; an exception in `f` ends the chain |
| `Transform.SingleIsListOfOne` | src/index.js:77-79 | a single function and the one-element list holding it transform alike |
| `Transform.AbsentIsIdentity` | src/index.js:69-71 | a falsy transformation and the empty list return the value unchanged |
| `Transform.NonFunctionThrows` | src/index.js:78 | calling a truthy non-function, non-array transformation throws a TypeError |
| `Resolve.Extend` | src/index.js:100 | after `extend(target, source)`, each key reads as the source's value when that is defined, else as the target's |
| `Resolve.Resolved` | src/index.js:100 | each resolved option is the first defined value among call, instance and default layers |
| `Resolve.ExtendIdempotent` | src/index.js:604 | merging the same call options into an alias's saved options twice is the same as merging them once |
| `Resolve.ExtendEmpty` | src/index.js:604 | merging absent call options leaves an alias's saved options unchanged |
| `Resolve.ExtendAssociative` | src/index.js:100 | two successive merges read like one merge of the later layer over the earlier one |
| `DriverLaws.StopAfterFirstErrorSkips` | src/index.js:102-104 | with `stopAfterFirstError` set and `wrong` non-empty, all three drivers store nothing |
| `DriverLaws.OptionalScalar` | src/index.js:114-124 | an optional undefined scalar is valid without running the definition; it stores `defaultValue` (or undefined when `canonize` is off), and nothing when that is undefined and `returnUndefined` is off |
| `DriverLaws.ScalarVerdict` | src/index.js:120-133 | otherwise an invalid result rejects the input; a valid one stores the canonical data, or the input when `canonize` is off; a valid undefined result is dropped unless `returnUndefined` is set |
| `DriverLaws.ScalarRejectionStoresInput` | src/index.js:106-131 | by the step that failed: a `preTransform` throw stores the original input, a `preTransformItem` throw stores the `preTransform` result, and any other rejection stores the result of both; never canonized data |
| `DriverLaws.ScalarNeverRaises` | src/index.js:106-131 | with a definition that does not throw, no exception from a transformation escapes `validateData` |
| `DriverLaws.TransformExceptionsNeverEscape` | src/index.js:164-213 | with a definition that does not throw, no entry point of any shape throws |
| `DriverLaws.CollectionNeverRaises` | src/index.js:164-196 | with a definition that does not throw, `validateArray`/`validateObject` never throw |
| `DriverLaws.CollectionRaises` | src/index.js:180 | when an array or object call throws, the exception came from the definition inside the element loop |
| `DriverLaws.BuiltinNeverThrows` | src/definitions.js:121-126 | the built-in definitions never throw, except the enumerated ones when `options.enumerated` is not an object and `num`/`str` when a `regExp` option is set |
| `DriverLaws.OptionalCollection` | src/index.js:198-203 | an optional undefined array or object is accepted as `defaultValue` when `returnUndefined` is set, and stores nothing otherwise |
| `DriverLaws.WrongKindRejected` | src/index.js:204-208 | a non-array (or non-object) that is not an optional undefined is rejected as given when `returnUndefined` is set; with it off, nothing is stored |
| `DriverLaws.CollectionRejectionStoresInput` | src/index.js:171-215 | an array or object rejection stores the original input when `preTransform` throws and the `preTransform` result whenever it succeeded, never the partly canonized copy |
| `DriverLaws.ArrayOutcomeIsScan` | src/index.js:171-216 | with no `preTransform`, the array driver's outcome is its element loop followed by the store step |
| `DriverLaws.ConcludedPlain` | src/index.js:208-216 | with no `postTransform`, the store step accepts exactly when the loop finished valid and the `res` condition holds, and the accepted value is the copy |
| `DriverLaws.ScanArrayOkIff` | src/index.js:173-197 | without item transforms, the element loop finishes valid exactly when every remaining element is valid |
| `DriverLaws.ScanArrayResult` | src/index.js:173-197 | when every remaining element is valid, the loop ends with the copy whose remaining slots hold the canonical forms |
| `DriverLaws.ArrayAcceptsIff` | src/index.js:171-216 | without transformations, an array is accepted exactly when every element is valid and the last `res` condition holds; the stored value is the element-wise canonical array, or the input itself when `canonize` is off |
| `DriverLaws.DefinedItems` | src/definitions.js:26-31 | under `defined`, every element is valid exactly when none is undefined, and canonizing changes nothing |
| `DriverLaws.DefinedArrayAcceptsIff` | src/index.js:171-216 | `definedArray` accepts exactly when no element is undefined (an empty array only with `returnUndefined`), and stores the input unchanged |
| `DriverLaws.ScanArrayReachesFailure` | src/index.js:182-185 | the loop reaches the first failing element and ends there, invalid |
| `DriverLaws.ArrayShortCircuit` | src/index.js:182-185 | once an element fails, later elements are never validated, even ones whose definition would throw; the whole input is rejected as given |
| `DriverLaws.ScanObjectOkIff` | src/index.js:254-277 | the property loop finishes valid exactly when every remaining property value of the copy is valid |
| `DriverLaws.ScanObjectResult` | src/index.js:254-277 | when every remaining property is valid, each one ends holding its canonical form |
| `DriverLaws.ObjectOutcomeIsScan` | src/index.js:241-296 | with no `preTransform`, the object driver's outcome is the loop over the deep copy followed by the store step |
| `DriverLaws.GetCopyFields` | src/index.js:253 | reading a property of the deep copy gives the deep copy of what the input holds there |
| `DriverLaws.ObjectAcceptance` | src/index.js:252-296 | an accepted object had every (deep-copied) property value valid; the stored object holds each property's canonical form, or the copy when `canonize` is off |
| `DriverLaws.ScanObjectLast` | src/index.js:259-266 | when every value passes, the loop ends with `res` holding the last property's result |
| `DriverLaws.ObjectAcceptsIff` | src/index.js:252-296 | without transformations, an object is accepted exactly when every deep-copied value is valid and either the last value's canonical data is defined or `returnUndefined` is on |
| `DriverLaws.ScanObjectReachesFailure` | src/index.js:263-266 | the property loop reaches the first failing value and ends there, invalid |
| `DriverLaws.ObjectShortCircuit` | src/index.js:263-266 | once a property's value fails, later properties are never validated, even ones whose definition would throw; the whole input is rejected as given |
| `Facade.ArrayLoop` | src/index.js:172-197 | the loop over `data.slice()` with its `break` computes `ScanArray` |
| `Facade.ObjectLoop` | src/index.js:253-277 | the loop over the input's keys, reading and writing the deep copy `extend(true, {}, data)`, computes `ScanObject`; a key whose value is undefined is absent from the copy, still visited, and written back at the end |
| `Facade.Validator.ValidateData` | src/index.js:96-134 | the new `ok`/`wrong`, and any exception thrown, are `DataOutcome` of the resolved options applied by `store` |
| `Facade.Validator.ValidateScalar` | src/index.js:102-112 | the guard and the pre-transforms, then the rest of `validateData` |
| `Facade.Validator.Decide` | src/index.js:114-133 | the verdict, the `returnUndefined` store condition and the post-transforms |
| `Facade.Validator.Judge` | src/index.js:114-121 | the definition's result, or `{ defaultValue, true }` for an optional undefined input |
| `Facade.Validator.Finalize` | src/index.js:124-132 | canonize choice, post-transforms, and a rejection of the pre-transformed input if one throws |
| `Facade.Validator.ValidateArray` | src/index.js:150-217 | the new `ok`/`wrong` are `CollectionOutcome(ArrayShape, …)` applied by `store` |
| `Facade.Validator.ValidateObject` | src/index.js:232-297 | the new `ok`/`wrong` are `CollectionOutcome(ObjectShape, …)` applied by `store` |
| `Facade.Validator.ValidateCollection` | src/index.js:158-206 | the shared body of the two collection drivers, once options are resolved |
| `Facade.Validator.Settle` | src/index.js:208-216 | after the loop: an item-transform throw rejects the input, a definition throw propagates, otherwise the `res` condition decides whether to store |
| `Facade.Validator.Publish` | src/index.js:209-215 | `postTransform` of the copy, then the store; a throw rejects the input |
| `Facade.Validator.Drive` | src/index.js:526-541 | the entry point of each shape runs its driver |
| `Scopes.Lookup` | src/index.js:605 | `target[name]` finds the instance's own entry first, then the prototype's; nothing when neither table has it (the facade's own methods are not entries, see Left out) |
| `Scopes.Effect` | src/index.js:51-57 | a driver outcome either throws, leaving the store alone, or is applied by `store` |
| `Scopes.AliasCallForwards` | src/index.js:603-618 | with fuel left, an alias call stores the merged options in its cell and calls the same shape of the aliased name, looked up from where the alias was installed |
| `Facade.Validator.Invoke` | src/index.js:526-541 | `this[name](key, data, opts)`: the new state and failure are those `Call` computes; the name tables and options are unchanged |
| `Facade.Validator.Dispatch` | src/index.js:526-541 | the entry point found runs as `Handle` specifies |
| `Facade.Validator.CallDriver` | src/index.js:526-541 | a driver entry point validates, stores and returns what `DriverCall` specifies |
| `Facade.Validator.CallAlias` | src/index.js:603-618 | an alias entry point does what `AliasCall` specifies |
| `Facade.Validator.SetCell` | src/index.js:604 | the alias's saved options, on the instance or on the prototype, are reassigned |
| `FacadeLaws.AliasOverridePersists` | src/index.js:603-606 | an alias call validates with its saved options merged under the call's options, and leaves that merge in its cell for later calls |
| `FacadeLaws.GlobalCallKeepsLocalCells` | src/index.js:605 | a call looked up on the prototype alone never touches the instance's alias cells |
| `FacadeLaws.GlobalHandleKeepsLocalCells` | src/index.js:603-618 | a prototype entry point, driver or alias, leaves the instance's alias cells alone |
| `FacadeLaws.DriverCallKeepsCells` | src/index.js:526-541 | a driver changes only the result store |
| `Facade.Validator.Errors` | src/index.js:331-333 | `errors()` is null exactly when `wrong` is empty, and `wrong` otherwise |
| `Facade.Validator.Valid` | src/index.js:351-371 | `valid(base)` returns what `ValidOf` specifies; the merge loop copies `ok` into `base` key by key |
| `FacadeLaws.ValidResult` | src/index.js:351-371 | a non-object `base` throws; null exactly when the instance's own `returnNullOnErrors` is set and `wrong` is non-empty; otherwise `ok`, or `base` with every key of `ok` overwritten and its other keys kept |
| `FacadeLaws.MergedReads` | src/index.js:361-363 | after the copy loop, keys of `ok` read as in `ok` and all others as in `base` |
| `Facade.Validator.Reset` | src/index.js:380-385 | `ok` and `wrong` become empty |
| `Facade.Validator.ResetErrors` | src/index.js:394-398 | `wrong` becomes empty |
| `Facade.Validator.ResetValid` | src/index.js:407-411 | `ok` becomes empty |
| `Scopes.SchemaLookup` | src/index.js:457-463 | the instance's schema first, then one inherited from `Object.prototype`, then the global one; none exactly when the name is in none of them |
| `Facade.Validator.Schema` | src/index.js:456-472 | an unknown name fails with `SchemaNotFound`; otherwise the store is reset and the schema run as `SchemaCall` specifies |
| `Facade.Validator.SchemaProperties` | src/index.js:466-469 | the schema's properties in order, up to the first failure |
| `Facade.Validator.SchemaProperty` | src/index.js:467-468 | one property: its validator is called with `data[key]` and the property's own options |
| `FacadeLaws.SchemaIgnoresOtherKeys` | src/index.js:466-469 | data keys outside the schema never affect the run |
| `FacadeLaws.SchemaResetsFirst` | src/index.js:465 | what the store held before a schema run does not change the run's result |
| `Scopes.FirstTaken` | src/index.js:561-573 | the first of `name`, `nameArray`, `nameObject` that is taken; none exactly when all three are free |
| `Scopes.FirstMissing` | src/index.js:623-633 | the first of the three underlying entry points that is missing; none exactly when all three exist |
| `Scopes.ValidatorCheck` | src/index.js:546-573 | `addValidator` succeeds exactly for a non-empty string name, a function definition, a prototype or instance target, and (without `allowOverwriteValidator`) three free names; a collision names a taken entry point |
| `Scopes.InstallDriver` | src/index.js:578-580 | installs exactly the three entry points, each driving the definition over its shape, and keeps every other entry |
| `Scopes.FreeNameInstalls` | src/index.js:546-580 | a valid name with all three entry points free is installed |
| `Facade.Registry.AddValidator` | src/index.js:519-581 | `Validator.addValidator` changes the prototype's table, or throws and leaves it unchanged, as `ValidatorAdded` specifies |
| `Facade.Validator.AddValidator` | src/index.js:423-427 | the instance form, checked against the instance's own names and the prototype's |
| `FacadeLaws.ValidatorTwiceFails` | src/index.js:561-573 | a name registered on the prototype cannot be registered there again without `allowOverwriteValidator` |
| `FacadeLaws.InstanceValidatorTwiceFails` | src/index.js:561-573 | the same holds on an instance |
| `FacadeLaws.InstanceSeesPrototype` | src/index.js:562 | when one of a name's entry points exists on the prototype, registering a function under that non-empty name on an instance, or aliasing any validator the instance sees to it, fails with `AlreadyDefined` on one of the name's entry points |
| `Scopes.AliasCheck` | src/index.js:623-650 | `addAlias` succeeds exactly when all three underlying entry points exist and (without `allowOverwriteValidator`) all three alias names are free |
| `Scopes.InstallAlias` | src/index.js:655-657 | installs exactly the three forwarding entry points and keeps every other entry |
| `Scopes.FreeAliasInstalls` | src/index.js:623-657 | an alias of an existing validator with free names is installed together with its options |
| `Facade.Registry.AddAlias` | src/index.js:594-658 | `Validator.addAlias` changes the prototype's table and alias cells as `AliasAdded` specifies |
| `Facade.Validator.AddAlias` | src/index.js:440-444 | the instance form |
| `FacadeLaws.AliasTwiceFails` | src/index.js:638-650 | an alias name cannot be registered twice on the prototype without `allowOverwriteValidator` |
| `Scopes.SchemaCheck` | src/index.js:699 | `addSchema` fails exactly when overwriting is off and the name is already in its own target list |
| `Scopes.SchemaEntry` | src/index.js:704-708 | a schema property becomes `{ validator, options }`; reading one from undefined or null throws |
| `Facade.NormalizeSchema` | src/index.js:703-709 | the normalization loop computes `Normalized` |
| `Facade.Registry.AddSchema` | src/index.js:692-712 | `Validator.addSchema` changes the global schema list as `SchemaAdded` specifies |
| `Facade.Validator.AddSchema` | src/index.js:484-488 | the instance form, into the instance's own list |
| `FacadeLaws.SchemaTwiceFails` | src/index.js:699 | a schema name cannot be added twice to one list without `allowOverwriteValidator` |
| `FacadeLaws.SchemaListsSeparate` | src/index.js:693-699 | a global schema never blocks an instance's `addSchema`, and is still found by lookup |
| `FacadeLaws.NormalizedFails` | src/index.js:703-709 | normalization throws exactly when some schema property is undefined or null |
| `FacadeLaws.NormalizedKeys` | src/index.js:703-709 | the normalized schema has an entry under each schema key and no other |
| `Facade.Validator.constructor` | src/index.js:306-312 | the instance starts with the given options (or none), empty `ok`, `wrong`, schema list and tables |
| `Facade.Validator.LoadValidators` | src/index.js:314-318 | each property of `options.validators` is added to the instance in order, stopping at the first throw |
| `Facade.NewValidator` | src/index.js:306-319 | `new Validator(options)`: a fresh instance whose table, or the error thrown, is what `Preloaded` specifies |
| `Facade.Registry.constructor` | src/index.js:660-679 | loading the module installs every built-in definition and alias |
| `Facade.Registry.LoadBuiltins` | src/index.js:661-667 | after `addDefaultValidators`, every built-in name has its three driver entry points |
| `Facade.Registry.LoadBuiltin` | src/index.js:665 | one built-in registration keeps the loading invariant |
| `Facade.Registry.LoadAliases` | src/index.js:670-679 | after `addDefaultAliases`, every alias of `src/aliases.js` is installed with its options |
| `Facade.Registry.LoadAlias` | src/index.js:677 | one alias registration keeps the loading invariant |
| `Startup.BuiltinStep` | src/index.js:664-666 | the next built-in definition registers on the prototype without a collision |
| `Startup.AliasStep` | src/aliases.js:7-24 | the next alias finds its validator and registers without a collision |
| `Startup.AliasReady` | src/aliases.js:7-24 | each alias finds all three underlying entry points, and its own three names free |
| `Startup.EntryNamesDistinct` | src/definitions.js:11-21 | two entry names of built-in definitions are equal only when they are the same entry point |
| `FacadeLaws.FreshInstanceRunsBuiltin` | src/index.js:664-666 | on a fresh instance, each built-in entry point runs its definition's driver from the prototype |
| `FacadeLaws.FreshInstanceRunsAlias` | src/aliases.js:7-24 | on a fresh instance, each built-in alias forwards from the prototype with the options of `src/aliases.js` |
| `FacadeLaws.PositiveIntIsNum` | src/aliases.js:14-23 | `positiveInt(key, data)` on a fresh instance is the `num` driver with `integer`, `rangeMin: 1` and `minEq` |
| `Definitions.ValidatorDefined` | src/definitions.js:26-31 | the input unchanged, valid exactly when it is not undefined |
| `Definitions.ValidatorFn` | src/definitions.js:181-186 | the input unchanged, valid exactly when it is a function |
| `Definitions.ValidatorBool` | src/definitions.js:45-68 | strict: valid exactly for booleans, data unchanged; otherwise always valid, with true exactly for truthy values other than `'false'` and `'0'` |
| `Definitions.RunBool` | src/definitions.js:45-68 | the branch-by-branch assignment computes `ValidatorBool` |
| `Definitions.BoolIdempotent` | src/definitions.js:45-68 | a valid canonical boolean validates to the same result again |
| `Definitions.MaxNum` | src/definitions.js:106 | `Math.max`: NaN when either side is NaN, otherwise the larger operand |
| `Definitions.MinNum` | src/definitions.js:109 | `Math.min`: NaN when either side is NaN, otherwise the smaller operand |
| `JsValues.ToInt32` | src/definitions.js:101 | bitwise-or with 0 gives a value that lies in the signed 32-bit range and equals `n` modulo 2^32 |
| `JsValues.ToInt32OfInt32` | src/definitions.js:101 | bitwise-or with 0 leaves a signed 32-bit integer unchanged |
| `Definitions.ValidatorNum` | src/definitions.js:85-132 | a non-numeric input (a non-number when strict) gives `{ undefined, false }`; otherwise the data is `Number(data)`, truncated to 32 bits under `integer`, raised to `min` and lowered to `max`; it is valid exactly when it passes `rangeMin`/`rangeMax` (inclusive under `minEq`/`maxEq`) and, with `regExp` set, the pattern matches; only the pattern can throw, and a pattern that is neither a string nor an object throws a TypeError |
| `Definitions.RunNum` | src/definitions.js:85-132 | the rule-by-rule updates of `val` and `ok` compute `ValidatorNum` |
| `Definitions.NumClamps` | src/definitions.js:105-110 | with numeric `min <= max`, a returned result lies between them |
| `Definitions.NumIntegerIs32Bit` | src/definitions.js:101 | with `integer` and no clamping, a returned result is a signed 32-bit integer |
| `Definitions.ClampedIdempotent` | src/definitions.js:101-110 | clamping an already clamped value changes nothing, even after a second 32-bit truncation |
| `Definitions.NumIdempotent` | src/definitions.js:85-132 | without `regExp`, an accepted number validates to the same result again |
| `Definitions.CaseRule` | src/definitions.js:166-170 | `lowerCase` gives an all-lower-case string and wins over `upperCase`, which gives an all-upper-case one; without either the string is kept (ASCII mapping, see Left out) |
| `Definitions.ValidatorStr` | src/definitions.js:146-176 | valid exactly when the type is right (a string when strict), the text is not shorter than `minLength`, not longer than `maxLength` unless `truncate` is set, and, with `regExp` set, the pattern matches; the data is `String(data)`, or its `truncate` result when it was too long and truncation applied, with the case rule applied to valid and invalid results alike; only the pattern can throw |
| `Definitions.RunStr` | src/definitions.js:146-176 | the rule-by-rule updates compute `ValidatorStr` |
| `Definitions.RunLengthRules` | src/definitions.js:150-160 | the length and truncation rules, step by step |
| `Definitions.CaseRuleIdempotent` | src/definitions.js:166-170 | applying the case rule twice is applying it once |
| `Definitions.StrIdempotent` | src/definitions.js:146-176 | without `truncate` or `regExp`, an accepted string validates to the same result again |
| `Definitions.FirstMatchFrom` | src/definitions.js:201-208 | the index found matches, and no earlier candidate does; none exactly when no candidate matches |
| `Definitions.FindFirstMatch` | src/definitions.js:201-208 | the `for…in` loop with `break` finds the first match |
| `Definitions.ValidatorEnumerated` | src/definitions.js:192-269 | throws exactly when `options.enumerated` is not a plain object (what it returns otherwise is `EnumeratedFindsFirst`) |
| `Definitions.RunEnumerated` | src/definitions.js:192-269 | the three search loops compute `ValidatorEnumerated` |
| `Definitions.EnumeratedFindsFirst` | src/definitions.js:201-213 | with a plain-object table nothing is thrown; valid exactly when some table value (or key) matches, and then the data is what the FIRST matching entry returns (its value, its key for `enumeratedKey`, its value for `enumeratedKeyValue`); otherwise the data is null |
| `Definitions.EnumeratedStrictReturnsInput` | src/definitions.js:202-204 | in strict mode a value match returns the input itself |
| `Definitions.KeyValueIsValueOfKey` | src/definitions.js:257-262 | `enumeratedKeyValue` returns what the key matched by `enumeratedKey` holds |
| `Definitions.FirstOccurrence` | src/definitions.js:257-259 | a property read finds the first entry with that name |
| `Definitions.NumberFindsItsKey` | src/definitions.js:232 | non-strictly, a number matches the key that spells it |
| `Definitions.StrictKeyNeedsString` | src/definitions.js:232 | strictly, only a string can match a key |
| `JsValues.StrictEqImpliesLooseEq` | src/definitions.js:202-203 | whatever is `===` is also `==` |
| `JsValues.NumLooseEqItsString` | src/definitions.js:232 | a number is `==` to its decimal string, in either order |
| `JsValues.DecimalIntegerOfIntToString` | src/definitions.js:101 | printing an integer and parsing it back gives the integer |
| `Definitions.ValidatorJson` | src/definitions.js:276-291 | valid exactly when `JSON.parse(String(data))` succeeds, and then the data is the parsed value; an unparsable input is returned unchanged and invalid |
| `Definitions.Definition` | src/definitions.js:11-21 | the built-in definitions other than the enumerated ones never throw, except `num` and `str` through a `regExp` option |
| `Definitions.RunDefinition` | src/definitions.js:11-21 | running a definition step by step computes `Definition` |
| `Definitions.CalledWithoutOptions` | src/definitions.js:49 | a built-in called as a one-argument transformation throws a TypeError exactly for `bool`, `num` and `str`, which read an option first |

## Left out

- Floating point is not modelled: numbers are integers plus NaN. `Infinity`, fractions, the float-to-int part of the 32-bit truncation and float parsing in `Number()` are left out. `Number()` of a string accepts only optionally signed decimal integer numerals.
- Regular-expression matching (`src/definitions.js:121-126, 162-164`) comes from the host (`Host.Env.regExpMatches`), which decides whether a pattern compiles (a SyntaxError when it does not), which objects are regular expressions, and whether one matches. The model itself decides only that `num` throws a TypeError for a truthy pattern that is neither a string nor an object, and that `str` converts such a pattern with `String()`. `num` also replaces a string `options.regExp` with a `RegExp` object in the caller's options; that in-place change is not modelled.
- `Definitions.CaseRule`: case mapping is ASCII only (`A`-`Z`, `a`-`z`) and keeps the length. JavaScript's `toLowerCase`/`toUpperCase` use the full Unicode mappings, which also change other letters (`'É'` lower-cases to `'é'`) and can change the length (`'ß'` upper-cases to `'SS'`). The model leaves such characters unchanged, so its `IsLower`/`IsUpper` speak of ASCII letters only.
- `Definitions.ValidatorStr`: lengths (`minLength`, `maxLength`, a string's `length`) count characters, where JavaScript counts UTF-16 code units; a character outside the Basic Multilingual Plane (`'😀'`) counts 1 here and 2 in JavaScript. Its claim that the length is kept without `truncate` holds for the ASCII case mapping above, not for JavaScript's.
- `JsValues.Set`: a new key is appended. JavaScript enumerates integer-like keys (canonical array indices) first, in ascending order, and the other keys after them in insertion order (`ok.b = 1; ok['2'] = 2` enumerates `'2'`, `'b'`). So the model's `for…in` order differs for records holding such keys: the order in which `valid(base)` copies `ok`, and the property order of the copy `validateObject` stores.
- `Scopes.Lookup` consults only the entry tables that `addValidator`/`addAlias` fill. In JavaScript `this[property.validator]` in `schema` (`src/index.js:468`) also finds the facade's own methods (`reset`, `errors`, `valid`, `schema`, the `add…` methods) and the functions inherited from `Object.prototype`, and calls them with `(key, data[key], options)`. The model fails such a property with `NotAFunction` instead.
- `Host.Env.define`: a caller-supplied definition always returns a `{ data, valid }` record with a boolean `valid`. A definition returning something else is not modelled: in JavaScript, returning `undefined` makes `validateData` store nothing through the `res &&` guard (`src/index.js:123`) unless `returnUndefined` is set, and makes `validateArray`/`validateObject` throw a TypeError at `res.valid` (`src/index.js:182`, `src/index.js:263`).
- `JsValues.PropertyOf`: properties that primitives, arrays and plain objects inherit from their prototypes (`'abc'.toUpperCase`, `(5).toFixed`, `{}.toString`) read as undefined.
- The `truncate` package, `JSON.parse` and the source text of functions (`String(f)`) come from the host as uninterpreted functions.
- `String()` of an array is the comma join, and of a plain object is `"[object Object]"`. Other host objects (dates, regexps, class instances) are not values of the model.
- Loose equality `==` follows the JavaScript algorithm for the model's values. Objects and arrays compare by contents where JavaScript compares identity.
- `vanilla-type-check` is modelled by datatype tests. `isObject` is "plain object" and `isNumber` excludes NaN.
- The `extend` library is modelled as a shallow merge that skips undefined source values, plus the deep copy used by `validateObject`.
- Object identity and aliasing are not modelled. In particular, `valid(base)` writes into the caller's `base`, and `errors()`/`valid()` hand out the live `wrong`/`ok` objects; the model returns their values. The options object an alias closes over is shared with the caller of `addAlias` (and with `src/aliases.js`'s data); the model keeps one cell per alias name.
- Properties inherited from `Object.prototype` are modelled only by name: they count as taken in collision checks, and a schema of such a name is found with no properties. Symbols and getters are not modelled.
- `Scopes.Call`: alias chains are bounded by a `fuel` parameter, and running out of fuel fails with `StackOverflow`. This stands for the RangeError a self-referring alias causes in JavaScript. The depth at which that happens is not modelled.
- Dynamic method installation is modelled as name-to-handler maps, a `Handler` per entry point. A name installed by a caller as a plain property (not via `addValidator`/`addAlias`) is not modelled.
- `Validator.defaultOptions` is a field of `Registry` that every call reads afresh. Caller code that mutates it directly is not a model operation.
- `src/index.d.ts` holds type declarations only. The root `aliases.js` is a stale copy that `src/index.js` never loads.
- Test files are evidence for the contracts, not part of the model.
