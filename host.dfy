/**
 * What the library receives from the JavaScript world around it: the
 * behaviour of functions it is handed (transformations, user-written
 * validator definitions), regular-expression matching (which decides
 * which patterns compile and what a regular-expression object is), the `truncate`
 * package, `JSON.parse` and the source text of functions.
 */
module Host {
  import opened Wrappers
  import opened JsValues

  /** An exception raised while a call is in progress. */
  datatype Exception =
    | TypeError               // calling something that is not a function, reading a property of undefined/null
    | SyntaxError             // a regular-expression pattern that does not compile
    | EnumeratedNotObject     // 'options.enumerated is not an Object'
    | UserError(code: nat)    // anything thrown by a caller-supplied function

  /** A call either returns a value or throws. */
  datatype Completion<+T> = Normal(value: T) | Abrupt(exception: Exception)

  /** What a validator definition returns: `{ data, valid }`. */
  datatype DefResult = DefResult(data: Value, valid: bool)

  /**
   * The environment. Function values `Fn(id)` with an id past the built-in
   * definitions are caller-supplied; their behaviour is looked up here.
   */
  datatype Env = Env(
    call: (nat, Value) -> Completion<Value>,               // `f(x)` for a transformation f
    define: (nat, Value, Options) -> Completion<DefResult>, // `f(data, options)` for a user definition f
    regExpMatches: (Value, Value) -> Completion<bool>,     // does the pattern match the subject, or what compiling or running it throws
    truncate: (string, Value, Value) -> string,            // truncate(text, maxLength, { ellipsis })
    parseJson: string -> Option<Value>,                    // JSON.parse; None when it throws
    fnText: nat -> string)                                 // String(f)
}
