/** The slice of the JavaScript runtime the handler loaders observe: values and
    their truthiness, module export tables, thrown errors, and the module system
    and file system as oracles supplied from outside. */
module JsRuntime {

  /** A JavaScript value as far as the loaders distinguish values. Numbers are
      integral here; functions and objects are identified by an opaque id. */
  datatype JsValue =
    | Undefined
    | Null
    | Bool(b: bool)
    | Number(n: int)
    | Str(s: string)
    | Function(id: nat)
    | Object(id: nat)

  /** JavaScript truthiness: `undefined`, `null`, `false`, `0` and `""` are falsy.
      Every function is truthy, so a `typeof … === 'function'` test implies the
      falsiness test. */
  predicate Truthy(v: JsValue)
    ensures Truthy(v) <==> v !in {Undefined, Null, Bool(false), Number(0), Str("")}
    ensures IsFunction(v) ==> Truthy(v)
  {
    match v
    case Undefined => false
    case Null => false
    case Bool(b) => b
    case Number(n) => n != 0
    case Str(s) => s != ""
    case Function(_) => true
    case Object(_) => true
  }

  /** `typeof v === 'function'`. */
  predicate IsFunction(v: JsValue)
  {
    v.Function?
  }

  /** The properties visible on a loaded module, inherited ones included. A
      property read never throws and gives the same value every time, so a
      `null` or `undefined` module value and getter exports are not represented. */
  type Exports = map<string, JsValue>

  /** `mod[name]`: a property that is absent reads as `undefined`. */
  function Get(exports: Exports, name: string): JsValue
  {
    if name in exports then exports[name] else Undefined
  }

  /** An exception: its `message` and its `stack` text. */
  datatype Thrown = Thrown(message: string, stack: string)

  /** `new Error(message)`: the stack text starts with the error's name and message
      (the frame lines below it are not modelled). */
  function ErrorOf(message: string): Thrown
  {
    Thrown(message, "Error: " + message)
  }

  /** What loading a module yields: its exports, or the exception its
      resolution or top-level code threw. */
  datatype Evaluation = Evaluated(exports: Exports) | Failed(error: Thrown)

  /** What `JSON.stringify` does with a value: it produces text, or it throws
      (for a circular structure or a BigInt inside an object). */
  datatype Serialisation = Serialised | NotSerialisable(error: Thrown)

  /** The state of the module and file systems when a request is handled: the
      paths `fs.existsSync` reports, what `require` gives for each absolute path
      (including whatever that module's dependencies left in the module cache),
      what a dynamic `import` of `file://<path>` gives, and whether each object
      can be serialised as JSON. */
  datatype Runtime = Runtime(
    files: set<string>,
    requireModule: string -> Evaluation,
    importModule: string -> Evaluation,
    objectJson: nat -> Serialisation)

  /** `JSON.stringify(v)`: only an object can refuse (its contents are not
      modelled); primitives serialise, and a function is omitted. */
  function Serialise(rt: Runtime, v: JsValue): (r: Serialisation)
    ensures r.NotSerialisable? ==> v.Object? && r == rt.objectJson(v.id)
  {
    match v
    case Object(id) => rt.objectJson(id)
    case _ => Serialised
  }
}

/** The outcome of an operation that can throw. */
module Results {
  datatype Result<+T, +E> = Ok(value: T) | Err(error: E)
}
