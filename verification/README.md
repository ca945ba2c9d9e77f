# lambda-debugger handler loading, modelled in Dafny

lambda-debugger is a local utility that runs an HTTP server. The server loads one
exported function from a file named by a *handler spec* (`/path/file.js:exportName`).
It calls that function with a JSON event and a synthetic serverless-style context,
then returns the result as JSON. This project models the decision logic of that
server and of the stand-alone loader module:

- `loader.js` `loadHandler` (module `Loader`). It splits the spec at its last
  colon and refuses an empty path or export name. It collapses every run of `/`
  and `\` in the path into one platform separator (module `Paths`) and resolves
  the path. It loads a `.mjs` file with `import` and anything else with
  `require`. It returns the named export when that export is truthy.
- `server.js` `loadHandler` (module `Server`). It requires a non-empty string
  and splits on every colon, keeping exactly two parts. It then checks that the
  file exists, loads it with `require`, and requires the export to be a function.
- `server.js` routes. `POST /invoke` answers 400 when `handlerPath` is missing,
  500 with `success:false`, the message and the stack when loading or the handler
  throws, and 200 with `success:true` and the handler's result otherwise.
  A result that `JSON.stringify` refuses, such as a circular object, is also a
  500, because `res.json` throws inside the `try`. `GET /health` answers
  `{status:"ok"}`. Both routes are pure functions from a request and the
  module-system state at that moment to a `Response`. `Serve` runs a sequence
  of requests.
- Module `SpecParsers` relates the two splitting strategies. They agree on specs
  with one colon and two non-empty parts. They disagree on Windows drive paths
  such as `C:\x.js:main`, which `loader.js` accepts and `server.js` refuses.

The JavaScript runtime (module `JsRuntime`) is reduced to what the loaders
observe: values and their truthiness, `typeof … === 'function'`, and export
tables read with `undefined` for absent names. File existence, `require`,
dynamic `import` and whether an object can be serialised as JSON are oracles
held in a `Runtime` value. `path.resolve` is a
function parameter, `Date.now()` is a natural-number parameter, and the handler's
behaviour is a function from (handler, event, context) to an outcome.

The two loaders check different things. `server.js`, which backs the HTTP
endpoint, splits on every colon. It reports an absent export and a non-function
export with the same "is not a function" error. `loader.js` has no existence
check and no callability check. A missing file there surfaces as whatever
exception `require` or `import` throws (`Loader.ModuleFailed`), and any truthy
export is returned.

## Model

| member | source | states |
|---|---|---|
| Strings.LastIndexOf | loader.js:7 | the result is -1 exactly when the spec has no colon; otherwise it indexes a colon and no colon follows it |
| Strings.Split | server.js:29 | there is one piece more than there are colons, no piece contains a colon, and joining the pieces with `:` gives back the spec |
| Strings.SplitJoin | server.js:29 | splitting undoes joining whenever no piece contains the separator, so the pieces are unique |
| Loader.ParseSpec | loader.js:7-16 | a spec without a colon is rejected with `InvalidSpec`; on success path + `:` + export name is the spec, the export name has no colon, and both parts are non-empty |
| Loader.ParseSpecComplete | loader.js:7-16 | every split into a non-empty path, a colon and a non-empty colon-free export name is the one found, even when the path contains colons |
| Loader.ParseSpecRejects | loader.js:7-16 | a spec is rejected exactly when it has no colon, its only colon is its first character, or it ends in a colon |
| Paths.Normalize | loader.js:19 | the normalised path is never longer than the path and is empty exactly when the path is |
| Paths.NormalizeShape | loader.js:19 | the output has no slash other than the platform separator and no two adjacent slashes; it keeps the non-slash characters in order; it is empty only for empty input, and starts with a slash exactly when the input does |
| Paths.NormalizeIdempotent | loader.js:19 | normalising twice gives the same path as normalising once |
| Paths.NormalizeNoSlashes | loader.js:19 | a path without slashes is unchanged |
| Paths.NormalizeRun | loader.js:19 | a non-empty run of `/` and `\` becomes exactly one separator |
| Paths.CollapseConcat | loader.js:19 | replacing runs left to right over `a + b` is replacing them over `a` and then over `b`, where `b` continues a run exactly when `a` ends in a slash |
| Paths.NormalizeConcat | loader.js:19 | normalisation works piece by piece when a cut does not fall inside a run of slashes (with the two lemmas above this fixes every output) |
| Loader.ErrorFor | loader.js:9-33 | a module's own exception passes through unchanged; the other failures are fresh `Error`s whose stack starts with `Error: ` and the message, and a missing export's message names the export |
| Loader.MessagesIdentifyErrors | loader.js:9-33 | two of loader.js's own failures with the same message are the same failure, so the message identifies the missing export |
| Loader.KindOf | loader.js:23 | a path is loaded as an ES module exactly when its last four characters are `.mjs`; `.js` and `.cjs` files are loaded as CommonJS |
| Loader.LoadHandler | loader.js:5-37 | a returned export is truthy; the failure is `InvalidSpec` exactly when the spec does not parse |
| Loader.LoadHandlerBranch | loader.js:23-30 | when the resolved path ends in `.mjs` the outcome depends only on what `import` yields for it, and otherwise only on what `require` yields |
| Loader.LoadHandlerExport | loader.js:32-36 | a module that throws propagates its exception; a truthy export is returned unchanged; a falsy or absent one fails with `ExportNotFound` naming the export |
| JsRuntime.Serialise | server.js:81-84 | only an object result can make `res.json` throw, and then with the exception the serialisation oracle gives for that object; every other value serialises |
| JsRuntime.Truthy | loader.js:14 | a value is falsy exactly when it is `undefined`, `null`, `false`, `0` or `""`; every function is truthy, so server.js's `typeof` test implies its falsiness test |
| Server.ErrorFor | server.js:26-50 | a module's own exception passes through unchanged; the other failures are fresh `Error`s whose stack starts with `Error: ` and the message; a missing file's message ends with the resolved path, and a non-function export's message names the export |
| Server.MessagesIdentifyErrors | server.js:26-50 | two of server.js's own failures with the same message are the same failure: the four messages start with different letters, and the path or export name can be read back |
| Server.LoadHandler | server.js:24-54 | the failure is "must be a string" exactly for a non-string or empty spec; a non-empty string with zero or several colons is `InvalidFormat`; success needs exactly one colon and returns a function |
| Server.LoadHandlerOneColon | server.js:36-53 | for `p:n` with one colon, a missing `resolve(p)` is `FileNotFound` with that path, a throwing module propagates its exception, and otherwise export `n` is returned exactly when it is a function, else `NotAFunction(n)` |
| Server.LoadHandlerCheckOrder | server.js:29-51 | format errors do not depend on the files, modules or `path.resolve`; a missing file does not depend on the modules; a non-function error only arises for an existing file |
| Server.SeveralColonsRejected | server.js:29-34 | a spec with a colon at two different positions is refused as malformed whatever the files, modules or `path.resolve` |
| Server.WindowsDrivePathRejected | server.js:29-34 | `C:\x.js:main` is refused as malformed whatever the file system holds |
| Strings.Decimal | server.js:71 | the rendering of `Date.now()` is a non-empty string of digits without a leading zero |
| Strings.DecimalRoundTrip | server.js:71 | reading a rendered number back yields the number |
| Server.BuildContext | server.js:69-77 | the context names the handler path and the placeholder ARN, reports 30000 ms remaining, and its request id is `local-` followed by digits that read back as the clock value |
| Server.RequestIdsDistinct | server.js:71 | invocations at different milliseconds get different `awsRequestId`s |
| Server.Invoke | server.js:59-93 | status 400 exactly when `handlerPath` is falsy, with `{error:"handlerPath is required"}`; 200 exactly for a success payload; 500 exactly for a failure payload; no other status |
| Server.InvokeMissingPath | server.js:63-65 | without a handler path the response is the same whatever the files, modules, clock or handler behaviour, so the loader is never consulted |
| Server.InvokeLoadFailure | server.js:85-92 | every load failure becomes a 500 with `success:false` and that failure's message and stack |
| Server.InvokeCallsHandler | server.js:69-92 | a loaded handler gets the event unchanged and a context with `functionName` equal to the handler path, the placeholder ARN and 30000 ms; a return value that serialises is the 200 result, one that `JSON.stringify` refuses becomes a 500 with the serialiser's error, and a thrown exception is a 500; a result that is not an object always serialises |
| Server.InvokeSucceededMeans | server.js:79-84 | a 200 response means the spec loaded a function that returned exactly the reported result, and that result could be serialised |
| Server.Health | server.js:98-100 | `GET /health` answers 200 `{status:"ok"}` and reads no file, module or clock |
| Server.ServeStateless | server.js:59-100 | each response to a sequence of requests depends only on its own request and the module-system state (`Runtime`) at that moment |
| Server.HealthAfterAnyHistory | server.js:98-100 | `GET /health` answers 200 `{status:"ok"}` after any history of modelled requests |
| SpecParsers.ParsersAgree | server.js:29-37 | on `p:n` with one colon and non-empty parts, both parsers find path `p` and export `n` |
| SpecParsers.ServerSplitVsLoader | server.js:29-37 | what the two-part split accepts with non-empty parts, the last-colon split accepts with the same parts; what the last-colon split accepts, the two-part split accepts exactly when the path has no colon |
| SpecParsers.ParsersDisagreeOnDrivePath | loader.js:6-16 | `C:\x.js:main` parses to path `C:\x.js` and export `main` under the last-colon split, but server.js refuses it as malformed |

## Left out

- cli.js: process supervision through PM2, the HTTP client, console output and exit codes. This is glue with no decision logic beyond a command switch.
- Express plumbing: JSON body parsing with its 5mb limit, static serving of the UI directory, `app.listen` on port 4000, and `console` logging.
- The real file system and module loader: `fs.existsSync`, `require`, `require.resolve` and `import()` are oracles in `JsRuntime.Runtime`, one state per request. The cache eviction itself is not modelled. server.js and loader.js evict only the handler file's own `require` cache entry. Modules the handler file requires stay cached, so an edit to one of them is not seen by later requests and their module-level state survives between requests. Modules loaded with `import()` are never evicted. None of this is constrained in the model: each request's `Runtime` is arbitrary.
- `JSON.stringify` is an oracle (`Runtime.objectJson`) that says, for each object, whether it serialises and which exception it throws otherwise. The contents of objects are not modelled.
- `path.resolve` is a function parameter. The current working directory is not modelled.
- `Date.now()` is a parameter of `Server.Invoke`. Awaiting asynchronous handlers is folded into `Server.HandlerOutcome`.
- The behaviour of user handler code is the `Server.Behaviour` parameter. The no-op `done`, `succeed` and `fail` callbacks are not represented.
- JavaScript numbers are integers here. The falsiness of `NaN`, `-0` and `0n` is not modelled, and neither is a BigInt result, which `JSON.stringify` refuses.
- Exceptions always carry a string message and stack. A handler that throws a non-`Error` value is not modelled. For an object or primitive other than `null` and `undefined`, the source sends a 500 whose `error` and `stack` are usually `undefined` and omitted from the JSON. For `throw null`, `throw undefined` or `Promise.reject()`, reading `err.message` at server.js:89 throws inside the `catch`, so no response is sent and the rejection of the async route is unhandled.
- Stack text of errors raised by the loaders is the first line `Error: <message>`. Frame lines are not modelled.
- Loader.LoadHandler: reading the export from the loaded module is assumed not to throw and to give the same value both times loader.js reads it (lines 32 and 36). A module whose `module.exports` is `null` or `undefined` makes `mod[exportName]` throw a `TypeError` in the source, while the model answers `ExportNotFound`. A getter export may throw, or may give a falsy value on the second read; the model's promise that a returned export is truthy does not cover it.
- Server.LoadHandler: reading the export is assumed not to throw. A module whose `module.exports` is `null` or `undefined` makes `moduleExports[exportName]` at server.js:48 throw a `TypeError`, while the model answers `NotAFunction`; a throwing getter export is not modelled either.
- Server.HealthAfterAnyHistory: holds for histories of modelled requests only. A handler that throws `null` or `undefined`, or rejects with no value, makes the `catch` at server.js:89 throw. The resulting unhandled rejection can end the process on current Node versions, after which `/health` is not answered. A handler that loops forever synchronously blocks the event loop at server.js:79, so no later request, `/health` included, is answered.
- Loader.LoadHandler: takes a string. The `TypeError` that loader.js raises for a non-string spec is not modelled.
- Server.Invoke: the response is a datatype, not serialised JSON. JSON's omission of an `undefined` result or stack is not modelled. A handler whose promise never settles gets no response at all, because server.js:79 awaits it without a timeout; the model has no outcome for it, so every modelled request is answered.
- Server.InvokeCallsHandler: covers a handler that returns or throws. A handler whose promise never settles is not modelled, and it gets no response.
- Characters are Dafny `char`s, which are Unicode scalar values, not UTF-16 code units. A spec that contains an unpaired surrogate cannot be represented. Indices such as `Strings.LastIndexOf`'s result count scalar values, so for characters outside the Basic Multilingual Plane they differ from JavaScript's indices. The split results are the same either way.
