/** The HTTP endpoint of server.js: its own `loadHandler` (split on every colon,
    exactly two parts), the `POST /invoke` route with its synthetic invocation
    context, and `GET /health`. */
module Server {
  import opened Strings
  import opened JsRuntime
  import opened Results

  /** The ways server.js's `loadHandler` fails, in the order it checks them. */
  datatype LoadError =
    | NotAString
    | InvalidFormat
    | FileNotFound(filePath: string)
    | ModuleFailed(error: Thrown)
    | NotAFunction(exportName: string)

  /** The exception each failure surfaces as: a module's own exception is passed
      on unchanged, and every other failure is a fresh `Error` whose message
      names the offending path or export. */
  function ErrorFor(e: LoadError): (t: Thrown)
    ensures e.ModuleFailed? ==> t == e.error
    ensures !e.ModuleFailed? ==> t.stack == "Error: " + t.message
    ensures e.FileNotFound? ==> EndsWith(t.message, e.filePath)
    ensures e.NotAFunction? ==>
      |t.message| >= 8 + |e.exportName| && t.message[8..8 + |e.exportName|] == e.exportName
  {
    match e
    case NotAString => ErrorOf("handlerPath must be a string")
    case InvalidFormat =>
      ErrorOf("Invalid handlerPath. " + "Expected format: /abs/path/file.js:exportName")
    case FileNotFound(filePath) => ErrorOf("Handler file not found: " + filePath)
    case ModuleFailed(t) => t
    case NotAFunction(name) => ErrorOf("Export \"" + name + "\" is not a function")
  }

  /** Distinct failures other than a module's own exception have distinct
      messages, so the message tells the caller which check failed. */
  lemma MessagesIdentifyErrors(e1: LoadError, e2: LoadError)
    requires !e1.ModuleFailed? && !e2.ModuleFailed?
    requires ErrorFor(e1).message == ErrorFor(e2).message
    ensures e1 == e2
  {
    FirstLetterOf(e1);
    FirstLetterOf(e2);
    var m := ErrorFor(e1).message;
    if e1.FileNotFound? && e2.FileNotFound? {
      assert |e1.filePath| == |e2.filePath|;
      assert m[24..] == e1.filePath;
    } else if e1.NotAFunction? && e2.NotAFunction? {
      assert |e1.exportName| == |e2.exportName|;
      assert m[8..8 + |e1.exportName|] == e1.exportName;
    }
  }

  /** The first letter of each fresh error's message; the four differ. */
  function FirstLetter(e: LoadError): char
  {
    match e
    case NotAString => 'h'
    case InvalidFormat => 'I'
    case FileNotFound(_) => 'H'
    case ModuleFailed(_) => ' '
    case NotAFunction(_) => 'E'
  }

  lemma FirstLetterOf(e: LoadError)
    requires !e.ModuleFailed?
    ensures |ErrorFor(e).message| > 0 && ErrorFor(e).message[0] == FirstLetter(e)
  {
  }

  /** server.js's `loadHandler`; `resolve` stands for `path.resolve`. */
  function LoadHandler(spec: JsValue, resolve: string -> string, rt: Runtime): (r: Result<JsValue, LoadError>)
    ensures r == Err(NotAString) <==> !spec.Str? || spec.s == ""
    ensures spec.Str? && spec.s != "" && Count(spec.s, ':') != 1 ==> r == Err(InvalidFormat)
    ensures r.Ok? ==> spec.Str? && Count(spec.s, ':') == 1
    ensures r.Ok? ==> IsFunction(r.value)
  {
    if !Truthy(spec) || !spec.Str? then Err(NotAString)
    else
      var parts := Split(spec.s, ':');
      if |parts| != 2 then Err(InvalidFormat)
      else
        var filePath := resolve(parts[0]);
        var exportName := parts[1];
        if filePath !in rt.files then Err(FileNotFound(filePath))
        else
          match rt.requireModule(filePath)
          case Failed(t) => Err(ModuleFailed(t))
          case Evaluated(exports) =>
            var handler := Get(exports, exportName);
            if IsFunction(handler) then Ok(handler) else Err(NotAFunction(exportName))
  }

  /** For a spec `p:n` with exactly one colon the file checked and loaded is
      `resolve(p)`, the export looked up is `n`, and the result is that export
      exactly when it is a function. */
  lemma LoadHandlerOneColon(p: string, n: string, resolve: string -> string, rt: Runtime)
    requires ':' !in p && ':' !in n
    ensures var r := LoadHandler(Str(p + ":" + n), resolve, rt);
      && (resolve(p) !in rt.files ==> r == Err(FileNotFound(resolve(p))))
      && (resolve(p) in rt.files && rt.requireModule(resolve(p)).Failed? ==>
            r == Err(ModuleFailed(rt.requireModule(resolve(p)).error)))
      && (resolve(p) in rt.files && rt.requireModule(resolve(p)).Evaluated? ==>
            var handler := Get(rt.requireModule(resolve(p)).exports, n);
            r == if IsFunction(handler) then Ok(handler) else Err(NotAFunction(n)))
  {
    SplitTwo(p, n, ':');
  }

  /** The checks run in order: a malformed spec is reported whatever the file
      system and modules hold; a missing file is reported whatever the module
      table holds; a non-function export is only reported for a file that exists. */
  lemma LoadHandlerCheckOrder(spec: JsValue, resolve1: string -> string, resolve2: string -> string,
                              rt1: Runtime, rt2: Runtime)
    ensures var r1 := LoadHandler(spec, resolve1, rt1);
      r1 == Err(NotAString) || r1 == Err(InvalidFormat) ==> LoadHandler(spec, resolve2, rt2) == r1
    ensures var r1 := LoadHandler(spec, resolve1, rt1);
      r1.Err? && r1.error.FileNotFound? && rt2.files == rt1.files ==>
        LoadHandler(spec, resolve1, rt2) == r1
    ensures var r1 := LoadHandler(spec, resolve1, rt1);
      r1.Err? && r1.error.NotAFunction? ==>
        spec.Str? && resolve1(Split(spec.s, ':')[0]) in rt1.files
  {
  }

  /** A spec with colons at two positions is refused as malformed, before the
      file system is consulted. */
  lemma SeveralColonsRejected(spec: string, i: nat, j: nat, resolve: string -> string, rt: Runtime)
    requires i < j < |spec| && spec[i] == ':' && spec[j] == ':'
    ensures LoadHandler(Str(spec), resolve, rt) == Err(InvalidFormat)
  {
    CountAtLeastTwo(spec, ':', i, j);
  }

  /** A Windows drive path such as `C:\x.js:main` is one of them. */
  lemma WindowsDrivePathRejected(resolve: string -> string, rt: Runtime)
    ensures LoadHandler(Str("C:\\x.js:main"), resolve, rt) == Err(InvalidFormat)
  {
  }

  /** The body of a `POST /invoke` request; an absent field reads as `undefined`. */
  datatype InvokeBody = InvokeBody(handlerPath: JsValue, event: JsValue)

  const FunctionArn: string := "arn:aws:lambda:local:0:function:debug"
  const RemainingTimeInMillis: nat := 30000

  /** The synthetic context passed to a handler. `getRemainingTimeInMillis` is
      represented by the constant it returns; `done`, `succeed` and `fail` do
      nothing and are not represented. */
  datatype Context = Context(
    functionName: string,
    awsRequestId: string,
    invokedFunctionArn: string,
    remainingTimeInMillis: nat)

  /** The context for one invocation, `now` being `Date.now()` in milliseconds:
      it names the handler path, and its request id is `local-` followed by the
      digits that read back as `now`. */
  function BuildContext(handlerPath: string, now: nat): (c: Context)
    ensures c.functionName == handlerPath
    ensures c.invokedFunctionArn == FunctionArn && c.remainingTimeInMillis == RemainingTimeInMillis
    ensures |c.awsRequestId| > 6 && c.awsRequestId[..6] == "local-"
    ensures forall i :: 6 <= i < |c.awsRequestId| ==> IsDigit(c.awsRequestId[i])
    ensures DecimalValue(c.awsRequestId[6..]) == now
  {
    var id := "local-" + Decimal(now);
    assert id[6..] == Decimal(now);
    DecimalRoundTrip(now);
    Context(handlerPath, id, FunctionArn, RemainingTimeInMillis)
  }

  /** Invocations at different milliseconds get different request ids. */
  lemma RequestIdsDistinct(handlerPath: string, now1: nat, now2: nat)
    requires now1 != now2
    ensures BuildContext(handlerPath, now1).awsRequestId != BuildContext(handlerPath, now2).awsRequestId
  {
  }

  /** What awaiting the handler yields: the value it returned (or its promise
      resolved to), or the exception it threw (or its promise rejected with). */
  datatype HandlerOutcome = Returned(result: JsValue) | Raised(error: Thrown)

  /** The behaviour of user code: the outcome of calling a handler value with
      an event and a context. */
  type Behaviour = (JsValue, JsValue, Context) -> HandlerOutcome

  /** A JSON response body:
      `{error}`, `{success:true, result}`, `{success:false, error, stack}` or `{status}`. */
  datatype Payload =
    | ErrorMessage(error: string)
    | InvokeSucceeded(result: JsValue)
    | InvokeFailed(error: string, stack: string)
    | HealthStatus(status: string)

  datatype Response = Response(status: nat, payload: Payload)

  /** The 500 response the route's `catch` block sends for an exception. */
  function FailureResponse(t: Thrown): Response
  {
    Response(500, InvokeFailed(t.message, t.stack))
  }

  /** The `POST /invoke` route. */
  function Invoke(body: InvokeBody, resolve: string -> string, rt: Runtime, now: nat, run: Behaviour)
    : (res: Response)
    ensures res.status == 400 <==> !Truthy(body.handlerPath)
    ensures res.status == 400 ==> res.payload == ErrorMessage("handlerPath is required")
    ensures res.status == 200 <==> res.payload.InvokeSucceeded?
    ensures res.status == 500 <==> res.payload.InvokeFailed?
    ensures res.status in {200, 400, 500}
  {
    if !Truthy(body.handlerPath) then Response(400, ErrorMessage("handlerPath is required"))
    else
      match LoadHandler(body.handlerPath, resolve, rt)
      case Err(e) => FailureResponse(ErrorFor(e))
      case Ok(handler) =>
        match run(handler, body.event, BuildContext(body.handlerPath.s, now))
        case Returned(result) =>
          (match Serialise(rt, result)
           case Serialised => Response(200, InvokeSucceeded(result))
           case NotSerialisable(t) => FailureResponse(t))
        case Raised(t) => FailureResponse(t)
  }

  /** A request without a handler path is answered without consulting the
      loader, the file system, the modules, the clock or any handler. */
  lemma InvokeMissingPath(body: InvokeBody, resolve1: string -> string, resolve2: string -> string,
                          rt1: Runtime, rt2: Runtime, now1: nat, now2: nat, run1: Behaviour, run2: Behaviour)
    requires !Truthy(body.handlerPath)
    ensures Invoke(body, resolve1, rt1, now1, run1) == Invoke(body, resolve2, rt2, now2, run2)
    ensures Invoke(body, resolve1, rt1, now1, run1) == Response(400, ErrorMessage("handlerPath is required"))
  {
  }

  /** Every load failure becomes a 500 carrying the failure's message and stack. */
  lemma InvokeLoadFailure(body: InvokeBody, resolve: string -> string, rt: Runtime, now: nat, run: Behaviour)
    requires Truthy(body.handlerPath)
    requires LoadHandler(body.handlerPath, resolve, rt).Err?
    ensures var t := ErrorFor(LoadHandler(body.handlerPath, resolve, rt).error);
      Invoke(body, resolve, rt, now, run) == Response(500, InvokeFailed(t.message, t.stack))
  {
  }

  /** A loaded handler is called with the request's event, unchanged, and a
      context naming the handler path, the placeholder ARN and 30000 ms. What it
      returns is the 200 result when `res.json` can serialise it, and otherwise
      the serialiser's exception is a 500, as is anything the handler throws.
      A result that is not an object always serialises. */
  lemma InvokeCallsHandler(body: InvokeBody, resolve: string -> string, rt: Runtime, now: nat, run: Behaviour)
    requires Truthy(body.handlerPath)
    requires LoadHandler(body.handlerPath, resolve, rt).Ok?
    ensures body.handlerPath.Str?
    ensures var handler := LoadHandler(body.handlerPath, resolve, rt).value;
      var ctx := Context(body.handlerPath.s, "local-" + Decimal(now),
                         "arn:aws:lambda:local:0:function:debug", 30000);
      var outcome := run(handler, body.event, ctx);
      var res := Invoke(body, resolve, rt, now, run);
      && IsFunction(handler)
      && (outcome.Returned? && (!outcome.result.Object? || rt.objectJson(outcome.result.id).Serialised?) ==>
            res == Response(200, InvokeSucceeded(outcome.result)))
      && (outcome.Returned? && outcome.result.Object? && rt.objectJson(outcome.result.id).NotSerialisable? ==>
            var t := rt.objectJson(outcome.result.id).error;
            res == Response(500, InvokeFailed(t.message, t.stack)))
      && (outcome.Raised? ==>
            res == Response(500, InvokeFailed(outcome.error.message, outcome.error.stack)))
  {
  }

  /** A successful response means the path named a function that returned
      the reported result, and that result could be serialised. */
  lemma InvokeSucceededMeans(body: InvokeBody, resolve: string -> string, rt: Runtime, now: nat, run: Behaviour)
    requires Invoke(body, resolve, rt, now, run).status == 200
    ensures body.handlerPath.Str?
    ensures LoadHandler(body.handlerPath, resolve, rt).Ok?
    ensures var handler := LoadHandler(body.handlerPath, resolve, rt).value;
      run(handler, body.event, BuildContext(body.handlerPath.s, now))
        == Returned(Invoke(body, resolve, rt, now, run).payload.result)
    ensures Serialise(rt, Invoke(body, resolve, rt, now, run).payload.result) == Serialised
  {
  }

  /** The `GET /health` route: it answers 200 `{status:"ok"}` and reads no
      state at all. */
  function Health(): (res: Response)
    ensures res.status == 200 && res.payload == HealthStatus("ok")
  {
    Response(200, HealthStatus("ok"))
  }

  /** A request to the server, with the clock reading for an invocation. */
  datatype Request = InvokeRequest(body: InvokeBody, now: nat) | HealthRequest

  /** One request together with the state of the file system, the module cache
      and the module loaders when it arrives. */
  datatype Exchange = Exchange(request: Request, rt: Runtime)

  function Handle(x: Exchange, resolve: string -> string, run: Behaviour): Response
  {
    match x.request
    case InvokeRequest(body, now) => Invoke(body, resolve, x.rt, now, run)
    case HealthRequest => Health()
  }

  /** The responses to a sequence of requests, in order. */
  function Serve(history: seq<Exchange>, resolve: string -> string, run: Behaviour): (out: seq<Response>)
    ensures |out| == |history|
  {
    if |history| == 0 then []
    else Serve(history[..|history| - 1], resolve, run) + [Handle(history[|history| - 1], resolve, run)]
  }

  /** The routes keep no state of their own: each response depends only on its
      own request and on the module-system state (`Runtime`) at that moment.
      That state is not reset between requests: only the handler file's own
      `require` cache entry is evicted. */
  lemma {:induction false} ServeStateless(history: seq<Exchange>, resolve: string -> string, run: Behaviour)
    ensures forall i :: 0 <= i < |history| ==>
      Serve(history, resolve, run)[i] == Handle(history[i], resolve, run)
  {
    if |history| > 0 {
      var prefix := history[..|history| - 1];
      ServeStateless(prefix, resolve, run);
      forall i | 0 <= i < |history|
        ensures Serve(history, resolve, run)[i] == Handle(history[i], resolve, run)
      {
        if i < |history| - 1 {
          assert history[i] == prefix[i];
        }
      }
    }
  }

  /** `GET /health` answers 200 `{status:"ok"}` after any history of requests,
      failed invocations included. */
  lemma HealthAfterAnyHistory(history: seq<Exchange>, rt: Runtime, resolve: string -> string, run: Behaviour)
    ensures var out := Serve(history + [Exchange(HealthRequest, rt)], resolve, run);
      out[|history|] == Response(200, HealthStatus("ok"))
  {
    ServeStateless(history + [Exchange(HealthRequest, rt)], resolve, run);
  }
}
