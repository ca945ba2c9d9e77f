/** `loadHandler` of loader.js: split a handler spec at its LAST colon, normalise
    the path's separators, resolve it, load it as an ES module when it ends in
    `.mjs` and as a CommonJS module otherwise, and return the named export when
    it is truthy. */
module Loader {
  import opened Strings
  import opened Paths
  import opened JsRuntime
  import opened Results

  /** The two halves of a handler spec. */
  datatype HandlerSpec = HandlerSpec(filePathRaw: string, exportName: string)

  /** The ways loader.js's `loadHandler` fails. */
  datatype LoadError =
    | InvalidSpec
    | ModuleFailed(error: Thrown)
    | ExportNotFound(exportName: string)

  /** The exception each failure surfaces as. A module that fails to load
      propagates its own exception unchanged; the other failures are fresh
      `Error`s, and a missing export's message names the export. */
  function ErrorFor(e: LoadError): (t: Thrown)
    ensures e.ModuleFailed? ==> t == e.error
    ensures !e.ModuleFailed? ==> t.stack == "Error: " + t.message
    ensures e.ExportNotFound? ==>
      |t.message| >= 8 + |e.exportName| && t.message[8..8 + |e.exportName|] == e.exportName
  {
    match e
    case InvalidSpec => ErrorOf("Invalid handler spec")
    case ModuleFailed(t) => t
    case ExportNotFound(name) => ErrorOf("Export \"" + name + "\" not found")
  }

  /** The split at the last colon, with both halves required to be non-empty. */
  function ParseSpec(spec: string): (r: Result<HandlerSpec, LoadError>)
    ensures r.Err? ==> r.error == InvalidSpec
    ensures ':' !in spec ==> r.Err?
    ensures r.Ok? ==> r.value.filePathRaw + ":" + r.value.exportName == spec
    ensures r.Ok? ==> ':' !in r.value.exportName
    ensures r.Ok? ==> r.value.filePathRaw != "" && r.value.exportName != ""
  {
    var lastColon := LastIndexOf(spec, ':');
    if lastColon == -1 then Err(InvalidSpec)
    else
      var filePathRaw := spec[..lastColon];
      var exportName := spec[lastColon + 1..];
      if filePathRaw == "" || exportName == "" then Err(InvalidSpec)
      else
        assert filePathRaw + ":" + exportName == spec;
        Ok(HandlerSpec(filePathRaw, exportName))
  }

  /** Every decomposition with a non-empty path, a non-empty colon-free export
      name and one colon between them is the one `ParseSpec` finds; the path
      itself may contain colons. */
  lemma ParseSpecComplete(filePathRaw: string, exportName: string)
    requires filePathRaw != "" && exportName != ""
    requires ':' !in exportName
    ensures ParseSpec(filePathRaw + ":" + exportName) == Ok(HandlerSpec(filePathRaw, exportName))
  {
    var spec := filePathRaw + ":" + exportName;
    var k := LastIndexOf(spec, ':');
    assert spec[|filePathRaw|] == ':';
    assert spec[|filePathRaw| + 1..] == exportName;
    assert k == |filePathRaw|;
    assert spec[..k] == filePathRaw;
  }

  /** A spec is rejected exactly when it has no colon, when its only colon is
      its first character, or when it ends in a colon. */
  lemma ParseSpecRejects(spec: string)
    ensures ParseSpec(spec).Err? <==>
      || ':' !in spec
      || (spec[0] == ':' && ':' !in spec[1..])
      || spec[|spec| - 1] == ':'
  {
  }

  /** Which loader `loadHandler` uses for a resolved path. */
  datatype ModuleKind = CommonJs | Esm

  /** A path is loaded as an ES module exactly when its last four characters are
      `.mjs`; `.js` and `.cjs` files are therefore CommonJS modules. */
  function KindOf(absPath: string): (k: ModuleKind)
    ensures k == Esm <==> |absPath| >= 4 && absPath[|absPath| - 4..] == ".mjs"
    ensures EndsWith(absPath, ".js") || EndsWith(absPath, ".cjs") ==> k == CommonJs
  {
    if EndsWith(absPath, ".mjs") then
      assert absPath[|absPath| - 4..][0] == '.' && absPath[|absPath| - 4..][1] == 'm';
      Esm
    else CommonJs
  }

  /** Distinct failures other than a module's own exception have distinct
      messages, so the message tells the caller which check failed. */
  lemma MessagesIdentifyErrors(e1: LoadError, e2: LoadError)
    requires !e1.ModuleFailed? && !e2.ModuleFailed?
    requires ErrorFor(e1).message == ErrorFor(e2).message
    ensures e1 == e2
  {
  }

  /** Loading a module of the given kind: a dynamic `import` of `file://<path>`
      for ES modules, `require` after evicting the file's own cache entry for
      CommonJS ones. */
  function LoadModule(rt: Runtime, kind: ModuleKind, absPath: string): Evaluation
  {
    match kind
    case Esm => rt.importModule(absPath)
    case CommonJs => rt.requireModule(absPath)
  }

  /** The absolute path a parsed spec denotes on `platform`, with `resolve`
      standing for `path.resolve`. */
  function AbsolutePath(h: HandlerSpec, platform: Platform, resolve: string -> string): string
  {
    resolve(Normalize(h.filePathRaw, platform))
  }

  /** loader.js's `loadHandler`. */
  function LoadHandler(spec: string, platform: Platform, resolve: string -> string, rt: Runtime)
    : (r: Result<JsValue, LoadError>)
    ensures r.Ok? ==> Truthy(r.value)
    ensures r.Err? && r.error == InvalidSpec <==> ParseSpec(spec).Err?
  {
    match ParseSpec(spec)
    case Err(e) => Err(e)
    case Ok(h) =>
      var absPath := AbsolutePath(h, platform, resolve);
      match LoadModule(rt, KindOf(absPath), absPath)
      case Failed(t) => Err(ModuleFailed(t))
      case Evaluated(exports) =>
        var v := Get(exports, h.exportName);
        if Truthy(v) then Ok(v) else Err(ExportNotFound(h.exportName))
  }

  /** The ES-module loader is used exactly for paths ending in `.mjs`: the
      outcome then depends on `import` alone, and otherwise on `require` alone. */
  lemma LoadHandlerBranch(spec: string, platform: Platform, resolve: string -> string,
                          rt1: Runtime, rt2: Runtime)
    requires ParseSpec(spec).Ok?
    ensures var absPath := AbsolutePath(ParseSpec(spec).value, platform, resolve);
      (EndsWith(absPath, ".mjs") && rt1.importModule(absPath) == rt2.importModule(absPath)) ||
      (!EndsWith(absPath, ".mjs") && rt1.requireModule(absPath) == rt2.requireModule(absPath))
      ==> LoadHandler(spec, platform, resolve, rt1) == LoadHandler(spec, platform, resolve, rt2)
  {
  }

  /** Loading succeeds exactly when the chosen module loads and its export is
      truthy, and it then returns that export unchanged; a falsy export fails
      with `ExportNotFound` naming the export. */
  lemma LoadHandlerExport(spec: string, platform: Platform, resolve: string -> string, rt: Runtime)
    requires ParseSpec(spec).Ok?
    ensures var h := ParseSpec(spec).value;
      var absPath := AbsolutePath(h, platform, resolve);
      var ev := LoadModule(rt, KindOf(absPath), absPath);
      && (ev.Failed? ==> LoadHandler(spec, platform, resolve, rt) == Err(ModuleFailed(ev.error)))
      && (ev.Evaluated? && Truthy(Get(ev.exports, h.exportName)) ==>
            LoadHandler(spec, platform, resolve, rt) == Ok(Get(ev.exports, h.exportName)))
      && (ev.Evaluated? && !Truthy(Get(ev.exports, h.exportName)) ==>
            LoadHandler(spec, platform, resolve, rt) == Err(ExportNotFound(h.exportName)))
  {
  }
}
