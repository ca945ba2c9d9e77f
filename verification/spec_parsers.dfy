/** How the two ways of splitting a handler spec relate: loader.js splits at the
    last colon, server.js on every colon and keeps the spec only when there are
    exactly two parts. */
module SpecParsers {
  import opened Strings
  import opened JsRuntime
  import opened Results
  import Loader
  import Server

  /** On a spec with one colon and text on both sides, both parsers find the
      same path and export name. */
  lemma ParsersAgree(p: string, n: string)
    requires p != "" && n != ""
    requires ':' !in p && ':' !in n
    ensures Loader.ParseSpec(p + ":" + n) == Ok(Loader.HandlerSpec(p, n))
    ensures Split(p + ":" + n, ':') == [p, n]
  {
    Loader.ParseSpecComplete(p, n);
    SplitTwo(p, n, ':');
  }

  /** Whatever server.js's split accepts with two non-empty parts, loader.js
      accepts with the same parts; what loader.js accepts, server.js's split
      accepts exactly when the path part has no colon. */
  lemma {:induction false} ServerSplitVsLoader(spec: string)
    ensures var parts := Split(spec, ':');
      |parts| == 2 && parts[0] != "" && parts[1] != "" ==>
        Loader.ParseSpec(spec) == Ok(Loader.HandlerSpec(parts[0], parts[1]))
    ensures Loader.ParseSpec(spec).Ok? ==>
      (|Split(spec, ':')| == 2 <==> ':' !in Loader.ParseSpec(spec).value.filePathRaw)
  {
    var parts := Split(spec, ':');
    if |parts| == 2 && parts[0] != "" && parts[1] != "" {
      assert Join(parts, ':') == parts[0] + [':'] + parts[1] by {
        assert parts[1..] == [parts[1]];
      }
      Loader.ParseSpecComplete(parts[0], parts[1]);
    }
    var r := Loader.ParseSpec(spec);
    if r.Ok? {
      var h := r.value;
      assert spec == h.filePathRaw + ":" + h.exportName;
      CountConcat(h.filePathRaw + ":", h.exportName, ':');
      CountConcat(h.filePathRaw, ":", ':');
      CountZero(h.exportName, ':');
      CountZero(h.filePathRaw, ':');
      assert Count(":", ':') == 1;
    }
  }

  /** The Windows drive path example: loader.js takes `C:\x.js` as the path,
      while server.js's `loadHandler` refuses the spec as malformed. */
  lemma ParsersDisagreeOnDrivePath(resolve: string -> string, rt: Runtime)
    ensures Loader.ParseSpec("C:\\x.js:main") == Ok(Loader.HandlerSpec("C:\\x.js", "main"))
    ensures Server.LoadHandler(Str("C:\\x.js:main"), resolve, rt) == Err(Server.InvalidFormat)
  {
    var path, name := "C:\\x.js", "main";
    assert ':' !in name;
    assert path + ":" + name == "C:\\x.js:main";
    Loader.ParseSpecComplete(path, name);
    Server.WindowsDrivePathRejected(resolve, rt);
  }
}
