/** The native-messaging bridge (`src-tauri/src/bin/native_host.rs`): it
    reads framed JSON requests from the browser extension, turns each into an
    argument vector for the desktop application, finds and launches that
    application, and answers with a framed JSON response. */
module NativeHost {
  import opened Wrappers
  import opened Text
  import opened Paths
  import opened Framing

  /** `struct Request` as deserialised from the request JSON. */
  datatype Request = Request(url: Option<string>, data: Option<string>)

  /** The two values the `status` field takes: `"ok"` and `"error"`. */
  datatype Status = Ok | Error

  /** `struct Response` before serialisation. */
  datatype Response = Response(status: Status, message: string)

  function ErrorResponse(message: string): Response {
    Response(Error, message)
  }

  const STARTED: Response := Response(Ok, "Processing started")

  const NO_SOURCE_MSG: string := "No URL or data provided"
  const NOT_DATA_URI_MSG: string := "Invalid data URI format (must start with data:)"
  const NO_COMMA_MSG: string := "Invalid data URI format"
  const DECODE_FAILED: string := "Failed to decode base64: "
  const WRITE_TEMP_FAILED: string := "Failed to write temp file: "

  /** The target of the conditional compilation in the locator. */
  datatype Platform = Windows | Unix

  /** A file the bridge wrote into the temporary directory. */
  datatype TempFile = TempFile(path: string, contents: seq<byte>)

  /** A spawn of the application: the executable and its arguments. */
  datatype Launch = Launch(program: string, args: seq<string>)

  /** What `handle_request` observes of its process and machine. An
      operation's error is the text its `Display` gives. */
  datatype Env = Env(
    platform: Platform,
    currentExe: Result<string, string>,                  // env::current_exe()
    fileExists: string -> bool,                          // Path::exists
    tempDir: string,                                     // env::temp_dir()
    nowMillis: nat,                                      // milliseconds since the Unix epoch
    decodeBase64: string -> Result<seq<byte>, string>,   // general_purpose::STANDARD.decode
    writeFile: (string, seq<byte>) -> Option<string>,    // fs::write: Some(error) on failure
    spawn: Launch -> Option<string>)                     // Command::spawn: Some(error) on failure

  // ---------------------------------------------------------------------
  // Request -> argument vector

  /** A data URI cut at its first comma. */
  datatype DataUri = DataUri(header: string, payload: string)

  /** The checks and the split of a `data` field: it must start with
      `data:`; the header is the text before the first comma and the base64
      payload everything after it. */
  function SplitDataUri(data: string): (r: Result<DataUri, string>)
    ensures r.Success? <==> StartsWith(data, "data:") && ',' in data
    ensures r.Success? ==>
              data == r.value.header + "," + r.value.payload && ',' !in r.value.header
    ensures !StartsWith(data, "data:") ==> r == Failure(NOT_DATA_URI_MSG)
    ensures StartsWith(data, "data:") && ',' !in data ==> r == Failure(NO_COMMA_MSG)
  {
    if !StartsWith(data, "data:") then Failure(NOT_DATA_URI_MSG)
    else
      match FindChar(data, ',')
      case None => Failure(NO_COMMA_MSG)
      case Some(i) =>
        assert data == data[..i] + "," + data[i + 1..];
        Success(DataUri(data[..i], data[i + 1..]))
  }

  /** The temporary file's extension from the data URI header; the first
      matching MIME type wins and PNG is the fallback. */
  function ExtensionFor(header: string): (ext: string)
    ensures ext == "png" <==>
              Contains(header, "image/png")
              || !(Contains(header, "image/jpeg") || Contains(header, "image/jpg")
                   || Contains(header, "image/webp"))
    ensures ext == "jpg" <==>
              !Contains(header, "image/png")
              && (Contains(header, "image/jpeg") || Contains(header, "image/jpg"))
    ensures ext == "webp" <==>
              !Contains(header, "image/png") && !Contains(header, "image/jpeg")
              && !Contains(header, "image/jpg") && Contains(header, "image/webp")
  {
    if Contains(header, "image/png") then "png"
    else if Contains(header, "image/jpeg") || Contains(header, "image/jpg") then "jpg"
    else if Contains(header, "image/webp") then "webp"
    else "png"
  }

  /** `omni_tagger_<millis>.<ext>` */
  function TempFileName(millis: nat, ext: string): string {
    "omni_tagger_" + Decimal(millis) + "." + ext
  }

  /** Temporary file names are distinct for distinct timestamps or
      extensions: two requests collide only within the same millisecond. */
  lemma TempFileNameInjective(m1: nat, e1: string, m2: nat, e2: string)
    requires '.' !in e1 && '.' !in e2
    requires TempFileName(m1, e1) == TempFileName(m2, e2)
    ensures m1 == m2 && e1 == e2
  {
    var prefix := "omni_tagger_";
    var d1, d2 := Decimal(m1), Decimal(m2);
    var name := TempFileName(m1, e1);
    assert '.' !in prefix + d1 && '.' !in prefix + d2;
    assert name == (prefix + d1) + ['.'] + e1;
    assert name == (prefix + d2) + ['.'] + e2;
    FindCharAfterPrefix(prefix + d1, '.', e1);
    FindCharAfterPrefix(prefix + d2, '.', e2);
    assert |d1| == |d2|;
    assert d1 == name[|prefix|..|prefix| + |d1|] == d2;
    DecimalInjective(m1, m2);
    assert e1 == name[|prefix| + |d1| + 1..] == e2;
  }

  /** Where an inline image with this header is written. */
  function TempPath(env: Env, header: string): string {
    JoinPath(env.tempDir, TempFileName(env.nowMillis, ExtensionFor(header)))
  }

  /** The inline-image branch: split the URI, decode its payload and write it
      to `omni_tagger_<millis>.<ext>` in the temporary directory. It succeeds
      exactly when all three steps do, and each failing step has its own
      error. */
  function MaterializeDataUri(data: string, env: Env): (r: Result<TempFile, string>)
    ensures SplitDataUri(data).Failure? ==> r == Failure(SplitDataUri(data).error)
    ensures SplitDataUri(data).Success? ==>
              var uri := SplitDataUri(data).value;
              && (env.decodeBase64(uri.payload).Failure? ==>
                    r == Failure(DECODE_FAILED + env.decodeBase64(uri.payload).error))
              && (env.decodeBase64(uri.payload).Success? ==>
                    var decoded := env.decodeBase64(uri.payload).value;
                    var path := TempPath(env, uri.header);
                    && (env.writeFile(path, decoded).Some? ==>
                          r == Failure(WRITE_TEMP_FAILED + env.writeFile(path, decoded).value))
                    && (env.writeFile(path, decoded).None? ==> r == Success(TempFile(path, decoded))))
    ensures r.Success? <==>
              && SplitDataUri(data).Success?
              && env.decodeBase64(SplitDataUri(data).value.payload).Success?
              && env.writeFile(TempPath(env, SplitDataUri(data).value.header),
                               env.decodeBase64(SplitDataUri(data).value.payload).value) == None
    ensures r.Success? ==>
              var uri := SplitDataUri(data).value;
              && env.decodeBase64(uri.payload) == Success(r.value.contents)
              && r.value.path == TempPath(env, uri.header)
              && env.writeFile(r.value.path, r.value.contents) == None
  {
    match SplitDataUri(data)
    case Failure(e) => Failure(e)
    case Success(uri) =>
      match env.decodeBase64(uri.payload)
      case Failure(e) => Failure(DECODE_FAILED + e)
      case Success(decoded) =>
        var path := TempPath(env, uri.header);
        match env.writeFile(path, decoded)
        case Some(e) => Failure(WRITE_TEMP_FAILED + e)
        case None => Success(TempFile(path, decoded))
  }

  /** The argument vector for the application and the temporary file written for it. */
  datatype Prepared = Prepared(args: seq<string>, tempFile: Option<TempFile>)

  /** First stage of `handle_request`: `url` wins over `data`; neither is an error. */
  function PrepareArgs(req: Request, env: Env): (r: Result<Prepared, string>)
    ensures req.url.Some? ==> r == Success(Prepared(["--process-url", req.url.value], None))
    ensures req.url.None? && req.data.None? ==> r == Failure(NO_SOURCE_MSG)
    ensures req.url.None? && req.data.Some? ==>
              match MaterializeDataUri(req.data.value, env)
              case Success(file) => r == Success(Prepared(["--delete-after", file.path], Some(file)))
              case Failure(e) => r == Failure(e)
    ensures r.Success? ==>
              && (r.value.tempFile.Some? <==> req.url.None?)
              && r.value.args == (if req.url.Some? then ["--process-url", req.url.value]
                                  else ["--delete-after", r.value.tempFile.value.path])
  {
    if req.url.Some? then Success(Prepared(["--process-url", req.url.value], None))
    else if req.data.Some? then
      match MaterializeDataUri(req.data.value, env)
      case Success(file) => Success(Prepared(["--delete-after", file.path], Some(file)))
      case Failure(e) => Failure(e)
    else Failure(NO_SOURCE_MSG)
  }

  // ---------------------------------------------------------------------
  // Executable locator

  function AppName(platform: Platform): string {
    if platform == Windows then "omni-tagger.exe" else "omni-tagger"
  }

  /** `current_exe.parent().unwrap_or(".")` */
  function ExeDir(exe: string): string {
    ParentDir(exe).GetOr(".")
  }

  /** The application beside the bridge. */
  function LocalCandidate(exeDir: string, platform: Platform): string {
    JoinPath(exeDir, AppName(platform))
  }

  /** The application one directory up (`exe_dir.parent().unwrap_or(exe_dir)`). */
  function ParentCandidate(exeDir: string, platform: Platform): string {
    JoinPath(ParentDir(exeDir).GetOr(exeDir), AppName(platform))
  }

  /** The search list in order; the system directories only off Windows. */
  function Candidates(exeDir: string, platform: Platform): (c: seq<string>)
    ensures |c| == (if platform == Windows then 2 else 4)
    ensures c[0] == LocalCandidate(exeDir, platform) && c[1] == ParentCandidate(exeDir, platform)
    ensures platform == Unix ==>
              c[2] == JoinPath("/usr/bin", AppName(platform)) && c[3] == JoinPath("/usr/local/bin", AppName(platform))
  {
    [LocalCandidate(exeDir, platform), ParentCandidate(exeDir, platform)]
    + (if platform == Windows then []
       else [JoinPath("/usr/bin", AppName(platform)), JoinPath("/usr/local/bin", AppName(platform))])
  }

  /** The first candidate that exists. */
  function FirstExisting(candidates: seq<string>, fileExists: string -> bool): (r: Option<string>)
    ensures r.Some? <==> exists i :: 0 <= i < |candidates| && fileExists(candidates[i])
    ensures r.Some? ==>
              exists i :: 0 <= i < |candidates| && candidates[i] == r.value && fileExists(r.value)
                          && forall j :: 0 <= j < i ==> !fileExists(candidates[j])
  {
    if |candidates| == 0 then None
    else if fileExists(candidates[0]) then Some(candidates[0])
    else
      var r := FirstExisting(candidates[1..], fileExists);
      assert forall i :: 1 <= i < |candidates| ==> candidates[i] == candidates[1..][i - 1];
      r
  }

  /** On a search list of two or four paths `FirstExisting` tries them in
      order. */
  lemma SearchOrder(c: seq<string>, fileExists: string -> bool)
    requires |c| == 2 || |c| == 4
    ensures FirstExisting(c, fileExists)
            == if fileExists(c[0]) then Some(c[0])
               else if fileExists(c[1]) then Some(c[1])
               else if |c| == 2 then None
               else if fileExists(c[2]) then Some(c[2])
               else if fileExists(c[3]) then Some(c[3])
               else None
  {
    assert c[1..][1..] == c[2..];
    if |c| == 4 {
      assert c[2..][1..] == c[3..] && c[3..][1..] == [];
    }
  }

  /** The locator as written: two checks, then on Unix two more, each
      reassigning `found_path` only while nothing has been found. */
  method Locate(exeDir: string, platform: Platform, fileExists: string -> bool)
    returns (found: Option<string>)
    ensures found == FirstExisting(Candidates(exeDir, platform), fileExists)
  {
    var appName := AppName(platform);
    var appPathLocal := JoinPath(exeDir, appName);
    var appPathParent := JoinPath(ParentDir(exeDir).GetOr(exeDir), appName);
    found := None;
    if fileExists(appPathLocal) {
      found := Some(appPathLocal);
    } else if fileExists(appPathParent) {
      found := Some(appPathParent);
    }
    if platform == Unix && found.None? {
      var p1 := JoinPath("/usr/bin", appName);
      var p2 := JoinPath("/usr/local/bin", appName);
      if fileExists(p1) {
        found := Some(p1);
      } else if fileExists(p2) {
        found := Some(p2);
      }
    }
    var c := Candidates(exeDir, platform);
    SearchOrder(c, fileExists);
  }

  const NOT_FOUND_HEAD: string := "App executable not found. Searched at "
  const NOT_FOUND_TAIL: string := " (and system paths on Linux)"
  const EXE_PATH_FAILED: string := "Failed to get exe path: "
  const LAUNCH_FAILED: string := "Failed to launch app: "

  /** The not-found error names the local and the parent candidate. */
  function NotFoundMessage(exeDir: string, platform: Platform): string {
    NOT_FOUND_HEAD + Quoted(LocalCandidate(exeDir, platform))
    + ", " + Quoted(ParentCandidate(exeDir, platform)) + NOT_FOUND_TAIL
  }

  // ---------------------------------------------------------------------
  // handle_request

  /** A request's effects: the response, the temporary file left on disk and
      the spawn attempted. */
  datatype Outcome = Outcome(response: Response, tempFile: Option<TempFile>, launch: Option<Launch>)

  /** The second half of `handle_request`: find the application beside the
      bridge and spawn it with the prepared arguments. Each failure has its
      own response and spawns nothing; the answer is "ok" exactly when the
      spawn succeeded. */
  function LaunchApp(prep: Prepared, env: Env): (o: Outcome)
    ensures o.tempFile == prep.tempFile
    ensures env.currentExe.Failure? ==>
              o.response == ErrorResponse(EXE_PATH_FAILED + env.currentExe.error) && o.launch.None?
    ensures env.currentExe.Success?
            && (forall c :: c in Candidates(ExeDir(env.currentExe.value), env.platform) ==> !env.fileExists(c)) ==>
              o.response == ErrorResponse(NotFoundMessage(ExeDir(env.currentExe.value), env.platform))
              && o.launch.None?
    ensures o.launch.Some? ==>
              && env.currentExe.Success?
              && Some(o.launch.value.program)
                 == FirstExisting(Candidates(ExeDir(env.currentExe.value), env.platform), env.fileExists)
              && o.launch.value.args == prep.args
    ensures env.currentExe.Success?
            && FirstExisting(Candidates(ExeDir(env.currentExe.value), env.platform), env.fileExists).Some? ==>
              o.launch == Some(Launch(FirstExisting(Candidates(ExeDir(env.currentExe.value), env.platform),
                                                    env.fileExists).value, prep.args))
    ensures o.launch.Some? && env.spawn(o.launch.value).Some? ==>
              o.response == ErrorResponse(LAUNCH_FAILED + env.spawn(o.launch.value).value)
    ensures o.response.status == Ok <==> o.launch.Some? && env.spawn(o.launch.value).None?
    ensures o.response.status == Ok ==> o.response == STARTED
  {
    match env.currentExe
    case Failure(e) => Outcome(ErrorResponse(EXE_PATH_FAILED + e), prep.tempFile, None)
    case Success(exe) =>
      var exeDir := ExeDir(exe);
      match FirstExisting(Candidates(exeDir, env.platform), env.fileExists)
      case None => Outcome(ErrorResponse(NotFoundMessage(exeDir, env.platform)), prep.tempFile, None)
      case Some(app) =>
        var launch := Launch(app, prep.args);
        match env.spawn(launch)
        case None => Outcome(STARTED, prep.tempFile, Some(launch))
        case Some(e) => Outcome(ErrorResponse(LAUNCH_FAILED + e), prep.tempFile, Some(launch))
  }

  /** What `handle_request` does with one request (its properties are the
      lemmas below). */
  function Handle(req: Request, env: Env): Outcome
  {
    match PrepareArgs(req, env)
    case Failure(msg) => Outcome(ErrorResponse(msg), None, None)
    case Success(prep) => LaunchApp(prep, env)
  }

  /** The bridge answers "ok" exactly when it spawned the application, and
      then with "Processing started"; every other answer is an error. */
  lemma HandleOkIffSpawned(req: Request, env: Env)
    ensures var o := Handle(req, env);
            && (o.response.status == Ok <==> o.launch.Some? && env.spawn(o.launch.value).None?)
            && (o.response.status == Ok ==> o.response == STARTED)
  {
  }

  /** A temporary file is left behind exactly when a request carried a data
      URI that was split, decoded and written; it stays even when the
      executable is then not found or fails to spawn. */
  lemma HandleTempFile(req: Request, env: Env)
    ensures var o := Handle(req, env);
            o.tempFile.Some? <==>
            req.url.None? && req.data.Some? && MaterializeDataUri(req.data.value, env).Success?
  {
  }

  /** A spawn is attempted exactly when the arguments are prepared, the
      bridge knows its own executable and some candidate exists; it runs the
      first existing candidate with `--process-url <url>` or
      `--delete-after <temp file>`. */
  lemma HandleLaunch(req: Request, env: Env)
    ensures var o := Handle(req, env);
            o.launch.Some? ==>
              && env.currentExe.Success?
              && Some(o.launch.value.program)
                 == FirstExisting(Candidates(ExeDir(env.currentExe.value), env.platform), env.fileExists)
              && o.launch.value.args
                 == (if req.url.Some? then ["--process-url", req.url.value]
                     else ["--delete-after", o.tempFile.value.path])
    ensures Handle(req, env).launch.Some? <==>
              && PrepareArgs(req, env).Success?
              && env.currentExe.Success?
              && exists i :: 0 <= i < |Candidates(ExeDir(env.currentExe.value), env.platform)|
                             && env.fileExists(Candidates(ExeDir(env.currentExe.value), env.platform)[i])
  {
  }

  /** Each failure has its own response and stops before any spawn: the
      argument error itself, the executable-path error, the not-found error
      naming the two nearby candidates when no candidate exists, and the
      spawn error. */
  lemma HandleErrorResponses(req: Request, env: Env)
    ensures var o := Handle(req, env);
            && (PrepareArgs(req, env).Failure? ==>
                  o == Outcome(ErrorResponse(PrepareArgs(req, env).error), None, None))
            && (PrepareArgs(req, env).Success? && env.currentExe.Failure? ==>
                  o.response == ErrorResponse(EXE_PATH_FAILED + env.currentExe.error) && o.launch.None?)
            && (PrepareArgs(req, env).Success? && env.currentExe.Success?
                && (forall c :: c in Candidates(ExeDir(env.currentExe.value), env.platform) ==> !env.fileExists(c)) ==>
                  o.response == ErrorResponse(NotFoundMessage(ExeDir(env.currentExe.value), env.platform))
                  && o.launch.None?)
            && (o.launch.Some? && env.spawn(o.launch.value).Some? ==>
                  o.response == ErrorResponse(LAUNCH_FAILED + env.spawn(o.launch.value).value))
  {
  }

  /** The first half of `handle_request` as written: pushes onto
      `command_args`, returning early with the error of each failed check. */
  method BuildCommandArgs(req: Request, env: Env) returns (r: Result<Prepared, string>)
    ensures r == PrepareArgs(req, env)
  {
    var commandArgs: seq<string> := [];
    if req.url.Some? {
      commandArgs := commandArgs + ["--process-url"];
      commandArgs := commandArgs + [req.url.value];
      assert commandArgs == ["--process-url", req.url.value];
      return Success(Prepared(commandArgs, None));
    } else if req.data.Some? {
      var data := req.data.value;
      if !StartsWith(data, "data:") {
        return Failure(NOT_DATA_URI_MSG);
      }
      var comma := FindChar(data, ',');
      if comma.None? {
        return Failure(NO_COMMA_MSG);
      }
      var header := data[..comma.value];
      var base64Data := data[comma.value + 1..];
      var extension := ExtensionFor(header);
      var decoded := env.decodeBase64(base64Data);
      if decoded.Failure? {
        return Failure(DECODE_FAILED + decoded.error);
      }
      var filePath := JoinPath(env.tempDir, TempFileName(env.nowMillis, extension));
      var written := env.writeFile(filePath, decoded.value);
      if written.Some? {
        return Failure(WRITE_TEMP_FAILED + written.value);
      }
      assert SplitDataUri(data) == Success(DataUri(header, base64Data));
      assert MaterializeDataUri(data, env) == Success(TempFile(filePath, decoded.value));
      commandArgs := commandArgs + ["--delete-after"];
      commandArgs := commandArgs + [filePath];
      assert commandArgs == ["--delete-after", filePath];
      return Success(Prepared(commandArgs, Some(TempFile(filePath, decoded.value))));
    } else {
      return Failure(NO_SOURCE_MSG);
    }
  }

  /** `handle_request` as written: the argument vector, then the executable
      path, the locator and the spawn, each failure answered with an error. */
  method HandleRequest(req: Request, env: Env) returns (o: Outcome)
    ensures o == Handle(req, env)
  {
    var prepared := BuildCommandArgs(req, env);
    if prepared.Failure? {
      return Outcome(ErrorResponse(prepared.error), None, None);
    }
    var commandArgs := prepared.value.args;
    var tempFile := prepared.value.tempFile;
    if env.currentExe.Failure? {
      return Outcome(ErrorResponse(EXE_PATH_FAILED + env.currentExe.error), tempFile, None);
    }
    var exeDir := ExeDir(env.currentExe.value);
    var appPath := Locate(exeDir, env.platform, env.fileExists);
    if appPath.None? {
      return Outcome(ErrorResponse(NotFoundMessage(exeDir, env.platform)), tempFile, None);
    }
    var launch := Launch(appPath.value, commandArgs);
    var spawned := env.spawn(launch);
    if spawned.None? {
      o := Outcome(STARTED, tempFile, Some(launch));
    } else {
      o := Outcome(ErrorResponse(LAUNCH_FAILED + spawned.value), tempFile, Some(launch));
    }
  }

  // ---------------------------------------------------------------------
  // main: the frame loop

  /** The JSON and UTF-8 layers the loop relies on. */
  datatype Codecs = Codecs(
    utf8: seq<byte> -> Option<string>,                  // String::from_utf8
    parseRequest: string -> Result<Request, string>,    // serde_json::from_str::<Request>
    serialize: Response -> seq<byte>)                   // serde_json::to_string(..).as_bytes()

  const INVALID_JSON_PREFIX: string := "Invalid JSON: "

  /** The response to one decoded message. */
  function Reply(text: string, env: Env, codecs: Codecs): Response {
    match codecs.parseRequest(text)
    case Success(req) => Handle(req, env).response
    case Failure(e) => ErrorResponse(INVALID_JSON_PREFIX + e)
  }

  /** How `main` ends: `Ok(())` after end of file on a length, or an error. */
  datatype Exit = Closed | Failed(error: ReadError)

  /** How the loop ends and all it wrote to stdout. */
  datatype Session = Session(exit: Exit, output: seq<byte>)

  /** A session with `out` written before everything it wrote. */
  function Prepend(out: seq<byte>, s: Session): Session {
    Session(s.exit, out + s.output)
  }

  /** Writing `a` and then `b` in front of a session is writing `a + b`. */
  lemma PrependTwice(a: seq<byte>, b: seq<byte>, s: Session)
    ensures Prepend(a, Prepend(b, s)) == Prepend(a + b, s)
  {
    assert a + (b + s.output) == (a + b) + s.output;
  }

  /** The loop from message number `k` on; `envs(k)` is the machine as the
      k-th request sees it. */
  function Serve(input: Stream, k: nat, envs: nat -> Env, codecs: Codecs, e: Endian): Session
    decreases |input.bytes|
  {
    match ReadFrame(input, e)
    case EndOfStream => Session(Closed, [])
    case Broken(err) => Session(Failed(err), [])
    case Frame(payload, rest) =>
      match codecs.utf8(payload)
      case None => Session(Failed(InvalidUtf8), [])
      case Some(text) =>
        var tail := Serve(Stream(rest, input.failsAtEnd), k + 1, envs, codecs, e);
        Session(tail.exit, WriteFrame(codecs.serialize(Reply(text, envs(k), codecs)), e) + tail.output)
  }

  /** One answered request unfolds the loop by one frame. */
  lemma ServeStep(s: Stream, k: nat, envs: nat -> Env, codecs: Codecs, e: Endian,
                  payload: seq<byte>, rest: seq<byte>, text: string)
    requires ReadFrame(s, e) == Frame(payload, rest) && codecs.utf8(payload) == Some(text)
    ensures var tail := Serve(Stream(rest, s.failsAtEnd), k + 1, envs, codecs, e);
            Serve(s, k, envs, codecs, e)
            == Session(tail.exit, WriteFrame(codecs.serialize(Reply(text, envs(k), codecs)), e) + tail.output)
  {
  }

  /** The body of `main`'s loop after decoding: dispatch a parsed request,
      or answer a parse failure with an "Invalid JSON" error. */
  method Respond(text: string, env: Env, codecs: Codecs) returns (response: Response)
    ensures response == Reply(text, env, codecs)
  {
    match codecs.parseRequest(text) {
      case Success(req) =>
        var o := HandleRequest(req, env);
        response := o.response;
      case Failure(err) =>
        response := ErrorResponse(INVALID_JSON_PREFIX + err);
    }
  }

  /** `read_u32` followed by `read_exact` on what is left of stdin. */
  method ReadMessage(s: Stream, e: Endian) returns (r: FrameRead)
    ensures r == ReadFrame(s, e)
  {
    if |s.bytes| < 4 {
      // end of file inside the length: a clean close unless the read failed
      return if s.failsAtEnd then Broken(ReadFailure) else EndOfStream;
    }
    var length := DecodeU32(s.bytes[..4], e);
    if |s.bytes| - 4 < length {
      return Broken(if s.failsAtEnd then ReadFailure else TruncatedBody);
    }
    r := Frame(s.bytes[4..][..length], s.bytes[4..][length..]);
  }

  /** One pass of `main`'s loop over what is left of stdin, answering
      message number `k`: either the loop stops with `exit`, or it writes
      `frame` and goes on with `next`. */
  method ServeOnce(s: Stream, k: nat, envs: nat -> Env, codecs: Codecs, e: Endian)
    returns (done: bool, exit: Exit, frame: seq<byte>, next: Stream)
    ensures done ==> Serve(s, k, envs, codecs, e) == Session(exit, [])
    ensures !done ==> |next.bytes| < |s.bytes| && next.failsAtEnd == s.failsAtEnd
    ensures !done ==> Serve(s, k, envs, codecs, e) == Prepend(frame, Serve(next, k + 1, envs, codecs, e))
  {
    frame, next := [], s;
    var read := ReadMessage(s, e);
    if read.EndOfStream? {
      return true, Closed, frame, next;
    } else if read.Broken? {
      return true, Failed(read.error), frame, next;
    }
    var buffer := read.payload;
    next := Stream(read.rest, s.failsAtEnd);
    var requestStr := codecs.utf8(buffer);
    if requestStr.None? {
      return true, Failed(InvalidUtf8), frame, next;
    }
    var response := Respond(requestStr.value, envs(k), codecs);
    frame := WriteFrame(codecs.serialize(response), e);
    ServeStep(s, k, envs, codecs, e, buffer, read.rest, requestStr.value);
    done, exit := false, Closed;
  }

  /** `main` as written: read a length, read the body, decode, answer, repeat. */
  method RunHost(input: Stream, envs: nat -> Env, codecs: Codecs, e: Endian)
    returns (exit: Exit, output: seq<byte>)
    ensures Session(exit, output) == Serve(input, 0, envs, codecs, e)
  {
    var stdin, k := input, 0;
    output := [];
    assert [] + Serve(input, 0, envs, codecs, e).output == Serve(input, 0, envs, codecs, e).output;
    while true
      invariant Serve(input, 0, envs, codecs, e) == Prepend(output, Serve(stdin, k, envs, codecs, e))
      decreases |stdin.bytes|
    {
      var done, stop, frame, next := ServeOnce(stdin, k, envs, codecs, e);
      if done {
        exit := stop;
        assert output + [] == output;
        return;
      }
      PrependTwice(output, frame, Serve(next, k + 1, envs, codecs, e));
      output := output + frame;
      stdin, k := next, k + 1;
    }
  }

  // ---------------------------------------------------------------------
  // Properties of the loop

  /** The serialised replies to a run of well-formed messages. */
  function ReplyPayloads(payloads: seq<seq<byte>>, k: nat, envs: nat -> Env, codecs: Codecs): seq<seq<byte>>
    requires forall i :: 0 <= i < |payloads| ==> codecs.utf8(payloads[i]).Some?
  {
    if |payloads| == 0 then []
    else [codecs.serialize(Reply(codecs.utf8(payloads[0]).value, envs(k), codecs))]
         + ReplyPayloads(payloads[1..], k + 1, envs, codecs)
  }

  /** A stream of whole UTF-8 frames that the peer then closes is answered
      frame by frame, one response per request in order, and the loop ends
      with `Ok(())`: per-request errors never end the connection. */
  lemma {:induction false} ServeFrames(payloads: seq<seq<byte>>, k: nat, envs: nat -> Env, codecs: Codecs, e: Endian)
    requires forall i :: 0 <= i < |payloads| ==> |payloads[i]| < U32_LIMIT && codecs.utf8(payloads[i]).Some?
    ensures Serve(Stream(Frames(payloads, e), false), k, envs, codecs, e)
            == Session(Closed, Frames(ReplyPayloads(payloads, k, envs, codecs), e))
  {
    if |payloads| > 0 {
      var rest := Frames(payloads[1..], e);
      FrameRoundTrip(payloads[0], rest, false, e);
      ServeFrames(payloads[1..], k + 1, envs, codecs, e);
    }
  }

  /** A message that is not a valid `Request` is answered with an
      `"Invalid JSON: …"` error and the loop goes on with the next frame. */
  lemma InvalidJsonContinues(payload: seq<byte>, rest: seq<byte>, failsAtEnd: bool, k: nat,
                             envs: nat -> Env, codecs: Codecs, e: Endian)
    requires |payload| < U32_LIMIT && codecs.utf8(payload).Some?
    requires codecs.parseRequest(codecs.utf8(payload).value).Failure?
    ensures var tail := Serve(Stream(rest, failsAtEnd), k + 1, envs, codecs, e);
            var err := codecs.parseRequest(codecs.utf8(payload).value).error;
            Serve(Stream(WriteFrame(payload, e) + rest, failsAtEnd), k, envs, codecs, e)
            == Session(tail.exit, WriteFrame(codecs.serialize(ErrorResponse(INVALID_JSON_PREFIX + err)), e) + tail.output)
  {
    FrameRoundTrip(payload, rest, failsAtEnd, e);
  }

  /** End of file in the length read (an empty stream or a 1-3 byte partial
      header) ends the loop with `Ok(())` and writes nothing. */
  lemma ShortHeaderCloses(bytes: seq<byte>, k: nat, envs: nat -> Env, codecs: Codecs, e: Endian)
    requires |bytes| < 4
    ensures Serve(Stream(bytes, false), k, envs, codecs, e) == Session(Closed, [])
  {
  }
}
