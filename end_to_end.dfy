/** How the parts meet: the default settings name a downloadable model, and
    the bridge's argument vectors reach the application's dispatcher. The
    inline-image path does not: the bridge passes `--delete-after <file>`,
    which `process_inputs` ignores, so the image is never tagged and the
    temporary file never removed. `ParseDispatch` and `DispatchArgs` are
    the corrected pair: the `--delete-after` prefix is consumed as a
    clean-up duty and the bridge names the file to process after it. */
module EndToEnd {
  import opened Wrappers
  import opened Text
  import opened Paths
  import opened Config
  import opened ModelManager
  import opened NativeHost
  import opened Processor

  const DELETE_AFTER_FLAG: string := "--delete-after"

  /** The model the default settings point at is one the downloader knows,
      wherever the data directory is. */
  lemma DefaultModelIsDownloadable(base: Option<string>)
    ensures GetModelUrl(ResolveModelPath(DEFAULT_CONFIG.modelPath, base)) == Some(SWINV2_MODEL_URL)
  {
    GetModelUrlInDirectory();
    ResolveKeepsFileName(DEFAULT_CONFIG.modelPath, base);
  }

  /** A page-image request that the bridge launches arrives at the
      application as the same URL to tag. */
  lemma UrlRequestReachesPipeline(req: Request, env: Env)
    requires req.url.Some? && Handle(req, env).launch.Some?
    ensures var launch := Handle(req, env).launch.value;
            ParseInputs([launch.program] + launch.args) == FromUrl(req.url.value)
  {
    HandleLaunch(req, env);
  }

  // ---------------------------------------------------------------------
  // As written: inline images are dropped

  /** A launched inline-image request keeps its temporary file and passes
      the application exactly `--delete-after <file>`. */
  lemma DataLaunchArgs(req: Request, env: Env)
    requires req.url.None? && Handle(req, env).launch.Some?
    ensures var o := Handle(req, env);
            o.tempFile.Some? && o.launch.value.args == [DELETE_AFTER_FLAG, o.tempFile.value.path]
  {
    HandleLaunch(req, env);
    HandleTempFile(req, env);
  }

  /** A launched inline-image request leaves a temporary file behind and
      the application, given `--delete-after <file>`, finds no work: it
      neither tags the image nor touches the tagger or the file. */
  lemma DataRequestIsDropped(req: Request, env: Env, config: AppConfig, slot: Option<State.Tagger>,
                             acquire: WorkItem -> Result<Image, string>, svc: Services)
    requires req.url.None? && Handle(req, env).launch.Some?
    ensures var o := Handle(req, env);
            && o.tempFile.Some?
            && ParseInputs([o.launch.value.program] + o.launch.value.args) == NoOp
            && DispatchEffect([o.launch.value.program] + o.launch.value.args, config, slot, acquire, svc)
               == Dispatched(slot, Success(None))
  {
    DataLaunchArgs(req, env);
    var o := Handle(req, env);
    DeleteAfterIsNoWork(o.launch.value.program, o.tempFile.value.path, config, slot, acquire, svc);
  }

  /** The application reads `--delete-after <file>` as no work, and then
      changes nothing and succeeds. */
  lemma DeleteAfterIsNoWork(program: string, path: string, config: AppConfig, slot: Option<State.Tagger>,
                            acquire: WorkItem -> Result<Image, string>, svc: Services)
    ensures ParseInputs([program] + [DELETE_AFTER_FLAG, path]) == NoOp
    ensures DispatchEffect([program] + [DELETE_AFTER_FLAG, path], config, slot, acquire, svc)
            == Dispatched(slot, Success(None))
  {
    var args := [program] + [DELETE_AFTER_FLAG, path];
    ParseInputsIgnoresOtherFlags(args);
    DispatchNoOpChangesNothing(args, config, slot, acquire, svc);
  }

  // ---------------------------------------------------------------------
  // Corrected: the prefix is consumed and the file is named after it

  /** A parsed command line: the work and the file to delete afterwards. */
  datatype Invocation = Invocation(work: WorkItem, cleanup: Option<string>)

  /** `<app> [--delete-after <path>] (--process-url <url> | <file-path>)`:
      an optional clean-up prefix, then what `process_inputs` reads. */
  function ParseDispatch(args: seq<string>): (r: Invocation)
    ensures r.cleanup.Some? <==> |args| > 2 && args[1] == DELETE_AFTER_FLAG
    ensures r.cleanup.Some? ==> r.cleanup.value == args[2] && r.work == ParseInputs([args[0]] + args[3..])
  {
    if |args| > 2 && args[1] == DELETE_AFTER_FLAG then
      Invocation(ParseInputs([args[0]] + args[3..]), Some(args[2]))
    else
      Invocation(ParseInputs(args), None)
  }

  /** Without the prefix the corrected parser reads what `process_inputs`
      reads and deletes nothing. */
  lemma ParseDispatchExtendsParseInputs(args: seq<string>)
    requires |args| <= 1 || args[1] != DELETE_AFTER_FLAG
    ensures ParseDispatch(args) == Invocation(ParseInputs(args), None)
  {
  }

  /** The prefix alone, with nothing after its path, is harmless: no work,
      the named file is still deleted. */
  lemma DeleteAfterAlone(program: string, path: string)
    ensures ParseDispatch([program, DELETE_AFTER_FLAG, path]) == Invocation(NoOp, Some(path))
  {
    assert [program, DELETE_AFTER_FLAG, path][3..] == [];
    assert [[program, DELETE_AFTER_FLAG, path][0]] + [] == [program];
  }

  /** The corrected bridge arguments: the temporary file, when there is
      one, is named again as the image to process. */
  function DispatchArgs(prep: Prepared): (args: seq<string>)
    ensures prep.tempFile.None? ==> args == prep.args
    ensures prep.tempFile.Some? ==> args == prep.args + [prep.tempFile.value.path]
  {
    match prep.tempFile
    case None => prep.args
    case Some(file) => prep.args + [file.path]
  }

  /** The files on disk after the application finishes: the clean-up path
      is deleted whatever became of the work. */
  function AfterDispatch(present: set<string>, inv: Invocation): (after: set<string>)
    ensures inv.cleanup.Some? ==> after == present - {inv.cleanup.value}
    ensures inv.cleanup.None? ==> after == present
  {
    match inv.cleanup
    case Some(p) => present - {p}
    case None => present
  }

  /** A temporary file lives under the (absolute) temporary directory, so
      its path is never taken for a flag. */
  lemma TempPathIsNotFlag(data: string, env: Env)
    requires IsAbsolute(env.tempDir) && MaterializeDataUri(data, env).Success?
    ensures !StartsWith(MaterializeDataUri(data, env).value.path, "--")
  {
    var uri := SplitDataUri(data).value;
    var name := TempFileName(env.nowMillis, ExtensionFor(uri.header));
    assert name[0] == 'o';
    assert IsAbsolute(JoinPath(env.tempDir, name));
  }

  /** With the corrected pair every prepared request reaches the pipeline:
      a URL as the URL to fetch, an inline image as its temporary file,
      which is also the file deleted afterwards. */
  lemma CorrectedBridgeReachesPipeline(req: Request, env: Env, program: string)
    requires IsAbsolute(env.tempDir) && PrepareArgs(req, env).Success?
    ensures var prep := PrepareArgs(req, env).value;
            var inv := ParseDispatch([program] + DispatchArgs(prep));
            if req.url.Some? then inv == Invocation(FromUrl(req.url.value), None)
            else inv == Invocation(FromFile(prep.tempFile.value.path), Some(prep.tempFile.value.path))
  {
    var prep := PrepareArgs(req, env).value;
    var args := [program] + DispatchArgs(prep);
    if req.url.Some? {
      assert args == [program, PROCESS_URL_FLAG, req.url.value];
    } else {
      var path := prep.tempFile.value.path;
      assert args == [program, DELETE_AFTER_FLAG, path, path];
      assert [args[0]] + args[3..] == [program, path];
      TempPathIsNotFlag(req.data.value, env);
    }
  }

  /** With the correction, once the application has run, the temporary
      file of an inline-image request is gone and nothing else is; as
      written (`DataRequestIsDropped`) it stays. */
  lemma CorrectedBridgeCleansUp(req: Request, env: Env, program: string, present: set<string>)
    requires IsAbsolute(env.tempDir) && req.url.None? && PrepareArgs(req, env).Success?
    ensures var prep := PrepareArgs(req, env).value;
            && prep.tempFile.Some?
            && AfterDispatch(present, ParseDispatch([program] + DispatchArgs(prep)))
               == present - {prep.tempFile.value.path}
  {
    CorrectedBridgeReachesPipeline(req, env, program);
  }
}
