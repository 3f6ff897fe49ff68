/** Provisioning of the model files (`src-tauri/src/model_manager.rs`):
    which URL a model file comes from, the decision of what to fetch at
    start-up, and the download loop with its running byte counter. */
module ModelManager {
  import opened Wrappers
  import opened Paths
  import opened Framing

  const SWINV2_MODEL_URL: string :=
    "https://huggingface.co/SmilingWolf/wd-v1-4-swinv2-tagger-v2/resolve/main/model.onnx"
  const CONVNEXT_MODEL_URL: string :=
    "https://huggingface.co/SmilingWolf/wd-v1-4-convnext-tagger-v2/resolve/main/model.onnx"
  const CONVNEXTV2_MODEL_URL: string :=
    "https://huggingface.co/SmilingWolf/wd-v1-4-convnextv2-tagger-v2/resolve/main/model.onnx"
  const TAGS_URL: string :=
    "https://huggingface.co/SmilingWolf/wd-v1-4-swinv2-tagger-v2/resolve/main/selected_tags.csv"

  // ---------------------------------------------------------------------
  // get_model_url

  /** `get_model_url`: the download location of a model, chosen by the
      file name alone. */
  function GetModelUrl(path: string): (r: Option<string>)
    ensures r.Some? <==>
              FileName(path) in {Some("model.onnx"), Some("convnext.onnx"), Some("convnextv2.onnx")}
    ensures FileName(path) == Some("model.onnx") ==> r == Some(SWINV2_MODEL_URL)
    ensures FileName(path) == Some("convnext.onnx") ==> r == Some(CONVNEXT_MODEL_URL)
    ensures FileName(path) == Some("convnextv2.onnx") ==> r == Some(CONVNEXTV2_MODEL_URL)
  {
    match FileName(path)
    case Some(name) =>
      if name == "model.onnx" then Some(SWINV2_MODEL_URL)
      else if name == "convnext.onnx" then Some(CONVNEXT_MODEL_URL)
      else if name == "convnextv2.onnx" then Some(CONVNEXTV2_MODEL_URL)
      else None
    case None => None
  }

  /** The directories in front of a model file do not change its URL. */
  lemma ModelUrlIgnoresDirectory(dir: string, path: string)
    requires path != "" && !IsAbsolute(path) && Trim(path) != "."
    ensures GetModelUrl(JoinPath(dir, path)) == GetModelUrl(path)
  {
    FileNameOfJoin(dir, path);
  }

  /** The unit test's relative path in a directory. */
  lemma GetModelUrlInDirectory()
    ensures GetModelUrl("models/model.onnx") == Some(SWINV2_MODEL_URL)
  {
    BareFileName("model.onnx");
    assert "models/model.onnx" == "models" + [Separator] + "model.onnx";
    FileNameAfterSeparator("models", "model.onnx");
  }

  /** The unit test's absolute path. */
  lemma GetModelUrlAbsolute()
    ensures GetModelUrl("/abs/path/to/convnext.onnx") == Some(CONVNEXT_MODEL_URL)
  {
    BareFileName("convnext.onnx");
    assert "/abs/path/to/convnext.onnx" == "/abs/path/to" + [Separator] + "convnext.onnx";
    FileNameAfterSeparator("/abs/path/to", "convnext.onnx");
  }

  /** The unit test's bare names, one known and one not. */
  lemma GetModelUrlBareNames()
    ensures GetModelUrl("convnextv2.onnx") == Some(CONVNEXTV2_MODEL_URL)
    ensures GetModelUrl("custom_model.onnx") == None
  {
    BareFileName("convnextv2.onnx");
    BareFileName("custom_model.onnx");
  }

  /** The unit test's file of another kind in a directory. */
  lemma GetModelUrlOtherFile()
    ensures GetModelUrl("some/other/file.txt") == None
  {
    BareFileName("file.txt");
    assert "some/other/file.txt" == "some/other" + [Separator] + "file.txt";
    FileNameAfterSeparator("some/other", "file.txt");
  }

  /** `check_file_exists`: whether the path is among the files present. */
  predicate CheckFileExists(present: set<string>, path: string) {
    path in present
  }


  // ---------------------------------------------------------------------
  // download_file

  /** One item of the response body stream: a chunk, or a transport error. */
  datatype StreamItem = Chunk(bytes: seq<byte>) | StreamError

  /** The server's answer: its `Content-Length`, if sent, and the body. */
  datatype HttpResponse = HttpResponse(contentLength: Option<nat>, body: seq<StreamItem>)

  /** The network and the disk as `download_file` sees them: `get` answers
      a URL or fails to connect; `createDirAll` and `create` report whether
      the directory and the file could be created; `writeOk(dest, i)`
      whether writing the `i`-th chunk succeeded. */
  datatype Io = Io(
    get: string -> Option<HttpResponse>,
    createDirAll: string -> bool,
    create: string -> bool,
    writeOk: (string, nat) -> bool)

  /** A `model-download-progress` event (its floating-point percentage is
      not modelled). */
  datatype Progress = Progress(file: string, total: nat, downloaded: nat)

  /** The outcome of a download: the result, the bytes in the file, the
      progress events in order, and how many chunks were written. */
  datatype Download = Download(result: Result<(), string>, written: seq<byte>, events: seq<Progress>, chunks: nat)

  const CONNECT_FAILED: string := "Failed to connect"
  const CREATE_DIR_FAILED: string := "Failed to create directory"
  const CREATE_FILE_FAILED: string := "Failed to create file"
  const STREAM_FAILED: string := "Error while downloading"
  const WRITE_FAILED: string := "Error while writing to file"

  /** Whether every item is a chunk. */
  predicate AllChunks(items: seq<StreamItem>) {
    forall i :: 0 <= i < |items| ==> items[i].Chunk?
  }

  /** The bytes of the chunks, one after the other. */
  function Flatten(items: seq<StreamItem>): seq<byte>
    requires AllChunks(items)
  {
    if |items| == 0 then [] else items[0].bytes + Flatten(items[1..])
  }

  /** The progress events for chunks written after `start` bytes: one per
      chunk, each carrying the running total. */
  function Trail(items: seq<StreamItem>, file: string, total: nat, start: nat): seq<Progress>
    requires AllChunks(items)
  {
    if |items| == 0 then []
    else
      var downloaded := start + |items[0].bytes|;
      [Progress(file, total, downloaded)] + Trail(items[1..], file, total, downloaded)
  }

  /** The `while let` loop from the item with index `i` on, `downloaded`
      bytes in. */
  function Pump(items: seq<StreamItem>, i: nat, downloaded: nat, file: string, total: nat,
                dest: string, io: Io): Download
    decreases |items|
  {
    if |items| == 0 then Download(Success(()), [], [], 0)
    else
      match items[0]
      case StreamError => Download(Failure(STREAM_FAILED), [], [], 0)
      case Chunk(bytes) =>
        if !io.writeOk(dest, i) then Download(Failure(WRITE_FAILED), [], [], 0)
        else
          var now := downloaded + |bytes|;
          var rest := Pump(items[1..], i + 1, now, file, total, dest, io);
          var event := if total > 0 then [Progress(file, total, now)] else [];
          Download(rest.result, bytes + rest.written, event + rest.events, rest.chunks + 1)
  }

  /** The name shown in progress events. */
  function ProgressName(dest: string): string {
    FileName(dest).GetOr("unknown")
  }

  /** What `download_file(url, dest)` does. */
  function DownloadEffect(url: string, dest: string, io: Io): Download {
    match io.get(url)
    case None => Download(Failure(CONNECT_FAILED), [], [], 0)
    case Some(response) =>
      var total := response.contentLength.GetOr(0);
      if ParentDir(dest).Some? && !io.createDirAll(ParentDir(dest).value) then
        Download(Failure(CREATE_DIR_FAILED), [], [], 0)
      else if !io.create(dest) then Download(Failure(CREATE_FILE_FAILED), [], [], 0)
      else Pump(response.body, 0, 0, ProgressName(dest), total, dest, io)
  }

  /** The loop writes a prefix of the body: the first `chunks` items, all of
      them chunks, and all of the body exactly when it succeeds. The counter
      in each event is the number of bytes written so far, and there are
      events only when the length was announced. */
  lemma {:induction false} PumpWritesPrefix(items: seq<StreamItem>, i: nat, downloaded: nat, file: string,
                                            total: nat, dest: string, io: Io)
    ensures var d := Pump(items, i, downloaded, file, total, dest, io);
            && d.chunks <= |items|
            && AllChunks(items[..d.chunks])
            && d.written == Flatten(items[..d.chunks])
            && d.events == (if total > 0 then Trail(items[..d.chunks], file, total, downloaded) else [])
            && (d.result.Success? <==> d.chunks == |items|)
            && (d.result.Failure? ==> d.result.error in {STREAM_FAILED, WRITE_FAILED})
    decreases |items|
  {
    var d := Pump(items, i, downloaded, file, total, dest, io);
    if |items| > 0 && items[0].Chunk? && io.writeOk(dest, i) {
      var now := downloaded + |items[0].bytes|;
      var rest := Pump(items[1..], i + 1, now, file, total, dest, io);
      PumpWritesPrefix(items[1..], i + 1, now, file, total, dest, io);
      assert items[..d.chunks] == [items[0]] + items[1..][..rest.chunks];
      assert items[..d.chunks][1..] == items[1..][..rest.chunks];
    } else {
      assert items[..0] == [];
    }
  }

  /** The `j`-th event reports the bytes of the first `j + 1` chunks. */
  lemma {:induction false} TrailCounts(items: seq<StreamItem>, file: string, total: nat, start: nat, j: nat)
    requires AllChunks(items) && j < |items|
    ensures |Trail(items, file, total, start)| == |items|
    ensures Trail(items, file, total, start)[j] == Progress(file, total, start + |Flatten(items[..j + 1])|)
    decreases |items|
  {
    var first := start + |items[0].bytes|;
    if j == 0 {
      TrailLength(items, file, total, start);
      assert items[..1][1..] == [];
    } else {
      TrailCounts(items[1..], file, total, first, j - 1);
      assert items[..j + 1][1..] == items[1..][..j];
    }
  }

  /** One event per chunk. */
  lemma {:induction false} TrailLength(items: seq<StreamItem>, file: string, total: nat, start: nat)
    requires AllChunks(items)
    ensures |Trail(items, file, total, start)| == |items|
    decreases |items|
  {
    if |items| > 0 {
      TrailLength(items[1..], file, total, start + |items[0].bytes|);
    }
  }

  /** Whatever happens, the `j`-th progress event of a download says that
      exactly the bytes of the first `j + 1` chunks are in the file, of the
      announced total; with no announced length there are none. */
  lemma DownloadProgressIsRunningSum(url: string, dest: string, io: Io, response: HttpResponse, j: nat)
    requires io.get(url) == Some(response)
    ensures var d := DownloadEffect(url, dest, io);
            var total := response.contentLength.GetOr(0);
            && (total == 0 ==> d.events == [])
            && (j < |d.events| ==>
                  d.chunks <= |response.body| && j < d.chunks && AllChunks(response.body[..j + 1])
                  && d.events[j] == Progress(ProgressName(dest), total, |Flatten(response.body[..j + 1])|))
  {
    var d := DownloadEffect(url, dest, io);
    var total := response.contentLength.GetOr(0);
    if d.chunks > 0 || d.events != [] {
      PumpWritesPrefix(response.body, 0, 0, ProgressName(dest), total, dest, io);
      var written := response.body[..d.chunks];
      if total > 0 {
        TrailLength(written, ProgressName(dest), total, 0);
        if j < |d.events| {
          TrailCounts(written, ProgressName(dest), total, 0, j);
          assert written[..j + 1] == response.body[..j + 1];
        }
      }
    }
  }

  /** A successful download writes the whole body, in order. */
  lemma DownloadSuccessWritesBody(url: string, dest: string, io: Io)
    requires DownloadEffect(url, dest, io).result.Success?
    ensures io.get(url).Some? && AllChunks(io.get(url).value.body)
    ensures DownloadEffect(url, dest, io).written == Flatten(io.get(url).value.body)
  {
    var body := io.get(url).value.body;
    PumpWritesPrefix(body, 0, 0, ProgressName(dest), io.get(url).value.contentLength.GetOr(0), dest, io);
    assert body[..|body|] == body;
  }

  /** `download_file`'s `while let` loop: write each chunk, count its
      bytes, and report progress when the length is known. */
  method CopyStream(body: seq<StreamItem>, dest: string, filename: string, totalSize: nat, io: Io)
    returns (d: Download)
    ensures d == Pump(body, 0, 0, filename, totalSize, dest, io)
  {
    var stream := body;
    var downloaded, index := 0, 0;
    var written: seq<byte> := [];
    var events: seq<Progress> := [];
    ghost var whole := Pump(body, 0, 0, filename, totalSize, dest, io);
    while |stream| > 0
      invariant downloaded == |written|
      invariant var rest := Pump(stream, index, downloaded, filename, totalSize, dest, io);
                whole == Download(rest.result, written + rest.written, events + rest.events, index + rest.chunks)
      decreases |stream|
    {
      if stream[0].StreamError? {
        assert written + [] == written && events + [] == events;
        return Download(Failure(STREAM_FAILED), written, events, index);
      }
      var chunk := stream[0].bytes;
      if !io.writeOk(dest, index) {
        assert written + [] == written && events + [] == events;
        return Download(Failure(WRITE_FAILED), written, events, index);
      }
      ghost var next := Pump(stream[1..], index + 1, downloaded + |chunk|, filename, totalSize, dest, io);
      var event := if totalSize > 0 then [Progress(filename, totalSize, downloaded + |chunk|)] else [];
      assert written + (chunk + next.written) == (written + chunk) + next.written;
      assert events + (event + next.events) == (events + event) + next.events;
      written := written + chunk;
      downloaded := downloaded + |chunk|;
      events := events + event;
      stream := stream[1..];
      index := index + 1;
    }
    assert written + [] == written && events + [] == events;
    return Download(Success(()), written, events, index);
  }

  /** `download_file` as written. */
  method DownloadFile(url: string, dest: string, io: Io) returns (d: Download)
    ensures d == DownloadEffect(url, dest, io)
  {
    var response := io.get(url);
    if response.None? {
      return Download(Failure(CONNECT_FAILED), [], [], 0);
    }
    var totalSize := response.value.contentLength.GetOr(0);
    var parent := ParentDir(dest);
    if parent.Some? && !io.createDirAll(parent.value) {
      return Download(Failure(CREATE_DIR_FAILED), [], [], 0);
    }
    if !io.create(dest) {
      return Download(Failure(CREATE_FILE_FAILED), [], [], 0);
    }
    var filename := ProgressName(dest);
    d := CopyStream(response.value.body, dest, filename, totalSize, io);
  }

  // ---------------------------------------------------------------------
  // check_and_download_models

  /** One call of `download_file`. */
  datatype Fetch = Fetch(url: string, dest: string)

  /** The outcome of provisioning: the result, the downloads attempted in
      order, whether `model-download-finished` was emitted, and the files
      present afterwards. */
  datatype Provisioned = Provisioned(result: Result<(), string>, fetches: seq<Fetch>, finished: bool, present: set<string>)

  const NOT_DOWNLOADABLE_TAIL: string :=
    " and cannot be automatically downloaded. Please ensure the path is correct or download the model manually."

  /** The error for a missing model that has no known download. */
  function NotDownloadableMessage(modelPath: string): string {
    "Model file not found at " + Quoted(modelPath) + NOT_DOWNLOADABLE_TAIL
  }

  /** Whether `download_file` got as far as creating the destination file
      (which then exists even if the transfer fails). */
  predicate CreatesFile(url: string, dest: string, io: Io) {
    io.get(url).Some?
    && (ParentDir(dest).None? || io.createDirAll(ParentDir(dest).value))
    && io.create(dest)
  }

  /** The files present after a download attempt. */
  function AfterDownload(present: set<string>, url: string, dest: string, io: Io): set<string> {
    if CreatesFile(url, dest, io) then present + {dest} else present
  }

  /** The unit test's check against the model's own write: a removed file
      is absent, and after a download to it the file exists exactly when
      the download got as far as creating it; no other file changes. */
  lemma CheckFileExistsAfterDownload(present: set<string>, url: string, dest: string, io: Io)
    ensures !CheckFileExists(present - {dest}, dest)
    ensures CheckFileExists(AfterDownload(present, url, dest, io), dest)
            <==> CheckFileExists(present, dest) || CreatesFile(url, dest, io)
    ensures forall f :: f != dest ==>
              (CheckFileExists(AfterDownload(present, url, dest, io), f) <==> CheckFileExists(present, f))
    ensures DownloadEffect(url, dest, io).result.Success? ==>
              CheckFileExists(AfterDownload(present - {dest}, url, dest, io), dest)
  {
  }

  /** The tags half of provisioning, once the model is in place. */
  function ProvisionTags(tagsPath: string, present: set<string>, fetched: seq<Fetch>, io: Io): Provisioned {
    if tagsPath in present then Provisioned(Success(()), fetched, true, present)
    else
      var d := DownloadEffect(TAGS_URL, tagsPath, io);
      var after := AfterDownload(present, TAGS_URL, tagsPath, io);
      var fetches := fetched + [Fetch(TAGS_URL, tagsPath)];
      if d.result.Failure? then Provisioned(d.result, fetches, false, after)
      else Provisioned(Success(()), fetches, true, after)
  }

  /** What `check_and_download_models(model, tags)` does, starting from the
      files `present`. */
  function ProvisionEffect(modelPath: string, tagsPath: string, present: set<string>, io: Io): Provisioned {
    if modelPath in present then ProvisionTags(tagsPath, present, [], io)
    else
      match GetModelUrl(modelPath)
      case None => Provisioned(Failure(NotDownloadableMessage(modelPath)), [], false, present)
      case Some(url) =>
        var d := DownloadEffect(url, modelPath, io);
        var after := AfterDownload(present, url, modelPath, io);
        if d.result.Failure? then Provisioned(d.result, [Fetch(url, modelPath)], false, after)
        else ProvisionTags(tagsPath, after, [Fetch(url, modelPath)], io)
  }

  /** A missing model with no known download is an error before anything
      is fetched, and nothing is announced. */
  lemma ProvisionUnknownModel(modelPath: string, tagsPath: string, present: set<string>, io: Io)
    requires modelPath !in present && GetModelUrl(modelPath).None?
    ensures ProvisionEffect(modelPath, tagsPath, present, io)
            == Provisioned(Failure(NotDownloadableMessage(modelPath)), [], false, present)
  {
  }

  /** A download that succeeded created its file. */
  lemma DownloadSuccessCreatesFile(url: string, dest: string, io: Io)
    requires DownloadEffect(url, dest, io).result.Success?
    ensures CreatesFile(url, dest, io)
  {
  }

  /** The tags half downloads only a missing tags file, from `TAGS_URL`. */
  lemma ProvisionTagsFetches(tagsPath: string, present: set<string>, fetched: seq<Fetch>, io: Io)
    ensures var p := ProvisionTags(tagsPath, present, fetched, io);
            && (tagsPath in present ==> p.fetches == fetched)
            && (tagsPath !in present ==> p.fetches == fetched + [Fetch(TAGS_URL, tagsPath)])
            && (p.finished <==> p.result.Success?)
            && (p.result.Success? ==> tagsPath in p.present)
            && present <= p.present
  {
    if tagsPath !in present && DownloadEffect(TAGS_URL, tagsPath, io).result.Success? {
      DownloadSuccessCreatesFile(TAGS_URL, tagsPath, io);
    }
  }

  /** Only missing files are downloaded: the model from its URL, first,
      then the tags from `TAGS_URL`. */
  lemma ProvisionFetchesOnlyMissing(modelPath: string, tagsPath: string, present: set<string>, io: Io)
    ensures var p := ProvisionEffect(modelPath, tagsPath, present, io);
            var tags := Fetch(TAGS_URL, tagsPath);
            || p.fetches == []
            || (tagsPath !in present && p.fetches == [tags])
            || (modelPath !in present && GetModelUrl(modelPath).Some?
                && var model := Fetch(GetModelUrl(modelPath).value, modelPath);
                   p.fetches == [model] || (tagsPath !in present && p.fetches == [model, tags]))
    ensures var p := ProvisionEffect(modelPath, tagsPath, present, io);
            modelPath !in present && GetModelUrl(modelPath).Some? ==>
              |p.fetches| >= 1 && p.fetches[0] == Fetch(GetModelUrl(modelPath).value, modelPath)
  {
    if modelPath in present {
      ProvisionTagsFetches(tagsPath, present, [], io);
    } else if GetModelUrl(modelPath).Some? {
      var url := GetModelUrl(modelPath).value;
      if DownloadEffect(url, modelPath, io).result.Success? {
        ProvisionTagsFetches(tagsPath, AfterDownload(present, url, modelPath, io), [Fetch(url, modelPath)], io);
      }
    }
  }

  /** The finished event is emitted exactly when provisioning succeeds. */
  lemma ProvisionFinishedIffSuccess(modelPath: string, tagsPath: string, present: set<string>, io: Io)
    ensures var p := ProvisionEffect(modelPath, tagsPath, present, io);
            p.finished <==> p.result.Success?
  {
    if modelPath in present {
      ProvisionTagsFetches(tagsPath, present, [], io);
    } else if GetModelUrl(modelPath).Some? {
      var url := GetModelUrl(modelPath).value;
      ProvisionTagsFetches(tagsPath, AfterDownload(present, url, modelPath, io), [Fetch(url, modelPath)], io);
    }
  }

  /** No file disappears, and after a successful provisioning both files
      are present. */
  lemma ProvisionLeavesFilesPresent(modelPath: string, tagsPath: string, present: set<string>, io: Io)
    ensures var p := ProvisionEffect(modelPath, tagsPath, present, io);
            && present <= p.present
            && (p.result.Success? ==> modelPath in p.present && tagsPath in p.present)
  {
    if modelPath in present {
      ProvisionTagsFetches(tagsPath, present, [], io);
    } else if GetModelUrl(modelPath).Some? {
      var url := GetModelUrl(modelPath).value;
      var after := AfterDownload(present, url, modelPath, io);
      assert present <= after;
      if DownloadEffect(url, modelPath, io).result.Success? {
        DownloadSuccessCreatesFile(url, modelPath, io);
        ProvisionTagsFetches(tagsPath, after, [Fetch(url, modelPath)], io);
      }
    }
  }

  /** A failed download ends provisioning with its error: no further
      download and no finished event. */
  lemma ProvisionModelFailurePropagates(modelPath: string, tagsPath: string, present: set<string>, io: Io)
    requires modelPath !in present && GetModelUrl(modelPath).Some?
    requires DownloadEffect(GetModelUrl(modelPath).value, modelPath, io).result.Failure?
    ensures var p := ProvisionEffect(modelPath, tagsPath, present, io);
            && p.result == DownloadEffect(GetModelUrl(modelPath).value, modelPath, io).result
            && p.fetches == [Fetch(GetModelUrl(modelPath).value, modelPath)]
            && !p.finished
  {
  }

  /** After a successful model download, a tags file that is still
      missing is fetched next, from `TAGS_URL`. */
  lemma ProvisionFetchesTagsAfterModel(modelPath: string, tagsPath: string, present: set<string>, io: Io)
    requires modelPath !in present && GetModelUrl(modelPath).Some?
    requires DownloadEffect(GetModelUrl(modelPath).value, modelPath, io).result.Success?
    requires tagsPath !in AfterDownload(present, GetModelUrl(modelPath).value, modelPath, io)
    ensures ProvisionEffect(modelPath, tagsPath, present, io).fetches
            == [Fetch(GetModelUrl(modelPath).value, modelPath), Fetch(TAGS_URL, tagsPath)]
  {
  }

  /** A missing tags file is fetched from `TAGS_URL` once the model is in
      place, whatever the tags file is called. */
  lemma ProvisionFetchesMissingTags(modelPath: string, tagsPath: string, present: set<string>, io: Io)
    requires modelPath in present && tagsPath !in present
    ensures ProvisionEffect(modelPath, tagsPath, present, io).fetches == [Fetch(TAGS_URL, tagsPath)]
  {
  }

  /** A model download that breaks off after creating the file leaves a
      partial file behind, and the next provisioning run takes it as
      present and does not fetch it again. */
  lemma InterruptedModelDownloadNotRetried(modelPath: string, tagsPath: string, present: set<string>, io: Io, later: Io)
    requires modelPath !in present && GetModelUrl(modelPath).Some?
    requires CreatesFile(GetModelUrl(modelPath).value, modelPath, io)
    ensures var p := ProvisionEffect(modelPath, tagsPath, present, io);
            var again := ProvisionEffect(modelPath, tagsPath, p.present, later);
            && modelPath in p.present
            && (forall i :: 0 <= i < |again.fetches| ==> again.fetches[i].dest != modelPath)
  {
    var url := GetModelUrl(modelPath).value;
    var after := AfterDownload(present, url, modelPath, io);
    assert modelPath in after;
    if DownloadEffect(url, modelPath, io).result.Success? {
      ProvisionTagsFetches(tagsPath, after, [Fetch(url, modelPath)], io);
    }
    var p := ProvisionEffect(modelPath, tagsPath, present, io);
    ProvisionTagsFetches(tagsPath, p.present, [], later);
  }

  /** `check_and_download_models` as written: sequential checks with early
      returns. */
  method CheckAndDownloadModels(modelPath: string, tagsPath: string, present: set<string>, io: Io)
    returns (p: Provisioned)
    ensures p == ProvisionEffect(modelPath, tagsPath, present, io)
  {
    var files := present;
    var fetches: seq<Fetch> := [];
    if modelPath !in files {
      var url := GetModelUrl(modelPath);
      if url.Some? {
        var d := DownloadFile(url.value, modelPath, io);
        fetches := fetches + [Fetch(url.value, modelPath)];
        files := AfterDownload(files, url.value, modelPath, io);
        if d.result.Failure? {
          return Provisioned(d.result, fetches, false, files);
        }
      } else {
        return Provisioned(Failure(NotDownloadableMessage(modelPath)), fetches, false, files);
      }
    }
    assert ProvisionEffect(modelPath, tagsPath, present, io) == ProvisionTags(tagsPath, files, fetches, io);
    if tagsPath !in files {
      var d := DownloadFile(TAGS_URL, tagsPath, io);
      fetches := fetches + [Fetch(TAGS_URL, tagsPath)];
      files := AfterDownload(files, TAGS_URL, tagsPath, io);
      if d.result.Failure? {
        return Provisioned(d.result, fetches, false, files);
      }
    }
    // the `model-download-finished` event
    return Provisioned(Success(()), fetches, true, files);
  }
}
