# omni-tagger core, modelled in Dafny

omni-tagger is a desktop tagger for images. A browser extension talks to a
small bridge program over native messaging. The bridge turns each request
into a command line for the desktop application and launches it. The
application reads its command line, loads an image tagger on first use,
filters and rewrites the inferred tags, and copies them to the clipboard.
Its settings say where the model and the tag list live; the two files are
downloaded when missing. A full-screen overlay lets the user select a region
of a screenshot with the mouse.

This project models that core:

- `framing.dfy` (`Framing`): the native-messaging frame, a 4-byte unsigned
  length in the host's byte order followed by the payload. It covers reading
  a frame from what is left of stdin and writing one.
- `native_host.dfy` (`NativeHost`): the bridge. `handle_request` is split
  into the argument vector, the executable locator and the launch, each as a
  specification function with a method written as the source is. `main` is
  a loop over an input byte stream.
- `config.dfy` (`Config`): the settings record, its defaults, loading with a
  fallback, and model-path resolution.
- `state.dfy` (`State`): the shared state (tagger slot and settings), and the
  tagger's constructor as an oracle.
- `config_commands.dfy` (`ConfigCommands`): `set_config` on the shared state.
- `model_manager.dfy` (`ModelManager`): the model URL table, the download
  loop with its byte counter and progress events, and the provisioning
  decisions.
- `processor.dfy` (`Processor`): command-line dispatch, the lazy tagger
  load, and the tag pipeline (exclusion filter, separator rewrite, join).
- `overlay.dfy` (`Overlay`): the selection overlay's state machine. It is a
  class with one method per event handler, plus the rectangle geometry.
- `end_to_end.dfy` (`EndToEnd`): how the parts fit together, and the finding
  below with its correction.
- `text.dfy`, `paths.dfy`, `wrappers.dfy`: strings, `/`-separated paths,
  and `Option`/`Result`.

Everything outside the program becomes a parameter. That includes the
clock, the file system, base64, UTF-8 and JSON, process spawning, the
network, the tagger engine and the clipboard. Each is a function held in a
datatype (`Env`, `Codecs`, `Io`, `Services`), so each property holds for
every behaviour of those collaborators.

Where the written specification and the code disagree, the model follows
the code:

- A 1-3 byte partial length header ends the bridge with `Ok(())`, like an
  empty stream. `read_u32` reports end of file for both.
- The application ignores `--delete-after`. The consequence is recorded
  under Findings.

## Model

| member | source | states |
|---|---|---|
| Framing.EncodeU32 | omni-tagger/src-tauri/src/bin/native_host.rs:209 | a `u32` is written as exactly four bytes in the chosen byte order |
| Framing.DecodeU32 | omni-tagger/src-tauri/src/bin/native_host.rs:25 | the length read from four bytes is below 2^32 |
| Framing.DecodeEncode | omni-tagger/src-tauri/src/bin/native_host.rs:207-209 | reading back a written `u32` gives the same number, in either byte order |
| Framing.EncodeDecode | omni-tagger/src-tauri/src/bin/native_host.rs:25 | every 4-byte header is the encoding of the number it denotes |
| Framing.ReadFrame | omni-tagger/src-tauri/src/bin/native_host.rs:25-33 | end of file inside the length ends the loop cleanly; any other read error is a failure; a body shorter than announced is a truncation error; otherwise the payload has exactly the announced length and the stream goes on after it |
| Framing.WriteFrame | omni-tagger/src-tauri/src/bin/native_host.rs:203-212 | a response frame is a header that decodes to the payload length (modulo 2^32, the `as u32` cast) followed by exactly the payload |
| Framing.FrameRoundTrip | omni-tagger/src-tauri/src/bin/native_host.rs:203-212 | a frame written by `send_response` reads back as the same payload, leaving whatever follows |
| NativeHost.SplitDataUri | omni-tagger/src-tauri/src/bin/native_host.rs:58-114 | succeeds exactly for `data:` URIs with a comma; the header is the text before the first comma and the payload everything after; a missing `data:` and a missing comma give their own messages |
| NativeHost.ExtensionFor | omni-tagger/src-tauri/src/bin/native_host.rs:63-71 | `png` for `image/png`, else `jpg` for `image/jpeg` or `image/jpg`, else `webp` for `image/webp`, else `png`, each as an if-and-only-if |
| NativeHost.TempFileNameInjective | omni-tagger/src-tauri/src/bin/native_host.rs:75-80 | two temporary file names collide only for the same millisecond and extension |
| NativeHost.MaterializeDataUri | omni-tagger/src-tauri/src/bin/native_host.rs:57-102 | succeeds exactly when the URI splits, its payload decodes and the write succeeds, and then the file holds the decoded payload under `omni_tagger_<millis>.<ext>` in the temporary directory; split errors propagate unchanged, and a decode or write failure gives "Failed to decode base64: " or "Failed to write temp file: " followed by the error |
| NativeHost.PrepareArgs | omni-tagger/src-tauri/src/bin/native_host.rs:54-120 | `url` wins with `["--process-url", url]`; otherwise `data` gives `["--delete-after", path]` and a temporary file; neither gives "No URL or data provided" |
| NativeHost.Candidates | omni-tagger/src-tauri/src/bin/native_host.rs:144-167 | the search list in the locator's order: the executable's directory, its parent, and off Windows `/usr/bin` and `/usr/local/bin` |
| NativeHost.FirstExisting | omni-tagger/src-tauri/src/bin/native_host.rs:149-167 | finds a candidate exactly when one exists, and then the first existing one in search order |
| NativeHost.Locate | omni-tagger/src-tauri/src/bin/native_host.rs:138-167 | the locator's reassignments of `found_path` give the first existing candidate: exe directory, its parent, then `/usr/bin` and `/usr/local/bin` off Windows |
| NativeHost.LaunchApp | omni-tagger/src-tauri/src/bin/native_host.rs:122-200 | after the arguments are prepared: an executable-path error or no existing candidate gives its own error and no spawn; a known executable with an existing candidate spawns the first existing candidate with the prepared arguments, and every spawn is that one; the answer is "ok" ("Processing started") exactly when the spawn succeeded, and the temporary file is kept either way |
| NativeHost.HandleOkIffSpawned | omni-tagger/src-tauri/src/bin/native_host.rs:186-200 | the answer is "ok" exactly when a spawn was attempted and succeeded, and then it is "Processing started" |
| NativeHost.HandleTempFile | omni-tagger/src-tauri/src/bin/native_host.rs:73-94 | a temporary file is left behind exactly when a data URI without a URL was split, decoded and written, even if the launch then fails |
| NativeHost.HandleLaunch | omni-tagger/src-tauri/src/bin/native_host.rs:51-189 | a spawn is attempted exactly when the arguments are prepared, the executable is known and some candidate exists; it runs the first existing candidate with `--process-url <url>` or `--delete-after <temp file>` |
| NativeHost.HandleErrorResponses | omni-tagger/src-tauri/src/bin/native_host.rs:122-200 | each failure has its own error response and no spawn: the argument error, the executable-path error, the not-found error when no candidate exists, and the spawn error |
| NativeHost.BuildCommandArgs | omni-tagger/src-tauri/src/bin/native_host.rs:51-120 | the early-return argument building equals `PrepareArgs` |
| NativeHost.HandleRequest | omni-tagger/src-tauri/src/bin/native_host.rs:51-201 | `handle_request` as written equals `Handle` |
| NativeHost.ServeStep | omni-tagger/src-tauri/src/bin/native_host.rs:23-47 | one decoded message adds its response frame in front of the rest of the session |
| NativeHost.Respond | omni-tagger/src-tauri/src/bin/native_host.rs:38-44 | a parsed request is handled; a parse failure is answered with "Invalid JSON: ..." |
| NativeHost.ReadMessage | omni-tagger/src-tauri/src/bin/native_host.rs:25-33 | the two reads of one iteration equal `ReadFrame` |
| NativeHost.ServeOnce | omni-tagger/src-tauri/src/bin/native_host.rs:23-47 | one pass either ends the session or writes one frame and consumes input |
| NativeHost.RunHost | omni-tagger/src-tauri/src/bin/native_host.rs:22-49 | `main`'s loop produces exactly the exit and output of the session specification `Serve` |
| NativeHost.ServeFrames | omni-tagger/src-tauri/src/bin/native_host.rs:22-49 | whole UTF-8 frames followed by end of file get one response each, in order, and the loop ends with `Ok(())` |
| NativeHost.InvalidJsonContinues | omni-tagger/src-tauri/src/bin/native_host.rs:38-46 | a payload that is not a request gets an "Invalid JSON" error and the loop goes on with the next frame |
| NativeHost.ShortHeaderCloses | omni-tagger/src-tauri/src/bin/native_host.rs:25-27 | an empty stream or a 1-3 byte partial header ends the loop with `Ok(())` and writes nothing |
| Config.LoadConfig | omni-tagger/src-tauri/src/config.rs:29-40 | a stored, parsable configuration is returned; anything else gives the defaults |
| Config.LoadSavedConfig | omni-tagger/src-tauri/src/config.rs:29-55 | what is saved loads back whenever the JSON codec round-trips it |
| Config.ResolveModelPath | omni-tagger/src-tauri/src/config.rs:57-67 | absolute paths and unresolvable bases leave the path unchanged; a relative path is joined under the base, so the result starts with the base and ends with the path, and is absolute under an absolute base |
| Config.ResolveIdempotent | omni-tagger/src-tauri/src/config.rs:57-67 | resolving twice is resolving once |
| Config.ResolveKeepsFileName | omni-tagger/src-tauri/src/config.rs:57-67 | resolution keeps the file name of a path that has one |
| State.NewTagger | omni-tagger/src-tauri/src/config.rs:88 | the tagger is built exactly when the engine loads, from the given model and tag files; otherwise the engine's error is returned |
| State.AppState.constructor | omni-tagger/src-tauri/src/lib.rs:22-25 | the shared state starts with no tagger and the default settings |
| ConfigCommands.SetConfigAlwaysStores | omni-tagger/src-tauri/src/config.rs:76-81 | the new settings are in memory even when saving fails, and the save error is returned |
| ConfigCommands.SetConfigReloadsOnlyOnPathChange | omni-tagger/src-tauri/src/config.rs:78-83 | the tagger slot is untouched unless the save succeeded and the model or tags path changed |
| ConfigCommands.SetConfigReloadOutcome | omni-tagger/src-tauri/src/config.rs:83-98 | after a path change the slot holds the new tagger built from the resolved paths, or nothing with a "Failed to reload tagger" error |
| ConfigCommands.SetConfig | omni-tagger/src-tauri/src/config.rs:74-101 | the in-place update of settings and slot equals `SetConfigEffect` |
| ModelManager.GetModelUrl | omni-tagger/src-tauri/src/model_manager.rs:26-34 | a URL exactly for the three known file names: `model.onnx` gives the SwinV2 URL, `convnext.onnx` the ConvNeXt URL and `convnextv2.onnx` the ConvNeXtV2 URL |
| ModelManager.ModelUrlIgnoresDirectory | omni-tagger/src-tauri/src/model_manager.rs:26-34 | the directories in front of a model file do not change its URL |
| ModelManager.GetModelUrlInDirectory | omni-tagger/src-tauri/src/model_manager.rs:143-146 | `models/model.onnx` maps to the SwinV2 URL |
| ModelManager.GetModelUrlAbsolute | omni-tagger/src-tauri/src/model_manager.rs:147-150 | `/abs/path/to/convnext.onnx` maps to the ConvNeXt URL |
| ModelManager.GetModelUrlBareNames | omni-tagger/src-tauri/src/model_manager.rs:151-155 | `convnextv2.onnx` maps to the ConvNeXtV2 URL and `custom_model.onnx` to none |
| ModelManager.GetModelUrlOtherFile | omni-tagger/src-tauri/src/model_manager.rs:156 | `some/other/file.txt` maps to none |
| ModelManager.CheckFileExistsAfterDownload | omni-tagger/src-tauri/src/model_manager.rs:59-80 | a removed file is absent; after a download to it the file exists exactly when it was there before or the download created it, and no other file changes; a successful download leaves it present |
| ModelManager.PumpWritesPrefix | omni-tagger/src-tauri/src/model_manager.rs:90-110 | the loop writes the chunks of a prefix of the body, all of it exactly on success; events exist only with a known length; failures are the stream or write error |
| ModelManager.TrailCounts | omni-tagger/src-tauri/src/model_manager.rs:96-109 | the `j`-th event carries the byte count of the first `j + 1` chunks |
| ModelManager.TrailLength | omni-tagger/src-tauri/src/model_manager.rs:98-109 | one event per written chunk |
| ModelManager.DownloadProgressIsRunningSum | omni-tagger/src-tauri/src/model_manager.rs:82-109 | every progress event reports exactly the bytes written so far, of the announced total; with no announced length there are none |
| ModelManager.DownloadSuccessWritesBody | omni-tagger/src-tauri/src/model_manager.rs:63-113 | a successful download wrote the whole body, in order |
| ModelManager.CopyStream | omni-tagger/src-tauri/src/model_manager.rs:82-110 | the `while let` loop equals the specification `Pump` |
| ModelManager.DownloadFile | omni-tagger/src-tauri/src/model_manager.rs:63-113 | `download_file` as written equals `DownloadEffect` |
| ModelManager.ProvisionUnknownModel | omni-tagger/src-tauri/src/model_manager.rs:41-47 | a missing model with no known URL is an error before any download, without the finished event |
| ModelManager.DownloadSuccessCreatesFile | omni-tagger/src-tauri/src/model_manager.rs:74-80 | a successful download created its file |
| ModelManager.ProvisionTagsFetches | omni-tagger/src-tauri/src/model_manager.rs:49-56 | the tags step downloads the tags file from `TAGS_URL` exactly when it is missing, and otherwise nothing; it finishes exactly on success, and then the tags file is present |
| ModelManager.ProvisionFetchesOnlyMissing | omni-tagger/src-tauri/src/model_manager.rs:41-51 | only missing files are downloaded, the model first from its URL, then the tags; a missing model with a known URL is always the first download |
| ModelManager.ProvisionFetchesTagsAfterModel | omni-tagger/src-tauri/src/model_manager.rs:41-51 | after a successful model download, a tags file still missing is downloaded next from `TAGS_URL` |
| ModelManager.ProvisionFinishedIffSuccess | omni-tagger/src-tauri/src/model_manager.rs:41-56 | the finished event is emitted exactly when provisioning succeeds |
| ModelManager.ProvisionLeavesFilesPresent | omni-tagger/src-tauri/src/model_manager.rs:36-57 | no file disappears, and success leaves both files present |
| ModelManager.ProvisionModelFailurePropagates | omni-tagger/src-tauri/src/model_manager.rs:41-47 | a failed model download is the result, with no tags download and no finished event |
| ModelManager.ProvisionFetchesMissingTags | omni-tagger/src-tauri/src/model_manager.rs:49-51 | with the model present, a missing tags file is fetched from `TAGS_URL` whatever its name |
| ModelManager.InterruptedModelDownloadNotRetried | omni-tagger/src-tauri/src/model_manager.rs:41-80 | a model download that breaks off after creating the file leaves it present, and the next run does not fetch it again |
| ModelManager.CheckAndDownloadModels | omni-tagger/src-tauri/src/model_manager.rs:36-57 | the early-return procedure equals `ProvisionEffect` |
| Processor.ParseInputs | omni-tagger/src-tauri/src/processor.rs:9-28 | a URL exactly after `--process-url` with a third argument; a file exactly when the first argument is not a flag; nothing otherwise |
| Processor.ParseInputsIgnoresOtherFlags | omni-tagger/src-tauri/src/processor.rs:15-27 | any other flag first, `--delete-after` included, and a bare `--process-url` select no work |
| Processor.TagNames | omni-tagger/src-tauri/src/processor.rs:88-90 | the tags of the results, one for one and in order |
| Processor.DropExcluded | omni-tagger/src-tauri/src/processor.rs:88-92 | a tag survives exactly when it was inferred and is not excluded |
| Processor.DropExcludedAppend | omni-tagger/src-tauri/src/processor.rs:91 | the filter keeps inference order: it distributes over concatenation |
| Processor.ReplaceInAll | omni-tagger/src-tauri/src/processor.rs:94-98 | each tag has every occurrence of one character replaced, one for one |
| Processor.RewriteLeavesOneSeparator | omni-tagger/src-tauri/src/processor.rs:94-98 | with `use_underscore` no tag holds a space, otherwise none holds `_` |
| Processor.ProcessedTagsCorrespond | omni-tagger/src-tauri/src/processor.rs:88-98 | the output is the inferred, non-excluded tags one for one with the separator rewritten |
| Processor.TagLineSplitsBack | omni-tagger/src-tauri/src/processor.rs:99 | without commas in tags, the copied text splits back at ", " into the processed tags |
| Processor.InferenceLoadsLazily | omni-tagger/src-tauri/src/processor.rs:55-84 | a loaded tagger is used as it is; an empty slot is filled from the resolved paths first; a failed construction leaves it empty with "Failed to initialize tagger" |
| Processor.InferenceSuccessCopiesTagLine | omni-tagger/src-tauri/src/processor.rs:86-104 | on success the clipboard holds the joined processed tags of the tagger in the slot, inferred at the snapshot's threshold |
| Processor.RunInferenceAndNotify | omni-tagger/src-tauri/src/processor.rs:50-114 | on the shared state, with one settings snapshot, it equals `InferenceEffect` and leaves the settings alone |
| Processor.DispatchNoOpChangesNothing | omni-tagger/src-tauri/src/processor.rs:9-28 | arguments that name no work change nothing and succeed |
| Processor.ProcessInputs | omni-tagger/src-tauri/src/processor.rs:9-28 | dispatch on the shared state equals `DispatchEffect` |
| Overlay.SpanHasEndsAsCorners | omni-tagger/src/components/Overlay.tsx:176-181 | the dragged rectangle has non-negative size, the start and the pointer at opposite corners, and does not depend on the drag direction |
| Overlay.TranslateKeepsSize | omni-tagger/src/components/Overlay.tsx:182-189 | a move keeps the size and is undone by the opposite move |
| Overlay.HandleDirections | omni-tagger/src/components/Overlay.tsx:10 | no handle pulls two opposite sides, and each pulls at least one |
| Overlay.ResizeHorizontal | omni-tagger/src/components/Overlay.tsx:190-215 | an `e` handle moves the east side with the west fixed, a `w` handle the west side with the east fixed, each at least 10 wide; other handles keep the horizontal extent |
| Overlay.ResizeVertical | omni-tagger/src/components/Overlay.tsx:190-215 | the same for `s` and `n` |
| Overlay.ResizeKeepsMinimum | omni-tagger/src/components/Overlay.tsx:199-213 | a resize keeps a selection of at least 10 by 10 at least that large |
| Overlay.OverlayState.constructor | omni-tagger/src/components/Overlay.tsx:20-28 | nothing selected, no drag, not processing |
| Overlay.OverlayState.MouseDown | omni-tagger/src/components/Overlay.tsx:133-158 | ignored while processing or for other buttons; inside a selection in place (bounds included) it starts a move with the selection unchanged; otherwise a new empty selection at the pointer |
| Overlay.OverlayState.HandleMouseDown | omni-tagger/src/components/Overlay.tsx:160-168 | unless processing, a handle starts a resize from the current rectangle |
| Overlay.OverlayState.MouseMove | omni-tagger/src/components/Overlay.tsx:170-217 | nothing in mode none or without a drag start; otherwise the span, the translation or the resize of the starting rectangle |
| Overlay.OverlayState.MouseUp | omni-tagger/src/components/Overlay.tsx:219-234 | a drawn rectangle is kept only when larger than 10 by 10; a move or resize ends in selected; all drag refs cleared |
| Overlay.OverlayState.KeyDown | omni-tagger/src/components/Overlay.tsx:44-56 | Escape closes when a selection is in place or in mode none and otherwise abandons the drag; Enter with a rectangle asks to confirm |
| Overlay.OverlayState.CancelClick | omni-tagger/src/components/Overlay.tsx:283-289 | the cancel handler, which has no guard, drops the selection and leaves mode none from any mode; the drag refs and processing are untouched |
| Overlay.OverlayState.PressActionButton | omni-tagger/src/components/Overlay.tsx:282-301 | as written, a left press on an action button below the rectangle, then its release, leaves mode none with no selection (unless processing, when nothing changes), so the selection is gone before the button's click |
| Overlay.OverlayState.ConfirmButtonClick | omni-tagger/src/components/Overlay.tsx:293-301 | with the button's press kept from the background, a click on the confirm button under a selection in place keeps the selection and, with a loaded image, starts processing on exactly that rectangle |
| Overlay.OverlayState.BeginConfirm | omni-tagger/src/components/Overlay.tsx:71-116 | with a rectangle and a loaded image, processing starts and the rectangle is handed on; otherwise nothing happens |
| Overlay.OverlayState.ConfirmFailed | omni-tagger/src/components/Overlay.tsx:126-130 | a failed confirmation turns processing off |
| EndToEnd.DefaultModelIsDownloadable | omni-tagger/src-tauri/src/config.rs:17-27 | the default model path resolves to a file the downloader knows, wherever the data directory is |
| EndToEnd.UrlRequestReachesPipeline | omni-tagger/src-tauri/src/processor.rs:17-21 | a launched URL request arrives at the application as the same URL to tag |
| EndToEnd.DataLaunchArgs | omni-tagger/src-tauri/src/bin/native_host.rs:83-87 | a launched inline-image request keeps its temporary file and passes exactly `--delete-after <file>` |
| EndToEnd.DeleteAfterIsNoWork | omni-tagger/src-tauri/src/processor.rs:9-28 | `<app> --delete-after <file>` selects no work, and the dispatch then changes nothing and succeeds |
| EndToEnd.DataRequestIsDropped | omni-tagger/src-tauri/src/processor.rs:9-28 | a launched inline-image request leaves a temporary file, and the application finds no work and changes nothing |
| EndToEnd.ParseDispatch | omni-tagger/src-tauri/src/processor.rs:9-28 | a leading `--delete-after <path>` is consumed as clean-up duty and the rest parsed as before |
| EndToEnd.ParseDispatchExtendsParseInputs | omni-tagger/src-tauri/src/processor.rs:9-28 | without the prefix the corrected parser agrees with `process_inputs` and deletes nothing |
| EndToEnd.DeleteAfterAlone | omni-tagger/src-tauri/src/processor.rs:9-28 | the prefix alone is no work but still names the file to delete |
| EndToEnd.DispatchArgs | omni-tagger/src-tauri/src/bin/native_host.rs:85-86 | the corrected bridge names the temporary file again as the image to process |
| EndToEnd.AfterDispatch | omni-tagger/src-tauri/src/bin/native_host.rs:85-86 | the clean-up path, and only it, is gone afterwards |
| EndToEnd.TempPathIsNotFlag | omni-tagger/src-tauri/src/bin/native_host.rs:79-81 | a temporary file under the absolute temporary directory is never read as a flag |
| EndToEnd.CorrectedBridgeReachesPipeline | omni-tagger/src-tauri/src/bin/native_host.rs:54-87 | with the correction every prepared request reaches the pipeline: a URL as itself, an inline image as its temporary file, also the file to delete |
| EndToEnd.CorrectedBridgeCleansUp | omni-tagger/src-tauri/src/bin/native_host.rs:83-87 | with the correction the temporary file is removed after the run, and no other file |
| Paths.JoinPath | omni-tagger/src-tauri/src/bin/native_host.rs:81 | an absolute name replaces the directory; a relative name is put after the directory, so the result starts with the directory, ends with the name, and is absolute under an absolute directory |
| Paths.ParentDirIsPrefix | omni-tagger/src-tauri/src/bin/native_host.rs:134-147 | `parent` is absent exactly for the empty path and the root (after trailing separators and `.` components), and otherwise a proper prefix of the path |
| Paths.FileName | omni-tagger/src-tauri/src/model_manager.rs:27 | a file name is never empty, `.` or `..`, and holds no separator |
| Paths.FileNameEndsPath | omni-tagger/src-tauri/src/model_manager.rs:27 | a file name is the tail of the path once trailing separators and `.` components are dropped |
| Paths.BareFileName | omni-tagger/src-tauri/src/model_manager.rs:27 | a single name other than `.` and `..` is its own file name |
| Paths.JoinThenSplit | omni-tagger/src-tauri/src/bin/native_host.rs:145-147 | a single name joined under a directory is the file name of the result, and the directory (read as a path) is its parent |
| Paths.LastIndexOf | omni-tagger/src-tauri/src/model_manager.rs:27 | the last occurrence of a character, absent exactly when the character is |
| Paths.FileNameOfJoin | omni-tagger/src-tauri/src/model_manager.rs:27 | joining a relative path under a directory keeps its file name, unless the path reads as `.` |
| Text.FindChar | omni-tagger/src-tauri/src/bin/native_host.rs:59 | the first occurrence of a character, absent exactly when the character is |
| Text.ReplaceChar | omni-tagger/src-tauri/src/processor.rs:95-97 | each occurrence of one character becomes the other, nothing else changes |
| Text.ReplaceCharRemoves | omni-tagger/src-tauri/src/processor.rs:95-97 | after the replacement the replaced character is gone |
| Text.JoinSplitRoundTrip | omni-tagger/src-tauri/src/processor.rs:99 | comma-free parts joined with ", " split back into the same parts |
| Text.Decimal | omni-tagger/src-tauri/src/bin/native_host.rs:80 | a timestamp prints as at least one decimal digit |
| Text.DecimalInjective | omni-tagger/src-tauri/src/bin/native_host.rs:80 | distinct timestamps print differently |

## Left out

- I/O, the clock, the file system, process spawning, base64 (section 4 of RFC 4648), UTF-8 validation and JSON (de)serialisation are oracle parameters, not implementations.
- Stdout write errors in `send_response` are not modelled: the response bytes are appended to the output.
- The network, image decoding, the tagger engine (`Tagger::new`, `infer`), the clipboard and notifications are oracle parameters. `process_image_url` and `process_image_file` are one `acquire` function.
- Events (`app.emit`) appear only as the `finished` flag and the progress events of downloads. The floating-point `percent` is not modelled.
- Concurrency and mutex poisoning are not modelled. The shared state is one object, and the lazy load is a plain check-then-set. The "Tagger not available" branch cannot be reached sequentially.
- The threshold is an `f32` carried as a `real` and never compared.
- The `u64` byte counter in `download_file` is unbounded.
- `write_all` failing part-way is modelled as writing none of that chunk.
- Paths are `/`-separated strings, read as Unix `Path` reads them: repeated and trailing separators and `.` components after the first are not components. Windows paths (prefixes, `\` separators) and the lossy string conversion of a path are not modelled; `..` is a component, as in `Path`, and is never resolved.
- Paths.FileNameOfJoin, Config.ResolveKeepsFileName: say nothing for a relative path that reads as `.` or is empty, because joining such a path names the directory itself, whose file name is the directory's.
- `Quoted` stands for the `{:?}` formatting of a path and does not escape characters.
- Error context chains (`anyhow::Context`) are reduced to the context message.
- `check_model_exists` and `download_new_model` (config.rs) only compose `resolve_model_path` with `check_file_exists` and `download_file`, and are not modelled separately.
- The overlay's `confirmSelection` scaling to image pixels is floating point and not modelled; `BeginConfirm` hands the screen rectangle on. Loading the screenshot, closing overlays and rendering are not modelled.
- React's batched state updates are treated as immediate assignments; within each handler the source reads no state it has just set.
- The temp file's time stamp is a natural number of milliseconds: a system clock set before 1970, on which `duration_since(UNIX_EPOCH).unwrap()` panics, is not modelled.
- Overlay coordinates are integers; client coordinates of mouse events are whole pixels.
- Overlay.OverlayState.HandleMouseDown: requires mode `selected`, because the handles are rendered only in that mode.
- The tray menu, the window setup and the background preload in `lib.rs` are not modelled. The preload repeats the check-then-set of `run_inference_and_notify`.

## Findings

| source | as written | input that shows it | evidently intended | confidence | as-written member | corrected member |
|---|---|---|---|---|---|---|
| omni-tagger/src-tauri/src/processor.rs:22-27 | the bridge launches the application with `--delete-after <temp file>` for inline images (native_host.rs:85-86), and `process_inputs` treats every flag other than `--process-url` as no work | a request `{"data": "data:image/png;base64,AAAA"}` whose file is written and whose launch succeeds: the application receives `[app, "--delete-after", "/tmp/omni_tagger_<millis>.png"]` | the documented command line: an optional `--delete-after <path>` prefix, then `--process-url <url>` or a file path; the file is tagged and then deleted | high (follows from the code; not executed) | EndToEnd.DataRequestIsDropped | EndToEnd.CorrectedBridgeReachesPipeline |
| omni-tagger/src/components/Overlay.tsx:282-301 | the action buttons stop only the click; their mousedown bubbles to `handleMouseDown`, and they sit below the rectangle, outside its hit test | a selection in place and a left press on "Extract Tags", below the rectangle: the press starts a new empty selection, the re-render removes the buttons, and the release drops it | a click on "Extract Tags" confirms the selection in place, as Enter does | medium (follows from the code; whether a click still reaches a removed button is up to the browser; not executed) | Overlay.OverlayState.PressActionButton | Overlay.OverlayState.ConfirmButtonClick |
