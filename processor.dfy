/** What the desktop application does with its command line and with an
    image (`src-tauri/src/processor.rs`): pick the work from the arguments,
    load the tagger on first use, run it, and turn its tags into the text
    copied to the clipboard. */
module Processor {
  import opened Wrappers
  import opened Text
  import opened Config
  import opened State

  // ---------------------------------------------------------------------
  // process_inputs

  /** The work named by the command line. */
  datatype WorkItem = NoOp | FromUrl(url: string) | FromFile(path: string)

  const PROCESS_URL_FLAG: string := "--process-url"

  /** `process_inputs`' choice of work from `args` (`args[0]` is the
      program): a URL after `--process-url`, a file path when the first
      argument is not a flag, nothing otherwise. */
  function ParseInputs(args: seq<string>): (w: WorkItem)
    ensures w.FromUrl? <==> |args| > 2 && args[1] == PROCESS_URL_FLAG
    ensures w.FromUrl? ==> w.url == args[2]
    ensures w.FromFile? <==> |args| > 1 && !StartsWith(args[1], "--")
    ensures w.FromFile? ==> w.path == args[1]
  {
    if |args| <= 1 then NoOp
    else
      var arg1 := args[1];
      if arg1 == PROCESS_URL_FLAG then
        if |args| > 2 then FromUrl(args[2]) else NoOp
      else if !StartsWith(arg1, "--") then FromFile(arg1)
      else NoOp
  }

  /** Every other flag in first position, `--delete-after` included, and a
      `--process-url` without its URL, select no work at all. */
  lemma ParseInputsIgnoresOtherFlags(args: seq<string>)
    requires |args| > 1 && StartsWith(args[1], "--")
    requires args[1] != PROCESS_URL_FLAG || |args| == 2
    ensures ParseInputs(args) == NoOp
  {
  }

  // ---------------------------------------------------------------------
  // The tag pipeline of run_inference_and_notify

  /** An inferred tag with its score. */
  datatype Scored = Scored(tag: string, score: real)

  /** `results.into_iter().map(|(t, _)| t)` */
  function TagNames(results: seq<Scored>): (r: seq<string>)
    ensures |r| == |results| && forall i :: 0 <= i < |r| ==> r[i] == results[i].tag
  {
    if |results| == 0 then [] else [results[0].tag] + TagNames(results[1..])
  }

  /** `.filter(|t| !exclusion_list.contains(t))` */
  function DropExcluded(tags: seq<string>, exclusions: seq<string>): (r: seq<string>)
    ensures forall t :: t in r <==> t in tags && t !in exclusions
    ensures |r| <= |tags|
  {
    if |tags| == 0 then []
    else
      var rest := DropExcluded(tags[1..], exclusions);
      assert forall t :: t in tags <==> t == tags[0] || t in tags[1..];
      if tags[0] in exclusions then rest else [tags[0]] + rest
  }

  /** Filtering keeps the order of the surviving tags: it distributes over
      concatenation. */
  lemma {:induction false} DropExcludedAppend(a: seq<string>, b: seq<string>, exclusions: seq<string>)
    ensures DropExcluded(a + b, exclusions) == DropExcluded(a, exclusions) + DropExcluded(b, exclusions)
    decreases |a|
  {
    if |a| == 0 {
      assert a + b == b;
    } else {
      assert (a + b)[0] == a[0];
      assert (a + b)[1..] == a[1..] + b;
      DropExcludedAppend(a[1..], b, exclusions);
    }
  }

  /** `.map(|t| t.replace(from, to))` */
  function ReplaceInAll(tags: seq<string>, from: char, to: char): (r: seq<string>)
    ensures |r| == |tags| && forall i :: 0 <= i < |r| ==> r[i] == ReplaceChar(tags[i], from, to)
  {
    if |tags| == 0 then [] else [ReplaceChar(tags[0], from, to)] + ReplaceInAll(tags[1..], from, to)
  }

  /** Spaces become underscores under `use_underscore`, underscores become
      spaces otherwise. */
  function RewriteSeparators(tags: seq<string>, useUnderscore: bool): seq<string> {
    if useUnderscore then ReplaceInAll(tags, ' ', '_') else ReplaceInAll(tags, '_', ' ')
  }

  /** After the rewrite no tag holds the separator it replaced. */
  lemma RewriteLeavesOneSeparator(tags: seq<string>, useUnderscore: bool)
    ensures var r := RewriteSeparators(tags, useUnderscore);
            |r| == |tags|
            && forall i :: 0 <= i < |r| ==> (if useUnderscore then ' ' else '_') !in r[i]
  {
    var r := RewriteSeparators(tags, useUnderscore);
    forall i | 0 <= i < |r|
      ensures (if useUnderscore then ' ' else '_') !in r[i]
    {
      if useUnderscore {
        ReplaceCharRemoves(tags[i], ' ', '_');
      } else {
        ReplaceCharRemoves(tags[i], '_', ' ');
      }
    }
  }

  /** The tags that reach the clipboard, in inference order. */
  function ProcessedTags(results: seq<Scored>, config: AppConfig): seq<string> {
    RewriteSeparators(DropExcluded(TagNames(results), config.exclusionList), config.useUnderscore)
  }

  /** `filtered.join(", ")`: the text copied and shown. */
  function TagLine(results: seq<Scored>, config: AppConfig): string {
    Join(ProcessedTags(results, config), ", ")
  }

  /** The processed tags are the inferred tags that are not excluded, one
      for one and in order, with the separator rewritten. */
  lemma ProcessedTagsCorrespond(results: seq<Scored>, config: AppConfig)
    ensures var kept := DropExcluded(TagNames(results), config.exclusionList);
            var out := ProcessedTags(results, config);
            && |out| == |kept|
            && (forall t :: t in kept <==> (exists i :: 0 <= i < |results| && results[i].tag == t)
                                             && t !in config.exclusionList)
            && (forall i :: 0 <= i < |out| ==>
                  out[i] == (if config.useUnderscore then ReplaceChar(kept[i], ' ', '_')
                             else ReplaceChar(kept[i], '_', ' ')))
  {
    var names := TagNames(results);
    assert forall t :: t in names <==> exists i :: 0 <= i < |results| && results[i].tag == t by {
      forall t | t in names ensures exists i :: 0 <= i < |results| && results[i].tag == t {
        var i :| 0 <= i < |names| && names[i] == t;
        assert results[i].tag == t;
      }
      forall t | exists i :: 0 <= i < |results| && results[i].tag == t ensures t in names {
        var i :| 0 <= i < |results| && results[i].tag == t;
        assert names[i] == t;
      }
    }
  }

  /** When no tag holds a comma, the copied text splits back at ", " into
      exactly the processed tags. */
  lemma TagLineSplitsBack(results: seq<Scored>, config: AppConfig)
    requires |ProcessedTags(results, config)| >= 1
    requires forall i :: 0 <= i < |results| ==> ',' !in results[i].tag
    ensures SplitList(TagLine(results, config)) == ProcessedTags(results, config)
  {
    var names := TagNames(results);
    var kept := DropExcluded(names, config.exclusionList);
    var out := ProcessedTags(results, config);
    forall k | 0 <= k < |out| ensures ',' !in out[k] {
      assert kept[k] in kept;
      var i :| 0 <= i < |names| && names[i] == kept[k];
      assert ',' !in kept[k];
      assert forall j :: 0 <= j < |kept[k]| ==> out[k][j] != ',';
    }
    JoinSplitRoundTrip(out);
  }

  // ---------------------------------------------------------------------
  // run_inference_and_notify

  /** A decoded image, handed to the tagger as it is. */
  datatype Image = Image(id: nat)

  /** The collaborators of `run_inference_and_notify`: the app-local-data
      directory when it resolves, the tagger's constructor and inference,
      and the clipboard (whether it opens, and which texts it accepts). */
  datatype Services = Services(
    base: Option<string>,
    load: (string, string) -> Result<nat, string>,
    infer: (Tagger, Image, real) -> Result<seq<Scored>, string>,
    clipboardOpens: bool,
    clipboardAccepts: string -> bool)

  const INIT_FAILED: string := "Failed to initialize tagger"
  const INFER_FAILED: string := "Inference failed"
  const CLIPBOARD_INIT_FAILED: string := "Failed to initialize clipboard"
  const CLIPBOARD_SET_FAILED: string := "Failed to set clipboard text"

  /** The tagger slot afterwards, and the text put on the clipboard or the error. */
  datatype Processed = Processed(tagger: Option<Tagger>, result: Result<string, string>)

  /** The tagger built from the configured paths, resolved. */
  function LoadTagger(config: AppConfig, svc: Services): Result<Tagger, string> {
    NewTagger(svc.load, ResolveModelPath(config.modelPath, svc.base), ResolveModelPath(config.tagsPath, svc.base))
  }

  /** What `run_inference_and_notify` does with the configuration snapshot
      `config` and the tagger slot `slot`. */
  function InferenceEffect(config: AppConfig, slot: Option<Tagger>, img: Image, svc: Services): Processed {
    if slot.None? && LoadTagger(config, svc).Failure? then Processed(slot, Failure(INIT_FAILED))
    else
      var tagger := if slot.Some? then slot.value else LoadTagger(config, svc).value;
      match svc.infer(tagger, img, config.threshold)
      case Failure(_) => Processed(Some(tagger), Failure(INFER_FAILED))
      case Success(results) =>
        var line := TagLine(results, config);
        if !svc.clipboardOpens then Processed(Some(tagger), Failure(CLIPBOARD_INIT_FAILED))
        else if !svc.clipboardAccepts(line) then Processed(Some(tagger), Failure(CLIPBOARD_SET_FAILED))
        else Processed(Some(tagger), Success(line))
  }

  /** The lazy load: a loaded tagger is used as it is; an empty slot is
      filled from the configured paths before inference, and a failed
      construction leaves it empty and stops with an error. */
  lemma InferenceLoadsLazily(config: AppConfig, slot: Option<Tagger>, img: Image, svc: Services)
    ensures var p := InferenceEffect(config, slot, img, svc);
            && (slot.Some? ==> p.tagger == slot)
            && (slot.None? && LoadTagger(config, svc).Failure? ==> p == Processed(None, Failure(INIT_FAILED)))
            && (slot.None? && LoadTagger(config, svc).Success? ==>
                  p.tagger == Some(LoadTagger(config, svc).value)
                  && p.tagger.value.modelFile == ResolveModelPath(config.modelPath, svc.base)
                  && p.tagger.value.tagsFile == ResolveModelPath(config.tagsPath, svc.base))
  {
  }

  /** On success the clipboard receives the joined processed tags of the
      tagger in the slot, inferred with the snapshot's threshold. */
  lemma InferenceSuccessCopiesTagLine(config: AppConfig, slot: Option<Tagger>, img: Image, svc: Services)
    requires InferenceEffect(config, slot, img, svc).result.Success?
    ensures var p := InferenceEffect(config, slot, img, svc);
            && p.tagger.Some?
            && svc.infer(p.tagger.value, img, config.threshold).Success?
            && p.result.value == TagLine(svc.infer(p.tagger.value, img, config.threshold).value, config)
            && svc.clipboardOpens && svc.clipboardAccepts(p.result.value)
  {
  }

  /** `run_inference_and_notify` as written, on the shared state: one
      configuration snapshot, the check-then-set load, inference, the
      filter and rewrite, and the clipboard. */
  method RunInferenceAndNotify(state: AppState, img: Image, svc: Services) returns (r: Result<string, string>)
    modifies state
    ensures state.config == old(state.config)
    ensures Processed(state.tagger, r) == InferenceEffect(old(state.config), old(state.tagger), img, svc)
  {
    var config := state.config;
    var isLoaded := state.tagger.Some?;
    if !isLoaded {
      var modelPath := ResolveModelPath(config.modelPath, svc.base);
      var tagsPath := ResolveModelPath(config.tagsPath, svc.base);
      var loaded := NewTagger(svc.load, modelPath, tagsPath);
      if loaded.Failure? {
        return Failure(INIT_FAILED);
      }
      state.tagger := Some(loaded.value);
    }
    var tagger := state.tagger.value;
    var results := svc.infer(tagger, img, config.threshold);
    if results.Failure? {
      return Failure(INFER_FAILED);
    }
    var filtered := DropExcluded(TagNames(results.value), config.exclusionList);
    if config.useUnderscore {
      filtered := ReplaceInAll(filtered, ' ', '_');
    } else {
      filtered := ReplaceInAll(filtered, '_', ' ');
    }
    var tagsStr := Join(filtered, ", ");
    if !svc.clipboardOpens {
      return Failure(CLIPBOARD_INIT_FAILED);
    }
    if !svc.clipboardAccepts(tagsStr) {
      return Failure(CLIPBOARD_SET_FAILED);
    }
    return Success(tagsStr);
  }

  // ---------------------------------------------------------------------
  // Dispatch

  /** The tagger slot afterwards and the result of dispatch: `None` when
      there was no work, else the copied text. */
  datatype Dispatched = Dispatched(tagger: Option<Tagger>, result: Result<Option<string>, string>)

  /** What `process_inputs(args)` does: `acquire` stands for fetching and
      decoding the image of a work item (`process_image_url` /
      `process_image_file`), with its error text. */
  function DispatchEffect(args: seq<string>, config: AppConfig, slot: Option<Tagger>,
                          acquire: WorkItem -> Result<Image, string>, svc: Services): Dispatched
  {
    var work := ParseInputs(args);
    if work == NoOp then Dispatched(slot, Success(None))
    else
      match acquire(work)
      case Failure(e) => Dispatched(slot, Failure(e))
      case Success(img) =>
        var p := InferenceEffect(config, slot, img, svc);
        match p.result
        case Success(line) => Dispatched(p.tagger, Success(Some(line)))
        case Failure(e) => Dispatched(p.tagger, Failure(e))
  }

  /** Arguments that name no work leave everything as it is and succeed. */
  lemma DispatchNoOpChangesNothing(args: seq<string>, config: AppConfig, slot: Option<Tagger>,
                                   acquire: WorkItem -> Result<Image, string>, svc: Services)
    requires ParseInputs(args) == NoOp
    ensures DispatchEffect(args, config, slot, acquire, svc) == Dispatched(slot, Success(None))
  {
  }

  /** `process_inputs` as written. */
  method ProcessInputs(state: AppState, args: seq<string>, acquire: WorkItem -> Result<Image, string>,
                       svc: Services)
    returns (r: Result<Option<string>, string>)
    modifies state
    ensures state.config == old(state.config)
    ensures Dispatched(state.tagger, r)
            == DispatchEffect(args, old(state.config), old(state.tagger), acquire, svc)
  {
    var work := ParseInputs(args);
    if work == NoOp {
      return Success(None);
    }
    var img := acquire(work);
    if img.Failure? {
      return Failure(img.error);
    }
    var copied := RunInferenceAndNotify(state, img.value, svc);
    if copied.Failure? {
      return Failure(copied.error);
    }
    return Success(Some(copied.value));
  }
}
