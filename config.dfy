/** The application's settings (`src-tauri/src/config.rs`): the stored
    configuration record, its defaults, loading with a fallback, and the
    resolution of relative model paths under the app-local-data directory. */
module Config {
  import opened Wrappers
  import opened Paths

  /** `struct AppConfig`. The `f32` threshold is carried as a value and
      never computed with. */
  datatype AppConfig = AppConfig(
    modelPath: string,
    tagsPath: string,
    threshold: real,
    useUnderscore: bool,
    exclusionList: seq<string>)

  /** `AppConfig::default()` */
  const DEFAULT_CONFIG: AppConfig :=
    AppConfig("models/model.onnx", "models/tags.csv", 0.35, false, [])

  /** `load_config`: `stored` is the text of `config.json` when its path
      resolves, the file exists and it can be read; `parse` is
      `serde_json::from_str`. Anything missing or unparsable gives the
      defaults, so loading never fails. */
  function LoadConfig(stored: Option<string>, parse: string -> Option<AppConfig>): (c: AppConfig)
    ensures stored.Some? && parse(stored.value).Some? ==> c == parse(stored.value).value
    ensures stored.None? || parse(stored.value).None? ==> c == DEFAULT_CONFIG
  {
    match stored
    case Some(text) => parse(text).GetOr(DEFAULT_CONFIG)
    case None => DEFAULT_CONFIG
  }

  /** What `save_config` writes reads back: whenever the JSON codec
      round-trips a configuration, loading the saved text gives it back. */
  lemma LoadSavedConfig(c: AppConfig, serialize: AppConfig -> string, parse: string -> Option<AppConfig>)
    requires parse(serialize(c)) == Some(c)
    ensures LoadConfig(Some(serialize(c)), parse) == c
  {
  }

  /** `resolve_model_path`: an absolute path is kept; a relative one is
      joined under the app-local-data directory `base`, or kept as it is
      when that directory cannot be resolved. */
  function ResolveModelPath(p: string, base: Option<string>): (r: string)
    ensures IsAbsolute(p) ==> r == p
    ensures base.None? ==> r == p
    ensures !IsAbsolute(p) && base.Some? ==> r == JoinPath(base.value, p) && base.value <= r
    ensures !IsAbsolute(p) && base.Some? && IsAbsolute(base.value) ==> IsAbsolute(r)
    ensures |p| <= |r| && r[|r| - |p|..] == p
  {
    if IsAbsolute(p) then p
    else
      match base
      case Some(dir) => JoinPath(dir, p)
      case None => p
  }

  /** Under an absolute base directory, resolving twice is resolving once. */
  lemma ResolveIdempotent(p: string, base: Option<string>)
    requires base.Some? ==> IsAbsolute(base.value)
    ensures ResolveModelPath(ResolveModelPath(p, base), base) == ResolveModelPath(p, base)
  {
  }

  /** Resolution keeps the file name of a path that has one. */
  lemma ResolveKeepsFileName(p: string, base: Option<string>)
    requires FileName(p).Some?
    ensures FileName(ResolveModelPath(p, base)) == FileName(p)
  {
    if !IsAbsolute(p) && base.Some? {
      assert LastComponent(".") == ".";
      FileNameOfJoin(base.value, p);
    }
  }

  /** `model_changed` in `set_config`: the model or the tags path differs. */
  predicate ModelChanged(previous: AppConfig, next: AppConfig) {
    previous.modelPath != next.modelPath || previous.tagsPath != next.tagsPath
  }
}
