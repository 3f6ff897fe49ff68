/** The `set_config` command (`src-tauri/src/config.rs`): store the new
    settings, save them, and rebuild the tagger when the model or the tag
    file changed. */
module ConfigCommands {
  import opened Wrappers
  import opened Config
  import opened State

  /** The configuration and tagger slot after `set_config`, and its result. */
  datatype Settled = Settled(config: AppConfig, tagger: Option<Tagger>, result: Result<(), string>)

  const RELOAD_FAILED_PREFIX: string := "Failed to reload tagger: "

  /** What `set_config` does to the state: `saveError` is the error of
      `save_config`, if any; `base` the app-local-data directory when it
      resolves; `load` the engine's constructor. */
  function SetConfigEffect(previous: AppConfig, slot: Option<Tagger>, next: AppConfig,
                           saveError: Option<string>, base: Option<string>,
                           load: (string, string) -> Result<nat, string>): Settled
  {
    if saveError.Some? then Settled(next, slot, Failure(saveError.value))
    else if !ModelChanged(previous, next) then Settled(next, slot, Success(()))
    else
      match NewTagger(load, ResolveModelPath(next.modelPath, base), ResolveModelPath(next.tagsPath, base))
      case Success(t) => Settled(next, Some(t), Success(()))
      case Failure(e) => Settled(next, None, Failure(RELOAD_FAILED_PREFIX + e))
  }

  /** The new settings are in memory whatever happens next, even when
      saving them fails. */
  lemma SetConfigAlwaysStores(previous: AppConfig, slot: Option<Tagger>, next: AppConfig,
                              saveError: Option<string>, base: Option<string>,
                              load: (string, string) -> Result<nat, string>)
    ensures SetConfigEffect(previous, slot, next, saveError, base, load).config == next
    ensures saveError.Some? ==>
              SetConfigEffect(previous, slot, next, saveError, base, load).result == Failure(saveError.value)
  {
  }

  /** The tagger slot is touched only after a successful save that changed
      the model or the tags path; changing only the threshold, the
      separator choice or the exclusion list keeps the loaded tagger. */
  lemma SetConfigReloadsOnlyOnPathChange(previous: AppConfig, slot: Option<Tagger>, next: AppConfig,
                                         saveError: Option<string>, base: Option<string>,
                                         load: (string, string) -> Result<nat, string>)
    ensures var s := SetConfigEffect(previous, slot, next, saveError, base, load);
            saveError.Some? || !ModelChanged(previous, next) ==> s.tagger == slot
  {
  }

  /** After a saved path change the slot holds exactly the outcome of
      rebuilding from the resolved new paths: the new tagger, or nothing
      together with a "Failed to reload tagger" error; it never keeps the
      previous tagger. */
  lemma SetConfigReloadOutcome(previous: AppConfig, slot: Option<Tagger>, next: AppConfig,
                               base: Option<string>, load: (string, string) -> Result<nat, string>)
    requires ModelChanged(previous, next)
    ensures var s := SetConfigEffect(previous, slot, next, None, base, load);
            var model := ResolveModelPath(next.modelPath, base);
            var tags := ResolveModelPath(next.tagsPath, base);
            && (s.result.Success? <==> load(model, tags).Success?)
            && (s.result.Success? ==>
                  s.tagger.Some? && s.tagger.value.modelFile == model && s.tagger.value.tagsFile == tags)
            && (s.result.Failure? ==>
                  s.tagger.None? && s.result.error == RELOAD_FAILED_PREFIX + load(model, tags).error)
  {
  }

  /** `set_config` as written, on the shared state. */
  method SetConfig(state: AppState, next: AppConfig, saveError: Option<string>, base: Option<string>,
                   load: (string, string) -> Result<nat, string>)
    returns (r: Result<(), string>)
    modifies state
    ensures Settled(state.config, state.tagger, r)
            == SetConfigEffect(old(state.config), old(state.tagger), next, saveError, base, load)
  {
    var modelChanged := state.config.modelPath != next.modelPath || state.config.tagsPath != next.tagsPath;
    state.config := next;
    if saveError.Some? {
      return Failure(saveError.value);
    }
    if modelChanged {
      var modelPath := ResolveModelPath(next.modelPath, base);
      var tagsPath := ResolveModelPath(next.tagsPath, base);
      match NewTagger(load, modelPath, tagsPath) {
        case Success(tagger) =>
          state.tagger := Some(tagger);
        case Failure(e) =>
          state.tagger := None;
          return Failure(RELOAD_FAILED_PREFIX + e);
      }
    }
    return Success(());
  }
}
