/** The state shared by the application's commands (`src-tauri/src/state.rs`):
    the tagger slot and the current configuration, each behind a mutex in
    the Rust code and here two fields of one object. */
module State {
  import opened Wrappers
  import opened Config

  /** A constructed `Tagger`: the model and tag files it was built from and
      the handle the inference engine returned for them. */
  datatype Tagger = Tagger(modelFile: string, tagsFile: string, engine: nat)

  /** `Tagger::new(model, tags)`: `load` is the engine's constructor,
      giving a handle or the error text. */
  function NewTagger(load: (string, string) -> Result<nat, string>, model: string, tags: string)
    : (r: Result<Tagger, string>)
    ensures r.Success? <==> load(model, tags).Success?
    ensures r.Success? ==> r.value.modelFile == model && r.value.tagsFile == tags
    ensures r.Failure? ==> r.error == load(model, tags).error
  {
    match load(model, tags)
    case Success(handle) => Success(Tagger(model, tags, handle))
    case Failure(e) => Failure(e)
  }

  /** `struct AppState`. */
  class AppState {
    var tagger: Option<Tagger>
    var config: AppConfig

    /** The state `run` installs at start-up: no tagger, default settings. */
    constructor ()
      ensures tagger == None && config == DEFAULT_CONFIG
    {
      tagger := None;
      config := DEFAULT_CONFIG;
    }
  }
}
