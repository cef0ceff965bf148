/**
 * The error type of the configuration store (src/core/model/error.rs).
 * The Rust variants carry a formatted message; the model keeps the variant
 * and replaces the message by the stage that produced it, which is what the
 * message text tells apart.
 */
module Errors {

  /** The step of loading or saving whose failure a message reports. */
  datatype Stage =
    | LoadMaestroConfig    // opening maestro.json for reading
    | ParseMaestroConfig   // parsing maestro.json as a Config
    | LoadUserConfig       // opening the file maestro.json names
    | ParseUserConfig      // parsing that file as a Maestro
    | ConfigureMaestro     // creating (truncating) maestro.json
    | CanonicalizePath     // resolving the user-supplied path
    | WriteMaestroConfig   // writing the Config into maestro.json

  /**
   * SerdeError and ConfigError as declared in error.rs, and the validation
   * error that the store's tests expect from an invalid workspace, carrying
   * the reason the workspace was rejected.
   */
  datatype MaestroError =
    | SerdeError(stage: Stage)
    | ConfigError(stage: Stage)
    | ValidationError(reason: string)
}
