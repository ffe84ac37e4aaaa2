/**
 * Model of the external-linter project settings (ExternalLinterProjectSettingsService):
 * the settings record with its defaults and its copy, and the one-time move of
 * the linter fields out of the legacy Rust project settings when no stored
 * state of its own was found.
 *
 * Persistence, change notification and the `modify` wrapper of the service
 * base class are framework code; `NoStateLoaded` applies the migration to the
 * service's state object directly.
 */
module LinterSettings {

  /** The external linter (`org.rust.cargo.toolchain.ExternalLinter`). */
  datatype ExternalLinter = CargoCheck | Clippy

  /** `ExternalLinter.DEFAULT`. */
  const DefaultLinter: ExternalLinter := CargoCheck

  /** The toolchain channel (`org.rust.cargo.toolchain.RustChannel`). */
  datatype RustChannel = DefaultChannel | Stable | Beta | Nightly | Dev

  /** `ExternalLinterProjectSettingsService.State`. */
  class State {
    var tool: ExternalLinter
    var additionalArguments: string
    var channel: RustChannel
    var envs: map<string, string>
    var runOnTheFly: bool

    /** The five settings as the defaults give them. */
    predicate HasDefaults()
      reads this
    {
      && tool == DefaultLinter
      && additionalArguments == ""
      && channel == DefaultChannel
      && envs == map[]
      && !runOnTheFly
    }

    constructor ()
      ensures HasDefaults()
    {
      tool := DefaultLinter;
      additionalArguments := "";
      channel := DefaultChannel;
      envs := map[];
      runOnTheFly := false;
    }

    /** `copy`: a new State holding the same five values. */
    method Copy() returns (state: State)
      ensures fresh(state)
      ensures state.tool == tool && state.additionalArguments == additionalArguments
      ensures state.channel == channel && state.envs == envs && state.runOnTheFly == runOnTheFly
    {
      state := new State();
      state.tool := tool;
      state.additionalArguments := additionalArguments;
      state.channel := channel;
      state.envs := envs;
      state.runOnTheFly := runOnTheFly;
    }
  }

  /** The legacy linter fields of the project-wide Rust settings state. */
  class LegacyRustSettings {
    var externalLinter: ExternalLinter
    var externalLinterArguments: string
    var runExternalLinterOnTheFly: bool

    constructor (externalLinter: ExternalLinter, externalLinterArguments: string, runExternalLinterOnTheFly: bool)
      ensures this.externalLinter == externalLinter
      ensures this.externalLinterArguments == externalLinterArguments
      ensures this.runExternalLinterOnTheFly == runExternalLinterOnTheFly
    {
      this.externalLinter := externalLinter;
      this.externalLinterArguments := externalLinterArguments;
      this.runExternalLinterOnTheFly := runExternalLinterOnTheFly;
    }

    /** The legacy fields hold their reset values. */
    predicate IsReset()
      reads this
    {
      externalLinter == DefaultLinter && externalLinterArguments == "" && !runExternalLinterOnTheFly
    }
  }

  class ExternalLinterProjectSettingsService {
    var state: State

    constructor ()
      ensures fresh(state) && state.HasDefaults()
    {
      state := new State();
    }

    /**
     * `noStateLoaded`: each legacy field is read into the new state, then reset.
     * `channel` and `envs` are left as they were.
     */
    method NoStateLoaded(rustSettings: LegacyRustSettings)
      modifies state, rustSettings
      ensures state == old(state)
      ensures state.tool == old(rustSettings.externalLinter)
      ensures state.additionalArguments == old(rustSettings.externalLinterArguments)
      ensures state.runOnTheFly == old(rustSettings.runExternalLinterOnTheFly)
      ensures state.channel == old(state.channel) && state.envs == old(state.envs)
      ensures rustSettings.IsReset()
    {
      var it := state;
      it.tool := rustSettings.externalLinter;
      rustSettings.externalLinter := DefaultLinter;
      it.additionalArguments := rustSettings.externalLinterArguments;
      rustSettings.externalLinterArguments := "";
      it.runOnTheFly := rustSettings.runExternalLinterOnTheFly;
      rustSettings.runExternalLinterOnTheFly := false;
    }
  }

  /** Migrating into a fresh service carries the legacy values over and keeps the default channel and envs. */
  method MigrateIntoFreshService(rustSettings: LegacyRustSettings) returns (service: ExternalLinterProjectSettingsService)
    modifies rustSettings
    ensures fresh(service) && fresh(service.state)
    ensures service.state.tool == old(rustSettings.externalLinter)
    ensures service.state.additionalArguments == old(rustSettings.externalLinterArguments)
    ensures service.state.runOnTheFly == old(rustSettings.runExternalLinterOnTheFly)
    ensures service.state.channel == DefaultChannel && service.state.envs == map[]
    ensures rustSettings.IsReset()
  {
    service := new ExternalLinterProjectSettingsService();
    service.NoStateLoaded(rustSettings);
  }
}
