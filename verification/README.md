# Maestro configuration store: a Dafny model

Maestro keeps its configuration in two files:

- `maestro.json` is a small pointer record (`Config`) in the working directory. Its one field, `config_file_path`, names the user's configuration file.
- The user's configuration file holds a `Maestro`, which is a list of workspaces.

`load_config` works in four steps. It opens and parses the pointer, then opens and parses the file whose path it holds. Each of those steps stops the load with its own error. It then validates every workspace in order and stops at the first rejection. `save_user_config_file` creates or truncates `maestro.json`, canonicalises the user-supplied path, writes a `Config` holding the canonical path, and returns that path.

The model has one module per source file:

- `Errors` covers `error.rs`. SerdeError and ConfigError keep the stage that failed instead of the message text; ValidationError keeps the rule's reason.
- `ConfigModel` covers `config/model.rs`.
- `Workspaces` covers `workspace.rs`.
- `MaestroModel` covers `maestro.rs`.
- `ConfigStore` covers `store.rs`.

`Outcomes` holds `Option` and `Result`.

The filesystem is a `map<string, string>` from path to contents. Loading is a pure function of that map. Saving is a method on the class `Disk`, which updates the map in two steps: first the truncation, then the write.

Some collaborators are not part of this model, so they are passed in as function-valued parameters:

- `serde_json` parsing and printing (`Serde`);
- `fs::canonicalize` (`Canonicalizer`);
- the per-workspace check (`WorkspaceRule`).

Properties that need something of these collaborators state it in their `requires`:

- `ConfigRoundTrip`: a printed `Config` parses back to itself.
- `RejectsEmpty`: an empty file is not a `Config`.
- `AgreesWithTests`: the rule accepts the test workspaces "WorkspaceA" and "WorkspaceB", and rejects "Workspace B".

Where the code's parts disagree with each other or with its tests, the model follows the code:

- The code has two error variants for the four load failures. `ConfigError` covers both missing files, and `SerdeError` covers both malformed files. `LoadErrorKinds` states this.
- The code truncates `maestro.json` before it canonicalises the path. See Findings.
- `Workspace` (workspace.rs) has no `validate` method, although maestro.rs:13 calls one. No name rule exists in the repository's code, so the rule is a parameter.
- The store's tests match a validation variant that `error.rs` does not declare. The model adds it as `ValidationError(reason)`.
- The workspace record in `workspace.rs` has `last_updated`. The tests in `maestro.rs` also set `container_working_dir`. The model keeps both as optional fields that nothing inspects.

## Model

| member | source | states |
|---|---|---|
| ConfigModel.New | src/core/config/model.rs:9-13 | `Config::new` stores any path, including the empty one, unchanged; there is no requires |
| ConfigModel.Default | src/core/config/model.rs:16-21 | the default record's path is "default.json" |
| ConfigModel.NewFromFieldIsIdentity | src/core/config/model.rs:4-6 | a Config is determined by its single path field; it carries no workspace data |
| ConfigModel.NewIsInjective | src/core/config/model.rs:9-13 | two records built by `new` are equal exactly when their paths are |
| Workspaces.ValidateWorkspace | src/core/model/maestro.rs:13 | a workspace validates iff the rule accepts it; a rejection is a ValidationError carrying the rule's reason |
| MaestroModel.ValidateWorkspaces | src/core/model/maestro.rs:11-16 | Ok iff every workspace is accepted, so the empty list passes; an error is exactly the error of the first rejected workspace |
| MaestroModel.ValidateAppend | src/core/model/maestro.rs:12-15 | validating `ws + rest` looks at `rest` only if `ws` passes; a failure in `ws` is the result whatever follows |
| MaestroModel.ValidateStopsAtFirstRejected | src/core/model/maestro.rs:12-13 | workspaces after the first rejected one are not inspected: any rule agreeing up to it gives the same error |
| MaestroModel.ValidMaestroExample | src/core/model/maestro.rs:23-36 | a list holding only "WorkspaceA" validates |
| MaestroModel.InvalidWorkspaceExample | src/core/model/maestro.rs:38-57 | "WorkspaceA" followed by "Workspace B" fails with the error of "Workspace B" |
| ConfigStore.FollowPointer | src/core/config/store.rs:53-71 | success only for the file at the path, parsed as is, with every workspace accepted |
| ConfigStore.LoadConfig | src/core/config/store.rs:36-72 | a success is the parsed user file named by the parsed pointer and it passes validation; no partial Maestro is returned |
| ConfigStore.LoadWithoutPointerFile | src/core/config/store.rs:37-43 | no maestro.json: ConfigError at the first stage, whatever else is on disk |
| ConfigStore.LoadMalformedPointer | src/core/config/store.rs:45-51 | maestro.json that is not a Config: SerdeError |
| ConfigStore.LoadMissingUserFile | src/core/config/store.rs:53-58 | maestro.json holds the path of a missing file: ConfigError |
| ConfigStore.LoadMalformedUserFile | src/core/config/store.rs:59-66 | a user file that is not a Maestro (e.g. no `workspaces`): SerdeError |
| ConfigStore.LoadRejectedWorkspace | src/core/config/store.rs:69 | a rejected workspace: the load returns the first rejected workspace's error unchanged |
| ConfigStore.LoadSucceedsIff | src/core/config/store.rs:36-72 | Ok(m) iff every stage succeeds, `m` is the user file's parse and every workspace is accepted |
| ConfigStore.LoadErrorKinds | src/core/config/store.rs:36-72 | ConfigError iff a file is missing; SerdeError iff a file present is malformed; ValidationError iff a workspace is rejected |
| ConfigStore.LoadReadsOnlyTwoFiles | src/core/config/store.rs:37-61 | the result depends only on maestro.json and the file it names |
| ConfigStore.SaveThenLoad | src/core/config/store.rs:109-118 | after the pointer to `p` is written, a load follows `p`; when `p` is not the pointer file itself, it reads the user file as it was before the save |
| ConfigStore.SaveAndLoadScenario | src/core/config/store.rs:128-168 | saving a path to a file holding WorkspaceA and WorkspaceB, then loading, returns both in file order |
| ConfigStore.InvalidWorkspaceScenario | src/core/config/store.rs:209-249 | saving, then loading a file holding "Workspace B", fails with that workspace's validation error |
| ConfigStore.EmptiedPointerDoesNotLoad | src/core/config/store.rs:95-107 | an emptied maestro.json, which a failed save leaves, loads as SerdeError whatever it held before |
| ConfigStore.Disk.SaveUserConfigFile | src/core/config/store.rs:94-119 | create failure: ConfigError, nothing changed; canonicalisation failure: ConfigError with maestro.json emptied; write failure: SerdeError with it emptied; success: returns the canonical path and maestro.json holds the printed Config of exactly that path |
| ConfigStore.Disk.SaveUserConfigFileResolvedFirst | src/core/config/store.rs:94-119 | as above, but an unresolvable path or a create failure leaves every file unchanged |
| ConfigStore.FailedSaveScenario | src/core/config/store.rs:94-107 | after a failed save, the load fails with SerdeError under the code as written, but returns what it returned before under the corrected save |

## Left out

- JSON parsing and printing (`serde_json`, `BufReader`, `File::open`) are parameters. The pretty-printed format is not modelled, only the round trip of `Config` that the save-then-load lemmas need.
- `fs::canonicalize` is a parameter over the filesystem and the path. No idempotence is assumed. Map keys are read as canonical paths, and `PointerFile` stands for the canonical name of ./maestro.json, so a user path that canonicalises to it is the pointer file itself. A non-canonical path written into maestro.json by hand is a different key from the file it names: that aliasing is not modelled.
- The `.unwrap()` on `to_str()` at store.rs:109 and store.rs:118 panics on non-UTF-8 paths. That panic is not modelled, because Dafny strings are always representable.
- Error message text is left out. SerdeError and ConfigError keep the stage that produced them; ValidationError keeps the rule's reason.
- The concrete workspace-name rule is not part of this model. No file of the repository contains it. The rule is a parameter constrained only by the workspaces that the tests accept and reject.
- `last_updated` is an opaque optional timestamp. No check reads it.
- src/core/model/project.rs is a data struct with no behaviour.
- Test scaffolding (`serial_test`, removing the files afterwards) is left out.
- ConfigStore.Disk.SaveUserConfigFile: a failure while writing maestro.json is modelled as the device refusing every byte (`noSpace`), which leaves the file empty. A partly written prefix is not modelled. The only `File::create` failure modelled is a path in `readOnly`.
- Concurrent saves and loads by several processes are not modelled.

## Findings

| source | as written | input that shows it | evidently intended | confidence | as-written member | corrected member |
|---|---|---|---|---|---|---|
| src/core/config/store.rs:95-107 | `File::create` truncates maestro.json before the user path is canonicalised | a working maestro.json and a user path that does not resolve: the save fails with ConfigError but leaves maestro.json empty, so the next load fails with SerdeError instead of loading the previous configuration | a save whose path does not resolve changes no file | medium; not executed | ConfigStore.Disk.SaveUserConfigFile, ConfigStore.EmptiedPointerDoesNotLoad, ConfigStore.FailedSaveScenario | ConfigStore.Disk.SaveUserConfigFileResolvedFirst |
