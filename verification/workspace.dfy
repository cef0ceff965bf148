/**
 * One workspace entry of the user configuration (src/core/model/workspace.rs).
 * The repository's Workspace has no `validate` method although maestro.rs
 * calls one; its rule is therefore a parameter, a function that rejects a
 * workspace with a reason or accepts it, constrained only by the workspaces
 * the repository's tests name.
 */
module Workspaces {
  import opened Outcomes
  import opened Errors

  /** A chrono `DateTime<Utc>`, kept opaque: nothing inspects it. */
  datatype Timestamp = Timestamp(utc: string)

  datatype Workspace = Workspace(
    name: string,
    description: string,
    workspacePath: string,
    containerWorkingDir: Option<string>,
    lastUpdated: Option<Timestamp>)

  /** The per-workspace check: `None` accepts, `Some(reason)` rejects. */
  type WorkspaceRule = Workspace -> Option<string>

  predicate Accepts(rule: WorkspaceRule, w: Workspace) {
    rule(w).None?
  }

  /** `Workspace::validate`: the rule's verdict as a Result. */
  function ValidateWorkspace(rule: WorkspaceRule, w: Workspace): (r: Result<(), MaestroError>)
    ensures r.Ok? <==> Accepts(rule, w)
    ensures r.Err? ==> r.error == ValidationError(rule(w).value)
  {
    match rule(w)
    case None => Ok(())
    case Some(reason) => Err(ValidationError(reason))
  }

  /** The workspace the tests call valid (maestro.rs:27-32, store.rs:136-140). */
  const ExampleA := Workspace("WorkspaceA", "Description for workspaceA",
                              "/path/to/workspaceA", None, None)

  /** The second workspace of the save-and-load test (store.rs:141-145). */
  const ExampleB := Workspace("WorkspaceB", "Description for workspaceB",
                              "/path/to/workspaceB", None, None)

  /** The workspace the tests call invalid (maestro.rs:48-53, store.rs:222-226). */
  const ExampleSpaced := Workspace("Workspace B", "Description for workspaceB",
                                   "/path/to/workspaceB", None, None)

  /** What the repository's tests require of any workspace rule. */
  predicate AgreesWithTests(rule: WorkspaceRule) {
    && Accepts(rule, ExampleA)
    && Accepts(rule, ExampleB)
    && !Accepts(rule, ExampleSpaced)
  }
}
