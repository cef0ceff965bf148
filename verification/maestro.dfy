/**
 * The configuration aggregate and its fail-fast validation
 * (src/core/model/maestro.rs).
 */
module MaestroModel {
  import opened Outcomes
  import opened Errors
  import opened Workspaces

  /** The parsed user configuration: its workspaces in file order. */
  datatype Maestro = Maestro(workspaces: seq<Workspace>)

  /** `k` is the first workspace of `ws` that the rule rejects. */
  predicate FirstRejected(rule: WorkspaceRule, ws: seq<Workspace>, k: int) {
    && 0 <= k < |ws|
    && !Accepts(rule, ws[k])
    && forall j :: 0 <= j < k ==> Accepts(rule, ws[j])
  }

  /**
   * `Maestro::validate` over the workspaces: checks them in order and stops at
   * the first one that fails, returning its error unchanged. Succeeds exactly
   * when every workspace is accepted, so an empty list succeeds.
   */
  function ValidateWorkspaces(rule: WorkspaceRule, ws: seq<Workspace>): (r: Result<(), MaestroError>)
    ensures r.Ok? <==> forall i :: 0 <= i < |ws| ==> Accepts(rule, ws[i])
    ensures r.Err? ==> exists k :: FirstRejected(rule, ws, k) && r == ValidateWorkspace(rule, ws[k])
  {
    if ws == [] then Ok(())
    else match ValidateWorkspace(rule, ws[0])
      case Err(e) =>
        assert FirstRejected(rule, ws, 0);
        Err(e)
      case Ok(_) =>
        var rest := ValidateWorkspaces(rule, ws[1..]);
        assert forall k :: FirstRejected(rule, ws[1..], k) ==> FirstRejected(rule, ws, k + 1);
        rest
  }

  /**
   * Validating a list in two parts: the second part is looked at only when
   * the first passes, and a failure in the first part is the answer whatever
   * follows it (the workspaces after a failing one are never inspected).
   */
  lemma {:induction false} ValidateAppend(rule: WorkspaceRule, ws: seq<Workspace>, rest: seq<Workspace>)
    ensures ValidateWorkspaces(rule, ws + rest)
         == if ValidateWorkspaces(rule, ws).Ok? then ValidateWorkspaces(rule, rest)
            else ValidateWorkspaces(rule, ws)
  {
    if ws == [] {
      assert ws + rest == rest;
    } else {
      assert (ws + rest)[0] == ws[0];
      assert (ws + rest)[1..] == ws[1..] + rest;
      ValidateAppend(rule, ws[1..], rest);
    }
  }

  /**
   * The error returned is the first rejected workspace's error: two rules
   * that agree on every workspace up to and including the first one rejected
   * give the same result, whatever they say about the workspaces after it.
   */
  lemma ValidateStopsAtFirstRejected(rule: WorkspaceRule, other: WorkspaceRule,
                                     ws: seq<Workspace>, k: int)
    requires FirstRejected(rule, ws, k)
    requires forall j :: 0 <= j <= k ==> rule(ws[j]) == other(ws[j])
    ensures ValidateWorkspaces(rule, ws) == ValidateWorkspaces(other, ws)
    ensures ValidateWorkspaces(rule, ws) == Err(ValidationError(rule(ws[k]).value))
  {
  }

  /** maestro.rs:23-36: a single valid workspace passes. */
  lemma ValidMaestroExample(rule: WorkspaceRule)
    requires AgreesWithTests(rule)
    ensures ValidateWorkspaces(rule, Maestro([ExampleA]).workspaces) == Ok(())
  {
  }

  /**
   * maestro.rs:38-57: a list holding "Workspace B" fails even after a valid
   * "WorkspaceA", and the error is that of "Workspace B".
   */
  lemma InvalidWorkspaceExample(rule: WorkspaceRule)
    requires AgreesWithTests(rule)
    ensures ValidateWorkspaces(rule, Maestro([ExampleA, ExampleSpaced]).workspaces)
         == Err(ValidationError(rule(ExampleSpaced).value))
  {
  }
}
