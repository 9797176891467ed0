/**
 * internal/provider/workflow_deployment_resource.go: the deploy poll loop
 * shared by Create and Update, the undeploy poll loop of Delete, and the
 * drift check of Read. The gateway answers the loops from a finite sequence
 * of exchanges; running out of them leaves the loop still polling, since the
 * provider itself polls without a bound.
 */
module DeploymentResource {
  import opened Wrappers
  import opened Strings
  import opened Framework
  import opened DeploymentClient
  import opened Tools

  /** workflowDeploymentResourceModel */
  datatype DeploymentModel = DeploymentModel(id: string, projectId: string, workflowId: string, version: int, deployed: bool)

  /** Which of the two operations runs the deploy loop; it decides only the error summaries. */
  datatype Operation = Creating | Updating

  /** How a poll loop ended: with a response, or still polling when the exchanges ran out. */
  datatype Run = Finished(response: Response<DeploymentModel>) | StillPolling

  const Deploying: string := "DEPLOYING"
  const Deployed: string := "DEPLOYED"
  const Undeploying: string := "UNDEPLOYING"
  const Undeployed: string := "UNDEPLOYED"

  const StatusReadSummary: string := "Error retrieving workflow deployment status"
  const StatusReadDetail: string := "Could not retrieve workflow deployment status, unexpected error: "
  const DeployFailedDetail: string := "Workflow deployment failed with status: "
  const DeleteSummary: string := "Error deleting workflow deployment"
  const DeleteDetail: string := "Could not delete workflow deployment, unexpected error: "
  const UndeployFailedDetail: string := "Workflow deployment failed to undeploy with status: "
  const ReadSummary: string := "Error reading workflow deployment"
  const ReadDetail: string := "Could not read workflow deployment, unexpected error: "
  const DriftSummary: string := "Workflow was undeployed outside terraform, Removing from state..."
  const DriftDetail: string := "The workflow deployment state has changed outside of Terraform."

  function OperationSummary(op: Operation): string
  {
    match op
    case Creating => "Error creating workflow deployment"
    case Updating => "Error updating workflow deployment"
  }

  function OperationDetail(op: Operation): string
  {
    match op
    case Creating => "Could not create workflow deployment, unexpected error: "
    case Updating => "Could not update workflow deployment, unexpected error: "
  }

  function Fail(summary: string, detail: string): Response<DeploymentModel>
  {
    Response([ErrorDiag(summary, detail)], Untouched)
  }

  // ---------------------------------------------------------------------
  // The deploy loop of Create and Update
  // ---------------------------------------------------------------------

  /** A poll that keeps the deploy loop going: a readable deployment still DEPLOYING. */
  predicate StillDeploying(ex: Exchange<WorkflowDeployment>)
  {
    var r := GetWorkflowDeployment(ex);
    r.Success? && r.value.status == Deploying
  }

  /** The index of the poll at which the deploy loop stops, or `|polls|` when none stops it. */
  function DeployStop(polls: seq<Exchange<WorkflowDeployment>>): (k: nat)
    ensures k <= |polls|
    ensures forall j :: 0 <= j < k ==> StillDeploying(polls[j])
    ensures k < |polls| ==> !StillDeploying(polls[k])
  {
    if polls == [] then 0
    else if !StillDeploying(polls[0]) then 0
    else 1 + DeployStop(polls[1..])
  }

  /** What the poll that stops the deploy loop makes of the operation. */
  function DeployVerdict(op: Operation, plan: DeploymentModel, deploymentId: string, r: Result<WorkflowDeployment, string>)
    : Response<DeploymentModel>
  {
    match r
    case Failure(message) => Fail(StatusReadSummary, StatusReadDetail + message)
    case Success(d) =>
      if d.status == Deployed then Response([], Stored(plan.(id := deploymentId, deployed := true)))
      else Fail(OperationSummary(op), DeployFailedDetail + d.status)
  }

  /**
   * Create and Update after the plan was read: start a deployment, then read
   * its status until it is no longer DEPLOYING.
   */
  method RunDeployment(op: Operation, plan: DeploymentModel, create: Exchange<CreatedDeployment>,
                       polls: seq<Exchange<WorkflowDeployment>>)
    returns (run: Run, polled: nat)
    ensures var created := CreateWorkflowDeployment(create);
      created.Failure? ==>
        polled == 0 && run == Finished(Fail(OperationSummary(op), OperationDetail(op) + created.error))
    ensures var created := CreateWorkflowDeployment(create);
      var k := DeployStop(polls);
      created.Success? ==>
        && (k == |polls| ==> polled == |polls| && run == StillPolling)
        && (k < |polls| ==>
              polled == k + 1 && run == Finished(DeployVerdict(op, plan, created.value, GetWorkflowDeployment(polls[k]))))
  {
    var created := CreateWorkflowDeployment(create);
    if created.Failure? {
      return Finished(Fail(OperationSummary(op), OperationDetail(op) + created.error)), 0;
    }
    var deploymentId := created.value;
    polled := 0;
    while polled < |polls|
      invariant 0 <= polled <= |polls|
      invariant forall j :: 0 <= j < polled ==> StillDeploying(polls[j])
    {
      var deployment := GetWorkflowDeployment(polls[polled]);
      polled := polled + 1;
      if deployment.Failure? {
        return Finished(Fail(StatusReadSummary, StatusReadDetail + deployment.error)), polled;
      }
      if deployment.value.status != Deploying {
        if deployment.value.status == Deployed {
          var next := plan.(id := deploymentId, deployed := true);
          return Finished(Response([], Stored(next))), polled;
        } else {
          return Finished(Fail(OperationSummary(op), DeployFailedDetail + deployment.value.status)), polled;
        }
      }
    }
    return StillPolling, polled;
  }

  /** Create: the deploy loop with the creating summaries. */
  method Create(plan: DeploymentModel, create: Exchange<CreatedDeployment>, polls: seq<Exchange<WorkflowDeployment>>)
    returns (run: Run, polled: nat)
    ensures var created := CreateWorkflowDeployment(create);
      var k := DeployStop(polls);
      && (created.Failure? ==>
            polled == 0 && run == Finished(Fail(OperationSummary(Creating), OperationDetail(Creating) + created.error)))
      && (created.Success? && k < |polls| ==>
            polled == k + 1 && run == Finished(DeployVerdict(Creating, plan, created.value, GetWorkflowDeployment(polls[k]))))
      && (created.Success? && k == |polls| ==> run == StillPolling && polled == |polls|)
  {
    run, polled := RunDeployment(Creating, plan, create, polls);
  }

  /** Update: the same loop as Create, with the updating summaries. */
  method Update(plan: DeploymentModel, create: Exchange<CreatedDeployment>, polls: seq<Exchange<WorkflowDeployment>>)
    returns (run: Run, polled: nat)
    ensures var created := CreateWorkflowDeployment(create);
      var k := DeployStop(polls);
      && (created.Failure? ==>
            polled == 0 && run == Finished(Fail(OperationSummary(Updating), OperationDetail(Updating) + created.error)))
      && (created.Success? && k < |polls| ==>
            polled == k + 1 && run == Finished(DeployVerdict(Updating, plan, created.value, GetWorkflowDeployment(polls[k]))))
      && (created.Success? && k == |polls| ==> run == StillPolling && polled == |polls|)
  {
    run, polled := RunDeployment(Updating, plan, create, polls);
  }

  /**
   * The stopping poll decides the outcome: the plan is stored, with the
   * created id and `deployed` set, exactly when that poll read a DEPLOYED
   * deployment; otherwise a single error is reported and nothing is stored,
   * and a failing status is named in the error.
   */
  lemma DeployVerdictOutcome(op: Operation, plan: DeploymentModel, deploymentId: string, r: Result<WorkflowDeployment, string>)
    ensures var v := DeployVerdict(op, plan, deploymentId, r);
      && (v.change.Stored? <==> r.Success? && r.value.status == Deployed)
      && (v.change.Stored? ==> v.diags == [] && v.change.value == plan.(id := deploymentId, deployed := true))
      && (!v.change.Stored? ==> v.change == Untouched && |v.diags| == 1 && HasError(v.diags))
      && (r.Success? && r.value.status != Deployed ==> Contains(v.diags[0].detail, r.value.status))
  {
    var v := DeployVerdict(op, plan, deploymentId, r);
    if !v.change.Stored? {
      assert v.diags[0].severity == Error;
    }
    if r.Success? && r.value.status != Deployed {
      ContainsInfix(DeployFailedDetail, r.value.status, "");
      assert DeployFailedDetail + r.value.status + "" == DeployFailedDetail + r.value.status;
    }
  }

  /** Update leaves the same state as Create on the same exchanges; only the error summaries differ. */
  lemma UpdateAgreesWithCreate(plan: DeploymentModel, deploymentId: string, r: Result<WorkflowDeployment, string>)
    ensures DeployVerdict(Updating, plan, deploymentId, r).change == DeployVerdict(Creating, plan, deploymentId, r).change
    ensures |DeployVerdict(Updating, plan, deploymentId, r).diags| == |DeployVerdict(Creating, plan, deploymentId, r).diags|
  {
  }

  /** Two polls still DEPLOYING and then a DEPLOYED one: the loop stops at the third read. */
  lemma DeployStopsAtThirdRead(a: WorkflowDeployment, b: WorkflowDeployment, c: WorkflowDeployment)
    requires a.status == Deploying && b.status == Deploying && c.status == Deployed
    ensures var polls := [Answered(200, Success(a), None), Answered(200, Success(b), None), Answered(200, Success(c), None)];
      DeployStop(polls) == 2
  {
    var polls: seq<Exchange<WorkflowDeployment>> := [Answered(200, Success(a), None), Answered(200, Success(b), None), Answered(200, Success(c), None)];
    assert polls[1..] == [Answered(200, Success(b), None), Answered(200, Success(c), None)];
    assert polls[1..][1..] == [Answered(200, Success(c), None)];
    assert StillDeploying(polls[0]) && StillDeploying(polls[1]) && !StillDeploying(polls[2]);
    assert DeployStop(polls[1..][1..]) == 0;
    assert DeployStop(polls[1..]) == 1;
  }

  /** Exchanges after the stopping poll are never consulted. */
  lemma {:induction false} DeployStopIgnoresLaterPolls(polls: seq<Exchange<WorkflowDeployment>>, more: seq<Exchange<WorkflowDeployment>>)
    requires DeployStop(polls) < |polls|
    ensures DeployStop(polls + more) == DeployStop(polls)
  {
    if StillDeploying(polls[0]) {
      assert (polls + more)[1..] == polls[1..] + more;
      DeployStopIgnoresLaterPolls(polls[1..], more);
    }
  }

  // ---------------------------------------------------------------------
  // The undeploy loop of Delete
  // ---------------------------------------------------------------------

  /** A poll that keeps the undeploy loop going: a readable deployment still UNDEPLOYING. */
  predicate StillUndeploying(ex: Exchange<WorkflowDeployment>)
  {
    var r := GetWorkflowDeployment(ex);
    r.Success? && r.value.status == Undeploying
  }

  /** The index of the poll at which the undeploy loop stops, or `|polls|` when none stops it. */
  function UndeployStop(polls: seq<Exchange<WorkflowDeployment>>): (k: nat)
    ensures k <= |polls|
    ensures forall j :: 0 <= j < k ==> StillUndeploying(polls[j])
    ensures k < |polls| ==> !StillUndeploying(polls[k])
  {
    if polls == [] then 0
    else if !StillUndeploying(polls[0]) then 0
    else 1 + UndeployStop(polls[1..])
  }

  /** The deployment is gone: the read failed with a not-found error, or found it UNDEPLOYED. */
  predicate IsGone(r: Result<WorkflowDeployment, string>)
  {
    match r
    case Failure(message) => Contains(message, NotFoundMarker)
    case Success(d) => d.status == Undeployed
  }

  /** What the poll that stops the undeploy loop makes of Delete. */
  function UndeployVerdict(r: Result<WorkflowDeployment, string>): Response<DeploymentModel>
  {
    if IsGone(r) then Response([], Untouched)
    else match r
      case Failure(message) => Fail(StatusReadSummary, StatusReadDetail + message)
      case Success(d) => Fail(DeleteSummary, UndeployFailedDetail + d.status)
  }

  /**
   * Delete after the state was read: ask for the undeployment, then read the
   * deployment until it is gone or leaves UNDEPLOYING.
   */
  method Delete(state: DeploymentModel, delete: Exchange<()>, polls: seq<Exchange<WorkflowDeployment>>)
    returns (run: Run, polled: nat)
    ensures var deleted := DeleteWorkflowDeployment(delete);
      deleted.Failure? ==> polled == 0 && run == Finished(Fail(DeleteSummary, DeleteDetail + deleted.error))
    ensures var deleted := DeleteWorkflowDeployment(delete);
      var k := UndeployStop(polls);
      deleted.Success? ==>
        && (k == |polls| ==> polled == |polls| && run == StillPolling)
        && (k < |polls| ==> polled == k + 1 && run == Finished(UndeployVerdict(GetWorkflowDeployment(polls[k]))))
  {
    var deleted := DeleteWorkflowDeployment(delete);
    if deleted.Failure? {
      return Finished(Fail(DeleteSummary, DeleteDetail + deleted.error)), 0;
    }
    polled := 0;
    while polled < |polls|
      invariant 0 <= polled <= |polls|
      invariant forall j :: 0 <= j < polled ==> StillUndeploying(polls[j])
    {
      var deployment := GetWorkflowDeployment(polls[polled]);
      polled := polled + 1;
      if deployment.Failure? {
        if Contains(deployment.error, NotFoundMarker) {
          return Finished(Response([], Untouched)), polled;
        }
        return Finished(Fail(StatusReadSummary, StatusReadDetail + deployment.error)), polled;
      }
      if deployment.value.status == Undeployed {
        return Finished(Response([], Untouched)), polled;
      } else if deployment.value.status != Undeploying {
        return Finished(Fail(DeleteSummary, UndeployFailedDetail + deployment.value.status)), polled;
      }
    }
    return StillPolling, polled;
  }

  /** The undeploy loop succeeds exactly when its stopping poll shows the deployment gone. */
  lemma UndeployVerdictOutcome(r: Result<WorkflowDeployment, string>)
    ensures var v := UndeployVerdict(r);
      && (!HasError(v.diags) <==> IsGone(r))
      && v.change == Untouched
      && (!IsGone(r) ==> |v.diags| == 1)
  {
    var v := UndeployVerdict(r);
    if !IsGone(r) {
      assert v.diags[0].severity == Error;
    }
  }

  /** A 404 while polling counts as the deployment being gone, and stops the loop. */
  lemma NotFoundEndsUndeploy(payload: Result<WorkflowDeployment, string>, envelope: Option<ErrorEnvelope>)
    ensures var ex := Answered(StatusNotFound, payload, envelope);
      !StillUndeploying(ex) && IsGone(GetWorkflowDeployment(ex))
  {
    GetNotFoundIsDetectable(payload, envelope);
  }

  // ---------------------------------------------------------------------
  // Read: the drift check
  // ---------------------------------------------------------------------

  /**
   * Read after the state was read, given what GetLatestWorkflowMigration
   * returned: report a failed lookup, drop a deployment that no longer
   * exists or whose activity differs from `deployed`, and otherwise keep the
   * state with the migration's deployment id.
   */
  function Read(state: DeploymentModel, lookup: Result<Option<WorkflowMigration>, string>): Response<DeploymentModel>
  {
    match lookup
    case Failure(message) => Fail(ReadSummary, ReadDetail + message)
    case Success(None) => Response([], Removed)
    case Success(Some(migration)) =>
      var next := state.(id := migration.deployment.id);
      if next.deployed != migration.deployment.isActive then
        Response([Diagnostic(Warning, DriftSummary, DriftDetail)], Removed)
      else Response([], Stored(next))
  }

  /**
   * Read keeps the state exactly when a migration was found and its activity
   * agrees with `deployed`; only the id changes. Drift warns without an error.
   */
  lemma ReadOutcome(state: DeploymentModel, lookup: Result<Option<WorkflowMigration>, string>)
    ensures var v := Read(state, lookup);
      && (v.change.Stored? <==> lookup.Success? && lookup.value.Some? && state.deployed == lookup.value.value.deployment.isActive)
      && (v.change.Stored? ==> v.diags == [] && v.change.value == state.(id := lookup.value.value.deployment.id))
      && (HasError(v.diags) <==> lookup.Failure?)
      && (lookup.Failure? ==> v.change == Untouched)
      && (lookup.Success? && !v.change.Stored? ==> v.change == Removed)
      && (lookup.Success? && lookup.value.Some? && state.deployed != lookup.value.value.deployment.isActive ==>
            v.diags == [Diagnostic(Warning, DriftSummary, DriftDetail)])
      && (lookup == Success(None) ==> v.diags == [])
  {
    var v := Read(state, lookup);
    if lookup.Failure? {
      assert v.diags[0].severity == Error;
    }
  }

  /** Reading again what Read stored, with the same lookup, stores the same state. */
  lemma ReadIdempotent(state: DeploymentModel, lookup: Result<Option<WorkflowMigration>, string>)
    requires Read(state, lookup).change.Stored?
    ensures Read(Read(state, lookup).change.value, lookup) == Read(state, lookup)
  {
  }

  /** After a successful deploy, a Read that finds the deployment active keeps what the deploy stored. */
  lemma ReadAfterDeploy(op: Operation, plan: DeploymentModel, deploymentId: string, r: Result<WorkflowDeployment, string>,
                        migration: WorkflowMigration)
    requires DeployVerdict(op, plan, deploymentId, r).change.Stored?
    requires migration.deployment.isActive && migration.deployment.id == deploymentId
    ensures var stored := DeployVerdict(op, plan, deploymentId, r).change.value;
      Read(stored, Success(Some(migration))) == Response([], Stored(stored))
  {
  }
}
