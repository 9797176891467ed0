/**
 * internal/client/workflow_deployment.go: which status code each deployment
 * call accepts, the error texts it builds otherwise, and the first-match scan
 * over the latest migrations. The HTTP exchange itself is an input: either the
 * request could not be built or sent, or a status code came back together
 * with what decoding its body produced.
 */
module DeploymentClient {
  import opened Wrappers
  import opened Strings
  import opened Strconv
  import opened Tools

  datatype WorkflowDeployment = WorkflowDeployment(id: string, status: string, isActive: bool)

  datatype WorkflowMigration = WorkflowMigration(id: string, workflowId: string, deployment: WorkflowDeployment)

  /** The body of a successful create: the new deployment's id and status. */
  datatype CreatedDeployment = CreatedDeployment(id: string, status: string)

  /**
   * One HTTP exchange. `payload` is the body decoded as the call's success
   * type (or the decoder's error text), `envelope` the same body decoded as an
   * error envelope (None when it cannot be read or decoded as one).
   */
  datatype Exchange<T> =
    | TransportFailure(message: string)
    | Answered(statusCode: int, payload: Result<T, string>, envelope: Option<ErrorEnvelope>)

  const StatusCreated: int := 201
  const StatusOK: int := 200
  const StatusNotFound: int := 404

  const StatusCodeSuffix: string := ", status code: "
  const GetFailurePrefix: string := "failed to get workflow deployment with status code: "
  const DeleteFailurePrefix: string := "failed to delete workflow deployment with status code: "
  const MigrationsFailurePrefix: string := "failed to get latest workflow migrations with status code: "

  /** The text an HTTP 404 leaves in an error, which the undeploy loop looks for. */
  const NotFoundMarker: string := "status code: 404"

  /** CreateWorkflowDeployment: only a 201 with a decodable body yields the new deployment's id. */
  function CreateWorkflowDeployment(ex: Exchange<CreatedDeployment>): (r: Result<string, string>)
    ensures r.Success? <==> ex.Answered? && ex.statusCode == StatusCreated && ex.payload.Success?
    ensures r.Success? ==> r.value == ex.payload.value.id
    ensures ex.TransportFailure? ==> r == Failure(ex.message)
    ensures ex.Answered? && ex.statusCode == StatusCreated && ex.payload.Failure? ==> r == Failure(ex.payload.error)
    ensures ex.Answered? && ex.statusCode != StatusCreated ==>
      r == Failure(ErrorMessage(ex.statusCode, ex.envelope) + StatusCodeSuffix + FormatInt(ex.statusCode))
  {
    match ex
    case TransportFailure(message) => Failure(message)
    case Answered(code, payload, envelope) =>
      if code != StatusCreated then
        Failure(ErrorMessage(code, envelope) + StatusCodeSuffix + FormatInt(code))
      else
        match payload
        case Failure(message) => Failure(message)
        case Success(created) => Success(created.id)
  }

  /** GetWorkflowDeployment: only a 200 with a decodable body yields the deployment. */
  function GetWorkflowDeployment(ex: Exchange<WorkflowDeployment>): (r: Result<WorkflowDeployment, string>)
    ensures r.Success? <==> ex.Answered? && ex.statusCode == StatusOK && ex.payload.Success?
    ensures r.Success? ==> r.value == ex.payload.value
    ensures ex.TransportFailure? ==> r == Failure(ex.message)
    ensures ex.Answered? && ex.statusCode == StatusOK && ex.payload.Failure? ==> r == Failure(ex.payload.error)
    ensures ex.Answered? && ex.statusCode != StatusOK ==>
      r == Failure(GetFailurePrefix + FormatInt(ex.statusCode))
  {
    match ex
    case TransportFailure(message) => Failure(message)
    case Answered(code, payload, _) =>
      if code != StatusOK then Failure(GetFailurePrefix + FormatInt(code))
      else payload
  }

  /** DeleteWorkflowDeployment: 404 and 200 both count as success; the body is not read. */
  function DeleteWorkflowDeployment(ex: Exchange<()>): (r: Result<(), string>)
    ensures r.Success? <==> ex.Answered? && (ex.statusCode == StatusNotFound || ex.statusCode == StatusOK)
    ensures ex.Answered? && r.Failure? ==> r.error == DeleteFailurePrefix + FormatInt(ex.statusCode)
    ensures ex.TransportFailure? ==> r == Failure(ex.message)
  {
    match ex
    case TransportFailure(message) => Failure(message)
    case Answered(code, _, _) =>
      if code == StatusNotFound then Success(())
      else if code != StatusOK then Failure(DeleteFailurePrefix + FormatInt(code))
      else Success(())
  }

  /** `i` is the position of the first migration of `workflowId`. */
  predicate FirstOfWorkflow(migrations: seq<WorkflowMigration>, workflowId: string, i: int)
  {
    && 0 <= i < |migrations| && migrations[i].workflowId == workflowId
    && forall j :: 0 <= j < i ==> migrations[j].workflowId != workflowId
  }

  /**
   * GetLatestWorkflowMigration: a non-200 answer fails before any scan;
   * otherwise the first migration, in list order, of the workflow, or None
   * (and no error) when the list holds none.
   */
  method GetLatestWorkflowMigration(ex: Exchange<seq<WorkflowMigration>>, workflowId: string)
    returns (r: Result<Option<WorkflowMigration>, string>)
    ensures ex.TransportFailure? ==> r == Failure(ex.message)
    ensures ex.Answered? && ex.statusCode != StatusOK ==> r == Failure(MigrationsFailurePrefix + FormatInt(ex.statusCode))
    ensures ex.Answered? && ex.statusCode == StatusOK && ex.payload.Failure? ==> r == Failure(ex.payload.error)
    ensures ex.Answered? && ex.statusCode == StatusOK && ex.payload.Success? ==>
      var migrations := ex.payload.value;
      && r.Success?
      && (r.value.None? <==> forall i :: 0 <= i < |migrations| ==> migrations[i].workflowId != workflowId)
      && (r.value.Some? ==> exists i :: FirstOfWorkflow(migrations, workflowId, i) && migrations[i] == r.value.value)
  {
    if ex.TransportFailure? {
      return Failure(ex.message);
    }
    if ex.statusCode != StatusOK {
      return Failure(MigrationsFailurePrefix + FormatInt(ex.statusCode));
    }
    if ex.payload.Failure? {
      return Failure(ex.payload.error);
    }
    var migrations := ex.payload.value;
    var i := 0;
    while i < |migrations|
      invariant 0 <= i <= |migrations|
      invariant forall j :: 0 <= j < i ==> migrations[j].workflowId != workflowId
    {
      if migrations[i].workflowId == workflowId {
        assert FirstOfWorkflow(migrations, workflowId, i);
        return Success(Some(migrations[i]));
      }
      i := i + 1;
    }
    return Success(None);
  }

  // ---------------------------------------------------------------------
  // The error texts the undeploy loop depends on
  // ---------------------------------------------------------------------

  lemma FormatNotFound()
    ensures FormatInt(StatusNotFound) == "404"
  {
    assert NatToDecimal(4) == "4";
    assert NatToDecimal(40) == "4" + "0";
    assert NatToDecimal(404) == "40" + "4";
  }

  /** A 404 from GetWorkflowDeployment leaves the not-found marker in the error text. */
  lemma GetNotFoundIsDetectable(payload: Result<WorkflowDeployment, string>, envelope: Option<ErrorEnvelope>)
    ensures var r := GetWorkflowDeployment(Answered(StatusNotFound, payload, envelope));
      r.Failure? && Contains(r.error, NotFoundMarker)
  {
    FormatNotFound();
    var p := "failed to get workflow deployment with ";
    assert GetFailurePrefix + "404" == p + NotFoundMarker + "";
    ContainsInfix(p, NotFoundMarker, "");
  }

  /** A failed create starts with the API's error message and ends with its own status code. */
  lemma CreateFailureNamesStatus(code: int, payload: Result<CreatedDeployment, string>, envelope: Option<ErrorEnvelope>)
    requires code != StatusCreated
    ensures var r := CreateWorkflowDeployment(Answered(code, payload, envelope));
      && r.Failure?
      && HasSuffix(r.error, StatusCodeSuffix + FormatInt(code))
      && var headline := ErrorMessage(code, envelope);
         |headline| <= |r.error| && r.error[..|headline|] == headline
  {
    var r := CreateWorkflowDeployment(Answered(code, payload, envelope));
    var headline := ErrorMessage(code, envelope);
    assert r.error == headline + (StatusCodeSuffix + FormatInt(code));
  }

  /** Any other status code is reported with its own number after the same marker text. */
  lemma GetFailureNamesStatus(code: int, payload: Result<WorkflowDeployment, string>, envelope: Option<ErrorEnvelope>)
    requires code != StatusOK
    ensures var r := GetWorkflowDeployment(Answered(code, payload, envelope));
      r.Failure? && Contains(r.error, "status code: " + FormatInt(code))
      && HasSuffix(r.error, FormatInt(code))
  {
    var p := "failed to get workflow deployment with ";
    var f := FormatInt(code);
    var sub := "status code: " + f;
    assert GetFailurePrefix == p + "status code: ";
    var e := GetFailurePrefix + f;
    assert e == p + sub + "";
    ContainsInfix(p, sub, "");
    assert e[|e| - |f|..] == f;
  }
}
