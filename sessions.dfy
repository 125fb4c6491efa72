/** The web session the two job-launch handlers read and update: the signed-in
    user, the token cache, and the list of executions started from it. */
module Sessions {
  import opened Wrappers
  import opened Text
  import opened Subscriptions
  import opened ExecutionIds
  import opened LaunchCommands
  import opened Requests

  /** session['user']: id, name, email and tenant_id, each possibly None. */
  type UserInfo = map<string, Option<string>>

  /** session['token_cache']: the token response of the identity provider. */
  type TokenCache = map<string, string>

  /** execution_params of the form handler (lines 196-203). */
  datatype ExecutionParameters = ExecutionParameters(
    tenantId: string,
    subscriptionIds: seq<string>,
    includeCosts: bool,
    generatePowerbi: bool,
    requestedBy: Option<string>,
    requestTime: string)

  /** One entry of session['executions']. */
  datatype Execution =
    | FormExecution(                   // `result`, lines 207-212
        status: string,
        message: string,
        executionId: string,
        parameters: ExecutionParameters)
    | ApiExecution(                    // `execution_info`, lines 322-332
        executionId: string,
        status: string,
        startTime: string,
        requestedBy: Option<string>,
        command: string,
        tenantId: string,
        subscriptionIds: seq<string>,
        includeCosts: bool,
        includeTags: bool)

  /** The JSON body of a handler's answer. */
  datatype Body =
    | Error(error: string)
    | Started(result: Execution)
    | Launched(status: string, message: string, executionId: string, details: Execution)

  datatype Response = Response(status: int, body: Body)

  const StartedMessage := "ARI execution started successfully"

  /** get_user_info().get('email'): None when there is no user or no email. */
  function RequestedBy(user: Option<UserInfo>): (e: Option<string>)
    ensures user.None? ==> e.None?
    ensures e.Some? ==> user.Some? && "email" in user.value && user.value["email"] == e
    ensures user.Some? && "email" in user.value ==> e == user.value["email"]
    ensures user.Some? && "email" !in user.value ==> e.None?
  {
    if user.Some? && "email" in user.value then user.value["email"] else None
  }

  /** The record the form handler stores and answers with. */
  function FormRecord(p: FormParameters, requestedBy: Option<string>, executionId: string, requestTime: string): (r: Execution)
    ensures r.FormExecution? && r.status == "success" && r.message == StartedMessage && r.executionId == executionId
    ensures r.parameters.tenantId == p.tenantId && r.parameters.subscriptionIds == p.subscriptionIds
    ensures r.parameters.includeCosts == p.includeCosts && r.parameters.generatePowerbi == p.generatePowerbi
    ensures r.parameters.requestedBy == requestedBy && r.parameters.requestTime == requestTime
  {
    FormExecution("success", StartedMessage, executionId,
      ExecutionParameters(p.tenantId, p.subscriptionIds, p.includeCosts, p.generatePowerbi, requestedBy, requestTime))
  }

  /** The record the JSON handler stores and answers with. */
  function ApiRecord(p: ApiParameters, requestedBy: Option<string>, executionId: string, startTime: string, command: seq<string>): (r: Execution)
    ensures r.ApiExecution? && r.status == "running" && r.executionId == executionId && r.startTime == startTime
    ensures r.requestedBy == requestedBy && r.tenantId == p.tenantId && r.subscriptionIds == p.subscriptionIds
    ensures r.includeCosts == p.includeCosts && r.includeTags == p.includeTags
    ensures r.command == CommandLine(command)
    ensures command != [] && NoneContains(command, ' ') ==> Split(r.command, ' ') == command
  {
    CommandLineSplit(command);
    ApiExecution(executionId, "running", startTime, requestedBy, CommandLine(command),
      p.tenantId, p.subscriptionIds, p.includeCosts, p.includeTags)
  }

  class Session {
    var user: Option<UserInfo>
    var tokenCache: Option<TokenCache>
    var executions: Option<seq<Execution>>

    /** The session as a request finds it. */
    constructor (user: Option<UserInfo>, tokenCache: Option<TokenCache>, executions: Option<seq<Execution>>)
      ensures this.user == user && this.tokenCache == tokenCache && this.executions == executions
    {
      this.user := user;
      this.tokenCache := tokenCache;
      this.executions := executions;
    }

    /** is_authenticated() (lines 73-75): a user entry and a token cache that
        is truthy, i.e. present and non-empty. */
    predicate IsAuthenticated()
      reads this
      ensures IsAuthenticated() ==> user.Some? && tokenCache.Some?
    {
      user.Some? && tokenCache.Some? && |tokenCache.value| > 0
    }

    /** session.get('executions', []): the history the executions page lists. */
    function History(): (h: seq<Execution>)
      reads this
      ensures executions.None? ==> h == []
      ensures executions.Some? ==> h == executions.value
    {
      executions.GetOr([])
    }

    /** Lines 215-217 and 335-337: create the list when absent, then append. */
    method RecordExecution(e: Execution)
      modifies this
      ensures executions == Some(old(History()) + [e])
      ensures |History()| == |old(History())| + 1 && History()[|History()| - 1] == e
      ensures History()[..|old(History())|] == old(History())
      ensures user == old(user) && tokenCache == old(tokenCache)
    {
      if executions.None? {
        executions := Some([]);
      }
      executions := Some(executions.value + [e]);
    }

    /** execute_ari (lines 170-219), with the clock readings taken as
        parameters: `idTime` for the execution id, `requestTime` for the
        isoformat text of request_time. */
    method ExecuteAri(form: Form, idTime: UtcTime, requestTime: string) returns (response: Response)
      requires Valid(idTime)
      modifies this
      ensures user == old(user) && tokenCache == old(tokenCache)
      ensures !old(IsAuthenticated()) ==>
        response == Response(401, Error("Not authenticated")) && executions == old(executions)
      ensures old(IsAuthenticated()) && AllWhitespace(FormGet(form, "tenant_id", "")) ==>
        response == Response(400, Error("Tenant ID is required")) && executions == old(executions)
      ensures match ValidateForm(old(IsAuthenticated()), form)
        case Failure(rejection) =>
          response == Response(rejection.status, Error(rejection.message)) && executions == old(executions)
        case Success(p) =>
          var record := FormRecord(p, RequestedBy(old(user)), FormatExecutionId(idTime), requestTime);
          response == Response(200, Started(record)) && executions == Some(old(History()) + [record])
    {
      var validated := ValidateForm(IsAuthenticated(), form);
      match validated
      case Failure(rejection) =>
        response := Response(rejection.status, Error(rejection.message));
      case Success(p) =>
        var executionId := FormatExecutionId(idTime);
        var record := FormRecord(p, RequestedBy(user), executionId, requestTime);
        RecordExecution(record);
        response := Response(200, Started(record));
    }

    /** api_run_ari (lines 272-344), with the clock readings taken as
        parameters and the process start reduced to its outcome:
        `launchError` is Some(message) when starting the process raised. */
    method ApiRunAri(data: JsonRequest, scriptPath: string, idTime: UtcTime, startTime: string, launchError: Option<string>)
      returns (response: Response)
      requires Valid(idTime)
      modifies this
      ensures user == old(user) && tokenCache == old(tokenCache)
      ensures !old(IsAuthenticated()) ==>
        response == Response(401, Error("Not authenticated")) && executions == old(executions)
      ensures old(IsAuthenticated()) && launchError.Some? ==>
        response == Response(500, Error("Execution failed: " + launchError.value)) && executions == old(executions)
      ensures old(IsAuthenticated()) && launchError.None? ==>
        var p := ReadApiRequest(data);
        var params := ScriptParameters(p.tenantId, p.subscriptionIds);
        var command := [Shell, FileFlag, scriptPath] + Flatten(params);
        var executionId := FormatExecutionId(idTime);
        var record := ApiRecord(p, RequestedBy(old(user)), executionId, startTime, command);
        && response == Response(200, Launched("success", StartedMessage, executionId, record))
        && executions == Some(old(History()) + [record])
        && record.status == "running"
        && record.requestedBy == RequestedBy(old(user))
    {
      if !IsAuthenticated() {
        response := Response(401, Error("Not authenticated"));
        return;
      }
      var p := ReadApiRequest(data);
      var executionId := FormatExecutionId(idTime);
      var command := BuildCommand(scriptPath, p.tenantId, p.subscriptionIds);
      if launchError.Some? {
        response := Response(500, Error("Execution failed: " + launchError.value));
        return;
      }
      var record := ApiRecord(p, RequestedBy(user), executionId, startTime, command);
      RecordExecution(record);
      response := Response(200, Launched("success", StartedMessage, executionId, record));
    }
  }
}
