/** The argument vector api_run_ari hands to the process launcher:
    pwsh -File <script> [-TenantID <tenant>] [-SubscriptionIDs <a,b,...>]. */
module LaunchCommands {
  import opened Wrappers
  import opened Text
  import opened Subscriptions

  const Shell := "pwsh"
  const FileFlag := "-File"
  const TenantFlag := "-TenantID"
  const SubscriptionsFlag := "-SubscriptionIDs"

  /** The named script parameters a launch carries, in order: the tenant when
      it is non-empty, then the comma-joined subscriptions when there are any. */
  function ScriptParameters(tenantId: string, subscriptionIds: seq<string>): (r: seq<(string, string)>)
    ensures |r| <= 2
  {
    (if tenantId != "" then [(TenantFlag, tenantId)] else [])
    + (if subscriptionIds != [] then [(SubscriptionsFlag, Join(subscriptionIds, ','))] else [])
  }

  /** Name/value pairs written out as consecutive arguments. */
  function Flatten(params: seq<(string, string)>): (r: seq<string>)
    ensures |r| == 2 * |params|
  {
    if params == [] then [] else [params[0].0, params[0].1] + Flatten(params[1..])
  }

  /** How a script reads `-Name value` arguments: two at a time. */
  function Pairs(args: seq<string>): seq<(string, string)>
    decreases |args|
  {
    if |args| < 2 then [] else [(args[0], args[1])] + Pairs(args[2..])
  }

  /** Reading the arguments two at a time undoes Flatten. */
  lemma {:induction false} PairsFlatten(params: seq<(string, string)>)
    ensures Pairs(Flatten(params)) == params
  {
    if params != [] {
      var f := Flatten(params);
      assert f[2..] == Flatten(params[1..]);
      PairsFlatten(params[1..]);
    }
  }

  /** The value bound to the first parameter called `name`. */
  function Lookup(params: seq<(string, string)>, name: string): Option<string> {
    if params == [] then None
    else if params[0].0 == name then Some(params[0].1)
    else Lookup(params[1..], name)
  }

  /** The script sees its tenant exactly when one was given, and the joined
      subscriptions exactly when there were any. */
  lemma ScriptParametersLookup(tenantId: string, subscriptionIds: seq<string>)
    ensures Lookup(ScriptParameters(tenantId, subscriptionIds), TenantFlag)
      == if tenantId != "" then Some(tenantId) else None
    ensures Lookup(ScriptParameters(tenantId, subscriptionIds), SubscriptionsFlag)
      == if subscriptionIds != [] then Some(Join(subscriptionIds, ',')) else None
  {
    var ps := ScriptParameters(tenantId, subscriptionIds);
    if tenantId != "" && subscriptionIds != [] {
      assert ps[1..] == [(SubscriptionsFlag, Join(subscriptionIds, ','))];
    }
  }

  /** Lines 296-307: the command list is started with the shell, its -File
      switch and the script path, then extended with each optional pair. */
  method BuildCommand(scriptPath: string, tenantId: string, subscriptionIds: seq<string>)
    returns (command: seq<string>)
    ensures command == [Shell, FileFlag, scriptPath] + Flatten(ScriptParameters(tenantId, subscriptionIds))
    ensures |command| == 3 + (if tenantId != "" then 2 else 0) + (if subscriptionIds != [] then 2 else 0)
    ensures command[..3] == [Shell, FileFlag, scriptPath]
    ensures Pairs(command[3..]) == ScriptParameters(tenantId, subscriptionIds)
    ensures Lookup(Pairs(command[3..]), TenantFlag) == if tenantId != "" then Some(tenantId) else None
    ensures Lookup(Pairs(command[3..]), SubscriptionsFlag)
      == if subscriptionIds != [] then Some(Join(subscriptionIds, ',')) else None
    ensures tenantId != "" && subscriptionIds != [] ==> command[3] == TenantFlag && command[5] == SubscriptionsFlag
  {
    command := [Shell, FileFlag, scriptPath];
    if tenantId != "" {
      command := command + [TenantFlag, tenantId];
    }
    if subscriptionIds != [] {
      var joined := Join(subscriptionIds, ',');
      command := command + [SubscriptionsFlag, joined];
    }
    var params := ScriptParameters(tenantId, subscriptionIds);
    assert command[3..] == Flatten(params) by {
      if tenantId != "" && subscriptionIds != [] {
        assert params[1..] == [(SubscriptionsFlag, Join(subscriptionIds, ','))];
      }
    }
    PairsFlatten(params);
    ScriptParametersLookup(tenantId, subscriptionIds);
  }

  /** ' '.join(command): the command line recorded with the execution. It
      starts with the program name. */
  function CommandLine(command: seq<string>): (line: string)
    ensures command != [] ==> command[0] <= line
  {
    Join(command, ' ')
  }

  /** When no argument holds a blank, splitting the command line on blanks
      gives the arguments back. */
  lemma CommandLineSplit(command: seq<string>)
    ensures command != [] && NoneContains(command, ' ') ==> Split(CommandLine(command), ' ') == command
  {
    if command != [] && NoneContains(command, ' ') {
      SplitJoin(command, ' ');
    }
  }

  /** A list of well-formed entries, such as the form parser yields, would reach
      the script as one comma-joined argument that the same parser reads back as
      the list. The JSON handler passes its list on without stripping or
      splitting it, so ["a,b", " c"] becomes "a,b, c", which reads back as
      three entries. */
  lemma SubscriptionsSurviveLaunch(tenantId: string, subscriptionIds: seq<string>)
    requires AllSubscriptionIds(subscriptionIds) && subscriptionIds != []
    ensures Lookup(ScriptParameters(tenantId, subscriptionIds), SubscriptionsFlag) == Some(Join(subscriptionIds, ','))
    ensures ParseSubscriptionField(Join(subscriptionIds, ',')) == subscriptionIds
  {
    ScriptParametersLookup(tenantId, subscriptionIds);
    ParseSubscriptionFieldJoin(subscriptionIds);
  }
}
