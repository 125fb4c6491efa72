/** What the two job-launch handlers read from a request, once Flask's
    request object is replaced by plain values. */
module Requests {
  import opened Wrappers
  import opened Text
  import opened Subscriptions

  /** The posted form fields (request.form). */
  type Form = map<string, string>

  /** request.form.get(key, default). */
  function FormGet(form: Form, key: string, default: string): (v: string)
    ensures key in form ==> v == form[key]
    ensures key !in form ==> v == default
  {
    if key in form then form[key] else default
  }

  /** request.form.get(key) == 'on': a checkbox the browser did not send is off. */
  function Checked(form: Form, key: string): (b: bool)
    ensures b <==> key in form && form[key] == "on"
  {
    FormGet(form, key, "") == "on"
  }

  /** The validated parameters of the form handler. */
  datatype FormParameters = FormParameters(
    tenantId: string,
    subscriptionIds: seq<string>,
    includeCosts: bool,
    generatePowerbi: bool)

  /** An early answer: the HTTP status and the 'error' text of the JSON body. */
  datatype Rejection = Rejection(status: int, message: string)

  const NotAuthenticated := Rejection(401, "Not authenticated")
  const TenantRequired := Rejection(400, "Tenant ID is required")

  /** Lines 172-189: the authentication gate, then the tenant check, then
      the checkboxes and the subscription list. */
  function ValidateForm(authenticated: bool, form: Form): (r: Result<FormParameters, Rejection>)
    ensures !authenticated ==> r == Failure(NotAuthenticated)
    ensures authenticated && AllWhitespace(FormGet(form, "tenant_id", "")) ==> r == Failure(TenantRequired)
    ensures r.Success? <==> authenticated && !AllWhitespace(FormGet(form, "tenant_id", ""))
    ensures r.Success? ==>
      && r.value.tenantId != []
      && r.value.tenantId == Strip(FormGet(form, "tenant_id", ""))
      && (r.value.includeCosts <==> "include_costs" in form && form["include_costs"] == "on")
      && (r.value.generatePowerbi <==> "generate_powerbi" in form && form["generate_powerbi"] == "on")
      && r.value.subscriptionIds == ParseSubscriptionField(FormGet(form, "subscription_ids", ""))
      && AllSubscriptionIds(r.value.subscriptionIds)
  {
    if !authenticated then
      Failure(NotAuthenticated)
    else
      var tenantId := Strip(FormGet(form, "tenant_id", ""));
      var subscriptionText := Strip(FormGet(form, "subscription_ids", ""));
      var includeCosts := Checked(form, "include_costs");
      var generatePowerbi := Checked(form, "generate_powerbi");
      StripEmpty(FormGet(form, "tenant_id", ""));
      if tenantId == [] then
        Failure(TenantRequired)
      else
        var subscriptionList := if subscriptionText != [] then Parse(subscriptionText) else [];
        Success(FormParameters(tenantId, subscriptionList, includeCosts, generatePowerbi))
  }

  /** The JSON body of api_run_ari, as far as it is read: None stands for a
      key that is absent (an empty object or `null` has every key absent; other bodies are
      not modelled). */
  datatype JsonRequest = JsonRequest(
    tenantId: Option<string>,
    subscriptionIds: Option<seq<string>>,
    includeCosts: Option<bool>,
    includeTags: Option<bool>)

  datatype ApiParameters = ApiParameters(
    tenantId: string,
    subscriptionIds: seq<string>,
    includeCosts: bool,
    includeTags: bool)

  /** Lines 279-283: data.get(key, default) for the four keys; nothing is
      stripped or checked, and both flags default to true. */
  function ReadApiRequest(data: JsonRequest): (p: ApiParameters)
    ensures p.tenantId == (if data.tenantId.Some? then data.tenantId.value else "")
    ensures p.subscriptionIds == (if data.subscriptionIds.Some? then data.subscriptionIds.value else [])
    ensures p.includeCosts <==> data.includeCosts != Some(false)
    ensures p.includeTags <==> data.includeTags != Some(false)
  {
    ApiParameters(
      data.tenantId.GetOr(""),
      data.subscriptionIds.GetOr([]),
      data.includeCosts.GetOr(true),
      data.includeTags.GetOr(true))
  }
}
