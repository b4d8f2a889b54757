/** app/middleware/require-organization.ts: the route guard that sends users without an
  * organisation to the onboarding page. */
module RequireOrganization {
  import opened Wrappers
  import opened Entities

  const CreateOrganizationPath := "/onboarding/create-organization"

  /** What `organizationsApi.getMine()` settles to: a list (or null), or a rejection. */
  datatype OrgLookup = Found(orgs: Option<seq<Organization>>) | Failed

  /** The guard's decision, and whether it asked the backend for the user's organisations. */
  datatype GuardOutcome = GuardOutcome(redirect: Option<string>, lookedUp: bool)

  /** The guard: the onboarding page itself and server-side rendering are let through
    * without a lookup; otherwise a failed lookup or an empty or null list redirects to
    * onboarding (fail closed) and a non-empty list is let through. */
  function Decide(path: string, isServer: bool, lookup: OrgLookup): (r: GuardOutcome)
    ensures path == CreateOrganizationPath || isServer ==> r == GuardOutcome(None, false)
    ensures path != CreateOrganizationPath && !isServer ==> r.lookedUp
    ensures r.redirect.Some? ==> r.redirect.value == CreateOrganizationPath
    ensures r.redirect.Some? <==>
      && path != CreateOrganizationPath && !isServer
      && (lookup.Failed? || lookup.orgs.None? || |lookup.orgs.value| == 0)
  {
    if path == CreateOrganizationPath then GuardOutcome(None, false)
    else if isServer then GuardOutcome(None, false)
    else
      match lookup
      case Failed => GuardOutcome(Some(CreateOrganizationPath), true)
      case Found(orgs) =>
        if orgs.None? || |orgs.value| == 0 then GuardOutcome(Some(CreateOrganizationPath), true)
        else GuardOutcome(None, true)
  }

  /** Following the guard's redirect can never be redirected again by this guard. */
  lemma NoRedirectLoop(path: string, isServer: bool, lookup: OrgLookup, isServer': bool, lookup': OrgLookup)
    requires Decide(path, isServer, lookup).redirect.Some?
    ensures Decide(Decide(path, isServer, lookup).redirect.value, isServer', lookup') == GuardOutcome(None, false)
  {
  }
}
