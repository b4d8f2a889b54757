/** app/api/timesheetsApi.ts: requests for the weekly timesheets of an organisation. */
module TimesheetsApi {
  import opened Wrappers
  import opened Strings
  import opened Http

  datatype ListParams = ListParams(weekStartDate: Option<string>)

  datatype CreateTimesheetRequest = CreateTimesheetRequest(weekStartDate: string)

  /** `/v1/organizations/{organizationId}/timesheets`. */
  function TimesheetsPath(organizationId: string): string
  {
    Path(["v1", "organizations", organizationId, "timesheets"])
  }

  lemma TimesheetsPathText(organizationId: string)
    ensures TimesheetsPath(organizationId) == "/v1/organizations/" + organizationId + "/timesheets"
  {
    OrganizationPath(organizationId);
    assert ["v1", "organizations", organizationId] + ["timesheets"] == ["v1", "organizations", organizationId, "timesheets"];
    PathSnoc(["v1", "organizations", organizationId], "timesheets");
  }

  /** The pairs `list` puts in its query: the week start, only when it is non-empty. */
  function ListQuery(params: Option<ListParams>): (pairs: seq<(string, string)>)
    ensures pairs != [] <==> params.Some? && params.value.weekStartDate.Some? && params.value.weekStartDate.value != ""
    ensures pairs != [] ==> pairs == [("weekStartDate", params.value.weekStartDate.value)]
  {
    if params.Some? && params.value.weekStartDate.Some? && params.value.weekStartDate.value != ""
    then [("weekStartDate", params.value.weekStartDate.value)]
    else []
  }

  /** The request `list` makes. */
  function ListRequest(organizationId: string, params: Option<ListParams>): (r: Request<CreateTimesheetRequest>)
    ensures r.verb == Get && r.body.None?
    ensures ListQuery(params) == [] ==> r.url == "/v1/organizations/" + organizationId + "/timesheets"
    ensures ListQuery(params) != [] ==>
      r.url == "/v1/organizations/" + organizationId + "/timesheets?" + QueryString(ListQuery(params))
  {
    TimesheetsPathText(organizationId);
    Request(Get, WithQuery(TimesheetsPath(organizationId), QueryString(ListQuery(params))), None)
  }

  /** `timesheetsApi.list(organizationId, params)`, building its query step by step. */
  method List(organizationId: string, params: Option<ListParams>) returns (req: Request<CreateTimesheetRequest>)
    ensures req == ListRequest(organizationId, params)
  {
    var search := new SearchParams();
    if params.Some? && params.value.weekStartDate.Some? && params.value.weekStartDate.value != "" {
      search.Set("weekStartDate", params.value.weekStartDate.value);
    }
    var query := search.ToString();
    req := Request(Get, WithQuery(TimesheetsPath(organizationId), query), None);
  }

  /** `timesheetsApi.create(organizationId, payload)`. */
  function Create(organizationId: string, payload: CreateTimesheetRequest): (r: Request<CreateTimesheetRequest>)
    ensures r.verb == Post && r.body == Some(payload)
    ensures r.url == "/v1/organizations/" + organizationId + "/timesheets"
  {
    TimesheetsPathText(organizationId);
    Request(Post, TimesheetsPath(organizationId), Some(payload))
  }

  /** Listing GETs without a body on the organisation's timesheets path; the URL has a
    * `?` exactly when a week start is sent, and is the bare path otherwise. */
  lemma ListShape(organizationId: string, params: Option<ListParams>)
    requires '/' !in organizationId && '?' !in organizationId
    ensures ListRequest(organizationId, params).verb == Get && ListRequest(organizationId, params).body.None?
    ensures '?' in ListRequest(organizationId, params).url <==> ListQuery(params) != []
    ensures ListQuery(params) == [] ==> ListRequest(organizationId, params).url == TimesheetsPath(organizationId)
  {
    assert ListRequest(organizationId, params).url == WithQuery(TimesheetsPath(organizationId), QueryString(ListQuery(params)));
    PathAvoids(["v1", "organizations", organizationId, "timesheets"], '?');
    QueryMark(TimesheetsPath(organizationId), QueryString(ListQuery(params)));
  }

  /** Creating POSTs the payload to the organisation's timesheets path, which names the
    * organisation as a whole segment. */
  lemma CreateShape(organizationId: string, payload: CreateTimesheetRequest)
    requires '/' !in organizationId
    ensures Create(organizationId, payload).verb == Post && Create(organizationId, payload).body == Some(payload)
    ensures Create(organizationId, payload).url == TimesheetsPath(organizationId)
    ensures Split(Create(organizationId, payload).url, '/') == ["", "v1", "organizations", organizationId, "timesheets"]
  {
    assert Create(organizationId, payload).url == TimesheetsPath(organizationId);
    PathSegments(["v1", "organizations", organizationId, "timesheets"]);
  }
}
