/** app/api/projectsApi.ts: requests for the projects of an organisation. */
module ProjectsApi {
  import opened Wrappers
  import opened Strings
  import opened Http

  datatype ListParams = ListParams(isActive: Option<bool>, clientId: Option<string>)

  datatype CreateProjectRequest = CreateProjectRequest(name: string, clientId: Option<string>, isActive: Option<bool>)

  datatype UpdateProjectRequest = UpdateProjectRequest(name: Option<string>, clientId: Option<string>, isActive: Option<bool>)

  datatype Payload = CreateBody(create: CreateProjectRequest) | UpdateBody(update: UpdateProjectRequest)

  /** `/v1/organizations/{organizationId}/projects`. */
  function ProjectsPath(organizationId: string): string
  {
    Path(["v1", "organizations", organizationId, "projects"])
  }

  /** `/v1/organizations/{organizationId}/projects/{projectId}`. */
  function ProjectPath(organizationId: string, projectId: string): string
  {
    Path(["v1", "organizations", organizationId, "projects", projectId])
  }

  lemma ProjectsPathText(organizationId: string, projectId: string)
    ensures ProjectsPath(organizationId) == "/v1/organizations/" + organizationId + "/projects"
    ensures ProjectPath(organizationId, projectId) == "/v1/organizations/" + organizationId + "/projects/" + projectId
  {
    OrganizationPath(organizationId);
    assert ["v1", "organizations", organizationId] + ["projects"] == ["v1", "organizations", organizationId, "projects"];
    PathSnoc(["v1", "organizations", organizationId], "projects");
    assert ["v1", "organizations", organizationId, "projects"] + [projectId] == ["v1", "organizations", organizationId, "projects", projectId];
    PathSnoc(["v1", "organizations", organizationId, "projects"], projectId);
  }

  predicate SendsActive(params: Option<ListParams>)
  {
    params.Some? && params.value.isActive.Some?
  }

  predicate SendsClient(params: Option<ListParams>)
  {
    params.Some? && params.value.clientId.Some? && params.value.clientId.value != ""
  }

  /** The pairs `list` puts in its query: `isActive` whenever it is given, `false`
    * included; `clientId` only when it is non-empty; `isActive` first. */
  function ListQuery(params: Option<ListParams>): (pairs: seq<(string, string)>)
    ensures "isActive" in Keys(pairs) <==> SendsActive(params)
    ensures "clientId" in Keys(pairs) <==> SendsClient(params)
    ensures |pairs| <= 2 && DistinctKeys(pairs)
    ensures forall i :: 0 <= i < |pairs| && pairs[i].0 == "isActive" ==>
      i == 0 && SendsActive(params) && pairs[i].1 == BoolString(params.value.isActive.value)
    ensures forall i :: 0 <= i < |pairs| && pairs[i].0 == "clientId" ==>
      SendsClient(params) && pairs[i].1 == params.value.clientId.value
    ensures forall i :: 0 <= i < |pairs| ==> pairs[i].0 == "isActive" || pairs[i].0 == "clientId"
  {
    var active := if SendsActive(params) then [("isActive", BoolString(params.value.isActive.value))] else [];
    var client := if SendsClient(params) then [("clientId", params.value.clientId.value)] else [];
    assert Keys(active) == if SendsActive(params) then ["isActive"] else [];
    assert Keys(client) == if SendsClient(params) then ["clientId"] else [];
    KeysAppend(active, client);
    active + client
  }

  /** The request `list` makes. */
  function ListRequest(organizationId: string, params: Option<ListParams>): (r: Request<Payload>)
    ensures r.verb == Get && r.body.None?
    ensures ListQuery(params) == [] ==> r.url == "/v1/organizations/" + organizationId + "/projects"
    ensures ListQuery(params) != [] ==>
      r.url == "/v1/organizations/" + organizationId + "/projects?" + QueryString(ListQuery(params))
  {
    ProjectsPathText(organizationId, "");
    Request(Get, WithQuery(ProjectsPath(organizationId), QueryString(ListQuery(params))), None)
  }

  /** `projectsApi.list(organizationId, params)`, building its query step by step. */
  method List(organizationId: string, params: Option<ListParams>) returns (req: Request<Payload>)
    ensures req == ListRequest(organizationId, params)
  {
    var search := new SearchParams();
    if params.Some? && params.value.isActive.Some? {
      search.Set("isActive", BoolString(params.value.isActive.value));
    }
    if params.Some? && params.value.clientId.Some? && params.value.clientId.value != "" {
      assert search.pairs == if SendsActive(params) then [("isActive", BoolString(params.value.isActive.value))] else [];
      assert Keys(search.pairs) == if SendsActive(params) then ["isActive"] else [];
      search.Set("clientId", params.value.clientId.value);
    }
    var query := search.ToString();
    req := Request(Get, WithQuery(ProjectsPath(organizationId), query), None);
  }

  /** The list URL has a `?` exactly when some parameter is sent. */
  lemma ListUrlQuery(organizationId: string, params: Option<ListParams>)
    requires '?' !in organizationId
    ensures '?' in ListRequest(organizationId, params).url <==> ListQuery(params) != []
  {
    assert '?' !in ProjectsPath(organizationId) by {
      PathAvoids(["v1", "organizations", organizationId, "projects"], '?');
    }
    QueryMark(ProjectsPath(organizationId), QueryString(ListQuery(params)));
  }

  /** `isActive: false` is sent while an empty `clientId` is not. */
  lemma InactiveWithoutClient(organizationId: string)
    ensures ListRequest(organizationId, Some(ListParams(Some(false), Some("")))).url ==
      ProjectsPath(organizationId) + "?isActive=false"
  {
    var params := Some(ListParams(Some(false), Some("")));
    assert SendsActive(params) && !SendsClient(params);
    assert ListQuery(params) == [("isActive", "false")];
    SingleQuery("isActive", "false");
    assert ListRequest(organizationId, params).url ==
      WithQuery(ProjectsPath(organizationId), QueryString(ListQuery(params)));
  }

  /** `projectsApi.create`. */
  function Create(organizationId: string, payload: CreateProjectRequest): (r: Request<Payload>)
    ensures r.verb == Post && r.body == Some(CreateBody(payload))
    ensures r.url == "/v1/organizations/" + organizationId + "/projects"
  {
    ProjectsPathText(organizationId, "");
    Request(Post, ProjectsPath(organizationId), Some(CreateBody(payload)))
  }

  /** `projectsApi.getById`. */
  function GetById(organizationId: string, projectId: string): (r: Request<Payload>)
    ensures r.verb == Get && r.body.None?
    ensures r.url == "/v1/organizations/" + organizationId + "/projects/" + projectId
  {
    ProjectsPathText(organizationId, projectId);
    Request(Get, ProjectPath(organizationId, projectId), None)
  }

  /** `projectsApi.update`. */
  function Update(organizationId: string, projectId: string, payload: UpdateProjectRequest): (r: Request<Payload>)
    ensures r.verb == Patch && r.body == Some(UpdateBody(payload))
    ensures r.url == "/v1/organizations/" + organizationId + "/projects/" + projectId
  {
    ProjectsPathText(organizationId, projectId);
    Request(Patch, ProjectPath(organizationId, projectId), Some(UpdateBody(payload)))
  }

  /** Creating POSTs the payload to the collection, whose path names the organisation as
    * a whole segment. */
  lemma CreateShape(organizationId: string, c: CreateProjectRequest)
    requires '/' !in organizationId
    ensures Create(organizationId, c).verb == Post && Create(organizationId, c).body == Some(CreateBody(c))
    ensures Create(organizationId, c).url == ProjectsPath(organizationId)
    ensures Split(Create(organizationId, c).url, '/') == ["", "v1", "organizations", organizationId, "projects"]
  {
    assert Create(organizationId, c).url == ProjectsPath(organizationId);
    PathSegments(["v1", "organizations", organizationId, "projects"]);
  }

  /** Reading GETs and updating PATCHes the same project path, which names the
    * organisation and project as whole segments; only the update carries a body. */
  lemma ItemShapes(organizationId: string, projectId: string, u: UpdateProjectRequest)
    requires '/' !in organizationId && '/' !in projectId
    ensures GetById(organizationId, projectId).verb == Get && GetById(organizationId, projectId).body.None?
    ensures Update(organizationId, projectId, u).verb == Patch && Update(organizationId, projectId, u).body == Some(UpdateBody(u))
    ensures GetById(organizationId, projectId).url == ProjectPath(organizationId, projectId)
    ensures Update(organizationId, projectId, u).url == ProjectPath(organizationId, projectId)
    ensures Split(ProjectPath(organizationId, projectId), '/') ==
      ["", "v1", "organizations", organizationId, "projects", projectId]
  {
    assert GetById(organizationId, projectId).url == ProjectPath(organizationId, projectId);
    assert Update(organizationId, projectId, u).url == ProjectPath(organizationId, projectId);
    PathSegments(["v1", "organizations", organizationId, "projects", projectId]);
  }
}
