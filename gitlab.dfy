/**
 * The GitLab REST client (lib/gitlab.ts): request URLs, the variable upsert with its
 * PUT-then-POST fallback, the not-found test, and the loading of a project with its
 * branches and latest pipelines into a `ProjectState`.
 */
module GitLab {
  import opened Wrappers
  import opened Strings
  import opened Http
  import opened Types

  const DefaultApi: string := "https://gitlab.com/api/v4"

  /** `variable_type` of every variable the dashboard writes. */
  const EnvVarType: string := "env_var"

  datatype VariablePayload = VariablePayload(key: string, value: string)
  datatype GitLabBranch = GitLabBranch(name: string, isDefault: bool)
  datatype GitLabProject = GitLabProject(id: nat, name: string, nameWithNamespace: string, webUrl: string)
  datatype GitLabPipeline = GitLabPipeline(
    id: nat, status: string, ref: string, sha: string, webUrl: string, createdAt: string, updatedAt: string)

  /** The JSON bodies the client sends. */
  datatype RequestBody =
    | NoBody
    | UpdateVariable(value: string, variableType: string)
    | CreateVariable(key: string, value: string, variableType: string)
    | TriggerRef(ref: string)

  /** One request: method, URL and body. */
  datatype Method = GET | PUT | POST
  datatype GitLabCall = GitLabCall(verb: Method, url: string, body: RequestBody)

  /** `request`'s base: the `baseUrl` option when given, otherwise gitlab.com. */
  function RequestUrl(baseUrl: Option<string>, path: string): (url: string)
    ensures baseUrl.None? ==> StartsWith(url, DefaultApi + "/")
    ensures baseUrl.Some? ==> StartsWith(url, StripTrailingSlash(baseUrl.value) + "/")
    ensures EndsWith(url, StripLeadingSlash(path))
    ensures |url| == |StripTrailingSlash(baseUrl.GetOr(DefaultApi))| + 1 + |StripLeadingSlash(path)|
  {
    var base := baseUrl.GetOr(DefaultApi);
    assert StripTrailingSlash(DefaultApi) == DefaultApi;
    assert (StripTrailingSlash(base) + "/" + StripLeadingSlash(path))[..|StripTrailingSlash(base)| + 1]
        == StripTrailingSlash(base) + "/";
    JoinUrl(base, path)
  }

  /** `/projects/<id>`, the id URL-encoded. */
  function ProjectPath(projectId: string): (path: string)
    ensures StartsWith(path, "/projects/") && '/' !in path[10..]
    ensures path[10..] == EncodeUriComponent(projectId)
  {
    EncodedComponentIsOneSegment(projectId);
    assert ("/projects/" + EncodeUriComponent(projectId))[10..] == EncodeUriComponent(projectId);
    "/projects/" + EncodeUriComponent(projectId)
  }

  /** Distinct project ids address distinct projects. */
  lemma ProjectPathInjective(a: string, b: string)
    requires ProjectPath(a) == ProjectPath(b)
    ensures a == b
  {
    EncodeUriComponentInjective(a, b);
  }

  /** `/projects/<id>/variables/<key>`, both URL-encoded, so neither can add a path segment. */
  function VariablePath(projectId: string, key: string): (path: string)
    ensures path == ProjectPath(projectId) + "/variables/" + EncodeUriComponent(key)
    ensures '/' !in EncodeUriComponent(projectId) && '/' !in EncodeUriComponent(key)
  {
    EncodedComponentIsOneSegment(projectId);
    EncodedComponentIsOneSegment(key);
    ProjectPath(projectId) + "/variables/" + EncodeUriComponent(key)
  }

  function BranchesPath(projectId: string): (path: string)
    ensures StartsWith(path, ProjectPath(projectId) + "/") && EndsWith(path, "/repository/branches")
    ensures |path| == |ProjectPath(projectId)| + |"/repository/branches"|
  {
    var path := ProjectPath(projectId) + "/repository/branches";
    assert path[..|ProjectPath(projectId)| + 1] == ProjectPath(projectId) + "/";
    assert path[|path| - 20..] == "/repository/branches";
    path
  }

  /** The pipelines listing: the five newest by id. */
  function PipelinesPath(projectId: string): (path: string)
    ensures StartsWith(path, ProjectPath(projectId) + "/pipelines?") && EndsWith(path, PipelinesQuery)
    ensures |path| == |ProjectPath(projectId) + "/pipelines?"| + |PipelinesQuery|
  {
    var path := ProjectPath(projectId) + "/pipelines?" + PipelinesQuery;
    assert path[..|ProjectPath(projectId)| + 11] == ProjectPath(projectId) + "/pipelines?";
    assert path[|path| - |PipelinesQuery|..] == PipelinesQuery;
    path
  }

  /** The pipelines listing's query: five per page, newest id first. */
  const PipelinesQuery: string := "per_page=5&order_by=id&sort=desc"

  /** `searchGitLabProjects` with its defaults: simple listing, 20 per page, membership only. */
  function SearchPath(query: string): (path: string)
    ensures StartsWith(path, "/projects?search=") && EndsWith(path, SearchDefaults)
    ensures |path| == 17 + |FormUrlEncode(query)| + |SearchDefaults|
    ensures path[17..|path| - |SearchDefaults|] == FormUrlEncode(query)
    ensures forall i :: 17 <= i < |path| - |SearchDefaults| ==> path[i] != '&' && path[i] != '#'
  {
    var path := "/projects?search=" + FormUrlEncode(query) + SearchDefaults;
    assert path[..17] == "/projects?search=";
    assert path[|path| - |SearchDefaults|..] == SearchDefaults;
    assert forall i :: 17 <= i < |path| - |SearchDefaults| ==> path[i] == FormUrlEncode(query)[i - 17];
    path
  }

  /** The parameters every search adds after the query; the encoded query cannot override them. */
  const SearchDefaults: string := "&simple=true&per_page=20&membership=true"

  /** `triggerGitLabPipeline`'s request. */
  function TriggerCall(projectId: string, ref: string, baseUrl: Option<string>): (call: GitLabCall)
    ensures call.verb == POST && call.body == TriggerRef(ref)
    ensures StartsWith(call.url, StripTrailingSlash(baseUrl.GetOr(DefaultApi)) + "/")
    ensures EndsWith(call.url, ProjectPath(projectId)[1..] + "/pipeline")
    ensures |call.url| == |StripTrailingSlash(baseUrl.GetOr(DefaultApi))| + |ProjectPath(projectId)| + |"/pipeline"|
  {
    var path := ProjectPath(projectId) + "/pipeline";
    assert StripLeadingSlash(path) == ProjectPath(projectId)[1..] + "/pipeline";
    GitLabCall(POST, RequestUrl(baseUrl, path), TriggerRef(ref))
  }

  datatype UpsertInput = UpsertInput(projectId: string, token: string, variable: VariablePayload, baseUrl: Option<string>)

  /**
   * `upsertGitLabVariable`: PUT the variable; when that fails with a message containing "404",
   * create it with a POST instead; any other failure propagates unchanged.
   */
  function UpsertGitLabVariable(input: UpsertInput, putOutcome: Outcome, postOutcome: Outcome): (r: Trace<GitLabCall>)
    ensures 1 <= |r.calls| <= 2
    ensures r.calls[0] == GitLabCall(PUT, RequestUrl(input.baseUrl, VariablePath(input.projectId, input.variable.key)),
                                     UpdateVariable(input.variable.value, EnvVarType))
    ensures |r.calls| == 2 <==> putOutcome.Failed? && Contains(putOutcome.error, "404")
    ensures |r.calls| == 2 ==>
              && r.calls[1] == GitLabCall(POST, RequestUrl(input.baseUrl, ProjectPath(input.projectId) + "/variables"),
                                          CreateVariable(input.variable.key, input.variable.value, EnvVarType))
              && r.outcome == postOutcome
    ensures |r.calls| == 1 ==> r.outcome == putOutcome
  {
    var put := GitLabCall(PUT, RequestUrl(input.baseUrl, VariablePath(input.projectId, input.variable.key)),
                          UpdateVariable(input.variable.value, EnvVarType));
    match putOutcome
    case Done => Trace([put], Done)
    case Failed(message) =>
      if Contains(message, "404") then
        var post := GitLabCall(POST, RequestUrl(input.baseUrl, ProjectPath(input.projectId) + "/variables"),
                               CreateVariable(input.variable.key, input.variable.value, EnvVarType));
        Trace([put, post], postOutcome)
      else Trace([put], putOutcome)
  }

  /** `isGitLabNotFoundError`: an Error whose message mentions 404. */
  function IsGitLabNotFoundError(error: Thrown): (notFound: bool)
    ensures notFound <==> error.ErrorObject? && Contains(error.message, "404")
  {
    match error
    case ErrorObject(message) => Contains(message, "404")
    case OtherValue(_) => false
  }

  /** The upsert falls back to creating exactly when the PUT's error is a not-found error. */
  lemma UpsertFallsBackOnNotFound(input: UpsertInput, message: string, postOutcome: Outcome)
    ensures |UpsertGitLabVariable(input, Failed(message), postOutcome).calls| == 2
            <==> IsGitLabNotFoundError(ErrorObject(message))
  {
  }

  /**
   * Any failure message with "404" in it, such as GitLab's `{"message":"404 Variable Not
   * Found"}` body, makes the upsert create the variable.
   */
  lemma NotFoundMessageCreates(input: UpsertInput, before: string, after: string, postOutcome: Outcome)
    ensures UpsertGitLabVariable(input, Failed(before + "404" + after), postOutcome).outcome == postOutcome
  {
    ContainsInfix(before, "404", after);
  }

  /** `baseUrl?.trim() || DEFAULT_GITLAB_API`. */
  function ResolveBaseUrl(baseUrl: Option<string>): (resolved: string)
    ensures resolved != [] && IsTrimmed(resolved)
    ensures baseUrl.Some? && Trim(baseUrl.value) != [] ==> resolved == Trim(baseUrl.value)
    ensures baseUrl.None? || Trim(baseUrl.value) == [] ==> resolved == DefaultApi
  {
    var trimmed := if baseUrl.Some? then Trim(baseUrl.value) else "";
    if trimmed != [] then trimmed else DefaultApi
  }

  /** Resolving twice is resolving once. */
  lemma ResolveBaseUrlIdempotent(baseUrl: Option<string>)
    ensures ResolveBaseUrl(Some(ResolveBaseUrl(baseUrl))) == ResolveBaseUrl(baseUrl)
  {
    TrimOfTrimmed(ResolveBaseUrl(baseUrl));
  }

  /** The branches as freshly loaded states: same order, names and default flags, all idle. */
  function BranchStates(branches: seq<GitLabBranch>): (states: seq<BranchState>)
    ensures |states| == |branches|
    ensures forall i :: 0 <= i < |branches| ==> states[i] == IdleBranch(branches[i].name, branches[i].isDefault)
  {
    seq(|branches|, i requires 0 <= i < |branches| => IdleBranch(branches[i].name, branches[i].isDefault))
  }

  /** The pipelines as summaries, field for field and in order. */
  function Summaries(pipelines: seq<GitLabPipeline>): (summaries: seq<PipelineSummary>)
    ensures |summaries| == |pipelines|
    ensures forall i :: 0 <= i < |pipelines| ==>
              var p := pipelines[i];
              summaries[i] == PipelineSummary(p.id, p.status, p.ref, p.sha, p.webUrl, p.createdAt, p.updatedAt)
  {
    seq(|pipelines|, i requires 0 <= i < |pipelines| =>
      var p := pipelines[i];
      PipelineSummary(p.id, p.status, p.ref, p.sha, p.webUrl, p.createdAt, p.updatedAt))
  }

  /** What loading yields: the requests issued and the state built, or the first failure. */
  datatype Loaded = Loaded(calls: seq<GitLabCall>, result: Result<ProjectState>)

  /** The state built from a project, its branches and its pipelines. */
  function ProjectStateOf(project: GitLabProject, branches: seq<GitLabBranch>, pipelines: seq<GitLabPipeline>): (state: ProjectState)
    ensures state.id == NatToString(project.id) && state.name == project.name && state.namespace == project.nameWithNamespace
    ensures state.webUrl == Some(project.webUrl) && state.branches == BranchStates(branches)
    ensures state.pipelines == Some(Summaries(pipelines))
  {
    ProjectState(NatToString(project.id), project.name, project.nameWithNamespace, Some(project.webUrl),
                 BranchStates(branches), Some(Summaries(pipelines)))
  }

  /**
   * `loadGitLabProjectWithBranches`: fetch the project unless one is supplied, then its branches,
   * then its five latest pipelines, all against the resolved base URL; the first failure ends it.
   */
  function LoadGitLabProjectWithBranches(
    projectId: string, baseUrl: Option<string>, existingProject: Option<GitLabProject>,
    projectFetch: Result<GitLabProject>, branchesFetch: Result<seq<GitLabBranch>>,
    pipelinesFetch: Result<seq<GitLabPipeline>>): (r: Loaded)
    ensures r.result.Ok? <==> (existingProject.Some? || projectFetch.Ok?) && branchesFetch.Ok? && pipelinesFetch.Ok?
    ensures r.calls <= LoadCalls(projectId, baseUrl, existingProject.None?)
    ensures existingProject.None? && projectFetch.Err? ==> r.result == Err(projectFetch.error) && |r.calls| == 1
    ensures (existingProject.Some? || projectFetch.Ok?) && branchesFetch.Err? ==>
              r.result == Err(branchesFetch.error) && |r.calls| == |LoadCalls(projectId, baseUrl, existingProject.None?)| - 1
    ensures (existingProject.Some? || projectFetch.Ok?) && branchesFetch.Ok? && pipelinesFetch.Err? ==>
              r.result == Err(pipelinesFetch.error) && r.calls == LoadCalls(projectId, baseUrl, existingProject.None?)
    ensures r.result.Ok? ==>
              && r.calls == LoadCalls(projectId, baseUrl, existingProject.None?)
              && r.result.value == ProjectStateOf(if existingProject.Some? then existingProject.value else projectFetch.value,
                                                  branchesFetch.value, pipelinesFetch.value)
  {
    var all := LoadCalls(projectId, baseUrl, existingProject.None?);
    var project := if existingProject.Some? then Ok(existingProject.value) else projectFetch;
    match project
    case Err(e) => Loaded(all[..1], Err(e))
    case Ok(p) =>
      match branchesFetch
      case Err(e) => Loaded(all[..|all| - 1], Err(e))
      case Ok(branches) =>
        match pipelinesFetch
        case Err(e) => Loaded(all, Err(e))
        case Ok(pipelines) => Loaded(all, Ok(ProjectStateOf(p, branches, pipelines)))
  }

  /** Every request a load can make, in order: the project unless it was supplied, its branches, its pipelines. */
  function LoadCalls(projectId: string, baseUrl: Option<string>, fetchProject: bool): (calls: seq<GitLabCall>)
    ensures |calls| == if fetchProject then 3 else 2
  {
    var base := Some(ResolveBaseUrl(baseUrl));
    var getBranches := GitLabCall(GET, RequestUrl(base, BranchesPath(projectId)), NoBody);
    var getPipelines := GitLabCall(GET, RequestUrl(base, PipelinesPath(projectId)), NoBody);
    if fetchProject then [GitLabCall(GET, RequestUrl(base, ProjectPath(projectId)), NoBody), getBranches, getPipelines]
    else [getBranches, getPipelines]
  }

  /**
   * The main path: a project fetched by id, then its branches and pipelines, all three GETs
   * against the resolved base URL, and the state built from what they returned.
   */
  lemma FetchedProjectLoads(
    projectId: string, baseUrl: Option<string>, project: GitLabProject,
    branches: seq<GitLabBranch>, pipelines: seq<GitLabPipeline>)
    ensures var base := Some(ResolveBaseUrl(baseUrl));
            LoadGitLabProjectWithBranches(projectId, baseUrl, None, Ok(project), Ok(branches), Ok(pipelines))
            == Loaded([GitLabCall(GET, RequestUrl(base, ProjectPath(projectId)), NoBody),
                       GitLabCall(GET, RequestUrl(base, BranchesPath(projectId)), NoBody),
                       GitLabCall(GET, RequestUrl(base, PipelinesPath(projectId)), NoBody)],
                      Ok(ProjectStateOf(project, branches, pipelines)))
  {
  }

  /** A supplied project is never fetched again: only branches and pipelines are requested, and the state is built from it. */
  lemma ExistingProjectSuppressesFetch(
    projectId: string, baseUrl: Option<string>, project: GitLabProject, projectFetch: Result<GitLabProject>,
    branches: seq<GitLabBranch>, pipelines: seq<GitLabPipeline>)
    ensures var base := Some(ResolveBaseUrl(baseUrl));
            LoadGitLabProjectWithBranches(projectId, baseUrl, Some(project), projectFetch, Ok(branches), Ok(pipelines))
            == Loaded([GitLabCall(GET, RequestUrl(base, BranchesPath(projectId)), NoBody),
                       GitLabCall(GET, RequestUrl(base, PipelinesPath(projectId)), NoBody)],
                      Ok(ProjectStateOf(project, branches, pipelines)))
  {
    var base := Some(ResolveBaseUrl(baseUrl));
    var getBranches := GitLabCall(GET, RequestUrl(base, BranchesPath(projectId)), NoBody);
    var getPipelines := GitLabCall(GET, RequestUrl(base, PipelinesPath(projectId)), NoBody);
    assert LoadCalls(projectId, baseUrl, false) == [getBranches, getPipelines];
  }
}
