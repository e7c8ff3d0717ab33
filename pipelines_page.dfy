/**
 * The GitLab pipelines page (app/gitlab/pipelines/page.tsx): a list of tracked projects,
 * each with its branches, hydrated from and persisted to its own `localStorage` entry; a
 * project loader that replaces a project by id; and a per-branch trigger that moves one
 * branch from idle through triggering to succeeded or errored. The GitLab token is a
 * parameter; each request's result is an input; `toLocaleString()` of the trigger time is
 * the input `at`.
 */
module GitLabPipelinesPage {
  import opened Wrappers
  import opened Strings
  import opened Types
  import opened ProjectList
  import GitLab
  import GitlabSearchHook

  const LoadFailed: string := "Could not load saved GitLab projects from storage."
  const LoaderMissingToken: string := "GitLab token missing. Save it on the Settings page first."
  const MissingToken: string := "GitLab token missing. Save it on the Tokens page first."
  const ProjectIdRequired: string := "Project ID is required."
  const EmptyQuery: string := "Enter a project name to search."

  /** The requests the page issues, each with the token and the resolved base URL. */
  datatype Request =
    | FetchProject(projectId: string, token: string, baseUrl: string)
    | FetchBranches(projectId: string, token: string, baseUrl: string)
    | TriggerPipeline(projectId: string, ref: string, token: string, baseUrl: string)
    | SearchProjects(query: string, token: string, baseUrl: string)

  /** "Loaded N branches for NAME." */
  function LoadedMessage(count: nat, name: string): (m: string)
    ensures StartsWith(m, "Loaded ") && EndsWith(m, " branches for " + name + ".")
    ensures |m| > 22 + |name| && m[7..|m| - 15 - |name|] == NatToString(count)
    ensures forall i :: 7 <= i < |m| - 15 - |name| ==> '0' <= m[i] <= '9'
  {
    "Loaded " + NatToString(count) + " branches for " + name + "."
  }

  /** "Removed NAME from the list.", the id standing in for an empty name. */
  function RemovedMessage(projectName: string, projectId: string): (m: string)
    ensures StartsWith(m, "Removed ") && EndsWith(m, " from the list.") && |m| >= 23
    ensures m[8..|m| - 15] == if projectName != "" then projectName else projectId
  {
    "Removed " + (if projectName != "" then projectName else projectId) + " from the list."
  }

  /** "Triggered pipeline for BRANCH." */
  function TriggeredMessage(branchName: string): (m: string)
    ensures StartsWith(m, "Triggered pipeline for ") && |m| == 24 + |branchName| && m[23..|m| - 1] == branchName
  {
    "Triggered pipeline for " + branchName + "."
  }

  /** "No projects matched “QUERY”." */
  function NoMatchMessage(query: string): (m: string)
    ensures StartsWith(m, "No projects matched ") && |m| == 23 + |query| && m[21..|m| - 2] == query
  {
    "No projects matched \U{201C}" + query + "\U{201D}."
  }

  // Hydration and persistence

  /** The page's revival of one stored project: idle branches, no web URL and no pipelines. */
  function ReviveProject(p: StoredProject): (s: ProjectState)
    ensures s.id == p.id && s.name == p.name && s.namespace == p.namespace
    ensures s.webUrl.None? && s.pipelines.None?
    ensures s.branches == ReviveBranches(p.branches)
  {
    ProjectState(p.id, p.name, p.namespace, None, ReviveBranches(p.branches), None)
  }

  function Revive(stored: seq<StoredProject>): (projects: seq<ProjectState>)
    ensures |projects| == |stored|
    ensures forall i :: 0 <= i < |stored| ==> projects[i] == ReviveProject(stored[i])
  {
    seq(|stored|, i requires 0 <= i < |stored| => ReviveProject(stored[i]))
  }

  /** The page's stored form of one project: id, name, namespace, and each branch's name and default flag. */
  function StoreProject(p: ProjectState): (s: StoredProject)
    ensures s.id == p.id && s.name == p.name && s.namespace == p.namespace
    ensures s.webUrl.None? && s.pipelines.None?
    ensures s.branches == StoreBranches(p.branches)
  {
    StoredProject(p.id, p.name, p.namespace, None, StoreBranches(p.branches), None)
  }

  function Store(projects: seq<ProjectState>): (stored: seq<StoredProject>)
    ensures |stored| == |projects|
    ensures forall i :: 0 <= i < |projects| ==> stored[i] == StoreProject(projects[i])
  {
    seq(|projects|, i requires 0 <= i < |projects| => StoreProject(projects[i]))
  }

  /** A project as the page itself builds it: no web URL, no pipelines, fresh branches. */
  predicate IsPlain(p: ProjectState) {
    && p.webUrl.None?
    && p.pipelines.None?
    && forall i :: 0 <= i < |p.branches| ==> IsFresh(p.branches[i])
  }

  /** Persisting then hydrating keeps ids, names, namespaces, branch names and default flags; plain projects come back unchanged. */
  lemma {:induction false} ReviveAfterStore(projects: seq<ProjectState>)
    ensures |Revive(Store(projects))| == |projects|
    ensures forall i :: 0 <= i < |projects| ==>
      var back := Revive(Store(projects))[i];
      && back.id == projects[i].id && back.name == projects[i].name && back.namespace == projects[i].namespace
      && StoreBranches(back.branches) == StoreBranches(projects[i].branches)
      && IsPlain(back)
    ensures (forall i :: 0 <= i < |projects| ==> IsPlain(projects[i])) ==> Revive(Store(projects)) == projects
  {
    forall i | 0 <= i < |projects|
      ensures var back := Revive(Store(projects))[i];
        && StoreBranches(back.branches) == StoreBranches(projects[i].branches)
        && IsPlain(back)
        && (IsPlain(projects[i]) ==> back == projects[i])
    {
      ProjectList.ReviveAfterStore(projects[i].branches);
      StoreAfterRevive(StoreBranches(projects[i].branches));
    }
  }

  // Loading a project

  /** The state `processProjectLoad` builds: the project's id as text, its name and namespace, idle branches. */
  function LoadedProject(project: GitLab.GitLabProject, branches: seq<GitLab.GitLabBranch>): (p: ProjectState)
    ensures p.id == NatToString(project.id) && p.name == project.name && p.namespace == project.nameWithNamespace
    ensures IsPlain(p)
    ensures |p.branches| == |branches|
    ensures forall i :: 0 <= i < |branches| ==> p.branches[i].name == branches[i].name && p.branches[i].isDefault == branches[i].isDefault
  {
    ProjectState(NatToString(project.id), project.name, project.nameWithNamespace, None, GitLab.BranchStates(branches), None)
  }

  /** What `processProjectLoad` did: the requests in order, and the project it loaded or the message it threw. */
  datatype Load = Load(requests: seq<Request>, result: Result<(GitLab.GitLabProject, seq<GitLab.GitLabBranch>)>)

  /**
   * `processProjectLoad(projectId, existingProject)`: without a token it throws before any
   * request; otherwise the project is fetched unless supplied, then its branches, and the
   * first failure ends it.
   */
  function ProcessProjectLoad(projectId: string, existing: Option<GitLab.GitLabProject>, token: string, baseUrl: string,
                              fetchedProject: Result<GitLab.GitLabProject>, fetchedBranches: Result<seq<GitLab.GitLabBranch>>)
    : (r: Load)
    ensures token == "" ==> r == Load([], Err(LoaderMissingToken))
    ensures token != "" && existing.Some? ==>
              r.requests == [FetchBranches(projectId, token, GitLab.ResolveBaseUrl(Some(baseUrl)))]
              && (fetchedBranches.Ok? ==> r.result == Ok((existing.value, fetchedBranches.value)))
              && (fetchedBranches.Err? ==> r.result == Err(fetchedBranches.error))
    ensures token != "" && existing.None? ==>
              && |r.requests| >= 1 && r.requests[0] == FetchProject(projectId, token, GitLab.ResolveBaseUrl(Some(baseUrl)))
              && (fetchedProject.Err? ==> |r.requests| == 1 && r.result == Err(fetchedProject.error))
              && (fetchedProject.Ok? ==>
                    r.requests == [FetchProject(projectId, token, GitLab.ResolveBaseUrl(Some(baseUrl))),
                                   FetchBranches(projectId, token, GitLab.ResolveBaseUrl(Some(baseUrl)))]
                    && r.result == (if fetchedBranches.Ok? then Ok((fetchedProject.value, fetchedBranches.value))
                                    else Err(fetchedBranches.error)))
  {
    if token == "" then Load([], Err(LoaderMissingToken))
    else
      var base := GitLab.ResolveBaseUrl(Some(baseUrl));
      var projectStep := if existing.Some? then [] else [FetchProject(projectId, token, base)];
      var project := if existing.Some? then Ok(existing.value) else fetchedProject;
      match project
      case Err(message) => Load(projectStep, Err(message))
      case Ok(data) =>
        var requests := projectStep + [FetchBranches(projectId, token, base)];
        match fetchedBranches
        case Err(message) => Load(requests, Err(message))
        case Ok(branches) => Load(requests, Ok((data, branches)))
  }

  // Adding a project

  /** The checks `handleAddProject` makes before any request: the trimmed id, then the token. */
  function AddGuard(projectIdInput: string, token: string): (error: Option<string>)
    ensures error.None? <==> Trim(projectIdInput) != "" && token != ""
    ensures Trim(projectIdInput) == "" ==> error == Some(ProjectIdRequired)
    ensures Trim(projectIdInput) != "" && token == "" ==> error == Some(MissingToken)
  {
    if Trim(projectIdInput) == "" then Some(ProjectIdRequired)
    else if token == "" then Some(MissingToken)
    else None
  }

  /** What `handleAddProject` leaves: its requests, the project list, the id input and the alert. */
  datatype Addition = Addition(requests: seq<Request>, projects: seq<ProjectState>, projectIdInput: string, alert: StatusMessage)

  /**
   * `handleAddProject`: the trimmed id, then the token, are checked before any request;
   * then the project is loaded, replacing any entry with its id, and the input is cleared on
   * success; a failure shows its message and keeps the input.
   */
  function AddProject(projects: seq<ProjectState>, projectIdInput: string, baseUrl: string, token: string,
                      fetchedProject: Result<GitLab.GitLabProject>, fetchedBranches: Result<seq<GitLab.GitLabBranch>>)
    : (r: Addition)
    ensures r.requests == [] <==> AddGuard(projectIdInput, token).Some?
    ensures AddGuard(projectIdInput, token).Some? ==>
              r == Addition([], projects, projectIdInput, StatusMessage(ErrorMessage, AddGuard(projectIdInput, token).value))
    ensures AddGuard(projectIdInput, token).None? ==>
              var load := ProcessProjectLoad(Trim(projectIdInput), None, token, baseUrl, fetchedProject, fetchedBranches);
              && r.requests == load.requests
              && (load.result.Ok? ==>
                    && r.projects == UpsertById(projects, LoadedProject(load.result.value.0, load.result.value.1))
                    && r.alert == StatusMessage(SuccessMessage, LoadedMessage(|load.result.value.1|, load.result.value.0.name))
                    && r.projectIdInput == "")
              && (load.result.Err? ==>
                    r.projects == projects && r.alert == StatusMessage(ErrorMessage, load.result.error)
                    && r.projectIdInput == projectIdInput)
  {
    var error := AddGuard(projectIdInput, token);
    if error.Some? then Addition([], projects, projectIdInput, StatusMessage(ErrorMessage, error.value))
    else
      var load := ProcessProjectLoad(Trim(projectIdInput), None, token, baseUrl, fetchedProject, fetchedBranches);
      match load.result
      case Ok(loaded) =>
        Addition(load.requests, UpsertById(projects, LoadedProject(loaded.0, loaded.1)), "",
                 StatusMessage(SuccessMessage, LoadedMessage(|loaded.1|, loaded.0.name)))
      case Err(message) => Addition(load.requests, projects, projectIdInput, StatusMessage(ErrorMessage, message))
  }

  /** A project id given with its padding adds the same project, and requests the same URLs, as the bare id. */
  lemma AddProjectIgnoresPadding(projects: seq<ProjectState>, projectIdInput: string, baseUrl: string, token: string,
                                 fetchedProject: Result<GitLab.GitLabProject>, fetchedBranches: Result<seq<GitLab.GitLabBranch>>)
    requires AddGuard(projectIdInput, token).None?
    ensures AddProject(projects, projectIdInput, baseUrl, token, fetchedProject, fetchedBranches).requests
         == AddProject(projects, Trim(projectIdInput), baseUrl, token, fetchedProject, fetchedBranches).requests
  {
    TrimIdempotent(projectIdInput);
  }

  // Triggering a branch

  /** The named branches of the named project become `f` of themselves; everything else is kept. */
  function UpdateBranch(projects: seq<ProjectState>, projectId: string, branchName: string, f: BranchState -> BranchState)
    : (next: seq<ProjectState>)
    ensures |next| == |projects|
    ensures forall i :: 0 <= i < |projects| && projects[i].id != projectId ==> next[i] == projects[i]
    ensures forall i :: 0 <= i < |projects| && projects[i].id == projectId ==>
              && next[i] == projects[i].(branches := next[i].branches)
              && |next[i].branches| == |projects[i].branches|
              && forall j :: 0 <= j < |projects[i].branches| ==>
                   next[i].branches[j] == (if projects[i].branches[j].name == branchName then f(projects[i].branches[j])
                                           else projects[i].branches[j])
  {
    seq(|projects|, i requires 0 <= i < |projects| =>
      if projects[i].id != projectId then projects[i]
      else
        var bs := projects[i].branches;
        projects[i].(branches := seq(|bs|, j requires 0 <= j < |bs| => if bs[j].name == branchName then f(bs[j]) else bs[j])))
  }

  /** `{ ...branch, status: "triggering", error: undefined }`. */
  function MarkTriggering(b: BranchState): (t: BranchState)
    ensures t.status == Triggering && t.error.None?
    ensures t.name == b.name && t.isDefault == b.isDefault && t.lastTriggeredAt == b.lastTriggeredAt
  {
    b.(status := Triggering, error := None)
  }

  /** `{ ...branch, status: "success", lastTriggeredAt }`. */
  function MarkSucceeded(at: string): (f: BranchState -> BranchState)
    ensures forall b :: f(b).status == Succeeded && f(b).lastTriggeredAt == Some(at)
    ensures forall b :: f(b).name == b.name && f(b).isDefault == b.isDefault && f(b).error == b.error
  {
    (b: BranchState) => b.(status := Succeeded, lastTriggeredAt := Some(at))
  }

  /** `{ ...branch, status: "error", error: text }`. */
  function MarkErrored(text: string): (f: BranchState -> BranchState)
    ensures forall b :: f(b).status == Errored && f(b).error == Some(text)
    ensures forall b :: f(b).name == b.name && f(b).isDefault == b.isDefault && f(b).lastTriggeredAt == b.lastTriggeredAt
  {
    (b: BranchState) => b.(status := Errored, error := Some(text))
  }

  /** The branch a successful trigger leaves: succeeded, with the trigger time and no error. */
  function AfterSuccess(at: string): (f: BranchState -> BranchState)
    ensures forall b :: f(b).status == Succeeded && f(b).lastTriggeredAt == Some(at) && f(b).error.None?
    ensures forall b :: f(b).name == b.name && f(b).isDefault == b.isDefault
  {
    (b: BranchState) => BranchState(b.name, b.isDefault, Succeeded, Some(at), None)
  }

  /** The branch a failed trigger leaves: errored with the message, its last trigger time kept. */
  function AfterFailure(text: string): (f: BranchState -> BranchState)
    ensures forall b :: f(b).status == Errored && f(b).error == Some(text)
    ensures forall b :: f(b).name == b.name && f(b).isDefault == b.isDefault && f(b).lastTriggeredAt == b.lastTriggeredAt
  {
    (b: BranchState) => BranchState(b.name, b.isDefault, Errored, b.lastTriggeredAt, Some(text))
  }

  /** Two updates of the same branch are one update by their composition, when the first keeps branch names. */
  lemma {:induction false} UpdateBranchTwice(projects: seq<ProjectState>, projectId: string, branchName: string,
                                             f: BranchState -> BranchState, g: BranchState -> BranchState,
                                             h: BranchState -> BranchState)
    requires forall b :: f(b).name == b.name && h(b) == g(f(b))
    ensures UpdateBranch(UpdateBranch(projects, projectId, branchName, f), projectId, branchName, g)
         == UpdateBranch(projects, projectId, branchName, h)
  {
    var twice := UpdateBranch(UpdateBranch(projects, projectId, branchName, f), projectId, branchName, g);
    var direct := UpdateBranch(projects, projectId, branchName, h);
    forall i | 0 <= i < |projects| ensures twice[i] == direct[i] {
      if projects[i].id == projectId {
        assert twice[i].branches == direct[i].branches;
      }
    }
  }

  /** Marking a branch triggering and then succeeded leaves `AfterSuccess`; failed leaves `AfterFailure`. */
  lemma TriggerEndStates(at: string, text: string)
    ensures forall b :: MarkTriggering(b).name == b.name
    ensures forall b :: AfterSuccess(at)(b) == MarkSucceeded(at)(MarkTriggering(b))
    ensures forall b :: AfterFailure(text)(b) == MarkErrored(text)(MarkTriggering(b))
  {
  }

  // Searching

  /** What `handleSearchProjects` leaves: its requests, the results and the alert. */
  datatype SearchOutcome = SearchOutcome(requests: seq<Request>, searchResults: seq<GitLab.GitLabProject>, alert: Option<StatusMessage>)

  /**
   * `handleSearchProjects`: an empty trimmed query, then a missing token, stop it with an
   * alert; otherwise one search replaces the results, an empty result is reported, and a
   * failure shows its message.
   */
  function ProjectSearch(searchTerm: string, searchResults: seq<GitLab.GitLabProject>, baseUrl: string, token: string,
                         response: Result<seq<GitLab.GitLabProject>>)
    : (r: SearchOutcome)
    ensures r.requests == [] <==> Trim(searchTerm) == "" || token == ""
    ensures Trim(searchTerm) == "" ==>
              r == SearchOutcome([], searchResults, Some(StatusMessage(ErrorMessage, EmptyQuery)))
    ensures Trim(searchTerm) != "" && token == "" ==>
              r == SearchOutcome([], searchResults, Some(StatusMessage(ErrorMessage, MissingToken)))
    ensures Trim(searchTerm) != "" && token != "" ==>
              r.requests == [SearchProjects(Trim(searchTerm), token, GitLab.ResolveBaseUrl(Some(baseUrl)))]
    ensures Trim(searchTerm) != "" && token != "" && response.Ok? ==>
              r.searchResults == response.value
              && r.alert == (if response.value == [] then Some(StatusMessage(ErrorMessage, NoMatchMessage(Trim(searchTerm)))) else None)
    ensures Trim(searchTerm) != "" && token != "" && response.Err? ==>
              r.searchResults == searchResults && r.alert == Some(StatusMessage(ErrorMessage, response.error))
  {
    var query := Trim(searchTerm);
    if query == "" then SearchOutcome([], searchResults, Some(StatusMessage(ErrorMessage, EmptyQuery)))
    else if token == "" then SearchOutcome([], searchResults, Some(StatusMessage(ErrorMessage, MissingToken)))
    else
      var requests := [SearchProjects(query, token, GitLab.ResolveBaseUrl(Some(baseUrl)))];
      match response
      case Ok(results) =>
        SearchOutcome(requests, results, if results == [] then Some(StatusMessage(ErrorMessage, NoMatchMessage(query))) else None)
      case Err(text) => SearchOutcome(requests, searchResults, Some(StatusMessage(ErrorMessage, text)))
  }

  // Choosing a search result

  /** What `handleSelectProject` leaves: its requests, the project list, the search results and the alert. */
  datatype Selection = Selection(requests: seq<Request>, projects: seq<ProjectState>,
                                 searchResults: seq<GitLab.GitLabProject>, alert: StatusMessage)

  /**
   * `handleSelectProject(project)`: without a token only the alert changes; otherwise the
   * chosen project is loaded without fetching it again, and on success it replaces any entry
   * with its id and leaves the search results.
   */
  function SelectProject(projects: seq<ProjectState>, searchResults: seq<GitLab.GitLabProject>, baseUrl: string,
                         project: GitLab.GitLabProject, token: string, fetchedBranches: Result<seq<GitLab.GitLabBranch>>)
    : (r: Selection)
    ensures token == "" ==> r == Selection([], projects, searchResults, StatusMessage(ErrorMessage, MissingToken))
    ensures token != "" ==> r.requests == [FetchBranches(NatToString(project.id), token, GitLab.ResolveBaseUrl(Some(baseUrl)))]
    ensures token != "" && fetchedBranches.Ok? ==>
              && r.projects == UpsertById(projects, LoadedProject(project, fetchedBranches.value))
              && r.searchResults == GitlabSearchHook.PruneResults(searchResults, project.id)
              && r.alert == StatusMessage(SuccessMessage, LoadedMessage(|fetchedBranches.value|, project.name))
    ensures token != "" && fetchedBranches.Err? ==>
              r.projects == projects && r.searchResults == searchResults && r.alert == StatusMessage(ErrorMessage, fetchedBranches.error)
  {
    if token == "" then Selection([], projects, searchResults, StatusMessage(ErrorMessage, MissingToken))
    else
      var load := ProcessProjectLoad(NatToString(project.id), Some(project), token, baseUrl, Err(""), fetchedBranches);
      match load.result
      case Ok(loaded) =>
        Selection(load.requests, UpsertById(projects, LoadedProject(loaded.0, loaded.1)),
                  GitlabSearchHook.PruneResults(searchResults, project.id),
                  StatusMessage(SuccessMessage, LoadedMessage(|loaded.1|, loaded.0.name)))
      case Err(message) => Selection(load.requests, projects, searchResults, StatusMessage(ErrorMessage, message))
  }

  class PipelinesPage {
    var baseUrl: string
    var projectIdInput: string
    var projects: seq<ProjectState>
    var isHydrated: bool
    var isAdding: bool
    var searchTerm: string
    var searchResults: seq<GitLab.GitLabProject>
    var isSearching: bool
    var loadingProjectId: Option<string>
    var alert: Option<StatusMessage>

    /** The first render: the public GitLab API, no projects, not hydrated. */
    constructor()
      ensures baseUrl == GitLab.DefaultApi && projectIdInput == "" && projects == [] && !isHydrated && !isAdding
      ensures searchTerm == "" && searchResults == [] && !isSearching && loadingProjectId.None? && alert.None?
    {
      baseUrl := GitLab.DefaultApi;
      projectIdInput := "";
      projects := [];
      isHydrated := false;
      isAdding := false;
      searchTerm := "";
      searchResults := [];
      isSearching := false;
      loadingProjectId := None;
      alert := None;
    }

    /**
     * The hydration effect: without a window nothing happens; otherwise the page is hydrated
     * whether the entry was missing, parsed or failed to parse, takes the revived list only
     * when it parsed, and reports a parse failure.
     */
    method Hydrate(slot: StorageSlot, hasWindow: bool, parseFails: bool)
      modifies this`projects, this`isHydrated, this`alert
      ensures !hasWindow ==> projects == old(projects) && isHydrated == old(isHydrated) && alert == old(alert)
      ensures hasWindow ==> isHydrated
      ensures hasWindow && slot.stored.Some? && !parseFails ==> projects == Revive(slot.stored.value) && alert == old(alert)
      ensures hasWindow && slot.stored.Some? && parseFails ==>
                projects == old(projects) && alert == Some(StatusMessage(ErrorMessage, LoadFailed))
      ensures hasWindow && slot.stored.None? ==> projects == old(projects) && alert == old(alert)
    {
      if !hasWindow {
        return;
      }
      if slot.stored.None? {
        isHydrated := true;
        return;
      }
      if parseFails {
        alert := Some(StatusMessage(ErrorMessage, LoadFailed));
      } else {
        projects := Revive(slot.stored.value);
      }
      isHydrated := true;
    }

    /** The persist effect: nothing is written before hydration. */
    method Persist(slot: StorageSlot, hasWindow: bool)
      modifies slot
      ensures !isHydrated || !hasWindow ==> slot.stored == old(slot.stored)
      ensures isHydrated && hasWindow ==> slot.stored == Some(Store(projects))
    {
      if !isHydrated || !hasWindow {
        return;
      }
      slot.stored := Some(Store(projects));
    }

    /** The `setProjects` step of a successful load, and its alert. */
    method ApplyLoad(project: GitLab.GitLabProject, branches: seq<GitLab.GitLabBranch>)
      modifies this`projects, this`alert
      ensures projects == UpsertById(old(projects), LoadedProject(project, branches))
      ensures alert == Some(StatusMessage(SuccessMessage, LoadedMessage(|branches|, project.name)))
    {
      projects := UpsertById(projects, LoadedProject(project, branches));
      alert := Some(StatusMessage(SuccessMessage, LoadedMessage(|branches|, project.name)));
    }

    /** `handleAddProject` on the page: the adding flag is up only while the requests run. */
    method HandleAddProject(token: string, fetchedProject: Result<GitLab.GitLabProject>,
                            fetchedBranches: Result<seq<GitLab.GitLabBranch>>)
      returns (requests: seq<Request>)
      modifies this`projectIdInput, this`projects, this`isAdding, this`alert
      ensures var r := AddProject(old(projects), old(projectIdInput), old(baseUrl), token, fetchedProject, fetchedBranches);
              requests == r.requests && projects == r.projects && projectIdInput == r.projectIdInput && alert == Some(r.alert)
      ensures isAdding == (old(isAdding) && requests == [])
    {
      var r := AddProject(projects, projectIdInput, baseUrl, token, fetchedProject, fetchedBranches);
      requests := r.requests;
      SettleAddition(r);
    }

    /** The state a settled `handleAddProject` leaves; only a request that passed the checks lowered the flag. */
    method SettleAddition(r: Addition)
      modifies this`projectIdInput, this`projects, this`isAdding, this`alert
      ensures projects == r.projects && projectIdInput == r.projectIdInput && alert == Some(r.alert)
      ensures isAdding == (old(isAdding) && r.requests == [])
    {
      projects, projectIdInput, alert, isAdding := r.projects, r.projectIdInput, Some(r.alert), isAdding && r.requests == [];
    }

    /** `handleRemoveProject`: every entry with that id goes; the alert names the project. */
    method HandleRemoveProject(projectId: string, projectName: string)
      modifies this`projects, this`alert
      ensures projects == RemoveById(old(projects), projectId)
      ensures alert == Some(StatusMessage(SuccessMessage, RemovedMessage(projectName, projectId)))
    {
      projects := RemoveById(projects, projectId);
      alert := Some(StatusMessage(SuccessMessage, RemovedMessage(projectName, projectId)));
    }

    /**
     * `handleTrigger`: without a token only the alert changes; otherwise the one branch is
     * marked triggering, the pipeline is requested, and the branch ends succeeded with the
     * trigger time or errored with the message. No other branch or project changes.
     */
    method HandleTrigger(projectId: string, branchName: string, token: string, triggered: Outcome, at: string)
      returns (requests: seq<Request>)
      modifies this`projects, this`alert
      ensures token == "" ==>
                requests == [] && projects == old(projects) && alert == Some(StatusMessage(ErrorMessage, MissingToken))
      ensures token != "" ==> requests == [TriggerPipeline(projectId, branchName, token, GitLab.ResolveBaseUrl(Some(old(baseUrl))))]
      ensures token != "" && triggered.Done? ==>
                && projects == UpdateBranch(old(projects), projectId, branchName, AfterSuccess(at))
                && alert == Some(StatusMessage(SuccessMessage, TriggeredMessage(branchName)))
      ensures token != "" && triggered.Failed? ==>
                && projects == UpdateBranch(old(projects), projectId, branchName, AfterFailure(triggered.error))
                && alert == Some(StatusMessage(ErrorMessage, triggered.error))
    {
      if token == "" {
        alert := Some(StatusMessage(ErrorMessage, MissingToken));
        return [];
      }
      var base := GitLab.ResolveBaseUrl(Some(baseUrl));
      var before := projects;
      projects := UpdateBranch(projects, projectId, branchName, MarkTriggering);
      requests := [TriggerPipeline(projectId, branchName, token, base)];
      match triggered {
        case Done =>
          TriggerEndStates(at, "");
          UpdateBranchTwice(before, projectId, branchName, MarkTriggering, MarkSucceeded(at), AfterSuccess(at));
          projects := UpdateBranch(projects, projectId, branchName, MarkSucceeded(at));
          alert := Some(StatusMessage(SuccessMessage, TriggeredMessage(branchName)));
        case Failed(text) =>
          TriggerEndStates(at, text);
          UpdateBranchTwice(before, projectId, branchName, MarkTriggering, MarkErrored(text), AfterFailure(text));
          projects := UpdateBranch(projects, projectId, branchName, MarkErrored(text));
          alert := Some(StatusMessage(ErrorMessage, text));
      }
    }

    /** `handleSearchProjects` on the page: the searching flag is up only while the request runs. */
    method HandleSearchProjects(token: string, response: Result<seq<GitLab.GitLabProject>>) returns (requests: seq<Request>)
      modifies this`searchResults, this`isSearching, this`alert
      ensures var r := ProjectSearch(old(searchTerm), old(searchResults), old(baseUrl), token, response);
              requests == r.requests && searchResults == r.searchResults && alert == r.alert
      ensures isSearching == (old(isSearching) && requests == [])
    {
      var r := ProjectSearch(searchTerm, searchResults, baseUrl, token, response);
      requests := r.requests;
      SettleSearch(r);
    }

    /** The state a settled search leaves; only a request that was issued lowered the flag. */
    method SettleSearch(r: SearchOutcome)
      modifies this`searchResults, this`isSearching, this`alert
      ensures searchResults == r.searchResults && alert == r.alert
      ensures isSearching == (old(isSearching) && r.requests == [])
    {
      searchResults, alert, isSearching := r.searchResults, r.alert, isSearching && r.requests == [];
    }

    /** `handleSelectProject(project)` on the page: the loading marker is up only while the request runs. */
    method HandleSelectProject(project: GitLab.GitLabProject, token: string, fetchedBranches: Result<seq<GitLab.GitLabBranch>>)
      returns (requests: seq<Request>)
      modifies this`projects, this`searchResults, this`loadingProjectId, this`alert
      ensures var r := SelectProject(old(projects), old(searchResults), old(baseUrl), project, token, fetchedBranches);
              requests == r.requests && projects == r.projects && searchResults == r.searchResults && alert == Some(r.alert)
      ensures token == "" ==> loadingProjectId == old(loadingProjectId)
      ensures token != "" ==> loadingProjectId.None?
    {
      var r := SelectProject(projects, searchResults, baseUrl, project, token, fetchedBranches);
      if token != "" {
        loadingProjectId := Some(NatToString(project.id));
      }
      requests, projects, searchResults, alert := r.requests, r.projects, r.searchResults, Some(r.alert);
      if token != "" {
        loadingProjectId := None;
      }
    }
  }
}
