/**
 * The GitLab project search hook (hooks/useGitlabSearch.ts): a search box whose handler
 * checks the query and then the token before issuing one search request, and an add
 * handler that hands a result to the caller and prunes it from the results. The alert the
 * hook reports through its callbacks is held in the `alert` field; the search response
 * and the caller's add step are inputs. The request itself is `GitLab.SearchPath` against
 * the resolved base URL.
 */
module GitlabSearchHook {
  import opened Wrappers
  import opened Strings
  import opened Seqs
  import opened Http
  import opened Types
  import opened GitLab

  const EmptyQueryMessage: string := "Enter a project name to search."
  const MissingTokenMessage: string := "GitLab token missing. Save it on the Settings page first."

  /** The alert for a search that found nothing, the query between curly quotes. */
  function NoMatchMessage(query: string): string {
    "No projects matched \U{201C}" + query + "\U{201D}."
  }

  /** A `searchGitLabProjects` call: the query, the token and the resolved base URL. */
  datatype SearchRequest = SearchRequest(query: string, token: string, baseUrl: string)

  /** `prev.filter(item => item.id !== project.id)`: that project goes, the others stay in order. */
  function PruneResults(results: seq<GitLabProject>, id: nat): (rest: seq<GitLabProject>)
    ensures forall i :: 0 <= i < |rest| ==> rest[i].id != id && rest[i] in results
    ensures forall i :: 0 <= i < |results| && results[i].id != id ==> results[i] in rest
    ensures (forall i :: 0 <= i < |results| ==> results[i].id != id) ==> rest == results
  {
    Filter(results, (item: GitLabProject) => item.id != id)
  }

  /** Pruning a concatenation prunes each part, so the survivors keep their relative order. */
  lemma PruneKeepsOrder(a: seq<GitLabProject>, b: seq<GitLabProject>, id: nat)
    ensures PruneResults(a + b, id) == PruneResults(a, id) + PruneResults(b, id)
  {
    FilterAppend(a, b, (item: GitLabProject) => item.id != id);
  }

  /** What `handleSearch` leaves: its requests, the results and the alert. */
  datatype SearchOutcome = SearchOutcome(calls: seq<SearchRequest>, searchResults: seq<GitLabProject>, alert: Option<StatusMessage>)

  /**
   * `handleSearch`: an empty trimmed query, then a missing token, stop it with an alert and
   * no request; otherwise the one search request is issued, its results replace the list,
   * an empty result is reported, and a failure keeps the list and shows its message.
   */
  function Search(searchTerm: string, searchResults: seq<GitLabProject>, gitlabToken: string, baseUrl: Option<string>,
                  response: Result<seq<GitLabProject>>)
    : (r: SearchOutcome)
    ensures r.calls == [] <==> Trim(searchTerm) == "" || gitlabToken == ""
    ensures Trim(searchTerm) == "" ==>
              r == SearchOutcome([], searchResults, Some(StatusMessage(ErrorMessage, EmptyQueryMessage)))
    ensures Trim(searchTerm) != "" && gitlabToken == "" ==>
              r == SearchOutcome([], searchResults, Some(StatusMessage(ErrorMessage, MissingTokenMessage)))
    ensures Trim(searchTerm) != "" && gitlabToken != "" ==>
              r.calls == [SearchRequest(Trim(searchTerm), gitlabToken, ResolveBaseUrl(baseUrl))]
    ensures Trim(searchTerm) != "" && gitlabToken != "" && response.Ok? ==>
              r.searchResults == response.value
              && r.alert == (if response.value == [] then Some(StatusMessage(ErrorMessage, NoMatchMessage(Trim(searchTerm)))) else None)
    ensures Trim(searchTerm) != "" && gitlabToken != "" && response.Err? ==>
              r.searchResults == searchResults && r.alert == Some(StatusMessage(ErrorMessage, response.error))
  {
    var query := Trim(searchTerm);
    if query == "" then SearchOutcome([], searchResults, Some(StatusMessage(ErrorMessage, EmptyQueryMessage)))
    else if gitlabToken == "" then SearchOutcome([], searchResults, Some(StatusMessage(ErrorMessage, MissingTokenMessage)))
    else
      var calls := [SearchRequest(query, gitlabToken, ResolveBaseUrl(baseUrl))];
      match response
      case Ok(results) =>
        SearchOutcome(calls, results, if |results| == 0 then Some(StatusMessage(ErrorMessage, NoMatchMessage(query))) else None)
      case Err(text) => SearchOutcome(calls, searchResults, Some(StatusMessage(ErrorMessage, text)))
  }

  /** Padding around the query changes nothing: the same request, results and alert. */
  lemma SearchIgnoresPadding(searchTerm: string, searchResults: seq<GitLabProject>, gitlabToken: string, baseUrl: Option<string>,
                             response: Result<seq<GitLabProject>>)
    ensures Search(searchTerm, searchResults, gitlabToken, baseUrl, response)
         == Search(Trim(searchTerm), searchResults, gitlabToken, baseUrl, response)
  {
    TrimIdempotent(searchTerm);
  }

  class GitlabSearch {
    var searchTerm: string
    var searchResults: seq<GitLabProject>
    var isSearching: bool
    var loadingProjectId: Option<string>
    var alert: Option<StatusMessage>

    constructor()
      ensures searchTerm == "" && searchResults == [] && !isSearching && loadingProjectId.None? && alert.None?
    {
      searchTerm := "";
      searchResults := [];
      isSearching := false;
      loadingProjectId := None;
      alert := None;
    }

    /** `handleSearch` in the hook: the searching flag is up only while the request runs. */
    method HandleSearch(gitlabToken: string, baseUrl: Option<string>, response: Result<seq<GitLabProject>>)
      returns (calls: seq<SearchRequest>)
      modifies this
      ensures searchTerm == old(searchTerm) && loadingProjectId == old(loadingProjectId)
      ensures var r := Search(old(searchTerm), old(searchResults), gitlabToken, baseUrl, response);
              calls == r.calls && searchResults == r.searchResults && alert == r.alert
      ensures isSearching == (old(isSearching) && calls == [])
    {
      var r := Search(searchTerm, searchResults, gitlabToken, baseUrl, response);
      calls := r.calls;
      SettleSearch(r);
    }

    /** The state a settled search leaves; only a request that was issued lowered the flag. */
    method SettleSearch(r: SearchOutcome)
      modifies this`searchResults, this`alert, this`isSearching
      ensures searchResults == r.searchResults && alert == r.alert
      ensures isSearching == (old(isSearching) && r.calls == [])
    {
      searchResults, alert, isSearching := r.searchResults, r.alert, isSearching && r.calls == [];
    }

    /**
     * `handleAddProject(project, alreadyAdded)`: without a token nothing is added; otherwise
     * the alert is cleared and the caller's add step runs, and when it succeeds for a project
     * not yet added that project leaves the results. `addedAlert` is the alert the add step
     * itself sets through the shared alert when it succeeds (the project page reports the
     * branches it loaded). The loading marker is cleared at the end either way.
     */
    method HandleAddProject(project: GitLabProject, alreadyAdded: bool, gitlabToken: string, added: Outcome,
                            addedAlert: Option<StatusMessage>)
      returns (addCalled: bool)
      modifies this
      ensures addCalled <==> gitlabToken != ""
      ensures searchTerm == old(searchTerm) && isSearching == old(isSearching)
      ensures gitlabToken == "" ==>
                alert == Some(StatusMessage(ErrorMessage, MissingTokenMessage))
                && searchResults == old(searchResults) && loadingProjectId == old(loadingProjectId)
      ensures gitlabToken != "" ==> loadingProjectId.None?
      ensures gitlabToken != "" && added.Done? ==>
                alert == addedAlert && searchResults == (if alreadyAdded then old(searchResults) else PruneResults(old(searchResults), project.id))
      ensures gitlabToken != "" && added.Failed? ==>
                alert == Some(StatusMessage(ErrorMessage, added.error)) && searchResults == old(searchResults)
    {
      if gitlabToken == "" {
        alert := Some(StatusMessage(ErrorMessage, MissingTokenMessage));
        return false;
      }
      loadingProjectId := Some(NatToString(project.id));
      alert := None;
      addCalled := true;
      match added {
        case Done =>
          alert := addedAlert;
          if !alreadyAdded {
            searchResults := PruneResults(searchResults, project.id);
          }
        case Failed(text) =>
          alert := Some(StatusMessage(ErrorMessage, text));
      }
      loadingProjectId := None;
    }
  }
}
