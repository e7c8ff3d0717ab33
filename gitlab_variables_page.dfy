/**
 * The GitLab variables page (app/gitlab/variables/page.tsx): a project id, a KEY=VALUE
 * text, a skip-empty switch and a base URL; a status per key that follows the text, and a
 * sync handler that checks its inputs and then upserts each entry in order. The GitLab
 * token comes from the token hook and is a parameter; `outcomes(i)` is what the i-th
 * upsert throws.
 */
module GitLabVariablesPage {
  import opened Wrappers
  import opened Strings
  import opened Http
  import opened Types
  import opened EnvParser
  import opened EnvSync
  import GitLab

  const ProjectIdRequired: string := "Project ID is required."
  const MissingToken: string := "GitLab token missing. Save it on the Tokens page first."
  const NoEntries: string := "Provide at least one environment variable."
  const Synced: string := "Variables synced successfully."

  /** The first check of `handleSync` that fails, if any: project id, then token, then entries. */
  function GuardError(projectId: string, gitlabToken: string, entries: seq<EnvEntry>): (error: Option<string>)
    ensures error.None? <==> Trim(projectId) != "" && gitlabToken != "" && entries != []
    ensures Trim(projectId) == "" ==> error == Some(ProjectIdRequired)
    ensures Trim(projectId) != "" && gitlabToken == "" ==> error == Some(MissingToken)
    ensures Trim(projectId) != "" && gitlabToken != "" && entries == [] ==> error == Some(NoEntries)
  {
    if Trim(projectId) == "" then Some(ProjectIdRequired)
    else if gitlabToken == "" then Some(MissingToken)
    else if entries == [] then Some(NoEntries)
    else None
  }

  /** `canSync`: a project id, at least one entry and a token; the button is enabled exactly when the handler would get past its checks. */
  function CanSync(projectId: string, gitlabToken: string, entries: seq<EnvEntry>): (can: bool)
    ensures can <==> GuardError(projectId, gitlabToken, entries).None?
  {
    Trim(projectId) != "" && |entries| > 0 && gitlabToken != ""
  }

  /** The upsert inputs for the sent entries: the trimmed project id, the token, the entry and the resolved base URL. */
  function UpsertInputs(sent: seq<EnvEntry>, projectId: string, gitlabToken: string, baseUrl: string): (inputs: seq<GitLab.UpsertInput>)
    ensures |inputs| == |sent|
    ensures forall i :: 0 <= i < |sent| ==>
              inputs[i] == GitLab.UpsertInput(Trim(projectId), gitlabToken, GitLab.VariablePayload(sent[i].key, sent[i].value),
                                              Some(GitLab.ResolveBaseUrl(Some(baseUrl))))
  {
    seq(|sent|, i requires 0 <= i < |sent| =>
      GitLab.UpsertInput(Trim(projectId), gitlabToken, GitLab.VariablePayload(sent[i].key, sent[i].value),
                         Some(GitLab.ResolveBaseUrl(Some(baseUrl)))))
  }

  /**
   * The work of `handleSync` on the page's inputs: a failed check leaves only its alert;
   * otherwise every entry is synced in order, the statuses record each result, and the
   * alert is the last failure or the success message.
   */
  method Sync(projectId: string, entries: seq<EnvEntry>, skipEmpty: bool, baseUrl: string,
              statuses: map<string, VariableStatus>, gitlabToken: string, outcomes: nat -> Option<Thrown>)
    returns (run: SyncRun<GitLab.UpsertInput>)
    ensures GuardError(projectId, gitlabToken, entries).Some? ==>
              run == SyncRun([], statuses, StatusMessage(ErrorMessage, GuardError(projectId, gitlabToken, entries).value))
    ensures GuardError(projectId, gitlabToken, entries).None? ==>
              && run.calls == UpsertInputs(Sent(entries, skipEmpty), projectId, gitlabToken, baseUrl)
              && run.statuses == AssignAll(statuses, entries, FinalStatus(skipEmpty, outcomes))
              && run.alert == SyncAlert(entries, skipEmpty, outcomes, Synced)
  {
    var error := GuardError(projectId, gitlabToken, entries);
    if error.Some? {
      return SyncRun([], statuses, StatusMessage(ErrorMessage, error.value));
    }
    var r := SyncEntries(statuses, entries, skipEmpty, outcomes);
    // Each failure replaced the alert as it happened; a clean run ends with the success message.
    var alert := if r.hasErrors then r.failure.GetOr(StatusMessage(SuccessMessage, Synced)) else StatusMessage(SuccessMessage, Synced);
    LastFailureIffErrors(entries, skipEmpty, outcomes);
    run := SyncRun(UpsertInputs(r.sent, projectId, gitlabToken, baseUrl), r.statuses, alert);
  }

  class VariablesPage {
    var projectId: string
    var envText: string
    /** `envEntries`, the entries memoised from the text. */
    var envEntries: seq<EnvEntry>
    var skipEmpty: bool
    var baseUrl: string
    var statuses: map<string, VariableStatus>
    var isSyncing: bool
    var alert: Option<StatusMessage>

    /** The memoised entries are those of the current text. */
    ghost predicate Valid()
      reads this
    {
      envEntries == ParseEnvInput(envText)
    }

    /** The first render: empty inputs (no entries, by `ParseEmptyInput`), skipping on, the public GitLab API. */
    constructor()
      ensures projectId == "" && envText == "" && envEntries == [] && skipEmpty && baseUrl == GitLab.DefaultApi
      ensures statuses == map[] && !isSyncing && alert.None?
    {
      projectId := "";
      envText := "";
      envEntries := [];
      skipEmpty := true;
      baseUrl := GitLab.DefaultApi;
      statuses := map[];
      isSyncing := false;
      alert := None;
    }

    /** Editing the text re-parses it. */
    method SetEnvText(text: string)
      modifies this`envText, this`envEntries
      ensures envText == text && Valid()
    {
      envText := text;
      envEntries := ParseEnvInput(text);
    }

    /** The status effect, run whenever the entries or the switch change. */
    method RefreshStatuses()
      modifies this`statuses
      ensures statuses == AssignAll(map[], envEntries, InitialStatus(skipEmpty))
    {
      statuses := InitialStatuses(envEntries, skipEmpty);
    }

    /** `handleSync` on the page: the syncing flag is up only while the requests run. */
    method HandleSync(gitlabToken: string, outcomes: nat -> Option<Thrown>) returns (calls: seq<GitLab.UpsertInput>)
      modifies this`statuses, this`alert, this`isSyncing
      ensures var error := GuardError(old(projectId), gitlabToken, old(envEntries));
              error.Some? ==>
                calls == [] && statuses == old(statuses) && isSyncing == old(isSyncing)
                && alert == Some(StatusMessage(ErrorMessage, error.value))
      ensures GuardError(old(projectId), gitlabToken, old(envEntries)).None? ==>
                && !isSyncing
                && calls == UpsertInputs(Sent(old(envEntries), old(skipEmpty)), old(projectId), gitlabToken, old(baseUrl))
                && statuses == AssignAll(old(statuses), old(envEntries), FinalStatus(old(skipEmpty), outcomes))
                && alert == Some(SyncAlert(old(envEntries), old(skipEmpty), outcomes, Synced))
    {
      var run := Sync(projectId, envEntries, skipEmpty, baseUrl, statuses, gitlabToken, outcomes);
      calls := run.calls;
      SettleSync(run, GuardError(projectId, gitlabToken, envEntries).None?);
    }

    /** The state a sync leaves behind; the flag was up only while a started sync ran. */
    method SettleSync(run: SyncRun<GitLab.UpsertInput>, started: bool)
      modifies this`statuses, this`alert, this`isSyncing
      ensures statuses == run.statuses && alert == Some(run.alert)
      ensures isSyncing == (old(isSyncing) && !started)
    {
      statuses, alert, isSyncing := run.statuses, Some(run.alert), isSyncing && !started;
    }
  }
}
