/**
 * The GitHub secrets page (app/github/secrets/page.tsx): a repository given as
 * "owner/repo", a KEY=VALUE text, a skip-empty switch and a base URL; the same status
 * table and per-entry sync as the GitLab variables page, each entry becoming a repository
 * secret. The GitHub token comes from the token hook and is a parameter; `outcomes(i)` is
 * what the i-th upsert throws.
 */
module GitHubSecretsPage {
  import opened Wrappers
  import opened Strings
  import opened Http
  import opened Types
  import opened EnvParser
  import opened EnvSync
  import GitHub

  const MalformedRepository: string := "Repository must be in the format owner/repo."
  const MissingToken: string := "GitHub token missing. Save it on the Tokens page first."
  const NoEntries: string := "Provide at least one secret in KEY=VALUE format."
  const Synced: string := "Secrets synced successfully."

  /** `baseUrl.trim() || githubApiBaseUrl`. */
  function ResolveBaseUrl(baseUrl: string): (resolved: string)
    ensures resolved != [] && IsTrimmed(resolved)
    ensures Trim(baseUrl) != [] ==> resolved == Trim(baseUrl)
    ensures Trim(baseUrl) == [] ==> resolved == GitHub.DefaultApi
  {
    var trimmed := Trim(baseUrl);
    if trimmed != [] then trimmed
    else
      GitHub.DefaultApiIsTrimmed();
      GitHub.DefaultApi
  }

  /** The first check of `handleSync` that fails, if any: repository, then token, then entries. */
  function GuardError(repositoryInput: string, githubToken: string, entries: seq<EnvEntry>): (error: Option<string>)
    ensures error.None? <==> GitHub.ParseRepositoryInput(Trim(repositoryInput)).Some? && githubToken != "" && entries != []
    ensures GitHub.ParseRepositoryInput(Trim(repositoryInput)).None? ==> error == Some(MalformedRepository)
    ensures GitHub.ParseRepositoryInput(Trim(repositoryInput)).Some? && githubToken == "" ==> error == Some(MissingToken)
    ensures GitHub.ParseRepositoryInput(Trim(repositoryInput)).Some? && githubToken != "" && entries == [] ==> error == Some(NoEntries)
  {
    if GitHub.ParseRepositoryInput(Trim(repositoryInput)).None? then Some(MalformedRepository)
    else if githubToken == "" then Some(MissingToken)
    else if entries == [] then Some(NoEntries)
    else None
  }

  /** `canSync`: a non-blank repository input, at least one entry and a token; whenever the handler would get past its checks, the button is enabled. */
  function CanSync(repositoryInput: string, githubToken: string, entries: seq<EnvEntry>): (can: bool)
    ensures GuardError(repositoryInput, githubToken, entries).None? ==> can
  {
    assert Split("", '/') == [""];
    Trim(repositoryInput) != "" && |entries| > 0 && githubToken != ""
  }

  /**
   * The converse does not hold: the button only checks that the repository input is not
   * blank, so a name without a "/" (such as "abc") enables it and the handler then refuses
   * it with the format message.
   */
  lemma CanSyncAdmitsMalformedRepository(repositoryInput: string, githubToken: string, entries: seq<EnvEntry>)
    requires repositoryInput != "" && IsTrimmed(repositoryInput) && '/' !in repositoryInput
    requires githubToken != "" && entries != []
    ensures CanSync(repositoryInput, githubToken, entries)
    ensures GuardError(repositoryInput, githubToken, entries) == Some(MalformedRepository)
  {
    TrimOfTrimmed(repositoryInput);
    SplitWithoutSeparator(repositoryInput, '/');
  }

  /** The secret inputs for the sent entries: the parsed repository, the entry as name and value, the token and the resolved base URL. */
  function SecretInputs(sent: seq<EnvEntry>, repo: GitHub.RepoRef, githubToken: string, baseUrl: string): (inputs: seq<GitHub.SecretInput>)
    ensures |inputs| == |sent|
    ensures forall i :: 0 <= i < |sent| ==>
              inputs[i] == GitHub.SecretInput(repo.owner, repo.repo, sent[i].key, sent[i].value, githubToken, Some(ResolveBaseUrl(baseUrl)))
  {
    seq(|sent|, i requires 0 <= i < |sent| =>
      GitHub.SecretInput(repo.owner, repo.repo, sent[i].key, sent[i].value, githubToken, Some(ResolveBaseUrl(baseUrl))))
  }

  /**
   * The work of `handleSync` on the page's inputs: a failed check leaves only its alert;
   * otherwise every entry is synced in order into the parsed repository, the statuses record
   * each result, and the alert is the last failure or the success message.
   */
  method Sync(repositoryInput: string, entries: seq<EnvEntry>, skipEmpty: bool, baseUrl: string,
              statuses: map<string, VariableStatus>, githubToken: string, outcomes: nat -> Option<Thrown>)
    returns (run: SyncRun<GitHub.SecretInput>)
    ensures GuardError(repositoryInput, githubToken, entries).Some? ==>
              run == SyncRun([], statuses, StatusMessage(ErrorMessage, GuardError(repositoryInput, githubToken, entries).value))
    ensures GuardError(repositoryInput, githubToken, entries).None? ==>
              && run.calls == SecretInputs(Sent(entries, skipEmpty), GitHub.ParseRepositoryInput(Trim(repositoryInput)).value, githubToken, baseUrl)
              && run.statuses == AssignAll(statuses, entries, FinalStatus(skipEmpty, outcomes))
              && run.alert == SyncAlert(entries, skipEmpty, outcomes, Synced)
  {
    var error := GuardError(repositoryInput, githubToken, entries);
    if error.Some? {
      return SyncRun([], statuses, StatusMessage(ErrorMessage, error.value));
    }
    var repo := GitHub.ParseRepositoryInput(Trim(repositoryInput)).value;
    var r := SyncEntries(statuses, entries, skipEmpty, outcomes);
    // Each failure replaced the alert as it happened; a clean run ends with the success message.
    var alert := if r.hasErrors then r.failure.GetOr(StatusMessage(SuccessMessage, Synced)) else StatusMessage(SuccessMessage, Synced);
    LastFailureIffErrors(entries, skipEmpty, outcomes);
    run := SyncRun(SecretInputs(r.sent, repo, githubToken, baseUrl), r.statuses, alert);
  }

  class SecretsPage {
    var repositoryInput: string
    var envText: string
    /** `envEntries`, the entries memoised from the text. */
    var envEntries: seq<EnvEntry>
    var skipEmpty: bool
    var baseUrl: string
    var statuses: map<string, VariableStatus>
    var isSyncing: bool
    var alert: Option<StatusMessage>

    /** The memoised entries are those of the current text. */
    ghost predicate Valid()
      reads this
    {
      envEntries == ParseEnvInput(envText)
    }

    /** The first render: empty inputs (no entries, by `ParseEmptyInput`), skipping on, the public GitHub API. */
    constructor()
      ensures repositoryInput == "" && envText == "" && envEntries == [] && skipEmpty && baseUrl == GitHub.DefaultApi
      ensures statuses == map[] && !isSyncing && alert.None?
    {
      repositoryInput := "";
      envText := "";
      envEntries := [];
      skipEmpty := true;
      baseUrl := GitHub.DefaultApi;
      statuses := map[];
      isSyncing := false;
      alert := None;
    }

    /** Editing the text re-parses it. */
    method SetEnvText(text: string)
      modifies this`envText, this`envEntries
      ensures envText == text && Valid()
    {
      envText := text;
      envEntries := ParseEnvInput(text);
    }

    /** The status effect, run whenever the entries or the switch change. */
    method RefreshStatuses()
      modifies this`statuses
      ensures statuses == AssignAll(map[], envEntries, InitialStatus(skipEmpty))
    {
      statuses := InitialStatuses(envEntries, skipEmpty);
    }

    /** `handleSync` on the page: the syncing flag is up only while the requests run. */
    method HandleSync(githubToken: string, outcomes: nat -> Option<Thrown>) returns (calls: seq<GitHub.SecretInput>)
      modifies this`statuses, this`alert, this`isSyncing
      ensures var error := GuardError(old(repositoryInput), githubToken, old(envEntries));
              error.Some? ==>
                calls == [] && statuses == old(statuses) && isSyncing == old(isSyncing)
                && alert == Some(StatusMessage(ErrorMessage, error.value))
      ensures GuardError(old(repositoryInput), githubToken, old(envEntries)).None? ==>
                && !isSyncing
                && calls == SecretInputs(Sent(old(envEntries), old(skipEmpty)), GitHub.ParseRepositoryInput(Trim(old(repositoryInput))).value, githubToken, old(baseUrl))
                && statuses == AssignAll(old(statuses), old(envEntries), FinalStatus(old(skipEmpty), outcomes))
                && alert == Some(SyncAlert(old(envEntries), old(skipEmpty), outcomes, Synced))
    {
      var run := Sync(repositoryInput, envEntries, skipEmpty, baseUrl, statuses, githubToken, outcomes);
      calls := run.calls;
      SettleSync(run, GuardError(repositoryInput, githubToken, envEntries).None?);
    }

    /** The state a sync leaves behind; the flag was up only while a started sync ran. */
    method SettleSync(run: SyncRun<GitHub.SecretInput>, started: bool)
      modifies this`statuses, this`alert, this`isSyncing
      ensures statuses == run.statuses && alert == Some(run.alert)
      ensures isSyncing == (old(isSyncing) && !started)
    {
      statuses, alert, isSyncing := run.statuses, Some(run.alert), isSyncing && !started;
    }
  }
}
