/**
 * The settings page (app/settings/page.tsx): the tokens page's two token inputs plus the
 * GitLab and GitHub API base URLs. Saving writes the trimmed tokens through the token hook
 * and the base URLs, a blank one replaced by the provider's public API, through the
 * settings hook; clearing empties the tokens and leaves the URLs alone.
 */
module SettingsPage {
  import opened Wrappers
  import opened Strings
  import opened TokenService
  import opened TokenStorageHook
  import opened SettingsService
  import opened ApiSettingsHook
  import TokensPage
  import GitLab
  import GitHub

  const SavedText: string := "Tokens saved"
  const ClearedText: string := "Tokens cleared"

  /** The four inputs of the page. */
  datatype Inputs = Inputs(gitlabToken: string, githubToken: string, gitlabBaseUrl: string, githubBaseUrl: string)

  /** `input.trim() || fallback`. */
  function UrlOrDefault(input: string, fallback: string): (url: string)
    ensures Trim(input) != "" ==> url == Trim(input)
    ensures Trim(input) == "" ==> url == fallback
  {
    if Trim(input) != "" then Trim(input) else fallback
  }

  /** The partial `handleSave` hands to `updateSettings`: both URLs, blank ones defaulted; the account id is absent. */
  function SavedSettings(inputs: Inputs): (partial: PartialSettings)
    ensures partial.gitlabBaseUrl == Some(UrlOrDefault(inputs.gitlabBaseUrl, GitLab.DefaultApi))
    ensures partial.githubBaseUrl == Some(UrlOrDefault(inputs.githubBaseUrl, GitHub.DefaultApi))
    ensures partial.cloudflareAccountId.None?
  {
    PartialSettings(Some(UrlOrDefault(inputs.gitlabBaseUrl, GitLab.DefaultApi)),
                    Some(UrlOrDefault(inputs.githubBaseUrl, GitHub.DefaultApi)),
                    None)
  }

  /** The tokens `handleSave` writes: the trimmed GitLab and GitHub inputs; the Cloudflare token is kept. */
  function SavedTokens(stored: Tokens, inputs: Inputs): (saved: Tokens)
    ensures saved.gitlab == Trim(inputs.gitlabToken) && saved.github == Trim(inputs.githubToken)
    ensures saved.cloudflare == stored.cloudflare
  {
    stored.With(GitLab, Trim(inputs.gitlabToken)).With(GitHub, Trim(inputs.githubToken))
  }

  /** Saving never stores a blank base URL. */
  lemma SavedUrlsAreNeverBlank(settings: ApiSettings, inputs: Inputs)
    ensures var saved := Merge(settings, SavedSettings(inputs));
            saved.gitlabBaseUrl != "" && saved.githubBaseUrl != ""
            && saved.cloudflareAccountId == settings.cloudflareAccountId
  {
  }

  /**
   * `hasChanges` as written: a trimmed input differs from its stored value. A blank URL
   * input is compared as blank, although a save stores the default in its place.
   */
  function HasChangesAsWritten(isReady: bool, tokens: Tokens, settings: ApiSettings, inputs: Inputs): (changed: bool)
    ensures !isReady ==> !changed
  {
    isReady && (
      || tokens.gitlab != Trim(inputs.gitlabToken)
      || tokens.github != Trim(inputs.githubToken)
      || settings.gitlabBaseUrl != Trim(inputs.gitlabBaseUrl)
      || settings.githubBaseUrl != Trim(inputs.githubBaseUrl))
  }

  /**
   * With a blank GitLab URL input over the stored default, saving stores the default again,
   * so nothing the input-loading effect watches changes, and the page still reports changes
   * right after the save: the Save button stays enabled.
   */
  lemma BlankUrlStaysChangedAfterSave(tokens: Tokens, settings: ApiSettings, inputs: Inputs)
    requires settings.gitlabBaseUrl == GitLab.DefaultApi && Trim(inputs.gitlabBaseUrl) == ""
    ensures Merge(settings, SavedSettings(inputs)).gitlabBaseUrl == settings.gitlabBaseUrl
    ensures HasChangesAsWritten(true, SavedTokens(tokens, inputs), Merge(settings, SavedSettings(inputs)), inputs)
    ensures tokens == SavedTokens(tokens, inputs) && settings.githubBaseUrl == UrlOrDefault(inputs.githubBaseUrl, GitHub.DefaultApi) ==>
              Merge(settings, SavedSettings(inputs)) == settings
  {
    assert GitLab.DefaultApi != "";
  }

  /** `hasChanges` comparing each URL input the way a save would store it. */
  function HasChanges(isReady: bool, tokens: Tokens, settings: ApiSettings, inputs: Inputs): (changed: bool)
    ensures !isReady ==> !changed
  {
    isReady && (
      || tokens.gitlab != Trim(inputs.gitlabToken)
      || tokens.github != Trim(inputs.githubToken)
      || settings.gitlabBaseUrl != UrlOrDefault(inputs.gitlabBaseUrl, GitLab.DefaultApi)
      || settings.githubBaseUrl != UrlOrDefault(inputs.githubBaseUrl, GitHub.DefaultApi))
  }

  /** After a save the page reports no changes. */
  lemma SaveClearsChanges(isReady: bool, tokens: Tokens, settings: ApiSettings, inputs: Inputs)
    ensures !HasChanges(isReady, SavedTokens(tokens, inputs), Merge(settings, SavedSettings(inputs)), inputs)
  {
  }

  /** The two agree whenever neither URL input is blank. */
  lemma HasChangesAgreesOnFilledUrls(isReady: bool, tokens: Tokens, settings: ApiSettings, inputs: Inputs)
    requires Trim(inputs.gitlabBaseUrl) != "" && Trim(inputs.githubBaseUrl) != ""
    ensures HasChanges(isReady, tokens, settings, inputs) == HasChangesAsWritten(isReady, tokens, settings, inputs)
  {
  }

  /**
   * The writes of `handleSave`: the trimmed tokens, GitLab first, then both URLs. Afterwards
   * the corrected `HasChanges` is false; the page's own comparison is false too when neither
   * URL input is blank.
   */
  method SaveInputs(storage: TokenStorage, apiSettings: ApiSettingsState, inputs: Inputs,
                    gitlabFails: bool, githubFails: bool, failing: set<string>)
    requires storage.Valid() && apiSettings.db == storage.db && apiSettings.Valid()
    modifies storage, apiSettings, storage.db.tokens, storage.db.settings
    ensures storage.Valid() && apiSettings.db == storage.db && apiSettings.Valid()
    ensures storage.tokens == SavedTokens(old(storage.tokens), inputs)
    ensures apiSettings.settings == Merge(old(apiSettings.settings), SavedSettings(inputs))
    ensures storage.isReady == old(storage.isReady)
    ensures !HasChanges(storage.isReady, storage.tokens, apiSettings.settings, inputs)
    ensures Trim(inputs.gitlabBaseUrl) != "" && Trim(inputs.githubBaseUrl) != "" ==>
              !HasChangesAsWritten(storage.isReady, storage.tokens, apiSettings.settings, inputs)
  {
    var tokensBefore, settingsBefore := storage.tokens, apiSettings.settings;
    TokensPage.SaveTrimmed(storage, inputs.gitlabToken, inputs.githubToken, gitlabFails, githubFails);
    assert apiSettings.settings == settingsBefore;
    var partial := SavedSettings(inputs);
    apiSettings.UpdateSettings(partial, failing);
    SaveClearsChanges(storage.isReady, tokensBefore, settingsBefore, inputs);
    if Trim(inputs.gitlabBaseUrl) != "" && Trim(inputs.githubBaseUrl) != "" {
      HasChangesAgreesOnFilledUrls(storage.isReady, storage.tokens, apiSettings.settings, inputs);
    }
  }

  class SettingsPage {
    const storage: TokenStorage
    const apiSettings: ApiSettingsState
    var gitlabToken: string
    var githubToken: string
    var gitlabBaseUrl: string
    var githubBaseUrl: string
    var feedback: Option<string>
    var feedbackType: Option<TokensPage.FeedbackKind>

    /** Both hooks share the one database. */
    ghost predicate Valid()
      reads this, storage, apiSettings, storage.db, storage.db.tokens, storage.db.settings, storage.db.projects
    {
      storage.Valid() && apiSettings.db == storage.db && apiSettings.Valid()
    }

    function CurrentInputs(): (inputs: Inputs)
      reads this
      ensures inputs.gitlabToken == gitlabToken && inputs.githubToken == githubToken
      ensures inputs.gitlabBaseUrl == gitlabBaseUrl && inputs.githubBaseUrl == githubBaseUrl
    {
      Inputs(gitlabToken, githubToken, gitlabBaseUrl, githubBaseUrl)
    }

    /** The first render: empty inputs, no feedback. */
    constructor(storage: TokenStorage, apiSettings: ApiSettingsState)
      requires storage.Valid() && apiSettings.db == storage.db
      ensures this.storage == storage && this.apiSettings == apiSettings && Valid()
      ensures gitlabToken == "" && githubToken == "" && gitlabBaseUrl == "" && githubBaseUrl == ""
      ensures feedback.None? && feedbackType.None?
    {
      this.storage := storage;
      this.apiSettings := apiSettings;
      gitlabToken := "";
      githubToken := "";
      gitlabBaseUrl := "";
      githubBaseUrl := "";
      feedback := None;
      feedbackType := None;
    }

    /** The effect that copies the stored tokens and URLs into the inputs once the token hook is ready. */
    method LoadInputs()
      modifies this`gitlabToken, this`githubToken, this`gitlabBaseUrl, this`githubBaseUrl
      ensures storage.isReady ==>
                CurrentInputs() == Inputs(storage.tokens.gitlab, storage.tokens.github,
                                          apiSettings.settings.gitlabBaseUrl, apiSettings.settings.githubBaseUrl)
      ensures !storage.isReady ==> CurrentInputs() == old(CurrentInputs())
    {
      if storage.isReady {
        gitlabToken := storage.tokens.gitlab;
        githubToken := storage.tokens.github;
        gitlabBaseUrl := apiSettings.settings.gitlabBaseUrl;
        githubBaseUrl := apiSettings.settings.githubBaseUrl;
      }
    }

    /**
     * `handleSave`: the trimmed tokens go through the token hook, GitLab first, then both
     * URLs through the settings hook; the inputs are left as typed (the method does not
     * modify them), so afterwards the page shows no changes.
     */
    method HandleSave(gitlabFails: bool, githubFails: bool, failing: set<string>)
      requires Valid()
      modifies this`feedback, this`feedbackType, storage, apiSettings, storage.db.tokens, storage.db.settings
      ensures Valid()
      ensures storage.tokens == SavedTokens(old(storage.tokens), old(CurrentInputs()))
      ensures apiSettings.settings == Merge(old(apiSettings.settings), SavedSettings(old(CurrentInputs())))
      ensures storage.isReady == old(storage.isReady)
      ensures !HasChanges(storage.isReady, storage.tokens, apiSettings.settings, old(CurrentInputs()))
      ensures Trim(old(gitlabBaseUrl)) != "" && Trim(old(githubBaseUrl)) != "" ==>
                !HasChangesAsWritten(storage.isReady, storage.tokens, apiSettings.settings, old(CurrentInputs()))
      ensures feedback == Some(SavedText) && feedbackType == Some(TokensPage.Saved)
    {
      var inputs := CurrentInputs();
      feedback, feedbackType := Some(SavedText), Some(TokensPage.Saved);
      SaveInputs(storage, apiSettings, inputs, gitlabFails, githubFails, failing);
    }

    /** `handleClear`: every stored token and both token inputs are emptied; the URL inputs stay as they are. */
    method HandleClear(writeFails: bool)
      requires Valid()
      modifies this`gitlabToken, this`githubToken, this`feedback, this`feedbackType, storage, storage.db.tokens
      ensures Valid()
      ensures storage.tokens == DefaultTokens && storage.isReady == old(storage.isReady)
      ensures gitlabToken == "" && githubToken == ""
      ensures gitlabBaseUrl == old(gitlabBaseUrl) && githubBaseUrl == old(githubBaseUrl)
      ensures TokensPage.ClearDisabled(storage.isReady, storage.tokens)
      ensures !writeFails ==> storage.InSync()
      ensures feedback == Some(ClearedText) && feedbackType == Some(TokensPage.Cleared)
    {
      storage.ClearTokens(writeFails);
      gitlabToken := "";
      githubToken := "";
      feedback := Some(ClearedText);
      feedbackType := Some(TokensPage.Cleared);
    }

    /** The timer clears the feedback, and the feedback effect then clears its kind. */
    method FeedbackExpired()
      modifies this`feedback, this`feedbackType
      ensures feedback.None? && feedbackType.None?
    {
      feedback := None;
      feedbackType := None;
    }
  }
}
