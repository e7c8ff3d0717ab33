/**
 * The tokens page (app/tokens/page.tsx): two inputs for the GitLab and GitHub tokens, filled
 * from the token hook once it is ready, a save that writes the trimmed inputs through the
 * hook, and a clear that empties the inputs and every stored token. The feedback chip's
 * three-second timer is the `FeedbackExpired` event.
 */
module TokensPage {
  import opened Wrappers
  import opened Strings
  import opened TokenService
  import opened TokenStorageHook

  const SavedText: string := "Tokens saved successfully."
  const ClearedText: string := "Tokens cleared."

  /** `feedbackType`: which chip colour the feedback takes. */
  datatype FeedbackKind = Saved | Cleared

  /** `hasChanges`: nothing before the hook is ready, then some trimmed input differs from its stored token. */
  function HasChanges(isReady: bool, stored: Tokens, gitlabInput: string, githubInput: string): (changed: bool)
    ensures !isReady ==> !changed
  {
    isReady && (stored.gitlab != Trim(gitlabInput) || stored.github != Trim(githubInput))
  }

  /** Whitespace around the inputs never counts as a change. */
  lemma HasChangesIgnoresPadding(isReady: bool, stored: Tokens, gitlabInput: string, githubInput: string)
    ensures HasChanges(isReady, stored, gitlabInput, githubInput) == HasChanges(isReady, stored, Trim(gitlabInput), Trim(githubInput))
  {
    TrimIdempotent(gitlabInput);
    TrimIdempotent(githubInput);
  }

  /** Inputs copied from the stored tokens show no change exactly when those tokens carry no surrounding whitespace. */
  lemma LoadedInputsHaveNoChanges(stored: Tokens)
    ensures !HasChanges(true, stored, stored.gitlab, stored.github) <==> IsTrimmed(stored.gitlab) && IsTrimmed(stored.github)
  {
    if IsTrimmed(stored.gitlab) {
      TrimOfTrimmed(stored.gitlab);
    }
    if IsTrimmed(stored.github) {
      TrimOfTrimmed(stored.github);
    }
  }

  /** The Clear button: disabled before the hook is ready or while the GitLab and GitHub tokens are both empty. */
  function ClearDisabled(isReady: bool, stored: Tokens): (disabled: bool)
    ensures disabled <==> !isReady || (stored.gitlab == "" && stored.github == "")
    ensures stored == DefaultTokens ==> disabled
  {
    !isReady || (stored.gitlab == "" && stored.github == "")
  }

  /** The Clear button ignores the Cloudflare token: a page holding only that token cannot clear it. */
  lemma ClearDisabledWithOnlyCloudflareToken(cloudflare: string)
    requires cloudflare != ""
    ensures var stored := Tokens("", "", cloudflare);
            HasTokens(stored) && ClearDisabled(true, stored)
  {
    assert Tokens("", "", cloudflare).Get(Cloudflare) != "";
  }

  /** The Save button: disabled before the hook is ready or without changes. */
  function SaveDisabled(isReady: bool, stored: Tokens, gitlabInput: string, githubInput: string): (disabled: bool)
    ensures disabled <==> !HasChanges(isReady, stored, gitlabInput, githubInput)
  {
    !isReady || !HasChanges(isReady, stored, gitlabInput, githubInput)
  }

  /** The two `setToken` calls of a save: the GitLab value, then the GitHub value. */
  method SetBoth(storage: TokenStorage, gitlab: string, github: string, gitlabFails: bool, githubFails: bool)
    requires storage.Valid()
    modifies storage, storage.db.tokens
    ensures storage.Valid()
    ensures storage.tokens == old(storage.tokens).With(GitLab, gitlab).With(GitHub, github)
    ensures storage.tokens.gitlab == gitlab && storage.tokens.github == github
    ensures storage.isReady == old(storage.isReady)
    ensures !gitlabFails && !githubFails && old(storage.InSync()) ==> storage.InSync()
  {
    ghost var synced := storage.InSync();
    storage.SetToken(GitLab, gitlab, gitlabFails);
    var between := storage.tokens;
    ghost var syncedBetween := storage.InSync();
    assert !gitlabFails && synced ==> syncedBetween;
    storage.SetToken(GitHub, github, githubFails);
    assert storage.tokens == between.With(GitHub, github);
    assert storage.tokens.Get(GitLab) == gitlab && storage.tokens.Get(GitHub) == github;
  }

  /** A save writes the trimmed GitLab input, then the trimmed GitHub input. */
  method SaveTrimmed(storage: TokenStorage, gitlabInput: string, githubInput: string, gitlabFails: bool, githubFails: bool)
    requires storage.Valid()
    modifies storage, storage.db.tokens
    ensures storage.Valid()
    ensures storage.tokens == old(storage.tokens).With(GitLab, Trim(gitlabInput)).With(GitHub, Trim(githubInput))
    ensures storage.tokens.gitlab == Trim(gitlabInput) && storage.tokens.github == Trim(githubInput)
    ensures storage.isReady == old(storage.isReady)
    ensures !gitlabFails && !githubFails && old(storage.InSync()) ==> storage.InSync()
  {
    SetBoth(storage, Trim(gitlabInput), Trim(githubInput), gitlabFails, githubFails);
  }

  class TokensPage {
    const storage: TokenStorage
    var gitlabToken: string
    var githubToken: string
    var feedback: Option<string>
    var feedbackType: Option<FeedbackKind>

    ghost predicate Valid()
      reads this, storage, storage.db, storage.db.tokens, storage.db.settings, storage.db.projects
    {
      storage.Valid()
    }

    /** The first render: empty inputs, no feedback. */
    constructor(storage: TokenStorage)
      requires storage.Valid()
      ensures this.storage == storage && Valid()
      ensures gitlabToken == "" && githubToken == "" && feedback.None? && feedbackType.None?
    {
      this.storage := storage;
      gitlabToken := "";
      githubToken := "";
      feedback := None;
      feedbackType := None;
    }

    /** The effect that copies the stored tokens into the inputs once the hook is ready. */
    method LoadInputs()
      modifies this`gitlabToken, this`githubToken
      ensures storage.isReady ==> gitlabToken == storage.tokens.gitlab && githubToken == storage.tokens.github
      ensures !storage.isReady ==> gitlabToken == old(gitlabToken) && githubToken == old(githubToken)
    {
      if storage.isReady {
        gitlabToken := storage.tokens.gitlab;
        githubToken := storage.tokens.github;
      }
    }

    /**
     * `handleSave`: both trimmed inputs are written through the hook, GitLab first; the
     * Cloudflare token is kept, and afterwards the page shows no changes.
     */
    method HandleSave(gitlabFails: bool, githubFails: bool)
      requires Valid()
      modifies this`feedback, this`feedbackType, storage, storage.db.tokens
      ensures Valid()
      ensures storage.tokens == old(storage.tokens).With(GitLab, Trim(gitlabToken)).With(GitHub, Trim(githubToken))
      ensures storage.isReady == old(storage.isReady)
      ensures !HasChanges(storage.isReady, storage.tokens, gitlabToken, githubToken)
      ensures !gitlabFails && !githubFails && old(storage.InSync()) ==> storage.InSync()
      ensures feedback == Some(SavedText) && feedbackType == Some(Saved)
    {
      feedback := Some(SavedText);
      feedbackType := Some(Saved);
      SaveTrimmed(storage, gitlabToken, githubToken, gitlabFails, githubFails);
    }

    /** `handleClear`: every stored token and both inputs are emptied, which disables Clear. */
    method HandleClear(writeFails: bool)
      requires Valid()
      modifies this`gitlabToken, this`githubToken, this`feedback, this`feedbackType, storage, storage.db.tokens
      ensures Valid()
      ensures storage.tokens == DefaultTokens && storage.isReady == old(storage.isReady)
      ensures gitlabToken == "" && githubToken == ""
      ensures ClearDisabled(storage.isReady, storage.tokens)
      ensures !HasChanges(storage.isReady, storage.tokens, gitlabToken, githubToken)
      ensures !writeFails ==> storage.InSync()
      ensures feedback == Some(ClearedText) && feedbackType == Some(Cleared)
    {
      storage.ClearTokens(writeFails);
      gitlabToken := "";
      githubToken := "";
      feedback := Some(ClearedText);
      feedbackType := Some(Cleared);
    }

    /** The timer clears the feedback, and the feedback effect then clears its kind. */
    method FeedbackExpired()
      modifies this`feedback, this`feedbackType
      ensures feedback.None? && feedbackType.None?
    {
      feedback := None;
      feedbackType := None;
    }
  }
}
