/**
 * The token hook (hooks/useTokenStorage.ts): the tokens the pages see, loaded once from the
 * token service and then updated locally while each change is written through to the store.
 * Each handler runs as one sequential step; `writeFails` is a store write that rejects.
 */
module TokenStorageHook {
  import opened Db
  import opened TokenService

  /** `hasTokens`: some provider has a non-empty token. */
  function HasTokens(tokens: Tokens): (has: bool)
    ensures has <==> exists kind :: tokens.Get(kind) != ""
  {
    assert tokens.github == tokens.Get(GitHub);
    assert tokens.gitlab == tokens.Get(GitLab);
    assert tokens.cloudflare == tokens.Get(Cloudflare);
    tokens.github != "" || tokens.gitlab != "" || tokens.cloudflare != ""
  }

  /** The cleared tokens have none. */
  lemma ClearedHasNoTokens()
    ensures !HasTokens(DefaultTokens)
  {
  }

  /** Setting one kind's token in memory reads the same as saving it and reading the store back. */
  lemma SetTokenStaysInSync(rows: map<string, KeyValue>, kind: TokenKind, value: string)
    ensures TokensIn(rows).With(kind, value) == TokensIn(AfterSave(rows, kind, value))
  {
    forall other ensures TokensIn(rows).With(kind, value).Get(other) == TokensIn(AfterSave(rows, kind, value)).Get(other) {
      if other == kind {
        SaveThenRead(rows, kind, value);
      } else {
        SaveLeavesOtherKinds(rows, kind, other, value);
      }
    }
    TokensExtensional(TokensIn(rows).With(kind, value), TokensIn(AfterSave(rows, kind, value)));
  }

  /** Two token records that agree on every kind are equal. */
  lemma TokensExtensional(a: Tokens, b: Tokens)
    requires forall kind :: a.Get(kind) == b.Get(kind)
    ensures a == b
  {
    assert a.Get(GitHub) == b.Get(GitHub);
    assert a.Get(GitLab) == b.Get(GitLab);
    assert a.Get(Cloudflare) == b.Get(Cloudflare);
  }

  class TokenStorage {
    const db: Database
    var tokens: Tokens
    var isReady: bool
    var mounted: bool

    ghost predicate Valid()
      reads this, db, db.tokens, db.settings, db.projects
    {
      db.Valid()
    }

    /** What the hook shows is what the store holds. */
    ghost predicate InSync()
      reads this, db, db.tokens
    {
      tokens == TokensIn(db.tokens.rows)
    }

    /** The first render: default tokens, not ready, mounted. */
    constructor(db: Database)
      requires db.Valid()
      ensures this.db == db && Valid()
      ensures tokens == DefaultTokens && !isReady && mounted
    {
      this.db := db;
      tokens := DefaultTokens;
      isReady := false;
      mounted := true;
    }

    /** The load effect: tokens are taken and readiness set only while mounted; a failed read leaves the defaults in place. */
    method Load(storeFails: bool)
      requires Valid()
      modifies this
      ensures Valid() && mounted == old(mounted)
      ensures !mounted ==> tokens == old(tokens) && isReady == old(isReady)
      ensures mounted ==> isReady
      ensures mounted && !storeFails ==> InSync()
      ensures mounted && storeFails ==> tokens == DefaultTokens
    {
      var stored := GetTokens(db, storeFails);
      if !mounted {
        return;
      }
      tokens := stored;
      isReady := true;
      if !storeFails {
        TokensExtensional(tokens, TokensIn(db.tokens.rows));
      }
    }

    /** The effect's cleanup. */
    method Unmount()
      modifies this
      ensures !mounted && tokens == old(tokens) && isReady == old(isReady)
    {
      mounted := false;
    }

    /** `setToken(kind, value)`: the one kind changes in memory and the change is written through. */
    method SetToken(kind: TokenKind, value: string, writeFails: bool)
      requires Valid()
      modifies this, db.tokens
      ensures Valid()
      ensures tokens == old(tokens).With(kind, value)
      ensures isReady == old(isReady) && mounted == old(mounted)
      ensures !writeFails ==> db.tokens.rows == AfterSave(old(db.tokens.rows), kind, value)
      ensures writeFails ==> db.tokens.rows == old(db.tokens.rows)
      ensures !writeFails && old(InSync()) ==> InSync()
    {
      if !writeFails && InSync() {
        SetTokenStaysInSync(db.tokens.rows, kind, value);
      }
      tokens := tokens.With(kind, value);
      SaveToken(db, kind, value, false, writeFails);
    }

    /** `clearTokens`: every kind empties in memory and in the store. */
    method ClearTokens(writeFails: bool)
      requires Valid()
      modifies this, db.tokens
      ensures Valid()
      ensures tokens == DefaultTokens && !HasTokens(tokens)
      ensures isReady == old(isReady) && mounted == old(mounted)
      ensures writeFails ==> db.tokens.rows == old(db.tokens.rows)
      ensures !writeFails ==> db.tokens.rows == old(db.tokens.rows) - set k | k in TokenService.AllKeys
      ensures !writeFails ==> InSync()
    {
      tokens := DefaultTokens;
      TokenService.ClearTokens(db, false, writeFails);
      if !writeFails {
        ClearedReadsDefault(old(db.tokens.rows));
      }
    }
  }
}
