/**
 * The token service (services/token-service.ts): one API token per provider, kept in the
 * `tokens` table under the provider's name. An empty token is never stored: saving one
 * deletes the row, and reading a missing row gives the empty string.
 *
 * `storeFails` stands for both ways the service gives up before touching the table: no
 * browser window, or a rejected IndexedDB call; `writeFails` is a rejected write.
 */
module TokenService {
  import opened Wrappers
  import opened Db

  /** `TokenKind`. */
  datatype TokenKind = GitHub | GitLab | Cloudflare

  /** `STORAGE_KEYS`: the row key of each kind. */
  function StorageKey(kind: TokenKind): (key: string)
    ensures key != ""
  {
    match kind
    case GitHub => "github"
    case GitLab => "gitlab"
    case Cloudflare => "cloudflare"
  }

  /** The kinds in the order `Object.entries(STORAGE_KEYS)` lists them. */
  const Kinds: seq<TokenKind> := [GitHub, GitLab, Cloudflare]

  /** `Object.values(STORAGE_KEYS)`. */
  const AllKeys: seq<string> := ["github", "gitlab", "cloudflare"]

  /** Distinct kinds are stored under distinct keys. */
  lemma StorageKeyInjective(a: TokenKind, b: TokenKind)
    ensures StorageKey(a) == StorageKey(b) ==> a == b
  {
    assert "github"[3] != "gitlab"[3];
  }

  /** `Record<TokenKind, string>`. */
  datatype Tokens = Tokens(github: string, gitlab: string, cloudflare: string)
  {
    function Get(kind: TokenKind): string {
      match kind
      case GitHub => github
      case GitLab => gitlab
      case Cloudflare => cloudflare
    }

    /** `tokens[kind] = value`: that kind changes and no other. */
    function With(kind: TokenKind, value: string): (t: Tokens)
      ensures t.Get(kind) == value
      ensures forall other :: other != kind ==> t.Get(other) == Get(other)
    {
      match kind
      case GitHub => this.(github := value)
      case GitLab => this.(gitlab := value)
      case Cloudflare => this.(cloudflare := value)
    }
  }

  /** `DEFAULT_TOKENS`. */
  const DefaultTokens := Tokens("", "", "")

  /** `record?.value ?? ""`. */
  function StoredValue(rows: map<string, KeyValue>, key: string): string {
    if key in rows then rows[key].value else ""
  }

  /** What the tokens table holds, read kind by kind. */
  function TokensIn(rows: map<string, KeyValue>): (t: Tokens)
    ensures forall kind :: t.Get(kind) == StoredValue(rows, StorageKey(kind))
  {
    Tokens(StoredValue(rows, "github"), StoredValue(rows, "gitlab"), StoredValue(rows, "cloudflare"))
  }

  /** The rows after `saveToken(kind, value)` succeeds: a non-empty value is put, an empty one deletes the row. */
  function AfterSave(rows: map<string, KeyValue>, kind: TokenKind, value: string): map<string, KeyValue> {
    if value != "" then rows[StorageKey(kind) := KeyValue(StorageKey(kind), value)]
    else rows - {StorageKey(kind)}
  }

  /** No row of the table holds an empty token. */
  ghost predicate NoEmptyToken(rows: map<string, KeyValue>) {
    forall k :: k in rows ==> rows[k].value != ""
  }

  /** `getTokens()`. */
  method GetTokens(db: Database, storeFails: bool) returns (tokens: Tokens)
    requires db.Valid()
    ensures storeFails ==> tokens == DefaultTokens
    ensures !storeFails ==> forall kind :: tokens.Get(kind) == StoredValue(db.tokens.rows, StorageKey(kind))
  {
    if storeFails {
      return DefaultTokens;
    }
    var entries := ReadEntries(db);
    tokens := FillTokens(entries);
    forall kind ensures tokens.Get(kind) == StoredValue(db.tokens.rows, StorageKey(kind)) {
      assert kind == Kinds[0] || kind == Kinds[1] || kind == Kinds[2];
    }
  }

  /** The reads of `getTokens`, one per kind in `Kinds` order: the stored value, or "" for a missing row. */
  method ReadEntries(db: Database) returns (entries: seq<string>)
    requires db.Valid()
    ensures |entries| == |Kinds|
    ensures forall j :: 0 <= j < |Kinds| ==> entries[j] == StoredValue(db.tokens.rows, StorageKey(Kinds[j]))
  {
    entries := [];
    var i := 0;
    while i < |Kinds|
      invariant 0 <= i <= |Kinds|
      invariant |entries| == i
      invariant forall j :: 0 <= j < i ==> entries[j] == StoredValue(db.tokens.rows, StorageKey(Kinds[j]))
    {
      var record := db.tokens.Get(StorageKey(Kinds[i]));
      entries := entries + [if record.Some? then record.value.value else ""];
      i := i + 1;
    }
  }

  /** The copy of the defaults that `getTokens` fills entry by entry. */
  method FillTokens(entries: seq<string>) returns (tokens: Tokens)
    requires |entries| == |Kinds|
    ensures forall j :: 0 <= j < |Kinds| ==> tokens.Get(Kinds[j]) == entries[j]
  {
    tokens := DefaultTokens;
    var i := 0;
    while i < |Kinds|
      invariant 0 <= i <= |Kinds|
      invariant forall j :: 0 <= j < i ==> tokens.Get(Kinds[j]) == entries[j]
      invariant forall j :: i <= j < |Kinds| ==> tokens.Get(Kinds[j]) == ""
    {
      tokens := tokens.With(Kinds[i], entries[i]);
      i := i + 1;
    }
  }

  /** `getToken(kind)`. */
  method GetToken(db: Database, kind: TokenKind, storeFails: bool) returns (value: string)
    requires db.Valid()
    ensures storeFails ==> value == ""
    ensures !storeFails ==> value == TokensIn(db.tokens.rows).Get(kind)
  {
    if storeFails {
      return "";
    }
    var record := db.tokens.Get(StorageKey(kind));
    value := if record.Some? then record.value.value else "";
  }

  /** `saveToken(kind, value)`. */
  method SaveToken(db: Database, kind: TokenKind, value: string, storeFails: bool, writeFails: bool)
    requires db.Valid()
    modifies db.tokens
    ensures db.Valid()
    ensures storeFails || writeFails ==> db.tokens.rows == old(db.tokens.rows)
    ensures !storeFails && !writeFails ==> db.tokens.rows == AfterSave(old(db.tokens.rows), kind, value)
  {
    if storeFails || writeFails {
      return;
    }
    if value != "" {
      db.tokens.Put(KeyValue(StorageKey(kind), value));
    } else {
      db.tokens.Delete(StorageKey(kind));
    }
  }

  /** `clearTokens()`. */
  method ClearTokens(db: Database, storeFails: bool, writeFails: bool)
    requires db.Valid()
    modifies db.tokens
    ensures db.Valid()
    ensures storeFails || writeFails ==> db.tokens.rows == old(db.tokens.rows)
    ensures !storeFails && !writeFails ==> db.tokens.rows == old(db.tokens.rows) - set k | k in AllKeys
  {
    if storeFails || writeFails {
      return;
    }
    db.tokens.BulkDelete(AllKeys);
  }

  /** A saved token reads back as saved; saving the empty token reads back as the empty token. */
  lemma SaveThenRead(rows: map<string, KeyValue>, kind: TokenKind, value: string)
    ensures TokensIn(AfterSave(rows, kind, value)).Get(kind) == value
  {
  }

  /** Saving one kind's token leaves the others as they were. */
  lemma SaveLeavesOtherKinds(rows: map<string, KeyValue>, kind: TokenKind, other: TokenKind, value: string)
    requires other != kind
    ensures TokensIn(AfterSave(rows, kind, value)).Get(other) == TokensIn(rows).Get(other)
  {
    StorageKeyInjective(kind, other);
  }

  /** Saving keeps the table free of empty tokens. */
  lemma SaveNeverStoresEmpty(rows: map<string, KeyValue>, kind: TokenKind, value: string)
    requires NoEmptyToken(rows)
    ensures NoEmptyToken(AfterSave(rows, kind, value))
  {
  }

  /** After clearing, every kind reads as the default. */
  lemma ClearedReadsDefault(rows: map<string, KeyValue>)
    ensures TokensIn(rows - set k | k in AllKeys) == DefaultTokens
  {
    var cleared := rows - set k | k in AllKeys;
    assert "github" in AllKeys && "gitlab" in AllKeys && "cloudflare" in AllKeys;
    assert "github" !in cleared && "gitlab" !in cleared && "cloudflare" !in cleared;
  }
}
