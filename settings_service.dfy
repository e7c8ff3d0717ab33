/**
 * The settings service (services/settings-service.ts): the GitLab and GitHub API base URLs
 * and the Cloudflare account id, kept in the `settings` table. A missing row reads as the
 * default; a stored empty string reads back as the empty string (`??` only replaces a
 * missing value).
 *
 * `storeFails` is the absent browser window or a rejected read; `failing` holds the keys
 * whose `put` rejects (the others still land, as `Promise.all` does not undo them).
 */
module SettingsService {
  import opened Wrappers
  import opened Seqs
  import opened Db
  import GitLab
  import GitHub

  /** `SETTINGS_KEYS`. */
  const GitLabKey: string := "gitlab_base_url"
  const GitHubKey: string := "github_base_url"
  const CloudflareAccountKey: string := "cloudflare_account_id"
  const AllKeys: seq<string> := [GitLabKey, GitHubKey, CloudflareAccountKey]

  /** `ApiSettings`. */
  datatype ApiSettings = ApiSettings(gitlabBaseUrl: string, githubBaseUrl: string, cloudflareAccountId: string)

  /** `Partial<ApiSettings>`: an absent field is `None`. */
  datatype PartialSettings = PartialSettings(
    gitlabBaseUrl: Option<string>, githubBaseUrl: Option<string>, cloudflareAccountId: Option<string>)

  /** `DEFAULT_SETTINGS`: the public API endpoints and no account. */
  const DefaultSettings := ApiSettings(GitLab.DefaultApi, GitHub.DefaultApi, "")

  /** `{ ...settings, ...partial }`: every field the partial carries replaces the current one. */
  function Merge(settings: ApiSettings, partial: PartialSettings): (merged: ApiSettings)
    ensures merged.gitlabBaseUrl == partial.gitlabBaseUrl.GetOr(settings.gitlabBaseUrl)
    ensures merged.githubBaseUrl == partial.githubBaseUrl.GetOr(settings.githubBaseUrl)
    ensures merged.cloudflareAccountId == partial.cloudflareAccountId.GetOr(settings.cloudflareAccountId)
  {
    ApiSettings(
      partial.gitlabBaseUrl.GetOr(settings.gitlabBaseUrl),
      partial.githubBaseUrl.GetOr(settings.githubBaseUrl),
      partial.cloudflareAccountId.GetOr(settings.cloudflareAccountId))
  }

  /** Merging the same partial twice is merging it once. */
  lemma MergeIdempotent(settings: ApiSettings, partial: PartialSettings)
    ensures Merge(Merge(settings, partial), partial) == Merge(settings, partial)
  {
  }

  /** A partial carrying every field replaces the settings outright. */
  lemma MergeComplete(settings: ApiSettings, full: ApiSettings)
    ensures Merge(settings, PartialSettings(Some(full.gitlabBaseUrl), Some(full.githubBaseUrl), Some(full.cloudflareAccountId))) == full
  {
  }

  /** `record?.value ?? fallback`. */
  function LookupOr(rows: map<string, KeyValue>, key: string, fallback: string): string {
    if key in rows then rows[key].value else fallback
  }

  /** What `getSettings` reads from the table. */
  function SettingsIn(rows: map<string, KeyValue>): (s: ApiSettings)
    ensures GitLabKey !in rows ==> s.gitlabBaseUrl == DefaultSettings.gitlabBaseUrl
    ensures GitLabKey in rows ==> s.gitlabBaseUrl == rows[GitLabKey].value
    ensures GitHubKey !in rows ==> s.githubBaseUrl == DefaultSettings.githubBaseUrl
    ensures GitHubKey in rows ==> s.githubBaseUrl == rows[GitHubKey].value
    ensures CloudflareAccountKey !in rows ==> s.cloudflareAccountId == ""
    ensures CloudflareAccountKey in rows ==> s.cloudflareAccountId == rows[CloudflareAccountKey].value
  {
    ApiSettings(
      LookupOr(rows, GitLabKey, DefaultSettings.gitlabBaseUrl),
      LookupOr(rows, GitHubKey, DefaultSettings.githubBaseUrl),
      LookupOr(rows, CloudflareAccountKey, DefaultSettings.cloudflareAccountId))
  }

  /** The write tasks `saveSettings` queues: one `put` per field present, in field order. */
  function SettingWrites(partial: PartialSettings): (writes: seq<KeyValue>)
    ensures |writes| <= 3
    ensures forall i, j :: 0 <= i < j < |writes| ==> writes[i].key != writes[j].key
    ensures forall kv :: kv in writes <==>
              || (kv.key == GitLabKey && partial.gitlabBaseUrl == Some(kv.value))
              || (kv.key == GitHubKey && partial.githubBaseUrl == Some(kv.value))
              || (kv.key == CloudflareAccountKey && partial.cloudflareAccountId == Some(kv.value))
  {
    FieldWrite(GitLabKey, partial.gitlabBaseUrl)
    + FieldWrite(GitHubKey, partial.githubBaseUrl)
    + FieldWrite(CloudflareAccountKey, partial.cloudflareAccountId)
  }

  /** The put a field queues: one row under its key when the field is present. */
  function FieldWrite(key: string, value: Option<string>): seq<KeyValue> {
    if value.Some? then [KeyValue(key, value.value)] else []
  }

  /** The partial with the fields whose write failed taken out. */
  function Landed(partial: PartialSettings, failing: set<string>): (landed: PartialSettings)
    ensures forall kv :: kv in SettingWrites(landed) <==> kv in SettingWrites(partial) && kv.key !in failing
  {
    PartialSettings(
      if GitLabKey in failing then None else partial.gitlabBaseUrl,
      if GitHubKey in failing then None else partial.githubBaseUrl,
      if CloudflareAccountKey in failing then None else partial.cloudflareAccountId)
  }

  /** `getSettings()`. */
  method GetSettings(db: Database, storeFails: bool) returns (settings: ApiSettings)
    requires db.Valid()
    ensures storeFails ==> settings == DefaultSettings
    ensures !storeFails ==> settings == SettingsIn(db.settings.rows)
  {
    if storeFails {
      return DefaultSettings;
    }
    var gitlabRecord := db.settings.Get(GitLabKey);
    var githubRecord := db.settings.Get(GitHubKey);
    var cloudflareAccount := db.settings.Get(CloudflareAccountKey);
    settings := ApiSettings(
      if gitlabRecord.Some? then gitlabRecord.value.value else DefaultSettings.gitlabBaseUrl,
      if githubRecord.Some? then githubRecord.value.value else DefaultSettings.githubBaseUrl,
      if cloudflareAccount.Some? then cloudflareAccount.value.value else DefaultSettings.cloudflareAccountId);
  }

  /** The writes that succeed, in order: those whose key is not failing. */
  function Surviving(writes: seq<KeyValue>, failing: set<string>): seq<KeyValue>
    decreases |writes|
  {
    if writes == [] then []
    else (if writes[0].key in failing then [] else [writes[0]]) + Surviving(writes[1..], failing)
  }

  /** `saveSettings(partial)`: the queued puts run; those whose key fails leave their row alone. */
  method SaveSettings(db: Database, partial: PartialSettings, storeFails: bool, failing: set<string>)
    requires db.Valid()
    modifies db.settings
    ensures db.Valid()
    ensures storeFails ==> db.settings.rows == old(db.settings.rows)
    ensures !storeFails ==> db.settings.rows == PutAll(old(db.settings.rows), SettingWrites(Landed(partial, failing)), KeyOfKeyValue)
  {
    if storeFails {
      return;
    }
    var tasks: seq<KeyValue> := [];
    if partial.gitlabBaseUrl.Some? {
      tasks := tasks + [KeyValue(GitLabKey, partial.gitlabBaseUrl.value)];
    }
    if partial.githubBaseUrl.Some? {
      tasks := tasks + [KeyValue(GitHubKey, partial.githubBaseUrl.value)];
    }
    if partial.cloudflareAccountId.Some? {
      tasks := tasks + [KeyValue(CloudflareAccountKey, partial.cloudflareAccountId.value)];
    }
    assert tasks == SettingWrites(partial);
    RunWrites(db, tasks, failing);
    LandedWrites(partial, failing);
  }

  /** `Promise.all(tasks)`: every put runs; the ones under a failing key change nothing. */
  method RunWrites(db: Database, tasks: seq<KeyValue>, failing: set<string>)
    requires db.Valid()
    modifies db.settings
    ensures db.Valid()
    ensures db.settings.rows == PutAll(old(db.settings.rows), Surviving(tasks, failing), KeyOfKeyValue)
  {
    ghost var before := db.settings.rows;
    var i := 0;
    while i < |tasks|
      invariant 0 <= i <= |tasks|
      invariant db.Valid()
      invariant db.settings.rows == PutAll(before, Surviving(tasks[..i], failing), KeyOfKeyValue)
    {
      RunStep(before, tasks[..i], tasks[i], failing);
      assert tasks[..i + 1] == tasks[..i] + [tasks[i]];
      if tasks[i].key !in failing {
        db.settings.Put(tasks[i]);
      }
      i := i + 1;
    }
    assert tasks[..i] == tasks;
  }

  /** One more queued write: it lands on its key unless the key is failing. */
  lemma RunStep(before: map<string, KeyValue>, done: seq<KeyValue>, task: KeyValue, failing: set<string>)
    ensures PutAll(before, Surviving(done + [task], failing), KeyOfKeyValue)
         == if task.key in failing then PutAll(before, Surviving(done, failing), KeyOfKeyValue)
            else PutAll(before, Surviving(done, failing), KeyOfKeyValue)[task.key := task]
  {
    SurvivingAppend(done, [task], failing);
    assert Surviving([task], failing) == if task.key in failing then [] else [task];
    if task.key in failing {
      assert Surviving(done, failing) + [] == Surviving(done, failing);
    } else {
      PutAllSnoc(before, Surviving(done, failing), task, KeyOfKeyValue);
    }
  }

  /** `clearSettings()`. */
  method ClearSettings(db: Database, storeFails: bool, writeFails: bool)
    requires db.Valid()
    modifies db.settings
    ensures db.Valid()
    ensures storeFails || writeFails ==> db.settings.rows == old(db.settings.rows)
    ensures !storeFails && !writeFails ==> db.settings.rows == old(db.settings.rows) - set k | k in AllKeys
  {
    if storeFails || writeFails {
      return;
    }
    db.settings.BulkDelete(AllKeys);
  }

  /** One more write after a batch: its row replaces the one under its key. */
  lemma {:induction false} PutAllSnoc<R>(rows: map<string, R>, records: seq<R>, record: R, keyOf: R -> string)
    ensures PutAll(rows, records + [record], keyOf) == PutAll(rows, records, keyOf)[keyOf(record) := record]
    decreases |records|
  {
    if records == [] {
      assert records + [record] == [record];
      assert [record][1..] == [];
    } else {
      assert (records + [record])[0] == records[0];
      assert (records + [record])[1..] == records[1..] + [record];
      PutAllSnoc(rows[keyOf(records[0]) := records[0]], records[1..], record, keyOf);
    }
  }

  lemma {:induction false} SurvivingAppend(a: seq<KeyValue>, b: seq<KeyValue>, failing: set<string>)
    ensures Surviving(a + b, failing) == Surviving(a, failing) + Surviving(b, failing)
    decreases |a|
  {
    if a == [] {
      assert a + b == b;
    } else {
      assert (a + b)[0] == a[0];
      assert (a + b)[1..] == a[1..] + b;
      SurvivingAppend(a[1..], b, failing);
    }
  }

  /** Skipping the failing writes queues exactly the writes of the fields that landed. */
  lemma LandedWrites(partial: PartialSettings, failing: set<string>)
    ensures Surviving(SettingWrites(partial), failing) == SettingWrites(Landed(partial, failing))
  {
    var a := FieldWrite(GitLabKey, partial.gitlabBaseUrl);
    var b := FieldWrite(GitHubKey, partial.githubBaseUrl);
    var c := FieldWrite(CloudflareAccountKey, partial.cloudflareAccountId);
    SurvivingAppend(a + b, c, failing);
    SurvivingAppend(a, b, failing);
    SurvivingFieldWrite(GitLabKey, partial.gitlabBaseUrl, failing);
    SurvivingFieldWrite(GitHubKey, partial.githubBaseUrl, failing);
    SurvivingFieldWrite(CloudflareAccountKey, partial.cloudflareAccountId, failing);
  }

  /** A field's put survives exactly when its key is not failing. */
  lemma SurvivingFieldWrite(key: string, value: Option<string>, failing: set<string>)
    ensures Surviving(FieldWrite(key, value), failing) == FieldWrite(key, if key in failing then None else value)
  {
    if value.Some? {
      assert [KeyValue(key, value.value)][1..] == [];
    }
  }

  /** The value the last write with a key leaves there, if any write has that key. */
  function LastWritten(writes: seq<KeyValue>, key: string): Option<string>
    decreases |writes|
  {
    if writes == [] then None
    else match LastWritten(writes[1..], key)
      case Some(v) => Some(v)
      case None => if writes[0].key == key then Some(writes[0].value) else None
  }

  /** A later batch's writes win over an earlier batch's. */
  lemma {:induction false} LastWrittenAppend(a: seq<KeyValue>, b: seq<KeyValue>, key: string)
    ensures LastWritten(a + b, key) == if LastWritten(b, key).Some? then LastWritten(b, key) else LastWritten(a, key)
    decreases |a|
  {
    if a == [] {
      assert a + b == b;
    } else {
      assert (a + b)[0] == a[0];
      assert (a + b)[1..] == a[1..] + b;
      LastWrittenAppend(a[1..], b, key);
    }
  }

  /** Reading a key after a batch of writes gives the last value written there, or what was there before. */
  lemma {:induction false} LookupAfterPutAll(rows: map<string, KeyValue>, writes: seq<KeyValue>, key: string, fallback: string)
    ensures LookupOr(PutAll(rows, writes, KeyOfKeyValue), key, fallback) == LastWritten(writes, key).GetOr(LookupOr(rows, key, fallback))
    decreases |writes|
  {
    if writes != [] {
      LookupAfterPutAll(rows[writes[0].key := writes[0]], writes[1..], key, fallback);
    }
  }

  /** The queued writes put each present field under its own key. */
  lemma LastWrittenSettings(partial: PartialSettings)
    ensures LastWritten(SettingWrites(partial), GitLabKey) == partial.gitlabBaseUrl
    ensures LastWritten(SettingWrites(partial), GitHubKey) == partial.githubBaseUrl
    ensures LastWritten(SettingWrites(partial), CloudflareAccountKey) == partial.cloudflareAccountId
  {
    assert GitLabKey[3] != GitHubKey[3];
    assert GitLabKey[0] != CloudflareAccountKey[0];
    assert GitHubKey[0] != CloudflareAccountKey[0];
    var a := if partial.gitlabBaseUrl.Some? then [KeyValue(GitLabKey, partial.gitlabBaseUrl.value)] else [];
    var b := if partial.githubBaseUrl.Some? then [KeyValue(GitHubKey, partial.githubBaseUrl.value)] else [];
    var c := if partial.cloudflareAccountId.Some? then [KeyValue(CloudflareAccountKey, partial.cloudflareAccountId.value)] else [];
    LastWrittenAppend(a + b, c, GitLabKey);
    LastWrittenAppend(a, b, GitLabKey);
    LastWrittenAppend(a + b, c, GitHubKey);
    LastWrittenAppend(a, b, GitHubKey);
    LastWrittenAppend(a + b, c, CloudflareAccountKey);
    LastWrittenAppend(a, b, CloudflareAccountKey);
  }

  /**
   * Saving a partial and reading back gives the old settings with the partial merged in:
   * the store ends where the settings hook's own merge puts its state.
   */
  lemma SaveThenGet(rows: map<string, KeyValue>, partial: PartialSettings)
    ensures SettingsIn(PutAll(rows, SettingWrites(partial), KeyOfKeyValue)) == Merge(SettingsIn(rows), partial)
  {
    LastWrittenSettings(partial);
    var writes := SettingWrites(partial);
    LookupAfterPutAll(rows, writes, GitLabKey, DefaultSettings.gitlabBaseUrl);
    LookupAfterPutAll(rows, writes, GitHubKey, DefaultSettings.githubBaseUrl);
    LookupAfterPutAll(rows, writes, CloudflareAccountKey, DefaultSettings.cloudflareAccountId);
  }

  /** After a partly failed save, a field whose write failed keeps the value read before. */
  lemma PartialSaveThenGet(rows: map<string, KeyValue>, partial: PartialSettings, failing: set<string>)
    ensures var after := SettingsIn(PutAll(rows, SettingWrites(Landed(partial, failing)), KeyOfKeyValue));
            && after.gitlabBaseUrl == (if GitLabKey in failing then SettingsIn(rows).gitlabBaseUrl else partial.gitlabBaseUrl.GetOr(SettingsIn(rows).gitlabBaseUrl))
            && after.githubBaseUrl == (if GitHubKey in failing then SettingsIn(rows).githubBaseUrl else partial.githubBaseUrl.GetOr(SettingsIn(rows).githubBaseUrl))
            && after.cloudflareAccountId == (if CloudflareAccountKey in failing then SettingsIn(rows).cloudflareAccountId else partial.cloudflareAccountId.GetOr(SettingsIn(rows).cloudflareAccountId))
  {
    SaveThenGet(rows, Landed(partial, failing));
  }

  /** After clearing, every setting reads as its default. */
  lemma ClearedReadsDefault(rows: map<string, KeyValue>)
    ensures SettingsIn(rows - set k | k in AllKeys) == DefaultSettings
  {
    assert GitLabKey in AllKeys && GitHubKey in AllKeys && CloudflareAccountKey in AllKeys;
  }
}
