/**
 * The settings hook (hooks/useApiSettings.ts): the API settings the pages see, loaded once
 * from the settings service; updates merge a partial into memory and write only that
 * partial through to the store. `failing` holds the keys whose write rejects.
 */
module ApiSettingsHook {
  import opened Db
  import opened SettingsService

  class ApiSettingsState {
    const db: Database
    var settings: ApiSettings
    var isReady: bool
    var mounted: bool

    ghost predicate Valid()
      reads this, db, db.tokens, db.settings, db.projects
    {
      db.Valid()
    }

    /** What the hook shows is what the store holds. */
    ghost predicate InSync()
      reads this, db, db.settings
    {
      settings == SettingsIn(db.settings.rows)
    }

    /** The first render: the defaults, not ready. */
    constructor(db: Database)
      requires db.Valid()
      ensures this.db == db && Valid()
      ensures settings == DefaultSettings && !isReady && mounted
    {
      this.db := db;
      settings := DefaultSettings;
      isReady := false;
      mounted := true;
    }

    /** The load effect: the stored settings are taken and readiness set only while mounted. */
    method Load(storeFails: bool)
      requires Valid()
      modifies this
      ensures Valid() && mounted == old(mounted)
      ensures !mounted ==> settings == old(settings) && isReady == old(isReady)
      ensures mounted ==> isReady
      ensures mounted && !storeFails ==> InSync()
      ensures mounted && storeFails ==> settings == DefaultSettings
    {
      var stored := GetSettings(db, storeFails);
      if !mounted {
        return;
      }
      settings := stored;
      isReady := true;
    }

    /** The effect's cleanup. */
    method Unmount()
      modifies this
      ensures !mounted && settings == old(settings) && isReady == old(isReady)
    {
      mounted := false;
    }

    /** `updateSettings(partial)`: merge into memory, write the partial (not the merge) to the store. */
    method UpdateSettings(partial: PartialSettings, failing: set<string>)
      requires Valid()
      modifies this, db.settings
      ensures Valid()
      ensures settings == Merge(old(settings), partial)
      ensures isReady == old(isReady) && mounted == old(mounted)
      ensures db.settings.rows == PutAll(old(db.settings.rows), SettingWrites(Landed(partial, failing)), KeyOfKeyValue)
      ensures failing == {} && old(InSync()) ==> InSync()
    {
      if failing == {} && InSync() {
        SaveThenGet(db.settings.rows, partial);
        assert Landed(partial, failing) == partial;
      }
      settings := Merge(settings, partial);
      SaveSettings(db, partial, false, failing);
    }

    /** `resetSettings`: back to the defaults in memory, the rows cleared in the store. */
    method ResetSettings(writeFails: bool)
      requires Valid()
      modifies this, db.settings
      ensures Valid()
      ensures settings == DefaultSettings
      ensures isReady == old(isReady) && mounted == old(mounted)
      ensures writeFails ==> db.settings.rows == old(db.settings.rows)
      ensures !writeFails ==> db.settings.rows == old(db.settings.rows) - set k | k in SettingsService.AllKeys
      ensures !writeFails ==> InSync()
    {
      settings := DefaultSettings;
      ClearSettings(db, false, writeFails);
      if !writeFails {
        ClearedReadsDefault(old(db.settings.rows));
      }
    }
  }
}
