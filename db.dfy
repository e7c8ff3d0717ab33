/**
 * The IndexedDB database "git-utils" (lib/db.ts): its schema versions and its tables. A
 * table is a map from primary key to record; `put` overwrites, `delete` of an absent key
 * does nothing, and every record sits under its own key.
 */
module Db {
  import opened Wrappers
  import opened Strings
  import opened Types

  /** `TokenRecord` and `SettingRecord`: a string value under a string key. */
  datatype KeyValue = KeyValue(key: string, value: string)

  function KeyOfKeyValue(r: KeyValue): string { r.key }
  function KeyOfProject(p: StoredProject): string { p.id }

  /** A store declaration: the primary key path, unique when written with a leading `&`. */
  datatype StoreSpec = StoreSpec(primaryKey: string, unique: bool)

  function ParseStoreSpec(s: string): (spec: StoreSpec)
    ensures spec.unique <==> StartsWith(s, "&")
    ensures spec.unique ==> s == "&" + spec.primaryKey
    ensures !spec.unique ==> s == spec.primaryKey
  {
    if StartsWith(s, "&") then StoreSpec(s[1..], true) else StoreSpec(s, false)
  }

  /** One `version(n).stores({...})` call: a table name to its declaration, or to null to delete the table. */
  type StoresChange = map<string, Option<string>>

  const Version1: StoresChange := map["kv" := Some("&key")]
  const Version2: StoresChange := map["kv" := None, "tokens" := Some("&key"), "settings" := Some("&key"), "projects" := Some("&id")]

  /** The schema after one more version: declared tables (re)defined, null tables dropped, the rest kept. */
  function ApplyStores(schema: map<string, StoreSpec>, change: StoresChange): (next: map<string, StoreSpec>)
    ensures forall t :: t in next <==> (t in change && change[t].Some?) || (t in schema && t !in change)
    ensures forall t :: t in change && change[t].Some? ==> next[t] == ParseStoreSpec(change[t].value)
    ensures forall t :: t in schema && t !in change ==> next[t] == schema[t]
  {
    map t | t in schema.Keys + change.Keys && (t in change ==> change[t].Some?) ::
      if t in change then ParseStoreSpec(change[t].value) else schema[t]
  }

  /** The schema after versions 1..n have been declared (the database declares two). */
  function Schema(n: nat): map<string, StoreSpec> {
    if n == 0 then map[]
    else if n == 1 then ApplyStores(map[], Version1)
    else ApplyStores(Schema(1), Version2)
  }

  /** Version 1 holds one table, `kv`, keyed by a unique `key`. */
  lemma SchemaVersion1()
    ensures Schema(1) == map["kv" := StoreSpec("key", true)]
  {
    assert "&key"[1..] == "key";
  }

  /** Version 2 drops `kv`; `tokens` and `settings` are keyed by a unique `key`, `projects` by a unique `id`. */
  lemma SchemaVersion2()
    ensures Schema(2).Keys == {"tokens", "settings", "projects"}
    ensures Schema(2)["tokens"] == StoreSpec("key", true)
    ensures Schema(2)["settings"] == StoreSpec("key", true)
    ensures Schema(2)["projects"] == StoreSpec("id", true)
  {
    SchemaVersion2Tables();
    assert "&key"[1..] == "key";
    assert "&id"[1..] == "id";
  }

  /** Version 2 holds exactly the `tokens`, `settings` and `projects` tables. */
  lemma SchemaVersion2Tables()
    ensures Schema(2).Keys == {"tokens", "settings", "projects"}
  {
    SchemaVersion1();
    assert "kv" !in Schema(2);
  }

  /** `bulkPut`: the records written one after the other, so a later record with the same key wins. */
  function PutAll<R>(rows: map<string, R>, records: seq<R>, keyOf: R -> string): (next: map<string, R>)
    ensures forall k :: k in next <==> k in rows || exists i :: 0 <= i < |records| && keyOf(records[i]) == k
    decreases |records|
  {
    if records == [] then rows
    else
      var next := PutAll(rows[keyOf(records[0]) := records[0]], records[1..], keyOf);
      assert forall i :: 1 <= i < |records| ==> records[i] == records[1..][i - 1];
      next
  }

  /** Under each key written, the stored record is the last one written with that key. */
  lemma {:induction false} PutAllLastWins<R>(rows: map<string, R>, records: seq<R>, keyOf: R -> string, i: nat)
    requires i < |records|
    requires forall j :: i < j < |records| ==> keyOf(records[j]) != keyOf(records[i])
    ensures PutAll(rows, records, keyOf)[keyOf(records[i])] == records[i]
    decreases |records|
  {
    if i == 0 {
      PutAllUntouched(rows[keyOf(records[0]) := records[0]], records[1..], keyOf, keyOf(records[0]));
    } else {
      PutAllLastWins(rows[keyOf(records[0]) := records[0]], records[1..], keyOf, i - 1);
    }
  }

  /** A key no record carries keeps its previous row. */
  lemma {:induction false} PutAllUntouched<R>(rows: map<string, R>, records: seq<R>, keyOf: R -> string, k: string)
    requires k in rows
    requires forall j :: 0 <= j < |records| ==> keyOf(records[j]) != k
    ensures PutAll(rows, records, keyOf)[k] == rows[k]
    decreases |records|
  {
    if records != [] {
      PutAllUntouched(rows[keyOf(records[0]) := records[0]], records[1..], keyOf, k);
    }
  }

  /** Writing records each under its own key keeps every row under its own key. */
  lemma {:induction false} PutAllKeepsKeys<R>(rows: map<string, R>, records: seq<R>, keyOf: R -> string)
    requires forall k :: k in rows ==> keyOf(rows[k]) == k
    ensures forall k :: k in PutAll(rows, records, keyOf) ==> keyOf(PutAll(rows, records, keyOf)[k]) == k
    decreases |records|
  {
    if records != [] {
      var rows' := rows[keyOf(records[0]) := records[0]];
      assert PutAll(rows, records, keyOf) == PutAll(rows', records[1..], keyOf);
      PutAllKeepsKeys(rows', records[1..], keyOf);
    }
  }

  /** A Dexie table with a unique primary key. */
  class Table<R> {
    const keyOf: R -> string
    var rows: map<string, R>

    /** Every record is stored under its own primary key, so a key holds at most one record. */
    ghost predicate Valid()
      reads this
    {
      forall k :: k in rows ==> keyOf(rows[k]) == k
    }

    constructor(keyOf: R -> string)
      ensures this.keyOf == keyOf && rows == map[] && Valid()
    {
      this.keyOf := keyOf;
      rows := map[];
    }

    /** `get(key)`: the record under the key, if any. */
    method Get(key: string) returns (record: Option<R>)
      requires Valid()
      ensures key in rows <==> record.Some?
      ensures record.Some? ==> record.value == rows[key] && keyOf(record.value) == key
    {
      if key in rows {
        record := Some(rows[key]);
      } else {
        record := None;
      }
    }

    /** `put(record)`: insert, or overwrite the record with the same key. */
    method Put(record: R)
      requires Valid()
      modifies this
      ensures Valid()
      ensures rows == old(rows)[keyOf(record) := record]
    {
      rows := rows[keyOf(record) := record];
    }

    /** `delete(key)`: deleting an absent key does nothing. */
    method Delete(key: string)
      requires Valid()
      modifies this
      ensures Valid()
      ensures rows == old(rows) - {key}
    {
      rows := rows - {key};
    }

    /** `bulkDelete(keys)`. */
    method BulkDelete(keys: seq<string>)
      requires Valid()
      modifies this
      ensures Valid()
      ensures rows == old(rows) - set k | k in keys
    {
      var i := 0;
      while i < |keys|
        invariant 0 <= i <= |keys|
        invariant Valid()
        invariant rows == old(rows) - set k | k in keys[..i]
      {
        assert keys[..i + 1] == keys[..i] + [keys[i]];
        rows := rows - {keys[i]};
        i := i + 1;
      }
      assert keys[..i] == keys;
    }

    /** `bulkPut(records)`. */
    method BulkPut(records: seq<R>)
      requires Valid()
      modifies this
      ensures Valid()
      ensures rows == PutAll(old(rows), records, keyOf)
    {
      var next := PutAll(rows, records, keyOf);
      PutAllKeepsKeys(rows, records, keyOf);
      rows := next;
    }

    /** `clear()`. */
    method Clear()
      modifies this
      ensures Valid()
      ensures rows == map[]
    {
      rows := map[];
    }

    /** `toCollection().primaryKeys()`: every key once. */
    method PrimaryKeys() returns (keys: seq<string>)
      ensures forall k :: k in keys <==> k in rows
      ensures forall i, j :: 0 <= i < j < |keys| ==> keys[i] != keys[j]
    {
      keys := [];
      var remaining := rows.Keys;
      while remaining != {}
        invariant remaining <= rows.Keys
        invariant forall k :: k in keys <==> k in rows.Keys - remaining
        invariant forall i, j :: 0 <= i < j < |keys| ==> keys[i] != keys[j]
        decreases |remaining|
      {
        var k :| k in remaining;
        assert k !in keys;
        keys := keys + [k];
        remaining := remaining - {k};
      }
    }

    /** `toArray()`: every record once (in primary-key order in IndexedDB; the order is not modelled). */
    method ToArray() returns (records: seq<R>)
      requires Valid()
      ensures |records| == |rows|
      ensures forall i :: 0 <= i < |records| ==> keyOf(records[i]) in rows && rows[keyOf(records[i])] == records[i]
      ensures forall k :: k in rows ==> exists i :: 0 <= i < |records| && keyOf(records[i]) == k
      ensures forall i, j :: 0 <= i < j < |records| ==> keyOf(records[i]) != keyOf(records[j])
    {
      var keys := PrimaryKeys();
      records := [];
      var i := 0;
      while i < |keys|
        invariant 0 <= i <= |keys|
        invariant |records| == i
        invariant forall j :: 0 <= j < i ==> records[j] == rows[keys[j]] && keyOf(records[j]) == keys[j]
      {
        records := records + [rows[keys[i]]];
        i := i + 1;
      }
      DistinctKeysCount(keys, rows.Keys);
      forall k | k in rows ensures exists j :: 0 <= j < |records| && keyOf(records[j]) == k {
        var j :| 0 <= j < |keys| && keys[j] == k;
        assert keyOf(records[j]) == k;
      }
    }
  }

  /** A duplicate-free listing of a set has the set's size. */
  lemma {:induction false} DistinctKeysCount(keys: seq<string>, s: set<string>)
    requires forall k :: k in keys <==> k in s
    requires forall i, j :: 0 <= i < j < |keys| ==> keys[i] != keys[j]
    ensures |keys| == |s|
    decreases |keys|
  {
    if keys != [] {
      var last := keys[|keys| - 1];
      var rest := keys[..|keys| - 1];
      forall k ensures k in rest <==> k in s - {last} {
        if k in rest {
          var i :| 0 <= i < |rest| && rest[i] == k;
          assert keys[i] == k;
        }
        if k in s - {last} {
          var i :| 0 <= i < |keys| && keys[i] == k;
          assert i != |keys| - 1;
          assert rest[i] == k;
        }
      }
      DistinctKeysCount(rest, s - {last});
    }
  }

  /** `GitUtilsDatabase` at its latest version: the three tables of version 2. */
  class Database {
    const tokens: Table<KeyValue>
    const settings: Table<KeyValue>
    const projects: Table<StoredProject>
    const schema: map<string, StoreSpec>

    ghost predicate Valid()
      reads this, tokens, settings, projects
    {
      && tokens.keyOf == KeyOfKeyValue && tokens.Valid()
      && settings.keyOf == KeyOfKeyValue && settings.Valid()
      && projects.keyOf == KeyOfProject && projects.Valid()
      && tokens != settings
      && schema == Schema(2)
    }

    constructor()
      ensures Valid()
      ensures tokens.rows == map[] && settings.rows == map[] && projects.rows == map[]
      ensures fresh(tokens) && fresh(settings) && fresh(projects)
    {
      tokens := new Table(KeyOfKeyValue);
      settings := new Table(KeyOfKeyValue);
      projects := new Table(KeyOfProject);
      schema := Schema(2);
    }
  }
}
