/**
 * The project service (services/project-service.ts): the tracked GitLab projects kept in
 * the `projects` table, keyed by project id. Saving replaces the table's contents with
 * the given list inside one transaction; loading revives every stored project with idle
 * branches, an empty web URL and an empty pipeline list where those were missing.
 *
 * `storeFails` is the absent browser window or a rejected read; `txFails` is a rejected
 * transaction, which IndexedDB rolls back as a whole.
 */
module ProjectService {
  import opened Wrappers
  import opened Seqs
  import opened Types
  import opened Db
  import opened ProjectList

  /** One stored project as `reviveProjects` turns it back into a project state. */
  function ReviveProject(p: StoredProject): (s: ProjectState)
    ensures s.id == p.id && s.name == p.name && s.namespace == p.namespace
    ensures s.webUrl == Some(p.webUrl.GetOr(""))
    ensures s.branches == ReviveBranches(p.branches)
    ensures s.pipelines == Some(p.pipelines.GetOr([]))
  {
    ProjectState(p.id, p.name, p.namespace, Some(p.webUrl.GetOr("")), ReviveBranches(p.branches), Some(p.pipelines.GetOr([])))
  }

  /** `reviveProjects`. */
  function Revive(stored: seq<StoredProject>): (projects: seq<ProjectState>)
    ensures |projects| == |stored|
    ensures forall i :: 0 <= i < |stored| ==> projects[i] == ReviveProject(stored[i])
  {
    seq(|stored|, i requires 0 <= i < |stored| => ReviveProject(stored[i]))
  }

  /** One project as `saveProjects` serialises it: the web URL as given, branches reduced to name and default flag. */
  function SerializeProject(p: ProjectState): (s: StoredProject)
    ensures s.id == p.id && s.name == p.name && s.namespace == p.namespace
    ensures s.webUrl == p.webUrl
    ensures s.branches == StoreBranches(p.branches)
    ensures s.pipelines == Some(p.pipelines.GetOr([]))
  {
    StoredProject(p.id, p.name, p.namespace, p.webUrl, StoreBranches(p.branches), Some(p.pipelines.GetOr([])))
  }

  function Serialize(projects: seq<ProjectState>): (stored: seq<StoredProject>)
    ensures |stored| == |projects|
    ensures forall i :: 0 <= i < |projects| ==> stored[i] == SerializeProject(projects[i])
  {
    seq(|projects|, i requires 0 <= i < |projects| => SerializeProject(projects[i]))
  }

  /** A project in the form a save and a load bring it to. */
  function Normalised(p: ProjectState): ProjectState {
    ProjectState(p.id, p.name, p.namespace, Some(p.webUrl.GetOr("")), ReviveBranches(StoreBranches(p.branches)), Some(p.pipelines.GetOr([])))
  }

  /** A project that a save and a load give back unchanged. */
  predicate IsNormal(p: ProjectState) {
    && p.webUrl.Some?
    && p.pipelines.Some?
    && forall i :: 0 <= i < |p.branches| ==> IsFresh(p.branches[i])
  }

  /** Saving then reviving a project keeps its id, name, namespace, web URL, branch names and pipelines and resets branch status. */
  lemma ReviveAfterSerialize(p: ProjectState)
    ensures ReviveProject(SerializeProject(p)) == Normalised(p)
    ensures IsNormal(Normalised(p))
    ensures IsNormal(p) ==> Normalised(p) == p
  {
    ReviveAfterStore(p.branches);
  }

  /** A stored project that has a web URL and a pipeline list survives a load and a save unchanged. */
  lemma SerializeAfterRevive(s: StoredProject)
    requires s.webUrl.Some? && s.pipelines.Some?
    ensures SerializeProject(ReviveProject(s)) == s
  {
    StoreAfterRevive(s.branches);
  }

  /** Under a key some record rewrites, the table the records were written over does not show through. */
  lemma {:induction false} PutAllOverwritesFrom<R>(a: map<string, R>, b: map<string, R>, records: seq<R>, keyOf: R -> string, k: string)
    requires exists i :: 0 <= i < |records| && keyOf(records[i]) == k
    ensures k in PutAll(a, records, keyOf) && k in PutAll(b, records, keyOf)
    ensures PutAll(a, records, keyOf)[k] == PutAll(b, records, keyOf)[k]
    decreases |records|
  {
    var rest := records[1..];
    if exists i :: 0 <= i < |rest| && keyOf(rest[i]) == k {
      PutAllOverwritesFrom(a[keyOf(records[0]) := records[0]], b[keyOf(records[0]) := records[0]], rest, keyOf, k);
    } else {
      assert forall j :: 1 <= j < |records| ==> records[j] == rest[j - 1];
      assert keyOf(records[0]) == k;
      PutAllUntouched(a[k := records[0]], rest, keyOf, k);
      PutAllUntouched(b[k := records[0]], rest, keyOf, k);
    }
  }

  /** When every existing key is rewritten, the old rows do not show through. */
  lemma PutAllReplaces<R>(rows: map<string, R>, records: seq<R>, keyOf: R -> string)
    requires forall k :: k in rows ==> exists i :: 0 <= i < |records| && keyOf(records[i]) == k
    ensures PutAll(rows, records, keyOf) == PutAll(map[], records, keyOf)
  {
    var x := PutAll(rows, records, keyOf);
    var y := PutAll(map[], records, keyOf);
    forall k | k in x
      ensures k in y && x[k] == y[k]
    {
      PutAllOverwritesFrom(rows, map[], records, keyOf, k);
    }
    forall k | k in y
      ensures k in x
    {
    }
  }

  /** `getProjects()`: every stored project once, revived. */
  method GetProjects(db: Database, storeFails: bool) returns (projects: seq<ProjectState>)
    requires db.Valid()
    ensures storeFails ==> projects == []
    ensures !storeFails ==> |projects| == |db.projects.rows|
    ensures !storeFails ==> forall i :: 0 <= i < |projects| ==>
              projects[i].id in db.projects.rows && projects[i] == ReviveProject(db.projects.rows[projects[i].id])
    ensures !storeFails ==> forall k :: k in db.projects.rows ==> exists i :: 0 <= i < |projects| && projects[i].id == k
  {
    if storeFails {
      return [];
    }
    var stored := db.projects.ToArray();
    projects := Revive(stored);
    forall k | k in db.projects.rows
      ensures exists i :: 0 <= i < |projects| && projects[i].id == k
    {
      var i :| 0 <= i < |stored| && KeyOfProject(stored[i]) == k;
      assert projects[i].id == k;
    }
  }

  /** The ids of a list of projects, as a set. */
  function Ids(projects: seq<StoredProject>): set<string> {
    set i | 0 <= i < |projects| :: projects[i].id
  }

  /** `saveProjects(projects)`: the table afterwards holds exactly the given projects, serialised. */
  method SaveProjects(db: Database, projects: seq<ProjectState>, storeFails: bool, txFails: bool)
    requires db.Valid()
    modifies db.projects
    ensures db.Valid()
    ensures storeFails || txFails ==> db.projects.rows == old(db.projects.rows)
    ensures !storeFails && !txFails ==> db.projects.rows == PutAll(map[], Serialize(projects), KeyOfProject)
  {
    if storeFails {
      return;
    }
    var serialized := Serialize(projects);
    if txFails {
      return;
    }
    if |serialized| == 0 {
      db.projects.Clear();
      return;
    }
    var existingIds := db.projects.PrimaryKeys();
    var nextIds := Ids(serialized);
    var deletions := Filter(existingIds, (id: string) => id !in nextIds);
    if |deletions| > 0 {
      db.projects.BulkDelete(deletions);
    }
    forall k | k in db.projects.rows
      ensures exists i :: 0 <= i < |serialized| && KeyOfProject(serialized[i]) == k
    {
      assert k in existingIds;
      assert k !in deletions;
      assert k in nextIds;
    }
    PutAllReplaces(db.projects.rows, serialized, KeyOfProject);
    db.projects.BulkPut(serialized);
  }

  /** After a save the table's keys are exactly the projects' ids. */
  lemma SavedKeys(projects: seq<ProjectState>)
    ensures PutAll(map[], Serialize(projects), KeyOfProject).Keys == set i | 0 <= i < |projects| :: projects[i].id
  {
    var saved := PutAll(map[], Serialize(projects), KeyOfProject);
    forall k | k in saved
      ensures k in set i | 0 <= i < |projects| :: projects[i].id
    {
      var i :| 0 <= i < |projects| && KeyOfProject(Serialize(projects)[i]) == k;
      assert projects[i].id == k;
    }
    forall i | 0 <= i < |projects|
      ensures projects[i].id in saved
    {
      assert KeyOfProject(Serialize(projects)[i]) == projects[i].id;
    }
  }

  /** A saved project with a unique id loads back as its normalised form. */
  lemma SaveThenLoad(projects: seq<ProjectState>, i: nat)
    requires i < |projects|
    requires forall j :: 0 <= j < |projects| && j != i ==> projects[j].id != projects[i].id
    ensures projects[i].id in PutAll(map[], Serialize(projects), KeyOfProject)
    ensures ReviveProject(PutAll(map[], Serialize(projects), KeyOfProject)[projects[i].id]) == Normalised(projects[i])
  {
    var stored := Serialize(projects);
    assert KeyOfProject(stored[i]) == projects[i].id;
    PutAllLastWins(map[], stored, KeyOfProject, i);
    ReviveAfterSerialize(projects[i]);
  }

  /** With duplicate ids, the last project with an id is the one stored. */
  lemma SaveKeepsLastDuplicate(projects: seq<ProjectState>, i: nat, j: nat)
    requires i < j < |projects| && projects[i].id == projects[j].id
    requires forall k :: j < k < |projects| ==> projects[k].id != projects[j].id
    ensures PutAll(map[], Serialize(projects), KeyOfProject)[projects[i].id] == SerializeProject(projects[j])
  {
    var stored := Serialize(projects);
    assert KeyOfProject(stored[j]) == projects[j].id;
    PutAllLastWins(map[], stored, KeyOfProject, j);
  }
}
