/**
 * The list updaters several components apply to the tracked GitLab projects: reviving
 * stored branches as idle, keeping only name and default flag when storing, removing by
 * id, and replacing by id so that the new entry comes last.
 */
module ProjectList {
  import opened Wrappers
  import opened Types
  import opened Seqs

  /** `branches.map(b => ({ name, default, status: "idle" }))`. */
  function ReviveBranches(stored: seq<StoredBranch>): (branches: seq<BranchState>)
    ensures |branches| == |stored|
    ensures forall i :: 0 <= i < |stored| ==> branches[i] == IdleBranch(stored[i].name, stored[i].isDefault)
  {
    seq(|stored|, i requires 0 <= i < |stored| => IdleBranch(stored[i].name, stored[i].isDefault))
  }

  /** `branches.map(b => ({ name, default }))`: status, error and trigger time are dropped. */
  function StoreBranches(branches: seq<BranchState>): (stored: seq<StoredBranch>)
    ensures |stored| == |branches|
    ensures forall i :: 0 <= i < |branches| ==> stored[i] == StoredBranch(branches[i].name, branches[i].isDefault)
  {
    seq(|branches|, i requires 0 <= i < |branches| => StoredBranch(branches[i].name, branches[i].isDefault))
  }

  /** A branch as it comes back from storage: idle, never triggered, no error. */
  predicate IsFresh(b: BranchState) {
    b.status == Idle && b.lastTriggeredAt.None? && b.error.None?
  }

  /** Stored branches survive a revival and a store unchanged. */
  lemma StoreAfterRevive(stored: seq<StoredBranch>)
    ensures StoreBranches(ReviveBranches(stored)) == stored
  {
  }

  /** Storing then reviving keeps names and default flags and resets everything else; fresh branches come back unchanged. */
  lemma ReviveAfterStore(branches: seq<BranchState>)
    ensures var back := ReviveBranches(StoreBranches(branches));
            && |back| == |branches|
            && (forall i :: 0 <= i < |branches| ==> back[i].name == branches[i].name && back[i].isDefault == branches[i].isDefault && IsFresh(back[i]))
            && ((forall i :: 0 <= i < |branches| ==> IsFresh(branches[i])) ==> back == branches)
  {
  }

  /** `projects.filter(p => p.id !== id)`. */
  function RemoveById(projects: seq<ProjectState>, id: string): (rest: seq<ProjectState>)
    ensures |rest| <= |projects|
    ensures forall i :: 0 <= i < |rest| ==> rest[i].id != id && rest[i] in projects
    ensures forall i :: 0 <= i < |projects| && projects[i].id != id ==> projects[i] in rest
    ensures (forall i :: 0 <= i < |projects| ==> projects[i].id != id) ==> rest == projects
  {
    Filter(projects, (p: ProjectState) => p.id != id)
  }

  /** Removal keeps the survivors in their relative order: removing from a concatenation removes from each part. */
  lemma RemoveByIdAppend(a: seq<ProjectState>, b: seq<ProjectState>, id: string)
    ensures RemoveById(a + b, id) == RemoveById(a, id) + RemoveById(b, id)
  {
    FilterAppend(a, b, (p: ProjectState) => p.id != id);
  }

  /** `[...prev.filter(p => p.id !== project.id), project]`. */
  function UpsertById(projects: seq<ProjectState>, project: ProjectState): (next: seq<ProjectState>)
    ensures |next| >= 1 && next[|next| - 1] == project
    ensures next[..|next| - 1] == RemoveById(projects, project.id)
    ensures forall i :: 0 <= i < |next| - 1 ==> next[i].id != project.id
  {
    RemoveById(projects, project.id) + [project]
  }

  /** How many entries carry an id. */
  function CountId(projects: seq<ProjectState>, id: string): nat
    decreases |projects|
  {
    if projects == [] then 0
    else (if projects[0].id == id then 1 else 0) + CountId(projects[1..], id)
  }

  lemma {:induction false} CountIdAppend(a: seq<ProjectState>, b: seq<ProjectState>, id: string)
    ensures CountId(a + b, id) == CountId(a, id) + CountId(b, id)
    decreases |a|
  {
    if a == [] {
      assert a + b == b;
    } else {
      assert (a + b)[1..] == a[1..] + b;
      CountIdAppend(a[1..], b, id);
    }
  }

  lemma {:induction false} CountIdAbsent(projects: seq<ProjectState>, id: string)
    requires forall i :: 0 <= i < |projects| ==> projects[i].id != id
    ensures CountId(projects, id) == 0
    decreases |projects|
  {
    if projects != [] {
      CountIdAbsent(projects[1..], id);
    }
  }

  /** After an upsert exactly one entry has the project's id, and it is the last one. */
  lemma UpsertLeavesOneEntry(projects: seq<ProjectState>, project: ProjectState)
    ensures CountId(UpsertById(projects, project), project.id) == 1
  {
    var rest := RemoveById(projects, project.id);
    CountIdAbsent(rest, project.id);
    CountIdAppend(rest, [project], project.id);
    assert [project][1..] == [];
  }

  /** Upserting a project twice is upserting it once. */
  lemma UpsertIdempotent(projects: seq<ProjectState>, project: ProjectState)
    ensures UpsertById(UpsertById(projects, project), project) == UpsertById(projects, project)
  {
    var once := UpsertById(projects, project);
    var rest := RemoveById(projects, project.id);
    RemoveByIdAppend(rest, [project], project.id);
    assert RemoveById([project], project.id) == [];
    assert RemoveById(rest, project.id) == rest;
  }

  /**
   * The `localStorage` entry "gitlab_pipeline_projects", holding the parsed JSON array or
   * nothing. JSON text itself is not modelled: a stored value parses back to itself unless
   * the caller says the parse fails.
   */
  class StorageSlot {
    var stored: Option<seq<StoredProject>>

    constructor(stored: Option<seq<StoredProject>>)
      ensures this.stored == stored
    {
      this.stored := stored;
    }
  }
}
