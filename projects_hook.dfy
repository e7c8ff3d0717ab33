/**
 * The projects hook (hooks/useGitlabProjects.ts): the tracked GitLab projects held in
 * memory and mirrored to a `localStorage` entry. This path stores neither web URLs nor
 * branch status; it only writes once hydration has finished, so the empty initial list
 * never overwrites what was saved.
 */
module GitlabProjectsHook {
  import opened Wrappers
  import opened Types
  import opened ProjectList

  /** The hook's `reviveProjects` for one project: no web URL, idle branches, pipelines defaulting to none. */
  function ReviveProject(p: StoredProject): (s: ProjectState)
    ensures s.id == p.id && s.name == p.name && s.namespace == p.namespace && s.webUrl.None?
    ensures s.branches == ReviveBranches(p.branches)
    ensures s.pipelines == Some(p.pipelines.GetOr([]))
  {
    ProjectState(p.id, p.name, p.namespace, None, ReviveBranches(p.branches), Some(p.pipelines.GetOr([])))
  }

  function Revive(stored: seq<StoredProject>): (projects: seq<ProjectState>)
    ensures |projects| == |stored|
    ensures forall i :: 0 <= i < |stored| ==> projects[i] == ReviveProject(stored[i])
  {
    seq(|stored|, i requires 0 <= i < |stored| => ReviveProject(stored[i]))
  }

  /** `persistProjects` for one project: the web URL and branch status are not written. */
  function SerializeProject(p: ProjectState): (s: StoredProject)
    ensures s.id == p.id && s.name == p.name && s.namespace == p.namespace && s.webUrl.None?
    ensures s.branches == StoreBranches(p.branches)
    ensures s.pipelines == Some(p.pipelines.GetOr([]))
  {
    StoredProject(p.id, p.name, p.namespace, None, StoreBranches(p.branches), Some(p.pipelines.GetOr([])))
  }

  function Serialize(projects: seq<ProjectState>): (stored: seq<StoredProject>)
    ensures |stored| == |projects|
    ensures forall i :: 0 <= i < |projects| ==> stored[i] == SerializeProject(projects[i])
  {
    seq(|projects|, i requires 0 <= i < |projects| => SerializeProject(projects[i]))
  }

  /** A project this hook writes and reads back unchanged. */
  predicate IsNormal(p: ProjectState) {
    && p.webUrl.None?
    && p.pipelines.Some?
    && forall i :: 0 <= i < |p.branches| ==> IsFresh(p.branches[i])
  }

  /** Writing then reading a list keeps ids, names, namespaces, branch names, default flags and pipelines, in order. */
  lemma {:induction false} ReviveAfterSerialize(projects: seq<ProjectState>)
    ensures |Revive(Serialize(projects))| == |projects|
    ensures forall i :: 0 <= i < |projects| ==>
      var back := Revive(Serialize(projects))[i];
      && back.id == projects[i].id && back.name == projects[i].name && back.namespace == projects[i].namespace
      && StoreBranches(back.branches) == StoreBranches(projects[i].branches)
      && back.pipelines == Some(projects[i].pipelines.GetOr([]))
      && IsNormal(back)
    ensures (forall i :: 0 <= i < |projects| ==> IsNormal(projects[i])) ==> Revive(Serialize(projects)) == projects
  {
    forall i | 0 <= i < |projects|
      ensures var back := Revive(Serialize(projects))[i];
        && StoreBranches(back.branches) == StoreBranches(projects[i].branches)
        && IsNormal(back)
        && (IsNormal(projects[i]) ==> back == projects[i])
    {
      ReviveAfterStore(projects[i].branches);
      StoreAfterRevive(StoreBranches(projects[i].branches));
    }
  }

  class ProjectsState {
    var projects: seq<ProjectState>
    var isReady: bool

    /** The first render: no projects, not ready. */
    constructor()
      ensures projects == [] && !isReady
    {
      projects := [];
      isReady := false;
    }

    /**
     * The hydration effect. Without a browser window nothing happens; otherwise the hook
     * becomes ready whether the entry was missing, parsed or failed to parse, and takes the
     * revived list only when it parsed.
     */
    method Hydrate(slot: StorageSlot, hasWindow: bool, parseFails: bool)
      modifies this
      ensures !hasWindow ==> projects == old(projects) && isReady == old(isReady)
      ensures hasWindow ==> isReady
      ensures hasWindow && slot.stored.Some? && !parseFails ==> projects == Revive(slot.stored.value)
      ensures hasWindow && (slot.stored.None? || parseFails) ==> projects == old(projects)
    {
      if !hasWindow {
        return;
      }
      if slot.stored.None? {
        isReady := true;
        return;
      }
      if !parseFails {
        projects := Revive(slot.stored.value);
      }
      isReady := true;
    }

    /** The persist effect: nothing is written before the hook is ready. */
    method Persist(slot: StorageSlot, hasWindow: bool)
      modifies slot
      ensures !isReady || !hasWindow ==> slot.stored == old(slot.stored)
      ensures isReady && hasWindow ==> slot.stored == Some(Serialize(projects))
    {
      if !isReady {
        return;
      }
      if !hasWindow {
        return;
      }
      slot.stored := Some(Serialize(projects));
    }

    /** `upsertProject(project)`. */
    method UpsertProject(project: ProjectState)
      modifies this
      ensures projects == UpsertById(old(projects), project) && isReady == old(isReady)
    {
      projects := UpsertById(projects, project);
    }

    /** `removeProject(id)`. */
    method RemoveProject(id: string)
      modifies this
      ensures projects == RemoveById(old(projects), id) && isReady == old(isReady)
    {
      projects := RemoveById(projects, id);
    }

    /** `clearProjects()`. */
    method ClearProjects()
      modifies this
      ensures projects == [] && isReady == old(isReady)
    {
      projects := [];
    }
  }

  /** A hook created after a persist finds the same projects again, normalised. */
  method PersistThenHydrate(hook: ProjectsState, slot: StorageSlot) returns (reloaded: ProjectsState)
    requires hook.isReady
    modifies slot
    ensures slot.stored == Some(Serialize(hook.projects))
    ensures reloaded.isReady && reloaded.projects == Revive(Serialize(hook.projects))
    ensures (forall i :: 0 <= i < |hook.projects| ==> IsNormal(hook.projects[i])) ==> reloaded.projects == hook.projects
  {
    hook.Persist(slot, true);
    reloaded := new ProjectsState();
    reloaded.Hydrate(slot, true, false);
    ReviveAfterSerialize(hook.projects);
  }
}
