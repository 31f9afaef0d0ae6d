/**
 * Mutation batches on the project graph
 * (apps/local-core/src/metadata-repository.ts, `applyMutations`).
 */
module MutationBatch {
  import opened Wrappers

  type ProjectId = string
  type WorkspaceId = string
  type ScopeId = string
  type ArtifactId = string
  type RevisionId = string
  type ViewId = string
  type RelationId = string
  type NoteId = string

  // ---------- tables ----------

  datatype Workspace = Workspace(
    projectId: ProjectId, content: string, viewport: string, presentation: string, frame: Option<string>, version: nat,
        sortIndex: nat)
  datatype Artifact = Artifact(projectId: ProjectId, title: string, current: Option<RevisionId>)
  datatype View = View(artifactId: ArtifactId, x: int, y: int, width: int, height: int, collapsed: bool, mode: string)
  datatype EntityRef =
    | ScopeRef(id: ScopeId) | WorkspaceRef(id: WorkspaceId) | ConversationRef(id: string) | NoteRef(id: NoteId)
  /** `refs` is None when the stored state cannot be read. */
  datatype Presentation = Presentation(projectId: ProjectId, refs: Option<seq<EntityRef>>)

  datatype Tables = Tables(
    projects: map<ProjectId, nat>,          // graph_version
    workspaces: map<WorkspaceId, Workspace>,
    scopes: map<ScopeId, ProjectId>,
    artifacts: map<ArtifactId, Artifact>,
    views: map<ViewId, View>,
    relations: map<RelationId, ProjectId>,
    notes: map<NoteId, ProjectId>,
    presentations: map<string, Presentation>,
    memberships: set<(WorkspaceId, string)>)

  // ---------- operations ----------

  datatype Op =
    | Bootstrap(projectId: ProjectId)
    | MoveView(viewId: ViewId, x: int, y: int)
    | ResizeView(viewId: ViewId, width: int, height: int)
    | UpdateViewPresentation(viewId: ViewId, collapsed: bool, mode: string)
    | DeleteView(viewId: ViewId)
    | UpdateViewport(workspaceId: WorkspaceId, viewport: string)
    | UpdatePresentation(workspaceId: WorkspaceId, presentation: string)
    | UpdateFrame(workspaceId: WorkspaceId, frame: Option<string>, expectedVersion: Option<nat>)
    | UpsertWorkspace(workspaceId: WorkspaceId, workspace: Workspace)
    | DeleteWorkspace(workspaceId: WorkspaceId)
    | ReorderWorkspaces(workspaceIds: seq<WorkspaceId>)
    | UpsertScope(scopeId: ScopeId, projectId: ProjectId)
    | UpsertArtifact(artifactId: ArtifactId, artifact: Artifact)
    | UpsertView(viewId: ViewId, view: View)
    | UpsertRelation(relationId: RelationId, projectId: ProjectId)
    | DeleteRelation(relationId: RelationId)
    | UpsertNote(noteId: NoteId, projectId: ProjectId)

  datatype Error = ProjectMissing | StaleGraphVersion(currentVersion: nat) | OperationRefused | ContainmentRefused

  /** `isSemanticOp`. */
  predicate IsSemantic(op: Op) {
    !(op.MoveView? || op.ResizeView? || op.UpdateViewport? || op.UpdatePresentation? || op.UpdateFrame?
      || op.UpdateViewPresentation? || op.DeleteView? || op.Bootstrap?)
  }

  predicate HasSemantic(ops: seq<Op>) { exists op :: op in ops && IsSemantic(op) }

  // ---------- the project of a batch ----------

  /** The project named by the operation's payload, if any. */
  function OpProject(op: Op): string {
    match op
    case UpsertWorkspace(_, w) => w.projectId
    case UpsertScope(_, p) => p
    case UpsertArtifact(_, a) => a.projectId
    case UpsertRelation(_, p) => p
    case UpsertNote(_, p) => p
    case _ => ""
  }

  /** `resolveProjectId`: the first operation that names a project decides; "" when none does. */
  function DirectProject(ops: seq<Op>): string {
    if ops == [] then ""
    else if ops[0].Bootstrap? then ops[0].projectId
    else if OpProject(ops[0]) != "" then OpProject(ops[0])
    else DirectProject(ops[1..])
  }

  /** The project of the row the operation touches. */
  function RowProject(t: Tables, op: Op): Option<ProjectId> {
    match op
    case MoveView(v, _, _) => ViewProject(t, v)
    case ResizeView(v, _, _) => ViewProject(t, v)
    case UpdateViewPresentation(v, _, _) => ViewProject(t, v)
    case DeleteView(v) => ViewProject(t, v)
    case UpdateViewport(w, _) => if w in t.workspaces then Some(t.workspaces[w].projectId) else None
    case UpdatePresentation(w, _) => if w in t.workspaces then Some(t.workspaces[w].projectId) else None
    case DeleteWorkspace(w) => if w in t.workspaces then Some(t.workspaces[w].projectId) else None
    case DeleteRelation(r) => if r in t.relations then Some(t.relations[r]) else None
    case _ => None
  }

  function ViewProject(t: Tables, v: ViewId): Option<ProjectId> {
    if v in t.views && t.views[v].artifactId in t.artifacts then Some(t.artifacts[t.views[v].artifactId].projectId)
    else None
  }

  function FirstRowProject(t: Tables, ops: seq<Op>): Option<ProjectId> {
    if ops == [] then None
    else if RowProject(t, ops[0]).Some? then RowProject(t, ops[0])
    else FirstRowProject(t, ops[1..])
  }

  /** `#resolveMutationProjectId`. */
  function ResolveProject(t: Tables, ops: seq<Op>, fallback: Option<ProjectId>): Option<ProjectId> {
    if DirectProject(ops) != "" then Some(DirectProject(ops))
    else if fallback.Some? then fallback
    else FirstRowProject(t, ops)
  }

  /** A resolved project that JavaScript takes for true. */
  predicate Named(project: Option<ProjectId>) { project.Some? && project.value != "" }

  // ---------- workspaces ----------

  function Own(workspaces: map<WorkspaceId, Workspace>, p: ProjectId): set<WorkspaceId> {
    set w | w in workspaces && workspaces[w].projectId == p
  }

  /** `COALESCE(MAX(sort_index), -1) + 1` over the project's workspaces. */
  ghost function NextIndex(workspaces: map<WorkspaceId, Workspace>, p: ProjectId): (n: nat)
    ensures IsNextIndex(workspaces, p, n)
  {
    NextIndexExists(workspaces, p);
    var n :| IsNextIndex(workspaces, p, n);
    n
  }

  ghost predicate IsNextIndex(workspaces: map<WorkspaceId, Workspace>, p: ProjectId, n: nat) {
    && (forall w :: w in Own(workspaces, p) ==> workspaces[w].sortIndex < n)
    && (n > 0 ==> exists w :: w in Own(workspaces, p) && workspaces[w].sortIndex == n - 1)
  }

  lemma NextIndexExists(workspaces: map<WorkspaceId, Workspace>, p: ProjectId)
    ensures exists n: nat :: IsNextIndex(workspaces, p, n)
  {
    var n := BoundOver(workspaces, Own(workspaces, p));
    assert IsNextIndex(workspaces, p, n);
  }

  lemma {:induction false} BoundOver(workspaces: map<WorkspaceId, Workspace>, some: set<WorkspaceId>) returns (n: nat)
    requires forall w :: w in some ==> w in workspaces
    ensures forall w :: w in some ==> workspaces[w].sortIndex < n
    ensures n > 0 ==> exists w :: w in some && workspaces[w].sortIndex == n - 1
    decreases some
  {
    if some == {} {
      n := 0;
    } else {
      var w :| w in some;
      n := BoundOver(workspaces, some - {w});
      if workspaces[w].sortIndex >= n { n := workspaces[w].sortIndex + 1; }
    }
  }

  lemma NextIndexUnique(workspaces: map<WorkspaceId, Workspace>, p: ProjectId, n: nat)
    requires IsNextIndex(workspaces, p, n)
    ensures n == NextIndex(workspaces, p)
  {
  }

  /** ON CONFLICT keeps the row's project and sort index; a new row goes last. */
  ghost function PutWorkspace(t: Tables, id: WorkspaceId, w: Workspace): Tables {
    var row := if id in t.workspaces
        then w.(projectId := t.workspaces[id].projectId, sortIndex := t.workspaces[id].sortIndex)
               else w.(sortIndex := NextIndex(t.workspaces, w.projectId));
    t.(workspaces := t.workspaces[id := row])
  }

  /** A list of all the project's workspaces, each once. */
  predicate IsPermutation(t: Tables, p: ProjectId, ids: seq<WorkspaceId>) {
    && (forall i, j :: 0 <= i < j < |ids| ==> ids[i] != ids[j])
    && (forall id :: id in ids ==> id in Own(t.workspaces, p))
    && (forall id :: id in Own(t.workspaces, p) ==> id in ids)
  }

  /** Writes each workspace's place in the list into its row. */
  function Reordered(workspaces: map<WorkspaceId, Workspace>, ids: seq<WorkspaceId>): map<WorkspaceId, Workspace>
    requires forall id :: id in ids ==> id in workspaces
  {
    if ids == [] then workspaces
    else
      var k := |ids| - 1;
      var front := Reordered(workspaces, ids[..k]);
      if ids[k] in front then front[ids[k] := front[ids[k]].(sortIndex := k)] else front
  }

  /** The workspace's own presentation. */
  function OwnPresentation(id: WorkspaceId): string { "presentation:custom:workspace:" + id }

  function WithoutRef(refs: seq<EntityRef>, ref: EntityRef): (kept: seq<EntityRef>)
    ensures forall r :: r in kept <==> r in refs && r != ref
    ensures |kept| <= |refs| && (|kept| == |refs| ==> kept == refs)
  {
    if refs == [] then [] else (if refs[0] == ref then [] else [refs[0]]) + WithoutRef(refs[1..], ref)
  }

  function Cleared(p: Presentation, ref: EntityRef): Presentation {
    if p.refs.None? then p else p.(refs := Some(WithoutRef(p.refs.value, ref)))
  }

  /** The project's presentations no longer refer to the workspace, and its own presentation is gone. */
  function WithoutWorkspace(
    presentations: map<string, Presentation>, p: ProjectId, id: WorkspaceId): map<string, Presentation>
  {
    map v | v in presentations && !(v == OwnPresentation(id) && presentations[v].projectId == p) ::
      if presentations[v].projectId == p then Cleared(presentations[v], WorkspaceRef(id)) else presentations[v]
  }

  function RemoveWorkspace(t: Tables, project: Option<ProjectId>, id: WorkspaceId): Tables {
    t.(workspaces := t.workspaces - {id},
       memberships := (set m | m in t.memberships && m.0 != id),
       presentations := if Named(project) then WithoutWorkspace(t.presentations, project.value, id)
           else t.presentations)
  }

  // ---------- one operation ----------

  predicate OwnedBy(table: map<string, ProjectId>, id: string, p: ProjectId) { id in table ==> table[id] == p }

  predicate WorkspaceOk(t: Tables, id: WorkspaceId, w: Workspace) {
    (id in t.workspaces ==> t.workspaces[id].projectId == w.projectId) && w.projectId in t.projects
  }

  predicate FrameOk(t: Tables, id: WorkspaceId, expected: Option<nat>) {
    id in t.workspaces && (expected.Some? ==> t.workspaces[id].version == expected.value)
  }

  /** The batch operation may not move the current revision; ON CONFLICT keeps the project. */
  predicate ArtifactOk(t: Tables, id: ArtifactId, a: Artifact) {
    && (id in t.artifacts ==> t.artifacts[id].current == a.current && t.artifacts[id].projectId == a.projectId)
    && a.projectId in t.projects
  }

  predicate ViewOk(t: Tables, id: ViewId, v: View) {
    && v.artifactId in t.artifacts
    && (ViewProject(t, id).Some? ==> ViewProject(t, id).value == t.artifacts[v.artifactId].projectId)
  }

  /** The operation is carried out; otherwise it aborts the batch. */
  predicate OpOk(t: Tables, project: Option<ProjectId>, op: Op) {
    match op
    case Bootstrap(_) => false
    case UpdateFrame(w, _, expected) => FrameOk(t, w, expected)
    case UpsertWorkspace(id, w) => WorkspaceOk(t, id, w)
    case ReorderWorkspaces(ids) => ids != [] && project.Some? && IsPermutation(t, project.value, ids)
    case UpsertScope(id, p) => OwnedBy(t.scopes, id, p) && p in t.projects
    case UpsertArtifact(id, a) => ArtifactOk(t, id, a)
    case UpsertView(id, v) => ViewOk(t, id, v)
    case UpsertRelation(id, p) => OwnedBy(t.relations, id, p) && p in t.projects
    case UpsertNote(id, p) => OwnedBy(t.notes, id, p) && p in t.projects
    case _ => true
  }

  function ChangeView(t: Tables, op: Op): Tables {
    match op
    case MoveView(v, x, y) => if v in t.views then t.(views := t.views[v := t.views[v].(x := x, y := y)]) else t
    case ResizeView(v, w, h) => if v in t.views then t.(views := t.views[v := t.views[v].(width := w, height := h)])
        else t
    case UpdateViewPresentation(v, c, m) => if v in t.views
        then t.(views := t.views[v := t.views[v].(collapsed := c, mode := m)]) else t
    case DeleteView(v) => t.(views := t.views - {v})
    case UpsertView(v, view) => t.(views := t.views[v := view])
    case _ => t
  }

  function ChangeWorkspace(t: Tables, op: Op): Tables {
    match op
    case UpdateViewport(w, v) => if w in t.workspaces
        then t.(workspaces := t.workspaces[w := t.workspaces[w].(viewport := v)]) else t
    case UpdatePresentation(w, v) => if w in t.workspaces
        then t.(workspaces := t.workspaces[w := t.workspaces[w].(presentation := v)]) else t
    case UpdateFrame(w, f, _) =>
      if w in t.workspaces
          then t.(workspaces := t.workspaces[w := t.workspaces[w].(frame := f, version := t.workspaces[w].version + 1)])
      else t
    case _ => t
  }

  /** The tables after one operation. */
  ghost function Do(t: Tables, project: Option<ProjectId>, op: Op): Tables
    requires OpOk(t, project, op)
  {
    match op
    case UpsertWorkspace(id, w) => PutWorkspace(t, id, w)
    case DeleteWorkspace(id) => RemoveWorkspace(t, project, id)
    case ReorderWorkspaces(ids) => t.(workspaces := Reordered(t.workspaces, ids))
    case UpsertScope(id, p) => t.(scopes := t.scopes[id := p])
    case UpsertArtifact(id, a) => t.(artifacts := t.artifacts[id := a])
    case UpsertRelation(id, p) => t.(relations := t.relations[id := p])
    case DeleteRelation(id) => t.(relations := t.relations - {id})
    case UpsertNote(id, p) => t.(notes := t.notes[id := p])
    case UpdateViewport(_, _) => ChangeWorkspace(t, op)
    case UpdatePresentation(_, _) => ChangeWorkspace(t, op)
    case UpdateFrame(_, _, _) => ChangeWorkspace(t, op)
    case _ => ChangeView(t, op)
  }

  // ---------- the batch ----------

  /** Every operation is carried out, one after the other. */
  ghost predicate OpsOk(t: Tables, project: Option<ProjectId>, ops: seq<Op>)
    decreases |ops|, 0
  {
    ops == [] || (OpsOk(t, project, ops[..|ops| - 1])
        && OpOk(DoAll(t, project, ops[..|ops| - 1]), project, ops[|ops| - 1]))
  }

  ghost function DoAll(t: Tables, project: Option<ProjectId>, ops: seq<Op>): Tables
    requires OpsOk(t, project, ops)
    decreases |ops|, 1
  {
    if ops == [] then t else Do(DoAll(t, project, ops[..|ops| - 1]), project, ops[|ops| - 1])
  }

  /** The base version is refused; a stored version of zero accepts any base. */
  predicate Stale(t: Tables, project: Option<ProjectId>, ops: seq<Op>, baseVersion: nat) {
    ops != [] && Named(project) && project.value in t.projects && baseVersion != t.projects[project.value]
        && t.projects[project.value] > 0
  }

  predicate Bumps(project: Option<ProjectId>, ops: seq<Op>) { Named(project) && HasSemantic(ops) }

  function Bumped(t: Tables, project: Option<ProjectId>, ops: seq<Op>): Tables {
    if Bumps(project, ops) && project.value in t.projects
        then t.(projects := t.projects[project.value := t.projects[project.value] + 1])
    else t
  }

  datatype Batch = Batch(ops: seq<Op>, baseVersion: nat, fallback: Option<ProjectId>, containmentOk: bool)

  function ProjectOf(t: Tables, b: Batch): Option<ProjectId> { ResolveProject(t, b.ops, b.fallback) }

  /** The batch commits. */
  ghost predicate Commits(t: Tables, b: Batch) {
    var p := ProjectOf(t, b);
    && (Named(p) ==> b.containmentOk) && (p.Some? ==> p.value in t.projects)
    && !Stale(t, p, b.ops, b.baseVersion) && OpsOk(Bumped(t, p, b.ops), p, b.ops)
  }

  ghost function Committed(t: Tables, b: Batch): Tables
    requires Commits(t, b)
  {
    DoAll(Bumped(t, ProjectOf(t, b), b.ops), ProjectOf(t, b), b.ops)
  }

  // ---------- the repository ----------

  class MetadataRepository {
    var tables: Tables

    constructor (tables: Tables)
      ensures this.tables == tables
    {
      this.tables := tables;
    }

    /** The subquery of the workspace upsert. */
    method QueryNextIndex(p: ProjectId) returns (n: nat)
      ensures n == NextIndex(tables.workspaces, p)
    {
      var left := Own(tables.workspaces, p);
      n := 0;
      while left != {}
        invariant left <= Own(tables.workspaces, p)
        invariant forall w :: w in Own(tables.workspaces, p) - left ==> tables.workspaces[w].sortIndex < n
        invariant n > 0 ==> exists w :: w in Own(tables.workspaces, p) && tables.workspaces[w].sortIndex == n - 1
        decreases left
      {
        var w :| w in left;
        if tables.workspaces[w].sortIndex >= n { n := tables.workspaces[w].sortIndex + 1; }
        left := left - {w};
      }
      NextIndexUnique(tables.workspaces, p, n);
    }

    /** `#upsertWorkspace`. */
    method PutWorkspaceRow(id: WorkspaceId, w: Workspace) returns (ok: bool)
      modifies this
      ensures ok == WorkspaceOk(old(tables), id, w)
      ensures tables == if ok then PutWorkspace(old(tables), id, w) else old(tables)
    {
      if id in tables.workspaces && tables.workspaces[id].projectId != w.projectId { return false; }
      if w.projectId !in tables.projects { return false; }
      var next := QueryNextIndex(w.projectId);
      var row := if id in tables.workspaces then w.(sortIndex := tables.workspaces[id].sortIndex)
          else w.(sortIndex := next);
      tables := tables.(workspaces := tables.workspaces[id := row]);
      ok := true;
    }

    /** `reorder_workspaces`: the check by count and membership, then one update per workspace. */
    method Reorder(project: Option<ProjectId>, ids: seq<WorkspaceId>) returns (ok: bool)
      modifies this
      ensures ok == OpOk(old(tables), project, ReorderWorkspaces(ids))
      ensures tables == if ok then Do(old(tables), project, ReorderWorkspaces(ids)) else old(tables)
    {
      var distinct := set id | id in ids;
      if |ids| == 0 || |distinct| != |ids| {
        ListSize(ids);
        return false;
      }
      if project.None? { return false; }
      var existing := Own(tables.workspaces, project.value);
      CountedPermutation(tables, project.value, ids);
      if |ids| != |existing| || exists id :: id in ids && id !in existing { return false; }
      WriteOrder(ids);
      ok := true;
    }

    /** One update per workspace: its place in the list. */
    method WriteOrder(ids: seq<WorkspaceId>)
      requires forall id :: id in ids ==> id in tables.workspaces
      modifies this
      ensures tables == old(tables).(workspaces := Reordered(old(tables).workspaces, ids))
    {
      for i := 0 to |ids|
        invariant tables == old(tables).(workspaces := Reordered(old(tables).workspaces, ids[..i]))
        invariant tables.workspaces.Keys == old(tables).workspaces.Keys
      {
        assert ids[..i + 1][..i] == ids[..i];
        assert ids[i] in ids;
        tables := tables.(workspaces := tables.workspaces[ids[i] := tables.workspaces[ids[i]].(sortIndex := i)]);
      }
      assert ids[..|ids|] == ids;
    }

    /** `#removePresentationEntityRefs`, row by row; a row whose state cannot be read is passed over. */
    method RemoveRefs(p: ProjectId, ref: EntityRef)
      modifies this
      ensures tables == old(tables).(presentations := map v | v in old(tables).presentations ::
                if old(tables).presentations[v].projectId == p then Cleared(old(tables).presentations[v], ref)
                else old(tables).presentations[v])
    {
      var left := set v | v in tables.presentations && tables.presentations[v].projectId == p;
      var rows := tables.presentations;
      while left != {}
        invariant rows.Keys == old(tables).presentations.Keys && tables == old(tables)
        invariant forall v :: v in left ==> v in rows && old(tables).presentations[v].projectId == p
        invariant forall v :: v in rows && (old(tables).presentations[v].projectId != p || v in left) ==>
                    rows[v] == old(tables).presentations[v]
        invariant forall v :: v in rows && old(tables).presentations[v].projectId == p && v !in left ==>
                    rows[v] == Cleared(old(tables).presentations[v], ref)
        decreases left
      {
        var v :| v in left;
        left := left - {v};
        if rows[v].refs.Some? {
          var filtered := WithoutRef(rows[v].refs.value, ref);
          if |filtered| != |rows[v].refs.value| {
            rows := rows[v := rows[v].(refs := Some(filtered))];
          }
        }
      }
      tables := tables.(presentations := rows);
    }

    /** `delete_workspace`. */
    method Delete(project: Option<ProjectId>, id: WorkspaceId)
      modifies this
      ensures tables == RemoveWorkspace(old(tables), project, id)
    {
      if project.Some? && project.value != "" {
        RemoveRefs(project.value, WorkspaceRef(id));
        tables := tables.(presentations := map v | v in tables.presentations
          && !(v == OwnPresentation(id) && tables.presentations[v].projectId == project.value) ::
             tables.presentations[v]);
        assert tables.presentations == WithoutWorkspace(old(tables).presentations, project.value, id);
      }
      tables := tables.(memberships := (set m | m in tables.memberships && m.0 != id));
      tables := tables.(workspaces := tables.workspaces - {id});
    }

    /** The operations that upsert or delete one row of a table of its own. */
    method ChangeRow(project: Option<ProjectId>, op: Op) returns (ok: bool)
      requires op.UpsertScope? || op.UpsertArtifact? || op.UpsertRelation? || op.DeleteRelation? || op.UpsertNote?
      modifies this
      ensures ok == OpOk(old(tables), project, op)
      ensures tables == if ok then Do(old(tables), project, op) else old(tables)
    {
      ok := true;
      match op
      case UpsertScope(id, p) =>
        ok := OwnedBy(tables.scopes, id, p) && p in tables.projects;
        if ok { tables := tables.(scopes := tables.scopes[id := p]); }
      case UpsertArtifact(id, a) =>
        ok := ArtifactOk(tables, id, a);
        if ok { tables := tables.(artifacts := tables.artifacts[id := a]); }
      case UpsertRelation(id, p) =>
        ok := OwnedBy(tables.relations, id, p) && p in tables.projects;
        if ok { tables := tables.(relations := tables.relations[id := p]); }
      case DeleteRelation(id) => tables := tables.(relations := tables.relations - {id});
      case UpsertNote(id, p) =>
        ok := OwnedBy(tables.notes, id, p) && p in tables.projects;
        if ok { tables := tables.(notes := tables.notes[id := p]); }
    }

    /** The `switch` on one operation. */
    method Step(project: Option<ProjectId>, op: Op) returns (ok: bool)
      modifies this
      ensures ok == OpOk(old(tables), project, op)
      ensures tables == if ok then Do(old(tables), project, op) else old(tables)
    {
      if op.UpsertScope? || op.UpsertArtifact? || op.UpsertRelation? || op.DeleteRelation? || op.UpsertNote? {
        ok := ChangeRow(project, op);
        return;
      }
      if op.UpdateViewport? || op.UpdatePresentation? || op.UpdateFrame? {
        ok := op.UpdateFrame? ==> FrameOk(tables, op.workspaceId, op.expectedVersion);
        if ok { tables := ChangeWorkspace(tables, op); }
        return;
      }
      if op.UpsertWorkspace? {
        ok := PutWorkspaceRow(op.workspaceId, op.workspace);
        return;
      }
      if op.DeleteWorkspace? {
        Delete(project, op.workspaceId);
        return true;
      }
      if op.ReorderWorkspaces? {
        ok := Reorder(project, op.workspaceIds);
        return;
      }
      ok := !op.Bootstrap? && (op.UpsertView? ==> ViewOk(tables, op.viewId, op.view));
      if ok { tables := ChangeView(tables, op); }
    }

    method RunOps(project: Option<ProjectId>, ops: seq<Op>) returns (ok: bool)
      modifies this
      ensures ok == OpsOk(old(tables), project, ops)
      ensures ok ==> tables == DoAll(old(tables), project, ops)
    {
      for i := 0 to |ops|
        invariant OpsOk(old(tables), project, ops[..i])
        invariant tables == DoAll(old(tables), project, ops[..i])
      {
        assert ops[..i + 1][..i] == ops[..i];
        ok := Step(project, ops[i]);
        if !ok {
          RefusedOp(old(tables), project, ops, i + 1);
          return;
        }
      }
      assert ops[..|ops|] == ops;
      ok := true;
    }

    /** `applyMutations`, for a batch that is not a single bootstrap. */
    method ApplyMutations(b: Batch) returns (result: Result<nat, Error>)
      requires !(|b.ops| == 1 && b.ops[0].Bootstrap?)
      modifies this
      ensures result.Ok? <==> Commits(old(tables), b)
      ensures tables == if result.Ok? then Committed(old(tables), b) else old(tables)
      ensures result.Ok? && ProjectOf(old(tables), b).Some? && ProjectOf(old(tables), b).value in tables.projects
              ==> result.value == tables.projects[ProjectOf(old(tables), b).value]
    {
      var project := ResolveProject(tables, b.ops, b.fallback);
      if Named(project) && !b.containmentOk { return Err(ContainmentRefused); }
      if project.Some? && project.value !in tables.projects { return Err(ProjectMissing); }
      var saved := tables;
      if b.ops != [] && Named(project) {
        var cv := tables.projects[project.value];
        if b.baseVersion != cv && cv > 0 { return Err(StaleGraphVersion(cv)); }
        if exists op :: op in b.ops && IsSemantic(op) {
          tables := tables.(projects := tables.projects[project.value := cv + 1]);
        }
      }
      var ok := RunOps(project, b.ops);
      if !ok {
        tables := saved;
        return Err(OperationRefused);
      }
      result := Ok(if project.Some? && project.value in tables.projects then tables.projects[project.value] else 0);
    }
  }

  // ---------- proofs for the methods ----------

  lemma {:induction false} RefusedOp(t: Tables, project: Option<ProjectId>, ops: seq<Op>, n: nat)
    requires n <= |ops| && !OpsOk(t, project, ops[..n])
    ensures !OpsOk(t, project, ops)
  {
    if n < |ops| {
      assert ops[..|ops| - 1][..n] == ops[..n];
      RefusedOp(t, project, ops[..|ops| - 1], n);
    } else {
      assert ops[..n] == ops;
    }
  }

  /** A list has as many elements as its set exactly when it repeats none. */
  lemma {:induction false} ListSize<T>(s: seq<T>)
    ensures |set x | x in s| <= |s|
    ensures |set x | x in s| == |s| <==> forall i, j :: 0 <= i < j < |s| ==> s[i] != s[j]
  {
    if s != [] {
      var front, last := s[..|s| - 1], s[|s| - 1];
      ListSize(front);
      assert (set x | x in s) == (set x | x in front) + {last};
      if last in front {
        var i :| 0 <= i < |front| && front[i] == last;
        assert s[i] == s[|s| - 1];
        assert (set x | x in s) == (set x | x in front);
      } else {
        forall i | 0 <= i < |front| ensures s[i] != last { assert front[i] in front; }
      }
    }
  }

  /** Checking counts and membership is checking for a permutation. */
  lemma CountedPermutation(t: Tables, p: ProjectId, ids: seq<WorkspaceId>)
    ensures |set id | id in ids| == |ids| ==>
              (IsPermutation(t, p, ids) <==> |ids| == |Own(t.workspaces, p)| && forall id :: id in ids ==>
                  id in Own(t.workspaces, p))
  {
    ListSize(ids);
    var listed, own := (set id | id in ids), Own(t.workspaces, p);
    if |listed| == |ids| && listed <= own {
      SubsetOfEqualSize(listed, own);
    }
    if IsPermutation(t, p, ids) { assert listed == own; }
  }

  lemma SubsetOfEqualSize<T>(a: set<T>, b: set<T>)
    requires a <= b
    ensures |a| == |b| <==> a == b
  {
    assert |b| == |a| + |b - a| by { assert b == a + (b - a); }
  }
}
