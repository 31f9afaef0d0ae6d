/**
 * What every mutation batch keeps: graph versions, workspace order, presentation references and current revisions
 * (apps/local-core/src/metadata-repository.ts, `applyMutations`).
 */
module MutationHistory {
  import opened Wrappers
  import opened MutationBatch

  // ---------- graph versions ----------

  lemma OpKeepsProjects(t: Tables, project: Option<ProjectId>, op: Op)
    requires OpOk(t, project, op)
    ensures Do(t, project, op).projects == t.projects
  {
  }

  lemma {:induction false} OpsKeepProjects(t: Tables, project: Option<ProjectId>, ops: seq<Op>)
    requires OpsOk(t, project, ops)
    ensures DoAll(t, project, ops).projects == t.projects
  {
    if ops != [] {
      OpsKeepProjects(t, project, ops[..|ops| - 1]);
      OpKeepsProjects(DoAll(t, project, ops[..|ops| - 1]), project, ops[|ops| - 1]);
    }
  }

  lemma CommittedProjects(t: Tables, b: Batch)
    requires Commits(t, b)
    ensures Committed(t, b).projects == Bumped(t, ProjectOf(t, b), b.ops).projects
  {
    OpsKeepProjects(Bumped(t, ProjectOf(t, b), b.ops), ProjectOf(t, b), b.ops);
  }

  /**
   * A committed batch moves the version of its own project by one exactly when it holds a semantic operation, and no
   * other version.
   */
  lemma VersionAfterBatch(t: Tables, b: Batch, p: ProjectId)
    requires Commits(t, b) && p in t.projects
    ensures var after := Committed(t, b).projects;
            p in after && after[p] == t.projects[p] + if HasSemantic(b.ops) && p != "" && ProjectOf(t, b) == Some(p)
                then 1 else 0
  {
    CommittedProjects(t, b);
  }

  /** Batches committed one after the other; a refused one changes nothing. */
  ghost function Apply(t: Tables, b: Batch): Tables { if Commits(t, b) then Committed(t, b) else t }

  ghost function After(t: Tables, batches: seq<Batch>): Tables {
    if batches == [] then t else Apply(After(t, batches[..|batches| - 1]), batches[|batches| - 1])
  }

  /** The number of committed semantic batches of project `p`. */
  ghost function SemanticCommits(t: Tables, batches: seq<Batch>, p: ProjectId): nat {
    if batches == [] then 0
    else
      var front, b := batches[..|batches| - 1], batches[|batches| - 1];
      var before := After(t, front);
      SemanticCommits(t, front, p) + if Commits(before, b) && HasSemantic(b.ops) && ProjectOf(before, b) == Some(p)
          then 1 else 0
  }

  /** The version counts the committed semantic batches, whatever else happens. */
  lemma {:induction false} VersionCountsSemanticCommits(t: Tables, batches: seq<Batch>, p: ProjectId)
    requires p in t.projects && p != ""
    ensures var after := After(t, batches);
            p in after.projects && after.projects[p] == t.projects[p] + SemanticCommits(t, batches, p)
  {
    if batches != [] {
      var front, b := batches[..|batches| - 1], batches[|batches| - 1];
      VersionCountsSemanticCommits(t, front, p);
      if Commits(After(t, front), b) { VersionAfterBatch(After(t, front), b, p); }
    }
  }

  /** Some version between is positive and differs from the base, so the batch is refused. */
  lemma LaterBatchIsStale(t: Tables, b: Batch, p: ProjectId)
    requires b.ops != [] && p != "" && p in t.projects && ProjectOf(t, b) == Some(p)
    ensures Commits(t, b) ==> b.baseVersion == t.projects[p] || t.projects[p] == 0
  {
  }

  /**
   * Two batches for a project built on the same base, with any other batches between them, the first of them
   * semantic: the second is refused, except when the first was let through because the stored version was zero and
   * the base happens to equal the version reached since.
   */
  lemma SecondOnTheSameBaseIsRefused(t: Tables, first: Batch, between: seq<Batch>, second: Batch, p: ProjectId)
    requires p in t.projects && p != "" && Commits(t, first) && ProjectOf(t, first) == Some(p) && HasSemantic(first.ops)
    requires second.baseVersion == first.baseVersion && second.ops != []
    requires ProjectOf(After(Committed(t, first), between), second) == Some(p)
    ensures var later := After(Committed(t, first), between);
            && p in later.projects
            && (Stale(later, Some(p), second.ops, second.baseVersion)
                <==> !(t.projects[p] == 0 && later.projects[p] == first.baseVersion))
            && (!(t.projects[p] == 0 && later.projects[p] == first.baseVersion) ==> !Commits(later, second))
  {
    VersionAfterBatch(t, first, p);
    VersionCountsSemanticCommits(Committed(t, first), between, p);
    LaterBatchIsStale(t, first, p);
  }

  /** The exception is real: on a project at version 0, two semantic batches on base 1 both commit. */
  lemma BaseOneCommitsTwiceAtVersionZero(t: Tables, p: ProjectId, scope: ScopeId)
    requires p != "" && p in t.projects && t.projects[p] == 0 && scope !in t.scopes
    ensures var b := Batch([UpsertScope(scope, p)], 1, None, true);
            HasSemantic(b.ops) && Commits(t, b) && Commits(Committed(t, b), b)
  {
    OneScopeBatch(t, p, scope, 1);
    OneScopeBatch(Committed(t, Batch([UpsertScope(scope, p)], 1, None, true)), p, scope, 1);
  }

  lemma OneScopeBatch(t: Tables, p: ProjectId, scope: ScopeId, base: nat)
    requires p != "" && p in t.projects && OwnedBy(t.scopes, scope, p) && (base == t.projects[p] || t.projects[p] == 0)
    ensures var b := Batch([UpsertScope(scope, p)], base, None, true);
            && HasSemantic(b.ops) && Commits(t, b)
            && Committed(t, b) == t.(projects := t.projects[p := t.projects[p] + 1], scopes := t.scopes[scope := p])
  {
    var op := UpsertScope(scope, p);
    var b := Batch([op], base, None, true);
    SemanticOne(op);
    DirectOne(op);
    var bumped := Bumped(t, Some(p), b.ops);
    assert bumped == t.(projects := t.projects[p := t.projects[p] + 1]);
    OneOp(bumped, Some(p), op);
  }

  lemma DirectOne(op: Op)
    requires !op.Bootstrap?
    ensures DirectProject([op]) == OpProject(op)
  {
    assert [op][1..] == [];
  }

  lemma SemanticOne(op: Op)
    ensures HasSemantic([op]) <==> IsSemantic(op)
  {
    assert op in [op];
  }

  lemma OneOp(t: Tables, project: Option<ProjectId>, op: Op)
    ensures OpsOk(t, project, [op]) <==> OpOk(t, project, op)
    ensures OpOk(t, project, op) ==> DoAll(t, project, [op]) == Do(t, project, op)
  {
    var ops := [op];
    assert ops[..0] == [] && DoAll(t, project, ops[..0]) == t;
  }

  // ---------- workspace order ----------

  /** No two workspaces of a project have the same `sort_index`. */
  ghost predicate IndicesDistinct(workspaces: map<WorkspaceId, Workspace>) {
    forall v, w ::
      v in workspaces && w in workspaces && v != w && workspaces[v].projectId == workspaces[w].projectId ==>
        workspaces[v].sortIndex != workspaces[w].sortIndex
  }

  lemma {:induction false} ReorderedAt(workspaces: map<WorkspaceId, Workspace>, ids: seq<WorkspaceId>)
    requires forall id :: id in ids ==> id in workspaces
    requires forall i, j :: 0 <= i < j < |ids| ==> ids[i] != ids[j]
    ensures var after := Reordered(workspaces, ids);
            && after.Keys == workspaces.Keys
            && (forall i: nat :: i < |ids| ==> after[ids[i]] == workspaces[ids[i]].(sortIndex := i))
            && (forall w :: w in workspaces && w !in ids ==> after[w] == workspaces[w])
  {
    if ids != [] {
      var k := |ids| - 1;
      ReorderedAt(workspaces, ids[..k]);
      assert ids == ids[..k] + [ids[k]] && ids[k] !in ids[..k];
    }
  }

  lemma ReorderKeepsIndicesDistinct(t: Tables, p: ProjectId, ids: seq<WorkspaceId>)
    requires IndicesDistinct(t.workspaces) && IsPermutation(t, p, ids)
    ensures IndicesDistinct(Reordered(t.workspaces, ids))
  {
    ReorderedAt(t.workspaces, ids);
    var after := Reordered(t.workspaces, ids);
    forall v, w | v in after && w in after && v != w && after[v].projectId == after[w].projectId
      ensures after[v].sortIndex != after[w].sortIndex
    {
      if v in ids {
        var i :| 0 <= i < |ids| && ids[i] == v;
        assert w in Own(t.workspaces, p);
        var j :| 0 <= j < |ids| && ids[j] == w;
      } else {
        assert w !in ids;
      }
    }
  }

  lemma OpKeepsIndicesDistinct(t: Tables, project: Option<ProjectId>, op: Op)
    requires IndicesDistinct(t.workspaces) && OpOk(t, project, op)
    ensures IndicesDistinct(Do(t, project, op).workspaces)
  {
    match op
    case UpsertWorkspace(id, w) => UpsertKeepsIndicesDistinct(t, id, w);
    case ReorderWorkspaces(ids) => ReorderKeepsIndicesDistinct(t, project.value, ids);
    case _ =>
  }

  lemma UpsertKeepsIndicesDistinct(t: Tables, id: WorkspaceId, w: Workspace)
    requires IndicesDistinct(t.workspaces) && WorkspaceOk(t, id, w)
    ensures IndicesDistinct(PutWorkspace(t, id, w).workspaces)
  {
    var next := NextIndex(t.workspaces, w.projectId);
    forall v | v in t.workspaces && t.workspaces[v].projectId == w.projectId ensures t.workspaces[v].sortIndex < next {
      assert v in Own(t.workspaces, w.projectId);
    }
  }

  lemma {:induction false} OpsKeepIndicesDistinct(t: Tables, project: Option<ProjectId>, ops: seq<Op>)
    requires IndicesDistinct(t.workspaces) && OpsOk(t, project, ops)
    ensures IndicesDistinct(DoAll(t, project, ops).workspaces)
  {
    if ops != [] {
      OpsKeepIndicesDistinct(t, project, ops[..|ops| - 1]);
      OpKeepsIndicesDistinct(DoAll(t, project, ops[..|ops| - 1]), project, ops[|ops| - 1]);
    }
  }

  /** Any run of batches, committed or refused, leaves the indices of a project pairwise distinct. */
  lemma {:induction false} RunKeepsIndicesDistinct(t: Tables, batches: seq<Batch>)
    requires IndicesDistinct(t.workspaces)
    ensures IndicesDistinct(After(t, batches).workspaces)
  {
    if batches != [] {
      var before, b := After(t, batches[..|batches| - 1]), batches[|batches| - 1];
      RunKeepsIndicesDistinct(t, batches[..|batches| - 1]);
      if Commits(before, b) {
        OpsKeepIndicesDistinct(Bumped(before, ProjectOf(before, b), b.ops), ProjectOf(before, b), b.ops);
      }
    }
  }

  /** `getWorkspaces`: the project's workspaces by `sort_index`; with distinct indices the row order plays no part. */
  ghost predicate IsListing(workspaces: map<WorkspaceId, Workspace>, p: ProjectId, listing: seq<WorkspaceId>) {
    && (forall id :: id in listing <==> id in Own(workspaces, p))
    && (forall i, j :: 0 <= i < j < |listing| ==>
          listing[i] in workspaces && listing[j] in workspaces
              && workspaces[listing[i]].sortIndex < workspaces[listing[j]].sortIndex)
  }

  /** If the i-th row of `ids` has index i, a listing has it in place i. */
  lemma {:induction false} ListedInPlace(
    workspaces: map<WorkspaceId, Workspace>, p: ProjectId, ids: seq<WorkspaceId>, listing: seq<WorkspaceId>, i: nat)
    requires IsListing(workspaces, p, listing) && i < |ids|
    requires forall id :: id in ids <==> id in Own(workspaces, p)
    requires forall k: nat :: k < |ids| ==> ids[k] in workspaces && workspaces[ids[k]].sortIndex == k
    ensures i < |listing| && listing[i] == ids[i]
  {
    forall m: nat | m < i
      ensures m < |listing| && listing[m] == ids[m]
    {
      ListedInPlace(workspaces, p, ids, listing, m);
    }
    assert ids[i] in ids && ids[i] in listing;
    var j :| 0 <= j < |listing| && listing[j] == ids[i];
    assert i <= j;
    assert listing[i] in listing && listing[i] in ids;
    var m :| 0 <= m < |ids| && ids[m] == listing[i];
  }

  lemma SameLength(
    workspaces: map<WorkspaceId, Workspace>, p: ProjectId, ids: seq<WorkspaceId>, listing: seq<WorkspaceId>)
    requires IsListing(workspaces, p, ids) && IsListing(workspaces, p, listing) && ids <= listing
    ensures ids == listing
  {
    if listing != [] {
      var last := listing[|listing| - 1];
      assert last in listing && last in ids;
      var m :| 0 <= m < |ids| && ids[m] == last;
      assert listing[m] == last;
    }
  }

  /**
   * A reorder is carried out only for a list of all the project's workspaces, and listing them then gives that list.
   */
  lemma ReorderSetsTheListing(t: Tables, p: ProjectId, ids: seq<WorkspaceId>, listing: seq<WorkspaceId>)
    requires OpOk(t, Some(p), ReorderWorkspaces(ids))
    ensures var after := Do(t, Some(p), ReorderWorkspaces(ids)).workspaces;
            && IsPermutation(t, p, ids) && IsListing(after, p, ids)
            && (IsListing(after, p, listing) ==> listing == ids)
  {
    ReorderedAt(t.workspaces, ids);
    var after := Do(t, Some(p), ReorderWorkspaces(ids)).workspaces;
    forall w ensures w in Own(after, p) <==> w in Own(t.workspaces, p) {
      if w in ids { var i: nat :| i < |ids| && ids[i] == w; }
    }
    if IsListing(after, p, listing) {
      forall i: nat | i < |ids|
        ensures i < |listing| && listing[i] == ids[i]
      {
        ListedInPlace(after, p, ids, listing, i);
      }
      SameLength(after, p, ids, listing);
    }
  }

  // ---------- deleted workspaces ----------

  /** No presentation of the project refers to the workspace. */
  ghost predicate Unreferenced(t: Tables, p: ProjectId, id: WorkspaceId) {
    forall v :: v in t.presentations && t.presentations[v].projectId == p && t.presentations[v].refs.Some? ==>
      WorkspaceRef(id) !in t.presentations[v].refs.value
  }

  lemma OpKeepsUnreferenced(t: Tables, project: Option<ProjectId>, op: Op, p: ProjectId, id: WorkspaceId)
    requires OpOk(t, project, op) && Unreferenced(t, p, id)
    ensures Unreferenced(Do(t, project, op), p, id)
  {
  }

  /**
   * A batch that deletes a workspace leaves no reference to it in the batch's project, and not the workspace's own
   * presentation.
   */
  lemma {:induction false} DeletedWorkspaceIsUnreferenced(t: Tables, p: ProjectId, ops: seq<Op>, k: nat)
    requires p != "" && OpsOk(t, Some(p), ops) && k < |ops| && ops[k].DeleteWorkspace?
    ensures Unreferenced(DoAll(t, Some(p), ops), p, ops[k].workspaceId)
    ensures var own := OwnPresentation(ops[k].workspaceId);
            own in DoAll(t, Some(p), ops).presentations ==> DoAll(t, Some(p), ops).presentations[own].projectId != p
  {
    var front := ops[..|ops| - 1];
    if k < |front| {
      DeletedWorkspaceIsUnreferenced(t, p, front, k);
      OpKeepsUnreferenced(DoAll(t, Some(p), front), Some(p), ops[|ops| - 1], p, ops[k].workspaceId);
    }
  }

  // ---------- current revisions ----------

  lemma OpKeepsCurrentRevisions(t: Tables, project: Option<ProjectId>, op: Op, a: ArtifactId)
    requires OpOk(t, project, op) && a in t.artifacts
    ensures var after := Do(t, project, op).artifacts;
            a in after && after[a].current == t.artifacts[a].current && after[a].projectId == t.artifacts[a].projectId
  {
  }

  /** No batch changes the current revision of an artifact that already exists, or the artifact's project. */
  lemma {:induction false} BatchKeepsCurrentRevisions(
    t: Tables, project: Option<ProjectId>, ops: seq<Op>, a: ArtifactId)
    requires OpsOk(t, project, ops) && a in t.artifacts
    ensures var after := DoAll(t, project, ops).artifacts;
            a in after && after[a].current == t.artifacts[a].current && after[a].projectId == t.artifacts[a].projectId
  {
    if ops != [] {
      BatchKeepsCurrentRevisions(t, project, ops[..|ops| - 1], a);
      OpKeepsCurrentRevisions(DoAll(t, project, ops[..|ops| - 1]), project, ops[|ops| - 1], a);
    }
  }

  // ---------- which project a batch is for ----------

  /** The project an operation's payload names, if it is not empty. */
  function PayloadProject(op: Op): Option<ProjectId> {
    var p := match op
      case Bootstrap(projectId) => projectId
      case UpsertWorkspace(_, w) => w.projectId
      case UpsertScope(_, projectId) => projectId
      case UpsertArtifact(_, a) => a.projectId
      case UpsertRelation(_, projectId) => projectId
      case UpsertNote(_, projectId) => projectId
      case _ => "";
    if p == "" then None else Some(p)
  }

  /** The row that the operation moves, resizes, shows, or deletes belongs to project `p`. */
  ghost predicate RowIsOf(t: Tables, op: Op, p: ProjectId) {
    || ((op.MoveView? || op.ResizeView? || op.UpdateViewPresentation? || op.DeleteView?)
        && op.viewId in t.views && t.views[op.viewId].artifactId in t.artifacts
        && t.artifacts[t.views[op.viewId].artifactId].projectId == p)
    || ((op.UpdateViewport? || op.UpdatePresentation? || op.DeleteWorkspace?)
        && op.workspaceId in t.workspaces && t.workspaces[op.workspaceId].projectId == p)
    || (op.DeleteRelation? && op.relationId in t.relations && t.relations[op.relationId] == p)
  }

  lemma RowProjectExactly(t: Tables, op: Op, p: ProjectId)
    ensures RowProject(t, op) == Some(p) <==> RowIsOf(t, op, p)
  {
  }

  /**
   * The first operation that names a project in its payload decides, if nothing bootstraps an empty one before; else
   * the project given with the batch; else the first operation on a row that belongs to a project.
   */
  lemma ProjectOfBatch(t: Tables, ops: seq<Op>, fallback: Option<ProjectId>, k: nat, p: ProjectId)
    ensures k < |ops| && PayloadProject(ops[k]) == Some(p)
            && (forall j :: 0 <= j < k ==> PayloadProject(ops[j]).None? && !ops[j].Bootstrap?) ==>
              ResolveProject(t, ops, fallback) == Some(p)
    ensures (forall j :: 0 <= j < |ops| ==> PayloadProject(ops[j]).None?) && fallback.Some? ==>
              ResolveProject(t, ops, fallback) == fallback
    ensures (forall j :: 0 <= j < |ops| ==> PayloadProject(ops[j]).None?) && fallback.None?
            && k < |ops| && RowIsOf(t, ops[k], p)
            && (forall j, q :: 0 <= j < k ==> !RowIsOf(t, ops[j], q)) ==>
              ResolveProject(t, ops, fallback) == Some(p)
  {
    DirectExactly(ops, k, p);
    FirstRowExactly(t, ops, k, p);
  }

  lemma {:induction false} DirectExactly(ops: seq<Op>, k: nat, p: ProjectId)
    ensures (forall j :: 0 <= j < |ops| ==> PayloadProject(ops[j]).None?) ==> DirectProject(ops) == ""
    ensures k < |ops| && PayloadProject(ops[k]) == Some(p)
            && (forall j :: 0 <= j < k ==> PayloadProject(ops[j]).None? && !ops[j].Bootstrap?) ==>
              DirectProject(ops) == p && p != ""
  {
    if ops != [] {
      var rest := ops[1..];
      DirectExactly(rest, if k > 0 then k - 1 else 0, p);
      assert forall j :: 0 <= j < |rest| ==> rest[j] == ops[j + 1];
      if k > 0 && k < |ops| { assert rest[k - 1] == ops[k]; }
    }
  }

  lemma {:induction false} FirstRowExactly(t: Tables, ops: seq<Op>, k: nat, p: ProjectId)
    ensures k < |ops| && RowIsOf(t, ops[k], p) && (forall j, q :: 0 <= j < k ==> !RowIsOf(t, ops[j], q)) ==>
              FirstRowProject(t, ops) == Some(p)
  {
    if k < |ops| && RowIsOf(t, ops[k], p) && forall j, q :: 0 <= j < k ==> !RowIsOf(t, ops[j], q) {
      RowProjectExactly(t, ops[0], p);
      if k > 0 {
        if RowProject(t, ops[0]).Some? { RowProjectExactly(t, ops[0], RowProject(t, ops[0]).value); }
        var rest := ops[1..];
        assert forall j :: 0 <= j < |rest| ==> rest[j] == ops[j + 1];
        FirstRowExactly(t, rest, k - 1, p);
      }
    }
  }

  /** When an operation is carried out, in terms of the stored rows. */
  lemma OperationIsOk(t: Tables, project: Option<ProjectId>, op: Op)
    ensures OpOk(t, project, op) <==>
              match op
              case Bootstrap(_) => false
              case UpdateFrame(w, _, expected) =>
                w in t.workspaces && (expected.None? || expected == Some(t.workspaces[w].version))
              case UpsertWorkspace(id, w) =>
                w.projectId in t.projects && (id !in t.workspaces || t.workspaces[id].projectId == w.projectId)
              case ReorderWorkspaces(ids) =>
                && ids != [] && project.Some?
                && (forall i, j :: 0 <= i < j < |ids| ==> ids[i] != ids[j])
                && (forall w :: w in ids <==> w in t.workspaces && t.workspaces[w].projectId == project.value)
              case UpsertScope(id, p) => p in t.projects && (id !in t.scopes || t.scopes[id] == p)
              case UpsertRelation(id, p) => p in t.projects && (id !in t.relations || t.relations[id] == p)
              case UpsertNote(id, p) => p in t.projects && (id !in t.notes || t.notes[id] == p)
              case UpsertArtifact(id, a) =>
                && a.projectId in t.projects
                && (id !in t.artifacts
                    || (t.artifacts[id].projectId == a.projectId && t.artifacts[id].current == a.current))
              case UpsertView(id, v) =>
                && v.artifactId in t.artifacts
                && (id in t.views && t.views[id].artifactId in t.artifacts ==>
                      t.artifacts[t.views[id].artifactId].projectId == t.artifacts[v.artifactId].projectId)
              case _ => true
  {
  }

  // ---------- what one operation writes ----------

  function RowOf<T>(table: map<string, T>, id: string): Option<T> { if id in table then Some(table[id]) else None }

  /** View `v` after the operation, from its row before: only the named view changes, and only the fields given. */
  ghost predicate ViewAfter(op: Op, v: ViewId, before: Option<View>, after: Option<View>) {
    match op
    case MoveView(id, x, y) =>
      if id == v && before.Some? then
        var b := before.value; after == Some(View(b.artifactId, x, y, b.width, b.height, b.collapsed, b.mode))
      else after == before
    case ResizeView(id, width, height) =>
      if id == v && before.Some? then
        var b := before.value; after == Some(View(b.artifactId, b.x, b.y, width, height, b.collapsed, b.mode))
      else after == before
    case UpdateViewPresentation(id, collapsed, mode) =>
      if id == v && before.Some? then
        var b := before.value; after == Some(View(b.artifactId, b.x, b.y, b.width, b.height, collapsed, mode))
      else after == before
    case DeleteView(id) => after == if id == v then None else before
    case UpsertView(id, view) => after == if id == v then Some(view) else before
    case _ => after == before
  }

  /**
   * Workspace `w` after the operation, from its row before. A reorder changes only sort indices, and an upsert neither
   * the project nor the sort index of a row that exists.
   */
  ghost predicate WorkspaceAfter(op: Op, w: WorkspaceId, before: Option<Workspace>, after: Option<Workspace>) {
    match op
    case UpdateViewport(id, viewport) =>
      if id == w && before.Some? then
        var b := before.value;
        after == Some(Workspace(b.projectId, b.content, viewport, b.presentation, b.frame, b.version, b.sortIndex))
      else after == before
    case UpdatePresentation(id, presentation) =>
      if id == w && before.Some? then
        var b := before.value;
        after == Some(Workspace(b.projectId, b.content, b.viewport, presentation, b.frame, b.version, b.sortIndex))
      else after == before
    case UpdateFrame(id, frame, _) =>
      if id == w && before.Some? then
        var b := before.value;
        after == Some(Workspace(b.projectId, b.content, b.viewport, b.presentation, frame, b.version + 1, b.sortIndex))
      else after == before
    case UpsertWorkspace(id, row) =>
      if id == w then
        && after.Some?
        && after.value
           == Workspace(row.projectId, row.content, row.viewport, row.presentation, row.frame, row.version,
                after.value.sortIndex)
        && (before.Some? ==> after.value.sortIndex == before.value.sortIndex)
      else after == before
    case DeleteWorkspace(id) => after == if id == w then None else before
    case ReorderWorkspaces(_) =>
      && (after.Some? <==> before.Some?)
      && (before.Some? ==> after == Some(before.value.(sortIndex := after.value.sortIndex)))
    case _ => after == before
  }

  lemma ViewAfterOp(t: Tables, project: Option<ProjectId>, op: Op, v: ViewId)
    requires OpOk(t, project, op)
    ensures ViewAfter(op, v, RowOf(t.views, v), RowOf(Do(t, project, op).views, v))
  {
    ChangedView(t, op, v);
    ViewsKept(t, project, op);
  }

  lemma ChangedView(t: Tables, op: Op, v: ViewId)
    ensures ViewAfter(op, v, RowOf(t.views, v), RowOf(ChangeView(t, op).views, v))
  {
    if NamesView(op, v) {
      if op.MoveView? || op.ResizeView? { PlacedView(t, op, v); }
    } else {
      OtherView(t, op, v);
    }
  }

  lemma OtherView(t: Tables, op: Op, v: ViewId)
    requires !NamesView(op, v)
    ensures RowOf(ChangeView(t, op).views, v) == RowOf(t.views, v)
  {
  }

  lemma PlacedView(t: Tables, op: Op, v: ViewId)
    requires (op.MoveView? || op.ResizeView?) && op.viewId == v
    ensures ViewAfter(op, v, RowOf(t.views, v), RowOf(ChangeView(t, op).views, v))
  {
  }

  lemma ViewsKept(t: Tables, project: Option<ProjectId>, op: Op)
    requires OpOk(t, project, op)
    ensures Do(t, project, op).views == ChangeView(t, op).views
  {
    if op.UpdateViewport? || op.UpdatePresentation? || op.UpdateFrame? { WorkspacesOnly(t, op); }
  }

  lemma WorkspaceAfterOp(t: Tables, project: Option<ProjectId>, op: Op, w: WorkspaceId)
    requires OpOk(t, project, op)
    ensures WorkspaceAfter(op, w, RowOf(t.workspaces, w), RowOf(Do(t, project, op).workspaces, w))
  {
    match op
    case ReorderWorkspaces(_) => ReorderedWorkspace(t, project, op, w);
    case UpsertWorkspace(_, _) => PutOrRemoved(t, project, op, w);
    case DeleteWorkspace(_) => PutOrRemoved(t, project, op, w);
    case UpdateViewport(_, _) => ChangedWorkspace(t, op, w);
    case UpdatePresentation(_, _) => ChangedWorkspace(t, op, w);
    case UpdateFrame(_, _, _) => ChangedWorkspace(t, op, w);
    case _ => WorkspacesKept(t, project, op);
  }

  lemma ReorderedWorkspace(t: Tables, project: Option<ProjectId>, op: Op, w: WorkspaceId)
    requires op.ReorderWorkspaces? && OpOk(t, project, op)
    ensures WorkspaceAfter(op, w, RowOf(t.workspaces, w), RowOf(Do(t, project, op).workspaces, w))
  {
    var ids := op.workspaceIds;
    ReorderedAt(t.workspaces, ids);
    if w in ids { var i: nat :| i < |ids| && ids[i] == w; }
  }

  lemma PutOrRemoved(t: Tables, project: Option<ProjectId>, op: Op, w: WorkspaceId)
    requires (op.UpsertWorkspace? || op.DeleteWorkspace?) && OpOk(t, project, op)
    ensures WorkspaceAfter(op, w, RowOf(t.workspaces, w), RowOf(Do(t, project, op).workspaces, w))
  {
  }

  lemma ChangedWorkspace(t: Tables, op: Op, w: WorkspaceId)
    requires op.UpdateViewport? || op.UpdatePresentation? || op.UpdateFrame?
    ensures WorkspaceAfter(op, w, RowOf(t.workspaces, w), RowOf(ChangeWorkspace(t, op).workspaces, w))
  {
    match op
    case UpdateViewport(_, _) => ChangedViewport(t, op, w);
    case UpdatePresentation(_, _) => ChangedPresentation(t, op, w);
    case UpdateFrame(_, _, _) => ChangedFrame(t, op, w);
  }

  lemma ChangedViewport(t: Tables, op: Op, w: WorkspaceId)
    requires op.UpdateViewport?
    ensures WorkspaceAfter(op, w, RowOf(t.workspaces, w), RowOf(ChangeWorkspace(t, op).workspaces, w))
  {
    var id := op.workspaceId;
    if id in t.workspaces {
      var b := t.workspaces[id];
      var row := Workspace(b.projectId, b.content, op.viewport, b.presentation, b.frame, b.version, b.sortIndex);
      assert ChangeWorkspace(t, op).workspaces == t.workspaces[id := row];
    }
  }

  lemma ChangedPresentation(t: Tables, op: Op, w: WorkspaceId)
    requires op.UpdatePresentation?
    ensures WorkspaceAfter(op, w, RowOf(t.workspaces, w), RowOf(ChangeWorkspace(t, op).workspaces, w))
  {
    var id := op.workspaceId;
    if id in t.workspaces {
      var b := t.workspaces[id];
      var row := Workspace(b.projectId, b.content, b.viewport, op.presentation, b.frame, b.version, b.sortIndex);
      assert ChangeWorkspace(t, op).workspaces == t.workspaces[id := row];
    }
  }

  lemma ChangedFrame(t: Tables, op: Op, w: WorkspaceId)
    requires op.UpdateFrame?
    ensures WorkspaceAfter(op, w, RowOf(t.workspaces, w), RowOf(ChangeWorkspace(t, op).workspaces, w))
  {
    var id := op.workspaceId;
    if id in t.workspaces {
      var b := t.workspaces[id];
      var row := Workspace(b.projectId, b.content, b.viewport, b.presentation, op.frame, b.version + 1, b.sortIndex);
      assert ChangeWorkspace(t, op).workspaces == t.workspaces[id := row];
    }
  }

  lemma WorkspacesKept(t: Tables, project: Option<ProjectId>, op: Op)
    requires OpOk(t, project, op)
    requires !op.ReorderWorkspaces? && !op.UpsertWorkspace? && !op.DeleteWorkspace?
    requires !op.UpdateViewport? && !op.UpdatePresentation? && !op.UpdateFrame?
    ensures Do(t, project, op).workspaces == t.workspaces
  {
  }

  /** A new workspace comes after all others of its project, directly after the last. */
  lemma NewWorkspaceGoesLast(t: Tables, project: Option<ProjectId>, id: WorkspaceId, w: Workspace)
    requires OpOk(t, project, UpsertWorkspace(id, w)) && id !in t.workspaces
    ensures var after := Do(t, project, UpsertWorkspace(id, w)).workspaces;
            && id in after
            && (forall o :: o in t.workspaces && t.workspaces[o].projectId == w.projectId ==>
                  t.workspaces[o].sortIndex < after[id].sortIndex)
            && (after[id].sortIndex > 0 ==>
                  exists o :: o in t.workspaces && t.workspaces[o].projectId == w.projectId
                              && t.workspaces[o].sortIndex == after[id].sortIndex - 1)
  {
    var next := NextIndex(t.workspaces, w.projectId);
    forall o | o in t.workspaces && t.workspaces[o].projectId == w.projectId ensures t.workspaces[o].sortIndex < next {
      assert o in Own(t.workspaces, w.projectId);
    }
  }

  /** The rows of the other tables. */
  lemma OtherTablesAfterOp(t: Tables, project: Option<ProjectId>, op: Op)
    requires OpOk(t, project, op)
    ensures var after := Do(t, project, op);
            && after.scopes == (if op.UpsertScope? then t.scopes[op.scopeId := op.projectId] else t.scopes)
            && after.artifacts == (if op.UpsertArtifact? then t.artifacts[op.artifactId := op.artifact]
                                   else t.artifacts)
            && after.relations == (if op.UpsertRelation? then t.relations[op.relationId := op.projectId]
                                   else if op.DeleteRelation? then t.relations - {op.relationId} else t.relations)
            && after.notes == (if op.UpsertNote? then t.notes[op.noteId := op.projectId] else t.notes)
            && (forall m :: m in after.memberships <==>
                  m in t.memberships && (op.DeleteWorkspace? ==> m.0 != op.workspaceId))
            && (!op.DeleteWorkspace? ==> after.presentations == t.presentations)
  {
    match op
    case MoveView(_, _, _) => ViewsOnly(t, op);
    case ResizeView(_, _, _) => ViewsOnly(t, op);
    case UpdateViewPresentation(_, _, _) => ViewsOnly(t, op);
    case DeleteView(_) => ViewsOnly(t, op);
    case UpsertView(_, _) => ViewsOnly(t, op);
    case UpdateViewport(_, _) => WorkspacesOnly(t, op);
    case UpdatePresentation(_, _) => WorkspacesOnly(t, op);
    case UpdateFrame(_, _, _) => WorkspacesOnly(t, op);
    case _ =>
  }

  lemma ViewsOnly(t: Tables, op: Op)
    ensures ChangeView(t, op) == t.(views := ChangeView(t, op).views)
  {
  }

  lemma WorkspacesOnly(t: Tables, op: Op)
    ensures ChangeWorkspace(t, op) == t.(workspaces := ChangeWorkspace(t, op).workspaces)
  {
  }

  /** The operation writes the row of view `v`. */
  predicate NamesView(op: Op, v: ViewId) {
    (op.MoveView? || op.ResizeView? || op.UpdateViewPresentation? || op.DeleteView? || op.UpsertView?) && op.viewId == v
  }

  /** A view is where the last operation that writes it leaves it, whatever else the batch holds. */
  lemma {:induction false} LastOperationWins(t: Tables, project: Option<ProjectId>, ops: seq<Op>, k: nat, v: ViewId)
    requires OpsOk(t, project, ops) && k <= |ops| && OpsOk(t, project, ops[..k])
    requires forall j :: k <= j < |ops| ==> !NamesView(ops[j], v)
    ensures RowOf(DoAll(t, project, ops).views, v) == RowOf(DoAll(t, project, ops[..k]).views, v)
  {
    if k == |ops| {
      assert ops[..k] == ops;
    } else {
      var front := ops[..|ops| - 1];
      assert front[..k] == ops[..k];
      LastOperationWins(t, project, front, k, v);
      ViewAfterOp(DoAll(t, project, front), project, ops[|ops| - 1], v);
    }
  }

  lemma {:induction false} PrefixesAreOk(t: Tables, project: Option<ProjectId>, ops: seq<Op>, k: nat)
    requires OpsOk(t, project, ops) && k <= |ops|
    ensures OpsOk(t, project, ops[..k])
    ensures k < |ops| ==> OpOk(DoAll(t, project, ops[..k]), project, ops[k])
  {
    if k == |ops| {
      assert ops[..k] == ops;
    } else {
      var front := ops[..|ops| - 1];
      assert front[..k] == ops[..k];
      if k < |front| { PrefixesAreOk(t, project, front, k); }
    }
  }

  /** A batch that moves a view, and does not write it again, leaves it there. */
  lemma LastMoveStays(t: Tables, b: Batch, k: nat, v: ViewId, x: int, y: int)
    requires Commits(t, b) && k < |b.ops| && b.ops[k] == MoveView(v, x, y)
    requires v in t.views && forall j :: 0 <= j < k ==> b.ops[j] != DeleteView(v)
    requires forall j :: k < j < |b.ops| ==> !NamesView(b.ops[j], v)
    ensures v in Committed(t, b).views && Committed(t, b).views[v].x == x && Committed(t, b).views[v].y == y
  {
    var start, project := Bumped(t, ProjectOf(t, b), b.ops), ProjectOf(t, b);
    PrefixesAreOk(start, project, b.ops, k);
    PrefixesAreOk(start, project, b.ops, k + 1);
    UndeletedViewStays(start, project, b.ops[..k], v);
    assert b.ops[..k + 1][..k] == b.ops[..k];
    ViewAfterOp(DoAll(start, project, b.ops[..k]), project, b.ops[k], v);
    LastOperationWins(start, project, b.ops, k + 1, v);
  }

  lemma {:induction false} UndeletedViewStays(t: Tables, project: Option<ProjectId>, ops: seq<Op>, v: ViewId)
    requires OpsOk(t, project, ops) && v in t.views && forall j :: 0 <= j < |ops| ==> ops[j] != DeleteView(v)
    ensures v in DoAll(t, project, ops).views
  {
    if ops != [] {
      UndeletedViewStays(t, project, ops[..|ops| - 1], v);
      ViewAfterOp(DoAll(t, project, ops[..|ops| - 1]), project, ops[|ops| - 1], v);
    }
  }
}
