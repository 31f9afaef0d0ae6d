/**
 * Artifacts, revisions, returns and runs as the repository stores them
 * (apps/local-core/src/metadata-repository.ts), and what each lifecycle request is
 * allowed to do to them.
 *
 * A table is a map from its primary key. Every request is described by when it commits
 * (`Enabled`) and by the database it then leaves (`Post`); a request that does not commit
 * leaves the database as it was.
 */
module RevisionTables {
  import opened Wrappers

  type ProjectId = string
  type FileId = string
  type ArtifactId = string
  type RevisionId = string
  type ViewId = string
  type ReturnId = string
  type RunId = string
  type DispatchId = string

  datatype RevisionStatus = Draft | Current | Superseded
  datatype RevisionSource = FromImport | FromRun | FromExternal
  datatype ReturnStatus = PendingReview | Adopted | Rejected
  datatype RunStatus = Created | Queued | Running | WaitingInput | Completed | RunFailed | Cancelled

  datatype FileRecord = FileRecord(projectId: ProjectId, hash: string)
  datatype Artifact = Artifact(projectId: ProjectId, current: Option<RevisionId>, birthRun: Option<RunId>)
  datatype Revision = Revision(
    artifactId: ArtifactId, fileId: FileId, parent: Option<RevisionId>, hash: string,
    source: RevisionSource, runId: Option<RunId>, status: RevisionStatus)
  datatype View = View(artifactId: ArtifactId, revisionId: Option<RevisionId>)
  datatype Return = Return(
    runId: RunId, target: ArtifactId, base: RevisionId, fileId: FileId, hash: string, path: string,
    status: ReturnStatus, draft: Option<RevisionId>)
  datatype Run = Run(
    projectId: ProjectId, target: Option<ArtifactId>, targetRevision: Option<RevisionId>, manifest: string,
    retryOf: Option<RunId>, status: RunStatus)

  datatype Database = Database(
    projects: map<ProjectId, nat>,          // graph_version
    manifests: set<string>,
    files: map<FileId, FileRecord>,
    artifacts: map<ArtifactId, Artifact>,
    revisions: map<RevisionId, Revision>,
    views: map<ViewId, View>,
    reviews: map<ReturnId, Return>,
    runs: map<RunId, Run>,
    dispatches: map<DispatchId, RunId>)

  // ---------- statements: when they are accepted, and what they leave ----------

  predicate FileOk(db: Database, id: FileId, f: FileRecord) {
    f.projectId in db.projects && (id in db.files ==> db.files[id].projectId == f.projectId)
  }

  function PutFile(db: Database, id: FileId, f: FileRecord): Database {
    db.(files := db.files[id := if id in db.files then db.files[id].(hash := f.hash) else f])
  }

  predicate ArtifactOk(db: Database, id: ArtifactId, a: Artifact) {
    a.projectId in db.projects && (id in db.artifacts ==> db.artifacts[id].projectId == a.projectId)
  }

  /** ON CONFLICT keeps the row's project and birth run. */
  function PutArtifact(db: Database, id: ArtifactId, a: Artifact): Database {
    db.(artifacts := db.artifacts[id := if id in db.artifacts then db.artifacts[id].(current := a.current)
                                        else Artifact(a.projectId, a.current, None)])
  }

  /** `idx_revision_current`: no other revision of the artifact is current. */
  predicate IndexAllows(revisions: map<RevisionId, Revision>, id: RevisionId, artifactId: ArtifactId) {
    forall r :: r in revisions && r != id && revisions[r].artifactId == artifactId ==> !revisions[r].status.Current?
  }

  /** The artifact a revision row belongs to once `r` has been upserted under `id`. */
  function Owner(db: Database, id: RevisionId, r: Revision): ArtifactId {
    if id in db.revisions then db.revisions[id].artifactId else r.artifactId
  }

  predicate SameProject(db: Database, a: ArtifactId, b: ArtifactId) {
    a in db.artifacts && b in db.artifacts ==> db.artifacts[a].projectId == db.artifacts[b].projectId
  }

  predicate RevisionOk(db: Database, id: RevisionId, r: Revision) {
    && r.fileId in db.files
    && SameProject(db, r.artifactId, Owner(db, id, r))
    && (id !in db.revisions ==> r.artifactId in db.artifacts)
    && (r.status.Current? ==> IndexAllows(db.revisions, id, Owner(db, id, r)))
  }

  /** ON CONFLICT updates the status and nothing else. */
  function PutRevision(db: Database, id: RevisionId, r: Revision): Database {
    db.(revisions := db.revisions[id := if id in db.revisions then db.revisions[id].(status := r.status) else r])
  }

  predicate StatusOk(db: Database, id: RevisionId, status: RevisionStatus) {
    id in db.revisions && status.Current? ==> IndexAllows(db.revisions, id, db.revisions[id].artifactId)
  }

  function SetStatus(db: Database, id: RevisionId, status: RevisionStatus): Database {
    if id in db.revisions then db.(revisions := db.revisions[id := db.revisions[id].(status := status)]) else db
  }

  function SetCurrent(db: Database, id: ArtifactId, current: RevisionId): Database {
    if id in db.artifacts then db.(artifacts := db.artifacts[id := db.artifacts[id].(current := Some(current))]) else db
  }

  /** All views of the artifact show the given revision. */
  function FollowViews(db: Database, id: ArtifactId, revision: RevisionId): Database {
    db.(views := map v | v in db.views ::
      if db.views[v].artifactId == id then db.views[v].(revisionId := Some(revision)) else db.views[v])
  }

  predicate ViewOk(db: Database, id: ViewId, v: View) {
    && v.artifactId in db.artifacts
    && (id in db.views ==> SameProject(db, v.artifactId, db.views[id].artifactId))
  }

  function PutView(db: Database, id: ViewId, v: View): Database { db.(views := db.views[id := v]) }

  function PutViews(db: Database, views: seq<(ViewId, View)>): Database {
    if views == [] then db else PutView(PutViews(db, views[..|views| - 1]), views[|views| - 1].0, views[|views| - 1].1)
  }

  predicate ViewsOk(db: Database, views: seq<(ViewId, View)>) {
    if views == [] then true
    else
      ViewsOk(db, views[..|views| - 1])
          && ViewOk(PutViews(db, views[..|views| - 1]), views[|views| - 1].0, views[|views| - 1].1)
  }

  function BumpGraph(db: Database, project: ProjectId): Database {
    if project in db.projects then db.(projects := db.projects[project := db.projects[project] + 1]) else db
  }

  predicate SameIdentity(a: Return, b: Return) { a.runId == b.runId && a.path == b.path && a.hash == b.hash }

  predicate IdentityTaken(db: Database, t: Return) {
    exists id :: id in db.reviews && SameIdentity(db.reviews[id], t)
  }

  predicate ReturnOk(db: Database, id: ReturnId, t: Return) {
    && id !in db.reviews && !IdentityTaken(db, t)
    && t.runId in db.runs && t.target in db.artifacts && t.base in db.revisions && t.fileId in db.files
    && (t.draft.Some? ==> t.draft.value in db.revisions)
  }

  predicate RunOk(db: Database, id: RunId, run: Run) {
    && id !in db.runs && run.projectId in db.projects && run.manifest in db.manifests
    && (run.target.Some? ==> run.target.value in db.artifacts)
    && (run.targetRevision.Some? ==> run.targetRevision.value in db.revisions)
    && (run.retryOf.Some? ==> run.retryOf.value == id || run.retryOf.value in db.runs)
  }

  // ---------- requests ----------

  datatype Request =
    | Register(fileId: FileId, file: FileRecord, artifactId: ArtifactId, artifact: Artifact,
               revisionId: RevisionId, revision: Revision, viewId: ViewId, view: View)
    | DraftReturn(fileId: FileId, file: FileRecord, revisionId: RevisionId, revision: Revision, returnId: ReturnId,
        ret: Return)
    | CreatedReturn(fileId: FileId, file: FileRecord, artifactId: ArtifactId, artifact: Artifact,
                    revisionId: RevisionId, revision: Revision, returnId: ReturnId, ret: Return)
    | Accept(returnId: ReturnId, expectedBase: RevisionId)
    | Reject(returnId: ReturnId)
    | Retry(returnId: ReturnId, runId: RunId, run: Run, dispatchId: DispatchId, dispatchRun: RunId)
    | StartRun(runId: RunId, run: Run, dispatchId: DispatchId, dispatchRun: RunId)
    | CommitText(artifactId: ArtifactId, previousId: RevisionId, fileId: FileId, file: FileRecord,
        revisionId: RevisionId, revision: Revision)
    | Restore(artifactId: ArtifactId, targetId: RevisionId, expectedId: RevisionId)
    | AdoptExternal(previousId: RevisionId, previous: Revision, fileId: FileId, file: FileRecord,
                    revisionId: RevisionId, revision: Revision, artifactId: ArtifactId, artifact: Artifact,
                        newViews: seq<(ViewId, View)>)

  // ---------- registering an imported source ----------

  /** The rows of an import fit together. */
  predicate RegisterShape(q: Request)
    requires q.Register?
  {
    && q.file.projectId == q.artifact.projectId
    && q.revision.artifactId == q.artifactId && q.revision.fileId == q.fileId
    && q.view.artifactId == q.artifactId && q.view.revisionId == Some(q.revisionId)
    && q.artifact.current == Some(q.revisionId)
    && q.revision.hash == q.file.hash
    && q.revision.source.FromImport? && q.revision.status.Current?
  }

  predicate RegisterEnabled(db: Database, q: Request)
    requires q.Register?
  {
    var db1 := PutFile(db, q.fileId, q.file);
    var db2 := PutArtifact(db1, q.artifactId, q.artifact);
    var db3 := PutRevision(db2, q.revisionId, q.revision);
    && RegisterShape(q) && q.artifact.projectId in db.projects
    && FileOk(db, q.fileId, q.file) && ArtifactOk(db1, q.artifactId, q.artifact)
    && RevisionOk(db2, q.revisionId, q.revision) && ViewOk(db3, q.viewId, q.view)
  }

  function RegisterPost(db: Database, q: Request): Database
    requires q.Register?
  {
    var rows := PutRevision(
      PutArtifact(PutFile(db, q.fileId, q.file), q.artifactId, q.artifact), q.revisionId, q.revision);
    BumpGraph(PutView(rows, q.viewId, q.view), q.artifact.projectId)
  }

  // ---------- results of a run: a draft for an artifact, or a new artifact ----------

  /** The rows of a draft return fit together. */
  predicate DraftShape(q: Request)
    requires q.DraftReturn?
  {
    && q.fileId == q.ret.fileId && q.ret.draft == Some(q.revisionId) && q.revision.fileId == q.fileId
    && q.revision.artifactId == q.ret.target && q.revision.parent == Some(q.ret.base)
       && q.revision.runId == Some(q.ret.runId)
    && q.revision.hash == q.ret.hash && q.file.hash == q.ret.hash
    && q.revision.source.FromRun? && q.revision.status.Draft? && q.ret.status.PendingReview?
  }

  predicate DraftEnabled(db: Database, q: Request)
    requires q.DraftReturn?
  {
    var db1 := PutFile(db, q.fileId, q.file);
    && DraftShape(q) && !IdentityTaken(db, q.ret)
    && FileOk(db, q.fileId, q.file) && RevisionOk(db1, q.revisionId, q.revision)
    && ReturnOk(PutRevision(db1, q.revisionId, q.revision), q.returnId, q.ret)
  }

  function DraftPost(db: Database, q: Request): Database
    requires q.DraftReturn?
  {
    PutRevision(PutFile(db, q.fileId, q.file), q.revisionId, q.revision).(reviews := db.reviews[q.returnId := q.ret])
  }

  /** The rows of a newly created artifact fit together. */
  predicate CreatedShape(q: Request)
    requires q.CreatedReturn?
  {
    && q.fileId == q.ret.fileId && q.ret.draft == Some(q.revisionId) && q.revision.fileId == q.fileId
    && q.revision.artifactId == q.ret.target && q.revision.artifactId == q.artifactId
    && q.revision.parent.None? && q.artifact.current.None? && q.revision.runId == Some(q.ret.runId)
    && q.revision.hash == q.ret.hash && q.file.hash == q.ret.hash && q.ret.base == q.revisionId
    && q.revision.source.FromRun? && q.revision.status.Draft? && q.ret.status.PendingReview?
  }

  predicate CreatedEnabled(db: Database, q: Request)
    requires q.CreatedReturn?
  {
    var db1 := PutFile(db, q.fileId, q.file);
    var db2 := PutArtifact(db1, q.artifactId, q.artifact);
    && CreatedShape(q) && !IdentityTaken(db, q.ret)
    && FileOk(db, q.fileId, q.file) && ArtifactOk(db1, q.artifactId, q.artifact)
       && RevisionOk(db2, q.revisionId, q.revision)
    && ReturnOk(PutRevision(db2, q.revisionId, q.revision), q.returnId, q.ret)
  }

  function CreatedPost(db: Database, q: Request): Database
    requires q.CreatedReturn?
  {
    PutRevision(PutArtifact(PutFile(db, q.fileId, q.file), q.artifactId, q.artifact), q.revisionId, q.revision)
      .(reviews := db.reviews[q.returnId := q.ret])
  }

  // ---------- reviewing a return ----------

  /** The return gives birth to its artifact: nothing is current yet and the draft is its own base. */
  predicate IsBirth(db: Database, t: Return) {
    && t.target in db.artifacts && db.artifacts[t.target].current.None?
    && t.draft == Some(t.base) && t.base in db.revisions && db.revisions[t.base].parent.None?
  }

  predicate Pending(db: Database, id: ReturnId) {
    id in db.reviews && db.reviews[id].status.PendingReview?
  }

  predicate AcceptEnabled(db: Database, q: Request)
    requires q.Accept?
  {
    Pending(db, q.returnId) &&
    var t := db.reviews[q.returnId];
    && t.base == q.expectedBase && t.runId in db.runs && t.draft.Some? && t.draft.value in db.revisions
    && db.revisions[t.draft.value].status.Draft?
    && (if IsBirth(db, t) then StatusOk(db, t.draft.value, Current)
        else && t.target in db.artifacts && t.base in db.revisions
             && db.artifacts[t.target].current == Some(q.expectedBase)
             && db.revisions[t.base].status.Current?
             && db.revisions[t.draft.value].parent == Some(q.expectedBase)
             && db.revisions[t.draft.value].runId == Some(t.runId)
             && StatusOk(SetStatus(db, t.base, Superseded), t.draft.value, Current))
  }

  function AcceptPost(db: Database, q: Request): Database
    requires q.Accept? && AcceptEnabled(db, q)
  {
    var t := db.reviews[q.returnId];
    var draft, birth, artifact := t.draft.value, IsBirth(db, t), db.artifacts[t.target];
    var superseded := if birth then db.revisions
        else db.revisions[t.base := db.revisions[t.base].(status := Superseded)];
    BumpGraph(db, db.runs[t.runId].projectId).(
      revisions := superseded[draft := db.revisions[draft].(status := Current)],
      artifacts := db.artifacts[t.target := artifact.(
        current := Some(draft),
        birthRun := if birth && artifact.birthRun.None? then Some(t.runId) else artifact.birthRun)],
      reviews := db.reviews[q.returnId := t.(status := Adopted)],
      runs := db.runs[t.runId := db.runs[t.runId].(status := Completed)])
  }

  predicate RejectEnabled(db: Database, q: Request)
    requires q.Reject?
  {
    Pending(db, q.returnId) &&
    var t := db.reviews[q.returnId];
    t.draft.Some? && t.draft.value in db.revisions && db.revisions[t.draft.value].status.Draft? && t.runId in db.runs
  }

  /** The return is rejected and its run completed. */
  function Closed(db: Database, id: ReturnId): Database
    requires id in db.reviews && db.reviews[id].runId in db.runs
  {
    var t := db.reviews[id];
    db.(reviews := db.reviews[id := t.(status := Rejected)],
        runs := db.runs[t.runId := db.runs[t.runId].(status := Completed)])
  }

  predicate RetryMatches(db: Database, previousId: RunId, run: Run) {
    && previousId in db.runs && run.retryOf == Some(previousId)
    && run.projectId == db.runs[previousId].projectId && run.target == db.runs[previousId].target
    && run.targetRevision == db.runs[previousId].targetRevision && run.manifest == db.runs[previousId].manifest
  }

  /** The retry's run must name a target and a target revision: its insert cannot bind a missing one. */
  predicate RetryEnabled(db: Database, q: Request)
    requires q.Retry?
  {
    && q.run.target.Some? && q.run.targetRevision.Some?
    && Pending(db, q.returnId) && RetryMatches(db, db.reviews[q.returnId].runId, q.run) && q.dispatchRun == q.runId
    && RunOk(db, q.runId, q.run) && q.dispatchId !in db.dispatches
  }

  function Started(db: Database, runId: RunId, run: Run, dispatchId: DispatchId): Database {
    db.(runs := db.runs[runId := run], dispatches := db.dispatches[dispatchId := runId])
  }

  predicate StartEnabled(db: Database, q: Request)
    requires q.StartRun?
  {
    q.dispatchRun == q.runId && RunOk(db, q.runId, q.run) && q.dispatchId !in db.dispatches
  }

  // ---------- edits that switch the current revision at once ----------

  predicate CommitEnabled(db: Database, q: Request)
    requires q.CommitText?
  {
    && q.artifactId in db.artifacts && db.artifacts[q.artifactId].current == Some(q.previousId)
    && q.revision.status.Current? && q.revision.source.FromExternal?
    && FileOk(db, q.fileId, q.file)
    && RevisionOk(SetStatus(PutFile(db, q.fileId, q.file), q.previousId, Superseded), q.revisionId, q.revision)
  }

  /** The rows of a text commit, before the artifact's views follow. */
  function CommittedRows(db: Database, q: Request): Database
    requires q.CommitText?
  {
    SetCurrent(PutRevision(SetStatus(PutFile(db, q.fileId, q.file), q.previousId, Superseded), q.revisionId,
        q.revision), q.artifactId, q.revisionId)
  }

  function CommitPost(db: Database, q: Request): Database
    requires q.CommitText?
  {
    FollowViews(CommittedRows(db, q), q.artifactId, q.revisionId)
  }

  predicate RestoreEnabled(db: Database, q: Request)
    requires q.Restore?
  {
    && q.artifactId in db.artifacts && db.artifacts[q.artifactId].current == Some(q.expectedId)
    && q.targetId in db.revisions && db.revisions[q.targetId].artifactId == q.artifactId
    && StatusOk(SetStatus(db, q.expectedId, Superseded), q.targetId, Current)
  }

  function RestoredRows(db: Database, q: Request): Database
    requires q.Restore?
  {
    SetCurrent(SetStatus(SetStatus(db, q.expectedId, Superseded), q.targetId, Current), q.artifactId, q.targetId)
  }

  function RestorePost(db: Database, q: Request): Database
    requires q.Restore?
  {
    FollowViews(RestoredRows(db, q), q.artifactId, q.targetId)
  }

  /** The rows of an external adoption, before its views and the graph version. */
  function AdoptedRows(db: Database, q: Request): Database
    requires q.AdoptExternal?
  {
    PutArtifact(PutRevision(PutRevision(PutFile(db, q.fileId, q.file), q.previousId, q.previous), q.revisionId,
        q.revision), q.artifactId, q.artifact)
  }

  /** The rows of an external adoption fit together. */
  predicate AdoptShape(q: Request)
    requires q.AdoptExternal?
  {
    && q.previous.artifactId == q.artifactId && q.revision.artifactId == q.artifactId && q.revision.fileId == q.fileId
    && q.file.projectId == q.artifact.projectId && q.revision.parent == Some(q.previousId)
       && q.revision.hash == q.file.hash
    && q.revision.source.FromExternal? && q.revision.status.Current? && q.previous.status.Superseded?
    && q.artifact.current == Some(q.revisionId)
  }

  predicate AdoptEnabled(db: Database, q: Request)
    requires q.AdoptExternal?
  {
    var db1 := PutFile(db, q.fileId, q.file);
    var db2 := PutRevision(db1, q.previousId, q.previous);
    var db3 := PutRevision(db2, q.revisionId, q.revision);
    && AdoptShape(q) && FileOk(db, q.fileId, q.file)
    && RevisionOk(db1, q.previousId, q.previous) && RevisionOk(db2, q.revisionId, q.revision)
    && ArtifactOk(db3, q.artifactId, q.artifact) && ViewsOk(AdoptedRows(db, q), q.newViews)
  }

  function AdoptPost(db: Database, q: Request): Database
    requires q.AdoptExternal?
  {
    BumpGraph(PutViews(AdoptedRows(db, q), q.newViews), q.artifact.projectId)
  }

  // ---------- all requests ----------

  /** The request commits. */
  predicate Enabled(db: Database, q: Request) {
    match q
    case Register(_, _, _, _, _, _, _, _) => RegisterEnabled(db, q)
    case DraftReturn(_, _, _, _, _, _) => DraftEnabled(db, q)
    case CreatedReturn(_, _, _, _, _, _, _, _) => CreatedEnabled(db, q)
    case Accept(_, _) => AcceptEnabled(db, q)
    case Reject(_) => RejectEnabled(db, q)
    case Retry(_, _, _, _, _) => RetryEnabled(db, q)
    case StartRun(_, _, _, _) => StartEnabled(db, q)
    case CommitText(_, _, _, _, _, _) => CommitEnabled(db, q)
    case Restore(_, _, _) => RestoreEnabled(db, q)
    case AdoptExternal(_, _, _, _, _, _, _, _, _) => AdoptEnabled(db, q)
  }

  /** The database a committing request leaves. */
  function Post(db: Database, q: Request): Database
    requires Enabled(db, q)
  {
    match q
    case Register(_, _, _, _, _, _, _, _) => RegisterPost(db, q)
    case DraftReturn(_, _, _, _, _, _) => DraftPost(db, q)
    case CreatedReturn(_, _, _, _, _, _, _, _) => CreatedPost(db, q)
    case Accept(_, _) => AcceptPost(db, q)
    case Reject(returnId) => Closed(db, returnId)
    case Retry(returnId, runId, run, dispatchId, _) => Started(Closed(db, returnId), runId, run, dispatchId)
    case StartRun(runId, run, dispatchId, _) => Started(db, runId, run, dispatchId)
    case CommitText(_, _, _, _, _, _) => CommitPost(db, q)
    case Restore(_, _, _) => RestorePost(db, q)
    case AdoptExternal(_, _, _, _, _, _, _, _, _) => AdoptPost(db, q)
  }

  /** One request: it commits, or changes nothing. */
  function Apply(db: Database, q: Request): Database {
    if Enabled(db, q) then Post(db, q) else db
  }

  function History(db: Database, requests: seq<Request>): Database {
    if requests == [] then db else Apply(History(db, requests[..|requests| - 1]), requests[|requests| - 1])
  }
}
