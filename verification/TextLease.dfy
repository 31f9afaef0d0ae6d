/**
 * Updating managed text: an agent may write only over the revision it has read
 * (apps/local-core/src/curation-command-service.ts, `updateText`).
 *
 * The call checks the agent's lease, stages the new revision on the revision that is current, and, possibly after
 * other requests, commits it.
 */
module TextLease {
  import opened Wrappers
  import opened RevisionTables
  import opened RevisionLifecycle
  import opened RevisionHistory
  import opened RevisionUndo
  import Repository = MetadataRepository

  type SessionId = string

  datatype Target = Target(viewId: Option<ViewId>, artifactId: Option<ArtifactId>)

  /** The revision each session has read of each artifact. */
  type Leases = map<(SessionId, ArtifactId), RevisionId>

  datatype Conflict = NotRead | Stale(expected: RevisionId, current: RevisionId)
  datatype Failure = ArtifactNotFound | NoCurrentRevision | CommitRefused
  datatype Reply = Refused(conflict: Conflict) | Failed(failure: Failure) | Applied(revisionId: RevisionId)

  /** A change that can be taken back: the revision before and the one after. */
  datatype Change = Change(artifactId: ArtifactId, before: RevisionId, after: RevisionId)

  /** The file and revision written for an update; the base is filled in from the artifact. */
  datatype Staged = Staged(fileId: FileId, file: FileRecord, revisionId: RevisionId, hash: string)

  function Resolve(db: Database, target: Target): Option<ArtifactId> {
    if target.artifactId.Some? then target.artifactId
    else if target.viewId.Some? && target.viewId.value in db.views then Some(db.views[target.viewId.value].artifactId)
    else None
  }

  /** Why the write of a session is rejected, if it is. Writes without a session are not guarded. */
  function Guard(db: Database, leases: Leases, session: Option<SessionId>, target: Target): Option<Conflict> {
    var a := Resolve(db, target);
    if session.None? || a.None? || a.value !in db.artifacts then None
    else if (session.value, a.value) !in leases then Some(NotRead)
    else
      var lease, current := leases[(session.value, a.value)], db.artifacts[a.value].current;
      if current.Some? && lease != current.value then Some(Stale(lease, current.value)) else None
  }

  /** The artifact has a current revision whose row and file are stored. */
  predicate HasReadableCurrent(db: Database, a: ArtifactId) {
    && a in db.artifacts && db.artifacts[a].current.Some? && db.artifacts[a].current.value in db.revisions
    && db.revisions[db.artifacts[a].current.value].fileId in db.files
  }

  /** The edit staged for an artifact: a revision on top of the one that is current. */
  function Plan(db: Database, a: ArtifactId, staged: Staged): Edit
    requires a in db.artifacts && db.artifacts[a].current.Some?
  {
    var base := db.artifacts[a].current.value;
    Edit(base, staged.fileId, staged.file, staged.revisionId,
         Revision(a, staged.fileId, Some(base), staged.hash, FromExternal, None, Current))
  }

  class CurationTextService {
    const repository: Repository.MetadataRepository
    var leases: Leases
    /** `mutationSafety`: the changes recorded for review. */
    var changes: seq<Change>

    constructor (repository: Repository.MetadataRepository)
      ensures this.repository == repository && leases == map[] && changes == []
    {
      this.repository := repository;
      leases, changes := map[], [];
    }

    /** The part of `updateText` before its first suspension. */
    method Begin(
      projectId: ProjectId, target: Target, session: Option<SessionId>, staged: Staged)
      returns (result: Result<(ArtifactId, Edit), Reply>)
      ensures var db, a := repository.database, Resolve(repository.database, target);
              result == if Guard(db, leases, session, target).Some?
                  then Err(Refused(Guard(db, leases, session, target).value))
                        else if a.None? || a.value !in db.artifacts || db.artifacts[a.value].projectId != projectId
                            then Err(Failed(ArtifactNotFound))
                        else if !HasReadableCurrent(db, a.value) then Err(Failed(NoCurrentRevision))
                        else Ok((a.value, Plan(db, a.value, staged)))
    {
      var db := repository.database;
      var a := target.artifactId;
      if a.None? && target.viewId.Some? && target.viewId.value in db.views {
        a := Some(db.views[target.viewId.value].artifactId);
      }
      if session.Some? && a.Some? && a.value in db.artifacts {
        if (session.value, a.value) !in leases { return Err(Refused(NotRead)); }
        var lease, current := leases[(session.value, a.value)], db.artifacts[a.value].current;
        if current.Some? && lease != current.value { return Err(Refused(Stale(lease, current.value))); }
      }
      if a.None? || a.value !in db.artifacts || db.artifacts[a.value].projectId != projectId {
        return Err(Failed(ArtifactNotFound));
      }
      var current := db.artifacts[a.value].current;
      if current.None? || current.value !in db.revisions || db.revisions[current.value].fileId !in db.files {
        return Err(Failed(NoCurrentRevision));
      }
      var revision := Revision(a.value, staged.fileId, current, staged.hash, FromExternal, None, Current);
      result := Ok((a.value, Edit(current.value, staged.fileId, staged.file, staged.revisionId, revision)));
    }

    /** The commit, and the record of it when a named session wrote; recording may fail without failing the write. */
    method Finish(a: ArtifactId, edit: Edit, session: Option<SessionId>, recordOk: bool) returns (reply: Reply)
      modifies this`changes, repository
      ensures repository.database == Apply(old(repository.database), Commit(a, edit))
      ensures reply == if Enabled(old(repository.database), Commit(a, edit)) then Applied(edit.revisionId)
              else Failed(CommitRefused)
      ensures changes == old(changes) +
                if reply.Applied? && session.Some? && session.value != "" && recordOk
                then [Change(a, edit.previousId, edit.revisionId)] else []
    {
      var outcome := repository.CommitManagedTextRevision(Commit(a, edit));
      if outcome.Fail? { return Failed(CommitRefused); }
      if session.Some? && session.value != "" && recordOk {
        changes := changes + [Change(a, edit.previousId, edit.revisionId)];
      }
      reply := Applied(edit.revisionId);
    }
  }

  /**
   * Whatever happened between check and commit, an agent's write that is applied replaces exactly the revision the
   * agent had read.
   */
  lemma AppliedOverWhatWasRead(
    checked: Database, leases: Leases, session: SessionId, target: Target, a: ArtifactId, staged: Staged,
    committed: Database)
    requires Resolve(checked, target) == Some(a) && a in checked.artifacts && checked.artifacts[a].current.Some?
    requires Guard(checked, leases, Some(session), target).None?
    requires Enabled(committed, Commit(a, Plan(checked, a, staged)))
    ensures (session, a) in leases && a in committed.artifacts
    ensures committed.artifacts[a].current == Some(leases[(session, a)])
  {
  }

  /** The artifact meant is the one given, or without one that of the view given. */
  lemma ArtifactMeant(db: Database, target: Target, a: ArtifactId)
    ensures Resolve(db, target) == Some(a) <==>
              if target.artifactId.Some? then target.artifactId.value == a
              else exists v :: target.viewId == Some(v) && v in db.views && db.views[v].artifactId == a
  {
  }

  /**
   * What an applied write leaves: its file and its revision as staged, made from the one it replaces, which is
   * superseded; the artifact and all its views show it, and no other artifact or view changes.
   */
  lemma AppliedWriteIsStored(checked: Database, a: ArtifactId, staged: Staged, committed: Database)
    requires a in checked.artifacts && checked.artifacts[a].current.Some?
    requires Enabled(committed, Commit(a, Plan(checked, a, staged)))
    requires staged.revisionId !in committed.revisions && checked.artifacts[a].current.value in committed.revisions
    ensures var base := checked.artifacts[a].current.value;
            var after := Apply(committed, Commit(a, Plan(checked, a, staged)));
            && staged.fileId in after.files && after.files[staged.fileId].hash == staged.file.hash
            && after.revisions
               == committed.revisions[base := committed.revisions[base].(status := Superseded)][
                    staged.revisionId :=
                      Revision(a, staged.fileId, Some(base), staged.hash, FromExternal, None, Current)]
            && a in committed.artifacts
            && after.artifacts == committed.artifacts[a := committed.artifacts[a].(current := Some(staged.revisionId))]
            && after.views.Keys == committed.views.Keys
            && (forall v :: v in committed.views && committed.views[v].artifactId == a ==>
                  after.views[v] == View(a, Some(staged.revisionId)))
            && (forall v :: v in committed.views && committed.views[v].artifactId != a ==>
                  after.views[v] == committed.views[v])
  {
    CommitTables(committed, a, Plan(checked, a, staged));
  }

  /**
   * After an edit over revision r has been applied, every agent write that relies on having read r is rejected as
   * stale, over every later history, until a restore makes r current again.
   */
  lemma SecondWriterIsStale(
    db: Database, a: ArtifactId, edit: Edit, requests: seq<Request>, leases: Leases, session: SessionId,
    target: Target)
    requires Sound(db) && Enabled(db, Commit(a, edit)) && Fresh(db, Commit(a, edit))
    requires FreshHistory(Apply(db, Commit(a, edit)), requests)
    requires forall q :: q in requests && q.Restore? ==> q.targetId != edit.previousId
    requires (session, a) in leases && leases[(session, a)] == edit.previousId
    requires Resolve(History(Apply(db, Commit(a, edit)), requests), target) == Some(a)
    ensures var later := History(Apply(db, Commit(a, edit)), requests);
            && a in later.artifacts && later.artifacts[a].current.Some?
            && Guard(later, leases, Some(session), target)
               == Some(Stale(edit.previousId, later.artifacts[a].current.value))
  {
    var q, after := Commit(a, edit), Apply(db, Commit(a, edit));
    assert IsCurrentOf(db, edit.previousId, a);
    CommitTables(db, a, edit);
    FreshKeeps(db, q);
    StepKeepsExactly(db, q);
    assert IsSuperseded(after, edit.previousId);
    SupersededThroughout(after, requests, edit.previousId);
    HistoryStaysSound(after, requests);
    BornOnce(after, requests, a, Return("", a, "", "", "", "", PendingReview, None));
    var later := History(after, requests);
    assert IsCurrentOf(later, later.artifacts[a].current.value, a);
  }

  /** The recorded change, taken back at once, restores every artifact and every earlier revision. */
  lemma RecordedInverseUndoes(db: Database, a: ArtifactId, edit: Edit)
    requires Sound(db) && Enabled(db, Commit(a, edit)) && Fresh(db, Commit(a, edit))
    ensures var after := Apply(db, Commit(a, edit));
            var inverse := Restore(a, edit.previousId, edit.revisionId);
            Enabled(after, inverse) && BackAtStart(db, a, edit.previousId, [edit], Apply(after, inverse))
  {
    var edits := [edit];
    assert edits[..0] == [] && EditAll(db, a, edits[..0]) == db;
    assert AllCommit(db, a, edits);
    UndoRestoresTheStart(db, a, edit.previousId, edits);
    var walk := Undo(edits);
    assert Undo(edits[..0]) == [] && walk == [Stop(edit.previousId, edit.revisionId)];
    assert walk[..0] == [] && RestoreAll(EditAll(db, a, edits), a, walk[..0]) == EditAll(db, a, edits);
  }
}
