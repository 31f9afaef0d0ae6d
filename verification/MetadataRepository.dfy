/**
 * The repository's lifecycle methods, statement by statement
 * (apps/local-core/src/metadata-repository.ts). Each is a transaction: it commits exactly
 * when its request is enabled and otherwise leaves every table as it was.
 */
module MetadataRepository {
  import opened Wrappers
  import opened RevisionTables

  datatype Error =
    | Invalid      // refused before the transaction starts
    | Conflict     // refused by a check inside the transaction
    | Constraint   // refused by a key, an owner or a foreign key

  class MetadataRepository {
    var database: Database

    constructor (database: Database)
      ensures this.database == database
    {
      this.database := database;
    }

    // ---------- statements ----------

    method UpsertFileRecord(id: FileId, f: FileRecord) returns (ok: bool)
      modifies this
      ensures ok == FileOk(old(database), id, f)
      ensures database == if ok then PutFile(old(database), id, f) else old(database)
    {
      ok := f.projectId in database.projects && (id in database.files ==> database.files[id].projectId == f.projectId);
      if ok {
        var row := if id in database.files then database.files[id].(hash := f.hash) else f;
        database := database.(files := database.files[id := row]);
      }
    }

    method UpsertArtifact(id: ArtifactId, a: Artifact) returns (ok: bool)
      modifies this
      ensures ok == ArtifactOk(old(database), id, a)
      ensures database == if ok then PutArtifact(old(database), id, a) else old(database)
    {
      ok := a.projectId in database.projects
          && (id in database.artifacts ==> database.artifacts[id].projectId == a.projectId);
      if ok {
        var row := if id in database.artifacts then database.artifacts[id].(current := a.current)
            else a.(birthRun := None);
        database := database.(artifacts := database.artifacts[id := row]);
      }
    }

    method UpsertRevision(id: RevisionId, r: Revision) returns (ok: bool)
      modifies this
      ensures ok == RevisionOk(old(database), id, r)
      ensures database == if ok then PutRevision(old(database), id, r) else old(database)
    {
      var known := id in database.revisions;
      var owner := if known then database.revisions[id].artifactId else r.artifactId;
      if !SameProject(database, r.artifactId,
          owner) || r.fileId !in database.files || (!known && r.artifactId !in database.artifacts) {
        return false;
      }
      ok := r.status.Current? ==> IndexAllows(database.revisions, id, owner);
      if ok {
        var row := if known then database.revisions[id].(status := r.status) else r;
        database := database.(revisions := database.revisions[id := row]);
      }
    }

    method UpdateStatus(id: RevisionId, status: RevisionStatus) returns (ok: bool)
      modifies this
      ensures ok == StatusOk(old(database), id, status)
      ensures database == if ok then SetStatus(old(database), id, status) else old(database)
    {
      if id !in database.revisions { return true; }
      ok := status.Current? ==> IndexAllows(database.revisions, id, database.revisions[id].artifactId);
      if ok { database := database.(revisions := database.revisions[id := database.revisions[id].(status := status)]); }
    }

    method UpsertView(id: ViewId, v: View) returns (ok: bool)
      modifies this
      ensures ok == ViewOk(old(database), id, v)
      ensures database == if ok then PutView(old(database), id, v) else old(database)
    {
      ok := v.artifactId in database.artifacts
          && (id in database.views ==> SameProject(database, v.artifactId, database.views[id].artifactId));
      if ok { database := database.(views := database.views[id := v]); }
    }

    /** Upserts the views in order and stops at the first that is refused. */
    method UpsertViews(views: seq<(ViewId, View)>) returns (ok: bool)
      modifies this
      ensures ok == ViewsOk(old(database), views)
      ensures ok ==> database == PutViews(old(database), views)
    {
      var i := 0;
      while i < |views|
        invariant 0 <= i <= |views|
        invariant ViewsOk(old(database), views[..i])
        invariant database == PutViews(old(database), views[..i])
      {
        assert views[..i + 1][..i] == views[..i];
        ok := UpsertView(views[i].0, views[i].1);
        if !ok {
          RefusedPrefix(old(database), views, i + 1);
          return;
        }
        i := i + 1;
      }
      assert views[..i] == views;
      ok := true;
    }

    method InsertReturn(id: ReturnId, t: Return) returns (ok: bool)
      modifies this
      ensures ok == ReturnOk(old(database), id, t)
      ensures database == if ok then old(database).(reviews := old(database).reviews[id := t]) else old(database)
    {
      ok := id !in database.reviews && !IdentityTaken(database, t)
            && t.runId in database.runs && t.target in database.artifacts && t.base in database.revisions
               && t.fileId in database.files
            && (t.draft.Some? ==> t.draft.value in database.revisions);
      if ok { database := database.(reviews := database.reviews[id := t]); }
    }

    method InsertRun(id: RunId, run: Run, dispatchId: DispatchId) returns (ok: bool)
      modifies this
      ensures ok == (RunOk(old(database), id, run) && dispatchId !in old(database).dispatches)
      ensures ok ==> database == Started(old(database), id, run, dispatchId)
    {
      ok := RunOk(database, id, run);
      if !ok { return; }
      database := database.(runs := database.runs[id := run]);
      ok := dispatchId !in database.dispatches;
      if ok { database := database.(dispatches := database.dispatches[dispatchId := id]); }
    }

    /** The graph of the project has moved. */
    method RaiseGraphVersion(p: ProjectId)
      modifies this
      ensures database == BumpGraph(old(database), p)
    {
      if p in database.projects {
        database := database.(projects := database.projects[p := database.projects[p] + 1]);
      }
    }

    // ---------- requests ----------

    /** `registerImportedSource`. */
    method RegisterImportedSource(q: Request) returns (outcome: Outcome<Error>)
      requires q.Register?
      modifies this
      ensures outcome.Pass? <==> RegisterEnabled(old(database), q)
      ensures database == if outcome.Pass? then RegisterPost(old(database), q) else old(database)
    {
      if q.file.projectId != q.artifact.projectId || q.revision.artifactId != q.artifactId
         || q.revision.fileId != q.fileId || q.view.artifactId != q.artifactId
         || q.view.revisionId != Some(q.revisionId) || q.artifact.current != Some(q.revisionId)
         || q.revision.hash != q.file.hash || q.revision.source != FromImport || q.revision.status != Current
         || q.artifact.projectId !in database.projects {
        return Fail(Invalid);
      }
      var saved := database;
      var ok := UpsertFileRecord(q.fileId, q.file);
      if ok { ok := UpsertArtifact(q.artifactId, q.artifact); }
      if ok { ok := UpsertRevision(q.revisionId, q.revision); }
      if ok { ok := UpsertView(q.viewId, q.view); }
      if !ok {
        database := saved;
        return Fail(Constraint);
      }
      RaiseGraphVersion(q.artifact.projectId);
      outcome := Pass;
    }

    /** `getArtifactReturnByIdentity`. */
    method FindByIdentity(t: Return) returns (found: Option<Return>)
      ensures found.Some? <==> IdentityTaken(database, t)
      ensures found.Some? ==> found.value in database.reviews.Values && SameIdentity(found.value, t)
    {
      if IdentityTaken(database, t) {
        var id :| id in database.reviews && SameIdentity(database.reviews[id], t);
        return Some(database.reviews[id]);
      }
      found := None;
    }

    /** `createRuntimeDraft`: the same result reported twice is answered with the return already stored. */
    method CreateRuntimeDraft(q: Request) returns (result: Result<Return, Error>)
      requires q.DraftReturn?
      modifies this
      ensures result.Ok? <==> DraftShape(q) && (IdentityTaken(old(database), q.ret) || DraftEnabled(old(database), q))
      ensures result.Ok? ==> result.value in database.reviews.Values && SameIdentity(result.value, q.ret)
      ensures database == if DraftEnabled(old(database), q) then DraftPost(old(database), q) else old(database)
    {
      if q.fileId != q.ret.fileId || q.ret.draft != Some(q.revisionId) || q.revision.fileId != q.fileId
         || q.revision.artifactId != q.ret.target || q.revision.parent != Some(q.ret.base)
         || q.revision.runId != Some(q.ret.runId) || q.revision.hash != q.ret.hash || q.file.hash != q.ret.hash
         || q.revision.source != FromRun || q.revision.status != Draft || q.ret.status != PendingReview {
        return Err(Invalid);
      }
      var existing := FindByIdentity(q.ret);
      if existing.Some? { return Ok(existing.value); }
      var saved := database;
      var ok := UpsertFileRecord(q.fileId, q.file);
      if ok { ok := UpsertRevision(q.revisionId, q.revision); }
      if ok { ok := InsertReturn(q.returnId, q.ret); }
      if !ok {
        database := saved;
        return Err(Constraint);
      }
      assert database.reviews[q.returnId] == q.ret;
      result := Ok(q.ret);
    }

    /** `createRuntimeCreatedArtifact`. */
    method CreateRuntimeCreatedArtifact(q: Request) returns (result: Result<Return, Error>)
      requires q.CreatedReturn?
      modifies this
      ensures result.Ok? <==>
              CreatedShape(q) && (IdentityTaken(old(database), q.ret) || CreatedEnabled(old(database), q))
      ensures result.Ok? ==> result.value in database.reviews.Values && SameIdentity(result.value, q.ret)
      ensures database == if CreatedEnabled(old(database), q) then CreatedPost(old(database), q) else old(database)
    {
      if q.fileId != q.ret.fileId || q.ret.draft != Some(q.revisionId) || q.revision.fileId != q.fileId
         || q.revision.artifactId != q.ret.target || q.revision.artifactId != q.artifactId
         || q.revision.parent != None || q.artifact.current != None || q.revision.runId != Some(q.ret.runId)
         || q.revision.hash != q.ret.hash || q.file.hash != q.ret.hash || q.ret.base != q.revisionId
         || q.revision.source != FromRun || q.revision.status != Draft || q.ret.status != PendingReview {
        return Err(Invalid);
      }
      var existing := FindByIdentity(q.ret);
      if existing.Some? { return Ok(existing.value); }
      var saved := database;
      var ok := UpsertFileRecord(q.fileId, q.file);
      if ok { ok := UpsertArtifact(q.artifactId, q.artifact); }
      if ok { ok := UpsertRevision(q.revisionId, q.revision); }
      if ok { ok := InsertReturn(q.returnId, q.ret); }
      if !ok {
        database := saved;
        return Err(Constraint);
      }
      assert database.reviews[q.returnId] == q.ret;
      result := Ok(q.ret);
    }

    /** The return leaves review with the given verdict and its run is completed. */
    method CloseReturn(id: ReturnId, verdict: ReturnStatus)
      requires id in database.reviews && database.reviews[id].runId in database.runs
      modifies this
      ensures database == old(database).(
        reviews := old(database).reviews[id := old(database).reviews[id].(status := verdict)],
        runs := old(database).runs[old(database).reviews[id].runId :=
            old(database).runs[old(database).reviews[id].runId].(status := Completed)])
    {
      var t := database.reviews[id];
      database := database.(reviews := database.reviews[id := t.(status := verdict)]);
      database := database.(runs := database.runs[t.runId := database.runs[t.runId].(status := Completed)]);
    }

    /** The branch of `acceptArtifactReturn` for an artifact that has no current revision yet. */
    method AcceptBirth(q: Request) returns (outcome: Outcome<Error>)
      requires q.Accept? && Pending(database, q.returnId) && IsBirth(database, database.reviews[q.returnId])
      modifies this
      ensures outcome.Pass? <==> AcceptEnabled(old(database), q)
      ensures outcome.Pass? ==> database == AcceptPost(old(database), q)
    {
      var t := database.reviews[q.returnId];
      if t.base != q.expectedBase || t.runId !in database.runs || !database.revisions[t.base].status.Draft? {
        return Fail(Conflict);
      }
      var ok := UpdateStatus(t.base, Current);
      if !ok { return Fail(Constraint); }
      var artifact := database.artifacts[t.target];
      var birthRun := if artifact.birthRun.None? then Some(t.runId) else artifact.birthRun;
      artifact := artifact.(current := t.draft, birthRun := birthRun);
      database := database.(artifacts := database.artifacts[t.target := artifact]);
      CloseReturn(q.returnId, Adopted);
      RaiseGraphVersion(database.runs[t.runId].projectId);
      outcome := Pass;
    }

    /** The branch of `acceptArtifactReturn` for a draft that replaces its base. */
    method AcceptOverBase(q: Request) returns (outcome: Outcome<Error>)
      requires q.Accept? && Pending(database, q.returnId) && !IsBirth(database, database.reviews[q.returnId])
      modifies this
      ensures outcome.Pass? <==> AcceptEnabled(old(database), q)
      ensures outcome.Pass? ==> database == AcceptPost(old(database), q)
    {
      var t := database.reviews[q.returnId];
      if t.base != q.expectedBase || t.draft.None? { return Fail(Conflict); }
      var draftId := t.draft.value;
      if t.target !in database.artifacts || t.base !in database.revisions || draftId !in database.revisions
          || t.runId !in database.runs {
        return Fail(Conflict);
      }
      var draft := database.revisions[draftId];
      if database.artifacts[t.target].current != Some(q.expectedBase)
         || !database.revisions[t.base].status.Current? || !draft.status.Draft?
         || draft.parent != Some(q.expectedBase) || draft.runId != Some(t.runId) {
        return Fail(Conflict);
      }
      var ok := UpdateStatus(t.base, Superseded);
      ok := UpdateStatus(draftId, Current);
      if !ok { return Fail(Constraint); }
      var artifact := database.artifacts[t.target].(current := t.draft);
      database := database.(artifacts := database.artifacts[t.target := artifact]);
      CloseReturn(q.returnId, Adopted);
      RaiseGraphVersion(database.runs[t.runId].projectId);
      outcome := Pass;
    }

    /** `acceptArtifactReturn`. */
    method AcceptArtifactReturn(q: Request) returns (outcome: Outcome<Error>)
      requires q.Accept?
      modifies this
      ensures outcome.Pass? <==> AcceptEnabled(old(database), q)
      ensures database == if AcceptEnabled(old(database), q) then AcceptPost(old(database), q) else old(database)
    {
      var saved := database;
      if q.returnId !in database.reviews || !database.reviews[q.returnId].status.PendingReview? {
        return Fail(Conflict);
      }
      if IsBirth(database, database.reviews[q.returnId]) {
        outcome := AcceptBirth(q);
      } else {
        outcome := AcceptOverBase(q);
      }
      if outcome.Fail? { database := saved; }
    }

    /** `rejectArtifactReturn`. */
    method RejectArtifactReturn(q: Request) returns (outcome: Outcome<Error>)
      requires q.Reject?
      modifies this
      ensures outcome.Pass? <==> RejectEnabled(old(database), q)
      ensures database == if outcome.Pass? then Closed(old(database), q.returnId) else old(database)
    {
      if q.returnId !in database.reviews || !database.reviews[q.returnId].status.PendingReview? {
        return Fail(Conflict);
      }
      var t := database.reviews[q.returnId];
      if t.draft.None? || t.draft.value !in database.revisions || t.runId !in database.runs
         || !database.revisions[t.draft.value].status.Draft? {
        return Fail(Conflict);
      }
      CloseReturn(q.returnId, Rejected);
      outcome := Pass;
    }

    /** `retryArtifactReturn`: the return is rejected and the next run of the chain starts. */
    method RetryArtifactReturn(q: Request) returns (outcome: Outcome<Error>)
      requires q.Retry?
      modifies this
      ensures outcome.Pass? <==> RetryEnabled(old(database), q)
      ensures database == if outcome.Pass? then Started(Closed(old(database), q.returnId), q.runId, q.run, q.dispatchId)
              else old(database)
    {
      if q.returnId !in database.reviews || database.reviews[q.returnId].runId !in database.runs
         || !database.reviews[q.returnId].status.PendingReview? {
        return Fail(Conflict);
      }
      if !RetryMatches(database, database.reviews[q.returnId].runId, q.run) || q.dispatchRun != q.runId {
        return Fail(Conflict);
      }
      var saved := database;
      CloseReturn(q.returnId, Rejected);
      var ok := q.run.target.Some? && q.run.targetRevision.Some?;
      if ok { ok := InsertRun(q.runId, q.run, q.dispatchId); }
      if !ok {
        database := saved;
        return Fail(Constraint);
      }
      outcome := Pass;
    }

    /** `createRunWithDispatch`. */
    method CreateRunWithDispatch(q: Request) returns (outcome: Outcome<Error>)
      requires q.StartRun?
      modifies this
      ensures outcome.Pass? <==> StartEnabled(old(database), q)
      ensures database == if outcome.Pass? then Started(old(database), q.runId, q.run, q.dispatchId) else old(database)
    {
      if q.dispatchRun != q.runId { return Fail(Invalid); }
      var saved := database;
      var ok := InsertRun(q.runId, q.run, q.dispatchId);
      if !ok {
        database := saved;
        return Fail(Constraint);
      }
      outcome := Pass;
    }

    /** Points the artifact and all its views at the given revision. */
    method PointAt(artifactId: ArtifactId, revisionId: RevisionId)
      modifies this
      ensures database == FollowViews(SetCurrent(old(database), artifactId, revisionId), artifactId, revisionId)
    {
      database := SetCurrent(database, artifactId, revisionId);
      database := FollowViews(database, artifactId, revisionId);
    }

    /** `commitManagedTextRevision`. */
    method CommitManagedTextRevision(q: Request) returns (outcome: Outcome<Error>)
      requires q.CommitText?
      modifies this
      ensures outcome.Pass? <==> CommitEnabled(old(database), q)
      ensures database == if outcome.Pass? then CommitPost(old(database), q) else old(database)
    {
      if q.artifactId !in database.artifacts || database.artifacts[q.artifactId].current != Some(q.previousId)
         || !q.revision.status.Current? || !q.revision.source.FromExternal? {
        return Fail(Invalid);
      }
      var saved := database;
      var ok := UpsertFileRecord(q.fileId, q.file);
      if ok { ok := UpdateStatus(q.previousId, Superseded); }
      if ok { ok := UpsertRevision(q.revisionId, q.revision); }
      if !ok {
        database := saved;
        return Fail(Constraint);
      }
      PointAt(q.artifactId, q.revisionId);
      outcome := Pass;
    }

    /** `restoreArtifactCurrentRevision`. */
    method RestoreArtifactCurrentRevision(q: Request) returns (outcome: Outcome<Error>)
      requires q.Restore?
      modifies this
      ensures outcome.Pass? <==> RestoreEnabled(old(database), q)
      ensures database == if outcome.Pass? then RestorePost(old(database), q) else old(database)
    {
      if q.artifactId !in database.artifacts || database.artifacts[q.artifactId].current != Some(q.expectedId)
         || q.targetId !in database.revisions || database.revisions[q.targetId].artifactId != q.artifactId {
        return Fail(Invalid);
      }
      var saved := database;
      var ok := UpdateStatus(q.expectedId, Superseded);
      if ok { ok := UpdateStatus(q.targetId, Current); }
      if !ok {
        database := saved;
        return Fail(Constraint);
      }
      PointAt(q.artifactId, q.targetId);
      outcome := Pass;
    }

    /** `adoptExternalChange`. */
    method AdoptExternalChange(q: Request) returns (outcome: Outcome<Error>)
      requires q.AdoptExternal?
      modifies this
      ensures outcome.Pass? <==> AdoptEnabled(old(database), q)
      ensures database == if outcome.Pass? then AdoptPost(old(database), q) else old(database)
    {
      if q.previous.artifactId != q.artifactId || q.revision.artifactId != q.artifactId
         || q.revision.fileId != q.fileId || q.file.projectId != q.artifact.projectId
         || q.revision.parent != Some(q.previousId) || q.revision.hash != q.file.hash
         || q.revision.source != FromExternal || q.revision.status != Current || q.previous.status != Superseded
         || q.artifact.current != Some(q.revisionId) {
        return Fail(Invalid);
      }
      var saved := database;
      var ok := UpsertFileRecord(q.fileId, q.file);
      if ok { ok := UpsertRevision(q.previousId, q.previous); }
      if ok { ok := UpsertRevision(q.revisionId, q.revision); }
      if ok { ok := UpsertArtifact(q.artifactId, q.artifact); }
      if ok { ok := UpsertViews(q.newViews); }
      if !ok {
        database := saved;
        return Fail(Constraint);
      }
      RaiseGraphVersion(q.artifact.projectId);
      outcome := Pass;
    }
  }

  /** A refused view refuses the whole list. */
  lemma {:induction false} RefusedPrefix(db: Database, views: seq<(ViewId, View)>, n: nat)
    requires n <= |views| && !ViewsOk(db, views[..n])
    ensures !ViewsOk(db, views)
  {
    if n < |views| {
      var front := views[..|views| - 1];
      assert front[..n] == views[..n];
      RefusedPrefix(db, front, n);
    } else {
      assert views[..n] == views;
    }
  }
}
