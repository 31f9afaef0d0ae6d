/**
 * What each lifecycle request writes, row by row and table by table
 * (apps/local-core/src/metadata-repository.ts).
 */
module RevisionRows {
  import opened Wrappers
  import opened RevisionTables
  import opened RevisionLifecycle

  /** The row of a revision that was there gets the status; otherwise the new row is stored. */
  function Upserted(db: Database, id: RevisionId, r: Revision): Revision {
    if id in db.revisions then
      var old' := db.revisions[id];
      Revision(old'.artifactId, old'.fileId, old'.parent, old'.hash, old'.source, old'.runId, r.status)
    else r
  }

  /** The views of artifact `a` show revision `r`, and no other view changed. */
  ghost predicate ViewsShow(before: map<ViewId, View>, after: map<ViewId, View>, a: ArtifactId, r: RevisionId) {
    && before.Keys == after.Keys
    && forall v :: v in before ==> after[v] == if before[v].artifactId == a then View(a, Some(r)) else before[v]
  }

  // ---------- when a statement is accepted ----------

  /** Two artifacts are in one project, as far as both are stored. */
  ghost predicate InOneProject(db: Database, a: ArtifactId, b: ArtifactId) {
    a !in db.artifacts || b !in db.artifacts || db.artifacts[a].projectId == db.artifacts[b].projectId
  }

  /** No other revision of the artifact is current. */
  ghost predicate NoneElseCurrent(db: Database, id: RevisionId, a: ArtifactId) {
    forall r :: r in db.revisions && db.revisions[r].artifactId == a && db.revisions[r].status == Current ==> r == id
  }

  /**
   * A revision is upserted if its file is stored, its artifact too unless the row is there already, a row that is there
   * stays in its project, and no other revision of its artifact is current if this one is to be.
   */
  lemma RevisionIsAccepted(db: Database, id: RevisionId, r: Revision)
    ensures var a := if id in db.revisions then db.revisions[id].artifactId else r.artifactId;
            RevisionOk(db, id, r) <==>
              && r.fileId in db.files && InOneProject(db, r.artifactId, a)
              && (id in db.revisions || r.artifactId in db.artifacts)
              && (r.status == Current ==> NoneElseCurrent(db, id, a))
  {
  }

  lemma StatusIsAccepted(db: Database, id: RevisionId, status: RevisionStatus)
    ensures StatusOk(db, id, status) <==>
              (id in db.revisions && status == Current ==> NoneElseCurrent(db, id, db.revisions[id].artifactId))
  {
  }

  lemma ViewIsAccepted(db: Database, id: ViewId, v: View)
    ensures ViewOk(db, id, v) <==>
              && v.artifactId in db.artifacts
              && (id in db.views ==> InOneProject(db, v.artifactId, db.views[id].artifactId))
  {
  }

  /** A run is stored under a new id if its project and manifest are there, and all that it names. */
  lemma RunIsAccepted(db: Database, id: RunId, run: Run)
    ensures RunOk(db, id, run) <==>
              && id !in db.runs && run.projectId in db.projects && run.manifest in db.manifests
              && (run.target == None || run.target.value in db.artifacts)
              && (run.targetRevision == None || run.targetRevision.value in db.revisions)
              && (run.retryOf == None || run.retryOf == Some(id) || run.retryOf.value in db.runs)
  {
  }

  /** The exact rows a retry must repeat of the run it retries. */
  lemma RetryIsAccepted(db: Database, q: Request)
    requires q.Retry?
    ensures RetryEnabled(db, q) <==>
              && q.returnId in db.reviews && db.reviews[q.returnId].status == PendingReview
              && db.reviews[q.returnId].runId in db.runs
              && (var old' := db.runs[db.reviews[q.returnId].runId];
                  q.run == Run(old'.projectId, old'.target, old'.targetRevision, old'.manifest,
                               Some(db.reviews[q.returnId].runId), q.run.status))
              && q.run.target != None && q.run.targetRevision != None && q.dispatchRun == q.runId
              && RunOk(db, q.runId, q.run) && q.dispatchId !in db.dispatches
  {
  }

  /** A return is known already if one of the same run with the same path and hash is stored. */
  lemma ResultIsKnown(db: Database, t: Return)
    ensures IdentityTaken(db, t) <==>
              exists id :: id in db.reviews && ResultOf(db.reviews[id]) == (t.runId, t.path, t.hash)
  {
    if id :| id in db.reviews && ResultOf(db.reviews[id]) == (t.runId, t.path, t.hash) {
      assert SameIdentity(db.reviews[id], t);
    }
  }

  function ResultOf(t: Return): (RunId, string, string) { (t.runId, t.path, t.hash) }

  // ---------- what a request writes ----------

  /** An import stores its file, its revision and its view; the artifact shows the revision, and keeps its birth run. */
  lemma RegisterWrites(db: Database, q: Request)
    requires q.Register? && RegisterEnabled(db, q)
    ensures var p, known := q.artifact.projectId, q.artifactId in db.artifacts;
            && p in db.projects
            && Post(db, q) == db.(
                 projects := db.projects[p := db.projects[p] + 1],
                 files := db.files[q.fileId := FileRecord(p, q.file.hash)],
                 artifacts := db.artifacts[q.artifactId :=
                   Artifact(p, Some(q.revisionId), if known then db.artifacts[q.artifactId].birthRun else None)],
                 revisions := db.revisions[q.revisionId := Upserted(db, q.revisionId, q.revision)],
                 views := db.views[q.viewId := View(q.artifactId, Some(q.revisionId))])
    ensures q.revision.status == Current && q.revision.source == FromImport && q.revision.hash == q.file.hash
            && q.revision.fileId == q.fileId && q.revision.artifactId == q.artifactId
  {
  }

  /** A draft return stores its file, its draft and itself, pending. */
  lemma DraftWrites(db: Database, q: Request)
    requires q.DraftReturn? && DraftEnabled(db, q)
    ensures Post(db, q) == db.(
              files := db.files[q.fileId := q.file],
              revisions := db.revisions[q.revisionId := Upserted(db, q.revisionId, q.revision)],
              reviews := db.reviews[q.returnId := q.ret])
    ensures q.returnId !in db.reviews && q.ret.status == PendingReview && q.ret.draft == Some(q.revisionId)
            && q.revision.status == Draft && q.revision.source == FromRun && q.revision.runId == Some(q.ret.runId)
            && q.revision.artifactId == q.ret.target && q.revision.parent == Some(q.ret.base)
            && q.revision.fileId == q.fileId == q.ret.fileId && q.revision.hash == q.file.hash == q.ret.hash
  {
  }

  /** The return of a new artifact also stores the artifact, with nothing current; the draft is its own base. */
  lemma CreatedWrites(db: Database, q: Request)
    requires q.CreatedReturn? && CreatedEnabled(db, q)
    ensures var known := q.artifactId in db.artifacts;
            Post(db, q) == db.(
              files := db.files[q.fileId := q.file],
              artifacts := db.artifacts[q.artifactId :=
                Artifact(q.artifact.projectId, None, if known then db.artifacts[q.artifactId].birthRun else None)],
              revisions := db.revisions[q.revisionId := Upserted(db, q.revisionId, q.revision)],
              reviews := db.reviews[q.returnId := q.ret])
    ensures q.returnId !in db.reviews && q.ret.status == PendingReview && q.ret.draft == Some(q.revisionId)
            && q.ret.base == q.revisionId && q.ret.target == q.artifactId == q.revision.artifactId
            && q.revision.status == Draft && q.revision.source == FromRun && q.revision.runId == Some(q.ret.runId)
            && q.revision.parent == None
            && q.revision.fileId == q.fileId == q.ret.fileId && q.revision.hash == q.file.hash == q.ret.hash
  {
  }

  /** Nothing is current in the artifact and the draft, which has no parent, is its own base. */
  ghost predicate GivesBirth(db: Database, t: Return) {
    && t.target in db.artifacts && db.artifacts[t.target].current == None && t.draft == Some(t.base)
    && t.base in db.revisions && db.revisions[t.base].parent == None
  }

  /**
   * Acceptance needs a pending return whose base is the one expected. It makes the draft current and the artifact show
   * it, adopts the return and completes its run. At a birth the artifact keeps the run as its birth run if it had none;
   * otherwise the base, which was current, is superseded.
   */
  lemma AcceptWrites(db: Database, q: Request)
    requires q.Accept? && AcceptEnabled(db, q)
    ensures q.returnId in db.reviews && db.reviews[q.returnId].status == PendingReview
    ensures var t := db.reviews[q.returnId];
            && t.base == q.expectedBase && t.runId in db.runs && t.target in db.artifacts
            && t.draft.Some? && t.draft.value in db.revisions && t.base in db.revisions
            && db.revisions[t.draft.value].status == Draft
            && (!GivesBirth(db, t) ==>
                  && db.artifacts[t.target].current == Some(t.base) && db.revisions[t.base].status == Current
                  && db.revisions[t.draft.value].parent == Some(t.base)
                  && db.revisions[t.draft.value].runId == Some(t.runId))
    ensures var t := db.reviews[q.returnId];
            var artifact, p, d := db.artifacts[t.target], db.runs[t.runId].projectId, t.draft.value;
            Post(db, q) == db.(
              projects := if p in db.projects then db.projects[p := db.projects[p] + 1] else db.projects,
              revisions := (if GivesBirth(db, t) then db.revisions
                            else db.revisions[t.base := db.revisions[t.base].(status := Superseded)])
                [d := db.revisions[d].(status := Current)],
              artifacts := db.artifacts[t.target := Artifact(artifact.projectId, Some(d),
                if GivesBirth(db, t) && artifact.birthRun == None then Some(t.runId) else artifact.birthRun)],
              reviews := db.reviews[q.returnId := t.(status := Adopted)],
              runs := db.runs[t.runId := db.runs[t.runId].(status := Completed)])
  {
    assert GivesBirth(db, db.reviews[q.returnId]) <==> IsBirth(db, db.reviews[q.returnId]);
  }

  /** A rejection closes a pending return whose draft is still one, and completes its run. */
  lemma RejectWrites(db: Database, q: Request)
    requires q.Reject? && RejectEnabled(db, q)
    ensures q.returnId in db.reviews && db.reviews[q.returnId].status == PendingReview
    ensures var t := db.reviews[q.returnId];
            && t.runId in db.runs && t.draft.Some? && t.draft.value in db.revisions
            && db.revisions[t.draft.value].status == Draft
            && Post(db, q) == db.(
                 reviews := db.reviews[q.returnId := t.(status := Rejected)],
                 runs := db.runs[t.runId := db.runs[t.runId].(status := Completed)])
  {
  }

  /** A retry closes the return, completes its run, and starts the next run, which does the same job. */
  lemma RetryWrites(db: Database, q: Request)
    requires q.Retry? && RetryEnabled(db, q)
    ensures q.returnId in db.reviews && db.reviews[q.returnId].status == PendingReview
    ensures var t := db.reviews[q.returnId];
            && t.runId in db.runs && q.runId !in db.runs && q.dispatchId !in db.dispatches
            && q.run.retryOf == Some(t.runId)
            && q.run.projectId == db.runs[t.runId].projectId && q.run.manifest == db.runs[t.runId].manifest
            && q.run.target == db.runs[t.runId].target && q.run.targetRevision == db.runs[t.runId].targetRevision
            && Post(db, q) == db.(
                 reviews := db.reviews[q.returnId := t.(status := Rejected)],
                 runs := db.runs[t.runId := db.runs[t.runId].(status := Completed)][q.runId := q.run],
                 dispatches := db.dispatches[q.dispatchId := q.runId])
  {
  }

  /** A run is stored under a new id, together with its dispatch. */
  lemma StartWrites(db: Database, q: Request)
    requires q.StartRun? && StartEnabled(db, q)
    ensures q.runId !in db.runs && q.dispatchId !in db.dispatches && q.dispatchRun == q.runId
    ensures Post(db, q) == db.(
              runs := db.runs[q.runId := q.run], dispatches := db.dispatches[q.dispatchId := q.runId])
  {
  }

  /** A text commit supersedes what was current; the artifact and its views show the new revision. */
  lemma CommitWrites(db: Database, q: Request)
    requires q.CommitText? && CommitEnabled(db, q) && q.previousId in db.revisions && q.previousId != q.revisionId
    ensures q.artifactId in db.artifacts && db.artifacts[q.artifactId].current == Some(q.previousId)
    ensures var after := Post(db, q);
            && after == db.(
                 files := db.files[q.fileId := q.file],
                 revisions := db.revisions[q.previousId := db.revisions[q.previousId].(status := Superseded)][
                   q.revisionId := Upserted(db, q.revisionId, q.revision)],
                 artifacts := db.artifacts[q.artifactId :=
                   db.artifacts[q.artifactId].(current := Some(q.revisionId))],
                 views := after.views)
            && ViewsShow(db.views, after.views, q.artifactId, q.revisionId)
    ensures q.revision.status == Current && q.revision.source == FromExternal
  {
    var db1 := PutFile(db, q.fileId, q.file);
    var db2 := SetStatus(db1, q.previousId, Superseded);
    assert db2.revisions == db.revisions[q.previousId := db.revisions[q.previousId].(status := Superseded)];
    assert PutRevision(db2, q.revisionId, q.revision).revisions
           == db2.revisions[q.revisionId := Upserted(db, q.revisionId, q.revision)];
  }

  /** A restore supersedes what was current and makes the target current; the artifact and its views show it. */
  lemma RestoreWrites(db: Database, q: Request)
    requires q.Restore? && RestoreEnabled(db, q) && q.expectedId in db.revisions
    ensures q.artifactId in db.artifacts && db.artifacts[q.artifactId].current == Some(q.expectedId)
    ensures q.targetId in db.revisions && db.revisions[q.targetId].artifactId == q.artifactId
    ensures var after := Post(db, q);
            && after == db.(
                 revisions := db.revisions[q.expectedId := db.revisions[q.expectedId].(status := Superseded)][
                   q.targetId := db.revisions[q.targetId].(status := Current)],
                 artifacts := db.artifacts[q.artifactId := db.artifacts[q.artifactId].(current := Some(q.targetId))],
                 views := after.views)
            && ViewsShow(db.views, after.views, q.artifactId, q.targetId)
  {
    var db1 := SetStatus(db, q.expectedId, Superseded);
    assert db1.revisions == db.revisions[q.expectedId := db.revisions[q.expectedId].(status := Superseded)];
  }

  /** View `v` is written. */
  ghost predicate Names(puts: seq<(ViewId, View)>, v: ViewId) { exists i :: 0 <= i < |puts| && puts[i].0 == v }

  /** The `i`-th is the last write under its id. */
  ghost predicate IsLastPut(puts: seq<(ViewId, View)>, i: nat) {
    i < |puts| && forall j :: i < j < |puts| ==> puts[j].0 != puts[i].0
  }

  /** Of the views written, the last under each id stays; the others are as they were. */
  ghost predicate ViewsPut(before: map<ViewId, View>, after: map<ViewId, View>, puts: seq<(ViewId, View)>) {
    && (forall v :: v in after <==> v in before || Names(puts, v))
    && (forall v :: v in before && !Names(puts, v) ==> v in after && after[v] == before[v])
    && (forall i: nat :: IsLastPut(puts, i) ==> puts[i].0 in after && after[puts[i].0] == puts[i].1)
  }

  lemma {:induction false} ViewsArePut(db: Database, puts: seq<(ViewId, View)>)
    ensures ViewsPut(db.views, PutViews(db, puts).views, puts)
  {
    if puts != [] {
      var front, last := puts[..|puts| - 1], puts[|puts| - 1];
      ViewsArePut(db, front);
      var before, after := PutViews(db, front).views, PutViews(db, puts).views;
      assert after == before[last.0 := last.1];
      assert puts == front + [last];
      OneMorePut(db.views, before, front, last);
    }
  }

  lemma OneMorePut(
    start: map<ViewId, View>, before: map<ViewId, View>, front: seq<(ViewId, View)>, last: (ViewId, View))
    requires ViewsPut(start, before, front)
    ensures ViewsPut(start, before[last.0 := last.1], front + [last])
  {
    var puts, after := front + [last], before[last.0 := last.1];
    forall v ensures Names(puts, v) <==> Names(front, v) || v == last.0 { NamesOneMore(front, last, v); }
    forall i: nat | IsLastPut(puts, i) ensures puts[i].0 in after && after[puts[i].0] == puts[i].1 {
      if i < |front| { LastBefore(front, last, i); }
    }
  }

  lemma NamesOneMore(front: seq<(ViewId, View)>, last: (ViewId, View), v: ViewId)
    ensures Names(front + [last], v) <==> Names(front, v) || v == last.0
  {
    var puts := front + [last];
    if i :| 0 <= i < |front| && front[i].0 == v { assert puts[i].0 == v; }
    assert puts[|front|].0 == last.0;
  }

  lemma LastBefore(front: seq<(ViewId, View)>, last: (ViewId, View), i: nat)
    requires IsLastPut(front + [last], i) && i < |front|
    ensures IsLastPut(front, i) && front[i].0 != last.0
  {
    var puts := front + [last];
    assert puts[|front|].0 != puts[i].0;
    forall j | i < j < |front| ensures front[j].0 != front[i].0 { assert puts[j].0 != puts[i].0; }
  }

  /** An adoption stores its file, the superseded and the new revision, and its views; the artifact shows the new. */
  lemma AdoptWrites(db: Database, q: Request)
    requires q.AdoptExternal? && AdoptEnabled(db, q) && q.previousId != q.revisionId
    ensures var after, p, known := Post(db, q), q.artifact.projectId, q.artifactId in db.artifacts;
            && p in db.projects
            && after == db.(
                 projects := db.projects[p := db.projects[p] + 1],
                 files := db.files[q.fileId := FileRecord(p, q.file.hash)],
                 revisions := db.revisions[q.previousId := Upserted(db, q.previousId, q.previous)][
                   q.revisionId := Upserted(db, q.revisionId, q.revision)],
                 artifacts := db.artifacts[q.artifactId :=
                   Artifact(p, Some(q.revisionId), if known then db.artifacts[q.artifactId].birthRun else None)],
                 views := after.views)
            && ViewsPut(db.views, after.views, q.newViews)
    ensures q.previous.status == Superseded && q.revision.status == Current && q.revision.source == FromExternal
            && q.revision.parent == Some(q.previousId) && q.revision.hash == q.file.hash
            && q.revision.artifactId == q.artifactId == q.previous.artifactId && q.revision.fileId == q.fileId
  {
    ViewsArePut(AdoptedRows(db, q), q.newViews);
    ViewsOnly(AdoptedRows(db, q), q.newViews);
    assert AdoptedRows(db, q).views == db.views && AdoptedRows(db, q).projects == db.projects;
  }
}
