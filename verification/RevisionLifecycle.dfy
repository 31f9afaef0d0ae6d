/**
 * What every history of lifecycle requests keeps: the current pointer of each artifact
 * names its one current revision (apps/local-core/src/metadata-repository.ts).
 */
module RevisionLifecycle {
  import opened Wrappers
  import opened RevisionTables

  // ---------- invariants ----------

  predicate IsCurrentOf(db: Database, r: RevisionId, a: ArtifactId) {
    r in db.revisions && db.revisions[r].artifactId == a && db.revisions[r].status.Current?
  }

  /** A current revision is what its artifact points to, and what an artifact points to is current. */
  ghost predicate Pointers(db: Database) {
    && (forall r :: r in db.revisions ==> db.revisions[r].artifactId in db.artifacts)
    && (forall a :: a in db.artifacts && db.artifacts[a].current.Some? ==>
       IsCurrentOf(db, db.artifacts[a].current.value, a))
    && (forall r :: r in db.revisions && db.revisions[r].status.Current? ==>
       db.artifacts[db.revisions[r].artifactId].current == Some(r))
  }

  /** A return's draft is a revision of the return's artifact. */
  ghost predicate Reviews(db: Database) {
    forall t :: t in db.reviews ==>
      && db.reviews[t].target in db.artifacts && db.reviews[t].base in db.revisions
      && (db.reviews[t].draft.Some? ==> db.reviews[t].draft.value in db.revisions
                                        && db.revisions[db.reviews[t].draft.value].artifactId == db.reviews[t].target)
  }

  predicate SameJob(a: Run, b: Run) {
    a.projectId == b.projectId && a.target == b.target && a.targetRevision == b.targetRevision
        && a.manifest == b.manifest
  }

  /** A run that retries another does the same job. */
  ghost predicate Retries(db: Database) {
    forall n :: n in db.runs && db.runs[n].retryOf.Some? ==>
      db.runs[n].retryOf.value in db.runs && SameJob(db.runs[n], db.runs[db.runs[n].retryOf.value])
  }

  ghost predicate Sound(db: Database) { Pointers(db) && Reviews(db) && Retries(db) }

  ghost function CurrentRevisions(db: Database, a: ArtifactId): set<RevisionId> {
    set r | r in db.revisions && IsCurrentOf(db, r, a)
  }

  /** The invariant said with sets: an artifact has at most one current revision, and points to it exactly. */
  lemma PointersNameTheCurrentRevision(db: Database)
    requires forall r :: r in db.revisions ==> db.revisions[r].artifactId in db.artifacts
    ensures Pointers(db) <==>
              forall a :: a in db.artifacts ==>
                CurrentRevisions(db, a) == if db.artifacts[a].current.Some? then {db.artifacts[a].current.value} else {}
  {
    if Pointers(db) {
      forall a | a in db.artifacts
        ensures CurrentRevisions(db, a) == if db.artifacts[a].current.Some? then {db.artifacts[a].current.value} else {}
      {
      }
    }
    if forall a :: a in db.artifacts ==>
        CurrentRevisions(db, a) == if db.artifacts[a].current.Some? then {db.artifacts[a].current.value} else {}
    {
      forall a | a in db.artifacts && db.artifacts[a].current.Some?
        ensures IsCurrentOf(db, db.artifacts[a].current.value, a)
      {
        assert db.artifacts[a].current.value in CurrentRevisions(db, a);
      }
      forall r | r in db.revisions && db.revisions[r].status.Current?
        ensures db.artifacts[db.revisions[r].artifactId].current == Some(r)
      {
        assert r in CurrentRevisions(db, db.revisions[r].artifactId);
      }
    }
  }

  // ---------- when a committing request keeps them ----------

  /**
   * The exact condition under which a committing request keeps the invariants; each clause looks at ids already stored.
   */
  predicate Keeps(db: Database, q: Request) {
    match q
    case Register(_, _, artifactId, _, revisionId, revision, _, _) => Owner(db, revisionId, revision) == artifactId
    case DraftReturn(_, _, revisionId, revision, _, ret) =>
      Owner(db, revisionId, revision) == ret.target
          && (revisionId in db.revisions ==> !db.revisions[revisionId].status.Current?)
    case CreatedReturn(_, _, artifactId, _, revisionId, revision, _, _) =>
      && Owner(db, revisionId, revision) == artifactId
      && (artifactId in db.artifacts ==> db.artifacts[artifactId].current in {None, Some(revisionId)})
    case CommitText(artifactId, _, _, _, revisionId, revision) => Owner(db, revisionId, revision) == artifactId
    case AdoptExternal(previousId, _, _, _, revisionId, revision, artifactId, _, _) =>
      && Owner(db, revisionId, revision) == artifactId
      && (previousId in db.revisions && db.revisions[previousId].status.Current? ==>
         db.revisions[previousId].artifactId == artifactId)
    case StartRun(runId, run, _, _) =>
      run.retryOf.Some? && run.retryOf.value != runId ==> RetryMatches(db, run.retryOf.value, run)
    case _ => true
  }

  // ---------- what every request leaves alone ----------

  /** Rows never disappear, a revision never changes hands, and returns and runs change at most their status. */
  ghost predicate Grows(db: Database, db': Database) {
    && (forall a :: a in db.artifacts ==> a in db'.artifacts)
    && (forall r :: r in db.revisions ==>
       r in db'.revisions && db'.revisions[r].artifactId == db.revisions[r].artifactId)
    && (forall t :: t in db.reviews ==>
       t in db'.reviews && db'.reviews[t] == db.reviews[t].(status := db'.reviews[t].status))
    && (forall n :: n in db.runs ==> n in db'.runs && db'.runs[n] == db.runs[n].(status := db'.runs[n].status))
  }

  lemma {:induction false} ViewsOnly(db: Database, views: seq<(ViewId, View)>)
    ensures PutViews(db, views) == db.(views := PutViews(db, views).views)
  {
    if views != [] { ViewsOnly(db, views[..|views| - 1]); }
  }

  lemma RegisterGrows(db: Database, q: Request)
    requires q.Register? && RegisterEnabled(db, q)
    ensures Grows(db, RegisterPost(db, q))
  {
  }

  lemma DraftGrows(db: Database, q: Request)
    requires q.DraftReturn? && DraftEnabled(db, q)
    ensures Grows(db, DraftPost(db, q))
  {
  }

  lemma CreatedGrows(db: Database, q: Request)
    requires q.CreatedReturn? && CreatedEnabled(db, q)
    ensures Grows(db, CreatedPost(db, q))
  {
  }

  lemma AcceptGrows(db: Database, q: Request)
    requires q.Accept? && AcceptEnabled(db, q)
    ensures Grows(db, AcceptPost(db, q))
  {
  }

  lemma RejectGrows(db: Database, q: Request)
    requires q.Reject? && RejectEnabled(db, q)
    ensures Grows(db, Closed(db, q.returnId))
  {
  }

  lemma RetryGrows(db: Database, q: Request)
    requires q.Retry? && RetryEnabled(db, q)
    ensures Grows(db, Started(Closed(db, q.returnId), q.runId, q.run, q.dispatchId))
  {
  }

  lemma StartGrows(db: Database, q: Request)
    requires q.StartRun? && StartEnabled(db, q)
    ensures Grows(db, Started(db, q.runId, q.run, q.dispatchId))
  {
  }

  lemma StatusGrows(db: Database, id: RevisionId, status: RevisionStatus)
    ensures Grows(db, SetStatus(db, id, status))
  {
  }

  lemma RevisionGrows(db: Database, id: RevisionId, r: Revision)
    ensures Grows(db, PutRevision(db, id, r))
  {
  }

  lemma CurrentGrows(db: Database, id: ArtifactId, current: RevisionId)
    ensures Grows(db, SetCurrent(db, id, current))
  {
  }

  lemma CommitGrows(db: Database, q: Request)
    requires q.CommitText?
    ensures Grows(db, CommitPost(db, q))
  {
    var db1 := PutFile(db, q.fileId, q.file);
    var db2 := SetStatus(db1, q.previousId, Superseded);
    var db3 := PutRevision(db2, q.revisionId, q.revision);
    StatusGrows(db1, q.previousId, Superseded);
    RevisionGrows(db2, q.revisionId, q.revision);
    CurrentGrows(db3, q.artifactId, q.revisionId);
    assert Grows(db, db3);
    assert CommittedRows(db, q) == SetCurrent(db3, q.artifactId, q.revisionId);
  }

  lemma RestoreGrows(db: Database, q: Request)
    requires q.Restore?
    ensures Grows(db, RestorePost(db, q))
  {
    var db1 := SetStatus(db, q.expectedId, Superseded);
    var db2 := SetStatus(db1, q.targetId, Current);
    StatusGrows(db, q.expectedId, Superseded);
    StatusGrows(db1, q.targetId, Current);
    CurrentGrows(db2, q.artifactId, q.targetId);
    assert Grows(db, db2);
    assert RestoredRows(db, q) == SetCurrent(db2, q.artifactId, q.targetId);
  }

  lemma AdoptGrows(db: Database, q: Request)
    requires q.AdoptExternal? && AdoptEnabled(db, q)
    ensures var rows := AdoptedRows(db, q);
            AdoptPost(db, q) == rows.(views := AdoptPost(db, q).views, projects := AdoptPost(db, q).projects)
    ensures Grows(db, AdoptPost(db, q))
  {
    ViewsOnly(AdoptedRows(db, q), q.newViews);
    assert Grows(db, AdoptedRows(db, q));
  }

  /** No request removes a row, moves a revision to another artifact or rewrites what a return or run is about. */
  lemma PostGrows(db: Database, q: Request)
    requires Enabled(db, q)
    ensures Grows(db, Post(db, q))
  {
    match q
    case Register(_, _, _, _, _, _, _, _) => RegisterGrows(db, q);
    case DraftReturn(_, _, _, _, _, _) => DraftGrows(db, q);
    case CreatedReturn(_, _, _, _, _, _, _, _) => CreatedGrows(db, q);
    case Accept(_, _) => AcceptGrows(db, q);
    case Reject(_) => RejectGrows(db, q);
    case Retry(_, _, _, _, _) => RetryGrows(db, q);
    case StartRun(_, _, _, _) => StartGrows(db, q);
    case CommitText(_, _, _, _, _, _) => CommitGrows(db, q);
    case Restore(_, _, _) => RestoreGrows(db, q);
    case AdoptExternal(_, _, _, _, _, _, _, _, _) => AdoptGrows(db, q);
  }

  lemma GrowthKeepsReviews(db: Database, db': Database)
    requires Reviews(db) && Grows(db, db')
    requires forall t :: t in db'.reviews && t !in db.reviews ==>
               && db'.reviews[t].target in db'.artifacts && db'.reviews[t].base in db'.revisions
               && (db'.reviews[t].draft.Some? ==> db'.reviews[t].draft.value in db'.revisions
                                                  && db'.revisions[db'.reviews[t].draft.value].artifactId
                                                     == db'.reviews[t].target)
    ensures Reviews(db')
  {
    forall t | t in db.reviews
      ensures db'.reviews[t].draft.Some? ==>
              db'.revisions[db'.reviews[t].draft.value].artifactId == db'.reviews[t].target
    {
      assert db.reviews[t].draft.Some? ==> db.reviews[t].draft.value in db.revisions;
    }
  }

  lemma GrowthKeepsRetries(db: Database, db': Database)
    requires Retries(db) && Grows(db, db') && db'.runs.Keys == db.runs.Keys
    ensures Retries(db')
  {
  }

  /** Artifact `a` now points to `n`, its only current revision, and nothing else about current revisions changed. */
  ghost predicate SwitchedTo(db: Database, db': Database, a: ArtifactId, n: RevisionId) {
    && a in db'.artifacts && db'.artifacts[a].current == Some(n) && IsCurrentOf(db', n, a)
    && (forall x :: x in db'.artifacts && x != a ==>
       x in db.artifacts && db'.artifacts[x].current == db.artifacts[x].current)
    && (forall r :: r in db'.revisions && r != n && db'.revisions[r].artifactId == a ==>
       !db'.revisions[r].status.Current?)
    && (forall r :: r in db'.revisions && r != n && db'.revisions[r].artifactId != a ==>
          r in db.revisions && db'.revisions[r].status.Current? == db.revisions[r].status.Current?)
  }

  lemma SwitchKeepsPointers(db: Database, db': Database, a: ArtifactId, n: RevisionId)
    requires Pointers(db) && Grows(db, db') && SwitchedTo(db, db', a, n)
    ensures Pointers(db')
  {
    forall x | x in db'.artifacts && db'.artifacts[x].current.Some?
      ensures IsCurrentOf(db', db'.artifacts[x].current.value, x)
    {
      if x != a {
        assert IsCurrentOf(db, db.artifacts[x].current.value, x);
        assert db.artifacts[x].current.value != n;
      }
    }
  }

  /** No pointer and no current revision changed. */
  ghost predicate PointersUntouched(db: Database, db': Database) {
    && (forall x :: x in db'.artifacts ==>
       if x in db.artifacts then db'.artifacts[x].current == db.artifacts[x].current
       else db'.artifacts[x].current.None?)
    && (forall r :: r in db'.revisions ==>
       if r in db.revisions then db'.revisions[r].status.Current? == db.revisions[r].status.Current?
                                           else
                                             !db'.revisions[r].status.Current?
                                                 && db'.revisions[r].artifactId in db'.artifacts)
  }

  lemma UntouchedKeepsPointers(db: Database, db': Database)
    requires Pointers(db) && Grows(db, db') && PointersUntouched(db, db')
    ensures Pointers(db')
  {
    forall x | x in db'.artifacts && db'.artifacts[x].current.Some?
      ensures IsCurrentOf(db', db'.artifacts[x].current.value, x)
    {
      assert IsCurrentOf(db, db.artifacts[x].current.value, x);
    }
  }

  // ---------- request by request ----------

  lemma RegisterKeeps(db: Database, q: Request)
    requires Sound(db) && q.Register? && RegisterEnabled(db, q)
    ensures Sound(RegisterPost(db, q)) <==> Keeps(db, q)
  {
    var db' := RegisterPost(db, q);
    RegisterGrows(db, q);
    GrowthKeepsReviews(db, db');
    GrowthKeepsRetries(db, db');
    if Keeps(db, q) {
      assert SwitchedTo(db, db', q.artifactId, q.revisionId);
      SwitchKeepsPointers(db, db', q.artifactId, q.revisionId);
    } else {
      assert !IsCurrentOf(db', db'.artifacts[q.artifactId].current.value, q.artifactId);
    }
  }

  lemma DraftKeeps(db: Database, q: Request)
    requires Sound(db) && q.DraftReturn? && DraftEnabled(db, q)
    ensures Sound(DraftPost(db, q)) <==> Keeps(db, q)
  {
    var db' := DraftPost(db, q);
    DraftGrows(db, q);
    GrowthKeepsRetries(db, db');
    if Keeps(db, q) {
      assert PointersUntouched(db, db');
      UntouchedKeepsPointers(db, db');
      GrowthKeepsReviews(db, db');
    } else if Owner(db, q.revisionId, q.revision) == q.ret.target {
      var a := db.revisions[q.revisionId].artifactId;
      assert db'.artifacts[a].current == Some(q.revisionId) && !IsCurrentOf(db', q.revisionId, a);
    } else {
      assert db'.revisions[db'.reviews[q.returnId].draft.value].artifactId != db'.reviews[q.returnId].target;
    }
  }

  lemma CreatedKeeps(db: Database, q: Request)
    requires Sound(db) && q.CreatedReturn? && CreatedEnabled(db, q)
    ensures Sound(CreatedPost(db, q)) <==> Keeps(db, q)
  {
    if Keeps(db, q) { CreatedStaysSound(db, q); } else { CreatedBreaks(db, q); }
  }

  lemma CreatedStaysSound(db: Database, q: Request)
    requires Sound(db) && q.CreatedReturn? && CreatedEnabled(db, q) && Keeps(db, q)
    ensures Sound(CreatedPost(db, q))
  {
    var db' := CreatedPost(db, q);
    CreatedGrows(db, q);
    GrowthKeepsRetries(db, db');
    GrowthKeepsReviews(db, db');
    CreatedPointers(db, q);
  }

  lemma CreatedPointers(db: Database, q: Request)
    requires Pointers(db) && q.CreatedReturn? && CreatedEnabled(db, q) && Keeps(db, q)
    ensures Pointers(CreatedPost(db, q))
  {
    var db' := CreatedPost(db, q);
    forall x | x in db'.artifacts && db'.artifacts[x].current.Some?
      ensures IsCurrentOf(db', db'.artifacts[x].current.value, x)
    {
      assert x != q.artifactId && IsCurrentOf(db, db.artifacts[x].current.value, x);
    }
    forall r | r in db'.revisions && db'.revisions[r].status.Current?
      ensures db'.artifacts[db'.revisions[r].artifactId].current == Some(r)
    {
      assert r != q.revisionId && IsCurrentOf(db, r, db.revisions[r].artifactId);
    }
  }

  lemma CreatedBreaks(db: Database, q: Request)
    requires Sound(db) && q.CreatedReturn? && CreatedEnabled(db, q) && !Keeps(db, q)
    ensures !Sound(CreatedPost(db, q))
  {
    var db' := CreatedPost(db, q);
    if Owner(db, q.revisionId, q.revision) == q.artifactId {
      var was := db.artifacts[q.artifactId].current.value;
      assert IsCurrentOf(db, was, q.artifactId);
      assert was in db'.revisions && db'.revisions[was].status.Current? && db'.artifacts[q.artifactId].current.None?;
    } else {
      assert db'.revisions[db'.reviews[q.returnId].draft.value].artifactId != db'.reviews[q.returnId].target;
    }
  }

  lemma AcceptKeeps(db: Database, q: Request)
    requires Sound(db) && q.Accept? && AcceptEnabled(db, q)
    ensures Sound(AcceptPost(db, q))
  {
    var db' := AcceptPost(db, q);
    var t := db.reviews[q.returnId];
    AcceptGrows(db, q);
    GrowthKeepsReviews(db, db');
    GrowthKeepsRetries(db, db');
    if IsBirth(db, t) { BirthSwitches(db, q); } else { OrdinaryAcceptSwitches(db, q); }
    SwitchKeepsPointers(db, db', t.target, t.draft.value);
  }

  lemma BirthSwitches(db: Database, q: Request)
    requires Pointers(db) && Reviews(db) && q.Accept? && AcceptEnabled(db, q) && IsBirth(db, db.reviews[q.returnId])
    ensures SwitchedTo(db, AcceptPost(db, q), db.reviews[q.returnId].target, db.reviews[q.returnId].draft.value)
  {
    var t, db' := db.reviews[q.returnId], AcceptPost(db, q);
    assert db'.revisions == db.revisions[t.base := db.revisions[t.base].(status := Current)];
    assert db'.artifacts == db.artifacts[t.target := db'.artifacts[t.target]];
  }

  lemma OrdinaryAcceptSwitches(db: Database, q: Request)
    requires Pointers(db) && Reviews(db) && q.Accept? && AcceptEnabled(db, q) && !IsBirth(db, db.reviews[q.returnId])
    ensures SwitchedTo(db, AcceptPost(db, q), db.reviews[q.returnId].target, db.reviews[q.returnId].draft.value)
  {
    var t, db' := db.reviews[q.returnId], AcceptPost(db, q);
    var d := t.draft.value;
    assert IsCurrentOf(db, t.base, t.target) && d != t.base;
    assert db'.revisions
           == db.revisions[t.base := db.revisions[t.base].(status := Superseded)]
                           [d := db.revisions[d].(status := Current)];
    assert db'.artifacts == db.artifacts[t.target := db.artifacts[t.target].(current := Some(d))];
  }

  lemma ClosedKeeps(db: Database, id: ReturnId)
    requires Sound(db) && id in db.reviews && db.reviews[id].runId in db.runs
    ensures Sound(Closed(db, id))
  {
    var db' := Closed(db, id);
    assert Grows(db, db');
    GrowthKeepsReviews(db, db');
    GrowthKeepsRetries(db, db');
    UntouchedKeepsPointers(db, db');
  }

  lemma RejectKeeps(db: Database, q: Request)
    requires Sound(db) && q.Reject? && RejectEnabled(db, q)
    ensures Sound(Closed(db, q.returnId))
  {
    ClosedKeeps(db, q.returnId);
  }

  /** A new run keeps the invariants exactly when, as a retry, it does its predecessor's job. */
  lemma StartedKeeps(db: Database, runId: RunId, run: Run, dispatchId: DispatchId)
    requires Sound(db) && RunOk(db, runId, run)
    ensures Sound(Started(db, runId, run, dispatchId)) <==>
              (run.retryOf.Some? && run.retryOf.value != runId ==> RetryMatches(db, run.retryOf.value, run))
  {
    var db' := Started(db, runId, run, dispatchId);
    assert Grows(db, db');
    GrowthKeepsReviews(db, db');
    UntouchedKeepsPointers(db, db');
    NewRunKeepsRetries(db, runId, run, dispatchId);
  }

  lemma NewRunKeepsRetries(db: Database, runId: RunId, run: Run, dispatchId: DispatchId)
    requires Retries(db) && RunOk(db, runId, run)
    ensures Retries(Started(db, runId, run, dispatchId)) <==>
              (run.retryOf.Some? && run.retryOf.value != runId ==> RetryMatches(db, run.retryOf.value, run))
  {
    assert Started(db, runId, run, dispatchId).runs[runId] == run;
  }

  lemma RetryKeeps(db: Database, q: Request)
    requires Sound(db) && q.Retry? && RetryEnabled(db, q)
    ensures Sound(Started(Closed(db, q.returnId), q.runId, q.run, q.dispatchId))
  {
    ClosedKeeps(db, q.returnId);
    StartedKeeps(Closed(db, q.returnId), q.runId, q.run, q.dispatchId);
  }

  lemma StartKeeps(db: Database, q: Request)
    requires Sound(db) && q.StartRun? && StartEnabled(db, q)
    ensures Sound(Started(db, q.runId, q.run, q.dispatchId)) <==> Keeps(db, q)
  {
    StartedKeeps(db, q.runId, q.run, q.dispatchId);
  }

  lemma CommitKeeps(db: Database, q: Request)
    requires Sound(db) && q.CommitText? && CommitEnabled(db, q)
    ensures Sound(CommitPost(db, q)) <==> Keeps(db, q)
  {
    var db' := CommitPost(db, q);
    CommitGrows(db, q);
    GrowthKeepsReviews(db, db');
    GrowthKeepsRetries(db, db');
    if Keeps(db, q) {
      CommitSwitches(db, q);
      SwitchKeepsPointers(db, db', q.artifactId, q.revisionId);
    } else {
      CommitBreaks(db, q);
    }
  }

  lemma CommitSwitches(db: Database, q: Request)
    requires Pointers(db) && q.CommitText? && CommitEnabled(db, q) && Keeps(db, q)
    ensures SwitchedTo(db, CommitPost(db, q), q.artifactId, q.revisionId)
  {
    assert IsCurrentOf(db, q.previousId, q.artifactId);
  }

  lemma CommitBreaks(db: Database, q: Request)
    requires Pointers(db) && q.CommitText? && CommitEnabled(db, q) && !Keeps(db, q)
    ensures !Pointers(CommitPost(db, q))
  {
    var db' := CommitPost(db, q);
    assert IsCurrentOf(db, q.previousId, q.artifactId);
    assert !IsCurrentOf(db', db'.artifacts[q.artifactId].current.value, q.artifactId);
  }

  lemma RestoreKeeps(db: Database, q: Request)
    requires Sound(db) && q.Restore? && RestoreEnabled(db, q)
    ensures Sound(RestorePost(db, q))
  {
    var db' := RestorePost(db, q);
    RestoreGrows(db, q);
    GrowthKeepsReviews(db, db');
    GrowthKeepsRetries(db, db');
    assert IsCurrentOf(db, q.expectedId, q.artifactId);
    assert SwitchedTo(db, db', q.artifactId, q.targetId);
    SwitchKeepsPointers(db, db', q.artifactId, q.targetId);
  }

  lemma AdoptKeeps(db: Database, q: Request)
    requires Sound(db) && q.AdoptExternal? && AdoptEnabled(db, q)
    ensures Sound(AdoptPost(db, q)) <==> Keeps(db, q)
  {
    var db' := AdoptPost(db, q);
    AdoptGrows(db, q);
    GrowthKeepsReviews(db, db');
    GrowthKeepsRetries(db, db');
    if Keeps(db, q) {
      AdoptSwitches(db, q);
      SwitchKeepsPointers(db, db', q.artifactId, q.revisionId);
    } else {
      AdoptBreaks(db, q);
    }
  }

  lemma AdoptSwitches(db: Database, q: Request)
    requires Pointers(db) && q.AdoptExternal? && AdoptEnabled(db, q) && Keeps(db, q)
    ensures SwitchedTo(db, AdoptPost(db, q), q.artifactId, q.revisionId)
  {
    AdoptGrows(db, q);
    AdoptedRowsSwitch(db, q);
  }

  lemma AdoptedRowsSwitch(db: Database, q: Request)
    requires Pointers(db) && q.AdoptExternal? && AdoptEnabled(db, q) && Keeps(db, q)
    ensures SwitchedTo(db, AdoptedRows(db, q), q.artifactId, q.revisionId)
  {
    var rows := AdoptedRows(db, q);
    forall r | r in rows.revisions && r != q.revisionId && rows.revisions[r].artifactId != q.artifactId
      ensures r in db.revisions && rows.revisions[r].status.Current? == db.revisions[r].status.Current?
    {
    }
  }

  lemma AdoptBreaks(db: Database, q: Request)
    requires Pointers(db) && q.AdoptExternal? && AdoptEnabled(db, q) && !Keeps(db, q)
    ensures !Pointers(AdoptPost(db, q))
  {
    AdoptGrows(db, q);
    var rows, db' := AdoptedRows(db, q), AdoptPost(db, q);
    if Owner(db, q.revisionId, q.revision) != q.artifactId {
      assert !IsCurrentOf(db', db'.artifacts[q.artifactId].current.value, q.artifactId);
    } else {
      var b := db.revisions[q.previousId].artifactId;
      assert db.artifacts[b].current == Some(q.previousId) && b != q.artifactId && q.previousId != q.revisionId;
      assert db'.artifacts[b].current == Some(q.previousId) && !IsCurrentOf(db', q.previousId, b);
    }
  }

  /** A committing request keeps the invariants if and only if `Keeps` holds beforehand. */
  lemma StepKeepsExactly(db: Database, q: Request)
    requires Sound(db) && Enabled(db, q)
    ensures Sound(Post(db, q)) <==> Keeps(db, q)
  {
    match q
    case Register(_, _, _, _, _, _, _, _) => RegisterKeeps(db, q);
    case DraftReturn(_, _, _, _, _, _) => DraftKeeps(db, q);
    case CreatedReturn(_, _, _, _, _, _, _, _) => CreatedKeeps(db, q);
    case Accept(_, _) => AcceptKeeps(db, q);
    case Reject(_) => RejectKeeps(db, q);
    case Retry(_, _, _, _, _) => RetryKeeps(db, q);
    case StartRun(_, _, _, _) => StartKeeps(db, q);
    case CommitText(_, _, _, _, _, _) => CommitKeeps(db, q);
    case Restore(_, _, _) => RestoreKeeps(db, q);
    case AdoptExternal(_, _, _, _, _, _, _, _, _) => AdoptKeeps(db, q);
  }
}
