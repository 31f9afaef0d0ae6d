/**
 * Safety of whole histories of lifecycle requests
 * (apps/local-core/src/metadata-repository.ts).
 */
module RevisionHistory {
  import opened Wrappers
  import opened RevisionTables
  import opened RevisionLifecycle

  // ---------- histories with fresh ids ----------

  /** New rows get new ids; the objects of an edit belong together. */
  predicate Fresh(db: Database, q: Request) {
    match q
    case Register(_, _, artifactId, _, revisionId, revision, _, _) =>
      artifactId !in db.artifacts && revisionId !in db.revisions && revision.artifactId == artifactId
    case DraftReturn(_, _, revisionId, revision, _, ret) => revisionId !in db.revisions
        && revision.artifactId == ret.target
    case CreatedReturn(_, _, artifactId, _, revisionId, revision, _, _) =>
      artifactId !in db.artifacts && revisionId !in db.revisions && revision.artifactId == artifactId
    case CommitText(artifactId, _, _, _, revisionId, revision) => revisionId !in db.revisions
        && revision.artifactId == artifactId
    case AdoptExternal(previousId, _, _, _, revisionId, revision, artifactId, _, _) =>
      && revisionId !in db.revisions && revision.artifactId == artifactId
      && previousId in db.revisions && db.revisions[previousId].artifactId == artifactId
    case StartRun(_, run, _, _) => run.retryOf.None?
    case _ => true
  }

  ghost predicate FreshHistory(db: Database, requests: seq<Request>) {
    forall k :: 0 <= k < |requests| ==> Fresh(History(db, requests[..k]), requests[k])
  }

  lemma HistoryPrefix(db: Database, requests: seq<Request>)
    requires requests != []
    ensures var front := requests[..|requests| - 1];
            && History(db, requests) == Apply(History(db, front), requests[|requests| - 1])
            && (FreshHistory(db, requests) ==>
               FreshHistory(db, front) && Fresh(History(db, front), requests[|requests| - 1]))
  {
    var front := requests[..|requests| - 1];
    assert forall k :: 0 <= k <= |front| ==> front[..k] == requests[..k];
  }

  lemma FreshKeeps(db: Database, q: Request)
    requires Fresh(db, q)
    ensures Keeps(db, q)
  {
  }

  /**
   * Every state of every history keeps the pointer invariant; a request that would break it is refused and changes
   * nothing.
   */
  lemma {:induction false} HistoryStaysSound(db: Database, requests: seq<Request>)
    requires Sound(db) && FreshHistory(db, requests)
    ensures Sound(History(db, requests))
  {
    if requests != [] {
      var front, q := requests[..|requests| - 1], requests[|requests| - 1];
      HistoryPrefix(db, requests);
      HistoryStaysSound(db, front);
      FreshKeeps(History(db, front), q);
      if Enabled(History(db, front), q) { StepKeepsExactly(History(db, front), q); }
    }
  }

  // ---------- what one committing request does to returns, superseded revisions and births ----------

  function ReviewsAfter(db: Database, q: Request): map<ReturnId, Return> {
    match q
    case DraftReturn(_, _, _, _, returnId, ret) => db.reviews[returnId := ret]
    case CreatedReturn(_, _, _, _, _, _, returnId, ret) => db.reviews[returnId := ret]
    case Accept(returnId, _) => if returnId in db.reviews
        then db.reviews[returnId := db.reviews[returnId].(status := Adopted)] else db.reviews
    case Reject(returnId) => if returnId in db.reviews
        then db.reviews[returnId := db.reviews[returnId].(status := Rejected)] else db.reviews
    case Retry(returnId, _, _, _, _) => if returnId in db.reviews
        then db.reviews[returnId := db.reviews[returnId].(status := Rejected)] else db.reviews
    case _ => db.reviews
  }

  ghost predicate IsSuperseded(db: Database, r: RevisionId) {
    r in db.revisions && db.revisions[r].status.Superseded?
  }

  /**
   * Superseded revisions stay superseded unless restored, and artifacts once born keep a current revision and their
   * birth run.
   */
  ghost predicate SettledStays(db: Database, q: Request, db': Database) {
    && (forall r :: IsSuperseded(db, r) && (q.Restore? ==> q.targetId != r) ==> IsSuperseded(db', r))
    && (forall a :: a in db.artifacts && db.artifacts[a].current.Some? ==>
          a in db'.artifacts && db'.artifacts[a].current.Some? && db'.artifacts[a].birthRun == db.artifacts[a].birthRun)
  }

  ghost predicate Follows(db: Database, q: Request, db': Database) {
    && db'.reviews == ReviewsAfter(db, q)
    && (q.DraftReturn? || q.CreatedReturn? ==> q.returnId !in db.reviews)
    && (q.Accept? || q.Reject? || q.Retry? ==> Pending(db, q.returnId))
    && (Fresh(db, q) ==> SettledStays(db, q, db'))
  }

  /** Nothing reviewed, superseded or born changes, save perhaps the status of revision `id`. */
  ghost predicate SettledBut(db: Database, id: RevisionId, db': Database) {
    && db'.reviews == db.reviews
    && (forall r :: IsSuperseded(db, r) && r != id ==> IsSuperseded(db', r))
    && (forall a :: a in db.artifacts && db.artifacts[a].current.Some? ==>
          a in db'.artifacts && db'.artifacts[a].current.Some? && db'.artifacts[a].birthRun == db.artifacts[a].birthRun)
  }

  lemma SetStatusSettles(db: Database, id: RevisionId, status: RevisionStatus)
    ensures SettledBut(db, id, SetStatus(db, id, status))
    ensures status.Superseded? && IsSuperseded(db, id) ==> IsSuperseded(SetStatus(db, id, status), id)
  {
  }

  lemma PutRevisionSettles(db: Database, id: RevisionId, r: Revision)
    ensures SettledBut(db, id, PutRevision(db, id, r))
  {
  }

  lemma SetCurrentSettles(db: Database, a: ArtifactId, id: RevisionId)
    ensures SettledBut(db, id, SetCurrent(db, a, id)) && SetCurrent(db, a, id).revisions == db.revisions
  {
  }

  lemma RegisterFollows(db: Database, q: Request)
    requires q.Register? && RegisterEnabled(db, q)
    ensures Follows(db, q, RegisterPost(db, q))
  {
  }

  lemma DraftReturnFollows(db: Database, q: Request)
    requires q.DraftReturn? && DraftEnabled(db, q)
    ensures Follows(db, q, DraftPost(db, q))
  {
  }

  lemma CreatedReturnFollows(db: Database, q: Request)
    requires q.CreatedReturn? && CreatedEnabled(db, q)
    ensures Follows(db, q, CreatedPost(db, q))
  {
  }

  lemma AcceptFollows(db: Database, q: Request)
    requires q.Accept? && AcceptEnabled(db, q)
    ensures Follows(db, q, AcceptPost(db, q))
  {
  }

  lemma RejectFollows(db: Database, q: Request)
    requires q.Reject? && RejectEnabled(db, q)
    ensures Follows(db, q, Closed(db, q.returnId))
  {
  }

  lemma RetryFollows(db: Database, q: Request)
    requires q.Retry? && RetryEnabled(db, q)
    ensures Follows(db, q, Started(Closed(db, q.returnId), q.runId, q.run, q.dispatchId))
  {
  }

  lemma StartRunFollows(db: Database, q: Request)
    requires q.StartRun? && StartEnabled(db, q)
    ensures Follows(db, q, Started(db, q.runId, q.run, q.dispatchId))
  {
  }

  lemma CommitTextFollows(db: Database, q: Request)
    requires q.CommitText? && CommitEnabled(db, q)
    ensures Follows(db, q, CommitPost(db, q))
  {
    if Fresh(db, q) {
      var db1 := PutFile(db, q.fileId, q.file);
      var db2 := SetStatus(db1, q.previousId, Superseded);
      SetStatusSettles(db1, q.previousId, Superseded);
      PutRevisionSettles(db2, q.revisionId, q.revision);
      var db3 := PutRevision(db2, q.revisionId, q.revision);
      SetCurrentSettles(db3, q.artifactId, q.revisionId);
      assert !IsSuperseded(db2, q.revisionId);
      assert SettledStays(db, q, db3);
      assert SettledStays(db, q, CommittedRows(db, q));
    }
  }

  lemma RestoreFollows(db: Database, q: Request)
    requires q.Restore? && RestoreEnabled(db, q)
    ensures Follows(db, q, RestorePost(db, q))
  {
    var db1 := SetStatus(db, q.expectedId, Superseded);
    var db2 := SetStatus(db1, q.targetId, Current);
    SetStatusSettles(db, q.expectedId, Superseded);
    SetStatusSettles(db1, q.targetId, Current);
    SetCurrentSettles(db2, q.artifactId, q.targetId);
    assert SettledStays(db, q, RestoredRows(db, q));
  }

  lemma AdoptedRowsSettle(db: Database, q: Request)
    requires q.AdoptExternal? && AdoptShape(q) && Fresh(db, q)
    ensures SettledStays(db, q, AdoptedRows(db, q))
  {
  }

  lemma AdoptExternalFollows(db: Database, q: Request)
    requires q.AdoptExternal? && AdoptEnabled(db, q)
    ensures Follows(db, q, AdoptPost(db, q))
  {
    AdoptGrows(db, q);
    if Fresh(db, q) { AdoptedRowsSettle(db, q); }
  }

  lemma PostFollows(db: Database, q: Request)
    requires Enabled(db, q)
    ensures Follows(db, q, Post(db, q))
  {
    match q
    case Register(_, _, _, _, _, _, _, _) => RegisterFollows(db, q);
    case DraftReturn(_, _, _, _, _, _) => DraftReturnFollows(db, q);
    case CreatedReturn(_, _, _, _, _, _, _, _) => CreatedReturnFollows(db, q);
    case Accept(_, _) => AcceptFollows(db, q);
    case Reject(_) => RejectFollows(db, q);
    case Retry(_, _, _, _, _) => RetryFollows(db, q);
    case StartRun(_, _, _, _) => StartRunFollows(db, q);
    case CommitText(_, _, _, _, _, _) => CommitTextFollows(db, q);
    case Restore(_, _, _) => RestoreFollows(db, q);
    case AdoptExternal(_, _, _, _, _, _, _, _, _) => AdoptExternalFollows(db, q);
  }

  // ---------- returns ----------

  /** A return leaves `pending_review` only through a request that names it. */
  lemma PendingLeavesByName(db: Database, q: Request, t: ReturnId)
    requires Pending(db, t)
    ensures t in Apply(db, q).reviews
    ensures !Pending(Apply(db, q), t) <==> Enabled(db, q) && (q.Accept? || q.Reject? || q.Retry?) && q.returnId == t
  {
    if Enabled(db, q) { PostFollows(db, q); }
  }

  /** Once reviewed, a return never changes again, whatever requests follow. */
  lemma {:induction false} ReviewedStaysReviewed(db: Database, requests: seq<Request>, t: ReturnId)
    requires t in db.reviews && !db.reviews[t].status.PendingReview?
    ensures t in History(db, requests).reviews && History(db, requests).reviews[t] == db.reviews[t]
  {
    if requests != [] {
      var front, q := requests[..|requests| - 1], requests[|requests| - 1];
      HistoryPrefix(db, requests);
      ReviewedStaysReviewed(db, front, t);
      if Enabled(History(db, front), q) { PostFollows(History(db, front), q); }
    }
  }

  /** No two returns are of the same run with the same path and hash. */
  ghost predicate ResultsUnique(db: Database) {
    forall s, t :: s in db.reviews && t in db.reviews && s != t ==>
      db.reviews[s].runId != db.reviews[t].runId || db.reviews[s].path != db.reviews[t].path
      || db.reviews[s].hash != db.reviews[t].hash
  }

  /** However often a run reports a result, over every history at most one return of it is stored. */
  lemma {:induction false} ResultsStayUnique(db: Database, requests: seq<Request>)
    requires ResultsUnique(db)
    ensures ResultsUnique(History(db, requests))
  {
    if requests != [] {
      var before, q := History(db, requests[..|requests| - 1]), requests[|requests| - 1];
      ResultsStayUnique(db, requests[..|requests| - 1]);
      if Enabled(before, q) {
        PostFollows(before, q);
        if q.DraftReturn? || q.CreatedReturn? { NewResult(before, q); }
        SameResults(before, q);
      }
    }
  }

  lemma NewResult(db: Database, q: Request)
    requires (q.DraftReturn? || q.CreatedReturn?) && Enabled(db, q)
    ensures forall id :: id in db.reviews ==> !SameIdentity(db.reviews[id], q.ret)
  {
    assert !IdentityTaken(db, q.ret);
  }

  lemma SameResults(db: Database, q: Request)
    requires ResultsUnique(db)
    requires q.DraftReturn? || q.CreatedReturn? ==>
            forall id :: id in db.reviews ==> !SameIdentity(db.reviews[id], q.ret)
    ensures ResultsUnique(db.(reviews := ReviewsAfter(db, q)))
  {
  }

  // ---------- a base is spent ----------

  lemma {:induction false} SupersededThroughout(db: Database, requests: seq<Request>, r: RevisionId)
    requires IsSuperseded(db, r) && FreshHistory(db, requests)
    requires forall q :: q in requests && q.Restore? ==> q.targetId != r
    ensures IsSuperseded(History(db, requests), r)
  {
    if requests != [] {
      var front := requests[..|requests| - 1];
      HistoryPrefix(db, requests);
      SupersededThroughout(db, front, r);
      if Enabled(History(db, front), requests[|requests| - 1]) {
        PostFollows(History(db, front), requests[|requests| - 1]);
      }
    }
  }

  /**
   * Once a return that superseded its base has been accepted, no other return on that base can be accepted
   * until a restore makes the base current again.
   */
  lemma AcceptedBaseIsSpent(db: Database, accept: Request, requests: seq<Request>, again: Request)
    requires Sound(db) && accept.Accept? && AcceptEnabled(db, accept) && !IsBirth(db, db.reviews[accept.returnId])
    requires FreshHistory(AcceptPost(db, accept), requests)
    requires forall q :: q in requests && q.Restore? ==> q.targetId != accept.expectedBase
    requires again.Accept? && again.expectedBase == accept.expectedBase
    ensures !Enabled(History(AcceptPost(db, accept), requests), again)
  {
    OrdinaryAcceptSwitches(db, accept);
    var t := db.reviews[accept.returnId];
    assert t.base != t.draft.value;
    assert IsSuperseded(AcceptPost(db, accept), t.base);
    SupersededThroughout(AcceptPost(db, accept), requests, t.base);
  }

  /**
   * A birth supersedes nothing: a draft already waiting on the newborn revision can still be accepted right after it.
   */
  lemma BirthLeavesItsBaseOpen(db: Database, birth: Request, next: Request)
    requires Sound(db) && birth.Accept? && AcceptEnabled(db, birth) && IsBirth(db, db.reviews[birth.returnId])
    requires next.Accept? && next.returnId != birth.returnId && next.expectedBase == birth.expectedBase
    requires Pending(db, next.returnId)
    requires var t := db.reviews[next.returnId];
             && t.base == next.expectedBase && t.target == db.reviews[birth.returnId].target && t.runId in db.runs
             && t.draft.Some? && t.draft.value in db.revisions && t.draft.value != t.base
             && db.revisions[t.draft.value].status.Draft? && db.revisions[t.draft.value].parent == Some(t.base)
             && db.revisions[t.draft.value].runId == Some(t.runId)
    ensures AcceptEnabled(AcceptPost(db, birth), next)
  {
    var db' := AcceptPost(db, birth);
    var t := db.reviews[next.returnId];
    BirthSwitches(db, birth);
    assert db'.reviews[next.returnId] == t;
    assert !IsBirth(db', t);
    forall r | r in db'.revisions && r != t.base && db'.revisions[r].artifactId == t.target
      ensures !db'.revisions[r].status.Current?
    {
    }
  }

  // ---------- birth ----------

  /**
   * An artifact is born at most once: after its first current revision no return is a birth for it, and its birth run
   * is fixed.
   */
  lemma {:induction false} BornOnce(db: Database, requests: seq<Request>, a: ArtifactId, t: Return)
    requires FreshHistory(db, requests) && a in db.artifacts && db.artifacts[a].current.Some? && t.target == a
    ensures var later := History(db, requests);
            a in later.artifacts && later.artifacts[a].current.Some?
            && later.artifacts[a].birthRun == db.artifacts[a].birthRun && !IsBirth(later, t)
  {
    if requests != [] {
      var front := requests[..|requests| - 1];
      HistoryPrefix(db, requests);
      BornOnce(db, front, a, t);
      if Enabled(History(db, front), requests[|requests| - 1]) {
        PostFollows(History(db, front), requests[|requests| - 1]);
      }
    }
  }

  // ---------- what the unique index is for ----------

  /**
   * Adoption never reads the stored pointer; the index on current revisions refuses it exactly when another revision is
   * current.
   */
  lemma IndexGuardsAdoption(db: Database, q: Request)
    requires Pointers(db) && q.AdoptExternal? && AdoptShape(q) && Fresh(db, q)
    ensures IndexAllows(PutRevision(PutFile(db, q.fileId, q.file), q.previousId, q.previous).revisions, q.revisionId,
            q.artifactId)
            <==> db.artifacts[q.artifactId].current in {None, Some(q.previousId)}
  {
    var after := PutRevision(PutFile(db, q.fileId, q.file), q.previousId, q.previous).revisions;
    if db.artifacts[q.artifactId].current.Some? {
      var c := db.artifacts[q.artifactId].current.value;
      assert IsCurrentOf(db, c, q.artifactId);
      assert c != q.previousId ==> c in after && after[c].status.Current?;
    }
  }

  /** An acceptance that passes the lifecycle checks is never refused by the index. */
  lemma IndexNeverStopsAcceptance(db: Database, t: Return)
    requires Pointers(db) && t.target in db.artifacts && t.draft.Some? && t.draft.value in db.revisions
    requires db.revisions[t.draft.value].artifactId == t.target
    ensures IsBirth(db, t) ==> StatusOk(db, t.draft.value, Current)
    ensures db.artifacts[t.target].current == Some(t.base) ==>
            StatusOk(SetStatus(db, t.base, Superseded), t.draft.value, Current)
  {
  }

  // ---------- retries ----------

  /** Each run of the chain retries the one before it. */
  ghost predicate IsRetryChain(db: Database, chain: seq<RunId>) {
    && (forall i :: 0 <= i < |chain| ==> chain[i] in db.runs)
    && (forall i :: 0 < i < |chain| ==> db.runs[chain[i]].retryOf == Some(chain[i - 1]))
  }

  /** Every run of a chain of retries has the root's project, target, base revision and manifest. */
  lemma {:induction false} RetriesShareTheRootsJob(db: Database, chain: seq<RunId>, i: nat)
    requires Retries(db) && IsRetryChain(db, chain) && i < |chain|
    ensures SameJob(db.runs[chain[i]], db.runs[chain[0]])
  {
    if i > 0 {
      RetriesShareTheRootsJob(db, chain, i - 1);
      assert db.runs[chain[i]].retryOf.Some?;
    }
  }

  // ---------- when a return can be retried ----------

  /** There is always an id not yet used. */
  lemma UnusedId(used: set<string>) returns (id: string)
    ensures id !in used
  {
    var n := LengthBound(used);
    id := seq(n, _ => 'x');
  }

  lemma {:induction false} LengthBound(used: set<string>) returns (n: nat)
    ensures forall s :: s in used ==> |s| < n
    decreases used
  {
    if used == {} {
      n := 0;
    } else {
      var s :| s in used;
      n := LengthBound(used - {s});
      if |s| >= n { n := |s| + 1; }
    }
  }

  /** Everything a new run for the same job refers to is stored. */
  predicate JobIsStored(db: Database, run: Run) {
    && run.projectId in db.projects && run.manifest in db.manifests
    && run.target.Some? && run.target.value in db.artifacts
    && run.targetRevision.Some? && run.targetRevision.value in db.revisions
  }

  ghost predicate CanBeRetried(db: Database, id: ReturnId) {
    exists q: Request :: q.Retry? && q.returnId == id && RetryEnabled(db, q)
  }

  /**
   * A return can be retried if and only if it is pending and its run is stored, names a target and a target revision,
   * and these, its project and its manifest are stored.
   */
  lemma RetriableExactly(db: Database, id: ReturnId)
    ensures CanBeRetried(db, id)
            <==> Pending(db, id) && db.reviews[id].runId in db.runs && JobIsStored(db, db.runs[db.reviews[id].runId])
  {
    if Pending(db, id) && db.reviews[id].runId in db.runs && JobIsStored(db, db.runs[db.reviews[id].runId]) {
      var runId := UnusedId(db.runs.Keys);
      var dispatchId := UnusedId(db.dispatches.Keys);
      var run := db.runs[db.reviews[id].runId].(retryOf := Some(db.reviews[id].runId), status := Created);
      assert RetryEnabled(db, Retry(id, runId, run, dispatchId, runId));
    }
  }

  /** Rows stay as `Grows` says over every history. */
  lemma {:induction false} HistoryGrows(db: Database, requests: seq<Request>)
    ensures Grows(db, History(db, requests))
  {
    if requests != [] {
      var before, q := History(db, requests[..|requests| - 1]), requests[|requests| - 1];
      HistoryGrows(db, requests[..|requests| - 1]);
      if Enabled(before, q) {
        PostGrows(before, q);
        GrowsInTurn(db, before, Post(before, q));
      }
    }
  }

  lemma GrowsInTurn(first: Database, second: Database, third: Database)
    requires Grows(first, second) && Grows(second, third)
    ensures Grows(first, third)
  {
  }

  /** A new artifact made by a run without a target: its return can be accepted or rejected, but never retried. */
  lemma TargetlessRunIsNeverRetried(db: Database, created: Request, requests: seq<Request>)
    requires created.CreatedReturn? && CreatedEnabled(db, created)
    requires created.ret.runId in db.runs && db.runs[created.ret.runId].target.None?
    ensures var later := History(CreatedPost(db, created), requests); !CanBeRetried(later, created.returnId)
  {
    var after := CreatedPost(db, created);
    HistoryGrows(after, requests);
    RetriableExactly(History(after, requests), created.returnId);
    assert after.reviews[created.returnId] == created.ret && after.runs == db.runs;
  }

  // ---------- graph versions ----------

  /** The project whose graph moves: that of the import, of the accepted return's run, or of the adopted artifact. */
  function MovedBy(db: Database, q: Request): Option<ProjectId> {
    match q
    case Register(_, _, _, artifact, _, _, _, _) => Some(artifact.projectId)
    case Accept(returnId, _) =>
      if returnId in db.reviews && db.reviews[returnId].runId in db.runs
        then Some(db.runs[db.reviews[returnId].runId].projectId) else None
    case AdoptExternal(_, _, _, _, _, _, _, artifact, _) => Some(artifact.projectId)
    case _ => None
  }

  /** A committing import, acceptance or adoption raises the version of its own project by one; nothing else does. */
  lemma VersionAfterRequest(db: Database, q: Request, p: ProjectId)
    requires Enabled(db, q)
    ensures p in Post(db, q).projects <==> p in db.projects
    ensures p in db.projects ==>
              Post(db, q).projects[p] == db.projects[p] + (if MovedBy(db, q) == Some(p) then 1 else 0)
  {
    ProjectsAfter(db, q);
  }

  /** One version more for the project that moved, if there is such a project. */
  ghost predicate IsRaised(before: map<ProjectId, nat>, after: map<ProjectId, nat>, moved: Option<ProjectId>) {
    after == if moved.Some? && moved.value in before then before[moved.value := before[moved.value] + 1] else before
  }

  lemma ProjectsAfter(db: Database, q: Request)
    requires Enabled(db, q)
    ensures IsRaised(db.projects, Post(db, q).projects, MovedBy(db, q))
  {
    match q
    case Register(_, _, _, _, _, _, _, _) => RegisterMoves(db, q);
    case Accept(_, _) => AcceptMoves(db, q);
    case CommitText(_, _, _, _, _, _) => CommitMovesNothing(db, q);
    case Restore(_, _, _) => RestoreMovesNothing(db, q);
    case AdoptExternal(_, _, _, _, _, _, _, _, _) => AdoptMoves(db, q);
    case DraftReturn(_, _, _, _, _, _) => ReturnsMoveNothing(db, q);
    case CreatedReturn(_, _, _, _, _, _, _, _) => ReturnsMoveNothing(db, q);
    case _ => RunsMoveNothing(db, q);
  }

  lemma ReturnsMoveNothing(db: Database, q: Request)
    requires Enabled(db, q) && (q.DraftReturn? || q.CreatedReturn?)
    ensures IsRaised(db.projects, Post(db, q).projects, MovedBy(db, q))
  {
  }

  lemma RunsMoveNothing(db: Database, q: Request)
    requires Enabled(db, q) && (q.Reject? || q.Retry? || q.StartRun?)
    ensures IsRaised(db.projects, Post(db, q).projects, MovedBy(db, q))
  {
  }

  lemma RegisterMoves(db: Database, q: Request)
    requires q.Register? && RegisterEnabled(db, q)
    ensures IsRaised(db.projects, Post(db, q).projects, MovedBy(db, q))
  {
  }

  lemma AcceptMoves(db: Database, q: Request)
    requires q.Accept? && AcceptEnabled(db, q)
    ensures IsRaised(db.projects, Post(db, q).projects, MovedBy(db, q))
  {
  }

  lemma AdoptMoves(db: Database, q: Request)
    requires q.AdoptExternal? && AdoptEnabled(db, q)
    ensures IsRaised(db.projects, Post(db, q).projects, MovedBy(db, q))
  {
    ViewsOnly(AdoptedRows(db, q), q.newViews);
    assert AdoptedRows(db, q).projects == db.projects;
  }

  lemma CommitMovesNothing(db: Database, q: Request)
    requires q.CommitText? && CommitEnabled(db, q)
    ensures IsRaised(db.projects, Post(db, q).projects, MovedBy(db, q))
  {
    StatusMovesNothing(PutFile(db, q.fileId, q.file), q.previousId, Superseded);
    SwitchMovesNothing(
      PutRevision(SetStatus(PutFile(db, q.fileId, q.file), q.previousId, Superseded), q.revisionId, q.revision),
      q.artifactId, q.revisionId);
  }

  lemma RestoreMovesNothing(db: Database, q: Request)
    requires q.Restore? && RestoreEnabled(db, q)
    ensures IsRaised(db.projects, Post(db, q).projects, MovedBy(db, q))
  {
    StatusMovesNothing(db, q.expectedId, Superseded);
    StatusMovesNothing(SetStatus(db, q.expectedId, Superseded), q.targetId, Current);
    SwitchMovesNothing(
      SetStatus(SetStatus(db, q.expectedId, Superseded), q.targetId, Current), q.artifactId, q.targetId);
  }

  lemma StatusMovesNothing(db: Database, id: RevisionId, status: RevisionStatus)
    ensures SetStatus(db, id, status).projects == db.projects
  {
  }

  lemma SwitchMovesNothing(db: Database, a: ArtifactId, id: RevisionId)
    ensures SetCurrent(db, a, id).projects == db.projects
    ensures FollowViews(SetCurrent(db, a, id), a, id).projects == db.projects
  {
  }

  /** How many requests of the history commit and move the graph of `p`. */
  function Moves(db: Database, requests: seq<Request>, p: ProjectId): nat {
    if requests == [] then 0
    else
      var front, q := requests[..|requests| - 1], requests[|requests| - 1];
      var before := History(db, front);
      Moves(db, front, p) + if Enabled(before, q) && MovedBy(before, q) == Some(p) then 1 else 0
  }

  /** Over every history the graph version counts the imports, acceptances and adoptions of the project. */
  lemma {:induction false} VersionCountsMoves(db: Database, requests: seq<Request>, p: ProjectId)
    requires p in db.projects
    ensures p in History(db, requests).projects
    ensures History(db, requests).projects[p] == db.projects[p] + Moves(db, requests, p)
  {
    if requests != [] {
      var front, q := requests[..|requests| - 1], requests[|requests| - 1];
      VersionCountsMoves(db, front, p);
      if Enabled(History(db, front), q) { VersionAfterRequest(History(db, front), q, p); }
    }
  }
}
