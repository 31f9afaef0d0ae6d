/**
 * Undo and redo of managed text edits: restoring an artifact's current revision
 * (apps/local-core/src/metadata-repository.ts, apps/local-core/src/curation-command-service.ts).
 */
module RevisionUndo {
  import opened Wrappers
  import opened Lists
  import opened RevisionTables
  import opened RevisionLifecycle
  import opened RevisionHistory

  /** The artifact has a current revision, and `r` is one of its revisions. */
  ghost predicate Restorable(db: Database, a: ArtifactId, r: RevisionId) {
    && a in db.artifacts && db.artifacts[a].current.Some?
    && r in db.revisions && db.revisions[r].artifactId == a
  }

  /** The database after restoring `r` over whatever is current. */
  ghost function Moved(db: Database, a: ArtifactId, r: RevisionId): Database
    requires Restorable(db, a, r)
  {
    RestorePost(db, Restore(a, r, db.artifacts[a].current.value))
  }

  /**
   * A restore commits exactly when its caller saw the present current revision and names a revision of the artifact.
   */
  lemma RestoreComparesAndSwaps(db: Database, a: ArtifactId, target: RevisionId, expected: RevisionId)
    requires Pointers(db)
    ensures Enabled(db, Restore(a, target, expected))
            <==> Restorable(db, a, target) && db.artifacts[a].current.value == expected
    ensures a in db.artifacts && db.artifacts[a].current != Some(expected) ==>
            Apply(db, Restore(a, target, expected)) == db
  {
  }

  /** The tables after a restore of `t` over `c`. */
  lemma RestoredTables(db: Database, a: ArtifactId, t: RevisionId, c: RevisionId)
    requires a in db.artifacts && t in db.revisions && c in db.revisions
    ensures RestorePost(db, Restore(a, t, c)) == db.(
              artifacts := db.artifacts[a := db.artifacts[a].(current := Some(t))],
              revisions := db.revisions[c := db.revisions[c].(status := Superseded)]
                                        [t := db.revisions[t].(status := Current)],
              views := FollowViews(db, a, t).views)
  {
  }

  lemma CurrentRow(db: Database, a: ArtifactId)
    requires Pointers(db) && a in db.artifacts && db.artifacts[a].current.Some?
    ensures IsCurrentOf(db, db.artifacts[a].current.value, a)
  {
  }

  lemma StatusesCompose(rows: map<RevisionId, Revision>, c: RevisionId, r: RevisionId, t: RevisionId)
    requires c in rows && r in rows && t in rows && rows[c].status.Current? && (r == c || rows[r].status.Superseded?)
    ensures var once := rows[c := rows[c].(status := Superseded)][r := rows[r].(status := Current)];
            once[r := once[r].(status := Superseded)][t := once[t].(status := Current)]
            == rows[c := rows[c].(status := Superseded)][t := rows[t].(status := Current)]
  {
  }

  lemma ViewsFollowTwice(db: Database, mid: Database, a: ArtifactId, first: Option<RevisionId>, second: RevisionId)
    requires mid.views == if first.None? then db.views else FollowViews(db, a, first.value).views
    ensures FollowViews(mid, a, second).views == FollowViews(db, a, second).views
  {
  }

  lemma PointerMovesTwice(
    artifacts: map<ArtifactId, Artifact>, a: ArtifactId, first: Option<RevisionId>, second: Option<RevisionId>)
    requires a in artifacts
    ensures var once := artifacts[a := artifacts[a].(current := first)];
            once[a := once[a].(current := second)] == artifacts[a := artifacts[a].(current := second)]
  {
  }

  /** Two restores in a row are one, unless the first stop was a draft. */
  lemma RestoresCompose(db: Database, a: ArtifactId, r: RevisionId, t: RevisionId)
    requires Pointers(db) && Restorable(db, a, r) && Restorable(db, a, t) && !db.revisions[r].status.Draft?
    ensures RestorePost(Moved(db, a, r), Restore(a, t, r)) == Moved(db, a, t)
  {
    var c, mid := db.artifacts[a].current.value, Moved(db, a, r);
    CurrentRow(db, a);
    assert db.revisions[r].status.Current? ==> r == c;
    RestoredTables(db, a, r, c);
    RestoredTables(db, a, t, c);
    RestoredTables(mid, a, t, r);
    StatusesCompose(db.revisions, c, r, t);
    PointerMovesTwice(db.artifacts, a, Some(r), Some(t));
    ViewsFollowTwice(db, mid, a, Some(r), t);
  }

  /** After a restore another one is always possible. */
  lemma MovedIsRestorable(db: Database, a: ArtifactId, r: RevisionId, t: RevisionId)
    requires Pointers(db) && Restorable(db, a, r) && Restorable(db, a, t)
    ensures Enabled(Moved(db, a, r), Restore(a, t, r))
  {
    CurrentRow(db, a);
    RestoredTables(db, a, r, db.artifacts[a].current.value);
  }

  // ---------- runs of restores ----------

  /** One restore: the revision to make current, and the one its caller believes to be current. */
  datatype Stop = Stop(target: RevisionId, expected: RevisionId)

  function RestoreAll(db: Database, a: ArtifactId, walk: seq<Stop>): Database {
    if walk == [] then db
    else
      var last := walk[|walk| - 1];
      Apply(RestoreAll(db, a, walk[..|walk| - 1]), Restore(a, last.target, last.expected))
  }

  predicate AllRestore(db: Database, a: ArtifactId, walk: seq<Stop>) {
    walk == [] ||
    var last := walk[|walk| - 1];
    && AllRestore(db, a, walk[..|walk| - 1])
    && Enabled(RestoreAll(db, a, walk[..|walk| - 1]), Restore(a, last.target, last.expected))
  }

  /** What is current after the restores. */
  function WalkEnd(from: RevisionId, walk: seq<Stop>): RevisionId {
    if walk == [] then from else walk[|walk| - 1].target
  }

  /** Each restore expects the revision the one before it made current. */
  predicate IsWalk(from: RevisionId, walk: seq<Stop>) {
    walk == [] ||
    (IsWalk(from, walk[..|walk| - 1]) && walk[|walk| - 1].expected == WalkEnd(from, walk[..|walk| - 1]))
  }

  predicate IsStop(db: Database, a: ArtifactId, r: RevisionId) {
    r in db.revisions && db.revisions[r].artifactId == a && !db.revisions[r].status.Draft?
  }

  ghost predicate Visits(db: Database, a: ArtifactId, walk: seq<Stop>) {
    forall s :: s in walk ==> IsStop(db, a, s.target)
  }

  lemma {:induction false} WalkAppend(from: RevisionId, first: seq<Stop>, second: seq<Stop>)
    requires IsWalk(from, first) && IsWalk(WalkEnd(from, first), second)
    ensures IsWalk(from, first + second) && WalkEnd(from, first + second) == WalkEnd(WalkEnd(from, first), second)
  {
    if second == [] {
      assert first + second == first;
    } else {
      WalkAppend(from, first, second[..|second| - 1]);
      assert (first + second)[..|first + second| - 1] == first + second[..|second| - 1];
    }
  }

  /** However many restores, every one commits and only the last stop matters. */
  lemma {:induction false} WalkEndsAtItsLastStop(db: Database, a: ArtifactId, walk: seq<Stop>)
    requires Pointers(db) && a in db.artifacts && db.artifacts[a].current.Some? && walk != []
    requires IsWalk(db.artifacts[a].current.value, walk) && Visits(db, a, walk)
    ensures AllRestore(db, a, walk)
    ensures var end := walk[|walk| - 1].target; Restorable(db, a, end) && RestoreAll(db, a, walk) == Moved(db, a, end)
  {
    var front, last := walk[..|walk| - 1], walk[|walk| - 1];
    assert last in walk && IsStop(db, a, last.target);
    if front == [] {
      RestoreComparesAndSwaps(db, a, last.target, last.expected);
    } else {
      assert front[|front| - 1] in walk;
      WalkEndsAtItsLastStop(db, a, front);
      RestoresCompose(db, a, front[|front| - 1].target, last.target);
      MovedIsRestorable(db, a, front[|front| - 1].target, last.target);
    }
  }

  // ---------- a stack of edits ----------

  datatype Edit = Edit(previousId: RevisionId, fileId: FileId, file: FileRecord, revisionId: RevisionId,
      revision: Revision)

  function Commit(a: ArtifactId, e: Edit): Request {
    CommitText(a, e.previousId, e.fileId, e.file, e.revisionId, e.revision)
  }

  function EditAll(db: Database, a: ArtifactId, edits: seq<Edit>): Database {
    if edits == [] then db else Apply(EditAll(db, a, edits[..|edits| - 1]), Commit(a, edits[|edits| - 1]))
  }

  /** Every edit brings a fresh revision of the artifact, and commits. */
  predicate AllCommit(db: Database, a: ArtifactId, edits: seq<Edit>) {
    edits == [] ||
    var before, q := EditAll(db, a, edits[..|edits| - 1]), Commit(a, edits[|edits| - 1]);
    AllCommit(db, a, edits[..|edits| - 1]) && Fresh(before, q) && Enabled(before, q)
  }

  function Top(start: RevisionId, edits: seq<Edit>): RevisionId {
    if edits == [] then start else edits[|edits| - 1].revisionId
  }

  /**
   * The earlier revisions are unchanged except that `start`, once edited, is superseded; the new ones are superseded up
   * to the top.
   */
  ghost predicate StackedRevisions(
    before: map<RevisionId, Revision>, a: ArtifactId, start: RevisionId, edits: seq<Edit>, after: map<RevisionId,
    Revision>)
  {
    && (forall r :: r in before ==> r in after)
    && (forall r :: r in before ==>
       after[r] == if r == start && edits != [] then before[r].(status := Superseded) else before[r])
    && (forall r :: r in after && r !in before ==>
          after[r].artifactId == a && after[r].status == if r == Top(start, edits) then Current else Superseded)
    && (forall e :: e in edits ==> e.revisionId in after && e.revisionId !in before)
  }

  /** Each edit was made on the revision of the one before. */
  predicate Chained(start: RevisionId, edits: seq<Edit>) {
    edits == [] ||
    (Chained(start, edits[..|edits| - 1]) && edits[|edits| - 1].previousId == Top(start, edits[..|edits| - 1]))
  }

  /** `mid` is `db` with the edits' revisions stacked on top of the revision `start`. */
  ghost predicate Stacked(db: Database, a: ArtifactId, start: RevisionId, edits: seq<Edit>, mid: Database) {
    var top := Top(start, edits);
    && IsCurrentOf(db, start, a) && a in db.artifacts && db.artifacts[a].current == Some(start)
    && StackedRevisions(db.revisions, a, start, edits, mid.revisions) && Chained(start, edits)
    && mid == db.(
         files := mid.files,
         artifacts := db.artifacts[a := db.artifacts[a].(current := Some(top))],
         revisions := mid.revisions,
         views := if edits == [] then db.views else FollowViews(db, a, top).views)
  }

  lemma CommitTables(mid: Database, a: ArtifactId, e: Edit)
    requires CommitEnabled(mid, Commit(a, e)) && Fresh(mid, Commit(a, e)) && e.previousId in mid.revisions
    ensures CommitPost(mid, Commit(a, e)) == mid.(
              files := PutFile(mid, e.fileId, e.file).files,
              artifacts := mid.artifacts[a := mid.artifacts[a].(current := Some(e.revisionId))],
              revisions := mid.revisions[e.previousId :=
                  mid.revisions[e.previousId].(status := Superseded)][e.revisionId := e.revision],
              views := FollowViews(mid, a, e.revisionId).views)
    ensures e.revision.status.Current? && e.revision.artifactId == a && e.revisionId !in mid.revisions
    ensures mid.artifacts[a].current == Some(e.previousId)
  {
  }

  lemma OneMoreRevision(
    before: map<RevisionId, Revision>, a: ArtifactId, start: RevisionId, edits: seq<Edit>, after: map<RevisionId,
    Revision>, e: Edit)
    requires StackedRevisions(before, a, start, edits, after) && start in before
    requires e.previousId == Top(start, edits) && e.revisionId !in after && e.revision.artifactId == a
    requires e.revision.status.Current?
    ensures Top(start, edits) in after
    ensures StackedRevisions(before, a, start, edits + [e],
            after[e.previousId := after[e.previousId].(status := Superseded)][e.revisionId := e.revision])
  {
    assert Top(start, edits + [e]) == e.revisionId;
    assert edits != [] ==> Top(start, edits) == edits[|edits| - 1].revisionId;
  }

  lemma OneMoreEdit(db: Database, a: ArtifactId, start: RevisionId, edits: seq<Edit>, mid: Database, e: Edit)
    requires Stacked(db, a, start, edits, mid) && Fresh(mid, Commit(a, e)) && Enabled(mid, Commit(a, e))
    ensures Stacked(db, a, start, edits + [e], Apply(mid, Commit(a, e)))
  {
    assert mid.artifacts[a].current == Some(Top(start, edits));
    CommitTables(mid, a, e);
    OneMoreRevision(db.revisions, a, start, edits, mid.revisions, e);
    assert (edits + [e])[..|edits|] == edits;
    ViewsFollowTwice(db, mid, a, if edits == [] then None else Some(Top(start, edits)), e.revisionId);
    PointerMovesTwice(db.artifacts, a, Some(Top(start, edits)), Some(e.revisionId));
  }

  lemma {:induction false} EditsStack(db: Database, a: ArtifactId, start: RevisionId, edits: seq<Edit>)
    requires IsCurrentOf(db, start, a) && a in db.artifacts && db.artifacts[a].current == Some(start)
    requires AllCommit(db, a, edits)
    ensures Stacked(db, a, start, edits, EditAll(db, a, edits))
  {
    if edits == [] {
      assert db.artifacts[a := db.artifacts[a].(current := Some(start))] == db.artifacts;
    } else {
      var front, e := edits[..|edits| - 1], edits[|edits| - 1];
      EditsStack(db, a, start, front);
      FrontAndLast(edits);
      OneMoreEdit(db, a, start, front, EditAll(db, a, front), e);
    }
  }

  lemma {:induction false} EditsKeepSound(db: Database, a: ArtifactId, edits: seq<Edit>)
    requires Sound(db) && AllCommit(db, a, edits)
    ensures Sound(EditAll(db, a, edits))
  {
    if edits != [] {
      var before, q := EditAll(db, a, edits[..|edits| - 1]), Commit(a, edits[|edits| - 1]);
      EditsKeepSound(db, a, edits[..|edits| - 1]);
      FreshKeeps(before, q);
      StepKeepsExactly(before, q);
    }
  }

  /** The restores that take the edits back, newest first. */
  function Undo(edits: seq<Edit>): (walk: seq<Stop>)
    ensures |walk| == |edits|
  {
    if edits == [] then []
    else [Stop(edits[|edits| - 1].previousId, edits[|edits| - 1].revisionId)] + Undo(edits[..|edits| - 1])
  }

  /** The restores that bring them back, oldest first. */
  function Redo(edits: seq<Edit>): (walk: seq<Stop>)
    ensures |walk| == |edits|
  {
    if edits == [] then []
    else Redo(edits[..|edits| - 1]) + [Stop(edits[|edits| - 1].revisionId, edits[|edits| - 1].previousId)]
  }

  lemma {:induction false} UndoIsAWalk(start: RevisionId, edits: seq<Edit>)
    requires Chained(start, edits)
    ensures IsWalk(Top(start, edits), Undo(edits)) && WalkEnd(Top(start, edits), Undo(edits)) == start
  {
    if edits != [] {
      var front, last := edits[..|edits| - 1], edits[|edits| - 1];
      var one := [Stop(last.previousId, last.revisionId)];
      UndoIsAWalk(start, front);
      assert one[..0] == [];
      WalkAppend(Top(start, edits), one, Undo(front));
    }
  }

  lemma {:induction false} RedoIsAWalk(start: RevisionId, edits: seq<Edit>)
    requires Chained(start, edits)
    ensures IsWalk(start, Redo(edits)) && WalkEnd(start, Redo(edits)) == Top(start, edits)
  {
    if edits != [] {
      var front := edits[..|edits| - 1];
      RedoIsAWalk(start, front);
      assert Redo(edits)[..|edits| - 1] == Redo(front);
    }
  }

  /** If the start and every edit's revision are stops, so is every edit's base, and undo and redo stay on them. */
  lemma {:induction false} UndoRedoVisits(db: Database, a: ArtifactId, start: RevisionId, edits: seq<Edit>)
    requires Chained(start, edits) && IsStop(db, a, start)
    requires forall e :: e in edits ==> IsStop(db, a, e.revisionId)
    ensures Visits(db, a, Undo(edits)) && Visits(db, a, Redo(edits))
  {
    if edits != [] {
      var front, last := edits[..|edits| - 1], edits[|edits| - 1];
      UndoRedoVisits(db, a, start, front);
      assert last in edits && IsStop(db, a, last.revisionId);
      if front != [] { assert front[|front| - 1] in edits; }
      assert IsStop(db, a, last.previousId);
    }
  }

  lemma StackedStops(db: Database, a: ArtifactId, start: RevisionId, edits: seq<Edit>, mid: Database)
    requires Stacked(db, a, start, edits, mid)
    ensures IsStop(mid, a, start) && forall e :: e in edits ==> IsStop(mid, a, e.revisionId)
  {
  }

  /** `end` is `db` again, apart from the superseded revisions and the files the edits left behind. */
  ghost predicate BackAtStart(db: Database, a: ArtifactId, start: RevisionId, edits: seq<Edit>, end: Database) {
    && (forall r :: r in db.revisions ==> r in end.revisions && end.revisions[r] == db.revisions[r])
    && (forall r :: r in end.revisions && r !in db.revisions ==> end.revisions[r].status.Superseded?)
    && (forall e :: e in edits ==> e.revisionId in end.revisions)
    && end == db.(files := end.files, revisions := end.revisions, views := FollowViews(db, a, start).views)
  }

  lemma BottomOfTheStack(db: Database, a: ArtifactId, start: RevisionId, edits: seq<Edit>, mid: Database)
    requires Stacked(db, a, start, edits, mid) && Pointers(mid) && edits != []
    ensures Restorable(mid, a, start) && BackAtStart(db, a, start, edits, Moved(mid, a, start))
  {
    var top := Top(start, edits);
    assert edits[|edits| - 1] in edits;
    RestoredTables(mid, a, start, top);
    ViewsFollowTwice(db, mid, a, Some(top), start);
    PointerMovesTwice(db.artifacts, a, Some(top), Some(start));
    PointerStays(db.artifacts, a);
  }

  lemma PointerStays(artifacts: map<ArtifactId, Artifact>, a: ArtifactId)
    requires a in artifacts
    ensures artifacts[a := artifacts[a].(current := artifacts[a].current)] == artifacts
  {
  }

  /**
   * n edits and then n restores, newest first: every restore commits, every artifact row and every earlier revision
   * is back as it was, the edits' revisions are superseded, and the artifact's views show the old revision.
   */
  lemma UndoRestoresTheStart(db: Database, a: ArtifactId, start: RevisionId, edits: seq<Edit>)
    requires Sound(db) && a in db.artifacts && db.artifacts[a].current == Some(start) && AllCommit(db, a, edits)
    requires edits != []
    ensures var mid := EditAll(db, a, edits);
            AllRestore(mid, a, Undo(edits)) && BackAtStart(db, a, start, edits, RestoreAll(mid, a, Undo(edits)))
  {
    var mid, walk := EditAll(db, a, edits), Undo(edits);
    assert IsCurrentOf(db, start, a);
    EditsStack(db, a, start, edits);
    EditsKeepSound(db, a, edits);
    StackedStops(db, a, start, edits, mid);
    UndoRedoVisits(mid, a, start, edits);
    UndoIsAWalk(start, edits);
    WalkEndsAtItsLastStop(mid, a, walk);
    BottomOfTheStack(db, a, start, edits, mid);
  }

  /** Redoing the edits in order after undoing them gives back exactly the database before the undo. */
  lemma RedoReturnsToTheEnd(db: Database, a: ArtifactId, start: RevisionId, edits: seq<Edit>)
    requires Sound(db) && a in db.artifacts && db.artifacts[a].current == Some(start) && AllCommit(db, a, edits)
    ensures var mid := EditAll(db, a, edits);
            AllRestore(mid, a, Undo(edits) + Redo(edits)) && RestoreAll(mid, a, Undo(edits) + Redo(edits)) == mid
  {
    if edits != [] {
      var mid := EditAll(db, a, edits);
      assert IsCurrentOf(db, start, a);
      EditsStack(db, a, start, edits);
      EditsKeepSound(db, a, edits);
      UndoneAndRedone(db, a, start, edits, mid);
    }
  }

  lemma UndoneAndRedone(db: Database, a: ArtifactId, start: RevisionId, edits: seq<Edit>, mid: Database)
    requires Stacked(db, a, start, edits, mid) && Pointers(mid) && edits != []
    ensures AllRestore(mid, a, Undo(edits) + Redo(edits)) && RestoreAll(mid, a, Undo(edits) + Redo(edits)) == mid
  {
    StackedStops(db, a, start, edits, mid);
    UndoRedoVisits(mid, a, start, edits);
    UndoIsAWalk(start, edits);
    RedoIsAWalk(start, edits);
    WalkAppend(Top(start, edits), Undo(edits), Redo(edits));
    WalkEndsAtItsLastStop(mid, a, Undo(edits) + Redo(edits));
    BackWhereItWas(mid, a);
  }

  /** Restoring what is already current changes nothing once the views follow. */
  lemma BackWhereItWas(db: Database, a: ArtifactId)
    requires Pointers(db) && a in db.artifacts && db.artifacts[a].current.Some?
    requires forall v :: v in db.views && db.views[v].artifactId == a ==>
            db.views[v].revisionId == db.artifacts[a].current
    ensures Restorable(db, a, db.artifacts[a].current.value) && Moved(db, a, db.artifacts[a].current.value) == db
  {
    var c := db.artifacts[a].current.value;
    CurrentRow(db, a);
    RestoredTables(db, a, c, c);
    PointerStays(db.artifacts, a);
    assert FollowViews(db, a, c).views == db.views;
  }

  /** One restore is taken back exactly by restoring what was current, unless it made a draft current. */
  lemma RestoreIsUndoneUnlessDraft(db: Database, a: ArtifactId, r: RevisionId)
    requires Pointers(db) && Restorable(db, a, r)
    requires forall v :: v in db.views && db.views[v].artifactId == a ==>
            db.views[v].revisionId == db.artifacts[a].current
    ensures var c := db.artifacts[a].current.value;
            RestorePost(Moved(db, a, r), Restore(a, c, r)) == db <==> !db.revisions[r].status.Draft?
  {
    var c, mid := db.artifacts[a].current.value, Moved(db, a, r);
    BackWhereItWas(db, a);
    if db.revisions[r].status.Draft? {
      CurrentRow(db, a);
      RestoredTables(db, a, r, c);
      RestoredTables(mid, a, c, r);
      assert RestorePost(mid, Restore(a, c, r)).revisions[r].status.Superseded?;
    } else {
      RestoresCompose(db, a, r, c);
    }
  }
}
