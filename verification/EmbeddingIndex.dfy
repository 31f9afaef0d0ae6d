/**
 * The semantic index of conversation messages: `#runEmbeddingJob`, `#backfillEmbeddingInputs`,
 * `#countStaleMessages` and `#recoverInterruptedEmbeddingJobs`
 * (apps/local-core/src/conversation-import-service.ts).
 *
 * The embedding provider is an input: for each batch it answers with vectors or not at all,
 * and while it is awaited other imports may add messages.
 */
module EmbeddingIndex {
  import opened Wrappers

  type Vector = seq<real>

  const VERSION := "message-v1"
  const MAX_ATTEMPTS := 3

  /** `inputText` is the normalised text the hash is taken over; the hash itself is taken as injective. */
  datatype Message = Message(
    id: string, sessionId: string, hasText: bool, inputText: string,
    inputHash: Option<string>, version: Option<string>)

  datatype Embedding = Embedding(vector: Vector, inputHash: Option<string>, version: Option<string>)
  datatype Key = Key(messageId: string, model: string)

  datatype JobStatus = Pending | Running | Ready | Partial | Failed

  datatype Job = Job(
    projectId: string, sessionId: Option<string>, model: string, force: bool, batchSize: nat,
    status: JobStatus, attempts: nat, indexed: nat, stale: nat, dimensions: Option<nat>)

  /** What happens while one batch is being embedded. */
  datatype BatchReply = BatchReply(vectors: Option<seq<Vector>>, imported: seq<Message>)

  // ---------- which messages a job is about ----------

  /** The job's project (and session, if it names one) owns the message. */
  predicate InScope(m: Message, projects: map<string, string>, job: Job) {
    && m.sessionId in projects && projects[m.sessionId] == job.projectId
    && (job.sessionId.Some? ==> m.sessionId == job.sessionId.value)
  }

  /** SQL's comparison with NULL is never true. */
  predicate Differs(a: Option<string>, b: Option<string>) {
    a.Some? && b.Some? && a != b
  }

  predicate IsStale(m: Message, embeddings: map<Key, Embedding>, model: string) {
    Key(m.id, model) !in embeddings
    || var e := embeddings[Key(m.id, model)];
       e.inputHash.None? || Differs(e.inputHash, m.inputHash) || Differs(e.version, m.version)
  }

  predicate NeedsBackfill(m: Message, projects: map<string, string>, job: Job) {
    && m.hasText
    && (m.inputHash.None? || m.version != Some(VERSION))
    && (if job.sessionId.Some? then m.sessionId == job.sessionId.value
        else m.sessionId in projects && projects[m.sessionId] == job.projectId)
  }

  function BackfilledMessage(m: Message, projects: map<string, string>, job: Job): Message {
    if NeedsBackfill(m, projects, job) then m.(inputHash := Some(m.inputText), version := Some(VERSION)) else m
  }

  function Backfilled(ms: seq<Message>, projects: map<string, string>, job: Job): seq<Message> {
    seq(|ms|, (i: nat) requires i < |ms| => BackfilledMessage(ms[i], projects, job))
  }

  predicate Selected(m: Message, embeddings: map<Key, Embedding>, projects: map<string, string>, job: Job) {
    InScope(m, projects, job) && m.hasText && (job.force || IsStale(m, embeddings, job.model))
  }

  /** The rows the job embeds, in table order. */
  function Work(
    ms: seq<Message>, embeddings: map<Key, Embedding>, projects: map<string, string>, job: Job): seq<Message>
  {
    if ms == [] then []
    else
      var rest := Work(ms[..|ms| - 1], embeddings, projects, job);
      if Selected(ms[|ms| - 1], embeddings, projects, job) then rest + [ms[|ms| - 1]] else rest
  }

  /** Messages of the job that are indexable and whose embedding is missing or out of date. */
  function StaleMessages(
    ms: seq<Message>, embeddings: map<Key, Embedding>, projects: map<string, string>, job: Job): seq<Message>
  {
    Work(ms, embeddings, projects, job.(force := false))
  }

  lemma {:induction false} WorkMembers(
    ms: seq<Message>, embeddings: map<Key, Embedding>, projects: map<string, string>, job: Job)
    ensures forall m :: m in Work(ms, embeddings, projects, job) <==> m in ms && Selected(m, embeddings, projects, job)
  {
    if ms != [] {
      var front, last := ms[..|ms| - 1], ms[|ms| - 1];
      WorkMembers(front, embeddings, projects, job);
      assert forall m :: m in ms <==> m in front || m == last;
    }
  }

  /**
   * The backfill gives a message with text the hash of its text and the present version if it lacks the one or has not
   * the other; if the job names a session, in that session, and otherwise in the job's project. Nothing else changes.
   */
  lemma BackfillsExactly(m: Message, projects: map<string, string>, job: Job)
    ensures var b := BackfilledMessage(m, projects, job);
            && b.id == m.id && b.sessionId == m.sessionId && b.hasText == m.hasText && b.inputText == m.inputText
            && (b.inputHash, b.version)
               == if m.hasText && (m.inputHash == None || m.version != Some("message-v1"))
                     && (if job.sessionId.Some? then m.sessionId == job.sessionId.value
                         else m.sessionId in projects && projects[m.sessionId] == job.projectId)
                  then (Some(m.inputText), Some("message-v1")) else (m.inputHash, m.version)
  {
  }

  /** Both are known, and they are not the same. */
  predicate KnownToDiffer(a: Option<string>, b: Option<string>) { a != b && a != None && b != None }

  /**
   * A job embeds the messages with text of its project, and of its session if it names one, that have no embedding for
   * its model, or one without a hash, or one whose hash or version is known to differ; and all of them if forced.
   */
  lemma WorkExactly(
    ms: seq<Message>, embeddings: map<Key, Embedding>, projects: map<string, string>, job: Job, m: Message)
    ensures m in Work(ms, embeddings, projects, job) <==>
              && m in ms && m.hasText
              && m.sessionId in projects && projects[m.sessionId] == job.projectId
              && (job.sessionId == None || job.sessionId == Some(m.sessionId))
              && (job.force || Key(m.id, job.model) !in embeddings
                  || embeddings[Key(m.id, job.model)].inputHash == None
                  || KnownToDiffer(embeddings[Key(m.id, job.model)].inputHash, m.inputHash)
                  || KnownToDiffer(embeddings[Key(m.id, job.model)].version, m.version))
  {
    WorkMembers(ms, embeddings, projects, job);
  }

  // ---------- what the index holds after some rows ----------

  /** Every row is stored under its own key, with its own vector and the hash and version it has now. */
  function Stored(
    embeddings: map<Key, Embedding>, rows: seq<Message>, vectors: seq<Vector>, model: string): map<Key, Embedding>
    requires |rows| == |vectors|
  {
    if rows == [] then embeddings
    else
      var k := |rows| - 1;
      Stored(embeddings, rows[..k], vectors[..k],
          model)[Key(rows[k].id, model) := Embedding(vectors[k], rows[k].inputHash, rows[k].version)]
  }

  ghost predicate DistinctIds(ms: seq<Message>) {
    forall i, j :: 0 <= i < j < |ms| ==> ms[i].id != ms[j].id
  }

  lemma {:induction false} StoredAt(
    embeddings: map<Key, Embedding>, rows: seq<Message>, vectors: seq<Vector>, model: string, i: nat)
    requires |rows| == |vectors| && DistinctIds(rows) && i < |rows|
    ensures var key := Key(rows[i].id, model);
            key in Stored(embeddings, rows, vectors, model)
            && Stored(embeddings, rows, vectors, model)[key]
               == Embedding(vectors[i], rows[i].inputHash, rows[i].version)
  {
    var k := |rows| - 1;
    if i < k { StoredAt(embeddings, rows[..k], vectors[..k], model, i); }
  }

  lemma {:induction false} StoredElsewhere(
    embeddings: map<Key, Embedding>, rows: seq<Message>, vectors: seq<Vector>, model: string, key: Key)
    requires |rows| == |vectors| && forall r :: r in rows ==> Key(r.id, model) != key
    ensures key in Stored(embeddings, rows, vectors, model) <==> key in embeddings
    ensures key in embeddings ==> Stored(embeddings, rows, vectors, model)[key] == embeddings[key]
  {
    if rows != [] {
      var k := |rows| - 1;
      assert rows[k] in rows;
      StoredElsewhere(embeddings, rows[..k], vectors[..k], model, key);
    }
  }

  lemma {:induction false} StoredInTwoSteps(
    embeddings: map<Key, Embedding>, rows: seq<Message>, more: seq<Message>, vectors: seq<Vector>,
    others: seq<Vector>, model: string)
    requires |rows| == |vectors| && |more| == |others|
    ensures Stored(Stored(embeddings, rows, vectors, model), more, others, model)
            == Stored(embeddings, rows + more, vectors + others, model)
  {
    if more == [] {
      assert rows + more == rows && vectors + others == vectors;
    } else {
      var k := |more| - 1;
      StoredInTwoSteps(embeddings, rows, more[..k], vectors, others[..k], model);
      assert (rows + more)[..|rows| + k] == rows + more[..k];
      assert (vectors + others)[..|rows| + k] == vectors + others[..k];
    }
  }

  /**
   * When only the first `n` selected rows could be stored, exactly those are fresh: each has its own vector and the
   * hash it has now, and every other key of the index is as it was.
   */
  lemma EarlierBatchesStay(
    ms: seq<Message>, embeddings: map<Key, Embedding>, projects: map<string, string>, job: Job,
    vectors: seq<Vector>, n: nat)
    requires DistinctIds(ms)
    requires var rows := Work(ms, embeddings, projects, job); n <= |rows| && n == |vectors|
    ensures var rows := Work(ms, embeddings, projects, job);
            var after := Stored(embeddings, rows[..n], vectors, job.model);
            && (forall i: nat :: i < n ==> Key(rows[i].id, job.model) in after)
            && (forall i: nat :: i < n ==>
               after[Key(rows[i].id, job.model)] == Embedding(vectors[i], rows[i].inputHash, rows[i].version))
            && (forall i: nat :: n <= i < |rows| ==>
               IsStale(rows[i], after, job.model) == IsStale(rows[i], embeddings, job.model))
            && (forall key :: (forall i: nat :: i < n ==> Key(rows[i].id, job.model) != key) ==>
                  (key in after <==> key in embeddings) && (key in embeddings ==> after[key] == embeddings[key]))
  {
    var rows := Work(ms, embeddings, projects, job);
    WorkKeepsDistinct(ms, embeddings, projects, job);
    forall i: nat | i < n
      ensures Key(rows[i].id, job.model) in Stored(embeddings, rows[..n], vectors, job.model)
      ensures Stored(embeddings, rows[..n], vectors, job.model)[Key(rows[i].id, job.model)]
              == Embedding(vectors[i], rows[i].inputHash, rows[i].version)
    {
      StoredAt(embeddings, rows[..n], vectors, job.model, i);
    }
    forall key | forall i: nat :: i < n ==> Key(rows[i].id, job.model) != key
      ensures key in Stored(embeddings, rows[..n], vectors, job.model) <==> key in embeddings
      ensures key in embeddings ==> Stored(embeddings, rows[..n], vectors, job.model)[key] == embeddings[key]
    {
      StoredElsewhere(embeddings, rows[..n], vectors, job.model, key);
    }
  }

  // ---------- the provider's answers ----------

  /** The messages imported while the first `n` batches were awaited. */
  function Imported(world: nat -> BatchReply, n: nat): seq<Message> {
    if n == 0 then [] else Imported(world, n - 1) + world(n - 1).imported
  }

  /** The vectors of the first `n` batches. */
  function Received(world: nat -> BatchReply, n: nat): seq<Vector> {
    if n == 0 then []
    else Received(world, n - 1) + (if world(n - 1).vectors.Some? then world(n - 1).vectors.value else [])
  }

  /** Imports bring new messages and write their hash and version themselves. */
  ghost predicate FreshImports(world: nat -> BatchReply, ms: seq<Message>) {
    && (forall n :: DistinctIds(ms + Imported(world, n)))
    && (forall n, m :: m in Imported(world, n) ==> m.inputHash == Some(m.inputText) && m.version == Some(VERSION))
  }

  // ---------- what a finished pass means ----------

  lemma {:induction false} WorkKeepsDistinct(
    ms: seq<Message>, embeddings: map<Key, Embedding>, projects: map<string, string>, job: Job)
    ensures DistinctIds(ms) ==> DistinctIds(Work(ms, embeddings, projects, job))
  {
    if ms != [] {
      var front := ms[..|ms| - 1];
      WorkKeepsDistinct(front, embeddings, projects, job);
      WorkMembers(front, embeddings, projects, job);
      if DistinctIds(ms) {
        var rest := Work(front, embeddings, projects, job);
        forall i | 0 <= i < |rest| ensures rest[i].id != ms[|ms| - 1].id {
          assert rest[i] in front;
        }
      }
    }
  }

  /** Every indexable message in scope carries the hash of its text. */
  ghost predicate Hashed(ms: seq<Message>, projects: map<string, string>, job: Job) {
    forall m :: m in ms && InScope(m, projects, job) && m.hasText ==> m.inputHash.Some?
  }

  lemma BackfilledIsHashed(ms: seq<Message>, projects: map<string, string>, job: Job)
    ensures Hashed(Backfilled(ms, projects, job), projects, job)
    ensures DistinctIds(ms) ==> DistinctIds(Backfilled(ms, projects, job))
  {
  }

  lemma PassLeavesNoOldStale(ms: seq<Message>, embeddings: map<Key, Embedding>, vectors: seq<Vector>,
                             projects: map<string, string>, job: Job, m: Message)
    requires DistinctIds(ms) && Hashed(ms, projects, job)
    requires |vectors| == |Work(ms, embeddings, projects, job)|
    requires m in ms && InScope(m, projects, job) && m.hasText
    ensures !IsStale(m, Stored(embeddings, Work(ms, embeddings, projects, job), vectors, job.model), job.model)
  {
    var rows := Work(ms, embeddings, projects, job);
    WorkMembers(ms, embeddings, projects, job);
    WorkKeepsDistinct(ms, embeddings, projects, job);
    if m in rows {
      var i :| 0 <= i < |rows| && rows[i] == m;
      StoredAt(embeddings, rows, vectors, job.model, i);
    } else {
      forall r | r in rows ensures r.id != m.id {
        var i :| 0 <= i < |ms| && ms[i] == r;
        var j :| 0 <= j < |ms| && ms[j] == m;
        assert i != j;
      }
      StoredElsewhere(embeddings, rows, vectors, job.model, Key(m.id, job.model));
    }
  }

  lemma PassLeavesImportsStale(ms: seq<Message>, imported: seq<Message>, embeddings: map<Key, Embedding>,
      vectors: seq<Vector>,
                               projects: map<string, string>, job: Job, m: Message)
    requires DistinctIds(ms + imported) && |vectors| == |Work(ms, embeddings, projects, job)|
    requires m in imported && Key(m.id, job.model) !in embeddings
    ensures IsStale(m, Stored(embeddings, Work(ms, embeddings, projects, job), vectors, job.model), job.model)
  {
    var rows := Work(ms, embeddings, projects, job);
    WorkMembers(ms, embeddings, projects, job);
    forall r | r in rows ensures r.id != m.id {
      var i :| 0 <= i < |ms| && ms[i] == r;
      var j :| 0 <= j < |imported| && imported[j] == m;
      assert (ms + imported)[i] == r && (ms + imported)[|ms| + j] == m;
    }
    StoredElsewhere(embeddings, rows, vectors, job.model, Key(m.id, job.model));
  }

  ghost predicate NotYetIndexed(imported: seq<Message>, embeddings: map<Key, Embedding>, model: string) {
    forall m :: m in imported ==> Key(m.id, model) !in embeddings
  }

  /** After all selected rows were stored, the stale messages are exactly the indexable ones imported meanwhile. */
  lemma StaleAfterFullPass(ms: seq<Message>, imported: seq<Message>, embeddings: map<Key, Embedding>,
      vectors: seq<Vector>,
                           projects: map<string, string>, job: Job)
    requires DistinctIds(ms + imported) && Hashed(ms, projects, job)
    requires |vectors| == |Work(ms, embeddings, projects, job)|
    requires NotYetIndexed(imported, embeddings, job.model)
    ensures var stored := Stored(embeddings, Work(ms, embeddings, projects, job), vectors, job.model);
            forall m :: m in StaleMessages(ms + imported, stored, projects, job)
                        <==> m in imported && InScope(m, projects, job) && m.hasText
  {
    var stored := Stored(embeddings, Work(ms, embeddings, projects, job), vectors, job.model);
    WorkMembers(ms + imported, stored, projects, job.(force := false));
    assert DistinctIds(ms) by {
      assert forall i :: 0 <= i < |ms| ==> (ms + imported)[i] == ms[i];
    }
    forall m
      ensures m in StaleMessages(ms + imported, stored, projects, job) <==>
              m in imported && InScope(m, projects, job) && m.hasText
    {
      assert m in ms + imported <==> m in ms || m in imported;
      if m in imported {
        PassLeavesImportsStale(ms, imported, embeddings, vectors, projects, job, m);
      } else if m in ms && InScope(m, projects, job) && m.hasText {
        PassLeavesNoOldStale(ms, embeddings, vectors, projects, job, m);
      }
    }
  }

  // ---------- the job's own bookkeeping ----------

  predicate IsFinal(status: JobStatus) { status in {Ready, Partial, Failed} }

  /** The job row after one run that succeeded with `stale` messages left, or failed. */
  function Settled(job: Job, ok: bool, stale: nat): Job {
    if IsFinal(job.status) then job
    else
      var attempts := if job.status.Pending? then job.attempts + 1 else job.attempts;
      if ok then job.(status := if stale == 0 then Ready else Partial, attempts := attempts, stale := stale)
      else job.(status := if attempts < MAX_ATTEMPTS then Pending else Failed, attempts := attempts)
  }

  /** The job row once a run has begun. */
  function Claimed(job: Job): Job {
    if job.status.Pending? then job.(status := Running, attempts := job.attempts + 1) else job
  }

  /** The job row after a restart: a run that was stopped is to start over from the content as it is then. */
  function Recovered(job: Job): Job { if job.status.Running? then job.(status := Pending) else job }

  /** How a run ends: it succeeds with `stale` messages left, it fails, or the process stops in it and starts again. */
  datatype RunEnd = Succeeds(stale: nat) | Fails | Stops

  function AfterRun(job: Job, r: RunEnd): Job {
    match r
    case Succeeds(stale) => Settled(job, true, stale)
    case Fails => Settled(job, false, 0)
    case Stops => Recovered(Claimed(job))
  }

  function AfterRuns(job: Job, runs: seq<RunEnd>): Job {
    if runs == [] then job else AfterRun(AfterRuns(job, runs[..|runs| - 1]), runs[|runs| - 1])
  }

  /** Run number `k` (counted from 0), if the job is still open, closes it. */
  predicate Closes(runs: seq<RunEnd>, k: nat)
    requires k < |runs|
  {
    runs[k].Succeeds? || (runs[k].Fails? && k + 1 >= MAX_ATTEMPTS)
  }

  /** No run before number `n` closes the job. */
  predicate OpenUpTo(runs: seq<RunEnd>, n: nat)
    requires n <= |runs|
  {
    forall k: nat :: k < n ==> !Closes(runs, k)
  }

  lemma {:induction false} OpenJob(job: Job, runs: seq<RunEnd>)
    requires job.status.Pending? && job.attempts == 0 && OpenUpTo(runs, |runs|)
    ensures AfterRuns(job, runs) == job.(attempts := |runs|)
  {
    if runs != [] {
      var n, front := |runs| - 1, runs[..|runs| - 1];
      forall j: nat | j < n ensures !Closes(front, j) { assert !Closes(runs, j); }
      OpenJob(job, front);
      assert !Closes(runs, n);
    }
  }

  lemma {:induction false} ClosedJob(job: Job, runs: seq<RunEnd>, k: nat)
    requires job.status.Pending? && job.attempts == 0
    requires k < |runs| && OpenUpTo(runs, k) && Closes(runs, k)
    ensures var final := AfterRuns(job, runs);
            && final.attempts == k + 1
            && final.status == if runs[k].Fails? then Failed else if runs[k].stale == 0 then Ready else Partial
  {
    var n, front := |runs| - 1, runs[..|runs| - 1];
    forall j: nat | j < n ensures Closes(front, j) == Closes(runs, j) { }
    if k == n {
      forall j: nat | j < n ensures !Closes(front, j) { assert !Closes(runs, j); }
      OpenJob(job, front);
    } else {
      forall j: nat | j < k ensures !Closes(front, j) { assert !Closes(runs, j); }
      ClosedJob(job, front, k);
    }
  }

  /**
   * A new job is closed by its first run that succeeds, or that fails with two runs or more before it; a stopped run
   * counts as an attempt but never closes the job.
   */
  lemma JobsSettle(job: Job, runs: seq<RunEnd>)
    requires job.status.Pending? && job.attempts == 0
    ensures var final := AfterRuns(job, runs);
            && !final.status.Running?
            && (final.status.Pending? <==> OpenUpTo(runs, |runs|))
            && (final.status.Pending? ==> final.attempts == |runs|)
            && forall k: nat :: k < |runs| && OpenUpTo(runs, k) && Closes(runs, k) ==>
                 final.attempts == k + 1
                 && (final.status.Failed? <==> runs[k].Fails?)
                 && (final.status.Ready? <==> runs[k] == Succeeds(0))
  {
    if OpenUpTo(runs, |runs|) {
      OpenJob(job, runs);
    } else {
      var first := FirstClosing(runs, |runs|);
      ClosedJob(job, runs, first);
    }
    forall k: nat | k < |runs| && OpenUpTo(runs, k) && Closes(runs, k)
      ensures var final := AfterRuns(job, runs);
              final.attempts == k + 1 && (final.status.Failed? <==> runs[k].Fails?)
              && (final.status.Ready? <==> runs[k] == Succeeds(0))
    {
      ClosedJob(job, runs, k);
    }
  }

  /** Without stops a job fails exactly when its first three runs all fail, and is open only before that. */
  lemma JobsEndAfterThreeFailures(job: Job, runs: seq<RunEnd>)
    requires job.status.Pending? && job.attempts == 0
    requires forall r :: r in runs ==> !r.Stops?
    ensures var final := AfterRuns(job, runs);
            && (final.status.Failed?
                <==> |runs| >= MAX_ATTEMPTS && forall k :: 0 <= k < MAX_ATTEMPTS ==> runs[k].Fails?)
            && (final.status.Pending? <==> |runs| < MAX_ATTEMPTS && forall r :: r in runs ==> r.Fails?)
  {
    JobsSettle(job, runs);
    if OpenUpTo(runs, |runs|) {
      forall r | r in runs ensures r.Fails? {
        var k: nat :| k < |runs| && runs[k] == r;
        assert !Closes(runs, k);
      }
      assert |runs| < MAX_ATTEMPTS by { if |runs| >= MAX_ATTEMPTS { ThirdFailureCloses(runs); } }
    } else {
      var k := FirstClosing(runs, |runs|);
      forall j: nat | j < k ensures runs[j].Fails? { assert runs[j] in runs && !Closes(runs, j); }
      if k >= MAX_ATTEMPTS { ThirdFailureCloses(runs); }
    }
  }

  lemma ThirdFailureCloses(runs: seq<RunEnd>)
    requires |runs| >= MAX_ATTEMPTS && !runs[MAX_ATTEMPTS - 1].Stops?
    ensures Closes(runs, MAX_ATTEMPTS - 1)
  {
  }

  lemma {:induction false} FirstClosing(runs: seq<RunEnd>, n: nat) returns (k: nat)
    requires n <= |runs| && !OpenUpTo(runs, n)
    ensures k < n && OpenUpTo(runs, k) && Closes(runs, k)
  {
    if OpenUpTo(runs, n - 1) { k := n - 1; } else { k := FirstClosing(runs, n - 1); }
  }

  // ---------- the service ----------

  /** The batch of `size` rows was answered in full, with vectors of one length that agrees with `dimensions`. */
  ghost predicate GoodReply(reply: BatchReply, size: nat, dimensions: Option<nat>) {
    && reply.vectors.Some? && |reply.vectors.value| == size
    && (forall i :: 0 <= i < size ==>
          |reply.vectors.value[i]| == if dimensions.Some? then dimensions.value else |reply.vectors.value[0]|)
  }

  class ConversationIndexer {
    const projects: map<string, string>
    var messages: seq<Message>
    var embeddings: map<Key, Embedding>
    var job: Job

    constructor (projects: map<string, string>, messages: seq<Message>, projectId: string, sessionId: Option<string>,
        model: string, force: bool, batchSize: int)
      ensures this.projects == projects && this.messages == messages && embeddings == map[]
      ensures job == Job(projectId, sessionId, model, force, ClampBatch(batchSize), Pending, 0, 0, 0, None)
    {
      this.projects, this.messages, embeddings := projects, messages, map[];
      job := Job(projectId, sessionId, model, force, ClampBatch(batchSize), Pending, 0, 0, 0, None);
    }

    static function ClampBatch(batchSize: int): (size: nat)
      ensures 1 <= size <= 64 && (1 <= batchSize <= 64 ==> size == batchSize)
      ensures (batchSize < 1 ==> size == 1) && (batchSize > 64 ==> size == 64)
    {
      if batchSize < 1 then 1 else if batchSize > 64 then 64 else batchSize
    }

    /** Restart: a job that was running starts over from the current content. */
    method RecoverInterrupted()
      modifies this`job
      ensures job == Recovered(old(job))
    {
      if job.status.Running? { job := job.(status := Pending); }
    }

    method Backfill()
      modifies this`messages
      ensures messages == Backfilled(old(messages), projects, job)
    {
      for i := 0 to |messages|
        invariant |messages| == |old(messages)|
        invariant forall k :: 0 <= k < i ==> messages[k] == BackfilledMessage(old(messages)[k], projects, job)
        invariant forall k :: i <= k < |messages| ==> messages[k] == old(messages)[k]
      {
        if NeedsBackfill(messages[i], projects, job) {
          messages := messages[i := messages[i].(inputHash := Some(messages[i].inputText), version := Some(VERSION))];
        }
      }
    }

    /** One transaction: all rows of the batch are stored, or none is. */
    method StoreBatch(
      batch: seq<Message>, vectors: seq<Vector>, dimensions: Option<nat>) returns (ok: bool, dimensions': Option<nat>)
      requires |vectors| == |batch|
      modifies this`embeddings
      ensures ok <==> forall i :: 0 <= i < |vectors| ==>
              |vectors[i]| == if dimensions.Some? then dimensions.value else |vectors[0]|
      ensures embeddings == if ok then Stored(old(embeddings), batch, vectors, job.model) else old(embeddings)
      ensures ok ==> dimensions' == if dimensions.Some? || batch == [] then dimensions else Some(|vectors[0]|)
    {
      var saved := embeddings;                     // BEGIN IMMEDIATE
      dimensions' := dimensions;
      for inner := 0 to |batch|
        invariant embeddings == Stored(saved, batch[..inner], vectors[..inner], job.model)
        invariant dimensions' == if dimensions.Some? || inner == 0 then dimensions else Some(|vectors[0]|)
        invariant forall i :: 0 <= i < inner ==>
               |vectors[i]| == if dimensions.Some? then dimensions.value else |vectors[0]|
      {
        if dimensions'.None? { dimensions' := Some(|vectors[inner]|); }
        if |vectors[inner]| != dimensions'.value {
          embeddings := saved;                     // ROLLBACK
          return false, dimensions';
        }
        var row := batch[inner];
        embeddings := embeddings[Key(row.id, job.model) := Embedding(vectors[inner], row.inputHash, row.version)];
        assert batch[..inner + 1][..inner] == batch[..inner] && vectors[..inner + 1][..inner] == vectors[..inner];
      }
      assert batch[..|batch|] == batch && vectors[..|vectors|] == vectors;
      ok := true;                                  // COMMIT
    }

    /** A batch is stored when it was answered in full. */
    method StoreReply(
      batch: seq<Message>, reply: BatchReply, dimensions: Option<nat>) returns (ok: bool, dimensions': Option<nat>)
      modifies this`embeddings
      ensures ok <==> GoodReply(reply, |batch|, dimensions)
      ensures embeddings == if ok then Stored(old(embeddings), batch, reply.vectors.value, job.model)
              else old(embeddings)
      ensures ok ==> dimensions' == if dimensions.Some? || batch == [] then dimensions
              else Some(|reply.vectors.value[0]|)
    {
      if reply.vectors.None? || |reply.vectors.value| != |batch| { return false, dimensions; }
      ok, dimensions' := StoreBatch(batch, reply.vectors.value, dimensions);
    }

    /**
     * Embeds the selected rows batch by batch. `good` batches were committed; when a batch fails, the earlier
     * ones stay and nothing of the failed one is kept.
     */
    method EmbedRows(rows: seq<Message>, world: nat -> BatchReply) returns (ok: bool, good: nat)
      requires 1 <= job.batchSize <= 64
      modifies this`messages, this`embeddings, this`job
      ensures job == old(job).(indexed := job.indexed, dimensions := job.dimensions)
      ensures messages == old(messages) + Imported(world, if ok then good else good + 1)
      ensures |Received(world, good)| == (if ok then |rows| else Offset(good, job.batchSize)) <= |rows|
      ensures embeddings == Stored(old(embeddings), rows[..|Received(world, good)|], Received(world, good), job.model)
      ensures !ok ==> Offset(good, job.batchSize) < |rows|
                      && !GoodReply(world(good), BatchLength(|rows|, good, job.batchSize), job.dimensions)
    {
      var index := 0;
      good := 0;
      while index < |rows|
        invariant job == old(job).(indexed := job.indexed, dimensions := job.dimensions)
        invariant index == Offset(good, job.batchSize)
        invariant messages == old(messages) + Imported(world, good)
        invariant Embedded(old(embeddings), embeddings, rows, if index < |rows| then index
               else |rows|, world, good, job.model)
        decreases |rows| - index
      {
        var stored := EmbedBatch(rows, index, world, good, old(embeddings));
        if !stored { return false, good; }
        index, good := index + job.batchSize, good + 1;
      }
      ok := true;
    }

    /** One turn of the loop: the batch at `index` is embedded and, if answered in full, stored and reported. */
    method EmbedBatch(
      rows: seq<Message>, index: nat, world: nat -> BatchReply, good: nat, ghost start: map<Key, Embedding>)
      returns (stored: bool)
      requires index < |rows| && 1 <= job.batchSize
      requires Embedded(start, embeddings, rows, index, world, good, job.model)
      modifies this`messages, this`embeddings, this`job
      ensures job == old(job).(indexed := job.indexed, dimensions := job.dimensions)
      ensures messages == old(messages) + world(good).imported
      ensures var end := if index + job.batchSize < |rows| then index + job.batchSize else |rows|;
              && (stored <==> GoodReply(world(good), end - index, old(job).dimensions))
              && (stored ==> Embedded(start, embeddings, rows, end, world, good + 1, job.model))
      ensures !stored ==> embeddings == old(embeddings) && job == old(job)
    {
      var end := if index + job.batchSize < |rows| then index + job.batchSize else |rows|;
      var reply := world(good);
      messages := messages + reply.imported;
      var dimensions;
      stored, dimensions := StoreReply(rows[index..end], reply, job.dimensions);
      if stored {
        BatchStored(start, rows, index, end, world, good, job.model);
        job := job.(indexed := end, dimensions := dimensions);
      }
    }

    /** One run of the job, against whatever the provider and the other imports do. */
    method RunJob(world: nat -> BatchReply) returns (ok: bool, good: nat)
      requires 1 <= job.batchSize <= 64
      modifies this
      ensures IsFinal(old(job).status) ==> messages == old(messages) && embeddings == old(embeddings) && job == old(job)
      ensures !IsFinal(old(job).status) ==>
                var ms := Backfilled(old(messages), projects, old(job));
                var rows := Work(ms, old(embeddings), projects, old(job));
                && messages == ms + Imported(world, if ok then good else good + 1)
                && |Received(world, good)| == (if ok then |rows| else Offset(good, job.batchSize)) <= |rows|
                && embeddings == Stored(old(embeddings), rows[..|Received(world, good)|], Received(world, good),
                   job.model)
                && job.(indexed := 0, dimensions := None)
                   == Settled(old(job), ok, |StaleMessages(messages, embeddings, projects, job)|).(indexed := 0,
                       dimensions := None)
    {
      if IsFinal(job.status) { return false, 0; }
      if job.status.Pending? { job := job.(status := Running, attempts := job.attempts + 1); }
      Backfill();
      SameScope(old(messages), messages, embeddings, projects, old(job), job);
      ok, good := RunStarted(Work(messages, embeddings, projects, job), world);
      SameScope(old(messages), messages, embeddings, projects, old(job), job);
    }

    /** The run itself: the selected rows are embedded and the job is settled. */
    method RunStarted(rows: seq<Message>, world: nat -> BatchReply) returns (ok: bool, good: nat)
      requires 1 <= job.batchSize <= 64 && job.status.Running?
      modifies this
      ensures messages == old(messages) + Imported(world, if ok then good else good + 1)
      ensures |Received(world, good)| == (if ok then |rows| else Offset(good, job.batchSize)) <= |rows|
      ensures embeddings == Stored(old(embeddings), rows[..|Received(world, good)|], Received(world, good), job.model)
      ensures job.(indexed := 0, dimensions := None)
              == Settled(old(job), ok, |StaleMessages(messages, embeddings, projects, job)|).(indexed := 0,
                  dimensions := None)
    {
      ok, good := EmbedRows(rows, world);
      ghost var running := job;
      Settle(ok);
      SameScope(messages, messages, embeddings, projects, running, job);
    }

    /** The end of a run: counts what is stale, or schedules another attempt. */
    method Settle(ok: bool)
      requires job.status.Running?
      modifies this`job
      ensures job == if ok then
                       var stale := |StaleMessages(messages, embeddings, projects, old(job))|;
                       old(job).(status := if stale == 0 then Ready else Partial, stale := stale)
                     else old(job).(status := if old(job).attempts < MAX_ATTEMPTS then Pending else Failed)
    {
      if ok {
        var stale := |StaleMessages(messages, embeddings, projects, job)|;
        job := job.(status := if stale == 0 then Ready else Partial, stale := stale);
      } else {
        job := job.(status := if job.attempts < MAX_ATTEMPTS then Pending else Failed);
      }
    }
  }

  /** Storing one more answered batch continues the prefix already stored. */
  lemma BatchStored(
    embeddings: map<Key, Embedding>, rows: seq<Message>, index: nat, end: nat, world: nat -> BatchReply, good: nat,
    model: string)
    requires index <= end <= |rows| && |Received(world, good)| == index
    requires world(good).vectors.Some? && |world(good).vectors.value| == end - index
    ensures |Received(world, good + 1)| == end
    ensures Stored(Stored(embeddings, rows[..index], Received(world, good), model), rows[index..end],
            world(good).vectors.value, model)
            == Stored(embeddings, rows[..end], Received(world, good + 1), model)
  {
    StoredInTwoSteps(
      embeddings, rows[..index], rows[index..end], Received(world, good), world(good).vectors.value, model);
    assert rows[..index] + rows[index..end] == rows[..end];
  }

  /**
   * The answers of the first `good` batches, and nothing else, were added to the index `start`: they cover `n` rows.
   */
  ghost predicate Embedded(start: map<Key, Embedding>, embeddings: map<Key, Embedding>, rows: seq<Message>, n: nat,
                           world: nat -> BatchReply, good: nat, model: string)
  {
    && n <= |rows| && |Received(world, good)| == n
    && embeddings == Stored(start, rows[..n], Received(world, good), model)
  }

  /** Where batch number `n` begins. */
  function Offset(n: nat, batchSize: nat): nat {
    if n == 0 then 0 else Offset(n - 1, batchSize) + batchSize
  }

  function BatchLength(rows: nat, n: nat, batchSize: nat): nat
    requires Offset(n, batchSize) <= rows
  {
    if Offset(n + 1, batchSize) < rows then batchSize else rows - Offset(n, batchSize)
  }

  /** Only the job's project, session, model and force flag say what it is about. */
  lemma {:induction false} SameScope(
    ms: seq<Message>, rows: seq<Message>, embeddings: map<Key, Embedding>, projects: map<string, string>, a: Job,
    b: Job)
    requires a.projectId == b.projectId && a.sessionId == b.sessionId && a.model == b.model && a.force == b.force
    ensures Backfilled(ms, projects, a) == Backfilled(ms, projects, b)
    ensures Work(rows, embeddings, projects, a) == Work(rows, embeddings, projects, b)
    ensures StaleMessages(rows, embeddings, projects, a) == StaleMessages(rows, embeddings, projects, b)
  {
    if rows != [] {
      SameScope(ms, rows[..|rows| - 1], embeddings, projects, a, b);
    }
  }

  lemma SameIds(before: seq<Message>, ms: seq<Message>, imported: seq<Message>)
    requires |ms| == |before| && forall i :: 0 <= i < |ms| ==> ms[i].id == before[i].id
    requires DistinctIds(before + imported)
    ensures DistinctIds(ms + imported)
  {
    assert forall i :: 0 <= i < |ms + imported| ==> (ms + imported)[i].id == (before + imported)[i].id;
  }

  /**
   * A run whose batches all succeed ends `ready` with nothing stale unless an indexable message of the job was
   * imported meanwhile; those messages are then exactly the stale ones.
   */
  lemma SuccessfulRunEndsReady(before: seq<Message>, world: nat -> BatchReply, good: nat,
                               embeddings: map<Key, Embedding>, projects: map<string, string>, job: Job)
    requires !IsFinal(job.status) && FreshImports(world, before)
    requires NotYetIndexed(Imported(world, good), embeddings, job.model)
    requires |Received(world, good)| == |Work(Backfilled(before, projects, job), embeddings, projects, job)|
    ensures var ms := Backfilled(before, projects, job);
            var stored := Stored(embeddings, Work(ms, embeddings, projects, job), Received(world, good), job.model);
            var stale := StaleMessages(ms + Imported(world, good), stored, projects, job);
            && (forall m :: m in stale <==> m in Imported(world, good) && InScope(m, projects, job) && m.hasText)
            && (Settled(job, true, |stale|).status.Ready?
                <==> forall m :: m in Imported(world, good) ==> !(InScope(m, projects, job) && m.hasText))
  {
    var ms, imported := Backfilled(before, projects, job), Imported(world, good);
    BackfilledIsHashed(before, projects, job);
    SameIds(before, ms, imported);
    StaleAfterFullPass(ms, imported, embeddings, Received(world, good), projects, job);
    var stored := Stored(embeddings, Work(ms, embeddings, projects, job), Received(world, good), job.model);
    var stale := StaleMessages(ms + imported, stored, projects, job);
    if stale != [] { assert stale[0] in stale; }
  }
}
