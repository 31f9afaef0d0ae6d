/**
 * Uploading a conversation in chunks and completing the import
 * (`appendChunk` and `completeImport`, apps/local-core/src/conversation-import-service.ts).
 *
 * Hashes are taken as injective, so a hash is the bytes it was computed from.
 * Parsing is one step whose outcome is an input: it may succeed, fail, or be cut short
 * with the process.
 */
module ConversationUpload {
  import opened Wrappers

  type Bytes = seq<bv8>
  datatype Hash = Hash(preimage: Bytes)

  const MAX_CHUNK_BYTES := 4 * 1024 * 1024
  const MAX_IMPORT_BYTES := 512 * 1024 * 1024

  /** A row of `conversation_import_chunks`, keyed by chunk index. */
  datatype ChunkRow = ChunkRow(size: nat, hash: Hash)

  datatype UploadStatus = Receiving | Parsing | Ready | Failed

  /** A row of `conversation_import_sessions`, its chunk rows and its staged chunk files. */
  datatype Upload = Upload(
    projectId: string, receivedBytes: nat, receivedChunks: nat, status: UploadStatus,
    conversationId: Option<ConversationId>, chunks: map<nat, ChunkRow>, files: map<nat, Bytes>)

  /** `conversation-<hash of project:content>`. */
  datatype ConversationId = ConversationId(projectId: string, contentHash: Hash)
  datatype ConversationStatus = ConversationParsing | ConversationReady
  datatype Conversation = Conversation(projectId: string, contentHash: Hash, status: ConversationStatus)

  datatype ParseOutcome = ParseSucceeds | ParseFails | ParseInterrupted

  datatype Error =
    | BadIndex | BadChunkSize | UploadNotFound | NotReceiving | HashMismatch | DifferentContent
    | ChunkFileExists | ImportTooLarge | LostResult | AlreadyParsing | BadExpectedChunks | WrongChunkCount
    | MissingChunk | InProgress | ParseError | Interrupted
    | ProjectNotFound | UnknownSource | NoScope | TooManyExpected | IdTaken

  /** An upload that has received nothing yet. */
  function NewUpload(projectId: string): Upload { Upload(projectId, 0, 0, Receiving, None, map[], map[]) }

  // ---------- sums and concatenation over the chunk table ----------

  ghost function TotalSize(chunks: map<nat, ChunkRow>): nat
    decreases |chunks|
  {
    if chunks == map[] then 0
    else
      var k :| k in chunks;
      chunks[k].size + TotalSize(chunks - {k})
  }

  lemma {:induction false} TotalSizeRemove(chunks: map<nat, ChunkRow>, k: nat)
    requires k in chunks
    ensures TotalSize(chunks) == chunks[k].size + TotalSize(chunks - {k})
    decreases |chunks|
  {
    var j :| j in chunks && TotalSize(chunks) == chunks[j].size + TotalSize(chunks - {j});
    if j != k {
      TotalSizeRemove(chunks - {j}, k);
      TotalSizeRemove(chunks - {k}, j);
      assert chunks - {j} - {k} == chunks - {k} - {j};
    }
  }

  lemma TotalSizeInsert(chunks: map<nat, ChunkRow>, k: nat, row: ChunkRow)
    requires k !in chunks
    ensures TotalSize(chunks[k := row]) == TotalSize(chunks) + row.size
  {
    TotalSizeRemove(chunks[k := row], k);
    assert chunks[k := row] - {k} == chunks;
  }

  predicate Contiguous(chunks: map<nat, ChunkRow>, n: nat) {
    |chunks| == n && forall i :: 0 <= i < n ==> i in chunks
  }

  /** The content of the first `n` chunks, by index. */
  function Content(chunks: map<nat, ChunkRow>, n: nat): Bytes
    requires forall i :: 0 <= i < n ==> i in chunks
  {
    if n == 0 then [] else Content(chunks, n - 1) + chunks[n - 1].hash.preimage
  }

  function Flatten(pieces: seq<Bytes>): Bytes {
    if pieces == [] then [] else Flatten(pieces[..|pieces| - 1]) + pieces[|pieces| - 1]
  }

  // ---------- invariants ----------

  /** Counters agree with the chunk table, which agrees with the staged files until the upload is done. */
  ghost predicate ValidUpload(u: Upload) {
    && u.receivedBytes == TotalSize(u.chunks) <= MAX_IMPORT_BYTES
    && u.receivedChunks == |u.chunks|
    && (forall k :: k in u.chunks ==> 0 < u.chunks[k].size == |u.chunks[k].hash.preimage| <= MAX_CHUNK_BYTES)
    && (!u.status.Ready? ==> u.files.Keys == u.chunks.Keys
                             && forall k :: k in u.files ==> u.chunks[k].hash == Hash(u.files[k]))
    && (u.status.Ready? <==> u.conversationId.Some?)
    && (u.status.Ready? ==> Contiguous(u.chunks, |u.chunks|)
                            && u.conversationId.value
                               == ConversationId(u.projectId, Hash(Content(u.chunks, |u.chunks|))))
  }

  ghost predicate ValidStore(uploads: map<string, Upload>, conversations: map<ConversationId, Conversation>) {
    && (forall id :: id in uploads ==> ValidUpload(uploads[id]))
    && (forall id :: id in uploads && uploads[id].status.Ready? ==>
          uploads[id].conversationId.value in conversations
          && conversations[uploads[id].conversationId.value].status.ConversationReady?)
    && (forall c :: c in conversations ==>
       c == ConversationId(conversations[c].projectId, conversations[c].contentHash))
  }

  /** Among finished uploads of one project, equal bytes mean one conversation and different bytes different ones. */
  lemma SameBytesSameConversation(
    uploads: map<string, Upload>, conversations: map<ConversationId, Conversation>, a: string, b: string)
    requires ValidStore(uploads, conversations)
    requires a in uploads && b in uploads && uploads[a].status.Ready? && uploads[b].status.Ready?
    requires uploads[a].projectId == uploads[b].projectId
    ensures uploads[a].conversationId == uploads[b].conversationId <==>
              Content(uploads[a].chunks, |uploads[a].chunks|) == Content(uploads[b].chunks, |uploads[b].chunks|)
  {
    assert ValidUpload(uploads[a]) && ValidUpload(uploads[b]);
  }

  // ---------- appending ----------

  /** The table after one accepted chunk; a replay leaves it as it is. */
  function Appended(u: Upload, index: nat, bytes: Bytes): Upload {
    if index in u.chunks then u
    else u.(chunks := u.chunks[index := ChunkRow(|bytes|, Hash(bytes))], files := u.files[index := bytes],
            receivedBytes := u.receivedBytes + |bytes|, receivedChunks := u.receivedChunks + 1)
  }

  predicate Acceptable(u: Upload, index: int, bytes: Bytes, expectedHash: Option<Hash>) {
    && index >= 0
    && 0 < |bytes| <= MAX_CHUNK_BYTES
    && u.status.Receiving?
    && (expectedHash.Some? ==> expectedHash.value == Hash(bytes))
    && (if index in u.chunks then u.chunks[index] == ChunkRow(|bytes|, Hash(bytes))
        else u.receivedBytes + |bytes| <= MAX_IMPORT_BYTES)
  }

  lemma AppendKeepsValid(u: Upload, index: nat, bytes: Bytes, expectedHash: Option<Hash>)
    requires ValidUpload(u) && Acceptable(u, index, bytes, expectedHash)
    ensures ValidUpload(Appended(u, index, bytes))
  {
    if index !in u.chunks {
      TotalSizeInsert(u.chunks, index, ChunkRow(|bytes|, Hash(bytes)));
    }
  }

  lemma AppendKeepsValidIfSmall(u: Upload, index: nat, bytes: Bytes, expectedHash: Option<Hash>)
    requires ValidUpload(u)
    ensures Acceptable(u, index, bytes, expectedHash) ==> ValidUpload(Appended(u, index, bytes))
  {
    if Acceptable(u, index, bytes, expectedHash) { AppendKeepsValid(u, index, bytes, expectedHash); }
  }

  /** The upload after a chunk arrives: stored or replayed if acceptable, otherwise refused. */
  function Arrived(u: Upload, index: nat, bytes: Bytes): Upload {
    if Acceptable(u, index, bytes, Some(Hash(bytes))) then Appended(u, index, bytes) else u
  }

  /** A sender delivers `pieces` in the order `arrivals`, possibly repeating some. */
  function Deliver(u: Upload, pieces: seq<Bytes>, arrivals: seq<nat>): Upload
    requires forall k :: 0 <= k < |arrivals| ==> arrivals[k] < |pieces|
  {
    if arrivals == [] then u
    else
      var last := arrivals[|arrivals| - 1];
      Arrived(Deliver(u, pieces, arrivals[..|arrivals| - 1]), last, pieces[last])
  }

  /** A new upload session. */
  predicate IsNew(u: Upload) { u == Upload(u.projectId, 0, 0, Receiving, None, map[], map[]) }

  /** Pieces a sender may use: none empty or above the chunk limit, and together within the import limit. */
  predicate Sendable(pieces: seq<Bytes>) {
    (forall i :: 0 <= i < |pieces| ==> 0 < |pieces[i]| <= MAX_CHUNK_BYTES) && |Flatten(pieces)| <= MAX_IMPORT_BYTES
  }

  /** The chunk table holds some of the pieces, each under its own index. */
  ghost predicate Holds(chunks: map<nat, ChunkRow>, pieces: seq<Bytes>) {
    forall i :: i in chunks ==> i < |pieces| && chunks[i] == ChunkRow(|pieces[i]|, Hash(pieces[i]))
  }

  /** Some of the pieces are together no longer than all of them. */
  lemma {:induction false} SomePiecesFit(chunks: map<nat, ChunkRow>, pieces: seq<Bytes>)
    requires Holds(chunks, pieces)
    ensures TotalSize(chunks) <= |Flatten(pieces)|
  {
    if pieces == [] {
      assert chunks == map[];
    } else {
      var k := |pieces| - 1;
      SomePiecesFit(chunks - {k}, pieces[..k]);
      if k in chunks {
        TotalSizeRemove(chunks, k);
      } else {
        assert chunks - {k} == chunks;
      }
    }
  }

  /** The upload is consistent, still open, and holds nothing but pieces. */
  ghost predicate InDelivery(u: Upload, pieces: seq<Bytes>) {
    ValidUpload(u) && u.status.Receiving? && Holds(u.chunks, pieces)
  }

  lemma NewIsInDelivery(u: Upload, pieces: seq<Bytes>)
    requires IsNew(u)
    ensures InDelivery(u, pieces)
  {
    assert TotalSize(map[]) == 0;
  }

  /** The table holds exactly the pieces that arrived, whatever their order and however often they were repeated. */
  lemma {:induction false} DeliveredChunks(u: Upload, pieces: seq<Bytes>, arrivals: seq<nat>)
    requires IsNew(u) && Sendable(pieces) && forall k :: 0 <= k < |arrivals| ==> arrivals[k] < |pieces|
    ensures InDelivery(Deliver(u, pieces, arrivals), pieces)
    ensures forall i :: i in Deliver(u, pieces, arrivals).chunks <==> i in arrivals
  {
    if arrivals == [] {
      NewIsInDelivery(u, pieces);
    } else {
      var front, last := arrivals[..|arrivals| - 1], arrivals[|arrivals| - 1];
      DeliveredChunks(u, pieces, front);
      NextIsAcceptable(Deliver(u, pieces, front), pieces);
      OneMoreArrival(Deliver(u, pieces, front), pieces, last);
      FrontOrLast(arrivals);
    }
  }

  lemma FrontOrLast(s: seq<nat>)
    requires s != []
    ensures forall x :: x in s <==> x in s[..|s| - 1] || x == s[|s| - 1]
  {
    assert s == s[..|s| - 1] + [s[|s| - 1]];
  }

  /** No arrival of a sendable piece is ever refused, in any order and however often pieces are repeated. */
  lemma EveryArrivalIsAccepted(u: Upload, pieces: seq<Bytes>, arrivals: seq<nat>, k: nat)
    requires IsNew(u) && Sendable(pieces) && (forall j :: 0 <= j < |arrivals| ==> arrivals[j] < |pieces|)
    requires k < |arrivals|
    ensures Acceptable(Deliver(u, pieces, arrivals[..k]), arrivals[k], pieces[arrivals[k]],
            Some(Hash(pieces[arrivals[k]])))
    ensures Acceptable(Deliver(u, pieces, arrivals[..k]), arrivals[k], pieces[arrivals[k]], None)
  {
    DeliveredChunks(u, pieces, arrivals[..k]);
    NextIsAcceptable(Deliver(u, pieces, arrivals[..k]), pieces);
  }

  lemma OneMoreArrival(u: Upload, pieces: seq<Bytes>, i: nat)
    requires InDelivery(u, pieces) && i < |pieces| && Acceptable(u, i, pieces[i], Some(Hash(pieces[i])))
    ensures var after := Arrived(u, i, pieces[i]);
            && InDelivery(after, pieces)
            && forall k :: k in after.chunks <==> k in u.chunks || k == i
  {
    AppendKeepsValid(u, i, pieces[i], Some(Hash(pieces[i])));
  }

  lemma NextIsAcceptable(u: Upload, pieces: seq<Bytes>)
    requires InDelivery(u, pieces) && Sendable(pieces)
    ensures forall i: nat :: i < |pieces| ==> Acceptable(u, i, pieces[i], Some(Hash(pieces[i])))
  {
    forall i: nat | i < |pieces| ensures Acceptable(u, i, pieces[i], Some(Hash(pieces[i]))) {
      if i !in u.chunks {
        var row := ChunkRow(|pieces[i]|, Hash(pieces[i]));
        TotalSizeInsert(u.chunks, i, row);
        SomePiecesFit(u.chunks[i := row], pieces);
      }
    }
  }

  lemma {:induction false} ContentIsFlatten(chunks: map<nat, ChunkRow>, pieces: seq<Bytes>)
    requires forall i :: 0 <= i < |pieces| ==> i in chunks && chunks[i].hash == Hash(pieces[i])
    ensures Content(chunks, |pieces|) == Flatten(pieces)
  {
    if pieces != [] {
      ContentIsFlatten(chunks, pieces[..|pieces| - 1]);
    }
  }

  lemma {:induction false} CountBelow(chunks: map<nat, ChunkRow>, n: nat)
    requires forall i: nat :: i in chunks <==> i < n
    ensures |chunks| == n
  {
    if n > 0 {
      CountBelow(chunks - {n - 1}, n - 1);
      assert chunks.Keys == (chunks - {n - 1}).Keys + {n - 1};
      assert |chunks| == |chunks.Keys| && |chunks - {n - 1}| == |(chunks - {n - 1}).Keys|;
    } else {
      assert chunks.Keys == {};
      assert |chunks| == |chunks.Keys|;
    }
  }

  /** Arrival order never matters: once every piece has arrived, the assembled content is the concatenation by index. */
  lemma ArrivalOrderIsIrrelevant(u: Upload, pieces: seq<Bytes>, arrivals: seq<nat>)
    requires IsNew(u) && Sendable(pieces) && forall k :: 0 <= k < |arrivals| ==> arrivals[k] < |pieces|
    requires forall i: nat :: i < |pieces| ==> i in arrivals
    ensures var delivered := Deliver(u, pieces, arrivals);
            && Contiguous(delivered.chunks, |pieces|)
            && Content(delivered.chunks, |pieces|) == Flatten(pieces)
  {
    DeliveredChunks(u, pieces, arrivals);
    var chunks := Deliver(u, pieces, arrivals).chunks;
    CountBelow(chunks, |pieces|);
    ContentIsFlatten(chunks, pieces);
  }

  // ---------- the service ----------

  class ConversationImportService {
    var uploads: map<string, Upload>
    var conversations: map<ConversationId, Conversation>

    ghost predicate Valid()
      reads this
    {
      ValidStore(uploads, conversations)
    }

    constructor ()
      ensures Valid() && uploads == map[] && conversations == map[]
    {
      uploads, conversations := map[], map[];
    }

    /** Opens an upload for a known project, source and scope, of an expected size within the limit. */
    method CreateImportSession(
      id: string, projectId: string, projectKnown: bool, sourceKind: string, scopeId: string,
      expectedBytes: Option<int>)
      returns (outcome: Outcome<Error>)
      requires Valid()
      modifies this
      ensures Valid() && conversations == old(conversations)
      ensures outcome.Pass? <==>
              projectKnown && sourceKind in {"codex", "manual"} && scopeId != "" && id !in old(uploads)
              && (expectedBytes.Some? ==> 0 <= expectedBytes.value <= MAX_IMPORT_BYTES)
      ensures uploads == if outcome.Fail? then old(uploads)
              else old(uploads)[id := Upload(projectId, 0, 0, Receiving, None, map[], map[])]
      ensures outcome.Pass? ==>
                Store(uploads, conversations) == Step(Store(old(uploads), old(conversations)), Create(id, projectId))
    {
      if !projectKnown { return Fail(ProjectNotFound); }
      if sourceKind !in {"codex", "manual"} { return Fail(UnknownSource); }
      if scopeId == "" { return Fail(NoScope); }
      if expectedBytes.Some? && (expectedBytes.value < 0 || expectedBytes.value > MAX_IMPORT_BYTES) {
        return Fail(TooManyExpected);
      }
      if id in uploads { return Fail(IdTaken); }
      assert TotalSize(NewUpload(projectId).chunks) == 0;
      UploadUpdateKeepsValid(uploads, conversations, id, NewUpload(projectId));
      uploads := uploads[id := NewUpload(projectId)];
      outcome := Pass;
    }

    method AppendChunk(
      projectId: string, id: string, index: int, bytes: Bytes, expectedHash: Option<Hash>)
      returns (outcome: Outcome<Error>)
      requires Valid()
      modifies this
      ensures Valid() && conversations == old(conversations)
      ensures outcome.Pass? <==> id in old(uploads) && old(uploads)[id].projectId == projectId
                                 && Acceptable(old(uploads)[id], index, bytes, expectedHash)
      ensures uploads == if outcome.Pass? then old(uploads)[id := Appended(old(uploads)[id], index, bytes)]
              else old(uploads)
      ensures Store(uploads, conversations)
              == Step(Store(old(uploads), old(conversations)), Append(projectId, id, index, bytes, expectedHash))
    {
      if index < 0 { return Fail(BadIndex); }
      if |bytes| == 0 || |bytes| > MAX_CHUNK_BYTES { return Fail(BadChunkSize); }
      if id !in uploads || uploads[id].projectId != projectId { return Fail(UploadNotFound); }
      var session := uploads[id];
      assert ValidUpload(session);
      if !session.status.Receiving? { return Fail(NotReceiving); }
      var hash := Hash(bytes);
      if expectedHash.Some? && hash != expectedHash.value { return Fail(HashMismatch); }
      if index in session.chunks {
        if session.chunks[index] != ChunkRow(|bytes|, hash) { return Fail(DifferentContent); }
        assert uploads == uploads[id := session];
        return Pass;
      }
      if index in session.files { return Fail(ChunkFileExists); }
      AppendKeepsValidIfSmall(session, index, bytes, expectedHash);
      ghost var before := uploads;
      outcome := InsertChunk(id, index, bytes);
      if outcome.Pass? {
        UploadUpdateKeepsValid(before, conversations, id, Appended(session, index, bytes));
      }
    }

    /** Stages the file, then inserts the row and bumps the counters in one transaction. */
    method InsertChunk(id: string, index: nat, bytes: Bytes) returns (outcome: Outcome<Error>)
      requires id in uploads && index !in uploads[id].chunks && index !in uploads[id].files
      modifies this`uploads
      ensures outcome.Pass? <==> old(uploads)[id].receivedBytes + |bytes| <= MAX_IMPORT_BYTES
      ensures uploads == if outcome.Pass? then old(uploads)[id := Appended(old(uploads)[id], index, bytes)]
              else old(uploads)
    {
      var session := uploads[id];
      uploads := uploads[id := session.(files := session.files[index := bytes])];
      var saved := uploads[id];                   // BEGIN IMMEDIATE
      var row := saved.(chunks := saved.chunks[index := ChunkRow(|bytes|, Hash(bytes))]);
      row := row.(receivedBytes := row.receivedBytes + |bytes|, receivedChunks := row.receivedChunks + 1);
      uploads := uploads[id := row];
      if row.receivedBytes > MAX_IMPORT_BYTES {
        uploads := uploads[id := saved];          // ROLLBACK, then the staged file is removed
        uploads := uploads[id := saved.(files := saved.files - {index})];
        assert saved.files - {index} == session.files;
        return Fail(ImportTooLarge);
      }
      outcome := Pass;                            // COMMIT
    }

    /** Reads the staged files in index order. */
    static method Assemble(u: Upload, n: nat) returns (combined: Bytes)
      requires ValidUpload(u) && !u.status.Ready? && Contiguous(u.chunks, n)
      ensures combined == Content(u.chunks, n)
    {
      combined := [];
      for i := 0 to n
        invariant combined == Content(u.chunks, i)
      {
        combined := combined + u.files[i];
      }
    }

    /** `expectedChunks` rows with indices 0, 1, 2, … */
    static method CheckChunks(u: Upload, expectedChunks: int) returns (outcome: Outcome<Error>)
      ensures outcome.Pass? <==> expectedChunks > 0 && Contiguous(u.chunks, expectedChunks)
      ensures outcome.Fail? ==> outcome.error in {BadExpectedChunks, WrongChunkCount, MissingChunk}
    {
      if expectedChunks <= 0 { return Fail(BadExpectedChunks); }
      if |u.chunks| != expectedChunks { return Fail(WrongChunkCount); }
      for i := 0 to expectedChunks
        invariant forall k :: 0 <= k < i ==> k in u.chunks
      {
        if i !in u.chunks { return Fail(MissingChunk); }
      }
      outcome := Pass;
    }

    /** The checks of `completeImport` on the chunks: the identity of the conversation they make, or an error. */
    static method Identify(
      u: Upload, expectedChunks: int, expectedHash: Option<Hash>) returns (result: Result<ConversationId, Error>)
      requires ValidUpload(u) && !u.status.Ready?
      ensures result.Ok? <==> Assembles(u, expectedChunks, expectedHash)
      ensures result.Ok? ==> result.value == ConversationId(u.projectId, Hash(Content(u.chunks, expectedChunks)))
      ensures result.Err? ==> result.error !in {InProgress, ParseError, Interrupted}
    {
      if !u.status.Receiving? && !u.status.Failed? { return Err(AlreadyParsing); }
      var checked := CheckChunks(u, expectedChunks);
      if checked.Fail? { return Err(checked.error); }
      var combined := Assemble(u, expectedChunks);
      if expectedHash.Some? && expectedHash.value != Hash(combined) { return Err(HashMismatch); }
      result := Ok(ConversationId(u.projectId, Hash(combined)));
    }

    /** Persists the conversation under its identity, or finds it already there. */
    method Persist(id: string, c: ConversationId, parse: ParseOutcome) returns (result: Result<ConversationId, Error>)
      requires id in uploads
      modifies this
      ensures result == PersistResult(old(conversations), c, parse)
      ensures uploads == old(uploads)[id := PersistedUpload(old(uploads)[id], old(conversations), c, parse)]
      ensures conversations == PersistedConversations(old(conversations), c, parse)
    {
      var upload := uploads[id];
      var done := upload.(status := Ready, conversationId := Some(c));
      if c in conversations && conversations[c].status.ConversationReady? {
        uploads := uploads[id := done];
        return Ok(c);
      }
      uploads := uploads[id := upload.(status := Parsing)];
      if c in conversations {
        uploads := uploads[id := upload.(status := Failed)];
        return Err(InProgress);
      }
      conversations := conversations[c := Conversation(c.projectId, c.contentHash, ConversationParsing)];
      match parse
      case ParseInterrupted =>
        result := Err(Interrupted);
      case ParseFails =>
        conversations := conversations - {c};
        uploads := uploads[id := upload.(status := Failed)];
        assert conversations == old(conversations);
        result := Err(ParseError);
      case ParseSucceeds =>
        conversations := conversations[c := Conversation(c.projectId, c.contentHash, ConversationReady)];
        uploads := uploads[id := done.(files := map[])];
        result := Ok(c);
    }

    method CompleteImport(
      projectId: string, id: string, expectedChunks: int, expectedHash: Option<Hash>, parse: ParseOutcome)
      returns (result: Result<ConversationId, Error>)
      requires Valid()
      modifies this
      ensures Valid()
      ensures !(id in old(uploads) && old(uploads)[id].projectId == projectId) ==> result == Err(UploadNotFound)
      ensures id in old(uploads) && old(uploads)[id].projectId == projectId && old(uploads)[id].status.Ready? ==>
                result == Ok(old(uploads)[id].conversationId.value)
      ensures if Completes(old(uploads), projectId, id, expectedChunks, expectedHash)
              then var c := ContentIdentity(old(uploads)[id], expectedChunks);
                   && result == PersistResult(old(conversations), c, parse)
                   && uploads == old(uploads)[id := PersistedUpload(old(uploads)[id], old(conversations), c, parse)]
                   && conversations == PersistedConversations(old(conversations), c, parse)
              else
                (result.Ok? ==> old(uploads)[id].status.Ready?) && uploads == old(uploads)
                    && conversations == old(conversations)
      ensures Store(uploads, conversations)
              == Step(Store(old(uploads), old(conversations)),
                      Complete(projectId, id, expectedChunks, expectedHash, parse))
    {
      if id !in uploads || uploads[id].projectId != projectId { return Err(UploadNotFound); }
      var upload := uploads[id];
      assert ValidUpload(upload);
      if upload.status.Ready? {
        if upload.conversationId.Some? { return Ok(upload.conversationId.value); }
        return Err(LostResult);
      }
      var identified := Identify(upload, expectedChunks, expectedHash);
      if identified.Err? { return identified; }
      PersistKeepsValid(uploads, conversations, id, expectedChunks, parse);
      result := Persist(id, identified.value, parse);
    }
  }

  /** The upload can be assembled and the content is the announced one. */
  ghost predicate Assembles(u: Upload, expectedChunks: int, expectedHash: Option<Hash>) {
    && (u.status.Receiving? || u.status.Failed?)
    && expectedChunks > 0 && Contiguous(u.chunks, expectedChunks)
    && (expectedHash.Some? ==> expectedHash.value == Hash(Content(u.chunks, expectedChunks)))
  }

  ghost predicate Completes(
    uploads: map<string, Upload>, projectId: string, id: string, expectedChunks: int, expectedHash: Option<Hash>)
  {
    id in uploads && uploads[id].projectId == projectId && Assembles(uploads[id], expectedChunks, expectedHash)
  }

  function ContentIdentity(u: Upload, n: nat): ConversationId
    requires Contiguous(u.chunks, n)
  {
    ConversationId(u.projectId, Hash(Content(u.chunks, n)))
  }

  function PersistResult(
    conversations: map<ConversationId, Conversation>, c: ConversationId, parse: ParseOutcome): Result<ConversationId,
        Error>
  {
    if c in conversations then (if conversations[c].status.ConversationReady? then Ok(c) else Err(InProgress))
    else match parse
      case ParseSucceeds => Ok(c)
      case ParseFails => Err(ParseError)
      case ParseInterrupted => Err(Interrupted)
  }

  function PersistedUpload(
    u: Upload, conversations: map<ConversationId, Conversation>, c: ConversationId, parse: ParseOutcome): Upload
  {
    match PersistResult(conversations, c, parse)
    case Ok(_) => u.(status := Ready, conversationId := Some(c), files := if c in conversations then u.files else map[])
    case Err(e) => u.(status := if e.Interrupted? then Parsing else Failed)
  }

  function PersistedConversations(
    conversations: map<ConversationId, Conversation>, c: ConversationId, parse: ParseOutcome): map<ConversationId,
        Conversation>
  {
    if c in conversations || parse.ParseFails? then conversations
    else
      conversations[c := Conversation(c.projectId, c.contentHash, if parse.ParseSucceeds? then ConversationReady
          else ConversationParsing)]
  }

  lemma UploadUpdateKeepsValid(
    uploads: map<string, Upload>, conversations: map<ConversationId, Conversation>, id: string, u: Upload)
    requires ValidStore(uploads, conversations) && ValidUpload(u) && !u.status.Ready?
    ensures ValidStore(uploads[id := u], conversations)
  {
  }

  lemma PersistedUploadValid(u: Upload, conversations: map<ConversationId, Conversation>, n: nat, parse: ParseOutcome)
    requires ValidUpload(u) && !u.status.Ready? && Contiguous(u.chunks, n)
    ensures ValidUpload(PersistedUpload(u, conversations, ContentIdentity(u, n), parse))
  {
  }

  /** The conversations are among the later ones, and every later one is named by its project and content. */
  predicate Grown(conversations: map<ConversationId, Conversation>, later: map<ConversationId, Conversation>) {
    && (forall c :: c in conversations ==> c in later && later[c] == conversations[c])
    && (forall c :: c in later ==> c == ConversationId(later[c].projectId, later[c].contentHash))
  }

  /** The upload is not completed, or its conversation is ready. */
  predicate Backed(u: Upload, conversations: map<ConversationId, Conversation>) {
    u.status.Ready? ==>
      u.conversationId.Some? && u.conversationId.value in conversations
      && conversations[u.conversationId.value].status.ConversationReady?
  }

  lemma StoreUpdateKeepsValid(
    uploads: map<string, Upload>, conversations: map<ConversationId, Conversation>, id: string, u: Upload,
    later: map<ConversationId, Conversation>)
    requires ValidStore(uploads, conversations) && ValidUpload(u) && Grown(conversations, later) && Backed(u, later)
    ensures ValidStore(uploads[id := u], later)
  {
    forall other | other in uploads ensures Backed(uploads[other], later) { }
  }

  /** The conversation of the content is added or kept; a completed upload names it and it is ready. */
  lemma PersistedIsBacked(
    u: Upload, conversations: map<ConversationId, Conversation>, c: ConversationId, parse: ParseOutcome)
    requires !u.status.Ready? && Grown(conversations, conversations)
    ensures Grown(conversations, PersistedConversations(conversations, c, parse))
    ensures Backed(PersistedUpload(u, conversations, c, parse), PersistedConversations(conversations, c, parse))
  {
  }

  /** Whatever the parse does to the upload and to the conversation of its content, the store stays consistent. */
  lemma PersistKeepsValid(
    uploads: map<string, Upload>, conversations: map<ConversationId, Conversation>, id: string, n: nat,
    parse: ParseOutcome)
    requires ValidStore(uploads, conversations) && id in uploads && !uploads[id].status.Ready?
    requires Contiguous(uploads[id].chunks, n)
    ensures var c := ContentIdentity(uploads[id], n);
            ValidStore(uploads[id := PersistedUpload(uploads[id], conversations, c, parse)],
                PersistedConversations(conversations, c, parse))
  {
    var c := ContentIdentity(uploads[id], n);
    PersistedUploadValid(uploads[id], conversations, n, parse);
    PersistedIsBacked(uploads[id], conversations, c, parse);
    StoreUpdateKeepsValid(
      uploads, conversations, id, PersistedUpload(uploads[id], conversations, c, parse),
      PersistedConversations(conversations, c, parse));
  }

  // ---------- whole runs ----------

  datatype Store = Store(uploads: map<string, Upload>, conversations: map<ConversationId, Conversation>)

  /** What may be asked of the service; a session is created under a new id. */
  datatype Request =
    | Create(id: string, projectId: string)
    | Append(projectId: string, id: string, index: int, bytes: Bytes, expectedHash: Option<Hash>)
    | Complete(projectId: string, id: string, expectedChunks: int, expectedHash: Option<Hash>, parse: ParseOutcome)

  ghost predicate Valid(store: Store) { ValidStore(store.uploads, store.conversations) }

  /** The tables after a request, as the methods of the service leave them. */
  ghost function Step(store: Store, q: Request): Store {
    match q
    case Create(id, projectId) =>
      if id in store.uploads then store
      else store.(uploads := store.uploads[id := NewUpload(projectId)])
    case Append(projectId, id, index, bytes, expectedHash) =>
      if id in store.uploads && store.uploads[id].projectId == projectId && Acceptable(store.uploads[id], index, bytes,
          expectedHash)
      then store.(uploads := store.uploads[id := Appended(store.uploads[id], index, bytes)]) else store
    case Complete(projectId, id, expectedChunks, expectedHash, parse) =>
      if Completes(store.uploads, projectId, id, expectedChunks, expectedHash) then
        var c := ContentIdentity(store.uploads[id], expectedChunks);
        Store(store.uploads[id := PersistedUpload(store.uploads[id], store.conversations, c, parse)],
              PersistedConversations(store.conversations, c, parse))
      else store
  }

  ghost function Run(store: Store, requests: seq<Request>): Store {
    if requests == [] then store else Step(Run(store, requests[..|requests| - 1]), requests[|requests| - 1])
  }

  lemma StepKeepsValid(store: Store, q: Request)
    requires Valid(store)
    ensures Valid(Step(store, q))
  {
    match q
    case Create(id, projectId) =>
      assert TotalSize(NewUpload(projectId).chunks) == 0;
      UploadUpdateKeepsValid(store.uploads, store.conversations, id, NewUpload(projectId));
    case Append(projectId, id, index, bytes, expectedHash) =>
      if Step(store, q) != store {
        AppendKeepsValid(store.uploads[id], index, bytes, expectedHash);
        UploadUpdateKeepsValid(store.uploads, store.conversations, id, Appended(store.uploads[id], index, bytes));
      }
    case Complete(projectId, id, expectedChunks, expectedHash, parse) =>
      if Completes(store.uploads, projectId, id, expectedChunks, expectedHash) {
        PersistKeepsValid(store.uploads, store.conversations, id, expectedChunks, parse);
      }
  }

  /** The upload has been completed. */
  predicate IsDone(store: Store, id: string) { id in store.uploads && store.uploads[id].status.Ready? }

  lemma StepKeepsCompletions(store: Store, q: Request, first: string)
    requires Valid(store) && IsDone(store, first)
    ensures IsDone(Step(store, q), first) && Step(store, q).uploads[first] == store.uploads[first]
  {
    StepChangesOneOpenUpload(store, q);
  }

  /** A request changes no upload but one that is new or not completed. */
  lemma StepChangesOneOpenUpload(store: Store, q: Request)
    ensures forall id :: id in store.uploads && (id != q.id || IsDone(store, id)) ==>
              id in Step(store, q).uploads && Step(store, q).uploads[id] == store.uploads[id]
  {
    match q
    case Create(_, _) =>
    case Append(_, id, index, bytes, expectedHash) =>
      if IsDone(store, id) { assert !Acceptable(store.uploads[id], index, bytes, expectedHash); }
    case Complete(_, id, expectedChunks, expectedHash, _) =>
      if IsDone(store, id) { assert !Assembles(store.uploads[id], expectedChunks, expectedHash); }
  }

  /**
   * Over every run of creations, chunks and completions the tables stay consistent, and a completed upload keeps its
   * conversation for good.
   */
  lemma {:induction false} CompletionIsStable(store: Store, requests: seq<Request>, first: string)
    requires Valid(store) && IsDone(store, first)
    ensures var later := Run(store, requests);
            && Valid(later) && IsDone(later, first) && later.uploads[first] == store.uploads[first]
            && later.uploads[first].conversationId.value in later.conversations
            && later.conversations[later.uploads[first].conversationId.value].status.ConversationReady?
  {
    if requests != [] {
      CompletionIsStable(store, requests[..|requests| - 1], first);
      StepKeepsValid(Run(store, requests[..|requests| - 1]), requests[|requests| - 1]);
      StepKeepsCompletions(Run(store, requests[..|requests| - 1]), requests[|requests| - 1], first);
    }
  }

  /**
   * Whenever another upload of the project completes with the same bytes, it is answered with that conversation,
   * whatever the parser would do.
   */
  lemma EqualContentResolvesToIt(
    store: Store, requests: seq<Request>, first: string, id: string, expectedChunks: int, expectedHash: Option<Hash>,
        parse: ParseOutcome)
    requires Valid(store) && IsDone(store, first)
    requires var later := Run(store, requests);
             && Completes(later.uploads, store.uploads[first].projectId, id, expectedChunks, expectedHash)
             && Content(later.uploads[id].chunks, expectedChunks)
                == Content(store.uploads[first].chunks, |store.uploads[first].chunks|)
    ensures var later := Run(store, requests);
            var c := ContentIdentity(later.uploads[id], expectedChunks);
            PersistResult(later.conversations, c, parse) == Ok(store.uploads[first].conversationId.value)
  {
    CompletionIsStable(store, requests, first);
    assert ValidUpload(store.uploads[first]);
  }
}
