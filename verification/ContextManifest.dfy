/**
 * Building a context manifest: artifacts are appended under a character budget, saved context first
 * (apps/local-core/src/context-manifest-service.ts).
 */
module ContextManifest {
  import opened Wrappers
  import Lists

  type ArtifactId = string
  type RevisionId = string
  type FileId = string

  const MAX_ITEM_CHARACTERS: nat := 32_000
  const MAX_TOTAL_CHARACTERS: nat := 128_000

  // ---------- the project graph ----------

  /** What reading the file gives: nothing for other types, a failure, or the decoded beginning of its text. */
  datatype Content = NotText | Unreadable | Text(text: string)

  datatype Artifact = Artifact(id: ArtifactId, title: string, current: Option<RevisionId>)
  datatype Revision = Revision(artifactId: ArtifactId, fileId: FileId, hash: string)
  datatype File = File(mime: string, content: Content)
  datatype Entry = Entry(identity: string, title: string, content: string)

  /** `references`, `feedbacks` and `siblings` are the related artifacts, in the order of their ids. */
  datatype Graph = Graph(
    projectId: string,
    projectName: string,
    graphVersion: nat,
    artifacts: map<ArtifactId, Artifact>,
    revisions: map<RevisionId, Revision>,
    files: map<FileId, File>,
    references: seq<ArtifactId>,
    feedbacks: seq<ArtifactId>,
    siblings: seq<ArtifactId>,
    notes: seq<Entry>,
    checkpoints: seq<Entry>)

  // ---------- the request ----------

  /** `tag` is the shortened digest of the anchor. */
  datatype Anchor = Anchor(source: string, tag: string)
  datatype Saved = Saved(artifactId: ArtifactId, revisionId: Option<RevisionId>, anchor: Option<Anchor>)
  datatype Extra = Extra(role: Role, identity: string, title: string, content: Option<string>)

  /** The ids that go into the cache plan. */
  datatype PlanIds = PlanIds(
    savedContextId: Option<string>, routeId: Option<string>, skillId: Option<string>, skillVersion: Option<string>,
        capability: Option<string>)

  datatype Input = Input(
    target: Option<ArtifactId>,
    targetRevision: Option<RevisionId>,
    contextArtifacts: seq<ArtifactId>,
    saved: seq<Saved>,
    extras: seq<Extra>,
    plan: PlanIds)

  // ---------- the manifest ----------

  datatype Role = TargetRole | ReferenceRole | FeedbackRole | ContextRole | DecisionRole | OtherRole(name: string)

  datatype Item = Item(
    role: Role, identity: string, title: string,
    artifactId: Option<ArtifactId>, revisionId: Option<RevisionId>, mime: Option<string>, anchor: Option<string>,
    hash: Option<string>, content: Option<string>)

  datatype Feedback = Feedback(sourceId: string, body: string)

  datatype Manifest = Manifest(
    projectId: string, projectName: string, graphVersion: nat,
    target: Option<(ArtifactId, RevisionId)>,
    items: seq<Item>,
    feedback: seq<Feedback>,
    lockedSource: seq<string>,
    truncated: seq<ArtifactId>,
    stableIdentities: seq<string>,
    focus: seq<ArtifactId>,
    plan: PlanIds)

  datatype Error =
    | TargetNotFound | TargetRevisionInvalid | ContextArtifactNotFound | SavedArtifactNotFound | SavedRevisionInvalid

  // ---------- appending one artifact ----------

  datatype Request = Request(artifactId: ArtifactId, role: Role, revision: Option<RevisionId>, identity: Option<string>,
      anchor: Option<string>)

  /** What is known while the manifest is built. */
  datatype Draft = Draft(remaining: nat, items: seq<Item>, truncated: seq<ArtifactId>, lockedSource: seq<string>)

  const Start: Draft := Draft(MAX_TOTAL_CHARACTERS, [], [], [])

  /** The rows an artifact stands for: its revision, the one given or the current one, and the revision's file. */
  function Rows(
    graph: Graph, a: ArtifactId, revision: Option<RevisionId>): Option<(Artifact, RevisionId, Revision, File)>
  {
    if a !in graph.artifacts then None
    else
      var id := if revision.Some? then revision else graph.artifacts[a].current;
      if id.None? || id.value !in graph.revisions || graph.revisions[id.value].artifactId != graph.artifacts[a].id
         || graph.revisions[id.value].fileId !in graph.files then None
      else
        Some((graph.artifacts[a], id.value, graph.revisions[id.value], graph.files[graph.revisions[id.value].fileId]))
  }

  /** `readTextExcerpt`, with its failure caught. */
  function Excerpt(content: Content): Option<string> {
    match content
    case NotText => None
    case Unreadable => Some("[unreadable]")
    case Text(text) => Some(Cut(text, MAX_ITEM_CHARACTERS))
  }

  predicate ExcerptTruncated(content: Content) { content.Text? && |content.text| > MAX_ITEM_CHARACTERS }

  function Cut(s: string, n: nat): (r: string)
    ensures |r| <= n && r <= s && (r == s <==> |s| <= n)
  {
    if |s| <= n then s else s[..n]
  }

  function Bounded(draft: Draft, content: Content): Option<string> {
    var excerpt := Excerpt(content);
    if excerpt.None? then None else Some(Cut(excerpt.value, draft.remaining))
  }

  function MakeItem(q: Request, rows: (Artifact, RevisionId, Revision, File), content: Option<string>): Item {
    Item(q.role, if q.identity.Some? then q.identity.value else rows.0.id, rows.0.title,
         Some(rows.0.id), Some(rows.1), Some(rows.3.mime), q.anchor, Some(rows.2.hash), content)
  }

  /** `appendArtifact`; an artifact without rows is passed over. */
  function Append(draft: Draft, graph: Graph, q: Request): Draft {
    var rows := Rows(graph, q.artifactId, q.revision);
    if rows.None? then draft
    else
      var content := rows.value.3.content;
      var excerpt, bounded := Excerpt(content), Bounded(draft, content);
      Draft(draft.remaining - (if bounded.Some? then |bounded.value| else 0),
            draft.items + [MakeItem(q, rows.value, bounded)],
            draft.truncated + (if ExcerptTruncated(content) then [rows.value.0.id] else [])
                + (if excerpt != bounded then [rows.value.0.id] else []),
            draft.lockedSource + (if excerpt.Some? && excerpt.value != "" then [excerpt.value] else []))
  }

  function AppendAll(draft: Draft, graph: Graph, requests: seq<Request>): Draft {
    if requests == [] then draft
    else Append(AppendAll(draft, graph, requests[..|requests| - 1]), graph, requests[|requests| - 1])
  }

  lemma {:induction false} AppendInTurn(draft: Draft, graph: Graph, first: seq<Request>, second: seq<Request>)
    ensures AppendAll(draft, graph, first + second) == AppendAll(AppendAll(draft, graph, first), graph, second)
  {
    if second == [] {
      assert first + second == first;
    } else {
      AppendInTurn(draft, graph, first, second[..|second| - 1]);
      assert (first + second)[..|first + second| - 1] == first + second[..|second| - 1];
    }
  }

  /** Appending only adds at the end. */
  lemma {:induction false} AppendKeepsPrefix(draft: Draft, graph: Graph, requests: seq<Request>)
    ensures draft.items <= AppendAll(draft, graph, requests).items
  {
    if requests != [] { AppendKeepsPrefix(draft, graph, requests[..|requests| - 1]); }
  }

  // ---------- the budget ----------

  function Characters(items: seq<Item>): nat {
    if items == [] then 0
    else
      Characters(items[..|items| - 1]) + if items[|items| - 1].content.Some? then |items[|items| - 1].content.value|
          else 0
  }

  predicate ItemsFit(items: seq<Item>) {
    forall i :: 0 <= i < |items| ==> items[i].content.Some? ==> |items[i].content.value| <= MAX_ITEM_CHARACTERS
  }

  lemma OneAppendSpends(draft: Draft, graph: Graph, q: Request)
    requires ItemsFit(draft.items)
    ensures var after := Append(draft, graph, q);
            after.remaining + Characters(after.items) == draft.remaining + Characters(draft.items)
                && ItemsFit(after.items)
  {
    var rows := Rows(graph, q.artifactId, q.revision);
    if rows.Some? {
      var item := MakeItem(q, rows.value, Bounded(draft, rows.value.3.content));
      assert (draft.items + [item])[..|draft.items|] == draft.items;
    }
  }

  /**
   * The budget is spent exactly on the contents appended, never overdrawn, and no item takes more than its own share.
   */
  lemma {:induction false} BudgetIsSpentExactly(draft: Draft, graph: Graph, requests: seq<Request>)
    requires ItemsFit(draft.items)
    ensures var after := AppendAll(draft, graph, requests);
            after.remaining + Characters(after.items) == draft.remaining + Characters(draft.items)
                && ItemsFit(after.items)
  {
    if requests != [] {
      BudgetIsSpentExactly(draft, graph, requests[..|requests| - 1]);
      OneAppendSpends(AppendAll(draft, graph, requests[..|requests| - 1]), graph, requests[|requests| - 1]);
    }
  }

  /** The text an appended artifact would have without any limit. */
  function FullText(content: Content): Option<string> {
    match content
    case NotText => None
    case Unreadable => Some("[unreadable]")
    case Text(text) => Some(text)
  }

  /** Appending lists an artifact as truncated if and only if its item holds less than the full text. */
  lemma TruncationIsReported(draft: Draft, graph: Graph, q: Request)
    requires Rows(graph, q.artifactId, q.revision).Some?
    ensures var rows, after := Rows(graph, q.artifactId, q.revision).value, Append(draft, graph, q);
            && |after.items| == |draft.items| + 1
            && var item := after.items[|draft.items|];
               && item.artifactId == Some(rows.0.id)
               && (item.content.Some? <==> FullText(rows.3.content).Some?)
               && (item.content.Some? ==> item.content.value <= FullText(rows.3.content).value)
               && (item.content != FullText(rows.3.content) <==> |after.truncated| > |draft.truncated|)
               && draft.truncated <= after.truncated
               && (forall i :: |draft.truncated| <= i < |after.truncated| ==> after.truncated[i] == rows.0.id)
  {
  }

  /** The rows of an artifact: its revision is the one given, or else its current one, and belongs to it. */
  lemma RowsExactly(graph: Graph, a: ArtifactId, revision: Option<RevisionId>, id: RevisionId)
    ensures (exists rows :: Rows(graph, a, revision) == Some(rows) && rows.1 == id) <==>
              && a in graph.artifacts && id in graph.revisions && graph.revisions[id].fileId in graph.files
              && graph.revisions[id].artifactId == graph.artifacts[a].id
              && (revision == Some(id) || (revision == None && graph.artifacts[a].current == Some(id)))
    ensures Rows(graph, a, revision).Some? ==>
              var (artifact, id, r, file) := Rows(graph, a, revision).value;
              && a in graph.artifacts && artifact == graph.artifacts[a]
              && id in graph.revisions && r == graph.revisions[id]
              && r.fileId in graph.files && file == graph.files[r.fileId]
  {
    if Rows(graph, a, revision).Some? { assert Rows(graph, a, revision) == Some(Rows(graph, a, revision).value); }
  }

  /**
   * An appended item is for its artifact at the revision found, under the identity asked for or else the artifact's id.
   * Its content is the beginning of the file's text: 32,000 characters at most, and no more than remain.
   */
  lemma AppendedItem(draft: Draft, graph: Graph, q: Request)
    requires Rows(graph, q.artifactId, q.revision).Some?
    ensures var (artifact, id, r, file) := Rows(graph, q.artifactId, q.revision).value;
            var after := Append(draft, graph, q);
            && |after.items| == |draft.items| + 1 && after.items[..|draft.items|] == draft.items
            && IsItemOf(after.items[|draft.items|], q, artifact, id, r, file)
            && IsContent(after.items[|draft.items|].content, file.content, draft.remaining)
            && after.lockedSource == draft.lockedSource
                 + (match file.content
                    case NotText => []
                    case Unreadable => ["[unreadable]"]
                    case Text(text) =>
                      if text == "" then [] else [if |text| <= 32_000 then text else text[..32_000]])
  {
  }

  predicate IsItemOf(item: Item, q: Request, artifact: Artifact, id: RevisionId, r: Revision, file: File) {
    && item.role == q.role && item.title == artifact.title && item.artifactId == Some(artifact.id)
    && item.identity == (if q.identity.Some? then q.identity.value else artifact.id)
    && item.revisionId == Some(id) && item.mime == Some(file.mime) && item.hash == Some(r.hash)
    && item.anchor == q.anchor
  }

  /** The content is the beginning of what the file gives, as long as the limits allow. */
  predicate IsContent(content: Option<string>, given: Content, remaining: nat) {
    match given
    case NotText => content == None
    case Unreadable =>
      content == Some(if remaining < |"[unreadable]"| then "[unreadable]"[..remaining] else "[unreadable]")
    case Text(text) =>
      && content.Some? && content.value <= text
      && (|content.value| == |text| || |content.value| == 32_000 || |content.value| == remaining)
      && |content.value| <= 32_000 && |content.value| <= remaining
  }

  // ---------- saved context ----------

  function EffectiveRevision(graph: Graph, s: Saved): Option<RevisionId>
    requires s.artifactId in graph.artifacts
  {
    if s.revisionId.Some? then s.revisionId else graph.artifacts[s.artifactId].current
  }

  /** The saved item names an artifact of the project, and a revision of that artifact if it names one. */
  predicate SavedOk(graph: Graph, s: Saved) {
    s.artifactId in graph.artifacts &&
    (s.revisionId.Some? ==>
        s.revisionId.value in graph.revisions
        && graph.revisions[s.revisionId.value].artifactId == graph.artifacts[s.artifactId].id)
  }

  function SavedIdentity(a: Artifact, revision: RevisionId, anchor: Option<Anchor>): string {
    "saved:" + a.id + ":" + revision + if anchor.Some? && anchor.value.source != "" then ":anchor-" + anchor.value.tag
        else ""
  }

  /** The request a saved item makes, unless its artifact has no revision at all. */
  function SavedRequest(graph: Graph, s: Saved): Option<Request>
    requires SavedOk(graph, s)
  {
    var revision := EffectiveRevision(graph, s);
    if revision.None? then None
    else
      Some(Request(s.artifactId, ContextRole, revision,
          Some(SavedIdentity(graph.artifacts[s.artifactId], revision.value, s.anchor)),
                   if s.anchor.Some? then Some(s.anchor.value.source) else None))
  }

  function SavedRequests(graph: Graph, saved: seq<Saved>): seq<Request>
    requires forall s :: s in saved ==> SavedOk(graph, s)
  {
    if saved == [] then []
    else
      var last := SavedRequest(graph, saved[|saved| - 1]);
      SavedRequests(graph, saved[..|saved| - 1]) + if last.Some? then [last.value] else []
  }

  /** The identity a saved item is appended under, if it is appended. */
  function SavedIdentityIn(graph: Graph, s: Saved): Option<string>
    requires SavedOk(graph, s)
  {
    var q := SavedRequest(graph, s);
    if q.Some? && Rows(graph, q.value.artifactId, q.value.revision).Some? then q.value.identity else None
  }

  /** `stableItemIdentities`. */
  function StableIdentities(graph: Graph, saved: seq<Saved>): seq<string>
    requires forall s :: s in saved ==> SavedOk(graph, s)
  {
    if saved == [] then []
    else
      var last := SavedIdentityIn(graph, saved[|saved| - 1]);
      StableIdentities(graph, saved[..|saved| - 1]) + if last.Some? then [last.value] else []
  }

  /** `stableArtifactIds`. */
  function StableArtifacts(graph: Graph, saved: seq<Saved>): set<ArtifactId>
    requires forall s :: s in saved ==> SavedOk(graph, s)
  {
    set s | s in saved && SavedIdentityIn(graph, s).Some? :: s.artifactId
  }

  lemma OneMoreSaved(graph: Graph, saved: seq<Saved>, s: Saved)
    requires (forall x :: x in saved ==> SavedOk(graph, x)) && SavedOk(graph, s)
    ensures SavedRequests(graph, saved + [s]) == SavedRequests(graph, saved) + SavedRequests(graph, [s])
    ensures StableIdentities(graph, saved + [s]) ==
            StableIdentities(graph, saved) + if SavedIdentityIn(graph, s).Some? then [SavedIdentityIn(graph, s).value]
                else []
    ensures StableArtifacts(graph, saved + [s]) == StableArtifacts(graph, saved) + if SavedIdentityIn(graph, s).Some?
            then {s.artifactId} else {}
  {
    assert (saved + [s])[..|saved|] == saved;
    assert SavedRequests(graph, [s][..0]) == [] && [s][..0] == [];
  }

  /**
   * A saved item asks for its artifact at the revision saved, or else the current one, as context, under an identity
   * of its own made of the artifact, the revision and the anchor.
   */
  lemma SavedRequestIs(graph: Graph, s: Saved)
    requires SavedOk(graph, s)
    ensures var q, artifact := SavedRequest(graph, s), graph.artifacts[s.artifactId];
            && (q.None? <==> s.revisionId.None? && artifact.current.None?)
            && (q.Some? ==>
                  && q.value.artifactId == s.artifactId && q.value.role == ContextRole
                  && q.value.revision == (if s.revisionId.Some? then s.revisionId else artifact.current)
                  && q.value.anchor == (if s.anchor.Some? then Some(s.anchor.value.source) else None)
                  && q.value.identity == Some("saved:" + artifact.id + ":" + q.value.revision.value
                       + if s.anchor.Some? && s.anchor.value.source != "" then ":anchor-" + s.anchor.value.tag else ""))
  {
  }

  // ---------- the other artifacts ----------

  function Known(graph: Graph, ids: seq<ArtifactId>): seq<ArtifactId> {
    if ids == [] then []
    else Known(graph, ids[..|ids| - 1]) + if ids[|ids| - 1] in graph.artifacts then [ids[|ids| - 1]] else []
  }

  function Plain(ids: seq<ArtifactId>, role: Role): seq<Request> {
    seq(|ids|, (i: nat) requires i < |ids| => Request(ids[i], role, None, None, None))
  }

  /** The ids not yet included, each once, in order. */
  function NotIncluded(ids: seq<ArtifactId>, included: set<ArtifactId>): seq<ArtifactId> {
    if ids == [] then []
    else
      var front := NotIncluded(ids[..|ids| - 1], included);
      if ids[|ids| - 1] in included || ids[|ids| - 1] in front then front else front + [ids[|ids| - 1]]
  }

  /** Those of the ids that are not included, each once, in order. */
  lemma NotIncludedExactly(ids: seq<ArtifactId>, included: set<ArtifactId>)
    ensures forall a :: a in NotIncluded(ids, included) <==> a in ids && a !in included
    ensures Lists.Distinct(NotIncluded(ids, included)) && Lists.IsSubsequence(NotIncluded(ids, included), ids)
  {
    NotIncludedMembers(ids, included);
    NotIncludedInOrder(ids, included);
  }

  lemma {:induction false} NotIncludedMembers(ids: seq<ArtifactId>, included: set<ArtifactId>)
    ensures forall a :: a in NotIncluded(ids, included) <==> a in ids && a !in included
    ensures Lists.Distinct(NotIncluded(ids, included))
  {
    if ids != [] {
      NotIncludedMembers(ids[..|ids| - 1], included);
      Lists.FrontAndLast(ids);
    }
  }

  lemma {:induction false} NotIncludedInOrder(ids: seq<ArtifactId>, included: set<ArtifactId>)
    ensures Lists.IsSubsequence(NotIncluded(ids, included), ids)
  {
    if ids != [] {
      NotIncludedInOrder(ids[..|ids| - 1], included);
      var before, list := NotIncluded(ids[..|ids| - 1], included), NotIncluded(ids, included);
      if list != before { assert list[..|before|] == before; }
    }
  }

  function Explicit(input: Input): seq<ArtifactId> {
    NotIncluded(input.contextArtifacts, if input.target.Some? then {input.target.value} else {})
  }

  function Siblings(graph: Graph, input: Input): seq<ArtifactId> {
    if input.contextArtifacts == [] then Known(graph, graph.siblings) else []
  }

  /** The artifacts included before the explicit context. */
  function Included(graph: Graph, input: Input, references: seq<ArtifactId>): set<ArtifactId>
    requires forall s :: s in input.saved ==> SavedOk(graph, s)
  {
    (if input.target.Some? then {input.target.value} else {""})
    + (set a | a in references) + (set a | a in Known(graph, graph.feedbacks))
    + StableArtifacts(graph, input.saved)
  }

  /** The target is shown at its current revision, whichever revision was asked for. */
  function TargetRequests(input: Input): seq<Request> {
    if input.target.Some? then [Request(input.target.value, TargetRole, None, None, None)] else []
  }

  /** All requests in the order of appending. The references are appended in whatever order their files are read. */
  function AllRequests(graph: Graph, input: Input, references: seq<ArtifactId>): seq<Request>
    requires forall s :: s in input.saved ==> SavedOk(graph, s)
  {
    var explicit := NotIncluded(Explicit(input), Included(graph, input, references));
    SavedRequests(graph, input.saved)
    + TargetRequests(input)
    + Plain(references, ReferenceRole)
    + Plain(Known(graph, graph.feedbacks), FeedbackRole)
    + Plain(explicit, ContextRole)
    + Plain(NotIncluded(Siblings(graph, input), Included(graph, input, references) + set a | a in explicit),
        ContextRole)
  }

  function EntryItems(entries: seq<Entry>, role: Role): seq<Item> {
    seq(|entries|, (i: nat) requires i < |entries| =>
      Item(role, entries[i].identity, entries[i].title, None, None, None, None, None, Some(entries[i].content)))
  }

  function ExtraItems(extras: seq<Extra>): seq<Item> {
    seq(|extras|, (i: nat) requires i < |extras| =>
      Item(extras[i].role, extras[i].identity, extras[i].title, None, None, None, None, None, extras[i].content))
  }

  /** The target and its revision, the one asked for or else the current one, if its rows are there. */
  function TargetRef(graph: Graph, input: Input): Option<(ArtifactId, RevisionId)> {
    if input.target.None? || input.target.value !in graph.artifacts then None
    else
      var id := if input.targetRevision.Some? then input.targetRevision
          else graph.artifacts[input.target.value].current;
      if id.None? || id.value !in graph.revisions || graph.revisions[id.value].fileId !in graph.files then None
      else Some((graph.artifacts[input.target.value].id, id.value))
  }

  // ---------- errors ----------

  predicate TargetOk(graph: Graph, input: Input) {
    && (input.target.Some? ==> input.target.value in graph.artifacts)
    && (input.targetRevision.Some? ==>
          && input.target.Some? && input.targetRevision.value in graph.revisions
          && graph.revisions[input.targetRevision.value].artifactId == graph.artifacts[input.target.value].id)
  }

  predicate Buildable(graph: Graph, input: Input) {
    && TargetOk(graph, input)
    && (forall a :: a in Explicit(input) ==> a in graph.artifacts)
    && (forall s :: s in input.saved ==> SavedOk(graph, s))
  }

  function LastContent(items: seq<Item>): string {
    if items == [] || items[|items| - 1].content.None? then "" else items[|items| - 1].content.value
  }

  /** Feedback takes the content of the last item appended so far, whichever artifact that item is for. */
  function FeedbackBodies(draft: Draft, graph: Graph, ids: seq<ArtifactId>): seq<Feedback> {
    if ids == [] then []
    else
      var items := AppendAll(draft, graph, Plain(ids, FeedbackRole)).items;
      FeedbackBodies(draft, graph, ids[..|ids| - 1])
      + [Feedback(ids[|ids| - 1], LastContent(items))]
  }

  // ---------- the builder ----------

  class ManifestBuilder {
    const graph: Graph
    var remainingCharacters: nat
    var orderedItems: seq<Item>
    var truncatedItemIds: seq<ArtifactId>
    var lockedSource: seq<string>

    function Value(): Draft
      reads this
    {
      Draft(remainingCharacters, orderedItems, truncatedItemIds, lockedSource)
    }

    constructor (graph: Graph)
      ensures this.graph == graph && Value() == Start
    {
      this.graph := graph;
      remainingCharacters := MAX_TOTAL_CHARACTERS;
      orderedItems, truncatedItemIds, lockedSource := [], [], [];
    }

    /** `appendArtifact`. */
    method AppendArtifact(q: Request) returns (appended: bool)
      modifies this
      ensures Value() == Append(old(Value()), graph, q)
      ensures appended == Rows(graph, q.artifactId, q.revision).Some?
    {
      var rows := Rows(graph, q.artifactId, q.revision);
      if rows.None? { return false; }
      var content := rows.value.3.content;
      var excerpt := Excerpt(content);
      if ExcerptTruncated(content) { truncatedItemIds := truncatedItemIds + [rows.value.0.id]; }
      if excerpt.Some? && excerpt.value != "" { lockedSource := lockedSource + [excerpt.value]; }
      var bounded := if excerpt.None? then None else Some(Cut(excerpt.value, remainingCharacters));
      if excerpt != bounded { truncatedItemIds := truncatedItemIds + [rows.value.0.id]; }
      if bounded.Some? { remainingCharacters := remainingCharacters - |bounded.value|; }
      orderedItems := orderedItems + [MakeItem(q, rows.value, bounded)];
      appended := true;
    }

    /** One saved item: its identity, if it was appended. */
    method AppendOneSaved(s: Saved) returns (identity: Option<string>)
      requires SavedOk(graph, s)
      modifies this
      ensures Value() == AppendAll(old(Value()), graph, SavedRequests(graph, [s]))
      ensures identity == SavedIdentityIn(graph, s)
    {
      assert SavedRequests(graph, [s][..0]) == [] && [s][..0] == [];
      var q := SavedRequest(graph, s);
      if q.None? { return None; }
      var appended := AppendArtifact(q.value);
      assert [q.value][..0] == [];
      identity := if appended then q.value.identity else None;
    }

    /** The loop over the saved context items. */
    method AppendSaved(saved: seq<Saved>) returns (result: Result<(seq<string>, set<ArtifactId>), Error>)
      modifies this
      ensures result.Ok? <==> forall s :: s in saved ==> SavedOk(graph, s)
      ensures result.Ok? ==> Value() == AppendAll(old(Value()), graph, SavedRequests(graph, saved))
      ensures result.Ok? ==> result.value == (StableIdentities(graph, saved), StableArtifacts(graph, saved))
    {
      var identities: seq<string> := [];
      var ids: set<ArtifactId> := {};
      for i := 0 to |saved|
        invariant forall s :: s in saved[..i] ==> SavedOk(graph, s)
        invariant Value() == AppendAll(old(Value()), graph, SavedRequests(graph, saved[..i]))
        invariant identities == StableIdentities(graph, saved[..i]) && ids == StableArtifacts(graph, saved[..i])
      {
        var s := saved[i];
        assert s in saved;
        if s.artifactId !in graph.artifacts { return Err(SavedArtifactNotFound); }
        if s.revisionId.Some? && (s.revisionId.value !in graph.revisions
           || graph.revisions[s.revisionId.value].artifactId != graph.artifacts[s.artifactId].id) {
          return Err(SavedRevisionInvalid);
        }
        SavedStep(old(Value()), graph, saved, i);
        var identity := AppendOneSaved(s);
        if identity.Some? {
          identities := identities + [identity.value];
          ids := ids + {s.artifactId};
        }
      }
      assert saved[..|saved|] == saved;
      result := Ok((identities, ids));
    }

    method AppendPlain(ids: seq<ArtifactId>, role: Role)
      modifies this
      ensures Value() == AppendAll(old(Value()), graph, Plain(ids, role))
    {
      for i := 0 to |ids|
        invariant Value() == AppendAll(old(Value()), graph, Plain(ids[..i], role))
      {
        var appended := AppendArtifact(Request(ids[i], role, None, None, None));
        assert Plain(ids[..i + 1], role)[..i] == Plain(ids[..i], role);
      }
      assert ids[..|ids|] == ids;
    }

    /** The loop over the feedback artifacts. */
    method AppendFeedback(ids: seq<ArtifactId>) returns (feedback: seq<Feedback>)
      modifies this
      ensures Value() == AppendAll(old(Value()), graph, Plain(ids, FeedbackRole))
      ensures feedback == FeedbackBodies(old(Value()), graph, ids)
    {
      feedback := [];
      for i := 0 to |ids|
        invariant Value() == AppendAll(old(Value()), graph, Plain(ids[..i], FeedbackRole))
        invariant feedback == FeedbackBodies(old(Value()), graph, ids[..i])
      {
        var appended := AppendArtifact(Request(ids[i], FeedbackRole, None, None, None));
        assert Plain(ids[..i + 1], FeedbackRole)[..i] == Plain(ids[..i], FeedbackRole);
        assert ids[..i + 1][..i] == ids[..i];
        var n := |orderedItems|;
        var body := if n == 0 || orderedItems[n - 1].content.None? then "" else orderedItems[n - 1].content.value;
        feedback := feedback + [Feedback(ids[i], body)];
      }
      assert ids[..|ids|] == ids;
    }

    /** A loop that passes over what is included already. */
    method AppendMissing(ids: seq<ArtifactId>, included: set<ArtifactId>) returns (now: set<ArtifactId>)
      modifies this
      ensures Value() == AppendAll(old(Value()), graph, Plain(NotIncluded(ids, included), ContextRole))
      ensures now == included + set a | a in NotIncluded(ids, included)
    {
      now := included;
      for i := 0 to |ids|
        invariant Value() == AppendAll(old(Value()), graph, Plain(NotIncluded(ids[..i], included), ContextRole))
        invariant now == included + set a | a in NotIncluded(ids[..i], included)
      {
        assert ids[..i + 1][..i] == ids[..i];
        if ids[i] in now { continue; }
        ghost var front := NotIncluded(ids[..i], included);
        var appended := AppendArtifact(Request(ids[i], ContextRole, None, None, None));
        assert Plain(front + [ids[i]], ContextRole)[..|front|] == Plain(front, ContextRole);
        now := now + {ids[i]};
      }
      assert ids[..|ids|] == ids;
    }

    /** The artifacts that follow the saved context. */
    method AppendOthers(
      input: Input, references: seq<ArtifactId>, stable: set<ArtifactId>) returns (feedback: seq<Feedback>)
      requires Buildable(graph, input) && stable == StableArtifacts(graph, input.saved)
      requires Value() == AppendAll(Start, graph, SavedRequests(graph, input.saved))
      modifies this
      ensures Value() == AppendAll(Start, graph, AllRequests(graph, input, references))
      ensures feedback == FeedbackBodies(BeforeFeedback(graph, input, references), graph, Known(graph, graph.feedbacks))
    {
      AppendTarget(input);
      AppendPlain(references, ReferenceRole);
      feedback := AppendFeedback(Known(graph, graph.feedbacks));
      var included := (if input.target.Some? then {input.target.value} else {""})
        + (set a | a in references) + (set a | a in Known(graph, graph.feedbacks)) + stable;
      included := AppendMissing(Explicit(input), included);
      included := AppendMissing(Siblings(graph, input), included);
      AppendedInOrder(graph, input, references);
    }

    method AppendTarget(input: Input)
      modifies this
      ensures Value() == AppendAll(old(Value()), graph, TargetRequests(input))
    {
      if input.target.Some? {
        var target := AppendArtifact(Request(input.target.value, TargetRole, None, None, None));
        assert TargetRequests(input)[..0] == [];
      }
    }

    /** `build`; `references` are the reference artifacts in the order in which their files were read. */
    method Build(input: Input, references: seq<ArtifactId>) returns (result: Result<Manifest, Error>)
      requires Value() == Start
      requires multiset(references) == multiset(Known(graph, graph.references))
      modifies this
      ensures result.Ok? <==> Buildable(graph, input)
      ensures result.Ok? ==> result.value == Built(graph, input, references)
    {
      if input.target.Some? && input.target.value !in graph.artifacts { return Err(TargetNotFound); }
      if input.targetRevision.Some? && (input.target.None? || input.targetRevision.value !in graph.revisions
         || graph.revisions[input.targetRevision.value].artifactId != graph.artifacts[input.target.value].id) {
        return Err(TargetRevisionInvalid);
      }
      if exists a :: a in Explicit(input) && a !in graph.artifacts { return Err(ContextArtifactNotFound); }
      var saved := AppendSaved(input.saved);
      if saved.Err? { return Err(saved.error); }
      var feedback := AppendOthers(input, references, saved.value.1);
      var manifest := Conclude(input, references, feedback, saved.value.0);
      result := Ok(manifest);
    }

    /** Adds the notes, the checkpoints and the extras, and puts the manifest together. */
    method Conclude(input: Input, ghost references: seq<ArtifactId>, feedback: seq<Feedback>, identities: seq<string>)
      returns (manifest: Manifest)
      requires Buildable(graph, input) && identities == StableIdentities(graph, input.saved)
      requires Value() == AppendAll(Start, graph, AllRequests(graph, input, references))
      requires feedback
              == FeedbackBodies(BeforeFeedback(graph, input, references), graph, Known(graph, graph.feedbacks))
      modifies this
      ensures manifest == Built(graph, input, references)
    {
      lockedSource := lockedSource + NoteBodies(graph);
      orderedItems := orderedItems + EntryItems(graph.notes, ContextRole) + EntryItems(graph.checkpoints, DecisionRole)
          + ExtraItems(input.extras);
      manifest := Manifest(graph.projectId, graph.projectName, graph.graphVersion, TargetRef(graph, input),
        orderedItems, feedback + NoteFeedback(graph), lockedSource, truncatedItemIds, identities, Focus(input),
            input.plan);
    }
  }

  function Focus(input: Input): seq<ArtifactId> { NotIncluded(input.contextArtifacts, {}) }

  function NoteBodies(graph: Graph): seq<string> {
    seq(|graph.notes|, (i: nat) requires i < |graph.notes| => graph.notes[i].content)
  }

  function NoteFeedback(graph: Graph): seq<Feedback> {
    seq(|graph.notes|, (i: nat) requires i < |graph.notes| => Feedback(graph.notes[i].identity, graph.notes[i].content))
  }

  lemma SavedStep(draft: Draft, graph: Graph, saved: seq<Saved>, i: nat)
    requires i < |saved| && (forall s :: s in saved[..i] ==> SavedOk(graph, s)) && SavedOk(graph, saved[i])
    ensures forall s :: s in saved[..i + 1] ==> SavedOk(graph, s)
    ensures AppendAll(draft, graph, SavedRequests(graph, saved[..i + 1])) ==
            AppendAll(AppendAll(draft, graph, SavedRequests(graph, saved[..i])), graph,
                SavedRequests(graph, [saved[i]]))
    ensures var identity := SavedIdentityIn(graph, saved[i]);
            && StableIdentities(graph, saved[..i + 1]) == StableIdentities(graph, saved[..i])
               + (if identity.Some? then [identity.value] else [])
            && StableArtifacts(graph, saved[..i + 1]) == StableArtifacts(graph, saved[..i]) + if identity.Some?
               then {saved[i].artifactId} else {}
  {
    assert saved[..i + 1] == saved[..i] + [saved[i]];
    OneMoreSaved(graph, saved[..i], saved[i]);
    AppendInTurn(draft, graph, SavedRequests(graph, saved[..i]), SavedRequests(graph, [saved[i]]));
  }

  function BeforeFeedback(graph: Graph, input: Input, references: seq<ArtifactId>): Draft
    requires Buildable(graph, input)
  {
    AppendAll(AppendAll(AppendAll(Start, graph, SavedRequests(graph, input.saved)), graph, TargetRequests(input)),
        graph, Plain(references, ReferenceRole))
  }

  /** The manifest of a request that names nothing unknown. */
  function Built(graph: Graph, input: Input, references: seq<ArtifactId>): Manifest
    requires Buildable(graph, input)
  {
    var draft := AppendAll(Start, graph, AllRequests(graph, input, references));
    Manifest(graph.projectId, graph.projectName, graph.graphVersion, TargetRef(graph, input),
      draft.items + EntryItems(graph.notes, ContextRole) + EntryItems(graph.checkpoints, DecisionRole)
          + ExtraItems(input.extras),
      FeedbackBodies(BeforeFeedback(graph, input, references), graph, Known(graph, graph.feedbacks))
          + NoteFeedback(graph),
      draft.lockedSource + NoteBodies(graph), draft.truncated,
      StableIdentities(graph, input.saved), Focus(input), input.plan)
  }

  /** The loops, one after the other, append all the requests. */
  lemma AppendedInOrder(graph: Graph, input: Input, references: seq<ArtifactId>)
    requires Buildable(graph, input)
    ensures var explicit := NotIncluded(Explicit(input), Included(graph, input, references));
            var siblings := NotIncluded(
              Siblings(graph, input), Included(graph, input, references) + set a | a in explicit);
            AppendAll(Start, graph, AllRequests(graph, input, references)) ==
            AppendAll(AppendAll(AppendAll(BeforeFeedback(graph, input, references), graph,
              Plain(Known(graph, graph.feedbacks), FeedbackRole)), graph, Plain(explicit, ContextRole)), graph,
                  Plain(siblings, ContextRole))
  {
    var explicit := NotIncluded(Explicit(input), Included(graph, input, references));
    var siblings := NotIncluded(Siblings(graph, input), Included(graph, input, references) + set a | a in explicit);
    var saved := SavedRequests(graph, input.saved);
    var target := TargetRequests(input);
    var refs, feedbacks := Plain(references, ReferenceRole), Plain(Known(graph, graph.feedbacks), FeedbackRole);
    AppendInTurn(Start, graph, saved, target);
    AppendInTurn(Start, graph, saved + target, refs);
    AppendInTurn(Start, graph, saved + target + refs, feedbacks);
    AppendInTurn(Start, graph, saved + target + refs + feedbacks, Plain(explicit, ContextRole));
    AppendInTurn(
      Start, graph, saved + target + refs + feedbacks + Plain(explicit, ContextRole), Plain(siblings, ContextRole));
  }

  /** What a feedback entry ought to say: the artifact's own text, cut to its share of the budget that is left. */
  function OwnText(draft: Draft, graph: Graph, a: ArtifactId): string
    requires Rows(graph, a, None).Some?
  {
    var bounded := Bounded(draft, Rows(graph, a, None).value.3.content);
    if bounded.Some? then bounded.value else ""
  }

  /**
   * Every feedback entry, in terms of the items before it: an artifact that has a stored current revision gives its
   * own text; one that has none gives the content of whatever item came last.
   */
  lemma {:induction false} FeedbackSaysItsOwnTextOrTheItemBefore(
    draft: Draft, graph: Graph, ids: seq<ArtifactId>, i: nat)
    requires i < |ids|
    ensures |FeedbackBodies(draft, graph, ids)| == |ids|
    ensures var before := AppendAll(draft, graph, Plain(ids[..i], FeedbackRole));
            FeedbackBodies(draft, graph, ids)[i] ==
            Feedback(ids[i], if Rows(graph, ids[i], None).Some? then OwnText(before, graph, ids[i])
                else LastContent(before.items))
  {
    FeedbackCount(draft, graph, ids[..|ids| - 1]);
    if i < |ids| - 1 {
      FeedbackSaysItsOwnTextOrTheItemBefore(draft, graph, ids[..|ids| - 1], i);
      assert ids[..|ids| - 1][..i] == ids[..i];
    } else {
      PlainGrows(draft, graph, ids);
    }
  }

  lemma PlainGrows(draft: Draft, graph: Graph, ids: seq<ArtifactId>)
    requires ids != []
    ensures AppendAll(draft, graph, Plain(ids, FeedbackRole)) ==
            Append(AppendAll(draft, graph, Plain(ids[..|ids| - 1], FeedbackRole)), graph,
                Request(ids[|ids| - 1], FeedbackRole, None, None, None))
  {
    assert Plain(ids, FeedbackRole)[..|ids| - 1] == Plain(ids[..|ids| - 1], FeedbackRole);
  }

  lemma {:induction false} FeedbackCount(draft: Draft, graph: Graph, ids: seq<ArtifactId>)
    ensures |FeedbackBodies(draft, graph, ids)| == |ids|
  {
    if ids != [] { FeedbackCount(draft, graph, ids[..|ids| - 1]); }
  }

  /** The item of the target, which follows the saved ones, and how its revision compares with the manifest's target. */
  lemma TargetItemIsCurrent(graph: Graph, input: Input, references: seq<ArtifactId>)
    requires Buildable(graph, input) && input.target.Some?
    ensures var saved, m := AppendAll(Start, graph, SavedRequests(graph, input.saved)).items,
            Built(graph, input, references);
            var current := graph.artifacts[input.target.value].current;
            if Rows(graph, input.target.value, None).None? then
              AppendAll(Start, graph, SavedRequests(graph, input.saved) + TargetRequests(input)).items == saved
            else
              && |m.items| > |saved| && saved <= m.items
              && m.items[|saved|].role == TargetRole && m.items[|saved|].revisionId == current
              && (m.target.Some? ==>
                    (m.items[|saved|].revisionId == Some(m.target.value.1)
                     <==> input.targetRevision.None? || input.targetRevision == current))
  {
    AppendInTurn(Start, graph, SavedRequests(graph, input.saved), TargetRequests(input));
    assert TargetRequests(input)[..0] == [];
    TargetFollowsSaved(graph, input, references);
  }

  /** The items of the saved context and the target are the first of the manifest. */
  lemma TargetFollowsSaved(graph: Graph, input: Input, references: seq<ArtifactId>)
    requires Buildable(graph, input)
    ensures AppendAll(Start, graph, SavedRequests(graph, input.saved) + TargetRequests(input)).items
            <= Built(graph, input, references).items
  {
    var all, begun := AllRequests(graph, input, references), SavedRequests(graph, input.saved) + TargetRequests(input);
    assert all == begun + all[|begun|..];
    AppendInTurn(Start, graph, begun, all[|begun|..]);
    AppendKeepsPrefix(AppendAll(Start, graph, begun), graph, all[|begun|..]);
  }

  /** For every manifest: the artifacts' contents fit the total budget, and each fits its own. */
  lemma ManifestFitsTheBudget(graph: Graph, input: Input, references: seq<ArtifactId>)
    requires Buildable(graph, input)
    ensures var items := AppendAll(Start, graph, AllRequests(graph, input, references)).items;
            && items <= Built(graph, input, references).items
            && Characters(items) <= MAX_TOTAL_CHARACTERS && ItemsFit(items)
  {
    BudgetIsSpentExactly(Start, graph, AllRequests(graph, input, references));
  }

  /**
   * What is appended, in this order: the saved items; the target; the references; the feedback artifacts that exist; of
   * the artifacts given as context those not appended so far, each once; and, if none are given, of the siblings that
   * exist those not appended so far.
   */
  lemma RequestsInOrder(graph: Graph, input: Input, references: seq<ArtifactId>)
    requires Buildable(graph, input)
    ensures exists explicit, siblings: seq<ArtifactId> ::
              && AllRequests(graph, input, references)
                 == SavedRequests(graph, input.saved)
                    + (if input.target.Some? then [Request(input.target.value, TargetRole, None, None, None)] else [])
                    + Asked(references, ReferenceRole) + Asked(Known(graph, graph.feedbacks), FeedbackRole)
                    + Asked(explicit, ContextRole) + Asked(siblings, ContextRole)
              && AreExplicit(graph, input, references, explicit) && AreSiblings(graph, input, references, siblings)
  {
    var included := Included(graph, input, references);
    var explicit := NotIncluded(Explicit(input), included);
    var siblings := NotIncluded(Siblings(graph, input), included + set a | a in explicit);
    IncludedExactly(graph, input, references);
    ExplicitExactly(graph, input, references);
    SiblingsExactly(graph, input, references, explicit);
    PlainIsAsked(references, ReferenceRole);
    PlainIsAsked(Known(graph, graph.feedbacks), FeedbackRole);
    PlainIsAsked(explicit, ContextRole);
    PlainIsAsked(siblings, ContextRole);
  }

  /** Of the artifacts given as context those not appended before them, each once. */
  ghost predicate AreExplicit(graph: Graph, input: Input, references: seq<ArtifactId>, ids: seq<ArtifactId>)
    requires forall s :: s in input.saved ==> SavedOk(graph, s)
  {
    Lists.Distinct(ids)
    && forall a :: a in ids <==> a in input.contextArtifacts && !IsAppended(graph, input, references, a)
  }

  /** If no artifacts are given as context, the siblings that exist and are not appended before them, each once. */
  ghost predicate AreSiblings(graph: Graph, input: Input, references: seq<ArtifactId>, ids: seq<ArtifactId>)
    requires forall s :: s in input.saved ==> SavedOk(graph, s)
  {
    Lists.Distinct(ids)
    && forall a :: a in ids <==>
         input.contextArtifacts == [] && a in graph.siblings && a in graph.artifacts
         && !IsAppended(graph, input, references, a)
  }

  lemma IncludedExactly(graph: Graph, input: Input, references: seq<ArtifactId>)
    requires forall s :: s in input.saved ==> SavedOk(graph, s)
    ensures forall a :: a in Included(graph, input, references) <==> IsAppended(graph, input, references, a)
  {
    KnownExactly(graph, graph.feedbacks);
  }

  lemma ExplicitExactly(graph: Graph, input: Input, references: seq<ArtifactId>)
    requires Buildable(graph, input)
    ensures AreExplicit(graph, input, references, NotIncluded(Explicit(input), Included(graph, input, references)))
  {
    IncludedExactly(graph, input, references);
    NotIncludedExactly(input.contextArtifacts, if input.target.Some? then {input.target.value} else {});
    NotIncludedExactly(Explicit(input), Included(graph, input, references));
  }

  lemma SiblingsExactly(graph: Graph, input: Input, references: seq<ArtifactId>, explicit: seq<ArtifactId>)
    requires Buildable(graph, input) && AreExplicit(graph, input, references, explicit)
    ensures AreSiblings(graph, input, references,
              NotIncluded(Siblings(graph, input), Included(graph, input, references) + set a | a in explicit))
  {
    IncludedExactly(graph, input, references);
    KnownExactly(graph, graph.siblings);
    NotIncludedExactly(Siblings(graph, input), Included(graph, input, references) + set a | a in explicit);
  }

  /** The artifacts asked for in that role, at their current revisions. */
  function Asked(ids: seq<ArtifactId>, role: Role): seq<Request> {
    if ids == [] then [] else Asked(ids[..|ids| - 1], role) + [Request(ids[|ids| - 1], role, None, None, None)]
  }

  lemma {:induction false} PlainIsAsked(ids: seq<ArtifactId>, role: Role)
    ensures Plain(ids, role) == Asked(ids, role)
  {
    if ids != [] {
      PlainIsAsked(ids[..|ids| - 1], role);
      assert Plain(ids, role)[..|ids| - 1] == Plain(ids[..|ids| - 1], role);
    }
  }

  /** The artifact is the target, a reference, a feedback artifact, or that of a saved item that was appended. */
  ghost predicate IsAppended(graph: Graph, input: Input, references: seq<ArtifactId>, a: ArtifactId)
    requires forall s :: s in input.saved ==> SavedOk(graph, s)
  {
    || input.target == Some(a) || (input.target == None && a == "")
    || a in references || (a in graph.feedbacks && a in graph.artifacts)
    || exists s :: s in input.saved && s.artifactId == a && SavedIdentityIn(graph, s).Some?
  }

  lemma {:induction false} KnownExactly(graph: Graph, ids: seq<ArtifactId>)
    ensures forall a :: a in Known(graph, ids) <==> a in ids && a in graph.artifacts
  {
    if ids != [] {
      KnownExactly(graph, ids[..|ids| - 1]);
      assert ids == ids[..|ids| - 1] + [ids[|ids| - 1]];
    }
  }

  /** After the artifacts come the notes, the checkpoints and the extra items, each as given. */
  lemma EntriesComeLast(graph: Graph, input: Input, references: seq<ArtifactId>, i: nat)
    requires Buildable(graph, input)
    ensures var items, n := Built(graph, input, references).items,
                |AppendAll(Start, graph, AllRequests(graph, input, references)).items|;
            EntriesFollow(items, n, graph, input, i)
  {
    var first := AppendAll(Start, graph, AllRequests(graph, input, references)).items;
    EntriesAfter(first, graph, input, i);
  }

  /** From place `n` on come the notes, the checkpoints and the extra items; `i` is any place among them. */
  ghost predicate EntriesFollow(items: seq<Item>, n: nat, graph: Graph, input: Input, i: nat) {
    var notes, points, extras := |graph.notes|, |graph.checkpoints|, |input.extras|;
    && |items| == n + notes + points + extras
    && (i < notes ==> IsEntry(items[n + i], ContextRole, graph.notes[i]))
    && (i < points ==> IsEntry(items[n + notes + i], DecisionRole, graph.checkpoints[i]))
    && (i < extras ==> IsExtra(items[n + notes + points + i], input.extras[i]))
  }

  predicate IsExtra(item: Item, e: Extra) {
    item.role == e.role && item.identity == e.identity && item.title == e.title && item.content == e.content
    && item.artifactId == None
  }

  lemma EntriesAfter(first: seq<Item>, graph: Graph, input: Input, i: nat)
    ensures EntriesFollow(
              first + EntryItems(graph.notes, ContextRole) + EntryItems(graph.checkpoints, DecisionRole)
              + ExtraItems(input.extras), |first|, graph, input, i)
  {
    FourParts(
      first, EntryItems(graph.notes, ContextRole), EntryItems(graph.checkpoints, DecisionRole),
      ExtraItems(input.extras), i);
  }

  lemma FourParts<T>(a: seq<T>, b: seq<T>, c: seq<T>, d: seq<T>, i: nat)
    ensures i < |b| ==> (a + b + c + d)[|a| + i] == b[i]
    ensures i < |c| ==> (a + b + c + d)[|a| + |b| + i] == c[i]
    ensures i < |d| ==> (a + b + c + d)[|a| + |b| + |c| + i] == d[i]
  {
  }

  predicate IsEntry(item: Item, role: Role, e: Entry) {
    item.role == role && item.identity == e.identity && item.title == e.title && item.content == Some(e.content)
    && item.artifactId == None
  }

  /** The revision and its file are stored. */
  predicate IsStored(graph: Graph, id: RevisionId) {
    id in graph.revisions && graph.revisions[id].fileId in graph.files
  }

  /** What else the manifest says: the project, the target, the focus and the plan. */
  lemma ManifestSays(graph: Graph, input: Input, references: seq<ArtifactId>)
    requires Buildable(graph, input)
    ensures var m := Built(graph, input, references);
            && m.projectId == graph.projectId && m.projectName == graph.projectName
            && m.graphVersion == graph.graphVersion && m.plan == input.plan
            && (m.target.Some? ==>
                  && input.target.Some? && m.target.value.0 == graph.artifacts[input.target.value].id
                  && Some(m.target.value.1) == if input.targetRevision.Some? then input.targetRevision
                                               else graph.artifacts[input.target.value].current)
            && (m.target.Some? <==>
                  && input.target.Some?
                  && (input.targetRevision.Some? || graph.artifacts[input.target.value].current.Some?)
                  && IsStored(graph, if input.targetRevision.Some? then input.targetRevision.value
                               else graph.artifacts[input.target.value].current.value))
            && (forall a :: a in m.focus <==> a in input.contextArtifacts) && Lists.Distinct(m.focus)
            && Lists.IsSubsequence(m.focus, input.contextArtifacts)
  {
    NotIncludedExactly(input.contextArtifacts, {});
  }

  /** The notes come last among the feedback and the locked text. */
  lemma NotesComeLast(graph: Graph, input: Input, references: seq<ArtifactId>)
    requires Buildable(graph, input)
    ensures EndsWithNotes(Built(graph, input, references).feedback, graph.notes)
    ensures LocksNotes(Built(graph, input, references).lockedSource, graph.notes)
  {
    NotesEndFeedback(
      FeedbackBodies(BeforeFeedback(graph, input, references), graph, Known(graph, graph.feedbacks)), graph);
    NotesEndLocked(AppendAll(Start, graph, AllRequests(graph, input, references)).lockedSource, graph);
  }

  ghost predicate EndsWithNotes(feedback: seq<Feedback>, notes: seq<Entry>) {
    |feedback| >= |notes|
    && forall i: nat :: i < |notes| ==>
         feedback[|feedback| - |notes| + i] == Feedback(notes[i].identity, notes[i].content)
  }

  ghost predicate LocksNotes(locked: seq<string>, notes: seq<Entry>) {
    |locked| >= |notes| && forall i: nat :: i < |notes| ==> locked[|locked| - |notes| + i] == notes[i].content
  }

  lemma NotesEndFeedback(first: seq<Feedback>, graph: Graph)
    ensures EndsWithNotes(first + NoteFeedback(graph), graph.notes)
  {
  }

  lemma NotesEndLocked(first: seq<string>, graph: Graph)
    ensures LocksNotes(first + NoteBodies(graph), graph.notes)
  {
  }
}
