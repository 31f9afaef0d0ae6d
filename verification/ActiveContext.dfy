/**
 * The active context of a project workspace: what is selected, pinned and locked, with a version that follows its
 * meaning (apps/local-core/src/active-context-store.ts).
 */
module ActiveContext {
  import opened Wrappers
  import opened Lists

  // ---------- values ----------

  /** The fields compared by `semanticWorkStateFingerprint`. */
  datatype WorkState = WorkState(
    workspaceId: Option<string>,
    scopeId: Option<string>,
    selected: seq<string>,
    pinned: seq<string>,
    excluded: seq<string>,
    locked: Option<seq<string>>,
    surface: Option<string>,
    harness: Option<string>,
    intent: Option<string>,
    dismissed: Option<seq<string>>,
    targetArtifact: Option<string>,
    targetRevision: Option<string>)

  datatype Viewport = Viewport(x: int, y: int, zoom: int, visible: seq<string>)
  datatype ChangeKind = Selection | References | Lock | Surface | Harness | Intent | Target | ViewportMoved
  datatype Change = Change(version: nat, kind: ChangeKind, viewIds: seq<string>, occurredAt: nat, updatedBy: string)

  /** What is read off the project graph. */
  datatype Item = Item(viewId: string, artifactId: string, title: string, kind: string, revision: Option<string>)
  datatype Cluster = Cluster(viewIds: seq<string>, minX: int, minY: int, maxX: int, maxY: int)
  datatype Projection = Projection(
    selectedItems: seq<Item>, contextItems: seq<Item>, nodes: seq<Item>, clusters: map<(string, string), Cluster>,
        target: Option<string>)

  datatype Context = Context(
    projectId: string,
    work: WorkState,
    viewport: Option<Viewport>,
    recent: seq<Change>,
    version: nat,
    updatedAt: nat,
    updatedBy: string,
    session: Option<string>,
    projection: Projection)

  datatype ViewRow = ViewRow(
    id: string, artifactId: string, scopeId: string, revision: Option<string>, x: int, y: int, width: int, height: int)
  datatype ArtifactRow = ArtifactRow(id: string, title: string, kind: string, current: Option<string>)
  datatype Graph = Graph(projectId: string, firstScope: Option<string>, views: seq<ViewRow>,
      artifacts: seq<ArtifactRow>)

  /** An intent is left as it is, cleared, or given. */
  datatype IntentInput = Unmentioned | Cleared | Given(goal: string)

  datatype Input = Input(
    workspaceId: Option<string>,
    scopeId: string,
    selected: seq<string>,
    pinned: seq<string>,
    excluded: seq<string>,
    locked: Option<seq<string>>,
    surface: Option<string>,
    harness: Option<string>,
    intent: IntentInput,
    dismissed: Option<seq<string>>,
    targetArtifact: Option<string>,
    targetRevision: Option<string>,
    viewport: Option<(int, int, int)>,
    visible: Option<seq<string>>,
    expectedVersion: Option<nat>,
    updatedBy: Option<string>,
    session: Option<string>)

  // ---------- the projection onto the graph ----------

  /** `new Map(...)` keeps the last row of an id. */
  function FindView(views: seq<ViewRow>, id: string): Option<ViewRow> {
    if views == [] then None
    else if views[|views| - 1].id == id then Some(views[|views| - 1])
    else FindView(views[..|views| - 1], id)
  }

  function FindArtifact(artifacts: seq<ArtifactRow>, id: string): Option<ArtifactRow> {
    if artifacts == [] then None
    else if artifacts[|artifacts| - 1].id == id then Some(artifacts[|artifacts| - 1])
    else FindArtifact(artifacts[..|artifacts| - 1], id)
  }

  function ItemsOf(graph: Graph, viewIds: seq<string>): seq<Item> {
    if viewIds == [] then []
    else
      var id := viewIds[|viewIds| - 1];
      var view := FindView(graph.views, id);
      var artifact := if view.None? then None else FindArtifact(graph.artifacts, view.value.artifactId);
      ItemsOf(graph, viewIds[..|viewIds| - 1]) +
      if artifact.None? then []
      else [Item(id, artifact.value.id, artifact.value.title, artifact.value.kind,
                 if view.value.revision.Some? then view.value.revision else artifact.value.current)]
  }

  /** The cluster of a view that is not shown: its scope and its artifact's kind. */
  function ClusterKey(graph: Graph, shown: seq<string>, view: ViewRow): Option<(string, string)> {
    var artifact := FindArtifact(graph.artifacts, view.artifactId);
    if view.id in shown || artifact.None? then None else Some((view.scopeId, artifact.value.kind))
  }

  function Min(a: int, b: int): int { if a <= b then a else b }
  function Max(a: int, b: int): int { if a >= b then a else b }

  function Grown(cluster: Option<Cluster>, view: ViewRow): Cluster {
    var c := if cluster.Some? then cluster.value
        else Cluster([], view.x, view.y, view.x + view.width, view.y + view.height);
    Cluster(c.viewIds + [view.id], Min(c.minX, view.x), Min(c.minY, view.y), Max(c.maxX, view.x + view.width),
        Max(c.maxY, view.y + view.height))
  }

  /** The clusters after the first `n` views of the graph. */
  function Clusters(graph: Graph, shown: seq<string>, n: nat): map<(string, string), Cluster>
    requires n <= |graph.views|
  {
    if n == 0 then map[]
    else
      var before, view := Clusters(graph, shown, n - 1), graph.views[n - 1];
      var key := ClusterKey(graph, shown, view);
      if key.None? then before
      else before[key.value := Grown(if key.value in before then Some(before[key.value]) else None, view)]
  }

  function ContextIds(selected: seq<string>, pinned: seq<string>, excluded: seq<string>): seq<string> {
    Without(Unique(selected + pinned), excluded)
  }

  /** Everything `#project` reads off the graph; `visible` are the ids the client shows. */
  function ProjectOnto(graph: Graph, work: WorkState, visible: seq<string>): Projection {
    var contextIds := ContextIds(work.selected, work.pinned, work.excluded);
    var shown := Unique(visible + contextIds);
    Projection(
      ItemsOf(graph, work.selected),
      ItemsOf(graph, contextIds),
      ItemsOf(graph, shown),
      Clusters(graph, shown, |graph.views|),
      if work.targetArtifact.None? then None
      else if FindArtifact(graph.artifacts, work.targetArtifact.value).None? then None else work.targetArtifact)
  }

  // ---------- projecting, refreshing, merging ----------

  function WorkOf(input: Input): WorkState {
    WorkState(input.workspaceId, Some(input.scopeId), Unique(input.selected), Unique(input.pinned),
        Unique(input.excluded),
      Some(Unique(if input.locked.Some? then input.locked.value else [])), input.surface, input.harness,
      if input.intent.Given? then Some(input.intent.goal) else None,
      Some(Unique(if input.dismissed.Some? then input.dismissed.value else [])), input.targetArtifact,
          input.targetRevision)
  }

  /** Without a list of visible views the context's own views count as visible. */
  function VisibleOf(input: Input): seq<string> {
    Unique(if input.visible.Some? then input.visible.value
        else ContextIds(Unique(input.selected), input.pinned, input.excluded))
  }

  /** `#project`. */
  function Project(graph: Graph, input: Input, version: nat, updatedAt: nat, recent: seq<Change>): Context {
    Context(graph.projectId, WorkOf(input),
      if input.viewport.None? then None
      else Some(Viewport(input.viewport.value.0, input.viewport.value.1, input.viewport.value.2, VisibleOf(input))),
      recent, version, updatedAt,
      if input.updatedBy.Some? then input.updatedBy.value else "web", input.session,
      ProjectOnto(graph, WorkOf(input), VisibleOf(input)))
  }

  /** The input that stands for a stored value; the session is not carried over. */
  function InputOf(value: Context): Input {
    var w := value.work;
    Input(w.workspaceId, if w.scopeId.Some? then w.scopeId.value else "", w.selected, w.pinned, w.excluded,
      Some(if w.locked.Some? then w.locked.value else []), w.surface, w.harness,
      if w.intent.Some? then Given(w.intent.value) else Unmentioned,
      Some(if w.dismissed.Some? then w.dismissed.value else []), w.targetArtifact, w.targetRevision,
      if value.viewport.Some? then Some((value.viewport.value.x, value.viewport.value.y, value.viewport.value.zoom))
      else None,
      if value.viewport.Some? then Some(value.viewport.value.visible) else None,
      None, Some(value.updatedBy), None)
  }

  /** `#refreshGraphProjection`. */
  function Refresh(graph: Graph, value: Context): Context {
    Project(graph, InputOf(value), value.version, value.updatedAt, value.recent)
  }

  function Or<T>(first: Option<T>, second: Option<T>): Option<T> { if first.Some? then first else second }

  function MergedIntent(input: IntentInput, previous: Option<string>): IntentInput {
    if input.Unmentioned? && previous.Some? then Given(previous.value) else input
  }

  /** What an update does not mention stays as it was. */
  function Merge(input: Input, previous: WorkState): Input {
    input.(
      locked := Some(if input.locked.Some? then input.locked.value else ListOr(previous.locked)),
      surface := Or(input.surface, previous.surface),
      harness := Or(input.harness, previous.harness),
      intent := MergedIntent(input.intent, previous.intent),
      dismissed := Some(if input.dismissed.Some? then input.dismissed.value else ListOr(previous.dismissed)))
  }

  /** `semanticWorkStateFingerprint`, up to its encoding: an absent list counts as empty. */
  function Fingerprint(w: WorkState): WorkState {
    w.(locked := Some(if w.locked.Some? then w.locked.value else []),
       dismissed := Some(if w.dismissed.Some? then w.dismissed.value else []))
  }

  const KINDS: seq<ChangeKind> := [Selection, References, Lock, Surface, Harness, Intent, Target, ViewportMoved]

  /** `#deriveRecentChanges`: at most one record for each kind of change, in a fixed order. */
  function RecentChanges(previous: Context, next: Context): seq<Change> {
    ChangesUpTo(previous, next, |KINDS|)
  }

  /** The records of the first `n` kinds. */
  function ChangesUpTo(previous: Context, next: Context, n: nat): seq<Change>
    requires n <= |KINDS|
  {
    if n == 0 then [] else ChangesUpTo(previous, next, n - 1) + ChangeOf(KINDS[n - 1], previous, next)
  }

  function ChangeOf(kind: ChangeKind, previous: Context, next: Context): seq<Change> {
    var was, now := previous.work, next.work;
    match kind
    case Selection => RecordIf(was.selected != now.selected, next, Selection, now.selected)
    case References =>
      RecordIf(was.pinned != now.pinned || was.excluded != now.excluded, next, References, now.pinned + now.excluded)
    case Lock => RecordIf(ListOr(was.locked) != ListOr(now.locked), next, Lock, ListOr(now.locked))
    case Surface => RecordIf(was.surface != now.surface, next, Surface, [])
    case Harness => RecordIf(was.harness != now.harness, next, Harness, [])
    case Intent => RecordIf(was.intent != now.intent, next, Intent, now.selected)
    case Target =>
      RecordIf(
        was.targetArtifact != now.targetArtifact || was.targetRevision != now.targetRevision, next, Target, [])
    case ViewportMoved => RecordIf(previous.viewport != next.viewport, next, ViewportMoved, [])
  }

  function RecordIf(changed: bool, next: Context, kind: ChangeKind, viewIds: seq<string>): seq<Change> {
    if changed then [Change(next.version, kind, Unique(viewIds), next.updatedAt, next.updatedBy)] else []
  }

  function ListOr(ids: Option<seq<string>>): seq<string> { if ids.Some? then ids.value else [] }

  /** `slice(-12)`. */
  function LastTwelve<T>(s: seq<T>): (r: seq<T>)
    ensures |r| == (if |s| <= 12 then |s| else 12) && r == s[|s| - |r|..]
  {
    if |s| <= 12 then s else s[|s| - 12..]
  }

  datatype Conflict = Conflict(expectedVersion: nat, currentVersion: nat)

  /** `update`, from the value it finds. */
  function Updated(previous: Context, graph: Graph, input: Input, now: nat): Result<Context, Conflict> {
    if input.expectedVersion.Some? && previous.version != input.expectedVersion.value then
      Err(Conflict(input.expectedVersion.value, previous.version))
    else
      var projected := Projected(previous, graph, input, now);
      Ok(projected.(recent := LastTwelve(previous.recent + RecentChanges(previous, projected))))
  }

  /** The merged input, projected, with the version that is due. */
  function Projected(previous: Context, graph: Graph, input: Input, now: nat): (projected: Context)
    ensures projected.recent == previous.recent
  {
    var candidate := Project(graph, Merge(input, previous.work), previous.version + 1, now, previous.recent);
    if Fingerprint(previous.work) != Fingerprint(candidate.work) then candidate
    else candidate.(version := previous.version)
  }

  /** The context of a workspace nothing is stored for. */
  function Initial(graph: Graph, workspaceId: Option<string>, now: nat): Context {
    Project(graph,
      Input(workspaceId, if graph.firstScope.Some? then graph.firstScope.value
          else "", [], [], [], None, None, None, Unmentioned, None, None, None,
            None, None, None, None, None),
      0, now, [])
  }

  function Found(stored: Option<Context>, graph: Graph, workspaceId: Option<string>, now: nat): Context {
    if stored.Some? then Refresh(graph, stored.value) else Initial(graph, workspaceId, now)
  }

  // ---------- what a stored value keeps under projection ----------

  /** The part of a value that does not come from the graph or the session. */
  function Core(value: Context): Context {
    value.(projectId := "", session := None, projection := Projection([], [], [], map[], None))
  }

  /** Values the store writes: lists without repetition, a scope, and lists that are present. */
  predicate Canonical(value: Context) {
    && value.work.scopeId.Some? && value.work.locked.Some? && value.work.dismissed.Some?
    && Distinct(value.work.selected) && Distinct(value.work.pinned) && Distinct(value.work.excluded)
    && Distinct(value.work.locked.value) && Distinct(value.work.dismissed.value)
    && (value.viewport.Some? ==> Distinct(value.viewport.value.visible))
  }

  lemma ProjectIsCanonical(graph: Graph, input: Input, version: nat, updatedAt: nat, recent: seq<Change>)
    ensures Canonical(Project(graph, input, version, updatedAt, recent))
  {
    UniqueOfDistinct(input.selected);
    UniqueOfDistinct(input.pinned);
    UniqueOfDistinct(input.excluded);
    UniqueOfDistinct(ListOr(input.locked));
    UniqueOfDistinct(ListOr(input.dismissed));
    UniqueOfDistinct(
      if input.visible.Some? then input.visible.value
          else ContextIds(Unique(input.selected), input.pinned, input.excluded));
  }

  /** Refreshing a value changes its meaning only if the value was not one the store writes. */
  lemma RefreshKeepsFingerprint(graph: Graph, value: Context)
    ensures Fingerprint(Refresh(graph, value).work) == Fingerprint(value.work)
            <==> && value.work.scopeId.Some?
                 && Distinct(value.work.selected) && Distinct(value.work.pinned) && Distinct(value.work.excluded)
                 && Distinct(ListOr(value.work.locked)) && Distinct(ListOr(value.work.dismissed))
  {
    UniqueOfDistinct(value.work.selected);
    UniqueOfDistinct(value.work.pinned);
    UniqueOfDistinct(value.work.excluded);
    UniqueOfDistinct(ListOr(value.work.locked));
    UniqueOfDistinct(ListOr(value.work.dismissed));
  }

  /**
   * A value the store writes keeps everything but its projection and session, on whatever graph it is shown; the
   * session is lost.
   */
  lemma RefreshKeepsCore(graph: Graph, value: Context)
    requires Canonical(value)
    ensures Core(Refresh(graph, value)) == Core(value) && Canonical(Refresh(graph, value))
    ensures Refresh(graph, value).session.None?
  {
    UniqueOfDistinct(value.work.selected);
    UniqueOfDistinct(value.work.pinned);
    UniqueOfDistinct(value.work.excluded);
    UniqueOfDistinct(value.work.locked.value);
    UniqueOfDistinct(value.work.dismissed.value);
    if value.viewport.Some? { UniqueOfDistinct(value.viewport.value.visible); }
    ProjectIsCanonical(graph, InputOf(value), value.version, value.updatedAt, value.recent);
  }

  /** Refreshing looks at nothing but the core. */
  lemma RefreshReadsTheCore(graph: Graph, a: Context, b: Context)
    requires Core(a) == Core(b)
    ensures Refresh(graph, a) == Refresh(graph, b)
  {
    assert a.work == Core(a).work && a.viewport == Core(a).viewport && a.version == Core(a).version
        && a.updatedAt == Core(a).updatedAt && a.recent == Core(a).recent && a.updatedBy == Core(a).updatedBy;
    assert b.work == Core(b).work && b.viewport == Core(b).viewport && b.version == Core(b).version
        && b.updatedAt == Core(b).updatedAt && b.recent == Core(b).recent && b.updatedBy == Core(b).updatedBy;
  }

  /** Showing a value on one graph and then on another is showing it on the other. */
  lemma RefreshIsIdempotent(first: Graph, second: Graph, value: Context)
    ensures Refresh(second, Refresh(first, value)) == Refresh(second, value)
  {
    var once := Refresh(first, value);
    ProjectIsCanonical(first, InputOf(value), value.version, value.updatedAt, value.recent);
    UniqueTwice(value.work.selected);
    UniqueTwice(value.work.pinned);
    UniqueTwice(value.work.excluded);
    UniqueTwice(ListOr(value.work.locked));
    UniqueTwice(ListOr(value.work.dismissed));
    if value.viewport.Some? {
      UniqueTwice(value.viewport.value.visible);
    } else {
      SameContextIds(value.work.selected, value.work.pinned, value.work.excluded);
    }
    assert WorkOf(InputOf(once)) == WorkOf(InputOf(value));
    assert VisibleOf(InputOf(once)) == VisibleOf(InputOf(value));
  }

  lemma UniqueTwice<T>(xs: seq<T>)
    ensures Unique(Unique(xs)) == Unique(xs)
  {
    UniqueOfDistinct(xs);
    DistinctIsUnique(Unique(xs));
  }

  lemma {:induction false} UniqueAppend<T>(a: seq<T>, b: seq<T>)
    ensures Unique(a + Unique(b)) == Unique(a + b)
  {
    if b != [] {
      var front, last := b[..|b| - 1], b[|b| - 1];
      UniqueAppend(a, front);
      assert (a + b)[..|a + b| - 1] == a + front;
      AddedMembers([], a + front);
      AddedMembers([], front);
      if last !in front {
        assert (a + Unique(b))[..|a + Unique(b)| - 1] == a + Unique(front);
      }
    }
  }

  lemma {:induction false} WithoutSame<T>(list: seq<T>, a: seq<T>, b: seq<T>)
    requires forall x :: x in a <==> x in b
    ensures Without(list, a) == Without(list, b)
  {
    if list != [] { WithoutSame(list[..|list| - 1], a, b); }
  }

  lemma SameContextIds(selected: seq<string>, pinned: seq<string>, excluded: seq<string>)
    ensures ContextIds(Unique(Unique(selected)), Unique(pinned), Unique(excluded))
            == ContextIds(Unique(selected), pinned, excluded)
  {
    UniqueTwice(selected);
    UniqueAppend(Unique(selected), pinned);
    UniqueOfDistinct(excluded);
    WithoutSame(Unique(Unique(selected) + pinned), Unique(excluded), excluded);
  }

  // ---------- one update ----------

  /** The version rises by one when the meaning changes, and otherwise stays; the history of changes stays short. */
  lemma VersionFollowsMeaning(previous: Context, graph: Graph, input: Input, now: nat)
    ensures var r := Updated(previous, graph, input, now);
            && (r.Err? <==> input.expectedVersion.Some? && input.expectedVersion.value != previous.version)
            && (r.Err? ==> Some(r.error.expectedVersion) == input.expectedVersion
                           && r.error.currentVersion == previous.version)
            && (r.Ok? ==>
                  && r.value.version == previous.version
                     + (if Fingerprint(previous.work) != Fingerprint(r.value.work) then 1 else 0)
                  && |r.value.recent| <= 12 && Canonical(r.value)
                  && r.value.projectId == graph.projectId && r.value.work.workspaceId == input.workspaceId)
  {
    ProjectIsCanonical(graph, Merge(input, previous.work), previous.version + 1, now, previous.recent);
  }

  /** An update changes only what it mentions, as far as locks, surface, harness, intent and dismissals go. */
  lemma UnmentionedStays(previous: Context, graph: Graph, input: Input, now: nat)
    requires Canonical(previous) && Updated(previous, graph, input, now).Ok?
    ensures var next := Updated(previous, graph, input, now).value.work;
            && (input.locked.None? ==> next.locked == previous.work.locked)
            && (input.surface.None? ==> next.surface == previous.work.surface)
            && (input.harness.None? ==> next.harness == previous.work.harness)
            && (input.intent.Unmentioned? ==> next.intent == previous.work.intent)
            && (input.intent.Cleared? ==> next.intent.None?)
            && (input.dismissed.None? ==> next.dismissed == previous.work.dismissed)
  {
    UniqueOfDistinct(previous.work.locked.value);
    UniqueOfDistinct(previous.work.dismissed.value);
  }

  /** An accepted update writes the projection of the merged input; only version and history are added. */
  lemma UpdatedParts(previous: Context, graph: Graph, input: Input, now: nat)
    requires Updated(previous, graph, input, now).Ok?
    ensures var next, merged := Updated(previous, graph, input, now).value, Merge(input, previous.work);
            next == Project(graph, merged, next.version, now, next.recent)
  {
  }

  /**
   * What an accepted update takes from its input: the workspace, the scope, the three lists and the target always, the
   * others when given. Lists are taken with each id once, in the order of first occurrence.
   */
  lemma UpdateTakesItsInput(previous: Context, graph: Graph, input: Input, now: nat)
    requires Updated(previous, graph, input, now).Ok?
    ensures var next := Updated(previous, graph, input, now).value;
            && next.work.workspaceId == input.workspaceId && next.work.scopeId == Some(input.scopeId)
            && ListsOnce(next.work.selected, input.selected)
            && ListsOnce(next.work.pinned, input.pinned)
            && ListsOnce(next.work.excluded, input.excluded)
            && next.work.locked.Some? && next.work.dismissed.Some?
            && (input.locked.Some? ==> ListsOnce(next.work.locked.value, input.locked.value))
            && (input.dismissed.Some? ==> ListsOnce(next.work.dismissed.value, input.dismissed.value))
            && (input.surface.Some? ==> next.work.surface == input.surface)
            && (input.harness.Some? ==> next.work.harness == input.harness)
            && (input.intent.Given? ==> next.work.intent == Some(input.intent.goal))
            && next.work.targetArtifact == input.targetArtifact && next.work.targetRevision == input.targetRevision
            && next.projectId == graph.projectId && next.updatedAt == now && next.session == input.session
            && next.updatedBy == (if input.updatedBy.Some? then input.updatedBy.value else "web")
  {
    UpdatedParts(previous, graph, input, now);
    WorkTakesItsInput(Merge(input, previous.work));
  }

  lemma WorkTakesItsInput(input: Input)
    ensures var work := WorkOf(input);
            && ListsOnce(work.selected, input.selected)
            && ListsOnce(work.pinned, input.pinned)
            && ListsOnce(work.excluded, input.excluded)
            && work.locked.Some? && work.dismissed.Some?
            && (input.locked.Some? ==> ListsOnce(work.locked.value, input.locked.value))
            && (input.dismissed.Some? ==> ListsOnce(work.dismissed.value, input.dismissed.value))
  {
    UniqueListsOnce(input.selected);
    UniqueListsOnce(input.pinned);
    UniqueListsOnce(input.excluded);
    UniqueListsOnce(ListOr(input.locked));
    UniqueListsOnce(ListOr(input.dismissed));
  }

  /** The viewport is the given one; it shows the visible views, or without a list the context's own views. */
  lemma UpdateTakesItsViewport(previous: Context, graph: Graph, input: Input, now: nat)
    requires Updated(previous, graph, input, now).Ok?
    ensures var next := Updated(previous, graph, input, now).value;
            && (next.viewport.Some? <==> input.viewport.Some?)
            && (input.viewport.Some? ==>
                  var v := next.viewport.value;
                  && (v.x, v.y, v.zoom) == input.viewport.value
                  && (input.visible.Some? ==> ListsOnce(v.visible, input.visible.value))
                  && (input.visible.None? ==>
                        Distinct(v.visible)
                        && forall id :: id in v.visible <==>
                             (id in input.selected || id in input.pinned) && id !in input.excluded))
  {
    if input.visible.Some? {
      UniqueListsOnce(input.visible.value);
    } else {
      OwnViews(input.selected, input.pinned, input.excluded);
    }
  }

  lemma OwnViews(selected: seq<string>, pinned: seq<string>, excluded: seq<string>)
    ensures var own := Unique(ContextIds(Unique(selected), pinned, excluded));
            && Distinct(own)
            && forall id :: id in own <==> (id in selected || id in pinned) && id !in excluded
  {
    var ids := Unique(selected) + pinned;
    UniqueOfDistinct(selected);
    UniqueOfDistinct(ids);
    RemainingMembers(Unique(ids), excluded);
    UniqueOfDistinct(ContextIds(Unique(selected), pinned, excluded));
  }

  /** The stored value already says what the input asks for; the viewport is no part of this. */
  ghost predicate SaysAlready(previous: WorkState, input: Input) {
    && previous.workspaceId == input.workspaceId && previous.scopeId == Some(input.scopeId)
    && ListsOnce(previous.selected, input.selected)
    && ListsOnce(previous.pinned, input.pinned)
    && ListsOnce(previous.excluded, input.excluded)
    && (input.locked.Some? ==> previous.locked.Some? && ListsOnce(previous.locked.value, input.locked.value))
    && (input.dismissed.Some? ==>
          previous.dismissed.Some? && ListsOnce(previous.dismissed.value, input.dismissed.value))
    && (input.surface.Some? ==> previous.surface == input.surface)
    && (input.harness.Some? ==> previous.harness == input.harness)
    && (input.intent.Given? ==> previous.intent == Some(input.intent.goal))
    && (input.intent.Cleared? ==> previous.intent.None?)
    && previous.targetArtifact == input.targetArtifact && previous.targetRevision == input.targetRevision
  }

  /** The version rises, by one, exactly when the stored value does not already say what the input asks for. */
  lemma VersionRisesExactly(previous: Context, graph: Graph, input: Input, now: nat)
    requires Canonical(previous) && Updated(previous, graph, input, now).Ok?
    ensures Updated(previous, graph, input, now).value.version
            == previous.version + (if SaysAlready(previous.work, input) then 0 else 1)
  {
    var was, next := previous.work, Updated(previous, graph, input, now).value.work;
    UpdateTakesItsInput(previous, graph, input, now);
    UnmentionedStays(previous, graph, input, now);
    if SaysAlready(was, input) {
      ListsOnceUnique(was.selected, next.selected, input.selected);
      ListsOnceUnique(was.pinned, next.pinned, input.pinned);
      ListsOnceUnique(was.excluded, next.excluded, input.excluded);
      if input.locked.Some? { ListsOnceUnique(was.locked.value, next.locked.value, input.locked.value); }
      if input.dismissed.Some? { ListsOnceUnique(was.dismissed.value, next.dismissed.value, input.dismissed.value); }
      assert was == next;
    } else {
      assert was != next;
    }
  }

  /** What of the value has changed, kind by kind. */
  predicate Changed(kind: ChangeKind, was: Context, now: Context) {
    match kind
    case Selection => was.work.selected != now.work.selected
    case References => was.work.pinned != now.work.pinned || was.work.excluded != now.work.excluded
    case Lock => was.work.locked != now.work.locked
    case Surface => was.work.surface != now.work.surface
    case Harness => was.work.harness != now.work.harness
    case Intent => was.work.intent != now.work.intent
    case Target =>
      was.work.targetArtifact != now.work.targetArtifact || was.work.targetRevision != now.work.targetRevision
    case ViewportMoved => was.viewport != now.viewport
  }

  /** The record names the views it is about, and the version, time and author of the value it led to. */
  ghost predicate IsRecord(c: Change, now: Context) {
    && c.version == now.version && c.occurredAt == now.updatedAt && c.updatedBy == now.updatedBy
    && match c.kind
       case Selection => c.viewIds == now.work.selected
       case References => ListsOnce(c.viewIds, now.work.pinned + now.work.excluded)
       case Lock => now.work.locked == Some(c.viewIds)
       case Intent => c.viewIds == now.work.selected
       case _ => c.viewIds == []
  }

  /** One record for each kind of change there was, in the order of the kinds. */
  ghost predicate RecordsTheChanges(records: seq<Change>, was: Context, now: Context, n: nat)
    requires n <= |KINDS|
  {
    if n == 0 then records == []
    else if Changed(KINDS[n - 1], was, now) then
      && records != [] && records[|records| - 1].kind == KINDS[n - 1] && IsRecord(records[|records| - 1], now)
      && RecordsTheChanges(records[..|records| - 1], was, now, n - 1)
    else RecordsTheChanges(records, was, now, n - 1)
  }

  /**
   * An accepted update appends exactly one record for each kind of change there was, and the history keeps the last
   * twelve.
   */
  lemma UpdateRecordsItsChanges(previous: Context, graph: Graph, input: Input, now: nat)
    requires Canonical(previous) && Updated(previous, graph, input, now).Ok?
    ensures var next := Updated(previous, graph, input, now).value;
            exists records: seq<Change> ::
              && RecordsTheChanges(records, previous, next, 8)
              && var all := previous.recent + records;
                 next.recent == if |all| <= 12 then all else all[|all| - 12..]
  {
    var next := Updated(previous, graph, input, now).value;
    var projected := next.(recent := previous.recent);
    var records := RecentChanges(previous, projected);
    UpdatedHistory(previous, graph, input, now);
    RecordedUpTo(previous, projected, 8);
    RecordsLookNoFurther(records, previous, projected, next, 8);
  }

  lemma UpdatedHistory(previous: Context, graph: Graph, input: Input, now: nat)
    requires Updated(previous, graph, input, now).Ok?
    ensures var next := Updated(previous, graph, input, now).value;
            && Canonical(next)
            && next.recent == LastTwelve(previous.recent + RecentChanges(previous, next.(recent := previous.recent)))
  {
    VersionFollowsMeaning(previous, graph, input, now);
    var next, projected := Updated(previous, graph, input, now).value, Projected(previous, graph, input, now);
    assert next.(recent := previous.recent) == projected;
  }

  lemma {:induction false} RecordedUpTo(was: Context, now: Context, n: nat)
    requires Canonical(was) && Canonical(now) && n <= |KINDS|
    ensures RecordsTheChanges(ChangesUpTo(was, now, n), was, now, n)
  {
    if n > 0 {
      RecordedUpTo(was, now, n - 1);
      RecordedKind(was, now, KINDS[n - 1]);
      var before, last := ChangesUpTo(was, now, n - 1), ChangeOf(KINDS[n - 1], was, now);
      if last == [] { assert before + last == before; } else { assert (before + last)[..|before|] == before; }
    }
  }

  /** The history itself plays no part in what is recorded. */
  lemma {:induction false} RecordsLookNoFurther(
    records: seq<Change>, was: Context, projected: Context, next: Context, n: nat)
    requires n <= |KINDS| && RecordsTheChanges(records, was, projected, n)
    requires next == projected.(recent := next.recent)
    ensures RecordsTheChanges(records, was, next, n)
  {
    if n > 0 {
      var kind := KINDS[n - 1];
      assert Changed(kind, was, projected) == Changed(kind, was, next);
      RecordsLookNoFurther(
        if Changed(kind, was, next) then records[..|records| - 1] else records, was, projected, next, n - 1);
    }
  }

  lemma RecordedKind(was: Context, now: Context, kind: ChangeKind)
    requires Canonical(was) && Canonical(now)
    ensures var records := ChangeOf(kind, was, now);
            if Changed(kind, was, now) then |records| == 1 && records[0].kind == kind && IsRecord(records[0], now)
            else records == []
  {
    UniqueOfDistinct(now.work.selected);
    UniqueOfDistinct(now.work.locked.value);
    UniqueListsOnce(now.work.pinned + now.work.excluded);
  }

  /** Repeating an update on the value it produced is no semantic change. */
  lemma RepeatedUpdateIsSilent(previous: Context, graph: Graph, input: Input, now: nat, again: nat)
    requires Updated(previous, graph, input, now).Ok? && input.expectedVersion.None?
    ensures var first := Updated(previous, graph, input, now).value;
            Updated(first, graph, input, again).Ok?
                && Updated(first, graph, input, again).value.version == first.version
  {
    var first := Updated(previous, graph, input, now).value;
    UniqueTwice(ListOr(Merge(input, previous.work).locked));
    UniqueTwice(ListOr(Merge(input, previous.work).dismissed));
    assert WorkOf(Merge(input, first.work)) == first.work;
  }

  // ---------- what an update shows of the graph ----------

  /** Row `i` is the last view of its id. */
  ghost predicate IsLastView(views: seq<ViewRow>, id: string, i: nat) {
    i < |views| && views[i].id == id && forall k :: i < k < |views| ==> views[k].id != id
  }

  ghost predicate IsLastArtifact(artifacts: seq<ArtifactRow>, id: string, i: nat) {
    i < |artifacts| && artifacts[i].id == id && forall k :: i < k < |artifacts| ==> artifacts[k].id != id
  }

  /** The graph has the view, at row `i`, and its artifact, at row `j`. */
  ghost predicate HasBoth(graph: Graph, id: string, i: nat, j: nat) {
    IsLastView(graph.views, id, i) && IsLastArtifact(graph.artifacts, graph.views[i].artifactId, j)
  }

  /** The item shows the view and its artifact, at the view's revision or else the artifact's current one. */
  ghost predicate IsItem(graph: Graph, id: string, item: Item) {
    exists i: nat, j: nat :: HasBoth(graph, id, i, j) && ShowsRows(item, graph.views[i], graph.artifacts[j])
  }

  predicate ShowsRows(item: Item, view: ViewRow, artifact: ArtifactRow) {
    && item.viewId == view.id && item.artifactId == artifact.id && item.title == artifact.title
    && item.kind == artifact.kind
    && item.revision == (if view.revision.Some? then view.revision else artifact.current)
  }

  /** One item, in turn, for each id whose view and artifact the graph has. */
  ghost predicate ItemsInTurn(graph: Graph, ids: seq<string>, items: seq<Item>) {
    if ids == [] then items == []
    else
      var front, last := ids[..|ids| - 1], ids[|ids| - 1];
      if exists i: nat, j: nat :: HasBoth(graph, last, i, j) then
        items != [] && IsItem(graph, last, items[|items| - 1]) && ItemsInTurn(graph, front, items[..|items| - 1])
      else ItemsInTurn(graph, front, items)
  }

  lemma {:induction false} FoundView(views: seq<ViewRow>, id: string)
    ensures FindView(views, id).None? <==> forall k :: 0 <= k < |views| ==> views[k].id != id
    ensures FindView(views, id).Some? ==>
              exists i: nat :: IsLastView(views, id, i) && views[i] == FindView(views, id).value
  {
    if views != [] {
      var n, front := |views| - 1, views[..|views| - 1];
      if views[n].id == id {
        assert IsLastView(views, id, n);
      } else {
        FoundView(front, id);
        if FindView(front, id).Some? {
          var i: nat :| IsLastView(front, id, i) && front[i] == FindView(front, id).value;
          LaterView(views, id, i);
        }
        assert forall k :: 0 <= k < n ==> views[k] == front[k];
      }
    }
  }

  lemma LaterView(views: seq<ViewRow>, id: string, i: nat)
    requires views != [] && views[|views| - 1].id != id && IsLastView(views[..|views| - 1], id, i)
    ensures IsLastView(views, id, i)
  {
    forall k | i < k < |views| ensures views[k].id != id {
      if k < |views| - 1 { assert views[..|views| - 1][k].id != id; }
    }
  }

  lemma OneLastView(views: seq<ViewRow>, id: string, i: nat, j: nat)
    requires IsLastView(views, id, i) && IsLastView(views, id, j)
    ensures i == j
  {
  }

  lemma {:induction false} FoundArtifact(artifacts: seq<ArtifactRow>, id: string)
    ensures FindArtifact(artifacts, id).None? <==> forall k :: 0 <= k < |artifacts| ==> artifacts[k].id != id
    ensures FindArtifact(artifacts, id).Some? ==>
              exists i: nat :: IsLastArtifact(artifacts, id, i) && artifacts[i] == FindArtifact(artifacts, id).value
  {
    if artifacts != [] {
      var n, front := |artifacts| - 1, artifacts[..|artifacts| - 1];
      if artifacts[n].id == id {
        assert IsLastArtifact(artifacts, id, n);
      } else {
        FoundArtifact(front, id);
        if FindArtifact(front, id).Some? {
          var i: nat :| IsLastArtifact(front, id, i) && front[i] == FindArtifact(front, id).value;
          LaterArtifact(artifacts, id, i);
        }
        assert forall k :: 0 <= k < n ==> artifacts[k] == front[k];
      }
    }
  }

  lemma LaterArtifact(artifacts: seq<ArtifactRow>, id: string, i: nat)
    requires artifacts != [] && artifacts[|artifacts| - 1].id != id
    requires IsLastArtifact(artifacts[..|artifacts| - 1], id, i)
    ensures IsLastArtifact(artifacts, id, i)
  {
    forall k | i < k < |artifacts| ensures artifacts[k].id != id {
      if k < |artifacts| - 1 { assert artifacts[..|artifacts| - 1][k].id != id; }
    }
  }

  lemma FoundBoth(graph: Graph, id: string)
    ensures var view := FindView(graph.views, id);
            if view.Some? && FindArtifact(graph.artifacts, view.value.artifactId).Some? then
              exists i: nat, j: nat :: HasBoth(graph, id, i, j) && graph.views[i] == view.value
                && graph.artifacts[j] == FindArtifact(graph.artifacts, view.value.artifactId).value
            else forall i: nat, j: nat :: !HasBoth(graph, id, i, j)
  {
    FoundView(graph.views, id);
    var view := FindView(graph.views, id);
    if view.Some? {
      FoundArtifact(graph.artifacts, view.value.artifactId);
      var artifact := FindArtifact(graph.artifacts, view.value.artifactId);
      var i: nat :| IsLastView(graph.views, id, i) && graph.views[i] == view.value;
      forall k: nat, j: nat | HasBoth(graph, id, k, j) ensures k == i { OneLastView(graph.views, id, i, k); }
      if artifact.Some? {
        var j: nat :| IsLastArtifact(graph.artifacts, view.value.artifactId, j) && graph.artifacts[j] == artifact.value;
        assert HasBoth(graph, id, i, j);
      }
    }
  }

  lemma {:induction false} ItemsAreInTurn(graph: Graph, ids: seq<string>)
    ensures ItemsInTurn(graph, ids, ItemsOf(graph, ids))
  {
    if ids != [] {
      var front, last := ids[..|ids| - 1], ids[|ids| - 1];
      ItemsAreInTurn(graph, front);
      FoundBoth(graph, last);
      var before, items := ItemsOf(graph, front), ItemsOf(graph, ids);
      if items != before { assert items[..|before|] == before; }
    }
  }

  /** The context's own views: those selected or pinned and not excluded, in order of first mention. */
  ghost predicate IsOwn(own: seq<string>, work: WorkState) {
    && (forall id :: id in own <==> (id in work.selected || id in work.pinned) && id !in work.excluded)
    && exists all :: ListsOnce(all, work.selected + work.pinned) && IsSubsequence(own, all)
  }

  /**
   * An accepted update shows the selected views, the context's own views, and the visible views followed by its own,
   * each once, as the graph has them; and the target if the graph has it.
   */
  lemma UpdateShowsTheGraph(previous: Context, graph: Graph, input: Input, now: nat)
    requires Updated(previous, graph, input, now).Ok?
    ensures var next := Updated(previous, graph, input, now).value;
            && ItemsInTurn(graph, next.work.selected, next.projection.selectedItems)
            && IsTarget(graph, input.targetArtifact, next.projection.target)
            && exists own, shown: seq<string> ::
                 && IsOwn(own, next.work)
                 && ListsOnce(shown, (if input.visible.Some? then Unique(input.visible.value) else Unique(own)) + own)
                 && ItemsInTurn(graph, own, next.projection.contextItems)
                 && ItemsInTurn(graph, shown, next.projection.nodes)
  {
    UpdatedParts(previous, graph, input, now);
    var work, visible := WorkOf(Merge(input, previous.work)), VisibleOf(Merge(input, previous.work));
    ProjectionShowsTheGraph(graph, work, visible);
    OwnIsOwn(work);
    UniqueListsOnce(visible + ContextIds(work.selected, work.pinned, work.excluded));
    if input.visible.None? { OwnEitherWay(Merge(input, previous.work)); }
  }

  /** The target is shown if the graph has it. */
  ghost predicate IsTarget(graph: Graph, asked: Option<string>, target: Option<string>) {
    && (target.Some? ==> target == asked)
    && (target.Some? <==> exists i :: 0 <= i < |graph.artifacts| && asked == Some(graph.artifacts[i].id))
  }

  lemma ProjectionShowsTheGraph(graph: Graph, work: WorkState, visible: seq<string>)
    ensures var projection := ProjectOnto(graph, work, visible);
            var own := ContextIds(work.selected, work.pinned, work.excluded);
            && ItemsInTurn(graph, work.selected, projection.selectedItems)
            && ItemsInTurn(graph, own, projection.contextItems)
            && ItemsInTurn(graph, Unique(visible + own), projection.nodes)
            && IsTarget(graph, work.targetArtifact, projection.target)
  {
    var own := ContextIds(work.selected, work.pinned, work.excluded);
    ItemsAreInTurn(graph, work.selected);
    ItemsAreInTurn(graph, own);
    ItemsAreInTurn(graph, Unique(visible + own));
    if work.targetArtifact.Some? { FoundArtifact(graph.artifacts, work.targetArtifact.value); }
  }

  lemma OwnIsOwn(work: WorkState)
    ensures IsOwn(ContextIds(work.selected, work.pinned, work.excluded), work)
  {
    var all := Unique(work.selected + work.pinned);
    UniqueListsOnce(work.selected + work.pinned);
    RemainingMembers(all, work.excluded);
    WithoutIsSubsequence(all, work.excluded);
  }

  /** Without a list of visible views the input's own views are those of the value it becomes. */
  lemma OwnEitherWay(input: Input)
    requires input.visible.None?
    ensures VisibleOf(input) == Unique(ContextIds(WorkOf(input).selected, WorkOf(input).pinned, WorkOf(input).excluded))
  {
    SameContextIds(input.selected, input.pinned, input.excluded);
    UniqueTwice(input.selected);
  }

  // ---------- the clusters ----------

  /** The ids, in graph order, of the first `n` views that belong to cluster `key`. */
  function Clustered(graph: Graph, shown: seq<string>, key: (string, string), n: nat): (ids: seq<string>)
    requires n <= |graph.views|
  {
    if n == 0 then []
    else
      Clustered(graph, shown, key, n - 1) + if ClusterKey(graph, shown, graph.views[n - 1]) == Some(key)
          then [graph.views[n - 1].id] else []
  }

  predicate Encloses(c: Cluster, view: ViewRow) {
    c.minX <= view.x && c.minY <= view.y && view.x + view.width <= c.maxX && view.y + view.height <= c.maxY
  }

  /** Each cluster lists exactly its own views that are not shown, in order, and its bounds enclose them. */
  lemma {:induction false} ClustersPartitionTheHiddenViews(
    graph: Graph, shown: seq<string>, n: nat, key: (string, string))
    requires n <= |graph.views|
    ensures var clusters := Clusters(graph, shown, n);
            && (key in clusters <==> Clustered(graph, shown, key, n) != [])
            && (key in clusters ==>
                  && clusters[key].viewIds == Clustered(graph, shown, key, n)
                  && forall i :: 0 <= i < n && ClusterKey(graph, shown, graph.views[i]) == Some(key) ==>
                     Encloses(clusters[key], graph.views[i]))
            && (key !in clusters ==> forall i :: 0 <= i < n ==> ClusterKey(graph, shown, graph.views[i]) != Some(key))
  {
    if n > 0 { ClustersPartitionTheHiddenViews(graph, shown, n - 1, key); }
  }

  // ---------- the store ----------

  datatype Key = Key(projectId: string, workspaceId: Option<string>)

  function Lookup(table: map<Key, Context>, k: Key): Option<Context> { if k in table then Some(table[k]) else None }

  /** A value in memory is the persisted one, up to its projection and session. */
  ghost predicate Agree(values: map<Key, Context>, persisted: map<Key, Context>) {
    && (forall k :: k in persisted ==> Canonical(persisted[k]))
    && (forall k :: k in values ==> k in persisted && Core(values[k]) == Core(persisted[k]))
  }

  lemma SavingKeepsAgreement(values: map<Key, Context>, persisted: map<Key, Context>, k: Key, value: Context)
    requires Agree(values, persisted) && Canonical(value)
    ensures Agree(values[k := value], persisted[k := value])
  {
  }

  class ActiveContextStore {
    /** `#values`, in memory. */
    var values: map<Key, Context>
    /** `active_contexts`, persisted. */
    var persisted: map<Key, Context>

    ghost predicate Valid()
      reads this
    {
      Agree(values, persisted)
    }

    /** A new process: memory starts empty. */
    constructor (persisted: map<Key, Context>)
      ensures this.persisted == persisted && values == map[]
      ensures (forall k :: k in persisted ==> Canonical(persisted[k])) ==> Valid()
    {
      this.persisted := persisted;
      values := map[];
    }

    /** The loop that gathers the views that are not shown. */
    method GatherClusters(graph: Graph, shown: seq<string>) returns (clusters: map<(string, string), Cluster>)
      ensures clusters == Clusters(graph, shown, |graph.views|)
    {
      clusters := map[];
      for i := 0 to |graph.views|
        invariant clusters == Clusters(graph, shown, i)
      {
        var view := graph.views[i];
        if view.id in shown { continue; }
        var artifact := FindArtifact(graph.artifacts, view.artifactId);
        if artifact.None? { continue; }
        var key := (view.scopeId, artifact.value.kind);
        var current := if key in clusters then clusters[key]
            else Cluster([], view.x, view.y, view.x + view.width, view.y + view.height);
        clusters := clusters[key := Cluster(current.viewIds + [view.id], Min(current.minX, view.x),
            Min(current.minY, view.y),
                                            Max(current.maxX, view.x + view.width),
                                                Max(current.maxY, view.y + view.height))];
      }
    }

    /** `get`: memory first, then the table; a value read from the table is kept in memory. */
    method Get(projectId: string, graph: Graph, workspaceId: Option<string>, now: nat) returns (value: Context)
      modifies this`values
      ensures old(Valid()) ==>
              Valid() && value == Found(Lookup(persisted, Key(projectId, workspaceId)), graph, workspaceId, now)
      ensures forall k :: k in old(values) ==> k in values && values[k] == old(values)[k]
    {
      var k := Key(projectId, workspaceId);
      if k in values {
        if k in persisted && Core(values[k]) == Core(persisted[k]) {
          RefreshReadsTheCore(graph, values[k], persisted[k]);
        }
        return Refresh(graph, values[k]);
      }
      if k in persisted {
        value := Refresh(graph, persisted[k]);
        if Canonical(persisted[k]) { RefreshKeepsCore(graph, persisted[k]); }
        values := values[k := value];
        return;
      }
      value := Initial(graph, workspaceId, now);
    }

    /** `update`: what is returned is also what is persisted and kept in memory. */
    method Update(projectId: string, graph: Graph, input: Input, now: nat) returns (result: Result<Context, Conflict>)
      modifies this
      ensures old(Valid()) ==>
                result == Updated(Found(Lookup(old(persisted), Key(projectId, input.workspaceId)), graph,
                    input.workspaceId, now), graph, input, now)
      ensures persisted == if result.Ok? then old(persisted)[Key(graph.projectId, input.workspaceId) := result.value]
              else old(persisted)
      ensures result.Ok? ==>
              Key(projectId, input.workspaceId) in values && values[Key(projectId, input.workspaceId)] == result.value
      ensures old(Valid()) && graph.projectId == projectId ==> Valid()
    {
      var k := Key(projectId, input.workspaceId);
      var previous := Get(projectId, graph, input.workspaceId, now);
      VersionFollowsMeaning(previous, graph, input, now);
      result := Updated(previous, graph, input, now);
      if result.Err? { return; }
      if Agree(values, persisted) { SavingKeepsAgreement(values, persisted, k, result.value); }
      persisted := persisted[Key(result.value.projectId, result.value.work.workspaceId) := result.value];
      values := values[k := result.value];
    }
  }

  // ---------- runs ----------

  /** One update of one workspace, on the graph of that moment. */
  datatype Request = Request(graph: Graph, input: Input, now: nat)

  /** The stored value after a run of updates of one workspace; reads and restarts do not change it. */
  function Run(stored: Option<Context>, workspaceId: Option<string>, requests: seq<Request>): Option<Context> {
    if requests == [] then stored
    else
      var before, q := Run(stored, workspaceId, requests[..|requests| - 1]), requests[|requests| - 1];
      var r := Updated(Found(before, q.graph, workspaceId, q.now), q.graph, q.input, q.now);
      if r.Ok? then Some(r.value) else before
  }

  function VersionOf(stored: Option<Context>): nat { if stored.Some? then stored.value.version else 0 }

  /** The request is accepted and changes what the context means. */
  predicate Semantic(stored: Option<Context>, workspaceId: Option<string>, q: Request) {
    var before := Found(stored, q.graph, workspaceId, q.now);
    var r := Updated(before, q.graph, q.input, q.now);
    r.Ok? && Fingerprint(before.work) != Fingerprint(r.value.work)
  }

  function SemanticCount(stored: Option<Context>, workspaceId: Option<string>, requests: seq<Request>): nat {
    if requests == [] then 0
    else
      var front, q := requests[..|requests| - 1], requests[|requests| - 1];
      SemanticCount(stored, workspaceId, front) + if Semantic(Run(stored, workspaceId, front), workspaceId, q) then 1
          else 0
  }

  /** The version counts the semantic updates, and a stored history never holds more than twelve changes. */
  lemma {:induction false} VersionCountsSemanticUpdates(
    stored: Option<Context>, workspaceId: Option<string>, requests: seq<Request>)
    ensures var after := Run(stored, workspaceId, requests);
            && VersionOf(after) == VersionOf(stored) + SemanticCount(stored, workspaceId, requests)
            && (after.Some? && after != stored ==> |after.value.recent| <= 12)
  {
    if requests != [] {
      var front, q := requests[..|requests| - 1], requests[|requests| - 1];
      VersionCountsSemanticUpdates(stored, workspaceId, front);
      VersionFollowsMeaning(
        Found(Run(stored, workspaceId, front), q.graph, workspaceId, q.now), q.graph, q.input, q.now);
    }
  }

  /** A version read before a run is refused after it exactly when the run held a semantic update. */
  lemma ReadVersionIsStaleAfterASemanticUpdate(
    stored: Option<Context>, workspaceId: Option<string>, requests: seq<Request>, q: Request)
    requires q.input.expectedVersion == Some(VersionOf(stored))
    ensures var found := Found(Run(stored, workspaceId, requests), q.graph, workspaceId, q.now);
            Updated(found, q.graph, q.input, q.now).Err? <==> SemanticCount(stored, workspaceId, requests) > 0
  {
    VersionCountsSemanticUpdates(stored, workspaceId, requests);
  }
}
