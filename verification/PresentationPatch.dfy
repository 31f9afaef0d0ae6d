/**
 * Applying a presentation patch
 * (apps/local-core/src/curation-command-service.ts, `#applyPresentationPatch`).
 */
module PresentationPatch {
  import opened Wrappers
  import opened Lists

  datatype EntityType = ScopeEntity | WorkspaceEntity | ConversationEntity | NoteEntity
  datatype EntityRef = EntityRef(kind: EntityType, id: string)
  datatype Edge = Edge(id: string, fromView: string, toView: string, caption: Option<string>)
  datatype Hierarchy = Hierarchy(parentByViewId: map<string, string>, orderByParent: map<string, seq<string>>)

  datatype State = State(
    members: seq<string>,
    entityRefs: Option<seq<EntityRef>>,
    hidden: seq<string>,
    positions: map<string, (int, int)>,
    hierarchy: Hierarchy,
    edges: seq<Edge>,
    pinned: seq<string>,
    emphasis: map<string, string>)

  /** A member is named by the reference of a text created in the same patch, or by its id. */
  datatype Target = Target(clientRef: Option<string>, entityId: Option<string>)
  datatype EdgeSpec = EdgeSpec(id: string, source: Target, target: Target, caption: Option<string>)

  datatype Patch = Patch(
    addMembers: seq<Target>,
    removeMembers: seq<string>,
    addEntityMembers: seq<EntityRef>,
    setPositions: map<string, (int, int)>,
    setHierarchy: Option<Hierarchy>,
    addEdges: seq<EdgeSpec>,
    removeEdges: seq<string>,
    pin: seq<string>,
    unpin: seq<string>,
    setEmphasis: map<string, string>)

  datatype Error = Unresolved | EndpointNotMember

  // ---------- references ----------

  function Resolve(target: Target, refs: map<string, string>): Result<string, Error> {
    if target.clientRef.Some? then
      if target.clientRef.value in refs then Ok(refs[target.clientRef.value]) else Err(Unresolved)
    else if target.entityId.Some? then Ok(target.entityId.value) else Err(Unresolved)
  }

  predicate Resolves(target: Target, refs: map<string, string>) { Resolve(target, refs).Ok? }

  function ResolveAll(targets: seq<Target>, refs: map<string, string>): (ids: seq<string>)
    requires forall t :: t in targets ==> Resolves(t, refs)
  {
    seq(|targets|, (i: nat) requires i < |targets| => assert targets[i] in targets && Resolves(targets[i], refs);
        Resolve(targets[i], refs).value)
  }

  /** The added edge has both ends among the members. */
  predicate EdgeOk(spec: EdgeSpec, refs: map<string, string>, members: seq<string>) {
    && Resolves(spec.source, refs) && Resolves(spec.target, refs)
    && Resolve(spec.source, refs).value in members && Resolve(spec.target, refs).value in members
  }

  predicate EdgesResolve(specs: seq<EdgeSpec>, refs: map<string, string>) {
    forall i :: 0 <= i < |specs| ==> Resolves(specs[i].source, refs) && Resolves(specs[i].target, refs)
  }

  predicate EdgesOk(specs: seq<EdgeSpec>, refs: map<string, string>, members: seq<string>) {
    forall i :: 0 <= i < |specs| ==> EdgeOk(specs[i], refs, members)
  }

  /** The edges of the specifications that resolve. */
  function MakeEdges(specs: seq<EdgeSpec>, refs: map<string, string>): seq<Edge>
    requires EdgesResolve(specs, refs)
  {
    seq(|specs|, (i: nat) requires i < |specs| => MakeEdge(specs[i], refs))
  }

  function MakeEdge(spec: EdgeSpec, refs: map<string, string>): Edge
    requires Resolves(spec.source, refs) && Resolves(spec.target, refs)
  {
    Edge(spec.id, Resolve(spec.source, refs).value, Resolve(spec.target, refs).value, spec.caption)
  }

  // ---------- edges ----------

  function DropEdges(edges: seq<Edge>, ids: set<string>): seq<Edge> {
    if edges == [] then []
    else DropEdges(edges[..|edges| - 1], ids) + if edges[|edges| - 1].id in ids then [] else [edges[|edges| - 1]]
  }

  /** Each added edge replaces the edge of the same id and goes to the end. */
  function AddEdges(edges: seq<Edge>, added: seq<Edge>): seq<Edge> {
    if added == [] then edges
    else DropEdges(AddEdges(edges, added[..|added| - 1]), {added[|added| - 1].id}) + [added[|added| - 1]]
  }

  function EdgeIds(edges: seq<Edge>): (ids: set<string>)
    ensures forall e :: e in edges ==> e.id in ids
  {
    set e | e in edges :: e.id
  }

  function IdSet(ids: seq<string>): set<string> { set id | id in ids }

  predicate EdgeIdsDistinct(edges: seq<Edge>) {
    forall i, j :: 0 <= i < j < |edges| ==> edges[i].id != edges[j].id
  }

  lemma {:induction false} RemainingEdges(edges: seq<Edge>, ids: set<string>, e: Edge)
    ensures e in DropEdges(edges, ids) <==> e in edges && e.id !in ids
  {
    if edges != [] { RemainingEdges(edges[..|edges| - 1], ids, e); }
  }

  lemma {:induction false} RemainingIdsDistinct(edges: seq<Edge>, ids: set<string>)
    requires EdgeIdsDistinct(edges)
    ensures EdgeIdsDistinct(DropEdges(edges, ids))
  {
    if edges != [] {
      var front, last := edges[..|edges| - 1], edges[|edges| - 1];
      RemainingIdsDistinct(front, ids);
      forall i | 0 <= i < |DropEdges(front, ids)| ensures DropEdges(front, ids)[i].id != last.id {
        RemainingEdges(front, ids, DropEdges(front, ids)[i]);
      }
    }
  }

  lemma {:induction false} DropNone(edges: seq<Edge>, ids: set<string>)
    requires forall e :: e in edges ==> e.id !in ids
    ensures DropEdges(edges, ids) == edges
  {
    if edges != [] {
      var front := edges[..|edges| - 1];
      assert edges[|edges| - 1] in edges;
      forall e | e in front ensures e.id !in ids { assert e in edges; }
      DropNone(front, ids);
      FrontAndLast(edges);
    }
  }

  lemma {:induction false} DropAllEdges(edges: seq<Edge>, ids: set<string>)
    requires forall e :: e in edges ==> e.id in ids
    ensures DropEdges(edges, ids) == []
  {
    if edges != [] {
      var front := edges[..|edges| - 1];
      assert edges[|edges| - 1] in edges;
      forall e | e in front ensures e.id in ids { assert e in edges; }
      DropAllEdges(front, ids);
    }
  }

  lemma {:induction false} DropAppend(a: seq<Edge>, b: seq<Edge>, ids: set<string>)
    ensures DropEdges(a + b, ids) == DropEdges(a, ids) + DropEdges(b, ids)
  {
    if b == [] {
      assert a + b == a;
    } else {
      DropAppend(a, b[..|b| - 1], ids);
      assert (a + b)[..|a + b| - 1] == a + b[..|b| - 1];
    }
  }

  lemma DropOne(e: Edge, ids: set<string>)
    ensures DropEdges([e], ids) == if e.id in ids then [] else [e]
  {
    assert DropEdges([e][..0], ids) == [];
  }

  lemma {:induction false} DropTwice(edges: seq<Edge>, first: set<string>, second: set<string>)
    ensures DropEdges(DropEdges(edges, first), second) == DropEdges(edges, first + second)
  {
    if edges != [] {
      var front, last := edges[..|edges| - 1], edges[|edges| - 1];
      DropTwice(front, first, second);
      DropAppend(DropEdges(front, first), if last.id in first then [] else [last], second);
      DropOne(last, second);
    }
  }

  lemma EdgeIdsOneMore(front: seq<Edge>, last: Edge)
    ensures EdgeIds(front + [last]) == EdgeIds(front) + {last.id}
  {
    assert last in front + [last];
    forall e | e in front ensures e in front + [last] { }
  }

  /** The old edges that no added edge replaces, in their order, followed by the added ones. */
  lemma {:induction false} EdgesInClosedForm(edges: seq<Edge>, added: seq<Edge>)
    ensures AddEdges(edges, added) == DropEdges(edges, EdgeIds(added)) + AddEdges([], added)
  {
    if added == [] {
      DropNone(edges, EdgeIds(added));
    } else {
      var front, last := added[..|added| - 1], added[|added| - 1];
      EdgesInClosedForm(edges, front);
      DropAppend(DropEdges(edges, EdgeIds(front)), AddEdges([], front), {last.id});
      DropTwice(edges, EdgeIds(front), {last.id});
      FrontAndLast(added);
      EdgeIdsOneMore(front, last);
    }
  }

  /** `e` is the last of the edges with its id. */
  predicate IsLast(added: seq<Edge>, e: Edge) {
    added != [] &&
    var last := added[|added| - 1];
    last == e || (last.id != e.id && IsLast(added[..|added| - 1], e))
  }

  /** Among the added edges the last one for each id stays. */
  lemma {:induction false} LastEdgeWins(edges: seq<Edge>, added: seq<Edge>, e: Edge)
    requires e.id in EdgeIds(added)
    ensures e in AddEdges(edges, added) <==> IsLast(added, e)
  {
    var front, last := added[..|added| - 1], added[|added| - 1];
    RemainingEdges(AddEdges(edges, front), {last.id}, e);
    if last.id != e.id {
      var x :| x in added && x.id == e.id;
      assert x in front;
      LastEdgeWins(edges, front, e);
    }
  }

  lemma {:induction false} LastIsAdded(added: seq<Edge>, e: Edge)
    requires IsLast(added, e)
    ensures e in added
  {
    if added[|added| - 1] != e { LastIsAdded(added[..|added| - 1], e); }
  }

  lemma {:induction false} AddedEdgeIds(added: seq<Edge>)
    ensures forall e :: e in AddEdges([], added) ==> e.id in EdgeIds(added)
  {
    if added != [] {
      var front, last := added[..|added| - 1], added[|added| - 1];
      AddedEdgeIds(front);
      FrontAndLast(added);
      EdgeIdsOneMore(front, last);
      forall e | e in AddEdges([], added) ensures e.id in EdgeIds(added) {
        if e != last { RemainingEdges(AddEdges([], front), {last.id}, e); }
      }
    }
  }

  lemma {:induction false} AddedIdsDistinct(edges: seq<Edge>, added: seq<Edge>)
    requires EdgeIdsDistinct(edges)
    ensures EdgeIdsDistinct(AddEdges(edges, added))
  {
    if added != [] {
      var front, last := added[..|added| - 1], added[|added| - 1];
      AddedIdsDistinct(edges, front);
      var rest := DropEdges(AddEdges(edges, front), {last.id});
      RemainingIdsDistinct(AddEdges(edges, front), {last.id});
      forall i | 0 <= i < |rest|
        ensures rest[i].id != last.id
      {
        RemainingEdges(AddEdges(edges, front), {last.id}, rest[i]);
      }
    }
  }

  /** Adding and then removing edges, done twice, is done once; the order of the edges is the same too. */
  lemma AddRemoveEdgesIdempotent(edges: seq<Edge>, added: seq<Edge>, removed: set<string>)
    ensures var once := DropEdges(AddEdges(edges, added), removed); DropEdges(AddEdges(once, added), removed) == once
  {
    var ids, lasts := EdgeIds(added), AddEdges([], added);
    var kept := DropEdges(edges, ids + removed);
    var once := DropEdges(AddEdges(edges, added), removed);
    assert once == kept + DropEdges(lasts, removed) by {
      EdgesInClosedForm(edges, added);
      DropAppend(DropEdges(edges, ids), lasts, removed);
      DropTwice(edges, ids, removed);
    }
    assert DropEdges(once, ids) == kept by {
      DropAppend(kept, DropEdges(lasts, removed), ids);
      DropTwice(edges, ids + removed, ids);
      assert ids + removed + ids == ids + removed;
      DropTwice(lasts, removed, ids);
      AddedEdgeIds(added);
      DropAllEdges(lasts, removed + ids);
    }
    EdgesInClosedForm(once, added);
    DropAppend(kept, lasts, removed);
    DropTwice(edges, ids + removed, removed);
    assert ids + removed + removed == ids + removed;
  }

  // ---------- the patch ----------

  function Restricted(h: Hierarchy, members: seq<string>): Hierarchy {
    Hierarchy(
      map id | id in h.parentByViewId && id in members :: h.parentByViewId[id],
      map parent | parent in h.orderByParent :: Among(h.orderByParent[parent], members))
  }

  function Among(ids: seq<string>, members: seq<string>): (kept: seq<string>)
    ensures forall id :: id in kept <==> id in ids && id in members
  {
    if ids == [] then [] else Among(ids[..|ids| - 1], members) + if ids[|ids| - 1] in members then [ids[|ids| - 1]]
        else []
  }

  predicate MembersResolve(patch: Patch, refs: map<string, string>) {
    forall t :: t in patch.addMembers ==> Resolves(t, refs)
  }

  function MembersAfter(state: State, patch: Patch, refs: map<string, string>): seq<string>
    requires MembersResolve(patch, refs)
  {
    Without(AddAll(state.members, ResolveAll(patch.addMembers, refs)), patch.removeMembers)
  }

  /** Exactly when the patch is applied; every check is on its own references. */
  predicate Applicable(state: State, patch: Patch, refs: map<string, string>) {
    MembersResolve(patch, refs) && EdgesOk(patch.addEdges, refs, MembersAfter(state, patch, refs))
  }

  function EntityRefsAfter(state: State, patch: Patch): Option<seq<EntityRef>> {
    var refs := AddAll(if state.entityRefs.Some? then state.entityRefs.value else [], patch.addEntityMembers);
    if refs == [] then state.entityRefs else Some(refs)
  }

  function Patched(state: State, patch: Patch, refs: map<string, string>): State
    requires Applicable(state, patch, refs)
  {
    var members := MembersAfter(state, patch, refs);
    state.(
      members := members,
      entityRefs := EntityRefsAfter(state, patch),
      positions := state.positions + patch.setPositions,
      hierarchy := if patch.setHierarchy.Some? then Restricted(patch.setHierarchy.value, members) else state.hierarchy,
      edges := DropEdges(AddEdges(state.edges, MakeEdges(patch.addEdges, refs)), IdSet(patch.removeEdges)),
      pinned := Without(AddAll(state.pinned, patch.pin), patch.unpin),
      emphasis := state.emphasis + patch.setEmphasis)
  }

  // ---------- the algorithm ----------

  /** Resolves and adds the new members, in order; the first that does not resolve is the error. */
  method AddMembers(
    members: seq<string>, targets: seq<Target>, refs: map<string, string>) returns (result: Result<seq<string>, Error>)
    ensures result.Ok? <==> forall t :: t in targets ==> Resolves(t, refs)
    ensures result.Ok? ==> result.value == AddAll(members, ResolveAll(targets, refs))
    ensures result.Err? ==> result.error == Unresolved
  {
    var list := members;
    assert ResolveAll(targets[..0], refs) == [];
    for i := 0 to |targets|
      invariant forall t :: t in targets[..i] ==> Resolves(t, refs)
      invariant list == AddAll(members, ResolveAll(targets[..i], refs))
    {
      var id := Resolve(targets[i], refs);
      if id.Err? {
        assert targets[i] in targets && !Resolves(targets[i], refs);
        return Err(Unresolved);
      }
      ghost var next := targets[..i + 1];
      assert next == targets[..i] + [targets[i]];
      assert ResolveAll(next, refs)[..i] == ResolveAll(targets[..i], refs);
      if id.value !in list { list := list + [id.value]; }
    }
    assert targets[..|targets|] == targets;
    result := Ok(list);
  }

  /** `for (const x of xs) if (!list.includes(x)) list.push(x)`. */
  method PushNew<T(==)>(list: seq<T>, xs: seq<T>) returns (all: seq<T>)
    ensures all == AddAll(list, xs)
  {
    all := list;
    for i := 0 to |xs|
      invariant all == AddAll(list, xs[..i])
    {
      assert xs[..i + 1][..i] == xs[..i];
      if xs[i] !in all { all := all + [xs[i]]; }
    }
    assert xs[..|xs|] == xs;
  }

  lemma OneMoreEdge(edges: seq<Edge>, specs: seq<EdgeSpec>, i: nat, refs: map<string, string>)
    requires i < |specs| && EdgesResolve(specs[..i], refs)
    requires Resolves(specs[i].source, refs) && Resolves(specs[i].target, refs)
    ensures EdgesResolve(specs[..i + 1], refs)
    ensures AddEdges(edges, MakeEdges(specs[..i + 1], refs))
            == DropEdges(AddEdges(edges, MakeEdges(specs[..i], refs)), {specs[i].id}) + [MakeEdge(specs[i], refs)]
  {
    var more := specs[..i + 1];
    forall k | 0 <= k < |more| ensures Resolves(more[k].source, refs) && Resolves(more[k].target, refs) {
      if k < i { assert more[k] == specs[..i][k]; }
    }
    assert MakeEdges(specs[..i + 1], refs)[..i] == MakeEdges(specs[..i], refs);
  }

  /** One edge: the one of the same id goes, and it comes last. */
  method ReplaceEdge(list: seq<Edge>, spec: EdgeSpec, refs: map<string, string>, members: seq<string>)
    returns (result: Result<seq<Edge>, Error>)
    ensures result.Ok? <==> EdgeOk(spec, refs, members)
    ensures result.Ok? ==> result.value == DropEdges(list, {spec.id}) + [MakeEdge(spec, refs)]
  {
    var source, target := Resolve(spec.source, refs), Resolve(spec.target, refs);
    if source.Err? || target.Err? { return Err(Unresolved); }
    if source.value !in members || target.value !in members { return Err(EndpointNotMember); }
    result := Ok(DropEdges(list, {spec.id}) + [Edge(spec.id, source.value, target.value, spec.caption)]);
  }

  /** All edges so far are in order, and one more is. */
  lemma OneMoreIsOk(specs: seq<EdgeSpec>, i: nat, refs: map<string, string>, members: seq<string>)
    requires i < |specs| && EdgesOk(specs[..i], refs, members) && EdgeOk(specs[i], refs, members)
    ensures EdgesOk(specs[..i + 1], refs, members)
  {
    var more := specs[..i + 1];
    forall k | 0 <= k < |more| ensures EdgeOk(more[k], refs, members) {
      if k < i { assert more[k] == specs[..i][k]; }
    }
  }

  lemma OkEdgesResolve(specs: seq<EdgeSpec>, refs: map<string, string>, members: seq<string>)
    requires EdgesOk(specs, refs, members)
    ensures EdgesResolve(specs, refs)
  {
  }

  method ReplaceEdges(edges: seq<Edge>, specs: seq<EdgeSpec>, refs: map<string, string>, members: seq<string>)
    returns (result: Result<seq<Edge>, Error>)
    ensures result.Ok? <==> EdgesOk(specs, refs, members)
    ensures result.Ok? ==> EdgesResolve(specs, refs) && result.value == AddEdges(edges, MakeEdges(specs, refs))
  {
    var list := edges;
    for i := 0 to |specs|
      invariant EdgesOk(specs[..i], refs, members) && EdgesResolve(specs[..i], refs)
      invariant list == AddEdges(edges, MakeEdges(specs[..i], refs))
    {
      var next := ReplaceEdge(list, specs[i], refs, members);
      if next.Err? {
        assert !EdgeOk(specs[i], refs, members);
        return next;
      }
      OneMoreIsOk(specs, i, refs, members);
      OkEdgesResolve(specs[..i + 1], refs, members);
      OneMoreEdge(edges, specs, i, refs);
      list := next.value;
    }
    assert specs[..|specs|] == specs;
    result := Ok(list);
  }

  /** `#applyPresentationPatch`. */
  method ApplyPresentationPatch(
    state: State, patch: Patch, refs: map<string, string>) returns (result: Result<State, Error>)
    ensures result.Ok? <==> Applicable(state, patch, refs)
    ensures result.Ok? ==> result.value == Patched(state, patch, refs)
  {
    var added := AddMembers(state.members, patch.addMembers, refs);
    if added.Err? { return Err(added.error); }
    var members := Without(added.value, patch.removeMembers);
    var entityRefs := PushNew(if state.entityRefs.Some? then state.entityRefs.value else [], patch.addEntityMembers);
    var hierarchy := state.hierarchy;
    if patch.setHierarchy.Some? { hierarchy := Restricted(patch.setHierarchy.value, members); }
    var edges := ReplaceEdges(state.edges, patch.addEdges, refs, members);
    if edges.Err? { return Err(edges.error); }
    var pinned := PushNew(state.pinned, patch.pin);
    result := Ok(State(
      members,
      if entityRefs == [] then state.entityRefs else Some(entityRefs),
      state.hidden,
      state.positions + patch.setPositions,
      hierarchy,
      DropEdges(edges.value, IdSet(patch.removeEdges)),
      Without(pinned, patch.unpin),
      state.emphasis + patch.setEmphasis));
  }

  // ---------- what a patch does ----------

  ghost predicate DuplicateFree(state: State) {
    && Distinct(state.members) && EdgeIdsDistinct(state.edges) && Distinct(state.pinned)
    && (state.entityRefs.Some? ==> Distinct(state.entityRefs.value))
  }

  lemma PatchKeepsDuplicateFree(state: State, patch: Patch, refs: map<string, string>)
    requires Applicable(state, patch, refs) && DuplicateFree(state)
    ensures DuplicateFree(Patched(state, patch, refs))
  {
    AddedMembers(state.members, ResolveAll(patch.addMembers, refs));
    RemainingMembers(AddAll(state.members, ResolveAll(patch.addMembers, refs)), patch.removeMembers);
    AddedMembers(if state.entityRefs.Some? then state.entityRefs.value else [], patch.addEntityMembers);
    AddedIdsDistinct(state.edges, MakeEdges(patch.addEdges, refs));
    RemainingIdsDistinct(AddEdges(state.edges, MakeEdges(patch.addEdges, refs)), IdSet(patch.removeEdges));
    AddedMembers(state.pinned, patch.pin);
    RemainingMembers(AddAll(state.pinned, patch.pin), patch.unpin);
  }

  /** Members are the old and the added ones minus the removed ones, old ones first and in their order. */
  lemma PatchedMembers(state: State, patch: Patch, refs: map<string, string>)
    requires Applicable(state, patch, refs)
    ensures var next := Patched(state, patch, refs).members;
            && (forall id :: id in next <==>
                  (id in state.members || exists t :: t in patch.addMembers && Resolve(t, refs) == Ok(id))
                      && id !in patch.removeMembers)
            && Without(state.members, patch.removeMembers) <= next
  {
    var ids := ResolveAll(patch.addMembers, refs);
    OldOnesFirst(state.members, ids, patch.removeMembers);
    forall id ensures id in ids <==> exists t :: t in patch.addMembers && Resolve(t, refs) == Ok(id) {
      if id in ids {
        var i :| 0 <= i < |ids| && ids[i] == id;
        assert patch.addMembers[i] in patch.addMembers && Resolve(patch.addMembers[i], refs) == Ok(id);
      }
      if t :| t in patch.addMembers && Resolve(t, refs) == Ok(id) {
        var i :| 0 <= i < |patch.addMembers| && patch.addMembers[i] == t;
        assert ids[i] == id;
      }
    }
  }

  lemma PatchedPins(state: State, patch: Patch, refs: map<string, string>)
    requires Applicable(state, patch, refs)
    ensures var next := Patched(state, patch, refs).pinned;
            && (forall id :: id in next <==> (id in state.pinned || id in patch.pin) && id !in patch.unpin)
            && Without(state.pinned, patch.unpin) <= next
  {
    OldOnesFirst(state.pinned, patch.pin, patch.unpin);
  }

  /**
   * An edge of the result is either an old one the patch does not name, kept whatever became of its endpoints,
   * or the last the patch adds under its id, and then it joins two members.
   */
  lemma PatchedEdges(state: State, patch: Patch, refs: map<string, string>, e: Edge)
    requires Applicable(state, patch, refs)
    ensures var next, added := Patched(state, patch, refs), MakeEdges(patch.addEdges, refs);
            && (e.id in patch.removeEdges ==> e !in next.edges)
            && (e.id !in patch.removeEdges && e.id !in EdgeIds(added) ==> (e in next.edges <==> e in state.edges))
            && (e.id !in patch.removeEdges && e.id in EdgeIds(added) ==> (e in next.edges <==> IsLast(added, e)))
            && (e in next.edges && e.id in EdgeIds(added) ==> e.fromView in next.members && e.toView in next.members)
  {
    var added := MakeEdges(patch.addEdges, refs);
    RemainingEdges(AddEdges(state.edges, added), IdSet(patch.removeEdges), e);
    if e.id in EdgeIds(added) {
      LastEdgeWins(state.edges, added, e);
      if IsLast(added, e) {
        LastIsAdded(added, e);
        var i :| 0 <= i < |added| && added[i] == e;
        assert EdgeOk(patch.addEdges[i], refs, MembersAfter(state, patch, refs));
      }
    } else {
      EdgesInClosedForm(state.edges, added);
      RemainingEdges(state.edges, EdgeIds(added), e);
      AddedEdgeIds(added);
    }
  }

  lemma {:induction false} LastOfItsId(added: seq<Edge>, e: Edge)
    requires IsLast(added, e)
    ensures exists k :: 0 <= k < |added| && added[k] == e && forall j :: k < j < |added| ==> added[j].id != e.id
  {
    var n := |added| - 1;
    if added[n] != e {
      LastOfItsId(added[..n], e);
      var k :| 0 <= k < n && added[..n][k] == e && forall j :: k < j < n ==> added[..n][j].id != e.id;
      forall j | k < j < |added| ensures added[j].id != e.id { if j < n { assert added[..n][j] == added[j]; } }
      assert added[k] == e;
    }
  }

  /** An added edge of the result is as its last specification says: from its source to its target, captioned. */
  lemma AddedEdgeIsAsSpecified(state: State, patch: Patch, refs: map<string, string>, e: Edge)
    requires Applicable(state, patch, refs)
    requires e in Patched(state, patch, refs).edges
    requires exists i :: 0 <= i < |patch.addEdges| && patch.addEdges[i].id == e.id
    ensures exists i :: 0 <= i < |patch.addEdges| && IsSpecified(patch.addEdges[i], refs, e)
                        && forall j :: i < j < |patch.addEdges| ==> patch.addEdges[j].id != e.id
  {
    var added := MakeEdges(patch.addEdges, refs);
    var i :| 0 <= i < |patch.addEdges| && patch.addEdges[i].id == e.id;
    assert added[i] in added && added[i].id == e.id;
    PatchedEdges(state, patch, refs, e);
    RemainingEdges(AddEdges(state.edges, added), IdSet(patch.removeEdges), e);
    LastSpecified(patch.addEdges, refs, e);
  }

  lemma LastSpecified(specs: seq<EdgeSpec>, refs: map<string, string>, e: Edge)
    requires EdgesResolve(specs, refs) && IsLast(MakeEdges(specs, refs), e)
    ensures exists i :: 0 <= i < |specs| && IsSpecified(specs[i], refs, e)
                        && forall j :: i < j < |specs| ==> specs[j].id != e.id
  {
    var added := MakeEdges(specs, refs);
    LastOfItsId(added, e);
    var k :| 0 <= k < |added| && added[k] == e && forall j :: k < j < |added| ==> added[j].id != e.id;
    assert IsSpecified(specs[k], refs, e);
    forall j | k < j < |specs| ensures specs[j].id != e.id { assert added[j].id == specs[j].id; }
  }

  predicate IsSpecified(spec: EdgeSpec, refs: map<string, string>, e: Edge) {
    && spec.id == e.id && spec.caption == e.caption
    && Resolve(spec.source, refs) == Ok(e.fromView) && Resolve(spec.target, refs) == Ok(e.toView)
  }

  /** What a patch says wins over what was there: positions and emphasis; hidden views stay as they are. */
  lemma PatchedPlaces(state: State, patch: Patch, refs: map<string, string>)
    requires Applicable(state, patch, refs)
    ensures var next := Patched(state, patch, refs);
            && (forall id :: id in next.positions <==> id in state.positions || id in patch.setPositions)
            && (forall id :: id in patch.setPositions ==> next.positions[id] == patch.setPositions[id])
            && (forall id :: id in state.positions && id !in patch.setPositions ==>
                  next.positions[id] == state.positions[id])
            && (forall id :: id in next.emphasis <==> id in state.emphasis || id in patch.setEmphasis)
            && (forall id :: id in patch.setEmphasis ==> next.emphasis[id] == patch.setEmphasis[id])
            && (forall id :: id in state.emphasis && id !in patch.setEmphasis ==>
                  next.emphasis[id] == state.emphasis[id])
            && next.hidden == state.hidden
  {
  }

  /** Entity references are the old ones and then the added ones that are new; an absent list stays absent if empty. */
  lemma PatchedEntityRefs(state: State, patch: Patch, refs: map<string, string>)
    requires Applicable(state, patch, refs)
    ensures var old', next := if state.entityRefs.Some? then state.entityRefs.value else [],
                Patched(state, patch, refs).entityRefs;
            && (next.None? <==> state.entityRefs.None? && patch.addEntityMembers == [])
            && (next.Some? ==>
                  old' <= next.value
                  && forall r :: r in next.value <==> r in old' || r in patch.addEntityMembers)
  {
    var old' := if state.entityRefs.Some? then state.entityRefs.value else [];
    AddedMembers(old', patch.addEntityMembers);
    if patch.addEntityMembers != [] { assert patch.addEntityMembers[0] in AddAll(old', patch.addEntityMembers); }
  }

  /** `kept` are the members among `ids`, in the same order and as often. */
  ghost predicate IsKept(kept: seq<string>, ids: seq<string>, members: seq<string>) {
    IsSubsequence(kept, ids)
    && forall id :: multiset(kept)[id] == if id in members then multiset(ids)[id] else 0
  }

  lemma {:induction false} AmongIsKept(ids: seq<string>, members: seq<string>)
    ensures IsKept(Among(ids, members), ids, members)
  {
    if ids != [] {
      var front, last := ids[..|ids| - 1], ids[|ids| - 1];
      AmongIsKept(front, members);
      FrontAndLast(ids);
      var before := Among(front, members);
      if last in members {
        assert Among(ids, members)[..|before|] == before;
      } else {
        assert Among(ids, members) == before;
      }
    }
  }

  /** A hierarchy set by a patch places members only, each under the parent and in the order given. */
  lemma PatchedHierarchy(state: State, patch: Patch, refs: map<string, string>)
    requires Applicable(state, patch, refs)
    ensures var next := Patched(state, patch, refs);
            if patch.setHierarchy.None? then next.hierarchy == state.hierarchy
            else
              && (forall id :: id in next.hierarchy.parentByViewId <==>
                 id in patch.setHierarchy.value.parentByViewId && id in next.members)
                 && (forall id :: id in next.hierarchy.parentByViewId ==>
                    next.hierarchy.parentByViewId[id] == patch.setHierarchy.value.parentByViewId[id])
                 && (forall p :: p in next.hierarchy.orderByParent <==> p in patch.setHierarchy.value.orderByParent)
                 && (forall p :: p in next.hierarchy.orderByParent ==>
                    IsKept(next.hierarchy.orderByParent[p], patch.setHierarchy.value.orderByParent[p], next.members))
  {
    if patch.setHierarchy.Some? {
      var given, members := patch.setHierarchy.value.orderByParent, Patched(state, patch, refs).members;
      forall p | p in given ensures IsKept(Among(given[p], members), given[p], members) {
        AmongIsKept(given[p], members);
      }
    }
  }

  /** Applying the same patch twice is applying it once: it still applies, and changes nothing more. */
  lemma PatchIsIdempotent(state: State, patch: Patch, refs: map<string, string>)
    requires Applicable(state, patch, refs)
    ensures var once := Patched(state, patch, refs); Applicable(once, patch, refs) && Patched(once, patch, refs) == once
  {
    var once := Patched(state, patch, refs);
    MembersSettle(state, patch, refs);
    EntityRefsIdempotent(state, patch, once);
    EdgesSettle(state, patch, refs);
    AddRemoveIdempotent(state.pinned, patch.pin, patch.unpin);
    MergeTwice(state.positions, patch.setPositions);
    MergeTwice(state.emphasis, patch.setEmphasis);
  }

  lemma MembersSettle(state: State, patch: Patch, refs: map<string, string>)
    requires Applicable(state, patch, refs)
    ensures var once := Patched(state, patch, refs);
            MembersAfter(once, patch, refs) == once.members == MembersAfter(state, patch, refs)
                && Applicable(once, patch, refs)
  {
    AddRemoveIdempotent(state.members, ResolveAll(patch.addMembers, refs), patch.removeMembers);
  }

  lemma EdgesSettle(state: State, patch: Patch, refs: map<string, string>)
    requires Applicable(state, patch, refs)
    ensures var edges := Patched(state, patch, refs).edges;
            DropEdges(AddEdges(edges, MakeEdges(patch.addEdges, refs)), IdSet(patch.removeEdges)) == edges
  {
    AddRemoveEdgesIdempotent(state.edges, MakeEdges(patch.addEdges, refs), IdSet(patch.removeEdges));
  }

  lemma MergeTwice<K, V>(before: map<K, V>, update: map<K, V>)
    ensures before + update + update == before + update
  {
  }

  lemma EntityRefsIdempotent(state: State, patch: Patch, once: State)
    requires once.entityRefs == EntityRefsAfter(state, patch)
    ensures EntityRefsAfter(once, patch) == once.entityRefs
  {
    var before := if state.entityRefs.Some? then state.entityRefs.value else [];
    var after := AddAll(before, patch.addEntityMembers);
    AddedMembers(before, patch.addEntityMembers);
    AddThenRemove(after, patch.addEntityMembers, []);
    NothingToRemove(after, []);
    NothingToRemove(AddAll(after, patch.addEntityMembers), []);
  }
}
