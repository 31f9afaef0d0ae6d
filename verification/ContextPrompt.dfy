/**
 * Compiling a manifest into a prompt: a stable prefix that a provider may cache, and a dynamic tail
 * (apps/local-core/src/context-prompt-serializer.ts). The prompt is described by its parts; the text they are
 * rendered to is a function of them.
 */
module ContextPrompt {
  import opened Wrappers
  import opened ContextManifest
  import Lists

  /** The parts of the stable prefix. */
  datatype Prefix = Prefix(
    route: Option<string>, skill: Option<(string, Option<string>)>, capability: Option<string>,
    projectId: string, projectName: string, savedContextId: string, items: seq<Item>)

  /** The parts of the dynamic tail. */
  datatype Tail = Tail(
    outputIntent: string, target: Option<(ArtifactId, RevisionId)>, focus: seq<ArtifactId>, items: seq<Item>,
    lockedSource: seq<string>, constraints: seq<string>, task: string)

  datatype Task = Task(task: string, outputIntent: string, selection: Option<seq<ArtifactId>>, constraints: seq<string>)

  datatype Compiled = Compiled(
    prefix: Prefix, tail: Tail,
    snapshot: (string, seq<Item>),
    cacheFamily: (string, string, string, string, string))

  /** An empty string counts as absent. */
  function Truthy(s: Option<string>): Option<string> { if s.Some? && s.value != "" then s else None }

  function Default(s: Option<string>, otherwise: string): string { if s.Some? then s.value else otherwise }

  function FirstByIdentity(items: seq<Item>, identity: string): Option<Item> {
    if items == [] then None
    else if items[0].identity == identity then Some(items[0])
    else FirstByIdentity(items[1..], identity)
  }

  /** `stableItems`: for each planned identity, the first item that has it. */
  function StableFrom(items: seq<Item>, identities: seq<string>): seq<Item> {
    if identities == [] then []
    else
      var last := FirstByIdentity(items, identities[|identities| - 1]);
      StableFrom(items, identities[..|identities| - 1]) + if last.Some? then [last.value] else []
  }

  function StableItems(m: Manifest): seq<Item> { StableFrom(m.items, m.stableIdentities) }

  /** `itemRevisionKey`. */
  function RevisionKey(item: Item): Option<(ArtifactId, RevisionId)> {
    if item.artifactId.None? then None else Some((item.artifactId.value, Default(item.revisionId, "current")))
  }

  predicate IsDynamic(m: Manifest, item: Item) {
    && item.identity !in m.stableIdentities
    && (RevisionKey(item).Some? ==> forall s :: s in StableItems(m) ==> RevisionKey(s) != RevisionKey(item))
  }

  function DynamicFrom(m: Manifest, items: seq<Item>): seq<Item> {
    if items == [] then []
    else DynamicFrom(m, items[..|items| - 1]) + if IsDynamic(m, items[|items| - 1]) then [items[|items| - 1]] else []
  }

  /** `dynamicItems`. */
  function DynamicItems(m: Manifest): seq<Item> { DynamicFrom(m, m.items) }

  function PrefixOf(projectId: string, projectName: string, plan: PlanIds, stable: seq<Item>): Prefix {
    Prefix(Truthy(plan.routeId),
      if Truthy(plan.skillId).Some? then Some((plan.skillId.value, Truthy(plan.skillVersion))) else None,
      Truthy(plan.capability), projectId, projectName, Default(plan.savedContextId, "none"), stable)
  }

  function CacheFamily(projectId: string, plan: PlanIds): (string, string, string, string, string) {
    (projectId, Default(plan.savedContextId, "project"), Default(plan.routeId, "runtime"),
     if Truthy(plan.skillId).Some? then plan.skillId.value + "@" + Default(plan.skillVersion, "unknown")
     else "skill-neutral",
     Default(plan.capability, "capability-neutral"))
  }

  function TailOf(m: Manifest, task: Task): Tail {
    Tail(task.outputIntent, m.target, NotIncluded(if task.selection.Some? then task.selection.value else m.focus, {}),
      DynamicItems(m), m.lockedSource, task.constraints, task.task)
  }

  /** `compileContextPromptV1`. */
  function Compile(m: Manifest, task: Task): Compiled {
    Compiled(
      PrefixOf(m.projectId, m.projectName, m.plan, StableItems(m)),
      TailOf(m, task),
      (Default(m.plan.savedContextId, "none"), StableItems(m)),
      CacheFamily(m.projectId, m.plan))
  }

  /** The id is given and not empty. */
  predicate Given(id: Option<string>) { id.Some? && id.value != "" }

  /** The compiled parts are those of the manifest and the task; an id that is empty counts as not given. */
  lemma CompiledParts(m: Manifest, task: Task)
    ensures var c := Compile(m, task);
            && c.prefix.projectId == m.projectId && c.prefix.projectName == m.projectName
            && c.prefix.route == (if Given(m.plan.routeId) then m.plan.routeId else None)
            && c.prefix.capability == (if Given(m.plan.capability) then m.plan.capability else None)
            && (c.prefix.skill.Some? <==> Given(m.plan.skillId))
            && (c.prefix.skill.Some? ==>
                  && c.prefix.skill.value.0 == m.plan.skillId.value
                  && c.prefix.skill.value.1 == if Given(m.plan.skillVersion) then m.plan.skillVersion else None)
            && c.prefix.savedContextId == (if m.plan.savedContextId.Some? then m.plan.savedContextId.value else "none")
            && c.snapshot == (c.prefix.savedContextId, c.prefix.items)
            && c.tail.outputIntent == task.outputIntent && c.tail.task == task.task
            && c.tail.constraints == task.constraints && c.tail.target == m.target
            && c.tail.lockedSource == m.lockedSource
            && (forall a :: a in c.tail.focus <==>
                  a in if task.selection.Some? then task.selection.value else m.focus)
            && Lists.Distinct(c.tail.focus)
            && c.cacheFamily.0 == m.projectId
            && c.cacheFamily.1 == (if m.plan.savedContextId.Some? then m.plan.savedContextId.value else "project")
            && c.cacheFamily.2 == (if m.plan.routeId.Some? then m.plan.routeId.value else "runtime")
            && c.cacheFamily.3 == (if !Given(m.plan.skillId) then "skill-neutral"
                                   else m.plan.skillId.value + "@"
                                        + if m.plan.skillVersion.Some? then m.plan.skillVersion.value else "unknown")
            && c.cacheFamily.4 == (if m.plan.capability.Some? then m.plan.capability.value else "capability-neutral")
  {
    NotIncludedExactly(if task.selection.Some? then task.selection.value else m.focus, {});
  }

  // ---------- first occurrences ----------

  lemma {:induction false} FirstIsInTheFront(front: seq<Item>, rest: seq<Item>, identity: string)
    ensures FirstByIdentity(front, identity).Some? ==>
            FirstByIdentity(front + rest, identity) == FirstByIdentity(front, identity)
    ensures FirstByIdentity(front, identity).Some? ==> FirstByIdentity(front, identity).value in front
                                                       && FirstByIdentity(front, identity).value.identity == identity
  {
    if front != [] {
      FirstIsInTheFront(front[1..], rest, identity);
      assert (front + rest)[1..] == front[1..] + rest;
    }
  }

  lemma {:induction false} FirstExists(items: seq<Item>, item: Item)
    requires item in items
    ensures FirstByIdentity(items, item.identity).Some?
  {
    if items[0].identity != item.identity { FirstExists(items[1..], item); }
  }

  /** Items appended later never change which items the plan picks. */
  lemma {:induction false} StableFromTheFront(front: seq<Item>, rest: seq<Item>, identities: seq<string>)
    requires forall id :: id in identities ==> FirstByIdentity(front, id).Some?
    ensures StableFrom(front + rest, identities) == StableFrom(front, identities)
  {
    if identities != [] {
      var last := identities[|identities| - 1];
      assert last in identities;
      StableFromTheFront(front, rest, identities[..|identities| - 1]);
      FirstIsInTheFront(front, rest, last);
    }
  }

  // ---------- the saved part of a build ----------

  /** The items and the plan that the saved context gives. */
  function SavedItems(graph: Graph, saved: seq<Saved>): seq<Item>
    requires forall s :: s in saved ==> SavedOk(graph, s)
  {
    AppendAll(Start, graph, SavedRequests(graph, saved)).items
  }

  /** One saved item more appends one item, with its identity, or nothing. */
  lemma SavedItemsGrow(graph: Graph, saved: seq<Saved>, s: Saved)
    requires (forall x :: x in saved ==> SavedOk(graph, x)) && SavedOk(graph, s)
    ensures var before, after := SavedItems(graph, saved), SavedItems(graph, saved + [s]);
            if SavedIdentityIn(graph, s).None? then after == before
            else
              |after| == |before| + 1 && before <= after && after[|before|].identity == SavedIdentityIn(graph, s).value
  {
    OneMoreSaved(graph, saved, s);
    AppendInTurn(Start, graph, SavedRequests(graph, saved), SavedRequests(graph, [s]));
    OneSaved(graph, s, AppendAll(Start, graph, SavedRequests(graph, saved)));
  }

  /** The saved items carry the planned identities, one by one. */
  lemma {:induction false} SavedItemsAreThePlan(graph: Graph, saved: seq<Saved>)
    requires forall s :: s in saved ==> SavedOk(graph, s)
    ensures |SavedItems(graph, saved)| == |StableIdentities(graph, saved)|
    ensures forall i: nat :: i < |SavedItems(graph, saved)| ==>
            SavedItems(graph, saved)[i].identity == StableIdentities(graph, saved)[i]
  {
    if saved != [] {
      var front, s := saved[..|saved| - 1], saved[|saved| - 1];
      assert saved == front + [s];
      SavedItemsAreThePlan(graph, front);
      SavedItemsGrow(graph, front, s);
    }
  }

  /** The saved items come first in the manifest. */
  lemma SavedItemsComeFirst(graph: Graph, input: Input, references: seq<ArtifactId>)
    requires Buildable(graph, input)
    ensures SavedItems(graph, input.saved) <= Built(graph, input, references).items
  {
    LaterRequestsAppend(graph, SavedRequests(graph, input.saved), AllRequests(graph, input, references));
  }

  lemma LaterRequestsAppend(graph: Graph, first: seq<Request>, all: seq<Request>)
    requires first <= all
    ensures AppendAll(Start, graph, first).items <= AppendAll(Start, graph, all).items
  {
    assert all == first + all[|first|..];
    AppendInTurn(Start, graph, first, all[|first|..]);
    AppendKeepsPrefix(AppendAll(Start, graph, first), graph, all[|first|..]);
  }

  /** What the plan picks out of a built manifest are saved items only. */
  lemma StableItemsAreSaved(graph: Graph, input: Input, references: seq<ArtifactId>)
    requires Buildable(graph, input)
    ensures StableItems(Built(graph, input, references)) ==
            StableFrom(SavedItems(graph, input.saved), StableIdentities(graph, input.saved))
  {
    var m, saved, ids := Built(graph, input, references), SavedItems(graph, input.saved),
        StableIdentities(graph, input.saved);
    SavedItemsComeFirst(graph, input, references);
    SavedItemsAreThePlan(graph, input.saved);
    PickedFromTheFront(saved, m.items, ids);
  }

  /** A plan that names the first items one by one picks among those alone. */
  lemma PickedFromTheFront(front: seq<Item>, items: seq<Item>, identities: seq<string>)
    requires front <= items && |front| == |identities|
    requires forall i: nat :: i < |front| ==> front[i].identity == identities[i]
    ensures StableFrom(items, identities) == StableFrom(front, identities)
  {
    forall id | id in identities ensures FirstByIdentity(front, id).Some? {
      var i: nat :| i < |identities| && identities[i] == id;
      FirstExists(front, front[i]);
    }
    assert items == front + items[|front|..];
    StableFromTheFront(front, items[|front|..], identities);
  }

  // ---------- stability ----------

  /** The two graphs agree on everything a saved item refers to. */
  predicate SameRows(first: Graph, second: Graph, s: Saved) {
    && SavedOk(first, s) && SavedOk(second, s)
    && first.artifacts[s.artifactId] == second.artifacts[s.artifactId]
    && Rows(first, s.artifactId, EffectiveRevision(first, s))
       == Rows(second, s.artifactId, EffectiveRevision(second, s))
  }

  lemma {:induction false} SameRowsSameItems(first: Graph, second: Graph, saved: seq<Saved>)
    requires forall s :: s in saved ==> SavedOk(first, s) && SavedOk(second, s) && SameRows(first, second, s)
    ensures AppendAll(Start, first, SavedRequests(first, saved))
            == AppendAll(Start, second, SavedRequests(second, saved))
    ensures StableIdentities(first, saved) == StableIdentities(second, saved)
  {
    if saved != [] {
      var front, s := saved[..|saved| - 1], saved[|saved| - 1];
      assert s in saved && saved == front + [s];
      SameRowsSameItems(first, second, front);
      OneMoreSaved(first, front, s);
      OneMoreSaved(second, front, s);
      AppendInTurn(Start, first, SavedRequests(first, front), SavedRequests(first, [s]));
      AppendInTurn(Start, second, SavedRequests(second, front), SavedRequests(second, [s]));
      SameRowsSameAppend(first, second, s, AppendAll(Start, first, SavedRequests(first, front)));
    }
  }

  lemma SameRowsSameAppend(first: Graph, second: Graph, s: Saved, draft: Draft)
    requires SameRows(first, second, s)
    ensures AppendAll(draft, first, SavedRequests(first, [s])) == AppendAll(draft, second, SavedRequests(second, [s]))
    ensures SavedIdentityIn(first, s) == SavedIdentityIn(second, s)
  {
    OneSaved(first, s, draft);
    OneSaved(second, s, draft);
    assert SavedRequest(first, s) == SavedRequest(second, s);
  }

  lemma OneSaved(graph: Graph, s: Saved, draft: Draft)
    requires SavedOk(graph, s)
    ensures var q := SavedRequest(graph, s);
            AppendAll(draft, graph, SavedRequests(graph, [s])) == if q.Some? then Append(draft, graph, q.value)
                else draft
  {
    var q := SavedRequest(graph, s);
    assert [s][..0] == [] && SavedRequests(graph, [s][..0]) == [];
    if q.Some? {
      assert SavedRequests(graph, [s]) == [q.value] && [q.value][..0] == [];
    }
  }

  /** The prefix, the snapshot and the cache family of a compiled manifest, from the saved context. */
  lemma CompiledFromSaved(graph: Graph, input: Input, references: seq<ArtifactId>, task: Task)
    requires Buildable(graph, input)
    ensures var stable := StableFrom(SavedItems(graph, input.saved), StableIdentities(graph, input.saved));
            var compiled := Compile(Built(graph, input, references), task);
            && compiled.prefix == PrefixOf(graph.projectId, graph.projectName, input.plan, stable)
            && compiled.snapshot == (Default(input.plan.savedContextId, "none"), stable)
            && compiled.cacheFamily == CacheFamily(graph.projectId, input.plan)
  {
    StableItemsAreSaved(graph, input, references);
  }

  /**
   * The stable prefix, the snapshot and the cache family depend on the project's id and name, the saved items with
   * their rows and files, and the ids of the plan. The target, the references and the order they were read in, the
   * feedback, the notes, the extras, the selection, the constraints and the text of the user have no part in them.
   */
  lemma PrefixIsStable(
    firstGraph: Graph, firstInput: Input, firstRead: seq<ArtifactId>, firstTask: Task,
    secondGraph: Graph, secondInput: Input, secondRead: seq<ArtifactId>, secondTask: Task)
    requires Buildable(firstGraph, firstInput) && Buildable(secondGraph, secondInput)
    requires firstGraph.projectId == secondGraph.projectId && firstGraph.projectName == secondGraph.projectName
    requires firstInput.plan == secondInput.plan && firstInput.saved == secondInput.saved
    requires forall s :: s in firstInput.saved ==> SameRows(firstGraph, secondGraph, s)
    ensures var first := Compile(Built(firstGraph, firstInput, firstRead), firstTask);
            var second := Compile(Built(secondGraph, secondInput, secondRead), secondTask);
            first.prefix == second.prefix && first.snapshot == second.snapshot
                && first.cacheFamily == second.cacheFamily
  {
    CompiledFromSaved(firstGraph, firstInput, firstRead, firstTask);
    CompiledFromSaved(secondGraph, secondInput, secondRead, secondTask);
    SameRowsSameItems(firstGraph, secondGraph, firstInput.saved);
  }

  // ---------- what the prefix and the tail hold ----------

  lemma {:induction false} DistinctIdentitiesPickAll(items: seq<Item>, n: nat)
    requires n <= |items|
    requires forall i, j :: 0 <= i < j < |items| ==> items[i].identity != items[j].identity
    ensures StableFrom(items, seq(n, (i: nat) requires i < n => items[i].identity)) == items[..n]
  {
    if n > 0 {
      var ids := seq(n, (i: nat) requires i < n => items[i].identity);
      assert ids[..n - 1] == seq(n - 1, (i: nat) requires i < n - 1 => items[i].identity);
      DistinctIdentitiesPickAll(items, n - 1);
      FirstAt(items, n - 1);
    }
  }

  lemma {:induction false} FirstAt(items: seq<Item>, k: nat)
    requires k < |items| && forall i :: 0 <= i < k ==> items[i].identity != items[k].identity
    ensures FirstByIdentity(items, items[k].identity) == Some(items[k])
  {
    if k > 0 {
      assert items[0].identity != items[k].identity;
      FirstAt(items[1..], k - 1);
    }
  }

  /** When no identity is planned twice, the prefix holds exactly the saved items, in the order they were saved. */
  lemma PrefixHoldsTheSavedItems(graph: Graph, input: Input, references: seq<ArtifactId>, task: Task)
    requires Buildable(graph, input)
    requires var ids := StableIdentities(graph, input.saved); forall i, j :: 0 <= i < j < |ids| ==> ids[i] != ids[j]
    ensures Compile(Built(graph, input, references), task).prefix.items == SavedItems(graph, input.saved)
  {
    var items, ids := SavedItems(graph, input.saved), StableIdentities(graph, input.saved);
    StableItemsAreSaved(graph, input, references);
    SavedItemsAreThePlan(graph, input.saved);
    DistinctIdentitiesPickAll(items, |items|);
    assert ids == seq(|items|, (i: nat) requires i < |items| => items[i].identity);
    assert items[..|items|] == items;
  }

  lemma {:induction false} StableMembers(items: seq<Item>, identities: seq<string>)
    ensures forall s :: s in StableFrom(items, identities) ==> s in items && s.identity in identities
  {
    if identities != [] {
      StableMembers(items, identities[..|identities| - 1]);
      FirstIsInTheFront(items, [], identities[|identities| - 1]);
    }
  }

  lemma {:induction false} DynamicMembers(m: Manifest, items: seq<Item>)
    ensures forall d :: d in DynamicFrom(m, items) <==> d in items && IsDynamic(m, d)
  {
    if items != [] { DynamicMembers(m, items[..|items| - 1]); }
  }

  /** The revision the item shows; without one it shows the current revision. */
  function RevisionShown(item: Item): RevisionId { if item.revisionId.Some? then item.revisionId.value else "current" }

  /** No item and no artifact revision of the prefix is repeated in the tail. */
  lemma TailRepeatsNothing(m: Manifest, s: Item, d: Item)
    requires s in StableItems(m) && d in DynamicItems(m)
    ensures s.identity != d.identity
    ensures s.artifactId.Some? && s.artifactId == d.artifactId ==> RevisionShown(s) != RevisionShown(d)
  {
    StableMembers(m.items, m.stableIdentities);
    DynamicMembers(m, m.items);
  }

  /** Every item of the manifest is in the tail, or stands in the prefix under its identity or as the same revision. */
  lemma NothingIsLost(m: Manifest, item: Item)
    requires item in m.items && item !in DynamicItems(m)
    ensures exists s :: s in StableItems(m) &&
              (s.identity == item.identity
               || (item.artifactId.Some? && s.artifactId == item.artifactId && RevisionShown(s) == RevisionShown(item)))
  {
    DynamicMembers(m, m.items);
    if item.identity in m.stableIdentities {
      FirstExists(m.items, item);
      FirstIsInTheFront(m.items, [], item.identity);
      PickedByIdentity(m.items, m.stableIdentities, item.identity);
    }
  }

  lemma {:induction false} PickedByIdentity(items: seq<Item>, identities: seq<string>, identity: string)
    requires identity in identities && FirstByIdentity(items, identity).Some?
    ensures FirstByIdentity(items, identity).value in StableFrom(items, identities)
  {
    if identities[|identities| - 1] != identity { PickedByIdentity(items, identities[..|identities| - 1], identity); }
  }
}
