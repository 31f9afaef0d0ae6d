/**
 * Turning staged captures into project artifacts, with retries after partial failure
 * (apps/local-core/src/capture-space-service.ts `materializeToProject`,
 * apps/local-core/src/metadata-repository.ts `resolveCaptureStagingItem`).
 */
module CaptureMaterialize {
  import opened Wrappers
  import opened Lists

  type CaptureId = string
  type ProjectId = string

  /** What an import produced. */
  datatype Product = Product(artifactId: string, viewId: string)

  /** A staged capture, and where it went; rows from before the back-links existed lack them. */
  datatype Resolution = Resolution(projectId: ProjectId, product: Option<Product>)
  datatype Staged = Staged(operationId: string, resolved: Option<Resolution>)

  datatype Item = Item(captureId: CaptureId, product: Product, reused: bool)
  datatype Region = Region(name: string, captureIds: seq<CaptureId>)
  datatype Presentation = Presentation(views: seq<CaptureId>, regions: seq<Region>, version: nat)
  datatype Batch = Batch(projectId: ProjectId, operationIds: seq<string>, products: seq<Product>)

  datatype Error =
    | NoCaptures | ProjectNotFound | RootScopeMissing | CaptureNotFound | AlreadyResolved | ImportFailed | BatchFailed

  type Table = map<CaptureId, Staged>

  predicate Resolved(rows: Table, id: CaptureId) { id in rows && rows[id].resolved.Some? }

  /** `resolveCaptureStagingItem`: a row that is resolved already stays as it is. */
  function Resolve(rows: Table, id: CaptureId, project: ProjectId, product: Product): Table {
    if id in rows && rows[id].resolved.None? then
      rows[id := rows[id].(resolved := Some(Resolution(project, Some(product))))]
    else rows
  }

  // ---------- sorting the requested captures ----------

  /** Resolved into this very project, with its back-links. */
  predicate Reusable(rows: Table, id: CaptureId, project: ProjectId) {
    Resolved(rows, id) && rows[id].resolved.value.projectId == project && rows[id].resolved.value.product.Some?
  }

  /** The call may go on: every capture exists and is unresolved or reusable. */
  predicate Acceptable(rows: Table, ids: seq<CaptureId>, project: ProjectId) {
    forall id :: id in ids ==> id in rows && (Resolved(rows, id) ==> Reusable(rows, id, project))
  }

  function Pending(rows: Table, ids: seq<CaptureId>): seq<CaptureId> {
    if ids == [] then []
    else Pending(rows, ids[..|ids| - 1]) + if Resolved(rows, ids[|ids| - 1]) then [] else [ids[|ids| - 1]]
  }

  function Reused(rows: Table, ids: seq<CaptureId>, project: ProjectId): seq<Item>
    requires Acceptable(rows, ids, project)
  {
    if ids == [] then []
    else
      var id := ids[|ids| - 1];
      assert id in ids;
      Reused(rows, ids[..|ids| - 1], project)
      + if Resolved(rows, id) then [Item(id, rows[id].resolved.value.product.value, true)] else []
  }

  // ---------- importing the pending ones ----------

  /** The imports that succeed before the first that fails. */
  function Successes(outcomes: seq<Option<Product>>, n: nat): (k: nat)
    requires n <= |outcomes|
    ensures k <= n
    ensures forall i: nat :: i < k ==> outcomes[i].Some?
    ensures k < n ==> outcomes[k].None?
  {
    if n == 0 then 0
    else
      var k := Successes(outcomes, n - 1);
      if k == n - 1 && outcomes[k].Some? then n else k
  }

  function ResolveAll(
    rows: Table, project: ProjectId, pending: seq<CaptureId>, outcomes: seq<Option<Product>>, n: nat): Table
    requires n <= |pending| && n <= |outcomes| && forall i: nat :: i < n ==> outcomes[i].Some?
  {
    if n == 0 then rows
    else Resolve(ResolveAll(rows, project, pending, outcomes, n - 1), pending[n - 1], project, outcomes[n - 1].value)
  }

  function Imported(pending: seq<CaptureId>, outcomes: seq<Option<Product>>, n: nat): (items: seq<Item>)
    requires n <= |pending| && n <= |outcomes| && forall i: nat :: i < n ==> outcomes[i].Some?
    ensures |items| == n
  {
    seq(n, (i: nat) requires i < n => Item(pending[i], outcomes[i].value, false))
  }

  // ---------- one call ----------

  datatype Store = Store(
    rows: Table,
    imports: seq<(CaptureId, Product)>,   // every `#importItem` carried out, in order, and what it answered
    batches: seq<Batch>,
    presentation: Presentation)

  /** `outcomes[i]` is what importing the i-th pending capture gives; `None` when it throws. */
  datatype Call = Call(ids: seq<CaptureId>, project: ProjectId, projectOk: bool, rootOk: bool,
      outcomes: seq<Option<Product>>, batchOk: bool)

  predicate WellFormed(c: Call) { |c.outcomes| == |c.ids| }

  /** The call gets as far as importing. */
  predicate Starts(rows: Table, c: Call) {
    c.ids != [] && c.projectOk && c.rootOk && Acceptable(rows, c.ids, c.project)
  }

  function WithoutCaptures(p: Presentation, ids: seq<CaptureId>): Presentation {
    Presentation(Without(p.views, ids), Regions(p.regions, ids), p.version + 1)
  }

  function Regions(regions: seq<Region>, ids: seq<CaptureId>): seq<Region> {
    if regions == [] then []
    else
      var last := regions[|regions| - 1];
      var kept := Without(last.captureIds, ids);
      Regions(regions[..|regions| - 1], ids) + if kept == [] then [] else [last.(captureIds := kept)]
  }

  function Operations(rows: Table, pending: seq<CaptureId>): seq<string>
    requires forall id :: id in pending ==> id in rows
  {
    seq(|pending|, (i: nat) requires i < |pending| => assert pending[i] in pending; rows[pending[i]].operationId)
  }

  function Log(pending: seq<CaptureId>, outcomes: seq<Option<Product>>, n: nat): seq<(CaptureId, Product)>
    requires n <= |pending| && n <= |outcomes| && forall i: nat :: i < n ==> outcomes[i].Some?
  {
    seq(n, (i: nat) requires i < n => (pending[i], outcomes[i].value))
  }

  function Products(outcomes: seq<Option<Product>>, n: nat): seq<Product>
    requires n <= |outcomes| && forall i: nat :: i < n ==> outcomes[i].Some?
  {
    seq(n, (i: nat) requires i < n => outcomes[i].value)
  }

  /** The tables after the imports that succeeded. */
  function AfterImports(store: Store, c: Call): Store
    requires WellFormed(c) && |Pending(store.rows, c.ids)| <= |c.ids|
  {
    var pending := Pending(store.rows, c.ids);
    var k := Successes(c.outcomes, |pending|);
    store.(rows := ResolveAll(store.rows, c.project, pending, c.outcomes, k),
        imports := store.imports + Log(pending, c.outcomes, k))
  }

  lemma {:induction false} PendingMembers(rows: Table, ids: seq<CaptureId>)
    ensures |Pending(rows, ids)| <= |ids|
    ensures forall id :: id in Pending(rows, ids) <==> id in ids && !Resolved(rows, id)
    ensures Distinct(ids) ==> Distinct(Pending(rows, ids))
  {
    if ids != [] { PendingMembers(rows, ids[..|ids| - 1]); }
  }

  // ---------- the service ----------

  class CaptureSpaceService {
    var store: Store

    constructor (store: Store)
      ensures this.store == store
    {
      this.store := store;
    }

    /** Splits the requested captures into those to import and those to reuse. */
    method Sort(ids: seq<CaptureId>, project: ProjectId) returns (ok: bool, pending: seq<CaptureId>, reused: seq<Item>)
      requires forall id :: id in ids ==> id in store.rows
      ensures ok == Acceptable(store.rows, ids, project)
      ensures ok ==> pending == Pending(store.rows, ids) && reused == Reused(store.rows, ids, project)
    {
      pending, reused := [], [];
      for i := 0 to |ids|
        invariant Acceptable(store.rows, ids[..i], project)
        invariant pending == Pending(store.rows, ids[..i]) && reused == Reused(store.rows, ids[..i], project)
      {
        var id := ids[i];
        assert id in ids;
        assert ids[..i + 1] == ids[..i] + [id] && ids[..i + 1][..i] == ids[..i];
        var row := store.rows[id];
        if row.resolved.None? {
          pending := pending + [id];
          continue;
        }
        if row.resolved.value.projectId != project || row.resolved.value.product.None? { return false, [], []; }
        reused := reused + [Item(id, row.resolved.value.product.value, true)];
      }
      assert ids[..|ids|] == ids;
      ok := true;
    }

    /** Imports the pending captures one by one; each is resolved as soon as it is imported. */
    method ImportPending(
      project: ProjectId, pending: seq<CaptureId>, outcomes: seq<Option<Product>>)
      returns (ok: bool, imported: seq<Item>)
      requires |pending| <= |outcomes|
      modifies this
      ensures var k := Successes(outcomes, |pending|);
              && ok == (k == |pending|)
              && store == old(store).(rows := ResolveAll(old(store).rows, project, pending, outcomes, k),
                                      imports := old(store).imports + Log(pending, outcomes, k))
              && imported == Imported(pending, outcomes, k)
    {
      imported := [];
      for i := 0 to |pending|
        invariant Successes(outcomes, i) == i
        invariant store == old(store).(rows := ResolveAll(old(store).rows, project, pending, outcomes, i),
                                       imports := old(store).imports + Log(pending, outcomes, i))
        invariant imported == Imported(pending, outcomes, i)
      {
        if outcomes[i].None? {
          StopsAt(outcomes, i, |pending|);
          return false, imported;
        }
        var product := outcomes[i].value;
        imported := imported + [Item(pending[i], product, false)];
        store := store.(rows := Resolve(store.rows, pending[i], project, product),
            imports := store.imports + [(pending[i], product)]);
      }
      ok := true;
    }

    /** `materializeToProject`. */
    method MaterializeToProject(c: Call) returns (result: Result<seq<Item>, Error>)
      requires WellFormed(c)
      modifies this
      ensures !Starts(old(store).rows, c) ==> result.Err? && store == old(store)
      ensures Starts(old(store).rows, c) ==> EndsAs(old(store), c, store, result)
    {
      if c.ids == [] { return Err(NoCaptures); }
      if !c.projectOk { return Err(ProjectNotFound); }
      if !c.rootOk { return Err(RootScopeMissing); }
      if exists id :: id in c.ids && id !in store.rows { return Err(CaptureNotFound); }
      var ok, pending, reused := Sort(c.ids, c.project);
      if !ok { return Err(AlreadyResolved); }
      if pending == [] { return Ok(reused); }
      PendingMembers(store.rows, c.ids);
      var operations := Operations(store.rows, pending);
      var imported;
      ok, imported := ImportPending(c.project, pending, c.outcomes);
      if !ok { return Err(ImportFailed); }
      if !c.batchOk { return Err(BatchFailed); }
      store := store.(batches := store.batches + [Batch(c.project, operations, Products(c.outcomes, |pending|))]);
      store := store.(presentation := WithoutCaptures(store.presentation, c.ids));
      result := Ok(imported + reused);
    }
  }

  /** How a call that starts ends: with nothing to do, stopped at a failure, or done. */
  ghost predicate EndsAs(before: Store, c: Call, after: Store, result: Result<seq<Item>, Error>)
    requires WellFormed(c) && Starts(before.rows, c)
  {
    PendingMembers(before.rows, c.ids);
    var pending := Pending(before.rows, c.ids);
    var k, reused := Successes(c.outcomes, |pending|), Reused(before.rows, c.ids, c.project);
    if pending == [] then result == Ok(reused) && after == before
    else if k < |pending| || !c.batchOk then result.Err? && after == AfterImports(before, c)
    else
      && result == Ok(Imported(pending, c.outcomes, k) + reused)
      && after == AfterImports(before, c).(
           batches := before.batches + [Batch(c.project, Operations(before.rows, pending), Products(c.outcomes, k))],
           presentation := WithoutCaptures(before.presentation, c.ids))
  }

  lemma {:induction false} StopsAt(outcomes: seq<Option<Product>>, i: nat, n: nat)
    requires i < n <= |outcomes| && Successes(outcomes, i) == i && outcomes[i].None?
    ensures Successes(outcomes, n) == i
  {
    if i < n - 1 { StopsAt(outcomes, i, n - 1); }
  }

  // ---------- runs ----------

  /** The tables after a call, whether it succeeds or not. */
  function After(store: Store, c: Call): Store
    requires WellFormed(c)
  {
    if !Starts(store.rows, c) then store
    else
      PendingMembers(store.rows, c.ids);
      var pending := Pending(store.rows, c.ids);
      var k := Successes(c.outcomes, |pending|);
      if pending == [] then store
      else if k < |pending| || !c.batchOk then AfterImports(store, c)
      else AfterImports(store, c).(
             batches := store.batches + [Batch(c.project, Operations(store.rows, pending), Products(c.outcomes, k))],
             presentation := WithoutCaptures(store.presentation, c.ids))
  }

  /**
   * A call runs to its end; or one that is suspended takes a step: an import of it stores its product, or it resolves
   * a capture to a product it stored before. When the process stops, suspended calls take no further step.
   */
  datatype Event =
    | Called(call: Call)
    | Stores(id: CaptureId, product: Product)
    | Resolves(id: CaptureId, project: ProjectId, product: Product)

  predicate Possible(e: Event) { e.Called? ==> WellFormed(e.call) }

  function Happen(store: Store, e: Event): Store
    requires Possible(e)
  {
    match e
    case Called(c) => After(store, c)
    case Stores(id, product) => store.(imports := store.imports + [(id, product)])
    case Resolves(id, project, product) => store.(rows := Resolve(store.rows, id, project, product))
  }

  predicate AllPossible(events: seq<Event>) { forall e :: e in events ==> Possible(e) }

  function Run(store: Store, events: seq<Event>): Store
    requires AllPossible(events)
  {
    if events == [] then store else Happen(Run(store, events[..|events| - 1]), events[|events| - 1])
  }

  /** The capture waits to be imported. */
  predicate Open(rows: Table, id: CaptureId) { id in rows && !Resolved(rows, id) }

  /** A suspended call stores a product for a capture it once found open, and resolves only what it stored. */
  ghost predicate HasBegun(store: Store, events: seq<Event>, k: nat)
    requires AllPossible(events) && k < |events|
  {
    match events[k]
    case Called(_) => true
    case Stores(id, _) => exists i: nat :: i <= k && Open(Run(store, events[..i]).rows, id)
    case Resolves(id, _, product) => Stores(id, product) in events[..k]
  }

  /** Every event of the run is one that its call can have come to. */
  ghost predicate Begun(store: Store, events: seq<Event>)
    requires AllPossible(events)
  {
    forall k: nat :: k < |events| ==> HasBegun(store, events, k)
  }

  lemma BegunBefore(store: Store, events: seq<Event>)
    requires AllPossible(events) && events != [] && Begun(store, events)
    ensures Begun(store, events[..|events| - 1])
  {
    var front := events[..|events| - 1];
    forall k: nat | k < |front| ensures HasBegun(store, front, k) {
      assert HasBegun(store, events, k) && front[..k] == events[..k];
      if front[k].Stores? {
        var i: nat :| i <= k && Open(Run(store, events[..i]).rows, front[k].id);
        assert front[..i] == events[..i];
      }
    }
  }

  /** However a call ends, the tables are those that a run continues with. */
  lemma CallsEndAsTheRunSays(before: Store, c: Call, after: Store, result: Result<seq<Item>, Error>)
    requires WellFormed(c) && Starts(before.rows, c) && EndsAs(before, c, after, result)
    ensures after == After(before, c)
  {
    PendingMembers(before.rows, c.ids);
  }

  lemma {:induction false} ResolvedRows(
    rows: Table, project: ProjectId, pending: seq<CaptureId>, outcomes: seq<Option<Product>>, n: nat)
    requires n <= |pending| && n <= |outcomes| && forall i: nat :: i < n ==> outcomes[i].Some?
    ensures var after := ResolveAll(rows, project, pending, outcomes, n);
            && after.Keys == rows.Keys
            && (forall id :: id in rows ==> after[id] == rows[id].(resolved := after[id].resolved))
            && (forall id :: Resolved(rows, id) ==> after[id] == rows[id])
            && (forall id :: id in rows && id !in pending[..n] ==> after[id] == rows[id])
            && (forall id :: id in rows && id in pending[..n] ==> Resolved(after, id))
  {
    if n > 0 {
      ResolvedRows(rows, project, pending, outcomes, n - 1);
      assert pending[..n] == pending[..n - 1] + [pending[n - 1]];
    }
  }

  lemma {:induction false} ResolvedToItsProduct(
    rows: Table, project: ProjectId, pending: seq<CaptureId>, outcomes: seq<Option<Product>>, n: nat, i: nat)
    requires i < n <= |pending| && n <= |outcomes| && forall j: nat :: j < n ==> outcomes[j].Some?
    requires Distinct(pending) && pending[i] in rows && !Resolved(rows, pending[i])
    ensures var after := ResolveAll(rows, project, pending, outcomes, n);
            pending[i] in after && after[pending[i]].resolved == Some(Resolution(project, outcomes[i]))
  {
    if i < n - 1 {
      ResolvedToItsProduct(rows, project, pending, outcomes, n - 1, i);
    } else {
      ResolvedRows(rows, project, pending, outcomes, n - 1);
      assert pending[i] !in pending[..n - 1];
    }
  }

  lemma EventKeepsResolutions(store: Store, e: Event, id: CaptureId)
    requires Possible(e) && Resolved(store.rows, id)
    ensures Resolved(Happen(store, e).rows, id) && Happen(store, e).rows[id] == store.rows[id]
  {
    if e.Called? && Starts(store.rows, e.call) {
      var c, pending := e.call, Pending(store.rows, e.call.ids);
      PendingMembers(store.rows, c.ids);
      ResolvedRows(store.rows, c.project, pending, c.outcomes, Successes(c.outcomes, |pending|));
    }
  }

  /** A capture is resolved at most once: its project and back-link never change again. */
  lemma {:induction false} ResolutionIsFinal(store: Store, events: seq<Event>, id: CaptureId)
    requires AllPossible(events) && Resolved(store.rows, id)
    ensures Resolved(Run(store, events).rows, id) && Run(store, events).rows[id] == store.rows[id]
  {
    if events != [] {
      ResolutionIsFinal(store, events[..|events| - 1], id);
      EventKeepsResolutions(Run(store, events[..|events| - 1]), events[|events| - 1], id);
    }
  }

  // ---------- a retry ----------

  /** What is pending later was pending before. */
  lemma {:induction false} PendingTwice(rows: Table, after: Table, ids: seq<CaptureId>)
    requires forall id :: Resolved(rows, id) ==> Resolved(after, id)
    ensures Pending(after, ids) == Pending(after, Pending(rows, ids))
  {
    if ids != [] {
      var front, last := Pending(rows, ids[..|ids| - 1]), ids[|ids| - 1];
      PendingTwice(rows, after, ids[..|ids| - 1]);
      if Resolved(rows, last) {
        assert Pending(rows, ids) == front;
      } else {
        assert (front + [last])[..|front|] == front;
      }
    }
  }

  lemma {:induction false} PendingSuffix(after: Table, p: seq<CaptureId>, k: nat)
    requires k <= |p| && forall i: nat :: i < |p| ==> (Resolved(after, p[i]) <==> i < k)
    ensures Pending(after, p) == p[k..]
  {
    if p != [] {
      var n := |p| - 1;
      PendingSuffix(after, p[..n], if k <= n then k else n);
      assert k <= n ==> p[k..] == p[..n][k..] + [p[n]];
    }
  }

  /** Resolving the first `k` captures of a list of unresolved ones resolves no other of the list. */
  lemma ResolvedUpTo(
    rows: Table, project: ProjectId, pending: seq<CaptureId>, outcomes: seq<Option<Product>>, k: nat)
    requires k <= |pending| && k <= |outcomes| && forall i: nat :: i < k ==> outcomes[i].Some?
    requires Distinct(pending) && forall id :: id in pending ==> id in rows && !Resolved(rows, id)
    ensures Pending(ResolveAll(rows, project, pending, outcomes, k), pending) == pending[k..]
  {
    var after := ResolveAll(rows, project, pending, outcomes, k);
    ResolvedRows(rows, project, pending, outcomes, k);
    forall i: nat | i < |pending| ensures Resolved(after, pending[i]) <==> i < k {
      assert pending[i] in pending;
      if i < k { assert pending[..k][i] == pending[i]; } else { assert pending[i] !in pending[..k]; }
    }
    PendingSuffix(after, pending, k);
  }

  /** What is resolved on the way can be reused by the same call. */
  lemma ResolvedAreReusable(
    rows: Table, ids: seq<CaptureId>, project: ProjectId, outcomes: seq<Option<Product>>, k: nat)
    requires Distinct(ids) && Acceptable(rows, ids, project)
    requires k <= |Pending(rows, ids)| && k <= |outcomes| && forall i: nat :: i < k ==> outcomes[i].Some?
    ensures Acceptable(ResolveAll(rows, project, Pending(rows, ids), outcomes, k), ids, project)
  {
    var pending := Pending(rows, ids);
    PendingMembers(rows, ids);
    var after := ResolveAll(rows, project, pending, outcomes, k);
    ResolvedRows(rows, project, pending, outcomes, k);
    forall id | id in ids && Resolved(after, id) ensures Reusable(after, id, project) {
      if id in pending[..k] {
        var i: nat :| i < k && pending[i] == id;
        ResolvedToItsProduct(rows, project, pending, outcomes, k, i);
      }
    }
  }

  /** With the first `k` pending captures resolved, the same request is accepted and finds the others. */
  lemma RestIsPending(
    rows: Table, ids: seq<CaptureId>, project: ProjectId, outcomes: seq<Option<Product>>, k: nat)
    requires Distinct(ids) && Acceptable(rows, ids, project)
    requires k <= |Pending(rows, ids)| && k <= |outcomes| && forall i: nat :: i < k ==> outcomes[i].Some?
    ensures var after := ResolveAll(rows, project, Pending(rows, ids), outcomes, k);
            Acceptable(after, ids, project) && Pending(after, ids) == Pending(rows, ids)[k..]
  {
    var pending := Pending(rows, ids);
    var after := ResolveAll(rows, project, pending, outcomes, k);
    ResolvedAreReusable(rows, ids, project, outcomes, k);
    PendingMembers(rows, ids);
    ResolvedUpTo(rows, project, pending, outcomes, k);
    forall id | Resolved(rows, id) ensures Resolved(after, id) { ResolvedRows(rows, project, pending, outcomes, k); }
    PendingTwice(rows, after, ids);
  }

  /** After a call that failed at the k-th import, the same request finds only the rest still to import. */
  lemma RetryImportsOnlyTheRest(store: Store, c: Call)
    requires WellFormed(c) && Starts(store.rows, c) && Distinct(c.ids)
    ensures var pending := Pending(store.rows, c.ids);
            && |pending| <= |c.outcomes|
            && Starts(After(store, c).rows, c)
            && Pending(After(store, c).rows, c.ids) == pending[Successes(c.outcomes, |pending|)..]
  {
    var pending := Pending(store.rows, c.ids);
    PendingMembers(store.rows, c.ids);
    RowsAfter(store, c);
    RestIsPending(store.rows, c.ids, c.project, c.outcomes, Successes(c.outcomes, |pending|));
  }

  // ---------- what a finished call records ----------

  /** `kept` are the elements of `list` that are not in `ids`, in their order. */
  ghost predicate IsRest(kept: seq<CaptureId>, list: seq<CaptureId>, ids: seq<CaptureId>) {
    && (forall id :: id in kept <==> id in list && id !in ids)
    && (forall id :: multiset(kept)[id] == if id in ids then 0 else multiset(list)[id])
    && IsSubsequence(kept, list)
  }

  lemma {:induction false} WithoutIsRest(list: seq<CaptureId>, ids: seq<CaptureId>)
    ensures IsRest(Without(list, ids), list, ids)
  {
    RemainingMembers(list, ids);
    WithoutIsSubsequence(list, ids);
    WithoutCounts(list, ids);
  }

  lemma {:induction false} WithoutCounts(list: seq<CaptureId>, ids: seq<CaptureId>)
    ensures forall id :: multiset(Without(list, ids))[id] == if id in ids then 0 else multiset(list)[id]
  {
    if list != [] {
      WithoutCounts(list[..|list| - 1], ids);
      FrontAndLast(list);
    }
  }

  /**
   * A call that finishes takes every requested capture off the staging canvas, from the loose views and from every
   * region, and drops the regions it leaves empty; the other captures and the other regions stay, in order.
   */
  lemma FinishedCapturesLeaveTheCanvas(store: Store, c: Call)
    requires WellFormed(c) && Starts(store.rows, c) && Pending(store.rows, c.ids) != [] && c.batchOk
    requires |Pending(store.rows, c.ids)| <= |c.ids|
    requires Successes(c.outcomes, |Pending(store.rows, c.ids)|) == |Pending(store.rows, c.ids)|
    ensures var was, now := store.presentation, After(store, c).presentation;
            && IsRest(now.views, was.views, c.ids) && now.version == was.version + 1
            && (forall r :: r in now.regions ==> r.captureIds != [])
            && RegionsOfRest(now.regions, was.regions, c.ids)
  {
    WithoutIsRest(store.presentation.views, c.ids);
    RegionsAreRest(store.presentation.regions, c.ids);
  }

  /** Region by region the rest of each, save those of which nothing is left. */
  ghost predicate RegionsOfRest(kept: seq<Region>, regions: seq<Region>, ids: seq<CaptureId>) {
    if regions == [] then kept == []
    else
      var n, last := |regions| - 1, regions[|regions| - 1];
      if forall id :: id in last.captureIds ==> id in ids then RegionsOfRest(kept, regions[..n], ids)
      else
        && kept != [] && kept[|kept| - 1].name == last.name
        && IsRest(kept[|kept| - 1].captureIds, last.captureIds, ids)
        && RegionsOfRest(kept[..|kept| - 1], regions[..n], ids)
  }

  lemma {:induction false} RegionsAreRest(regions: seq<Region>, ids: seq<CaptureId>)
    ensures RegionsOfRest(Regions(regions, ids), regions, ids)
    ensures forall r :: r in Regions(regions, ids) ==> r.captureIds != []
  {
    if regions != [] {
      var front, last := regions[..|regions| - 1], regions[|regions| - 1];
      RegionsAreRest(front, ids);
      WithoutIsRest(last.captureIds, ids);
      var kept, before := Without(last.captureIds, ids), Regions(front, ids);
      if kept == [] {
        assert forall id :: id in last.captureIds ==> id in ids;
        assert Regions(regions, ids) == before;
      } else {
        assert kept[0] in last.captureIds && kept[0] !in ids;
        assert Regions(regions, ids) == before + [last.(captureIds := kept)];
        assert Regions(regions, ids)[..|before|] == before;
      }
    }
  }

  /** The batch of a finished call lists the captures it imported, by their requests and their products. */
  lemma BatchListsTheImports(store: Store, c: Call)
    requires WellFormed(c) && Starts(store.rows, c) && Pending(store.rows, c.ids) != [] && c.batchOk
    requires |Pending(store.rows, c.ids)| <= |c.ids|
    requires Successes(c.outcomes, |Pending(store.rows, c.ids)|) == |Pending(store.rows, c.ids)|
    ensures var pending, after := Pending(store.rows, c.ids), After(store, c);
            var n := |store.batches|;
            && |after.batches| == n + 1 && after.batches[..n] == store.batches
            && after.batches[n].projectId == c.project
            && |after.batches[n].operationIds| == |after.batches[n].products| == |pending|
            && |after.imports| == |store.imports| + |pending|
            && forall i: nat :: i < |pending| ==>
                 && pending[i] in store.rows
                 && after.batches[n].operationIds[i] == store.rows[pending[i]].operationId
                 && after.imports[|store.imports| + i] == (pending[i], after.batches[n].products[i])
  {
    PendingMembers(store.rows, c.ids);
    var pending := Pending(store.rows, c.ids);
    forall i: nat | i < |pending| ensures pending[i] in store.rows { assert pending[i] in pending; }
  }

  // ---------- one result for each capture ----------

  /** The items answer the requested captures one by one, and agree with the stored back-links. */
  ghost predicate Answers(rows: Table, ids: seq<CaptureId>, project: ProjectId, items: seq<Item>) {
    && |items| == |ids|
    && (forall id :: id in ids ==> exists i :: 0 <= i < |items| && items[i].captureId == id)
    && (forall i :: 0 <= i < |items| ==> AnswersOne(rows, ids, project, items[i]))
  }

  /** The item is for a requested capture and is its stored back-link. */
  predicate AnswersOne(rows: Table, ids: seq<CaptureId>, project: ProjectId, item: Item) {
    item.captureId in ids && item.captureId in rows
        && rows[item.captureId].resolved == Some(Resolution(project, Some(item.product)))
  }

  lemma {:induction false} ReusedItems(rows: Table, ids: seq<CaptureId>, project: ProjectId)
    requires Acceptable(rows, ids, project)
    ensures |Reused(rows, ids, project)| + |Pending(rows, ids)| == |ids|
    ensures forall i :: 0 <= i < |Reused(rows, ids, project)| ==>
              AnswersOne(rows, ids, project, Reused(rows, ids, project)[i])
    ensures forall id :: id in ids && Resolved(rows, id) ==>
            exists i :: 0 <= i < |Reused(rows, ids, project)| && Reused(rows, ids, project)[i].captureId == id
  {
    if ids != [] {
      var front, last := ids[..|ids| - 1], ids[|ids| - 1];
      ReusedItems(rows, front, project);
      assert ids == front + [last];
      var before, after := Reused(rows, front, project), Reused(rows, ids, project);
      assert before <= after;
      assert last in ids;
      forall id | id in ids && Resolved(rows, id) ensures exists i :: 0 <= i < |after| && after[i].captureId == id {
        if id == last {
          assert after[|after| - 1].captureId == last;
        } else {
          var i :| 0 <= i < |before| && before[i].captureId == id;
          assert after[i].captureId == id;
        }
      }
    }
  }

  lemma SuccessAnswersEveryCapture(store: Store, c: Call)
    requires WellFormed(c) && Starts(store.rows, c) && Distinct(c.ids)
    requires |Pending(store.rows, c.ids)| <= |c.outcomes|
    requires Successes(c.outcomes, |Pending(store.rows, c.ids)|) == |Pending(store.rows, c.ids)|
    ensures var pending := Pending(store.rows, c.ids);
            Answers(After(store, c).rows, c.ids, c.project,
                Imported(pending, c.outcomes, |pending|) + Reused(store.rows, c.ids, c.project))
  {
    var rows, pending := store.rows, Pending(store.rows, c.ids);
    var imported, reused := Imported(pending, c.outcomes, |pending|), Reused(rows, c.ids, c.project);
    RowsAfter(store, c);
    ReusedItems(rows, c.ids, c.project);
    ItemsAnswer(rows, c.ids, c.project, c.outcomes);
    EveryCaptureIsThere(rows, c.ids, imported, reused);
  }

  /** A call that succeeds answers every requested capture once, in agreement with the back-links it leaves. */
  lemma SuccessfulCallAnswers(before: Store, c: Call, after: Store, result: Result<seq<Item>, Error>)
    requires WellFormed(c) && Starts(before.rows, c) && Distinct(c.ids) && EndsAs(before, c, after, result)
    requires result.Ok?
    ensures after == After(before, c) && Answers(after.rows, c.ids, c.project, result.value)
  {
    PendingMembers(before.rows, c.ids);
    SuccessAnswersEveryCapture(before, c);
    var pending := Pending(before.rows, c.ids);
    if pending == [] {
      assert Imported(pending, c.outcomes, 0) + Reused(before.rows, c.ids, c.project)
             == Reused(before.rows, c.ids, c.project);
    }
  }

  lemma RowsAfter(store: Store, c: Call)
    requires WellFormed(c) && Starts(store.rows, c)
    ensures var pending := Pending(store.rows, c.ids);
            && |pending| <= |c.outcomes|
            && After(store, c).rows
               == ResolveAll(store.rows, c.project, pending, c.outcomes, Successes(c.outcomes, |pending|))
  {
    PendingMembers(store.rows, c.ids);
  }

  /** Imported and reused items agree with the rows after the imports. */
  lemma ItemsAnswer(rows: Table, ids: seq<CaptureId>, project: ProjectId, outcomes: seq<Option<Product>>)
    requires Acceptable(rows, ids, project) && Distinct(ids)
    requires |Pending(rows, ids)| <= |outcomes| && forall i: nat :: i < |Pending(rows, ids)| ==> outcomes[i].Some?
    ensures var pending := Pending(rows, ids);
            var after := ResolveAll(rows, project, pending, outcomes, |pending|);
            && (forall i: nat :: i < |pending| ==>
               AnswersOne(after, ids, project, Imported(pending, outcomes, |pending|)[i]))
            && (forall i: nat :: i < |Reused(rows, ids, project)| ==>
               AnswersOne(after, ids, project, Reused(rows, ids, project)[i]))
  {
    var pending, reused := Pending(rows, ids), Reused(rows, ids, project);
    PendingMembers(rows, ids);
    ReusedItems(rows, ids, project);
    ResolvedRows(rows, project, pending, outcomes, |pending|);
    var after := ResolveAll(rows, project, pending, outcomes, |pending|);
    forall i: nat | i < |pending| ensures AnswersOne(after, ids, project, Imported(pending, outcomes, |pending|)[i]) {
      assert pending[i] in pending;
      ResolvedToItsProduct(rows, project, pending, outcomes, |pending|, i);
    }
    forall i: nat | i < |reused|
      ensures AnswersOne(after, ids, project, reused[i])
    {
      assert AnswersOne(rows, ids, project, reused[i]);
    }
  }

  lemma EveryCaptureIsThere(rows: Table, ids: seq<CaptureId>, imported: seq<Item>, reused: seq<Item>)
    requires forall id :: id in ids && Resolved(rows, id) ==> exists i :: 0 <= i < |reused| && reused[i].captureId == id
    requires |imported| == |Pending(rows, ids)| && forall i: nat :: i < |imported| ==>
            imported[i].captureId == Pending(rows, ids)[i]
    ensures forall id :: id in ids ==>
            exists i :: 0 <= i < |imported + reused| && (imported + reused)[i].captureId == id
  {
    PendingMembers(rows, ids);
    forall id | id in ids ensures exists i :: 0 <= i < |imported + reused| && (imported + reused)[i].captureId == id {
      if Resolved(rows, id) {
        var j :| 0 <= j < |reused| && reused[j].captureId == id;
        assert (imported + reused)[|imported| + j].captureId == id;
      } else {
        assert id in Pending(rows, ids);
        var j: nat :| j < |imported| && Pending(rows, ids)[j] == id;
        assert (imported + reused)[j].captureId == id;
      }
    }
  }

  // ---------- each capture is imported once ----------

  /** The captures imported so far, in order. */
  function Captures(imports: seq<(CaptureId, Product)>): seq<CaptureId> {
    seq(|imports|, (i: nat) requires i < |imports| => imports[i].0)
  }

  predicate ImportedOnce(store: Store) { Distinct(Captures(store.imports)) }

  predicate AllImportsResolved(store: Store) {
    forall id :: id in Captures(store.imports) ==> Resolved(store.rows, id)
  }

  /** The captures an event imports, in order. */
  function ImportedBy(store: Store, e: Event): (ids: seq<CaptureId>)
    requires Possible(e)
  {
    match e
    case Called(c) =>
      if !Starts(store.rows, c) then []
      else
        PendingMembers(store.rows, c.ids);
        Pending(store.rows, c.ids)[..Successes(c.outcomes, |Pending(store.rows, c.ids)|)]
    case Stores(id, _) => [id]
    case Resolves(_, _, _) => []
  }

  /** The captures that suspended or stopped calls imported, whatever has become of them since. */
  function Loose(events: seq<Event>): set<CaptureId> { set e | e in events && e.Stores? :: e.id }

  lemma CapturesOfLog(
    imports: seq<(CaptureId, Product)>, pending: seq<CaptureId>, outcomes: seq<Option<Product>>, n: nat)
    requires n <= |pending| && n <= |outcomes| && forall i: nat :: i < n ==> outcomes[i].Some?
    ensures Captures(imports + Log(pending, outcomes, n)) == Captures(imports) + pending[..n]
  {
  }

  /** An event appends what it imports; what a whole call imports was unresolved before and is resolved after. */
  lemma ImportsOfEvent(store: Store, e: Event)
    requires Possible(e)
    ensures var after, ids := Happen(store, e), ImportedBy(store, e);
            && Captures(after.imports) == Captures(store.imports) + ids
            && (e.Called? ==> forall id :: id in ids ==> !Resolved(store.rows, id) && Resolved(after.rows, id))
  {
    if e.Called? && Starts(store.rows, e.call) {
      PendingMembers(store.rows, e.call.ids);
      ImportsOfCall(store, e.call);
    }
  }

  /** An event resolves what it imports, or what a suspended call imported before. */
  lemma ResolvedByEvent(store: Store, e: Event, id: CaptureId)
    requires Possible(e) && !Resolved(store.rows, id) && Resolved(Happen(store, e).rows, id)
    ensures id in ImportedBy(store, e) || (e.Resolves? && e.id == id)
  {
    if e.Called? && Starts(store.rows, e.call) {
      var c, pending := e.call, Pending(store.rows, e.call.ids);
      PendingMembers(store.rows, c.ids);
      RowsAfter(store, c);
      ResolvedRows(store.rows, c.project, pending, c.outcomes, Successes(c.outcomes, |pending|));
    }
  }

  lemma ImportsOfCall(store: Store, c: Call)
    requires WellFormed(c) && Starts(store.rows, c)
    ensures |Pending(store.rows, c.ids)| <= |c.outcomes|
    ensures var after, pending := After(store, c), Pending(store.rows, c.ids);
            var k := Successes(c.outcomes, |pending|);
            && Captures(after.imports) == Captures(store.imports) + pending[..k]
            && (forall id :: id in pending[..k] ==> !Resolved(store.rows, id) && Resolved(after.rows, id))
  {
    var pending := Pending(store.rows, c.ids);
    PendingMembers(store.rows, c.ids);
    var k := Successes(c.outcomes, |pending|);
    RowsAfter(store, c);
    ImportsAfter(store, c);
    CapturesOfLog(store.imports, pending, c.outcomes, k);
    ResolvedRows(store.rows, c.project, pending, c.outcomes, k);
    forall id | id in pending[..k] ensures id in pending { }
  }

  lemma ImportsAfter(store: Store, c: Call)
    requires WellFormed(c) && Starts(store.rows, c)
    ensures |Pending(store.rows, c.ids)| <= |c.outcomes|
    ensures var pending := Pending(store.rows, c.ids);
            After(store, c).imports == store.imports + Log(pending, c.outcomes, Successes(c.outcomes, |pending|))
  {
    PendingMembers(store.rows, c.ids);
  }

  /** Over any run an imported capture is resolved or loose; and what is loose was imported. */
  lemma {:induction false} ImportedIsResolvedOrLoose(store: Store, events: seq<Event>)
    requires AllPossible(events) && AllImportsResolved(store)
    ensures var after := Run(store, events);
            && (forall id :: id in Captures(after.imports) ==> Resolved(after.rows, id) || id in Loose(events))
            && (forall id :: id in Loose(events) ==> id in Captures(after.imports))
  {
    if events != [] {
      var front, e := events[..|events| - 1], events[|events| - 1];
      var before := Run(store, front);
      ImportedIsResolvedOrLoose(store, front);
      ImportsOfEvent(before, e);
      LooseGrows(events);
      forall id | Resolved(before.rows, id) ensures Resolved(Happen(before, e).rows, id) {
        EventKeepsResolutions(before, e, id);
      }
    }
  }

  lemma LooseGrows(events: seq<Event>)
    requires events != []
    ensures var e := events[|events| - 1];
            Loose(events) == Loose(events[..|events| - 1]) + if e.Stores? then {e.id} else {}
  {
    var front, e := events[..|events| - 1], events[|events| - 1];
    assert events == front + [e];
    forall d | d in events ensures d in front || d == e { }
  }

  /** A capture that was open at some moment and is resolved now has been imported. */
  lemma {:induction false} ResolvedSinceIsImported(store: Store, events: seq<Event>, i: nat, id: CaptureId)
    requires AllPossible(events) && AllImportsResolved(store) && Begun(store, events) && i <= |events|
    requires !Resolved(Run(store, events[..i]).rows, id) && Resolved(Run(store, events).rows, id)
    ensures id in Captures(Run(store, events).imports)
  {
    assert events[..|events|] == events;
    if i < |events| {
      var front, e := events[..|events| - 1], events[|events| - 1];
      var before := Run(store, front);
      ImportsOfEvent(before, e);
      assert front[..i] == events[..i];
      if Resolved(before.rows, id) {
        BegunBefore(store, events);
        ResolvedSinceIsImported(store, front, i, id);
      } else {
        ResolvedByEvent(before, e, id);
        if e.Resolves? {
          assert HasBegun(store, events, |events| - 1);
          var d := Stores(id, e.product);
          assert d in front && d.Stores?;
          assert id in Loose(front) by { assert d.id == id; }
          ImportedIsResolvedOrLoose(store, front);
          assert id in Captures(before.imports);
        }
      }
    }
  }

  /**
   * The event imports a capture twice, or one that a suspended or stopped call has imported, or it is the import of a
   * suspended call whose capture has been resolved meanwhile.
   */
  predicate Repeats(store: Store, loose: set<CaptureId>, e: Event)
    requires Possible(e)
  {
    !Distinct(ImportedBy(store, e))
    || exists id :: id in ImportedBy(store, e) && (id in loose || Resolved(store.rows, id))
  }

  /** No event of the run repeats an import. */
  predicate NoneRepeats(store: Store, events: seq<Event>)
    requires AllPossible(events)
  {
    events == [] ||
    var front, e := events[..|events| - 1], events[|events| - 1];
    NoneRepeats(store, front) && !Repeats(Run(store, front), Loose(front), e)
  }

  lemma DistinctSum(a: seq<CaptureId>, b: seq<CaptureId>)
    ensures Distinct(a + b) <==> Distinct(a) && Distinct(b) && forall id :: id in b ==> id !in a
  {
    if Distinct(a) && Distinct(b) && forall id :: id in b ==> id !in a {
      forall i, j | 0 <= i < j < |a + b| ensures (a + b)[i] != (a + b)[j] {
        if i < |a| && |a| <= j { assert b[j - |a|] in b; }
      }
    }
    if Distinct(a + b) {
      forall i, j | 0 <= i < j < |a| ensures a[i] != a[j] { assert (a + b)[i] != (a + b)[j]; }
      forall i, j | 0 <= i < j < |b| ensures b[i] != b[j] { assert (a + b)[|a| + i] != (a + b)[|a| + j]; }
      forall i, j | 0 <= i < |a| && 0 <= j < |b| ensures a[i] != b[j] { assert (a + b)[i] != (a + b)[|a| + j]; }
    }
  }

  /** An event repeats an import exactly when it imports twice, or imports what was imported before. */
  lemma RepeatsExactly(store: Store, events: seq<Event>)
    requires AllPossible(events) && AllImportsResolved(store) && Begun(store, events) && events != []
    ensures var front, e := events[..|events| - 1], events[|events| - 1];
            var before := Run(store, front);
            Repeats(before, Loose(front), e)
            <==> !Distinct(ImportedBy(before, e))
                 || exists id :: id in ImportedBy(before, e) && id in Captures(before.imports)
  {
    var front, e := events[..|events| - 1], events[|events| - 1];
    var before := Run(store, front);
    ImportedIsResolvedOrLoose(store, front);
    ImportsOfEvent(before, e);
    if e.Stores? && Resolved(before.rows, e.id) {
      assert HasBegun(store, events, |front|);
      var i: nat :| i <= |front| && Open(Run(store, events[..i]).rows, e.id);
      assert front[..i] == events[..i];
      BegunBefore(store, events);
      ResolvedSinceIsImported(store, front, i, e.id);
    }
  }

  /**
   * Over any run, with failures, retries, stops and calls that overlap, each capture is imported at most once if and
   * only if no event imports one twice, or one that a suspended or stopped call has imported, and no suspended call
   * imports one that has been resolved since it looked.
   */
  lemma {:induction false} RunImportsOnce(store: Store, events: seq<Event>)
    requires AllPossible(events) && ImportedOnce(store) && AllImportsResolved(store) && Begun(store, events)
    ensures ImportedOnce(Run(store, events)) <==> NoneRepeats(store, events)
  {
    if events != [] {
      var front, e := events[..|events| - 1], events[|events| - 1];
      var before := Run(store, front);
      BegunBefore(store, events);
      RunImportsOnce(store, front);
      RepeatsExactly(store, events);
      ImportsOfEvent(before, e);
      DistinctSum(Captures(before.imports), ImportedBy(before, e));
    }
  }

  /** Whole calls without repeated ids import nothing twice, and resolve all they import. */
  lemma {:induction false} DistinctCallsImportOnce(store: Store, events: seq<Event>)
    requires AllPossible(events) && ImportedOnce(store) && AllImportsResolved(store)
    requires forall e :: e in events ==> e.Called? && Distinct(e.call.ids)
    ensures ImportedOnce(Run(store, events)) && AllImportsResolved(Run(store, events))
  {
    ImportedIsResolvedOrLoose(store, events);
    if events != [] {
      var front, e := events[..|events| - 1], events[|events| - 1];
      var before := Run(store, front);
      assert e in events;
      DistinctCallsImportOnce(store, front);
      ImportsOfEvent(before, e);
      PendingMembers(before.rows, e.call.ids);
      DistinctSum(Captures(before.imports), ImportedBy(before, e));
    }
  }

  /** The call imports its `n`-th pending capture. */
  predicate Reaches(store: Store, c: Call, n: nat)
    requires WellFormed(c)
  {
    Starts(store.rows, c) && |Pending(store.rows, c.ids)| <= |c.ids|
    && n < Successes(c.outcomes, |Pending(store.rows, c.ids)|)
  }

  /** The tables when the process stops in the `n`-th import, between the product and the resolution. */
  function StoppedIn(store: Store, c: Call, n: nat): Store
    requires WellFormed(c) && Reaches(store, c, n)
  {
    Happen(After(store, c.(outcomes := c.outcomes[n := None])),
        Stores(Pending(store.rows, c.ids)[n], c.outcomes[n].value))
  }

  /** After a stop the same request starts with the capture left, and imports it again unless that import fails. */
  lemma RetryAfterStopImportsAgain(store: Store, c: Call, n: nat, retry: Call)
    requires WellFormed(c) && WellFormed(retry) && Distinct(c.ids) && Reaches(store, c, n)
    requires retry.ids == c.ids && retry.project == c.project && retry.projectOk && retry.rootOk
    ensures var stopped := StoppedIn(store, c, n);
            && Starts(stopped.rows, retry) && Pending(stopped.rows, retry.ids) == Pending(store.rows, c.ids)[n..]
            && (Pending(store.rows, c.ids)[n] in ImportedBy(stopped, Called(retry)) <==> retry.outcomes[0].Some?)
            && (retry.outcomes[0].Some? ==> !ImportedOnce(After(stopped, retry)))
  {
    var cut, pending := c.(outcomes := c.outcomes[n := None]), Pending(store.rows, c.ids);
    var stopped := StoppedIn(store, c, n);
    CutSuccesses(c.outcomes, n, |pending|);
    RetryImportsOnlyTheRest(store, cut);
    assert stopped.rows == After(store, cut).rows;
    assert Pending(stopped.rows, retry.ids) == pending[n..];
    FirstSuccess(retry.outcomes, |pending| - n);
    var again := ImportedBy(stopped, Called(retry));
    ImportsOfEvent(stopped, Called(retry));
    if retry.outcomes[0].Some? {
      assert again[0] == pending[n];
      assert Captures(stopped.imports)[|stopped.imports| - 1] == pending[n];
      DistinctSum(Captures(stopped.imports), again);
    }
  }

  lemma {:induction false} CutSuccesses(outcomes: seq<Option<Product>>, n: nat, m: nat)
    requires m <= |outcomes| && n < Successes(outcomes, m)
    ensures Successes(outcomes[n := None], m) == n
  {
    if n < m - 1 { CutBefore(outcomes, n, n); StopsAt(outcomes[n := None], n, m); } else { CutBefore(outcomes, n, n); }
  }

  lemma {:induction false} CutBefore(outcomes: seq<Option<Product>>, n: nat, m: nat)
    requires m <= n < |outcomes| && forall i: nat :: i < m ==> outcomes[i].Some?
    ensures Successes(outcomes[n := None], m) == m
  {
    if m > 0 { CutBefore(outcomes, n, m - 1); }
  }

  lemma {:induction false} FirstSuccess(outcomes: seq<Option<Product>>, n: nat)
    requires 0 < n <= |outcomes|
    ensures Successes(outcomes, n) > 0 <==> outcomes[0].Some?
  {
    if n > 1 { FirstSuccess(outcomes, n - 1); }
  }

  /** An id given twice in one call is imported twice; the second product is reported but is nobody's back-link. */
  lemma RepeatedIdIsImportedTwice(store: Store, id: CaptureId, project: ProjectId, first: Product, second: Product)
    requires id in store.rows && !Resolved(store.rows, id) && first != second
    ensures var c := Call([id, id], project, true, true, [Some(first), Some(second)], true);
            var after := After(store, c);
            && after.imports == store.imports + [(id, first), (id, second)]
            && id in after.rows && after.rows[id].resolved == Some(Resolution(project, Some(first)))
  {
    var c := Call([id, id], project, true, true, [Some(first), Some(second)], true);
    var one := c.ids[..1];
    assert one == [id] && one[..0] == [];
    assert Pending(store.rows, one[..0]) == [];
    assert Pending(store.rows, one) == [id];
    assert Pending(store.rows, c.ids) == [id, id];
    assert Successes(c.outcomes, 0) == 0;
    assert Successes(c.outcomes, 1) == 1;
    assert Successes(c.outcomes, 2) == 2;
    var rows1 := ResolveAll(store.rows, project, [id, id], c.outcomes, 1);
    assert ResolveAll(store.rows, project, [id, id], c.outcomes, 0) == store.rows;
    assert rows1 == Resolve(store.rows, id, project, first);
    assert ResolveAll(store.rows, project, [id, id], c.outcomes, 2) == rows1;
  }

  /** Two calls that overlap both find the capture open and import it; the first to resolve it keeps the back-link. */
  lemma OverlappingCallsImportTwice(
    store: Store, id: CaptureId, project: ProjectId, first: Product, second: Product)
    requires Open(store.rows, id)
    ensures var events := [Stores(id, first), Resolves(id, project, first), Stores(id, second)];
            && AllPossible(events) && Begun(store, events) && !ImportedOnce(Run(store, events))
            && Happen(Run(store, events), Resolves(id, project, second)).rows == Run(store, events).rows
            && id in Run(store, events).rows
            && Run(store, events).rows[id].resolved == Some(Resolution(project, Some(first)))
  {
    var events := [Stores(id, first), Resolves(id, project, first), Stores(id, second)];
    var one, two := events[..1], events[..2];
    assert one == [events[0]] && one[..0] == [] && two[..1] == one && events[..2] == two && events[..0] == [];
    assert Run(store, one[..0]) == store;
    assert Run(store, one) == Happen(store, events[0]);
    assert Run(store, two) == Happen(Run(store, one), events[1]);
    assert Run(store, events) == Happen(Run(store, two), events[2]);
    assert Open(Run(store, events[..0]).rows, id);
    assert HasBegun(store, events, 0) && HasBegun(store, events, 2);
    assert HasBegun(store, events, 1) by { assert one[0] == Stores(id, first); }
    var n, imports := |store.imports|, Run(store, events).imports;
    assert imports == store.imports + [(id, first), (id, second)];
    assert Captures(imports)[n] == Captures(imports)[n + 1];
  }
}
