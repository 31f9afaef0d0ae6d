/**
 * Curation patches: validation, the composite transaction, receipts and change records
 * (apps/local-core/src/curation-command-service.ts `applyPatch`,
 * apps/local-core/src/metadata-repository.ts `runCurationMutation`).
 */
module CurationLedger {
  import opened Wrappers
  import P = PresentationPatch

  type ProjectId = string
  type PresentationId = string
  type OperationId = string
  type ChangeSetId = string

  // ---------- requests ----------

  datatype Text = Text(clientRef: Option<string>, body: string)
  datatype RelationSpec = RelationSpec(source: P.Target, target: P.Target)
  datatype PresentationEdit = PresentationEdit(
    presentationId: PresentationId, expectedVersion: nat, setRenderer: Option<string>, patch: P.Patch)
  datatype Patch = Patch(
    operationId: OperationId, scopeId: string,
    texts: seq<Text>, relations: seq<RelationSpec>, presentation: Option<PresentationEdit>)

  /** The rows staged for a created text; `rowsOk` says whether the database will take them. */
  datatype Draft = Draft(artifactId: string, viewId: string, rowsOk: bool)

  /** A request together with the staged drafts and random ids made for it. */
  datatype Call = Call(projectId: ProjectId, patch: Patch, drafts: seq<Draft>, relationIds: seq<string>,
      changeSetId: ChangeSetId)

  predicate WellFormed(call: Call) {
    |call.drafts| == |call.patch.texts| && |call.relationIds| == |call.patch.relations|
  }

  // ---------- tables ----------

  datatype View = View(projectId: ProjectId, renderer: string, state: P.State, version: nat)
  datatype Relation = Relation(projectId: ProjectId, sourceId: string, targetId: string)

  datatype Change =
    | PresentationChange(presentationId: PresentationId, beforeVersion: nat, afterVersion: nat, before: P.State,
        after: P.State)
    | RelationChange(relationId: string)
    | TextChange(artifactId: string)

  datatype ChangeSet = ChangeSet(id: ChangeSetId, projectId: ProjectId, operationId: OperationId, changes: seq<Change>)

  datatype Phase = Validate | Composite
  datatype Step = TextStep(viewId: string) | RelationStep(relationId: string) | PresentationStep
  datatype Receipt = Receipt(operationId: OperationId, steps: seq<Step>, failed: Option<Phase>,
      changeSetId: Option<ChangeSetId>) {
    predicate Applied() { failed.None? }
  }

  /** `changeSets` is in rowid order; `scopes` and `entities` are only read here. */
  datatype Ledger = Ledger(
    scopes: map<ProjectId, set<string>>,
    entities: map<P.EntityRef, ProjectId>,
    artifacts: set<string>,
    views: set<string>,
    relations: map<string, Relation>,
    presentations: map<PresentationId, View>,
    changeSets: seq<ChangeSet>,
    receipts: map<OperationId, Receipt>)

  /** `applyPatch` either answers with a receipt or throws. */
  datatype Reply = Replied(receipt: Receipt) | Threw

  // ---------- validation ----------

  predicate Blank(s: string) { forall c :: c in s ==> c in " \t\r\n" }

  /** Every text has a reference of its own. */
  predicate TextsValid(texts: seq<Text>) {
    && (forall i :: 0 <= i < |texts| ==> texts[i].clientRef.Some? && !Blank(texts[i].clientRef.value))
    && (forall i, j :: 0 <= i < j < |texts| ==> texts[i].clientRef != texts[j].clientRef)
  }

  predicate Declared(texts: seq<Text>, ref: string) {
    exists t :: t in texts && t.clientRef == Some(ref)
  }

  predicate ViewExists(ledger: Ledger, id: string) { id in ledger.views || id in ledger.artifacts }

  /** Relation and edge ends: a declared reference, or without one an existing entity. */
  predicate EndValid(ledger: Ledger, texts: seq<Text>, t: P.Target) {
    if t.clientRef.Some? then Declared(texts, t.clientRef.value)
    else t.entityId.Some? && ViewExists(ledger, t.entityId.value)
  }

  /** Members: a declared reference or an existing entity. */
  predicate MemberValid(ledger: Ledger, texts: seq<Text>, t: P.Target) {
    || (t.clientRef.Some? && Declared(texts, t.clientRef.value))
    || (t.entityId.Some? && ViewExists(ledger, t.entityId.value))
  }

  predicate EntityValid(ledger: Ledger, projectId: ProjectId, r: P.EntityRef) {
    r in ledger.entities && ledger.entities[r] == projectId
  }

  function GetView(ledger: Ledger, projectId: ProjectId, id: PresentationId): Option<View> {
    if id in ledger.presentations && ledger.presentations[id].projectId == projectId then Some(ledger.presentations[id])
    else None
  }

  predicate PresentationValid(ledger: Ledger, projectId: ProjectId, texts: seq<Text>, edit: PresentationEdit) {
    var current := GetView(ledger, projectId, edit.presentationId);
    && current.Some? && current.value.version == edit.expectedVersion
    && (forall t :: t in edit.patch.addMembers ==> MemberValid(ledger, texts, t))
    && (forall r :: r in edit.patch.addEntityMembers ==> EntityValid(ledger, projectId, r))
    && (forall e :: e in edit.patch.addEdges ==> EndValid(ledger, texts, e.source) && EndValid(ledger, texts, e.target))
  }

  predicate PatchValid(ledger: Ledger, call: Call) {
    var patch := call.patch;
    && call.projectId in ledger.scopes && patch.scopeId in ledger.scopes[call.projectId]
    && TextsValid(patch.texts)
    && (forall r :: r in patch.relations ==>
       EndValid(ledger, patch.texts, r.source) && EndValid(ledger, patch.texts, r.target))
    && (patch.presentation.Some? ==> PresentationValid(ledger, call.projectId, patch.texts, patch.presentation.value))
  }

  // ---------- the plan ----------

  /** `refToId`: each text's reference stands for the view drafted for it. */
  function Refs(texts: seq<Text>, drafts: seq<Draft>): (refs: map<string, string>)
    requires |texts| == |drafts|
    ensures forall r :: r in refs <==> Declared(texts, r)
  {
    if texts == [] then map[]
    else
      var k := |texts| - 1;
      var front := Refs(texts[..k], drafts[..k]);
      assert texts == texts[..k] + [texts[k]];
      if texts[k].clientRef.Some? then front[texts[k].clientRef.value := drafts[k].viewId] else front
  }

  /** After validation every relation end resolves. */
  predicate EndsResolve(call: Call)
    requires WellFormed(call)
  {
    forall r :: r in call.patch.relations ==>
      P.Resolves(r.source, Refs(call.patch.texts, call.drafts))
          && P.Resolves(r.target, Refs(call.patch.texts, call.drafts))
  }

  lemma ValidRelationsResolve(ledger: Ledger, call: Call)
    requires WellFormed(call) && PatchValid(ledger, call)
    ensures EndsResolve(call)
  {
    var refs := Refs(call.patch.texts, call.drafts);
    forall r | r in call.patch.relations ensures P.Resolves(r.source, refs) && P.Resolves(r.target, refs) {
      assert EndValid(ledger, call.patch.texts, r.source) && EndValid(ledger, call.patch.texts, r.target);
    }
  }

  function PlannedRelations(call: Call): (relations: seq<Relation>)
    requires WellFormed(call) && EndsResolve(call)
    ensures |relations| == |call.relationIds|
  {
    var refs, specs := Refs(call.patch.texts, call.drafts), call.patch.relations;
    seq(|specs|, (i: nat) requires i < |specs| =>
      assert specs[i] in specs;
      Relation(call.projectId, P.Resolve(specs[i].source, refs).value, P.Resolve(specs[i].target, refs).value))
  }

  /** The presentation's next row, from the row as it is now. */
  function NextView(call: Call, current: View): View
    requires WellFormed(call) && call.patch.presentation.Some?
    requires P.Applicable(current.state, call.patch.presentation.value.patch, Refs(call.patch.texts, call.drafts))
  {
    var edit := call.patch.presentation.value;
    View(current.projectId,
      if edit.setRenderer.Some? then edit.setRenderer.value else current.renderer,
      P.Patched(current.state, edit.patch, Refs(call.patch.texts, call.drafts)),
      current.version + 1)
  }

  /** The record of the presentation's step, from its row as found to its next row. */
  function PresentationRecord(call: Call, current: Option<View>, next: Option<View>): seq<Change> {
    if current.Some? && next.Some? && call.patch.presentation.Some? then
      [PresentationChange(call.patch.presentation.value.presentationId, current.value.version, next.value.version,
          current.value.state, next.value.state)]
    else []
  }

  /** The records of the other rows the plan writes. */
  function OtherRecords(call: Call): (records: seq<Change>)
    ensures forall c :: c in records ==> !c.PresentationChange?
  {
    seq(|call.relationIds|, (i: nat) requires i < |call.relationIds| => RelationChange(call.relationIds[i]))
    + seq(|call.drafts|, (i: nat) requires i < |call.drafts| => TextChange(call.drafts[i].artifactId))
  }

  function Changes(call: Call, current: Option<View>, next: Option<View>): seq<Change> {
    PresentationRecord(call, current, next) + OtherRecords(call)
  }

  function Steps(call: Call): seq<Step> {
    seq(|call.drafts|, (i: nat) requires i < |call.drafts| => TextStep(call.drafts[i].viewId))
    + seq(|call.relationIds|, (i: nat) requires i < |call.relationIds| => RelationStep(call.relationIds[i]))
    + if call.patch.presentation.Some? then [PresentationStep] else []
  }

  // ---------- the composite transaction ----------

  predicate TextsOk(drafts: seq<Draft>) { forall d :: d in drafts ==> d.rowsOk }

  function PutTexts(ledger: Ledger, drafts: seq<Draft>): Ledger {
    ledger.(artifacts := ledger.artifacts + (set d | d in drafts :: d.artifactId),
        views := ledger.views + (set d | d in drafts :: d.viewId))
  }

  predicate RelationOk(relations: map<string, Relation>, id: string, r: Relation) {
    id in relations ==> relations[id].projectId == r.projectId
  }

  function PutRelations(relations: map<string, Relation>, ids: seq<string>, rs: seq<Relation>): map<string, Relation>
    requires |ids| == |rs|
  {
    if ids == [] then relations
    else PutRelations(relations, ids[..|ids| - 1], rs[..|ids| - 1])[ids[|ids| - 1] := rs[|ids| - 1]]
  }

  predicate RelationsOk(relations: map<string, Relation>, ids: seq<string>, rs: seq<Relation>)
    requires |ids| == |rs|
  {
    ids == [] ||
    var k := |ids| - 1;
    RelationsOk(relations, ids[..k], rs[..k]) && RelationOk(PutRelations(relations, ids[..k], rs[..k]), ids[k], rs[k])
  }

  predicate ChangeSetIdTaken(changeSets: seq<ChangeSet>, id: ChangeSetId) {
    exists c :: c in changeSets && c.id == id
  }

  /** Every statement of the transaction is accepted. */
  predicate CompositeOk(ledger: Ledger, call: Call)
    requires WellFormed(call) && EndsResolve(call)
  {
    && TextsOk(call.drafts)
    && RelationsOk(ledger.relations, call.relationIds, PlannedRelations(call))
    && !ChangeSetIdTaken(ledger.changeSets, call.changeSetId)
  }

  function SuccessReceipt(call: Call): Receipt {
    Receipt(call.patch.operationId, Steps(call), None, Some(call.changeSetId))
  }

  /** The tables after the whole plan has been committed. */
  function Committed(ledger: Ledger, call: Call, current: Option<View>, next: Option<View>): Ledger
    requires WellFormed(call) && EndsResolve(call)
    requires current.Some? && next.Some? ==> call.patch.presentation.Some?
  {
    PutTexts(ledger, call.drafts).(
      relations := PutRelations(ledger.relations, call.relationIds, PlannedRelations(call)),
      presentations := if current.Some? && next.Some?
          then ledger.presentations[call.patch.presentation.value.presentationId := next.value]
          else ledger.presentations,
      changeSets := ledger.changeSets
          + [ChangeSet(call.changeSetId, call.projectId, call.patch.operationId, Changes(call, current, next))],
      receipts := ledger.receipts[call.patch.operationId := SuccessReceipt(call)])
  }

  /** A failure leaves a receipt and nothing else. */
  function Failed(ledger: Ledger, call: Call, phase: Phase): Ledger {
    ledger.(receipts := ledger.receipts[call.patch.operationId := FailureReceipt(call, phase)])
  }

  /** The steps of a refused transaction are listed in full, though none of them was kept. */
  function FailureReceipt(call: Call, phase: Phase): Receipt {
    Receipt(call.patch.operationId, if phase.Validate? then [] else Steps(call), Some(phase), None)
  }

  /** The presentation as the plan finds it, when the patch edits one. */
  function Current(ledger: Ledger, call: Call): Option<View> {
    if call.patch.presentation.Some? then GetView(ledger, call.projectId, call.patch.presentation.value.presentationId)
    else None
  }

  predicate PatchApplies(call: Call, current: View)
    requires WellFormed(call) && call.patch.presentation.Some?
  {
    P.Applicable(current.state, call.patch.presentation.value.patch, Refs(call.patch.texts, call.drafts))
  }

  /** The part of `applyPatch` after its first suspension: the plan is made from the tables as they are then. */
  function Finish(ledger: Ledger, call: Call): (Ledger, Reply)
    requires WellFormed(call) && EndsResolve(call)
  {
    var current := Current(ledger, call);
    if call.patch.presentation.Some? && current.None? then
      (Failed(ledger, call, Validate), Replied(FailureReceipt(call, Validate)))
    else if current.Some? && !PatchApplies(call, current.value) then
      (ledger, Threw)
    else if !CompositeOk(ledger, call) then
      (Failed(ledger, call, Composite), Replied(FailureReceipt(call, Composite)))
    else
      var next := if current.Some? then Some(NextView(call, current.value)) else None;
      (Committed(ledger, call, current, next), Replied(SuccessReceipt(call)))
  }

  /** `applyPatch` as one step. */
  function Apply(ledger: Ledger, call: Call): (Ledger, Reply)
    requires WellFormed(call)
  {
    if call.patch.operationId in ledger.receipts then
      (ledger, Replied(ledger.receipts[call.patch.operationId]))
    else if !PatchValid(ledger, call) then
      (Failed(ledger, call, Validate), Replied(FailureReceipt(call, Validate)))
    else
      ValidRelationsResolve(ledger, call);
      Finish(ledger, call)
  }

  // ---------- the service ----------

  class CurationCommandService {
    var ledger: Ledger
    /** `#receipts`, the cache in memory. */
    var receipts: map<OperationId, Receipt>

    /** The cache agrees with the table. It does between whole calls, as long as none was suspended. */
    ghost predicate Valid()
      reads this
    {
      Covered() && forall op :: op in receipts ==> receipts[op] == ledger.receipts[op]
    }

    /**
     * What is cached is stored. This holds under suspension too: the table is written first, no receipt is ever
     * removed from it, and then the cache is never asked.
     */
    ghost predicate Covered()
      reads this
    {
      forall op :: op in receipts ==> op in ledger.receipts
    }

    /** A new process: the cache starts empty. */
    constructor (ledger: Ledger)
      ensures Valid() && this.ledger == ledger
    {
      this.ledger := ledger;
      receipts := map[];
    }

    /** Collects the references of the texts. */
    method CheckTexts(texts: seq<Text>) returns (ok: bool, refs: set<string>)
      ensures ok == TextsValid(texts)
      ensures ok ==> forall r :: r in refs <==> Declared(texts, r)
    {
      refs := {};
      for i := 0 to |texts|
        invariant forall x :: 0 <= x < i ==> texts[x].clientRef.Some? && !Blank(texts[x].clientRef.value)
        invariant forall x, y :: 0 <= x < y < i ==> texts[x].clientRef != texts[y].clientRef
        invariant forall x :: 0 <= x < i ==> texts[x].clientRef.value in refs
        invariant forall r :: r in refs ==> exists x :: 0 <= x < i && texts[x].clientRef == Some(r)
      {
        if texts[i].clientRef.None? || Blank(texts[i].clientRef.value) { return false, refs; }
        var r := texts[i].clientRef.value;
        if r in refs { return false, refs; }
        refs := refs + {r};
        assert texts[i].clientRef == Some(r);
      }
      ok := true;
    }

    method CheckEnd(texts: seq<Text>, refs: set<string>, t: P.Target) returns (ok: bool)
      requires forall r :: r in refs <==> Declared(texts, r)
      ensures ok == EndValid(ledger, texts, t)
    {
      if t.clientRef.Some? { return t.clientRef.value in refs; }
      ok := t.entityId.Some? && (t.entityId.value in ledger.views || t.entityId.value in ledger.artifacts);
    }

    method CheckRelations(texts: seq<Text>, refs: set<string>, relations: seq<RelationSpec>) returns (ok: bool)
      requires forall r :: r in refs <==> Declared(texts, r)
      ensures ok == forall r :: r in relations ==>
              EndValid(ledger, texts, r.source) && EndValid(ledger, texts, r.target)
    {
      for i := 0 to |relations|
        invariant forall r :: r in relations[..i] ==>
               EndValid(ledger, texts, r.source) && EndValid(ledger, texts, r.target)
      {
        assert relations[i] in relations;
        ok := CheckEnd(texts, refs, relations[i].source);
        if !ok { return; }
        ok := CheckEnd(texts, refs, relations[i].target);
        if !ok { return; }
      }
      ok := true;
    }

    method CheckMembers(texts: seq<Text>, refs: set<string>, members: seq<P.Target>) returns (ok: bool)
      requires forall r :: r in refs <==> Declared(texts, r)
      ensures ok == forall t :: t in members ==> MemberValid(ledger, texts, t)
    {
      for i := 0 to |members|
        invariant forall t :: t in members[..i] ==> MemberValid(ledger, texts, t)
      {
        var t := members[i];
        assert t in members;
        var declared := t.clientRef.Some? && t.clientRef.value in refs;
        var exists' := t.entityId.Some? && (t.entityId.value in ledger.views || t.entityId.value in ledger.artifacts);
        if !declared && !exists' { return false; }
      }
      ok := true;
    }

    method CheckEntities(projectId: ProjectId, entities: seq<P.EntityRef>) returns (ok: bool)
      ensures ok == forall r :: r in entities ==> EntityValid(ledger, projectId, r)
    {
      for i := 0 to |entities|
        invariant forall r :: r in entities[..i] ==> EntityValid(ledger, projectId, r)
      {
        assert entities[i] in entities;
        if entities[i] !in ledger.entities || ledger.entities[entities[i]] != projectId { return false; }
      }
      ok := true;
    }

    method CheckEdges(texts: seq<Text>, refs: set<string>, edges: seq<P.EdgeSpec>) returns (ok: bool)
      requires forall r :: r in refs <==> Declared(texts, r)
      ensures ok == forall e :: e in edges ==> EndValid(ledger, texts, e.source) && EndValid(ledger, texts, e.target)
    {
      for i := 0 to |edges|
        invariant forall e :: e in edges[..i] ==> EndValid(ledger, texts, e.source) && EndValid(ledger, texts, e.target)
      {
        assert edges[i] in edges;
        var sourceOk := CheckEnd(texts, refs, edges[i].source);
        var targetOk := CheckEnd(texts, refs, edges[i].target);
        if !sourceOk || !targetOk { return false; }
      }
      ok := true;
    }

    method CheckPresentation(
      projectId: ProjectId, texts: seq<Text>, refs: set<string>, edit: PresentationEdit) returns (ok: bool)
      requires forall r :: r in refs <==> Declared(texts, r)
      ensures ok == PresentationValid(ledger, projectId, texts, edit)
    {
      var current := GetView(ledger, projectId, edit.presentationId);
      if current.None? || current.value.version != edit.expectedVersion { return false; }
      ok := CheckMembers(texts, refs, edit.patch.addMembers);
      if ok { ok := CheckEntities(projectId, edit.patch.addEntityMembers); }
      if ok { ok := CheckEdges(texts, refs, edit.patch.addEdges); }
    }

    /** Validation: it only reads. */
    method CheckPatch(call: Call) returns (ok: bool)
      ensures ok == PatchValid(ledger, call)
    {
      var patch := call.patch;
      if call.projectId !in ledger.scopes || patch.scopeId !in ledger.scopes[call.projectId] { return false; }
      var refs;
      ok, refs := CheckTexts(patch.texts);
      if ok { ok := CheckRelations(patch.texts, refs, patch.relations); }
      if ok && patch.presentation.Some? {
        ok := CheckPresentation(call.projectId, patch.texts, refs, patch.presentation.value);
      }
    }

    /** Stores a receipt, in the table and in the cache. */
    method Fail(call: Call, phase: Phase) returns (receipt: Receipt)
      modifies this
      ensures (old(Covered()) ==> Covered()) && (old(Valid()) ==> Valid())
      ensures ledger == Failed(old(ledger), call, phase) && receipt == FailureReceipt(call, phase)
    {
      receipt := Receipt(call.patch.operationId, if phase.Validate? then [] else Steps(call), Some(phase), None);
      ledger := ledger.(receipts := ledger.receipts[receipt.operationId := receipt]);
      receipts := receipts[receipt.operationId := receipt];
    }

    method InsertTexts(drafts: seq<Draft>) returns (ok: bool)
      modifies this`ledger
      ensures ok == TextsOk(drafts)
      ensures ok ==> ledger == PutTexts(old(ledger), drafts)
    {
      for i := 0 to |drafts|
        invariant TextsOk(drafts[..i])
        invariant ledger == PutTexts(old(ledger), drafts[..i])
      {
        assert drafts[i] in drafts;
        if !drafts[i].rowsOk { return false; }
        assert drafts[..i + 1] == drafts[..i] + [drafts[i]];
        ledger := ledger.(artifacts := ledger.artifacts + {drafts[i].artifactId},
            views := ledger.views + {drafts[i].viewId});
      }
      assert drafts[..|drafts|] == drafts;
      ok := true;
    }

    method UpsertRelations(ids: seq<string>, rs: seq<Relation>) returns (ok: bool)
      requires |ids| == |rs|
      modifies this`ledger
      ensures ok == RelationsOk(old(ledger).relations, ids, rs)
      ensures ok ==> ledger == old(ledger).(relations := PutRelations(old(ledger).relations, ids, rs))
    {
      for i := 0 to |ids|
        invariant RelationsOk(old(ledger).relations, ids[..i], rs[..i])
        invariant ledger == old(ledger).(relations := PutRelations(old(ledger).relations, ids[..i], rs[..i]))
      {
        assert ids[..i + 1][..i] == ids[..i] && rs[..i + 1][..i] == rs[..i];
        if ids[i] in ledger.relations && ledger.relations[ids[i]].projectId != rs[i].projectId {
          RefusedRelation(old(ledger).relations, ids, rs, i + 1);
          return false;
        }
        ledger := ledger.(relations := ledger.relations[ids[i] := rs[i]]);
      }
      assert ids[..|ids|] == ids && rs[..|rs|] == rs;
      ok := true;
    }

    /** `compareAndSwapPresentationView`. */
    method CompareAndSwap(
      projectId: ProjectId, id: PresentationId, value: View, expectedVersion: nat) returns (updated: bool)
      modifies this`ledger
      ensures updated == (GetView(old(ledger), projectId, id).Some?
              && old(ledger).presentations[id].version == expectedVersion)
      ensures ledger == if updated then
                          old(ledger).(presentations := old(ledger).presentations[
                            id := value.(projectId := projectId, version := expectedVersion + 1)])
                        else old(ledger)
    {
      if id !in ledger.presentations || ledger.presentations[id].projectId != projectId { return false; }
      if ledger.presentations[id].version != expectedVersion { return false; }
      var version := ledger.presentations[id].version + 1;
      var row := value.(projectId := projectId, version := version);
      ledger := ledger.(presentations := ledger.presentations[id := row]);
      updated := true;
    }

    method InsertChangeSet(c: ChangeSet) returns (ok: bool)
      modifies this`ledger
      ensures ok == !ChangeSetIdTaken(old(ledger).changeSets, c.id)
      ensures ledger == if ok then old(ledger).(changeSets := old(ledger).changeSets + [c]) else old(ledger)
    {
      ok := !ChangeSetIdTaken(ledger.changeSets, c.id);
      if ok { ledger := ledger.(changeSets := ledger.changeSets + [c]); }
    }

    /** `runCurationMutation`: all statements, or none. */
    method RunCurationMutation(call: Call, current: Option<View>, next: Option<View>) returns (ok: bool)
      requires WellFormed(call) && EndsResolve(call)
      requires current == Current(ledger, call)
      requires next == if current.None? then None else if PatchApplies(call, current.value)
              then Some(NextView(call, current.value)) else None
      requires current.Some? ==> next.Some?
      modifies this`ledger
      ensures ok == CompositeOk(old(ledger), call)
      ensures ledger == if ok then Committed(old(ledger), call, current, next) else old(ledger)
    {
      var saved := ledger;
      ok := InsertTexts(call.drafts);
      if ok { ok := UpsertRelations(call.relationIds, PlannedRelations(call)); }
      if ok && current.Some? {
        ok := CompareAndSwap(
          call.projectId, call.patch.presentation.value.presentationId, next.value, current.value.version);
      }
      if ok {
        ok := InsertChangeSet(
          ChangeSet(call.changeSetId, call.projectId, call.patch.operationId, Changes(call, current, next)));
      }
      if !ok {
        ledger := saved;
        return;
      }
      ledger := ledger.(receipts := ledger.receipts[call.patch.operationId := SuccessReceipt(call)]);
    }

    /** From the staging of the drafts on. */
    method FinishPatch(call: Call) returns (reply: Reply)
      requires WellFormed(call) && EndsResolve(call)
      modifies this
      ensures (old(Covered()) ==> Covered()) && (old(Valid()) ==> Valid())
      ensures (ledger, reply) == Finish(old(ledger), call)
    {
      var current := Current(ledger, call);
      var next := None;
      if call.patch.presentation.Some? {
        if current.None? {
          var gone := Fail(call, Validate);
          return Replied(gone);
        }
        var edit := call.patch.presentation.value;
        var patched := P.ApplyPresentationPatch(current.value.state, edit.patch, Refs(call.patch.texts, call.drafts));
        if patched.Err? { return Threw; }
        next := Some(View(current.value.projectId, if edit.setRenderer.Some? then edit.setRenderer.value
            else current.value.renderer,
                          patched.value, current.value.version + 1));
      }
      var ok := RunCurationMutation(call, current, next);
      if !ok {
        var refused := Fail(call, Composite);
        return Replied(refused);
      }
      receipts := receipts[call.patch.operationId := SuccessReceipt(call)];
      reply := Replied(SuccessReceipt(call));
    }

    /** `applyPatch`: a receipt in the table comes first, then one in the cache; if those are stored, it is `Apply`. */
    method ApplyPatch(call: Call) returns (reply: Reply)
      requires WellFormed(call)
      modifies this
      ensures old(Valid()) ==> Valid()
      ensures old(Covered()) ==> Covered() && (ledger, reply) == Apply(old(ledger), call)
      ensures (ledger, reply) ==
              if call.patch.operationId !in old(ledger).receipts && call.patch.operationId in old(receipts)
              then (old(ledger), Replied(old(receipts)[call.patch.operationId]))
              else Apply(old(ledger), call)
    {
      var op := call.patch.operationId;
      if op in ledger.receipts { return Replied(ledger.receipts[op]); }
      if op in receipts { return Replied(receipts[op]); }
      var ok := CheckPatch(call);
      if !ok {
        var refused := Fail(call, Validate);
        return Replied(refused);
      }
      ValidRelationsResolve(ledger, call);
      reply := FinishPatch(call);
    }
  }

  lemma {:induction false} RefusedRelation(
    relations: map<string, Relation>, ids: seq<string>, rs: seq<Relation>, n: nat)
    requires |ids| == |rs| && n <= |ids| && !RelationsOk(relations, ids[..n], rs[..n])
    ensures !RelationsOk(relations, ids, rs)
  {
    if n < |ids| {
      var k := |ids| - 1;
      assert ids[..k][..n] == ids[..n] && rs[..k][..n] == rs[..n];
      RefusedRelation(relations, ids[..k], rs[..k], n);
    } else {
      assert ids[..n] == ids && rs[..n] == rs;
    }
  }
}
