/**
 * Whole runs of curation patches: each operation id takes effect at most once, and the recorded changes of a
 * presentation chain its versions (apps/local-core/src/curation-command-service.ts,
 * apps/local-core/src/metadata-repository.ts).
 */
module CurationHistory {
  import opened Wrappers
  import P = PresentationPatch
  import opened CurationLedger

  // ---------- one call ----------

  /** Nothing but receipts changed. */
  predicate OnlyReceipts(before: Ledger, after: Ledger) { after == before.(receipts := after.receipts) }

  /** A call that is not a repeat: it is refused and leaves at most a receipt, or its whole plan is stored. */
  lemma ReplyTellsTheOutcome(ledger: Ledger, call: Call)
    requires WellFormed(call) && call.patch.operationId !in ledger.receipts
    ensures var (after, reply) := Apply(ledger, call);
            && (reply.Threw? ==> after == ledger)
            && (reply.Replied? ==>
               call.patch.operationId in after.receipts && after.receipts[call.patch.operationId] == reply.receipt)
            && (reply.Replied? && !reply.receipt.Applied() ==> OnlyReceipts(ledger, after))
            && (reply.Replied? && reply.receipt.Applied() ==>
                  EndsResolve(call) && after == Committed(ledger, call, Current(ledger, call), NextOf(ledger, call)))
  {
    if PatchValid(ledger, call) { ValidRelationsResolve(ledger, call); }
  }

  /** The row the call would give its presentation. */
  function NextOf(ledger: Ledger, call: Call): Option<View>
    requires WellFormed(call)
  {
    var current := Current(ledger, call);
    if current.Some? && PatchApplies(call, current.value) then Some(NextView(call, current.value)) else None
  }

  /** A call commits exactly when it is new, valid, its presentation patch applies, and no statement is refused. */
  lemma AppliedExactly(ledger: Ledger, call: Call)
    requires WellFormed(call) && call.patch.operationId !in ledger.receipts
    ensures var (_, reply) := Apply(ledger, call);
            reply.Replied? && reply.receipt.Applied() <==>
              && PatchValid(ledger, call) && EndsResolve(call)
              && (call.patch.presentation.Some? ==> PatchApplies(call, Current(ledger, call).value))
              && CompositeOk(ledger, call)
  {
    if PatchValid(ledger, call) { ValidRelationsResolve(ledger, call); }
  }

  /** The call is answered, and the answer says applied. */
  predicate SaysApplied(reply: Reply) { reply.Replied? && reply.receipt.Applied() }

  /** What an end of a relation stands for: the view drafted for the text of that reference, or the entity given. */
  ghost predicate StandsFor(call: Call, t: P.Target, id: string)
    requires WellFormed(call)
  {
    if t.clientRef.Some? then
      && (exists k :: 0 <= k < |call.patch.texts| && call.patch.texts[k].clientRef == t.clientRef)
      && (forall k :: 0 <= k < |call.patch.texts| && call.patch.texts[k].clientRef == t.clientRef ==>
            id == call.drafts[k].viewId)
    else t.entityId == Some(id)
  }

  /** The row is in the call's project and leads from what the `i`-th source stands for to what its target does. */
  ghost predicate IsTheRelation(call: Call, i: nat, row: Relation)
    requires WellFormed(call) && i < |call.patch.relations|
  {
    && row.projectId == call.projectId
    && StandsFor(call, call.patch.relations[i].source, row.sourceId)
    && StandsFor(call, call.patch.relations[i].target, row.targetId)
  }

  /** Every part of the call's plan is in the tables. */
  ghost predicate AllStored(ledger: Ledger, call: Call, after: Ledger)
    requires WellFormed(call) && EndsResolve(call)
  {
    && (forall d :: d in call.drafts ==> d.viewId in after.views && d.artifactId in after.artifacts)
    && (forall i: nat :: i < |call.relationIds| ==>
       call.relationIds[i] in after.relations && IsTheRelation(call, i, after.relations[call.relationIds[i]]))
    && (call.patch.presentation.Some? ==>
       PresentationStored(ledger, after, call.patch.presentation.value, Refs(call.patch.texts, call.drafts)))
    && call.patch.operationId in after.receipts && after.receipts[call.patch.operationId] == SuccessReceipt(call)
    && |after.changeSets| == |ledger.changeSets| + 1 && ledger.changeSets <= after.changeSets
    && after.changeSets[|ledger.changeSets|].operationId == call.patch.operationId
  }

  /** The presentation is one version further, in its patched state. */
  predicate PresentationStored(ledger: Ledger, after: Ledger, edit: PresentationEdit, refs: map<string, string>) {
    var id := edit.presentationId;
    && id in ledger.presentations && id in after.presentations
    && after.presentations[id].version == ledger.presentations[id].version + 1
    && P.Applicable(ledger.presentations[id].state, edit.patch, refs)
    && after.presentations[id].state == P.Patched(ledger.presentations[id].state, edit.patch, refs)
  }

  /**
   * A call that is not a repeat stores its whole plan or only a receipt. It stores the plan exactly when it is valid,
   * its presentation patch applies and no statement is refused; and exactly then the answer says applied.
   */
  lemma CommittedParts(ledger: Ledger, call: Call)
    requires WellFormed(call) && call.patch.operationId !in ledger.receipts
    requires forall x, y :: 0 <= x < y < |call.relationIds| ==> call.relationIds[x] != call.relationIds[y]
    ensures var (after, reply) := Apply(ledger, call);
            && (SaysApplied(reply) <==>
                  && PatchValid(ledger, call) && EndsResolve(call)
                  && (call.patch.presentation.Some? ==> PatchApplies(call, Current(ledger, call).value))
                  && CompositeOk(ledger, call))
            && (if SaysApplied(reply) then EndsResolve(call) && AllStored(ledger, call, after)
                else OnlyReceipts(ledger, after))
  {
    ReplyTellsTheOutcome(ledger, call);
    AppliedExactly(ledger, call);
    if SaysApplied(Apply(ledger, call).1) {
      forall i: nat | i < |call.relationIds|
        ensures var stored := PutRelations(ledger.relations, call.relationIds, PlannedRelations(call));
                call.relationIds[i] in stored && IsTheRelation(call, i, stored[call.relationIds[i]])
      {
        PutRelationsAt(ledger.relations, call.relationIds, PlannedRelations(call), i);
        PlannedIsTheRelation(call, i);
      }
    }
  }

  /** Rows the plan does not name are as they were. */
  lemma NothingElseIsStored(ledger: Ledger, call: Call)
    requires WellFormed(call) && call.patch.operationId !in ledger.receipts && SaysApplied(Apply(ledger, call).1)
    ensures var after := Apply(ledger, call).0;
            && after.scopes == ledger.scopes && after.entities == ledger.entities
            && (forall a :: a in after.artifacts <==>
                  a in ledger.artifacts || exists d :: d in call.drafts && d.artifactId == a)
            && (forall v :: v in after.views <==>
                  v in ledger.views || exists d :: d in call.drafts && d.viewId == v)
            && (forall r :: r in after.relations <==> r in ledger.relations || r in call.relationIds)
            && (forall r :: r in ledger.relations && r !in call.relationIds ==>
                  after.relations[r] == ledger.relations[r])
            && (forall op :: op in after.receipts <==> op in ledger.receipts || op == call.patch.operationId)
            && (forall op :: op in ledger.receipts ==> after.receipts[op] == ledger.receipts[op])
            && after.presentations.Keys == ledger.presentations.Keys
            && (forall p :: p in ledger.presentations && !Edits(call, p) ==>
                  after.presentations[p] == ledger.presentations[p])
            && (call.patch.presentation.Some? ==>
                  var edit := call.patch.presentation.value;
                  && edit.presentationId in ledger.presentations
                  && after.presentations[edit.presentationId].projectId
                     == ledger.presentations[edit.presentationId].projectId == call.projectId
                  && after.presentations[edit.presentationId].renderer
                     == if edit.setRenderer.Some? then edit.setRenderer.value
                        else ledger.presentations[edit.presentationId].renderer)
  {
    ReplyTellsTheOutcome(ledger, call);
    AppliedExactly(ledger, call);
    RelationKeys(ledger.relations, call.relationIds, PlannedRelations(call));
  }

  predicate Edits(call: Call, p: PresentationId) {
    call.patch.presentation.Some? && call.patch.presentation.value.presentationId == p
  }

  lemma {:induction false} RelationKeys(relations: map<string, Relation>, ids: seq<string>, rs: seq<Relation>)
    requires |ids| == |rs|
    ensures var after := PutRelations(relations, ids, rs);
            && (forall r :: r in after <==> r in relations || r in ids)
            && (forall r :: r in relations && r !in ids ==> after[r] == relations[r])
  {
    if ids != [] {
      RelationKeys(relations, ids[..|ids| - 1], rs[..|ids| - 1]);
      assert ids == ids[..|ids| - 1] + [ids[|ids| - 1]];
    }
  }

  /**
   * The change set of an applied call records the step of the presentation, if it edits one, then every relation, then
   * every text.
   */
  lemma RecordsOfACall(ledger: Ledger, call: Call, i: nat)
    requires WellFormed(call) && call.patch.operationId !in ledger.receipts && SaysApplied(Apply(ledger, call).1)
    ensures var after := Apply(ledger, call).0;
            var n, p := |ledger.changeSets|, if call.patch.presentation.Some? then 1 else 0;
            var texts, relations := |call.patch.texts|, |call.patch.relations|;
            && |after.changeSets| == n + 1 && after.changeSets[..n] == ledger.changeSets
            && after.changeSets[n].id == call.changeSetId && after.changeSets[n].projectId == call.projectId
            && after.changeSets[n].operationId == call.patch.operationId
            && |after.changeSets[n].changes| == p + relations + texts
            && (p == 1 ==> IsRecordOfEdit(ledger, after, call.patch.presentation.value, after.changeSets[n].changes[0]))
            && (i < relations ==> after.changeSets[n].changes[p + i] == RelationChange(call.relationIds[i]))
            && (i < texts ==> after.changeSets[n].changes[p + relations + i] == TextChange(call.drafts[i].artifactId))
  {
    RecordedSet(ledger, call);
    ShapeOfChanges(call, Current(ledger, call), NextOf(ledger, call), i);
  }

  /** The receipt of an applied call names its change set and lists the texts, the relations and the presentation. */
  lemma ReceiptOfACall(ledger: Ledger, call: Call, i: nat)
    requires WellFormed(call) && call.patch.operationId !in ledger.receipts && SaysApplied(Apply(ledger, call).1)
    ensures var receipt, p := Apply(ledger, call).1.receipt, if call.patch.presentation.Some? then 1 else 0;
            var texts, relations := |call.patch.texts|, |call.patch.relations|;
            && receipt.operationId == call.patch.operationId && receipt.failed == None
            && receipt.changeSetId == Some(call.changeSetId)
            && |receipt.steps| == texts + relations + p
            && (i < texts ==> receipt.steps[i] == TextStep(call.drafts[i].viewId))
            && (i < relations ==> receipt.steps[texts + i] == RelationStep(call.relationIds[i]))
            && (p == 1 ==> receipt.steps[texts + relations] == PresentationStep)
  {
    RecordedSet(ledger, call);
    ShapeOfSteps(call, i);
  }

  lemma RecordedSet(ledger: Ledger, call: Call)
    requires WellFormed(call) && call.patch.operationId !in ledger.receipts && SaysApplied(Apply(ledger, call).1)
    ensures var (after, reply) := Apply(ledger, call);
            var current, next := Current(ledger, call), NextOf(ledger, call);
            && after.changeSets == ledger.changeSets
                 + [ChangeSet(call.changeSetId, call.projectId, call.patch.operationId, Changes(call, current, next))]
            && reply.receipt == Receipt(call.patch.operationId, Steps(call), None, Some(call.changeSetId))
            && (call.patch.presentation.Some? ==>
                  var id := call.patch.presentation.value.presentationId;
                  && id in ledger.presentations && current == Some(ledger.presentations[id])
                  && id in after.presentations && next == Some(after.presentations[id]))
  {
    ReplyTellsTheOutcome(ledger, call);
    AppliedExactly(ledger, call);
  }

  lemma ShapeOfChanges(call: Call, current: Option<View>, next: Option<View>, i: nat)
    requires WellFormed(call)
    ensures var p := if current.Some? && next.Some? && call.patch.presentation.Some? then 1 else 0;
            var changes, relations, texts := Changes(call, current, next), |call.patch.relations|, |call.patch.texts|;
            && |changes| == p + relations + texts
            && (p == 1 ==> changes[0] == PresentationChange(call.patch.presentation.value.presentationId,
                 current.value.version, next.value.version, current.value.state, next.value.state))
            && (i < relations ==> changes[p + i] == RelationChange(call.relationIds[i]))
            && (i < texts ==> changes[p + relations + i] == TextChange(call.drafts[i].artifactId))
  {
  }

  lemma ShapeOfSteps(call: Call, i: nat)
    requires WellFormed(call)
    ensures var p := if call.patch.presentation.Some? then 1 else 0;
            var steps, texts, relations := Steps(call), |call.patch.texts|, |call.patch.relations|;
            && |steps| == texts + relations + p
            && (i < texts ==> steps[i] == TextStep(call.drafts[i].viewId))
            && (i < relations ==> steps[texts + i] == RelationStep(call.relationIds[i]))
            && (p == 1 ==> steps[texts + relations] == PresentationStep)
  {
  }

  /** The record of an edit has the versions and states of the presentation before and after. */
  predicate IsRecordOfEdit(ledger: Ledger, after: Ledger, edit: PresentationEdit, c: Change) {
    var id := edit.presentationId;
    && id in ledger.presentations && id in after.presentations
    && c == PresentationChange(id, ledger.presentations[id].version, after.presentations[id].version,
              ledger.presentations[id].state, after.presentations[id].state)
  }

  lemma PlannedIsTheRelation(call: Call, i: nat)
    requires WellFormed(call) && EndsResolve(call) && TextsValid(call.patch.texts) && i < |call.patch.relations|
    ensures IsTheRelation(call, i, PlannedRelations(call)[i])
  {
    assert call.patch.relations[i] in call.patch.relations;
    ResolvesToItsDraft(call, call.patch.relations[i].source);
    ResolvesToItsDraft(call, call.patch.relations[i].target);
  }

  lemma ResolvesToItsDraft(call: Call, t: P.Target)
    requires WellFormed(call) && TextsValid(call.patch.texts) && P.Resolves(t, Refs(call.patch.texts, call.drafts))
    ensures StandsFor(call, t, P.Resolve(t, Refs(call.patch.texts, call.drafts)).value)
  {
    var texts := call.patch.texts;
    if t.clientRef.Some? {
      assert Declared(texts, t.clientRef.value);
      forall k | 0 <= k < |texts| && texts[k].clientRef == t.clientRef
        ensures Refs(texts, call.drafts)[t.clientRef.value] == call.drafts[k].viewId
      {
        RefsAt(texts, call.drafts, k);
      }
    }
  }

  lemma {:induction false} RefsAt(texts: seq<Text>, drafts: seq<Draft>, k: nat)
    requires |texts| == |drafts| && TextsValid(texts) && k < |texts|
    ensures var ref := texts[k].clientRef.value;
            ref in Refs(texts, drafts) && Refs(texts, drafts)[ref] == drafts[k].viewId
  {
    var n := |texts| - 1;
    if k < n {
      assert texts[..n][k] == texts[k];
      RefsAt(texts[..n], drafts[..n], k);
    }
  }

  lemma {:induction false} PutRelationsAt(relations: map<string, Relation>, ids: seq<string>, rs: seq<Relation>, i: nat)
    requires |ids| == |rs| && i < |ids|
    requires forall x, y :: 0 <= x < y < |ids| ==> ids[x] != ids[y]
    ensures ids[i] in PutRelations(relations, ids, rs) && PutRelations(relations, ids, rs)[ids[i]] == rs[i]
  {
    if i < |ids| - 1 { PutRelationsAt(relations, ids[..|ids| - 1], rs[..|ids| - 1], i); }
  }

  // ---------- runs of whole calls ----------

  predicate AllWellFormed(calls: seq<Call>) { forall c :: c in calls ==> WellFormed(c) }

  /** The tables after the calls, one after the other. */
  function After(ledger: Ledger, calls: seq<Call>): Ledger
    requires AllWellFormed(calls)
  {
    if calls == [] then ledger else Apply(After(ledger, calls[..|calls| - 1]), calls[|calls| - 1]).0
  }

  /** A stored receipt is never replaced. */
  lemma {:induction false} ReceiptsStay(ledger: Ledger, calls: seq<Call>, op: OperationId)
    requires AllWellFormed(calls) && op in ledger.receipts
    ensures op in After(ledger, calls).receipts && After(ledger, calls).receipts[op] == ledger.receipts[op]
  {
    if calls != [] {
      var front, last := calls[..|calls| - 1], calls[|calls| - 1];
      ReceiptsStay(ledger, front, op);
      if last.patch.operationId !in After(ledger, front).receipts { ReplyTellsTheOutcome(After(ledger, front), last); }
    }
  }

  /** However many calls later, a repeat is answered with the first receipt and changes nothing. */
  lemma RepeatsGetTheFirstReceipt(ledger: Ledger, first: Call, calls: seq<Call>, again: Call)
    requires WellFormed(first) && AllWellFormed(calls) && WellFormed(again)
    requires again.patch.operationId == first.patch.operationId
    requires Apply(ledger, first).1.Replied?
    ensures var later := After(Apply(ledger, first).0, calls);
            Apply(later, again) == (later, Apply(ledger, first).1)
  {
    if first.patch.operationId !in ledger.receipts { ReplyTellsTheOutcome(ledger, first); }
    ReceiptsStay(Apply(ledger, first).0, calls, first.patch.operationId);
  }

  /** The operation has an applied receipt. */
  predicate HasApplied(ledger: Ledger, op: OperationId) { op in ledger.receipts && ledger.receipts[op].Applied() }

  /** A receipt says applied if and only if a change set of its operation is stored, and there is at most one. */
  ghost predicate ExactlyOnce(ledger: Ledger) {
    && (forall i, j :: 0 <= i < j < |ledger.changeSets| ==>
       ledger.changeSets[i].operationId != ledger.changeSets[j].operationId)
    && (forall i :: 0 <= i < |ledger.changeSets| ==>
          var c := ledger.changeSets[i];
          c.operationId in ledger.receipts && ledger.receipts[c.operationId].Applied()
          && ledger.receipts[c.operationId].changeSetId == Some(c.id))
    && (forall op :: HasApplied(ledger, op) ==>
          exists i :: 0 <= i < |ledger.changeSets| && ledger.changeSets[i].operationId == op)
  }

  lemma CallKeepsExactlyOnce(ledger: Ledger, call: Call)
    requires WellFormed(call) && ExactlyOnce(ledger)
    ensures ExactlyOnce(Apply(ledger, call).0)
  {
    if call.patch.operationId !in ledger.receipts {
      var after := Apply(ledger, call).0;
      NewCallChanges(ledger, call);
      if after.changeSets != ledger.changeSets {
        FirstCommitKeepsExactlyOnce(
          ledger, after, after.changeSets[|ledger.changeSets|], after.receipts[call.patch.operationId]);
      } else if after.receipts != ledger.receipts {
        FailureKeepsExactlyOnce(ledger, after, call.patch.operationId, after.receipts[call.patch.operationId]);
      } else {
        FailureKeepsExactlyOnce(ledger, after, call.patch.operationId, FailureReceipt(call, Validate));
      }
    }
  }

  /** A new call adds no change set and no applied receipt, or one of each. */
  lemma NewCallChanges(ledger: Ledger, call: Call)
    requires WellFormed(call) && call.patch.operationId !in ledger.receipts
    ensures var after, op := Apply(ledger, call).0, call.patch.operationId;
            || (after.changeSets == ledger.changeSets
                && (after.receipts == ledger.receipts
                    || exists r: Receipt :: !r.Applied() && after.receipts == ledger.receipts[op := r]))
            || (exists c: ChangeSet, r: Receipt :: c.operationId == op && r.Applied() && r.changeSetId == Some(c.id)
                  && after.changeSets == ledger.changeSets + [c] && after.receipts == ledger.receipts[op := r])
  {
    ReplyTellsTheOutcome(ledger, call);
    if PatchValid(ledger, call) { ValidRelationsResolve(ledger, call); }
  }

  lemma {:induction false} RunIsExactlyOnce(ledger: Ledger, calls: seq<Call>)
    requires AllWellFormed(calls) && ExactlyOnce(ledger)
    ensures ExactlyOnce(After(ledger, calls))
  {
    if calls != [] {
      RunIsExactlyOnce(ledger, calls[..|calls| - 1]);
      CallKeepsExactlyOnce(After(ledger, calls[..|calls| - 1]), calls[|calls| - 1]);
    }
  }

  // ---------- interleaved runs ----------

  /**
   * A call runs as one step; or its validation lies further back and this is the rest of it; or its transaction was
   * refused further back, which changed nothing, and this is its failed receipt, written after the staged files of
   * its texts have been removed.
   */
  datatype Event = Whole(call: Call) | Late(call: Call) | Deferred(call: Call)

  /** The event can be carried out. Nothing is said of what came earlier in the call: see `Validated`. */
  predicate Possible(e: Event) { WellFormed(e.call) && (e.Whole? || EndsResolve(e.call)) }

  function Happen(ledger: Ledger, e: Event): Ledger
    requires Possible(e)
  {
    match e
    case Whole(call) => Apply(ledger, call).0
    case Late(call) => Finish(ledger, call).0
    case Deferred(call) => Failed(ledger, call, Composite)
  }

  predicate AllPossible(events: seq<Event>) { forall e :: e in events ==> Possible(e) }

  function AfterEvents(ledger: Ledger, events: seq<Event>): Ledger
    requires AllPossible(events)
  {
    if events == [] then ledger else Happen(AfterEvents(ledger, events[..|events| - 1]), events[|events| - 1])
  }

  /** At this moment the call has no receipt yet and passes validation. */
  predicate Admitted(ledger: Ledger, call: Call) {
    call.patch.operationId !in ledger.receipts && PatchValid(ledger, call)
  }

  /** At this moment the transaction of the call is refused. */
  predicate Refused(ledger: Ledger, call: Call) {
    WellFormed(call) && EndsResolve(call)
    && Finish(ledger, call).1 == Replied(FailureReceipt(call, Composite))
  }

  /** A late call was admitted at some earlier moment; one whose receipt is deferred was refused in between. */
  ghost predicate HasBegun(ledger: Ledger, events: seq<Event>, k: nat)
    requires AllPossible(events) && k < |events|
  {
    match events[k]
    case Whole(_) => true
    case Late(call) => exists i: nat :: i <= k && Admitted(AfterEvents(ledger, events[..i]), call)
    case Deferred(call) =>
      exists i: nat, j: nat :: i <= j <= k
        && Admitted(AfterEvents(ledger, events[..i]), call) && Refused(AfterEvents(ledger, events[..j]), call)
  }

  /** Every event of the run is one that its call can have come to. */
  ghost predicate Validated(ledger: Ledger, events: seq<Event>)
    requires AllPossible(events)
  {
    forall k: nat :: k < |events| ==> HasBegun(ledger, events, k)
  }

  /** The recorded changes of one presentation, oldest first. */
  function ChangesIn(changes: seq<Change>, p: PresentationId): seq<Change> {
    if changes == [] then []
    else
      var last := changes[|changes| - 1];
      ChangesIn(changes[..|changes| - 1], p) + if last.PresentationChange? && last.presentationId == p then [last]
          else []
  }

  function ChangesOf(changeSets: seq<ChangeSet>, p: PresentationId): seq<Change> {
    if changeSets == [] then []
    else ChangesOf(changeSets[..|changeSets| - 1], p) + ChangesIn(changeSets[|changeSets| - 1].changes, p)
  }

  lemma {:induction false} ChangesInAppend(a: seq<Change>, b: seq<Change>, p: PresentationId)
    ensures ChangesIn(a + b, p) == ChangesIn(a, p) + ChangesIn(b, p)
  {
    if b == [] {
      assert a + b == a;
    } else {
      ChangesInAppend(a, b[..|b| - 1], p);
      assert (a + b)[..|a + b| - 1] == a + b[..|b| - 1];
    }
  }

  lemma {:induction false} NoPresentationChange(changes: seq<Change>, p: PresentationId)
    requires forall c :: c in changes ==> !c.PresentationChange?
    ensures ChangesIn(changes, p) == []
  {
    if changes != [] {
      assert changes[|changes| - 1] in changes;
      NoPresentationChange(changes[..|changes| - 1], p);
    }
  }

  /** A change set records its presentation's step, and no other presentation's. */
  lemma RecordedChange(call: Call, current: Option<View>, next: Option<View>, p: PresentationId)
    requires current.Some? && next.Some? ==> call.patch.presentation.Some?
    ensures ChangesIn(Changes(call, current, next), p) ==
            if current.Some? && next.Some? && call.patch.presentation.value.presentationId == p then
              [PresentationChange(p, current.value.version, next.value.version, current.value.state, next.value.state)]
            else []
  {
    var head, rest := PresentationRecord(call, current, next), OtherRecords(call);
    ChangesInAppend(head, rest, p);
    NoPresentationChange(rest, p);
    if head != [] { OneRecord(head[0], p); }
  }

  lemma OneRecord(c: Change, p: PresentationId)
    ensures ChangesIn([c], p) == if c.PresentationChange? && c.presentationId == p then [c] else []
  {
    assert [c][..0] == [];
  }

  /** What an event does to presentation `p`: nothing and no record, or one version further with a record of it. */
  ghost predicate OneStep(before: View, after: View, more: seq<Change>, p: PresentationId) {
    && after.projectId == before.projectId
    && (|| (more == [] && after == before)
        || (more == [PresentationChange(p, before.version, before.version + 1, before.state, after.state)]
            && after.version == before.version + 1))
  }

  lemma EventCommitsOrNot(ledger: Ledger, e: Event)
    requires Possible(e)
    ensures var after := Happen(ledger, e);
            || OnlyReceipts(ledger, after)
            || (EndsResolve(e.call) && (Current(ledger, e.call).Some? ==> NextOf(ledger, e.call).Some?)
                && after == Committed(ledger, e.call, Current(ledger, e.call), NextOf(ledger, e.call)))
  {
    if e.Whole? && PatchValid(ledger, e.call) { ValidRelationsResolve(ledger, e.call); }
  }

  lemma CommitIsOneStep(ledger: Ledger, call: Call, p: PresentationId) returns (more: seq<Change>)
    requires WellFormed(call) && EndsResolve(call) && p in ledger.presentations
    requires Current(ledger, call).Some? ==> NextOf(ledger, call).Some?
    ensures var after := Committed(ledger, call, Current(ledger, call), NextOf(ledger, call));
            && p in after.presentations
            && ChangesOf(after.changeSets, p) == ChangesOf(ledger.changeSets, p) + more
            && OneStep(ledger.presentations[p], after.presentations[p], more, p)
  {
    var current, next := Current(ledger, call), NextOf(ledger, call);
    var record := ChangeSet(call.changeSetId, call.projectId, call.patch.operationId, Changes(call, current, next));
    RecordedChange(call, current, next, p);
    more := ChangesIn(record.changes, p);
    assert (ledger.changeSets + [record])[..|ledger.changeSets|] == ledger.changeSets;
    assert ChangesOf(ledger.changeSets + [record], p) == ChangesOf(ledger.changeSets, p) + more;
  }

  lemma EventIsOneStep(ledger: Ledger, e: Event, p: PresentationId) returns (more: seq<Change>)
    requires Possible(e) && p in ledger.presentations
    ensures p in Happen(ledger, e).presentations
    ensures ChangesOf(Happen(ledger, e).changeSets, p) == ChangesOf(ledger.changeSets, p) + more
    ensures OneStep(ledger.presentations[p], Happen(ledger, e).presentations[p], more, p)
  {
    EventCommitsOrNot(ledger, e);
    if OnlyReceipts(ledger, Happen(ledger, e)) {
      more := [];
    } else {
      more := CommitIsOneStep(ledger, e.call, p);
    }
  }

  /** The records lead from version `v`, state `s` to the row `view` without a gap. */
  ghost predicate Chain(records: seq<Change>, v: nat, s: P.State, view: View) {
    && (forall i :: 0 <= i < |records| ==>
       records[i].PresentationChange? && records[i].afterVersion == records[i].beforeVersion + 1)
    && (forall i :: 0 <= i < |records| ==> records[i].beforeVersion == v + i)
    && (forall i :: 0 <= i < |records| - 1 ==> records[i].after == records[i + 1].before)
    && (if records == [] then view.version == v && view.state == s
        else
          records[0].before == s && records[|records| - 1].after == view.state
              && records[|records| - 1].afterVersion == view.version)
  }

  lemma ChainGrows(
    records: seq<Change>, v: nat, s: P.State, before: View, after: View, more: seq<Change>, p: PresentationId)
    requires Chain(records, v, s, before) && OneStep(before, after, more, p)
    ensures Chain(records + more, v, s, after)
  {
  }

  /**
   * In any run, interleaved or not, the records of a presentation form a gap-free chain from its first state to its
   * present one.
   */
  lemma {:induction false} RecordsFormAChain(ledger: Ledger, events: seq<Event>, p: PresentationId)
    requires AllPossible(events) && p in ledger.presentations && ChangesOf(ledger.changeSets, p) == []
    ensures p in AfterEvents(ledger, events).presentations
    ensures var after := AfterEvents(ledger, events);
            Chain(ChangesOf(after.changeSets, p), ledger.presentations[p].version, ledger.presentations[p].state,
                after.presentations[p])
  {
    if events != [] {
      var front := events[..|events| - 1];
      RecordsFormAChain(ledger, front, p);
      var before := AfterEvents(ledger, front);
      var more := EventIsOneStep(before, events[|events| - 1], p);
      ChainGrows(ChangesOf(before.changeSets, p), ledger.presentations[p].version, ledger.presentations[p].state,
                 before.presentations[p], AfterEvents(ledger, events).presentations[p], more, p);
    }
  }

  lemma {:induction false} RecordsOnlyGrow(ledger: Ledger, events: seq<Event>, k: nat, p: PresentationId)
    requires AllPossible(events) && k <= |events| && p in ledger.presentations
    ensures p in AfterEvents(ledger, events[..k]).presentations && p in AfterEvents(ledger, events).presentations
    ensures var then', now := AfterEvents(ledger, events[..k]), AfterEvents(ledger, events);
            && ChangesOf(then'.changeSets, p) <= ChangesOf(now.changeSets, p)
            && (|ChangesOf(then'.changeSets, p)| == |ChangesOf(now.changeSets, p)| ==>
               then'.presentations[p] == now.presentations[p])
  {
    if k == |events| {
      assert events[..k] == events;
      StaysThere(ledger, events, p);
    } else {
      var front := events[..|events| - 1];
      assert front[..k] == events[..k];
      RecordsOnlyGrow(ledger, front, k, p);
      var more := EventIsOneStep(AfterEvents(ledger, front), events[|events| - 1], p);
    }
  }

  lemma {:induction false} StaysThere(ledger: Ledger, events: seq<Event>, p: PresentationId)
    requires AllPossible(events) && p in ledger.presentations
    ensures p in AfterEvents(ledger, events).presentations
  {
    if events != [] {
      StaysThere(ledger, events[..|events| - 1], p);
      var more := EventIsOneStep(AfterEvents(ledger, events[..|events| - 1]), events[|events| - 1], p);
    }
  }

  /**
   * The inverse snapshots are the presentation's earlier states: after any part of a run, its state was the
   * snapshot of the first record made later, or is its state still.
   */
  lemma SnapshotsAreTheEarlierStates(ledger: Ledger, events: seq<Event>, k: nat, p: PresentationId)
    requires AllPossible(events) && k <= |events| && p in ledger.presentations && ChangesOf(ledger.changeSets, p) == []
    ensures p in AfterEvents(ledger, events[..k]).presentations && p in AfterEvents(ledger, events).presentations
    ensures var then', now := AfterEvents(ledger, events[..k]), AfterEvents(ledger, events);
            var m, records := |ChangesOf(then'.changeSets, p)|, ChangesOf(now.changeSets, p);
            if m < |records| then
              records[m].PresentationChange? && then'.presentations[p].state == records[m].before
                  && then'.presentations[p].version == records[m].beforeVersion
            else then'.presentations[p] == now.presentations[p]
  {
    RecordsFormAChain(ledger, events, p);
    RecordsFormAChain(ledger, events[..k], p);
    RecordsOnlyGrow(ledger, events, k, p);
  }

  // ---------- what suspension loses ----------

  /**
   * Once validated, a call commits against whatever version it then finds: the version it expected is not looked at
   * again.
   */
  lemma LateCallsIgnoreTheExpectedVersion(ledger: Ledger, call: Call, v: nat)
    requires WellFormed(call) && EndsResolve(call) && call.patch.presentation.Some?
    ensures var other :=
            call.(patch := call.patch.(presentation := Some(call.patch.presentation.value.(expectedVersion := v))));
            WellFormed(other) && EndsResolve(other) && Finish(ledger, other) == Finish(ledger, call)
  {
  }

  /** What the rest of a call leaves: nothing, a failed receipt, or one change set with its applied receipt. */
  lemma FinishOutcomes(ledger: Ledger, call: Call)
    requires WellFormed(call) && EndsResolve(call)
    ensures var (after, reply) := Finish(ledger, call);
            && (reply.Threw? ==> after == ledger)
            && (reply.Replied? ==>
                  reply.receipt.operationId == call.patch.operationId
                  && after.receipts == ledger.receipts[call.patch.operationId := reply.receipt])
            && (reply.Replied? && !reply.receipt.Applied() ==> OnlyReceipts(ledger, after))
            && (reply.Replied? && reply.receipt.Applied() ==>
                  reply.receipt.changeSetId == Some(call.changeSetId) && |after.changeSets| == |ledger.changeSets| + 1
                  && after.changeSets == ledger.changeSets + [after.changeSets[|ledger.changeSets|]]
                  && after.changeSets[|ledger.changeSets|].id == call.changeSetId
                  && after.changeSets[|ledger.changeSets|].operationId == call.patch.operationId)
  {
  }

  /** The event replaces an applied receipt. */
  predicate Overwrites(ledger: Ledger, e: Event)
    requires Possible(e)
  {
    match e
    case Whole(_) => false
    case Late(call) => HasApplied(ledger, call.patch.operationId) && !Finish(ledger, call).1.Threw?
    case Deferred(call) => HasApplied(ledger, call.patch.operationId)
  }

  /**
   * Exactly-once survives the rest of a call if and only if its operation has no applied receipt yet, or the call
   * throws.
   */
  lemma LateCallIsExactlyOnce(ledger: Ledger, call: Call)
    requires ExactlyOnce(ledger) && WellFormed(call) && EndsResolve(call)
    ensures ExactlyOnce(Finish(ledger, call).0)
            <==> !HasApplied(ledger, call.patch.operationId) || Finish(ledger, call).1.Threw?
  {
    FinishOutcomes(ledger, call);
    var (after, reply) := Finish(ledger, call);
    var op := call.patch.operationId;
    if !reply.Threw? {
      if HasApplied(ledger, op) {
        OverwritingBreaks(ledger, Late(call));
        BrokenIsNotExactlyOnce(after);
      } else if reply.receipt.Applied() {
        FirstCommitKeepsExactlyOnce(ledger, after, after.changeSets[|ledger.changeSets|], reply.receipt);
      } else {
        FailureKeepsExactlyOnce(ledger, after, op, reply.receipt);
      }
    }
  }

  /** A failed receipt that was held back keeps exactly-once if and only if no applied receipt came before it. */
  lemma DeferredReceiptIsExactlyOnce(ledger: Ledger, call: Call)
    requires ExactlyOnce(ledger) && WellFormed(call) && EndsResolve(call)
    ensures ExactlyOnce(Failed(ledger, call, Composite)) <==> !HasApplied(ledger, call.patch.operationId)
  {
    if HasApplied(ledger, call.patch.operationId) {
      OverwritingBreaks(ledger, Deferred(call));
      BrokenIsNotExactlyOnce(Failed(ledger, call, Composite));
    } else {
      FailureKeepsExactlyOnce(
        ledger, Failed(ledger, call, Composite), call.patch.operationId, FailureReceipt(call, Composite));
    }
  }

  /** A failed receipt where there was no applied one changes nothing about it. */
  lemma FailureKeepsExactlyOnce(ledger: Ledger, after: Ledger, op: OperationId, receipt: Receipt)
    requires ExactlyOnce(ledger) && !HasApplied(ledger, op) && !receipt.Applied()
    requires after.changeSets == ledger.changeSets
    requires after.receipts == ledger.receipts || after.receipts == ledger.receipts[op := receipt]
    ensures ExactlyOnce(after)
  {
    forall other | HasApplied(after, other)
      ensures exists i :: 0 <= i < |after.changeSets| && after.changeSets[i].operationId == other
    {
      assert HasApplied(ledger, other);
    }
  }

  /** A commit of an operation that has no applied receipt, though perhaps a failed one, adds the one change set. */
  lemma FirstCommitKeepsExactlyOnce(ledger: Ledger, after: Ledger, c: ChangeSet, receipt: Receipt)
    requires ExactlyOnce(ledger) && !HasApplied(ledger, c.operationId)
    requires after.changeSets == ledger.changeSets + [c] && after.receipts == ledger.receipts[c.operationId := receipt]
    requires receipt.Applied() && receipt.changeSetId == Some(c.id)
    ensures ExactlyOnce(after)
  {
    assert after.changeSets[|ledger.changeSets|] == c;
    forall op | HasApplied(after, op)
      ensures exists i :: 0 <= i < |after.changeSets| && after.changeSets[i].operationId == op
    {
      if op != c.operationId {
        assert HasApplied(ledger, op);
        var i :| 0 <= i < |ledger.changeSets| && ledger.changeSets[i].operationId == op;
        assert after.changeSets[i].operationId == op;
      }
    }
  }

  /** An operation is stored twice, or is stored but its receipt says it failed. */
  ghost predicate Broken(ledger: Ledger) {
    || (exists i, j ::
          0 <= i < j < |ledger.changeSets| && ledger.changeSets[i].operationId == ledger.changeSets[j].operationId)
    || (exists i :: 0 <= i < |ledger.changeSets| && IsStranded(ledger, i))
  }

  /** The change set's operation has a receipt, and the receipt says it failed. */
  predicate IsStranded(ledger: Ledger, i: nat)
    requires i < |ledger.changeSets|
  {
    var op := ledger.changeSets[i].operationId;
    op in ledger.receipts && !ledger.receipts[op].Applied()
  }

  lemma BrokenIsNotExactlyOnce(ledger: Ledger)
    requires Broken(ledger)
    ensures !ExactlyOnce(ledger)
  {
  }

  /** An event that overwrites stores its operation a second time, or leaves it stored without an applied receipt. */
  lemma OverwritingBreaks(ledger: Ledger, e: Event)
    requires ExactlyOnce(ledger) && Possible(e) && Overwrites(ledger, e)
    ensures var after, op := Happen(ledger, e), e.call.patch.operationId;
            && Broken(after)
            && (if e.Late? && Finish(ledger, e.call).1.receipt.Applied()
                then |after.changeSets| == |ledger.changeSets| + 1 && HasApplied(after, op)
                else OnlyReceipts(ledger, after) && !HasApplied(after, op))
  {
    var after, op := Happen(ledger, e), e.call.patch.operationId;
    if e.Late? { FinishOutcomes(ledger, e.call); }
    assert HasApplied(ledger, op);
    var i :| 0 <= i < |ledger.changeSets| && ledger.changeSets[i].operationId == op;
    assert after.changeSets[i] == ledger.changeSets[i];
    if HasApplied(after, op) {
      assert after.changeSets[i].operationId == after.changeSets[|ledger.changeSets|].operationId;
    } else {
      assert IsStranded(after, i);
    }
  }

  /** Nothing that happens later repairs it. */
  lemma BrokenStaysBroken(ledger: Ledger, e: Event)
    requires Possible(e) && Broken(ledger)
    ensures Broken(Happen(ledger, e))
  {
    var after := Happen(ledger, e);
    HappenOutcomes(ledger, e);
    if i, j :|
      0 <= i < j < |ledger.changeSets| && ledger.changeSets[i].operationId == ledger.changeSets[j].operationId
    {
      assert after.changeSets[i].operationId == after.changeSets[j].operationId;
    } else {
      var i :| 0 <= i < |ledger.changeSets| && IsStranded(ledger, i);
      if after.changeSets == ledger.changeSets {
        assert IsStranded(after, i);
      } else if ledger.changeSets[i].operationId == e.call.patch.operationId {
        assert after.changeSets[i].operationId == after.changeSets[|ledger.changeSets|].operationId;
      } else {
        assert IsStranded(after, i);
      }
    }
  }

  /** An event leaves all as it was, adds a failed receipt for its operation, or adds a change set of its operation. */
  lemma HappenOutcomes(ledger: Ledger, e: Event)
    requires Possible(e)
    ensures var after, op := Happen(ledger, e), e.call.patch.operationId;
            && ledger.changeSets <= after.changeSets && |after.changeSets| <= |ledger.changeSets| + 1
            && (after.changeSets == ledger.changeSets ==>
                  after.receipts == ledger.receipts
                  || exists r: Receipt :: !r.Applied() && after.receipts == ledger.receipts[op := r])
            && (after.changeSets != ledger.changeSets ==>
                  after.changeSets[|ledger.changeSets|].operationId == op
                  && op in after.receipts && after.receipts == ledger.receipts[op := after.receipts[op]])
            && (e.Whole? && op in ledger.receipts ==> after == ledger)
  {
    if e.Late? {
      FinishOutcomes(ledger, e.call);
    } else if e.Deferred? {
      assert !FailureReceipt(e.call, Composite).Applied();
    } else if e.call.patch.operationId !in ledger.receipts {
      NewCallChanges(ledger, e.call);
    }
  }

  /** No event of the run replaces an applied receipt. */
  predicate NoneOverwrites(ledger: Ledger, events: seq<Event>)
    requires AllPossible(events)
  {
    events == [] ||
    (NoneOverwrites(ledger, events[..|events| - 1])
     && !Overwrites(AfterEvents(ledger, events[..|events| - 1]), events[|events| - 1]))
  }

  /**
   * A run whose calls suspend between validation and transaction, and between a refused transaction and its receipt,
   * ends with every operation applied at most once and its receipt telling so if and only if no call resumed, without
   * throwing, after its operation had an applied receipt.
   */
  lemma {:induction false} InterleavedRunIsExactlyOnce(ledger: Ledger, events: seq<Event>)
    requires AllPossible(events) && ExactlyOnce(ledger)
    ensures ExactlyOnce(AfterEvents(ledger, events)) <==> NoneOverwrites(ledger, events)
    ensures NoneOverwrites(ledger, events) || Broken(AfterEvents(ledger, events))
  {
    if events != [] {
      var front, e := events[..|events| - 1], events[|events| - 1];
      var before := AfterEvents(ledger, front);
      assert e in events && Possible(e);
      InterleavedRunIsExactlyOnce(ledger, front);
      if !NoneOverwrites(ledger, front) {
        BrokenStaysBroken(before, e);
      } else if e.Whole? {
        CallKeepsExactlyOnce(before, e.call);
      } else {
        if e.Late? { LateCallIsExactlyOnce(before, e.call); } else { DeferredReceiptIsExactlyOnce(before, e.call); }
        if Overwrites(before, e) { OverwritingBreaks(before, e); }
      }
      if Broken(AfterEvents(ledger, events)) { BrokenIsNotExactlyOnce(AfterEvents(ledger, events)); }
    }
  }

  lemma TwoEvents(ledger: Ledger, first: Event, second: Event)
    requires Possible(first) && Possible(second)
    ensures AllPossible([first, second])
    ensures AfterEvents(ledger, [first, second]) == Happen(Happen(ledger, first), second)
    ensures NoneOverwrites(ledger, [first, second])
            <==> !Overwrites(ledger, first) && !Overwrites(Happen(ledger, first), second)
    ensures AfterEvents(ledger, [first, second][..0]) == ledger
  {
    var one, events := [first], [first, second];
    assert one[..0] == [] && events[..1] == one && events[..0] == [];
    assert AfterEvents(ledger, one[..0]) == ledger;
    assert AfterEvents(ledger, one) == Happen(ledger, first);
    assert NoneOverwrites(ledger, one[..0]);
    assert NoneOverwrites(ledger, one) <==> !Overwrites(ledger, first);
  }

  /**
   * Two calls of one operation are validated on the same tables and the first commits. Whatever they edit, the
   * operation is then applied exactly once if and only if the second throws.
   */
  lemma SuspendedRepeatsRunTwice(ledger: Ledger, a: Call, b: Call)
    requires ExactlyOnce(ledger) && WellFormed(a) && WellFormed(b) && a.patch.operationId == b.patch.operationId
    requires Admitted(ledger, a) && Admitted(ledger, b)
    requires EndsResolve(a) && Finish(ledger, a).1.Replied? && Finish(ledger, a).1.receipt.Applied()
    ensures EndsResolve(b) && AllPossible([Late(a), Late(b)]) && Validated(ledger, [Late(a), Late(b)])
    ensures ExactlyOnce(AfterEvents(ledger, [Late(a), Late(b)])) <==> Finish(Finish(ledger, a).0, b).1.Threw?
  {
    ValidRelationsResolve(ledger, b);
    var events := [Late(a), Late(b)];
    TwoEvents(ledger, Late(a), Late(b));
    assert Admitted(AfterEvents(ledger, events[..0]), a) && Admitted(AfterEvents(ledger, events[..0]), b);
    assert HasBegun(ledger, events, 0) && HasBegun(ledger, events, 1);
    FinishOutcomes(ledger, a);
    InterleavedRunIsExactlyOnce(ledger, events);
  }

  /**
   * A call is refused while its operation has no receipt, and another call of the operation runs before the refusal's
   * receipt is written. The operation is then applied exactly once if and only if that other call was not applied;
   * if it was, its receipt is lost.
   */
  lemma RefusalWaitsForAnother(ledger: Ledger, a: Call, e: Event)
    requires ExactlyOnce(ledger) && WellFormed(a) && Admitted(ledger, a) && Refused(ledger, a)
    requires Possible(e) && !e.Deferred? && (e.Late? ==> Admitted(ledger, e.call))
    requires e.call.patch.operationId == a.patch.operationId
    ensures AllPossible([e, Deferred(a)]) && Validated(ledger, [e, Deferred(a)])
    ensures var end := AfterEvents(ledger, [e, Deferred(a)]);
            && (ExactlyOnce(end) <==> !HasApplied(Happen(ledger, e), a.patch.operationId))
            && !HasApplied(end, a.patch.operationId)
  {
    var events := [e, Deferred(a)];
    TwoEvents(ledger, e, Deferred(a));
    assert Admitted(AfterEvents(ledger, events[..0]), a) && Refused(AfterEvents(ledger, events[..0]), a);
    assert HasBegun(ledger, events, 1);
    assert HasBegun(ledger, events, 0) by {
      if e.Late? { assert Admitted(AfterEvents(ledger, events[..0]), e.call); }
    }
    InterleavedRunIsExactlyOnce(ledger, events);
  }

  /** A call that creates one text, whose rows the database accepts or refuses. */
  function TextCall(project: ProjectId, scope: string, op: OperationId, id: ChangeSetId, accepted: bool): Call {
    Call(project, Patch(op, scope, [Text(Some("a"), "")], [], None),
        [Draft("artifact-" + id, "view-" + id, accepted)], [], id)
  }

  predicate CanCall(ledger: Ledger, project: ProjectId, scope: string, op: OperationId) {
    project in ledger.scopes && scope in ledger.scopes[project] && op !in ledger.receipts
  }

  lemma TextCallRuns(
    ledger: Ledger, project: ProjectId, scope: string, op: OperationId, id: ChangeSetId, accepted: bool)
    requires !ChangeSetIdTaken(ledger.changeSets, id)
    ensures var call := TextCall(project, scope, op, id, accepted);
            && WellFormed(call) && EndsResolve(call)
            && (if accepted then Finish(ledger, call).1 == Replied(SuccessReceipt(call)) else Refused(ledger, call))
            && (CanCall(ledger, project, scope, op) ==> Admitted(ledger, call))
            && (forall c :: c in Finish(ledger, call).0.changeSets ==> c in ledger.changeSets || c.id == id)
  {
    var call := TextCall(project, scope, op, id, accepted);
    assert call.drafts[0] in call.drafts && (CompositeOk(ledger, call) <==> accepted);
    assert !Blank("a") by { assert "a"[0] in "a"; }
  }

  /** There are such runs: both calls were validated, and the second commits the operation again. */
  lemma RepeatCommitsAgain(
    ledger: Ledger, project: ProjectId, scope: string, op: OperationId, first: ChangeSetId, second: ChangeSetId)
    requires ExactlyOnce(ledger) && CanCall(ledger, project, scope, op) && first != second
    requires !ChangeSetIdTaken(ledger.changeSets, first) && !ChangeSetIdTaken(ledger.changeSets, second)
    ensures var events :=
              [Late(TextCall(project, scope, op, first, true)), Late(TextCall(project, scope, op, second, true))];
            AllPossible(events) && Validated(ledger, events) && !ExactlyOnce(AfterEvents(ledger, events))
  {
    var a, b := TextCall(project, scope, op, first, true), TextCall(project, scope, op, second, true);
    TextCallRuns(ledger, project, scope, op, first, true);
    TextCallRuns(ledger, project, scope, op, second, true);
    TextCallRuns(Finish(ledger, a).0, project, scope, op, second, true);
    SuspendedRepeatsRunTwice(ledger, a, b);
  }

  /** And there are runs whose second call is refused and erases the receipt of the first. */
  lemma RefusedRepeatErasesTheReceipt(
    ledger: Ledger, project: ProjectId, scope: string, op: OperationId, first: ChangeSetId, second: ChangeSetId)
    requires ExactlyOnce(ledger) && CanCall(ledger, project, scope, op) && first != second
    requires !ChangeSetIdTaken(ledger.changeSets, first) && !ChangeSetIdTaken(ledger.changeSets, second)
    ensures var events :=
              [Late(TextCall(project, scope, op, first, true)), Late(TextCall(project, scope, op, second, false))];
            AllPossible(events) && Validated(ledger, events)
            && !ExactlyOnce(AfterEvents(ledger, events)) && !HasApplied(AfterEvents(ledger, events), op)
  {
    var a, c := TextCall(project, scope, op, first, true), TextCall(project, scope, op, second, false);
    TextCallRuns(ledger, project, scope, op, first, true);
    TextCallRuns(ledger, project, scope, op, second, false);
    TextCallRuns(Finish(ledger, a).0, project, scope, op, second, false);
    SuspendedRepeatsRunTwice(ledger, a, c);
    TwoEvents(ledger, Late(a), Late(c));
    FinishOutcomes(Finish(ledger, a).0, c);
  }

  /**
   * And runs in which the refusal came first, before there was any receipt: the other call, validated earlier or run
   * whole while the refused one removes its files, commits, and its receipt is then overwritten.
   */
  lemma DeferredRefusalErasesTheReceipt(
    ledger: Ledger, project: ProjectId, scope: string, op: OperationId, first: ChangeSetId, second: ChangeSetId,
    whole: bool)
    requires ExactlyOnce(ledger) && CanCall(ledger, project, scope, op)
    requires !ChangeSetIdTaken(ledger.changeSets, first) && !ChangeSetIdTaken(ledger.changeSets, second)
    ensures var b := TextCall(project, scope, op, second, true);
            var events := [if whole then Whole(b) else Late(b), Deferred(TextCall(project, scope, op, first, false))];
            AllPossible(events) && Validated(ledger, events)
            && !ExactlyOnce(AfterEvents(ledger, events)) && !HasApplied(AfterEvents(ledger, events), op)
  {
    var b := TextCall(project, scope, op, second, true);
    TextCallRuns(ledger, project, scope, op, first, false);
    TextCallRuns(ledger, project, scope, op, second, true);
    var e := if whole then Whole(b) else Late(b);
    assert HasApplied(Happen(ledger, e), op);
    RefusalWaitsForAnother(ledger, TextCall(project, scope, op, first, false), e);
  }

  /**
   * A lost update: two calls valid on the same tables, so both expecting the version stored there, both resume. If
   * the first commits, it leaves the next version; the second then commits too, on top of it, exactly when its patch
   * still applies and no statement is refused.
   */
  lemma SecondLateEditIsNotStale(ledger: Ledger, a: Call, b: Call)
    requires WellFormed(a) && WellFormed(b) && PatchValid(ledger, a) && PatchValid(ledger, b) && EndsResolve(a)
    requires EndsResolve(b)
    requires a.projectId == b.projectId && a.patch.presentation.Some? && b.patch.presentation.Some?
    requires a.patch.presentation.value.presentationId == b.patch.presentation.value.presentationId
    requires Finish(ledger, a).1.Replied? && Finish(ledger, a).1.receipt.Applied()
    ensures var id, v := a.patch.presentation.value.presentationId, a.patch.presentation.value.expectedVersion;
            var mid, (end, reply) := Finish(ledger, a).0, Finish(Finish(ledger, a).0, b);
            && b.patch.presentation.value.expectedVersion == v
            && id in mid.presentations && mid.presentations[id].version == v + 1
            && (reply.Replied? && reply.receipt.Applied() <==>
               PatchApplies(b, mid.presentations[id]) && CompositeOk(mid, b))
            && (reply.Replied? && reply.receipt.Applied() ==>
               id in end.presentations && end.presentations[id].version == v + 2)
  {
    var id := a.patch.presentation.value.presentationId;
    assert GetView(ledger, a.projectId, id).Some?;
    var mid := Finish(ledger, a).0;
    assert mid.presentations[id] == NextView(a, ledger.presentations[id]);
    assert GetView(mid, b.projectId, id) == Some(mid.presentations[id]);
  }

  // ---------- receipts of refusals ----------

  /**
   * The receipt of a refused call lists steps, though none was kept, if and only if the call passed validation, so
   * that its transaction was refused, and has anything to do.
   */
  lemma RefusedReceiptSteps(ledger: Ledger, call: Call)
    requires WellFormed(call) && call.patch.operationId !in ledger.receipts
    requires Apply(ledger, call).1.Replied? && !Apply(ledger, call).1.receipt.Applied()
    ensures var (after, reply) := Apply(ledger, call);
            && OnlyReceipts(ledger, after)
            && reply.receipt.failed == Some(if PatchValid(ledger, call) then Composite else Validate)
            && (reply.receipt.steps != [] <==>
                  PatchValid(ledger, call)
                  && (call.patch.texts != [] || call.patch.relations != [] || call.patch.presentation.Some?))
  {
    if PatchValid(ledger, call) { ValidRelationsResolve(ledger, call); }
    assert Steps(call) != [] <==> call.drafts != [] || call.relationIds != [] || call.patch.presentation.Some? by {
      assert |Steps(call)| == |call.drafts| + |call.relationIds| + if call.patch.presentation.Some? then 1 else 0;
    }
  }
}
