/**
 * Which views go into an agent's context pack, and at what cost
 * (`#attention`, `#composeContextPack` and `#content`, apps/local-core/src/attention-runtime-service.ts).
 *
 * View ids are numbers in the order `localeCompare` gives them. Evidence other than the
 * user's own selection, pins and locks (relations, presentations, recency, neighbourhood,
 * search) is an input in the order the service collects it.
 */
module ContextPack {
  import opened Wrappers
  import Lists

  type ViewId = nat

  datatype Kind = Markdown | Image | Presentation | Pdf | Other
  datatype Availability = Available | Missing | StaleFile

  /** A view of the graph. `text` is the readable content of its current file, if it has a text file. */
  datatype View = View(hasArtifact: bool, kind: Kind, availability: Availability, text: Option<string>)

  datatype WorkState = WorkState(selected: seq<ViewId>, pinned: seq<ViewId>, locked: seq<ViewId>, excluded: seq<ViewId>)

  datatype Source =
    | Selected | Pinned | Locked | ExplicitRelation | WorkflowRequirement | SameContext | SameCollection
    | SameScene | RecentDelta | SemanticRetrieval | SpatialNeighbourhood

  datatype Bucket = SelectedBucket | PinnedBucket | RelatedBucket | RetrievedBucket

  datatype Evidence = Evidence(viewId: ViewId, source: Source, strength: real)

  const MAX_RELATED := 14
  const MAX_RETRIEVAL := 8

  function BucketOf(source: Source): Bucket {
    match source
    case Selected => SelectedBucket
    case Pinned => PinnedBucket
    case Locked => PinnedBucket
    case SemanticRetrieval => RetrievedBucket
    case _ => RelatedBucket
  }

  function Precedence(source: Source): nat {
    match source
    case Selected => 100
    case Pinned => 95
    case Locked => 94
    case ExplicitRelation => 90
    case WorkflowRequirement => 86
    case SameContext => 82
    case SameCollection => 80
    case SameScene => 70
    case RecentDelta => 65
    case SemanticRetrieval => 60
    case SpatialNeighbourhood => 50
  }

  predicate IsMandatory(source: Source) { source.Selected? || source.Pinned? || source.Locked? }

  // ---------- collecting evidence ----------

  function Marked(ids: seq<ViewId>, source: Source, strength: real, skip: set<ViewId>): seq<Evidence> {
    if ids == [] then []
    else
      var rest := Marked(ids[..|ids| - 1], source, strength, skip);
      var id := ids[|ids| - 1];
      if id in skip then rest else rest + [Evidence(id, source, strength)]
  }

  function Elements(ids: seq<ViewId>): set<ViewId> { set id | id in ids }

  function Collected(state: WorkState, optional: seq<Evidence>): seq<Evidence> {
    var selected, pinned := Elements(state.selected), Elements(state.pinned);
    Marked(state.selected, Selected, 1.0, {})
    + Marked(state.pinned, Pinned, 0.98, selected)
    + Marked(state.locked, Locked, 0.97, selected + pinned)
    + optional
  }

  /** `add` drops evidence about views that do not exist or are excluded. */
  function Accepted(collected: seq<Evidence>, views: map<ViewId, View>, excluded: set<ViewId>): seq<Evidence> {
    if collected == [] then []
    else
      var rest := Accepted(collected[..|collected| - 1], views, excluded);
      var last := collected[|collected| - 1];
      if last.viewId in views && last.viewId !in excluded then rest + [last] else rest
  }

  /** The evidence about one view, in order. */
  function About(accepted: seq<Evidence>, id: ViewId): seq<Evidence> {
    if accepted == [] then []
    else
      var rest := About(accepted[..|accepted| - 1], id);
      if accepted[|accepted| - 1].viewId == id then rest + [accepted[|accepted| - 1]] else rest
  }

  /** The views with evidence, in order of their first piece. */
  function Mentioned(accepted: seq<Evidence>): (ids: seq<ViewId>)
    ensures forall id :: id in ids <==> exists e :: e in accepted && e.viewId == id
    ensures forall i, j :: 0 <= i < j < |ids| ==> ids[i] != ids[j]
  {
    if accepted == [] then []
    else
      var last := accepted[|accepted| - 1];
      var rest := Mentioned(accepted[..|accepted| - 1]);
      assert forall e :: e in accepted <==> e in accepted[..|accepted| - 1] || e == last;
      if last.viewId in rest then rest else rest + [last.viewId]
  }

  predicate Beats(a: Evidence, b: Evidence) {
    Precedence(a.source) > Precedence(b.source)
    || (Precedence(a.source) == Precedence(b.source) && a.strength > b.strength)
  }

  /** First of the best: highest precedence, then highest strength. */
  function Best(list: seq<Evidence>): (best: Evidence)
    requires list != []
    ensures best in list
    ensures forall e :: e in list ==> !Beats(e, best)
  {
    if |list| == 1 then list[0]
    else
      var front := list[..|list| - 1];
      var before, last := Best(front), list[|list| - 1];
      assert forall e :: e in list <==> e in front || e == last;
      if Beats(last, before) then last else before
  }

  function MaxStrength(list: seq<Evidence>): (strength: real)
    requires list != []
    ensures forall e :: e in list ==> e.strength <= strength
    ensures exists e :: e in list && e.strength == strength
  {
    if |list| == 1 then list[0].strength
    else
      var front := list[..|list| - 1];
      var before, last := MaxStrength(front), list[|list| - 1].strength;
      assert forall e :: e in list <==> e in front || e == list[|list| - 1];
      if last > before then last else before
  }

  lemma {:induction false} AboutMembers(accepted: seq<Evidence>, id: ViewId)
    ensures forall e :: e in About(accepted, id) <==> e in accepted && e.viewId == id
  {
    if accepted != [] {
      AboutMembers(accepted[..|accepted| - 1], id);
      assert forall e :: e in accepted <==> e in accepted[..|accepted| - 1] || e == accepted[|accepted| - 1];
    }
  }

  /** `choose`: the best piece of evidence about the view, at the strength of the strongest. */
  function Choose(accepted: seq<Evidence>, id: ViewId): Evidence
    requires About(accepted, id) != []
  {
    Best(About(accepted, id)).(strength := MaxStrength(About(accepted, id)))
  }

  function Resolved(accepted: seq<Evidence>, ids: seq<ViewId>): (resolved: seq<Evidence>)
    requires forall id :: id in ids ==> About(accepted, id) != []
    ensures |resolved| == |ids|
    ensures forall i :: 0 <= i < |ids| ==> resolved[i] == Choose(accepted, ids[i])
  {
    if ids == [] then [] else Resolved(accepted, ids[..|ids| - 1]) + [Choose(accepted, ids[|ids| - 1])]
  }

  // ---------- buckets ----------

  /** Stronger first, ties by view id. */
  predicate Before(a: Evidence, b: Evidence) {
    a.strength > b.strength || (a.strength == b.strength && a.viewId <= b.viewId)
  }

  function Insert(e: Evidence, sorted: seq<Evidence>): (r: seq<Evidence>)
    ensures multiset(r) == multiset(sorted) + multiset{e}
  {
    if sorted == [] then [e]
    else if Before(e, sorted[0]) then [e] + sorted
    else
      assert sorted == [sorted[0]] + sorted[1..];
      [sorted[0]] + Insert(e, sorted[1..])
  }

  function Sort(list: seq<Evidence>): (r: seq<Evidence>)
    ensures multiset(r) == multiset(list)
  {
    if list == [] then []
    else
      assert list == [list[0]] + list[1..];
      Insert(list[0], Sort(list[1..]))
  }

  function InBucket(resolved: seq<Evidence>, bucket: Bucket): seq<Evidence> {
    if resolved == [] then []
    else
      var rest := InBucket(resolved[..|resolved| - 1], bucket);
      var last := resolved[|resolved| - 1];
      if BucketOf(last.source) == bucket then rest + [last] else rest
  }

  function Take(list: seq<Evidence>, n: nat): seq<Evidence> { if |list| <= n then list else list[..n] }

  datatype Attention = Attention(selected: seq<Evidence>, pinned: seq<Evidence>, related: seq<Evidence>,
      retrieved: seq<Evidence>)

  function Bucketed(resolved: seq<Evidence>): Attention {
    Attention(
      Sort(InBucket(resolved, SelectedBucket)),
      Sort(InBucket(resolved, PinnedBucket)),
      Take(Sort(InBucket(resolved, RelatedBucket)), MAX_RELATED),
      Take(Sort(InBucket(resolved, RetrievedBucket)), MAX_RETRIEVAL))
  }

  lemma MentionedHaveEvidence(accepted: seq<Evidence>)
    ensures forall id :: id in Mentioned(accepted) ==> About(accepted, id) != []
  {
    forall id | id in Mentioned(accepted) ensures About(accepted, id) != [] {
      AboutMembers(accepted, id);
      var e :| e in accepted && e.viewId == id;
      assert e in About(accepted, id);
    }
  }

  function ResolvedOf(views: map<ViewId, View>, state: WorkState, optional: seq<Evidence>): seq<Evidence> {
    var accepted := Accepted(Collected(state, optional), views, Elements(state.excluded));
    MentionedHaveEvidence(accepted);
    Resolved(accepted, Mentioned(accepted))
  }

  function AttentionOf(views: map<ViewId, View>, state: WorkState, optional: seq<Evidence>): Attention {
    Bucketed(ResolvedOf(views, state, optional))
  }

  // ---------- what the buckets hold ----------

  ghost predicate DistinctViews(list: seq<Evidence>) {
    forall i, j :: 0 <= i < j < |list| ==> list[i].viewId != list[j].viewId
  }

  /** The user put the view into the working set, it exists and it is not excluded. */
  predicate Wanted(views: map<ViewId, View>, state: WorkState, id: ViewId) {
    && id in views && id !in state.excluded
    && (id in state.selected || id in state.pinned || id in state.locked)
  }

  ghost predicate OnlyOptional(optional: seq<Evidence>) {
    forall e :: e in optional ==> !IsMandatory(e.source)
  }

  lemma {:induction false} MarkedMembers(ids: seq<ViewId>, source: Source, strength: real, skip: set<ViewId>)
    ensures forall e :: e in Marked(ids, source, strength, skip) <==>
            e.viewId in ids && e.viewId !in skip && e == Evidence(e.viewId, source, strength)
  {
    if ids != [] {
      MarkedMembers(ids[..|ids| - 1], source, strength, skip);
      assert forall id :: id in ids <==> id in ids[..|ids| - 1] || id == ids[|ids| - 1];
    }
  }

  lemma {:induction false} AcceptedMembers(collected: seq<Evidence>, views: map<ViewId, View>, excluded: set<ViewId>)
    ensures forall e :: e in Accepted(collected, views, excluded) <==>
            e in collected && e.viewId in views && e.viewId !in excluded
  {
    if collected != [] {
      AcceptedMembers(collected[..|collected| - 1], views, excluded);
      assert forall e :: e in collected <==> e in collected[..|collected| - 1] || e == collected[|collected| - 1];
    }
  }

  /** Mandatory evidence is accepted exactly about wanted views, one source per view. */
  lemma MandatoryEvidence(views: map<ViewId, View>, state: WorkState, optional: seq<Evidence>, e: Evidence)
    requires OnlyOptional(optional) && IsMandatory(e.source)
    ensures e in Accepted(Collected(state, optional), views, Elements(state.excluded)) <==>
              && Wanted(views, state, e.viewId)
              && e == (if e.viewId in state.selected then Evidence(e.viewId, Selected, 1.0)
                       else if e.viewId in state.pinned then Evidence(e.viewId, Pinned, 0.98)
                       else Evidence(e.viewId, Locked, 0.97))
  {
    var selected, pinned := Elements(state.selected), Elements(state.pinned);
    AcceptedMembers(Collected(state, optional), views, Elements(state.excluded));
    MarkedMembers(state.selected, Selected, 1.0, {});
    MarkedMembers(state.pinned, Pinned, 0.98, selected);
    MarkedMembers(state.locked, Locked, 0.97, selected + pinned);
  }

  /**
   * A view resolves to a mandatory source exactly if it is wanted, and to the user's selection exactly if it is
   * selected.
   */
  lemma ChosenSource(views: map<ViewId, View>, state: WorkState, optional: seq<Evidence>, id: ViewId)
    requires OnlyOptional(optional)
    requires About(Accepted(Collected(state, optional), views, Elements(state.excluded)), id) != []
    ensures var chosen := Choose(Accepted(Collected(state, optional), views, Elements(state.excluded)), id);
            && chosen.viewId == id
            && (IsMandatory(chosen.source) <==> Wanted(views, state, id))
            && (chosen.source.Selected? <==> id in state.selected)
  {
    var accepted := Accepted(Collected(state, optional), views, Elements(state.excluded));
    AboutMembers(accepted, id);
    var best := Best(About(accepted, id));
    if IsMandatory(best.source) { MandatoryEvidence(views, state, optional, best); }
    AcceptedMembers(Collected(state, optional), views, Elements(state.excluded));
    if id in state.selected || Wanted(views, state, id) {
      var own := if id in state.selected then Evidence(id, Selected, 1.0)
                 else if id in state.pinned then Evidence(id, Pinned, 0.98)
                 else Evidence(id, Locked, 0.97);
      assert id in views && id !in state.excluded;
      MandatoryEvidence(views, state, optional, own);
      assert own in About(accepted, id) && !Beats(own, best);
    }
  }

  lemma {:induction false} InBucketMembers(resolved: seq<Evidence>, bucket: Bucket)
    ensures forall e :: e in InBucket(resolved, bucket) <==> e in resolved && BucketOf(e.source) == bucket
    ensures DistinctViews(resolved) ==> DistinctViews(InBucket(resolved, bucket))
  {
    if resolved != [] {
      var front, last := resolved[..|resolved| - 1], resolved[|resolved| - 1];
      InBucketMembers(front, bucket);
      assert forall e :: e in resolved <==> e in front || e == last;
      if DistinctViews(resolved) {
        var rest := InBucket(front, bucket);
        forall i | 0 <= i < |rest| ensures rest[i].viewId != last.viewId { assert rest[i] in front; }
      }
    }
  }

  lemma SortMembers(list: seq<Evidence>, e: Evidence)
    ensures e in Sort(list) <==> e in list
  {
    assert e in Sort(list) <==> e in multiset(Sort(list));
    assert e in list <==> e in multiset(list);
  }

  lemma {:induction false} InsertKeepsDistinct(e: Evidence, sorted: seq<Evidence>)
    requires DistinctViews(sorted) && forall x :: x in sorted ==> x.viewId != e.viewId
    ensures DistinctViews(Insert(e, sorted))
  {
    if sorted != [] && !Before(e, sorted[0]) {
      InsertKeepsDistinct(e, sorted[1..]);
      var rest := Insert(e, sorted[1..]);
      forall i | 0 <= i < |rest| ensures rest[i].viewId != sorted[0].viewId {
        assert rest[i] in multiset(rest);
        assert rest[i] == e || rest[i] in sorted[1..];
      }
    }
  }

  lemma {:induction false} SortKeepsDistinct(list: seq<Evidence>)
    requires DistinctViews(list)
    ensures DistinctViews(Sort(list))
  {
    if list != [] {
      SortKeepsDistinct(list[1..]);
      forall x | x in Sort(list[1..]) ensures x.viewId != list[0].viewId {
        SortMembers(list[1..], x);
      }
      InsertKeepsDistinct(list[0], Sort(list[1..]));
    }
  }

  // ---------- the order of the buckets, and what is cut ----------

  /** Strengths never increase along the list, and of equal ones the smaller view id comes first. */
  ghost predicate StrongestFirst(list: seq<Evidence>) {
    forall i, j :: 0 <= i < j < |list| ==> NotBehind(list[i], list[j])
  }

  predicate NotBehind(a: Evidence, b: Evidence) {
    a.strength >= b.strength && (a.strength == b.strength ==> a.viewId <= b.viewId)
  }

  lemma {:induction false} InsertIsStrongestFirst(e: Evidence, sorted: seq<Evidence>)
    requires StrongestFirst(sorted)
    ensures StrongestFirst(Insert(e, sorted))
  {
    if sorted != [] {
      var rest := Insert(e, sorted[1..]);
      if Before(e, sorted[0]) {
        forall j | 0 <= j < |sorted| ensures NotBehind(e, sorted[j]) { assert NotBehind(e, sorted[0]); }
      } else {
        InsertIsStrongestFirst(e, sorted[1..]);
        forall j | 0 <= j < |rest| ensures NotBehind(sorted[0], rest[j]) {
          assert rest[j] in multiset(rest);
          assert rest[j] == e || rest[j] in sorted[1..];
        }
      }
    }
  }

  lemma {:induction false} SortIsStrongestFirst(list: seq<Evidence>)
    ensures StrongestFirst(Sort(list)) && |Sort(list)| == |list|
  {
    assert |multiset(Sort(list))| == |multiset(list)|;
    if list != [] {
      SortIsStrongestFirst(list[1..]);
      InsertIsStrongestFirst(list[0], Sort(list[1..]));
    }
  }

  /** The pieces of one kind, as a set. */
  ghost function OfKind(resolved: seq<Evidence>, kind: Bucket): set<Evidence> {
    set e | e in resolved && BucketOf(e.source) == kind
  }

  lemma {:induction false} SizeOfDistinct(list: seq<Evidence>)
    requires DistinctViews(list)
    ensures |list| == |set e | e in list|
  {
    if list != [] {
      var front, last := list[..|list| - 1], list[|list| - 1];
      SizeOfDistinct(front);
      assert forall i :: 0 <= i < |front| ==> front[i].viewId != last.viewId;
      assert (set e | e in list) == (set e | e in front) + {last};
    }
  }

  lemma BucketSize(resolved: seq<Evidence>, kind: Bucket)
    requires DistinctViews(resolved)
    ensures |InBucket(resolved, kind)| == |OfKind(resolved, kind)|
  {
    InBucketMembers(resolved, kind);
    SizeOfDistinct(InBucket(resolved, kind));
    assert OfKind(resolved, kind) == set e | e in InBucket(resolved, kind);
  }

  /** `kept` holds the strongest `cap` pieces of `all`, or all of them if there are no more, strongest first. */
  ghost predicate HoldsTheStrongest(kept: seq<Evidence>, all: set<Evidence>, cap: nat) {
    && StrongestFirst(kept) && DistinctViews(kept)
    && (forall e :: e in kept ==> e in all)
    && |kept| == (if |all| <= cap then |all| else cap)
    && (forall e, k :: e in all && e !in kept && k in kept ==> NotBehind(k, e))
  }

  lemma BucketHoldsTheStrongest(resolved: seq<Evidence>, kind: Bucket, cap: nat)
    requires DistinctViews(resolved)
    ensures HoldsTheStrongest(Take(Sort(InBucket(resolved, kind)), cap), OfKind(resolved, kind), cap)
    ensures StrongestFirst(Sort(InBucket(resolved, kind)))
  {
    var sorted := Sort(InBucket(resolved, kind));
    SortIsStrongestFirst(InBucket(resolved, kind));
    BucketSize(resolved, kind);
    BucketMembers(resolved, kind, cap);
    LeftOutIsBehind(sorted, cap);
  }

  lemma LeftOutIsBehind(sorted: seq<Evidence>, cap: nat)
    requires StrongestFirst(sorted)
    ensures StrongestFirst(Take(sorted, cap))
    ensures forall e, k :: e in sorted && e !in Take(sorted, cap) && k in Take(sorted, cap) ==> NotBehind(k, e)
  {
    var kept := Take(sorted, cap);
    forall e, k | e in sorted && e !in kept && k in kept ensures NotBehind(k, e) {
      var i :| 0 <= i < |kept| && kept[i] == k;
      assert sorted == kept + sorted[|kept|..] && e in sorted[|kept|..];
      var j :| 0 <= j < |sorted[|kept|..]| && sorted[|kept|..][j] == e;
      assert sorted[|kept| + j] == e && sorted[i] == k;
    }
  }

  lemma BucketMembers(resolved: seq<Evidence>, kind: Bucket, cap: nat)
    requires DistinctViews(resolved)
    ensures var sorted := Sort(InBucket(resolved, kind));
            && (forall e :: e in sorted <==> e in OfKind(resolved, kind)) && DistinctViews(sorted)
            && DistinctViews(Take(sorted, cap)) && forall e :: e in Take(sorted, cap) ==> e in sorted
  {
    var list := InBucket(resolved, kind);
    InBucketMembers(resolved, kind);
    SortKeepsDistinct(list);
    forall e: Evidence ensures e in Sort(list) <==> e in OfKind(resolved, kind) { SortMembers(list, e); }
    TakeMembers(Sort(list), cap);
  }

  /** Which evidence goes where. */
  lemma KindsOfSources(e: Evidence, resolved: seq<Evidence>)
    requires e in resolved
    ensures e in OfKind(resolved, SelectedBucket) <==> e.source == Selected
    ensures e in OfKind(resolved, PinnedBucket) <==> e.source in {Pinned, Locked}
    ensures e in OfKind(resolved, RetrievedBucket) <==> e.source == SemanticRetrieval
    ensures e in OfKind(resolved, RelatedBucket) <==> e.source !in {Selected, Pinned, Locked, SemanticRetrieval}
  {
  }

  /**
   * The selected and the pinned or locked pieces are all there, the strongest first; of the related ones the 14
   * strongest are kept and of the retrieved ones the 8 strongest, and nothing left out is stronger than what is kept.
   */
  lemma AttentionKeepsTheStrongest(views: map<ViewId, View>, state: WorkState, optional: seq<Evidence>)
    requires OnlyOptional(optional)
    ensures var resolved, a := ResolvedOf(views, state, optional), AttentionOf(views, state, optional);
            && StrongestFirst(a.selected) && (forall e :: e in a.selected <==> e in resolved && e.source == Selected)
            && StrongestFirst(a.pinned)
            && (forall e :: e in a.pinned <==> e in resolved && e.source in {Pinned, Locked})
            && HoldsTheStrongest(a.related,
                 set e | e in resolved && e.source !in {Selected, Pinned, Locked, SemanticRetrieval}, 14)
            && HoldsTheStrongest(a.retrieved, set e | e in resolved && e.source == SemanticRetrieval, 8)
  {
    var resolved := ResolvedOf(views, state, optional);
    ResolvedFacts(views, state, optional, 0);
    MandatoryBuckets(resolved);
    OptionalBuckets(resolved);
  }

  lemma MandatoryBuckets(resolved: seq<Evidence>)
    requires DistinctViews(resolved)
    ensures var a := Bucketed(resolved);
            && StrongestFirst(a.selected) && (forall e :: e in a.selected <==> e in resolved && e.source == Selected)
            && StrongestFirst(a.pinned)
            && (forall e :: e in a.pinned <==> e in resolved && e.source in {Pinned, Locked})
  {
    BucketHoldsTheStrongest(resolved, SelectedBucket, 0);
    BucketHoldsTheStrongest(resolved, PinnedBucket, 0);
    BucketMembers(resolved, SelectedBucket, 0);
    BucketMembers(resolved, PinnedBucket, 0);
    forall e | e in resolved
      ensures e in OfKind(resolved, SelectedBucket) <==> e.source == Selected
      ensures e in OfKind(resolved, PinnedBucket) <==> e.source in {Pinned, Locked}
    {
      KindsOfSources(e, resolved);
    }
  }

  lemma OptionalBuckets(resolved: seq<Evidence>)
    requires DistinctViews(resolved)
    ensures var a := Bucketed(resolved);
            && HoldsTheStrongest(a.related,
                 set e | e in resolved && e.source !in {Selected, Pinned, Locked, SemanticRetrieval}, 14)
            && HoldsTheStrongest(a.retrieved, set e | e in resolved && e.source == SemanticRetrieval, 8)
  {
    BucketHoldsTheStrongest(resolved, RelatedBucket, 14);
    BucketHoldsTheStrongest(resolved, RetrievedBucket, 8);
    forall e | e in resolved
      ensures e in OfKind(resolved, RetrievedBucket) <==> e.source == SemanticRetrieval
      ensures e in OfKind(resolved, RelatedBucket) <==> e.source !in {Selected, Pinned, Locked, SemanticRetrieval}
    {
      KindsOfSources(e, resolved);
    }
    assert OfKind(resolved, RelatedBucket)
           == set e | e in resolved && e.source !in {Selected, Pinned, Locked, SemanticRetrieval};
    assert OfKind(resolved, RetrievedBucket) == set e | e in resolved && e.source == SemanticRetrieval;
  }

  // ---------- what one view resolves to ----------

  /** All the evidence there is: what is passed in, and the user's own selection, pins and locks. */
  ghost predicate IsEvidence(state: WorkState, optional: seq<Evidence>, e: Evidence) {
    || e in optional
    || (e.viewId in state.selected && e == Evidence(e.viewId, Selected, 1.0))
    || (e.viewId in state.pinned && e.viewId !in state.selected && e == Evidence(e.viewId, Pinned, 0.98))
    || (e.viewId in state.locked && e.viewId !in state.selected && e.viewId !in state.pinned
        && e == Evidence(e.viewId, Locked, 0.97))
  }

  const BEST_FIRST: seq<Source> := [
    Selected, Pinned, Locked, ExplicitRelation, WorkflowRequirement, SameContext, SameCollection, SameScene,
    RecentDelta, SemanticRetrieval, SpatialNeighbourhood]

  /** Source `a` stands no later than `b` among the sources. */
  ghost predicate RanksNoLower(a: Source, b: Source) {
    exists i, j :: 0 <= i <= j < |BEST_FIRST| && BEST_FIRST[i] == a && BEST_FIRST[j] == b
  }

  lemma RankByPrecedence(a: Source, b: Source)
    requires Precedence(a) >= Precedence(b)
    ensures RanksNoLower(a, b)
  {
    var i := PlaceOf(a);
    var j := PlaceOf(b);
    assert i <= j;
  }

  lemma PlaceOf(s: Source) returns (i: nat)
    ensures i < |BEST_FIRST| && BEST_FIRST[i] == s
    ensures Precedence(s) == [100, 95, 94, 90, 86, 82, 80, 70, 65, 60, 50][i]
  {
    match s
    case Selected => i := 0;
    case Pinned => i := 1;
    case Locked => i := 2;
    case ExplicitRelation => i := 3;
    case WorkflowRequirement => i := 4;
    case SameContext => i := 5;
    case SameCollection => i := 6;
    case SameScene => i := 7;
    case RecentDelta => i := 8;
    case SemanticRetrieval => i := 9;
    case SpatialNeighbourhood => i := 10;
  }

  lemma CollectedIsEvidence(state: WorkState, optional: seq<Evidence>, e: Evidence)
    ensures e in Collected(state, optional) <==> IsEvidence(state, optional, e)
  {
    var selected, pinned := Elements(state.selected), Elements(state.pinned);
    MarkedMembers(state.selected, Selected, 1.0, {});
    MarkedMembers(state.pinned, Pinned, 0.98, selected);
    MarkedMembers(state.locked, Locked, 0.97, selected + pinned);
  }

  /**
   * Every view with evidence that exists and is not excluded resolves to one piece: its source is the best of those of
   * its evidence, and it is as strong as the strongest.
   */
  lemma ResolvedExactly(views: map<ViewId, View>, state: WorkState, optional: seq<Evidence>, id: ViewId)
    ensures var resolved := ResolvedOf(views, state, optional);
            && DistinctViews(resolved)
            && ((exists r :: r in resolved && r.viewId == id) <==>
                  id in views && id !in state.excluded
                  && exists e :: IsEvidence(state, optional, e) && e.viewId == id)
            && (forall r :: r in resolved && r.viewId == id ==>
                  && (exists e :: IsEvidence(state, optional, e) && e.viewId == id && e.source == r.source)
                  && (exists e :: IsEvidence(state, optional, e) && e.viewId == id && e.strength == r.strength)
                  && (forall e :: IsEvidence(state, optional, e) && e.viewId == id ==>
                        RanksNoLower(r.source, e.source) && e.strength <= r.strength))
  {
    var accepted := Accepted(Collected(state, optional), views, Elements(state.excluded));
    MentionedHaveEvidence(accepted);
    var ids := Mentioned(accepted);
    var resolved := Resolved(accepted, ids);
    AcceptedMembers(Collected(state, optional), views, Elements(state.excluded));
    forall e: Evidence
      ensures e in accepted <==> IsEvidence(state, optional, e) && e.viewId in views && e.viewId !in state.excluded
    {
      CollectedIsEvidence(state, optional, e);
    }
    OnePieceEach(accepted, id);
    if id in ids { ChosenIsBest(accepted, id); }
  }

  lemma OnePieceEach(accepted: seq<Evidence>, id: ViewId)
    requires forall x :: x in Mentioned(accepted) ==> About(accepted, x) != []
    ensures var resolved := Resolved(accepted, Mentioned(accepted));
            && DistinctViews(resolved)
            && ((exists r :: r in resolved && r.viewId == id) <==> id in Mentioned(accepted))
            && (forall r :: r in resolved && r.viewId == id ==> r == Choose(accepted, id))
  {
    var ids := Mentioned(accepted);
    var resolved := Resolved(accepted, ids);
    forall i | 0 <= i < |ids| ensures resolved[i].viewId == ids[i] && resolved[i] == Choose(accepted, ids[i]) {
      AboutMembers(accepted, ids[i]);
    }
    if id in ids {
      var i :| 0 <= i < |ids| && ids[i] == id;
      assert resolved[i] in resolved;
    }
  }

  lemma ChosenIsBest(accepted: seq<Evidence>, id: ViewId)
    requires About(accepted, id) != []
    ensures var r := Choose(accepted, id);
            && r.viewId == id
            && (exists e :: e in accepted && e.viewId == id && e.source == r.source)
            && (exists e :: e in accepted && e.viewId == id && e.strength == r.strength)
            && (forall e :: e in accepted && e.viewId == id ==>
                  RanksNoLower(r.source, e.source) && e.strength <= r.strength)
  {
    AboutMembers(accepted, id);
    var best := Best(About(accepted, id));
    assert best in accepted && best.viewId == id;
    forall e | e in accepted && e.viewId == id
      ensures RanksNoLower(best.source, e.source) && e.strength <= MaxStrength(About(accepted, id))
    {
      assert e in About(accepted, id) && !Beats(e, best);
      RankByPrecedence(best.source, e.source);
    }
  }

  // ---------- the price of one item ----------

  datatype Level = L0 | L1 | L2 | L3

  function CeilDiv4(n: nat): nat { (n + 3) / 4 }

  function KindName(kind: Kind): string {
    match kind
    case Markdown => "markdown"
    case Image => "image"
    case Presentation => "presentation"
    case Pdf => "pdf"
    case Other => "other"
  }

  function AvailabilityName(availability: Availability): string {
    match availability
    case Available => "available" case Missing => "missing" case StaleFile => "stale"
  }

  function Cap(level: Level): nat {
    match level
    case L0 => 0 case L1 => 720 case L2 => 2_800 case L3 => 20_000
  }

  predicate IsBlank(c: char) { c == ' ' || c == '\n' || c == '\r' || c == '\t' }

  function TrimEnd(s: string): (r: string)
    ensures |r| <= |s|
  {
    if s != [] && IsBlank(s[|s| - 1]) then TrimEnd(s[..|s| - 1]) else s
  }

  function TrimStart(s: string): (r: string)
    ensures |r| <= |s|
  {
    if s != [] && IsBlank(s[0]) then TrimStart(s[1..]) else s
  }

  function ReadPrefix(text: string, chars: nat): (r: string)
    ensures |r| <= chars
  {
    TrimStart(TrimEnd(if |text| <= chars then text else text[..chars]))
  }

  function MaxOf(a: int, b: int): int { if a < b then b else a }
  function MinOf(a: int, b: int): int { if a < b then a else b }

  datatype Detail = Detail(level: Level, content: Option<string>, tokens: nat)

  function Content(views: map<ViewId, View>, id: ViewId, requested: Level, remaining: nat): Detail {
    if id !in views || !views[id].hasArtifact || requested.L0? then Detail(L0, None, 18)
    else if views[id].text.None? then
      var content := KindName(views[id].kind) + " · " + AvailabilityName(views[id].availability);
      Detail(L1, Some(content), CeilDiv4(|content|) + 12)
    else
      var maxChars := MaxOf(120, MinOf(Cap(requested), MaxOf(120, remaining * 4 - 64)));
      var text := ReadPrefix(views[id].text.value, maxChars);
      if text == "" then Detail(L0, None, 18) else Detail(requested, Some(text), CeilDiv4(|text|) + 16)
  }

  /** One item costs at most what is left of the budget, or 46 tokens if less is left. */
  lemma ItemCost(views: map<ViewId, View>, id: ViewId, requested: Level, remaining: nat)
    ensures 18 <= Content(views, id, requested, remaining).tokens
            || Content(views, id, requested, remaining).content.Some?
    ensures Content(views, id, requested, remaining).tokens <= MaxOf(46, remaining)
  {
  }

  // ---------- the pack ----------

  datatype Item = Item(viewId: ViewId, source: Source, level: Level, content: Option<string>, tokens: nat)
  datatype Pack = Pack(items: seq<Item>, used: nat, truncated: bool)

  function Mandatory(attention: Attention): seq<Evidence> { attention.selected + attention.pinned }

  predicate Mentions(list: seq<Evidence>, id: ViewId) { exists e :: e in list && e.viewId == id }

  function Without(list: seq<Evidence>, forced: seq<Evidence>): seq<Evidence> {
    if list == [] then []
    else
      var rest := Without(list[..|list| - 1], forced);
      if Mentions(forced, list[|list| - 1].viewId) then rest else rest + [list[|list| - 1]]
  }

  function Ordered(attention: Attention): seq<Evidence> {
    Mandatory(attention) + Without(Sort(attention.related + attention.retrieved), Mandatory(attention))
  }

  function LevelFor(e: Evidence, mandatory: seq<Evidence>, expand: set<ViewId>, full: set<ViewId>): Level {
    if e.viewId in full then L3
    else if e.viewId in expand then L2
    else if Mentions(mandatory, e.viewId) || e.strength >= 0.82 then L1
    else L0
  }

  function Budget(tokenBudget: int): nat { MaxOf(240, MinOf(12_000, tokenBudget)) }

  function Step(
    pack: Pack, e: Evidence, views: map<ViewId, View>, mandatory: seq<Evidence>, budget: nat, expand: set<ViewId>,
    full: set<ViewId>): Pack
  {
    var detail := Content(views, e.viewId, LevelFor(e, mandatory, expand, full), MaxOf(0, budget - pack.used));
    if |pack.items| >= |mandatory| && pack.used + detail.tokens > budget then pack.(truncated := true)
    else
      Pack(pack.items + [Item(e.viewId, e.source, detail.level, detail.content, detail.tokens)],
          pack.used + detail.tokens, pack.truncated)
  }

  /** The pack after the first `k` pieces of `ordered`. */
  function Composed(
    ordered: seq<Evidence>, k: nat, views: map<ViewId, View>, mandatory: seq<Evidence>, budget: nat,
    expand: set<ViewId>, full: set<ViewId>): Pack
    requires k <= |ordered|
  {
    if k == 0 then Pack([], 0, false)
    else
      Step(Composed(ordered, k - 1, views, mandatory, budget, expand, full), ordered[k - 1], views, mandatory, budget,
          expand, full)
  }

  function PackOf(
    views: map<ViewId, View>, attention: Attention, tokenBudget: int, expand: set<ViewId>, full: set<ViewId>): Pack
  {
    Composed(Ordered(attention), |Ordered(attention)|, views, Mandatory(attention), Budget(tokenBudget), expand, full)
  }

  method ComposeContextPack(
    views: map<ViewId, View>, attention: Attention, tokenBudget: int, expandViewIds: seq<ViewId>,
    fullViewIds: seq<ViewId>)
    returns (pack: Pack)
    ensures pack == PackOf(views, attention, tokenBudget, Elements(expandViewIds), Elements(fullViewIds))
  {
    var budget := Budget(tokenBudget);
    var expand, full := Elements(expandViewIds), Elements(fullViewIds);
    var mandatory := Mandatory(attention);
    var ordered := Ordered(attention);
    pack := Pack([], 0, false);
    for k := 0 to |ordered|
      invariant pack == Composed(ordered, k, views, mandatory, budget, expand, full)
    {
      pack := AddEvidence(pack, ordered[k], views, mandatory, budget, expand, full);
    }
  }

  /** One turn of the loop: the piece is packed, or the pack is marked as truncated. */
  method AddEvidence(
    before: Pack, evidence: Evidence, views: map<ViewId, View>, mandatory: seq<Evidence>, budget: nat,
    expand: set<ViewId>, full: set<ViewId>)
    returns (pack: Pack)
    ensures pack == Step(before, evidence, views, mandatory, budget, expand, full)
  {
    pack := before;
    var level := LevelFor(evidence, mandatory, expand, full);
    var remaining := MaxOf(0, budget - pack.used);
    var detail := Content(views, evidence.viewId, level, remaining);
    if |pack.items| >= |mandatory| && pack.used + detail.tokens > budget {
      pack := pack.(truncated := true);
      return;
    }
    pack := pack.(items := pack.items
        + [Item(evidence.viewId, evidence.source, detail.level, detail.content, detail.tokens)]);
    pack := pack.(used := pack.used + detail.tokens);
  }

  /** The evidence map: per view the accepted pieces in order, and the views in order of first mention. */
  method GroupByView(
    collected: seq<Evidence>, views: map<ViewId, View>, excluded: set<ViewId>)
    returns (all: map<ViewId, seq<Evidence>>, order: seq<ViewId>)
    ensures var accepted := Accepted(collected, views, excluded);
            order == Mentioned(accepted) && forall id :: id in order ==> id in all && all[id] == About(accepted, id)
  {
    all, order := map[], [];
    ghost var accepted: seq<Evidence> := [];
    for k := 0 to |collected|
      invariant accepted == Accepted(collected[..k], views, excluded)
      invariant order == Mentioned(accepted)
      invariant forall id :: id in all <==> id in order
      invariant forall id :: id in all ==> all[id] == About(accepted, id)
    {
      var e := collected[k];
      assert collected[..k + 1][..k] == collected[..k];
      if e.viewId in views && e.viewId !in excluded {
        if e.viewId !in all {
          NotMentioned(accepted, e.viewId);
          order := order + [e.viewId];
          all := all[e.viewId := [e]];
        } else {
          all := all[e.viewId := all[e.viewId] + [e]];
        }
        assert (accepted + [e])[..|accepted|] == accepted;
        accepted := accepted + [e];
      }
    }
    assert collected[..|collected|] == collected;
  }

  lemma NotMentioned(accepted: seq<Evidence>, id: ViewId)
    ensures About(accepted, id) != [] ==> id in Mentioned(accepted)
  {
    AboutMembers(accepted, id);
    if About(accepted, id) != [] {
      assert About(accepted, id)[0] in About(accepted, id);
    }
  }

  method ProjectAttention(
    views: map<ViewId, View>, state: WorkState, optional: seq<Evidence>) returns (attention: Attention)
    ensures attention == AttentionOf(views, state, optional)
  {
    var collected := Collected(state, optional);
    var excluded := Elements(state.excluded);
    var all, order := GroupByView(collected, views, excluded);
    ghost var accepted := Accepted(collected, views, excluded);
    MentionedHaveEvidence(accepted);
    var resolved := ChooseAll(all, order, accepted);
    attention := Bucketed(resolved);
  }

  method ChooseAll(
    all: map<ViewId, seq<Evidence>>, order: seq<ViewId>, ghost accepted: seq<Evidence>)
    returns (resolved: seq<Evidence>)
    requires forall id :: id in order ==> id in all && all[id] == About(accepted, id) != []
    ensures resolved == Resolved(accepted, order)
  {
    resolved := [];
    for k := 0 to |order|
      invariant |resolved| == k
      invariant forall i :: 0 <= i < k ==> resolved[i] == Choose(accepted, order[i])
    {
      var list := all[order[k]];
      resolved := resolved + [Best(list).(strength := MaxStrength(list))];
    }
  }

  // ---------- main results ----------

  lemma {:induction false} WithoutMembers(list: seq<Evidence>, forced: seq<Evidence>)
    ensures forall e :: e in Without(list, forced) <==> e in list && !Mentions(forced, e.viewId)
    ensures DistinctViews(list) ==> DistinctViews(Without(list, forced))
  {
    if list != [] {
      var front, last := list[..|list| - 1], list[|list| - 1];
      WithoutMembers(front, forced);
      assert forall e :: e in list <==> e in front || e == last;
      if DistinctViews(list) {
        var rest := Without(front, forced);
        forall i | 0 <= i < |rest| ensures rest[i].viewId != last.viewId { assert rest[i] in front; }
      }
    }
  }

  lemma DistinctConcat(a: seq<Evidence>, b: seq<Evidence>)
    requires DistinctViews(a) && DistinctViews(b)
    requires forall x, y :: x in a && y in b ==> x.viewId != y.viewId
    ensures DistinctViews(a + b)
  {
    forall i, j | 0 <= i < j < |a + b| ensures (a + b)[i].viewId != (a + b)[j].viewId {
      if i < |a| <= j { assert a[i] in a && b[j - |a|] in b; }
    }
  }

  lemma TakeMembers(list: seq<Evidence>, n: nat)
    ensures forall e :: e in Take(list, n) ==> e in list
    ensures DistinctViews(list) ==> DistinctViews(Take(list, n))
  {
  }

  /** What one bucket of resolved evidence contains. */
  lemma BucketFacts(resolved: seq<Evidence>, bucket: Bucket, n: nat)
    requires DistinctViews(resolved)
    ensures DistinctViews(Sort(InBucket(resolved, bucket))) && DistinctViews(Take(Sort(InBucket(resolved, bucket)), n))
    ensures forall e :: e in Sort(InBucket(resolved, bucket)) <==> e in resolved && BucketOf(e.source) == bucket
    ensures forall e :: e in Take(Sort(InBucket(resolved, bucket)), n) ==> e in resolved && BucketOf(e.source) == bucket
  {
    InBucketMembers(resolved, bucket);
    SortKeepsDistinct(InBucket(resolved, bucket));
    forall e ensures e in Sort(InBucket(resolved, bucket)) <==> e in resolved && BucketOf(e.source) == bucket {
      SortMembers(InBucket(resolved, bucket), e);
    }
    TakeMembers(Sort(InBucket(resolved, bucket)), n);
  }

  lemma SameViewSamePiece(resolved: seq<Evidence>, a: Evidence, b: Evidence)
    requires DistinctViews(resolved) && a in resolved && b in resolved && a.viewId == b.viewId
    ensures a == b
  {
    var i :| 0 <= i < |resolved| && resolved[i] == a;
    var j :| 0 <= j < |resolved| && resolved[j] == b;
    assert i == j;
  }

  /** The list the pack is built from names no view twice. */
  lemma OrderedIsDistinct(resolved: seq<Evidence>)
    requires DistinctViews(resolved)
    ensures DistinctViews(Ordered(Bucketed(resolved)))
    ensures DistinctViews(Mandatory(Bucketed(resolved)))
  {
    var a := Bucketed(resolved);
    BucketFacts(resolved, SelectedBucket, 0);
    BucketFacts(resolved, PinnedBucket, 0);
    BucketFacts(resolved, RelatedBucket, MAX_RELATED);
    BucketFacts(resolved, RetrievedBucket, MAX_RETRIEVAL);
    forall x, y | x in resolved && y in resolved && BucketOf(x.source) != BucketOf(y.source)
      ensures x.viewId != y.viewId
    {
      if x.viewId == y.viewId { SameViewSamePiece(resolved, x, y); }
    }
    DistinctConcat(a.selected, a.pinned);
    DistinctConcat(a.related, a.retrieved);
    SortKeepsDistinct(a.related + a.retrieved);
    WithoutMembers(Sort(a.related + a.retrieved), Mandatory(a));
    DistinctConcat(Mandatory(a), Without(Sort(a.related + a.retrieved), Mandatory(a)));
  }

  /** One step either skips an optional piece or appends the piece's item. */
  lemma StepAppendsOrSkips(
    pack: Pack, e: Evidence, views: map<ViewId, View>, mandatory: seq<Evidence>, budget: nat, expand: set<ViewId>,
    full: set<ViewId>)
    ensures var next := Step(pack, e, views, mandatory, budget, expand, full);
            || (next.items == pack.items && |pack.items| >= |mandatory|)
            || (|next.items| == |pack.items| + 1 && next.items[..|pack.items|] == pack.items
               && next.items[|pack.items|].viewId == e.viewId)
  {
  }

  /** The ids of the pieces whose items are in the pack. */
  function Ids(items: seq<Item>): seq<ViewId> { seq(|items|, (i: nat) requires i < |items| => items[i].viewId) }
  function ViewsOf(list: seq<Evidence>): seq<ViewId> { seq(|list|, (i: nat) requires i < |list| => list[i].viewId) }


  /** `ids` came from the first `k` of `all`: the first `m` of them unfailingly, the rest perhaps. */
  ghost predicate Drawn(ids: seq<ViewId>, all: seq<ViewId>, k: nat, m: nat) {
    && k <= |all| && m <= |all|
    && (if k <= m then ids == all[..k] else |ids| >= m && ids[..m] == all[..m])
    && (forall id :: id in ids ==> id in all[..k])
    && Lists.Distinct(ids)
  }

  lemma DrawnStep(ids: seq<ViewId>, ids': seq<ViewId>, all: seq<ViewId>, k: nat, m: nat)
    requires Lists.Distinct(all) && k < |all| && Drawn(ids, all, k, m)
    requires (ids' == ids && |ids| >= m) || ids' == ids + [all[k]]
    ensures Drawn(ids', all, k + 1, m)
  {
    assert all[..k + 1] == all[..k] + [all[k]];
    if k < m { assert ids' == all[..k + 1] by { assert |ids| == k; } }
    forall i | 0 <= i < |ids| ensures ids[i] != all[k] {
      assert ids[i] in all[..k];
    }
    forall id | id in ids' ensures id in all[..k + 1] { }
  }

  lemma {:induction false} ComposedItems(
    ordered: seq<Evidence>, k: nat, views: map<ViewId, View>, mandatory: seq<Evidence>, budget: nat,
    expand: set<ViewId>, full: set<ViewId>)
    requires k <= |ordered| && |mandatory| <= |ordered| && DistinctViews(ordered)
    ensures Drawn(Ids(Composed(ordered, k, views, mandatory, budget, expand, full).items), ViewsOf(ordered), k,
            |mandatory|)
  {
    if k > 0 {
      ComposedItems(ordered, k - 1, views, mandatory, budget, expand, full);
      StepDraws(
        Composed(ordered, k - 1, views, mandatory, budget, expand, full), ordered, k - 1, views, mandatory, budget,
        expand, full);
    }
  }

  lemma StepDraws(
    pack: Pack, ordered: seq<Evidence>, k: nat, views: map<ViewId, View>, mandatory: seq<Evidence>, budget: nat,
        expand: set<ViewId>,
    full: set<ViewId>)
    requires k < |ordered| && |mandatory| <= |ordered| && DistinctViews(ordered)
    requires Drawn(Ids(pack.items), ViewsOf(ordered), k, |mandatory|)
    ensures Drawn(Ids(Step(pack, ordered[k], views, mandatory, budget, expand, full).items), ViewsOf(ordered), k + 1,
            |mandatory|)
  {
    var next := Step(pack, ordered[k], views, mandatory, budget, expand, full);
    StepAppendsOrSkips(pack, ordered[k], views, mandatory, budget, expand, full);
    if next.items != pack.items { assert Ids(next.items) == Ids(pack.items) + [ordered[k].viewId]; }
    DrawnStep(Ids(pack.items), Ids(next.items), ViewsOf(ordered), k, |mandatory|);
  }

  ghost predicate InPackOnce(pack: Pack, id: ViewId) {
    exists i :: 0 <= i < |pack.items| && pack.items[i].viewId == id
                && forall j :: 0 <= j < |pack.items| && pack.items[j].viewId == id ==> j == i
  }

  lemma DrawnItems(pack: Pack, ordered: seq<Evidence>, m: nat, id: ViewId)
    requires Drawn(Ids(pack.items), ViewsOf(ordered), |ordered|, m)
    ensures (exists i :: 0 <= i < m && ordered[i].viewId == id) ==> InPackOnce(pack, id)
    ensures (exists item :: item in pack.items && item.viewId == id) ==> exists e :: e in ordered && e.viewId == id
  {
    var ids, all := Ids(pack.items), ViewsOf(ordered);
    if i :| 0 <= i < m && ordered[i].viewId == id {
      assert ids[..m][i] == all[..m][i];
      assert pack.items[i].viewId == id;
      forall j | 0 <= j < |pack.items| && pack.items[j].viewId == id ensures j == i {
        assert ids[j] == ids[i];
      }
    }
    if item :| item in pack.items && item.viewId == id {
      var j :| 0 <= j < |pack.items| && pack.items[j] == item;
      assert ids[j] in ids && ids[j] in all[..|ordered|];
      var i :| 0 <= i < |all| && all[i] == id;
      assert ordered[i] in ordered;
    }
  }

  /** Every wanted view is in the pack exactly once, whatever the budget; no excluded or unknown view ever is. */
  lemma WantedViewsArePacked(
    views: map<ViewId, View>, state: WorkState, optional: seq<Evidence>, tokenBudget: int, expand: set<ViewId>,
    full: set<ViewId>, id: ViewId)
    requires OnlyOptional(optional)
    ensures var pack := PackOf(views, AttentionOf(views, state, optional), tokenBudget, expand, full);
            && (Wanted(views, state, id) ==> InPackOnce(pack, id))
            && (id in state.excluded || id !in views ==> forall item :: item in pack.items ==> item.viewId != id)
  {
    var resolved := ResolvedOf(views, state, optional);
    var attention := Bucketed(resolved);
    var mandatory, ordered := Mandatory(attention), Ordered(attention);
    var pack := PackOf(views, attention, tokenBudget, expand, full);
    ResolvedFacts(views, state, optional, id);
    OrderedIsDistinct(resolved);
    ComposedItems(ordered, |ordered|, views, mandatory, Budget(tokenBudget), expand, full);
    OrderedComesFromResolved(resolved);
    if Wanted(views, state, id) {
      MandatoryHasWanted(resolved, id);
    }
    DrawnItems(pack, ordered, |mandatory|, id);
  }

  lemma MandatoryHasWanted(resolved: seq<Evidence>, id: ViewId)
    requires DistinctViews(resolved) && exists e :: e in resolved && e.viewId == id && IsMandatory(e.source)
    ensures var mandatory, ordered := Mandatory(Bucketed(resolved)), Ordered(Bucketed(resolved));
            exists i :: 0 <= i < |mandatory| && ordered[i].viewId == id
  {
    var mandatory := Mandatory(Bucketed(resolved));
    BucketFacts(resolved, SelectedBucket, 0);
    BucketFacts(resolved, PinnedBucket, 0);
    var e :| e in resolved && e.viewId == id && IsMandatory(e.source);
    assert e in mandatory;
    var i :| 0 <= i < |mandatory| && mandatory[i] == e;
    assert Ordered(Bucketed(resolved))[i] == e;
  }

  lemma OrderedComesFromResolved(resolved: seq<Evidence>)
    requires DistinctViews(resolved)
    ensures forall e :: e in Ordered(Bucketed(resolved)) ==> e in resolved
  {
    var a := Bucketed(resolved);
    BucketFacts(resolved, SelectedBucket, 0);
    BucketFacts(resolved, PinnedBucket, 0);
    BucketFacts(resolved, RelatedBucket, MAX_RELATED);
    BucketFacts(resolved, RetrievedBucket, MAX_RETRIEVAL);
    WithoutMembers(Sort(a.related + a.retrieved), Mandatory(a));
    forall e | e in Ordered(a) ensures e in resolved {
      SortMembers(a.related + a.retrieved, e);
    }
  }

  lemma ResolvedFacts(views: map<ViewId, View>, state: WorkState, optional: seq<Evidence>, id: ViewId)
    requires OnlyOptional(optional)
    ensures var resolved := ResolvedOf(views, state, optional);
            && DistinctViews(resolved)
            && (forall e :: e in resolved ==> e.viewId in views && e.viewId !in state.excluded)
            && (Wanted(views, state, id) ==> exists e :: e in resolved && e.viewId == id && IsMandatory(e.source))
  {
    var accepted := Accepted(Collected(state, optional), views, Elements(state.excluded));
    MentionedHaveEvidence(accepted);
    var ids := Mentioned(accepted);
    var resolved := Resolved(accepted, ids);
    AcceptedMembers(Collected(state, optional), views, Elements(state.excluded));
    forall i | 0 <= i < |ids| ensures resolved[i].viewId == ids[i] && ids[i] in views && ids[i] !in state.excluded {
      ChosenSource(views, state, optional, ids[i]);
      assert ids[i] in ids;
      var e :| e in accepted && e.viewId == ids[i];
    }
    if Wanted(views, state, id) {
      var own := if id in state.selected then Evidence(id, Selected, 1.0)
                 else if id in state.pinned then Evidence(id, Pinned, 0.98)
                 else Evidence(id, Locked, 0.97);
      MandatoryEvidence(views, state, optional, own);
      assert own in accepted && id in ids;
      var i :| 0 <= i < |ids| && ids[i] == id;
      ChosenSource(views, state, optional, id);
      assert resolved[i] in resolved;
    }
  }

  /**
   * Token arithmetic: while mandatory pieces are added the total stays within the budget plus 46 per piece after
   * the first; an optional piece is added only if the total then fits the budget.
   */
  lemma {:induction false} ComposedBudget(
    ordered: seq<Evidence>, k: nat, views: map<ViewId, View>, mandatory: seq<Evidence>, budget: nat,
    expand: set<ViewId>, full: set<ViewId>)
    requires k <= |ordered| && budget >= 46
    ensures var pack := Composed(ordered, k, views, mandatory, budget, expand, full);
            && pack.used <= budget + 46 * MaxOf(0, MinOf(|pack.items|, |mandatory|) - 1)
            && (k > 0 ==> var before := Composed(ordered, k - 1, views, mandatory, budget, expand, full);
                          |before.items| >= |mandatory| && pack.items != before.items ==> pack.used <= budget)
            && (pack.truncated ==> |pack.items| >= |mandatory|) && (pack.items == [] ==> pack.used == 0)
  {
    if k > 0 {
      ComposedBudget(ordered, k - 1, views, mandatory, budget, expand, full);
      StepStaysNearBudget(
        Composed(ordered, k - 1, views, mandatory, budget, expand, full), ordered[k - 1], views, mandatory, budget,
        expand, full);
    }
  }

  lemma StepStaysNearBudget(
    pack: Pack, e: Evidence, views: map<ViewId, View>, mandatory: seq<Evidence>, budget: nat, expand: set<ViewId>,
    full: set<ViewId>)
    requires budget >= 46 && pack.used <= budget + 46 * MaxOf(0, MinOf(|pack.items|, |mandatory|) - 1)
    requires (pack.truncated ==> |pack.items| >= |mandatory|) && (pack.items == [] ==> pack.used == 0)
    ensures var next := Step(pack, e, views, mandatory, budget, expand, full);
            && next.used <= budget + 46 * MaxOf(0, MinOf(|next.items|, |mandatory|) - 1)
            && (|pack.items| >= |mandatory| && next.items != pack.items ==> next.used <= budget)
            && (next.truncated ==> |next.items| >= |mandatory|) && (next.items == [] ==> next.used == 0)
  {
    var detail := Content(views, e.viewId, LevelFor(e, mandatory, expand, full), MaxOf(0, budget - pack.used));
    ItemCost(views, e.viewId, LevelFor(e, mandatory, expand, full), MaxOf(0, budget - pack.used));
    assert detail.tokens <= MaxOf(46, budget - pack.used);
  }

  function TotalTokens(items: seq<Item>): nat {
    if items == [] then 0 else TotalTokens(items[..|items| - 1]) + items[|items| - 1].tokens
  }

  /** The reported total is the sum of the items' costs. */
  lemma {:induction false} UsedIsTotal(
    ordered: seq<Evidence>, k: nat, views: map<ViewId, View>, mandatory: seq<Evidence>, budget: nat,
    expand: set<ViewId>, full: set<ViewId>)
    requires k <= |ordered|
    ensures var pack := Composed(ordered, k, views, mandatory, budget, expand, full);
            pack.used == TotalTokens(pack.items)
  {
    if k > 0 {
      UsedIsTotal(ordered, k - 1, views, mandatory, budget, expand, full);
      var before := Composed(ordered, k - 1, views, mandatory, budget, expand, full);
      var pack := Composed(ordered, k, views, mandatory, budget, expand, full);
      if pack.items != before.items { assert pack.items[..|pack.items| - 1] == before.items; }
    }
  }

  /** For every budget the whole pack costs at most the budget plus 46 tokens per mandatory piece after the first. */
  lemma PackStaysNearBudget(
    views: map<ViewId, View>, attention: Attention, tokenBudget: int, expand: set<ViewId>, full: set<ViewId>)
    ensures var pack := PackOf(views, attention, tokenBudget, expand, full);
            && TotalTokens(pack.items) == pack.used
            && pack.used <= Budget(tokenBudget) + 46 * MaxOf(0, |Mandatory(attention)| - 1)
  {
    var ordered, mandatory, budget := Ordered(attention), Mandatory(attention), Budget(tokenBudget);
    PackReportsItsTotal(views, attention, tokenBudget, expand, full);
    ComposedBudget(ordered, |ordered|, views, mandatory, budget, expand, full);
    BoundGrows(|PackOf(views, attention, tokenBudget, expand, full).items|, |mandatory|);
  }

  lemma BoundGrows(items: nat, mandatory: nat)
    ensures 46 * MaxOf(0, MinOf(items, mandatory) - 1) <= 46 * MaxOf(0, mandatory - 1)
  {
  }

  lemma PackReportsItsTotal(
    views: map<ViewId, View>, attention: Attention, tokenBudget: int, expand: set<ViewId>, full: set<ViewId>)
    ensures var pack := PackOf(views, attention, tokenBudget, expand, full); TotalTokens(pack.items) == pack.used
  {
    UsedIsTotal(
      Ordered(attention), |Ordered(attention)|, views, Mandatory(attention), Budget(tokenBudget), expand, full);
  }

  /** The mandatory pieces come first and are all taken. */
  lemma {:induction false} MandatoryIsTaken(
    ordered: seq<Evidence>, k: nat, views: map<ViewId, View>, mandatory: seq<Evidence>, budget: nat,
        expand: set<ViewId>,
    full: set<ViewId>)
    requires k <= |ordered| && k <= |mandatory|
    ensures var pack := Composed(ordered, k, views, mandatory, budget, expand, full);
            |pack.items| == k && !pack.truncated
  {
    if k > 0 { MandatoryIsTaken(ordered, k - 1, views, mandatory, budget, expand, full); }
  }

  /** From then on pieces are only added while the total fits the budget. */
  lemma {:induction false} OptionalIsAddedWithinBudget(
    ordered: seq<Evidence>, k: nat, views: map<ViewId, View>, mandatory: seq<Evidence>, budget: nat,
        expand: set<ViewId>,
    full: set<ViewId>)
    requires |mandatory| <= k <= |ordered|
    ensures var base := Composed(ordered, |mandatory|, views, mandatory, budget, expand, full);
            var pack := Composed(ordered, k, views, mandatory, budget, expand, full);
            && |mandatory| <= |pack.items| && base.items <= pack.items
            && pack.used <= MaxOf(budget, base.used)
  {
    if k > |mandatory| {
      OptionalIsAddedWithinBudget(ordered, k - 1, views, mandatory, budget, expand, full);
    } else {
      MandatoryIsTaken(ordered, k, views, mandatory, budget, expand, full);
    }
  }

  /** And what is added then is one of the optional pieces. */
  lemma {:induction false} AddedItemsAreOptional(
    ordered: seq<Evidence>, k: nat, views: map<ViewId, View>, mandatory: seq<Evidence>, budget: nat,
        expand: set<ViewId>,
    full: set<ViewId>, i: nat)
    requires |mandatory| <= k <= |ordered|
    requires |mandatory| <= i < |Composed(ordered, k, views, mandatory, budget, expand, full).items|
    ensures exists j :: |mandatory| <= j < k
                        && ordered[j].viewId
                           == Composed(ordered, k, views, mandatory, budget, expand, full).items[i].viewId
  {
    MandatoryIsTaken(ordered, |mandatory|, views, mandatory, budget, expand, full);
    if i < |Composed(ordered, k - 1, views, mandatory, budget, expand, full).items| {
      AddedItemsAreOptional(ordered, k - 1, views, mandatory, budget, expand, full, i);
    } else {
      assert ordered[k - 1].viewId == Composed(ordered, k, views, mandatory, budget, expand, full).items[i].viewId;
    }
  }

  /**
   * The pack is the mandatory part, one item for each mandatory piece, followed by items for optional pieces, and the
   * optional part never takes the total above the budget, or above what the mandatory part alone already costs.
   */
  lemma OptionalStaysWithinBudget(
    views: map<ViewId, View>, attention: Attention, tokenBudget: int, expand: set<ViewId>, full: set<ViewId>)
    ensures var ordered, mandatory := Ordered(attention), Mandatory(attention);
            var base := Composed(ordered, |mandatory|, views, mandatory, Budget(tokenBudget), expand, full);
            var pack := PackOf(views, attention, tokenBudget, expand, full);
            && |base.items| == |mandatory| && base.items <= pack.items
            && pack.used <= MaxOf(Budget(tokenBudget), TotalTokens(base.items))
            && (forall i :: |mandatory| <= i < |pack.items| ==>
                  exists j :: |mandatory| <= j < |ordered| && ordered[j].viewId == pack.items[i].viewId)
  {
    var ordered, mandatory, budget := Ordered(attention), Mandatory(attention), Budget(tokenBudget);
    MandatoryIsTaken(ordered, |mandatory|, views, mandatory, budget, expand, full);
    UsedIsTotal(ordered, |mandatory|, views, mandatory, budget, expand, full);
    OptionalIsAddedWithinBudget(ordered, |ordered|, views, mandatory, budget, expand, full);
    var pack := PackOf(views, attention, tokenBudget, expand, full);
    forall i: nat | |mandatory| <= i < |pack.items|
      ensures exists j :: |mandatory| <= j < |ordered| && ordered[j].viewId == pack.items[i].viewId
    {
      AddedItemsAreOptional(ordered, |ordered|, views, mandatory, budget, expand, full, i);
    }
  }

  // ---------- the order of the pack ----------

  lemma {:induction false} WithoutStaysStrongestFirst(list: seq<Evidence>, forced: seq<Evidence>)
    requires StrongestFirst(list)
    ensures StrongestFirst(Without(list, forced))
  {
    if list != [] {
      var front, last := list[..|list| - 1], list[|list| - 1];
      WithoutStaysStrongestFirst(front, forced);
      WithoutMembers(front, forced);
      var rest := Without(front, forced);
      forall i | 0 <= i < |rest| ensures NotBehind(rest[i], last) {
        assert rest[i] in front;
        var j :| 0 <= j < |front| && front[j] == rest[i];
        assert list[j] == rest[i];
      }
    }
  }

  /**
   * The pack is offered the selected pieces, the pinned ones, and then the related and retrieved ones about other
   * views, the strongest first.
   */
  lemma OfferedStrongestFirst(attention: Attention)
    ensures var ordered, m := Ordered(attention), |attention.selected| + |attention.pinned|;
            && |ordered| >= m && ordered[..m] == attention.selected + attention.pinned
            && StrongestFirst(ordered[m..])
            && (forall e :: e in ordered[m..] <==>
                  (e in attention.related || e in attention.retrieved)
                  && forall f :: f in attention.selected || f in attention.pinned ==> f.viewId != e.viewId)
  {
    var optional, mandatory := attention.related + attention.retrieved, attention.selected + attention.pinned;
    SortIsStrongestFirst(optional);
    WithoutStaysStrongestFirst(Sort(optional), mandatory);
    OfferedMembers(attention);
    var ordered := Ordered(attention);
    assert ordered[..|mandatory|] == mandatory && ordered[|mandatory|..] == Without(Sort(optional), mandatory);
  }

  lemma OfferedMembers(attention: Attention)
    ensures var mandatory := attention.selected + attention.pinned;
            var offered := Without(Sort(attention.related + attention.retrieved), mandatory);
            forall e :: e in offered <==>
              (e in attention.related || e in attention.retrieved)
              && forall f :: f in attention.selected || f in attention.pinned ==> f.viewId != e.viewId
  {
    var optional, mandatory := attention.related + attention.retrieved, attention.selected + attention.pinned;
    WithoutMembers(Sort(optional), mandatory);
    forall e ensures e in Sort(optional) <==> e in attention.related || e in attention.retrieved {
      SortMembers(optional, e);
    }
    forall e: Evidence
      ensures Mentions(mandatory, e.viewId)
              <==> exists f :: (f in attention.selected || f in attention.pinned) && f.viewId == e.viewId
    {
      if f :| (f in attention.selected || f in attention.pinned) && f.viewId == e.viewId { assert f in mandatory; }
    }
  }

  predicate IsAbout(item: Item, e: Evidence) { item.viewId == e.viewId && item.source == e.source }

  /** The items are those of the pieces at `picks`: pieces of the offer, in its order. */
  ghost predicate Picked(items: seq<Item>, ordered: seq<Evidence>, picks: seq<nat>) {
    && |picks| == |items|
    && (forall i, j :: 0 <= i < j < |picks| ==> picks[i] < picks[j])
    && (forall i :: 0 <= i < |picks| ==> picks[i] < |ordered| && IsAbout(items[i], ordered[picks[i]]))
  }

  /** Piece `j` comes when as many items are packed as are mandatory and does not fit what remains of the budget. */
  ghost predicate DoesNotFit(
    ordered: seq<Evidence>, j: nat, views: map<ViewId, View>, mandatory: seq<Evidence>, budget: nat,
    expand: set<ViewId>, full: set<ViewId>)
    requires j < |ordered|
  {
    var before := Composed(ordered, j, views, mandatory, budget, expand, full);
    var level, remaining := LevelFor(ordered[j], mandatory, expand, full), MaxOf(0, budget - before.used);
    |before.items| >= |mandatory|
    && before.used + Content(views, ordered[j].viewId, level, remaining).tokens > budget
  }

  lemma TakenOrPassedOver(
    ordered: seq<Evidence>, j: nat, views: map<ViewId, View>, mandatory: seq<Evidence>, budget: nat,
    expand: set<ViewId>, full: set<ViewId>)
    requires j < |ordered|
    ensures var before := Composed(ordered, j, views, mandatory, budget, expand, full);
            var pack := Composed(ordered, j + 1, views, mandatory, budget, expand, full);
            if DoesNotFit(ordered, j, views, mandatory, budget, expand, full) then
              pack.items == before.items && pack.truncated
            else
              && |pack.items| == |before.items| + 1 && pack.items[..|before.items|] == before.items
              && IsAbout(pack.items[|before.items|], ordered[j]) && pack.truncated == before.truncated
  {
  }

  lemma PickedMore(
    items: seq<Item>, items': seq<Item>, ordered: seq<Evidence>, k: nat, picks: seq<nat>, fits: bool)
    requires 0 < k <= |ordered| && Picked(items, ordered[..k - 1], picks)
    requires if fits then
               |items'| == |items| + 1 && items'[..|items|] == items && IsAbout(items'[|items|], ordered[k - 1])
             else items' == items
    ensures var picks' := picks + if fits then [k - 1] else [];
            && Picked(items', ordered[..k], picks')
            && (k - 1 in picks' <==> fits) && forall j: nat :: j < k - 1 ==> (j in picks' <==> j in picks)
  {
    forall i | 0 <= i < |picks|
      ensures picks[i] < k - 1 && ordered[..k][picks[i]] == ordered[..k - 1][picks[i]]
    {
    }
  }

  /**
   * The pack takes the offered pieces in order. It passes over exactly those that do not fit, and it is marked as
   * truncated exactly when there are any.
   */
  lemma {:induction false} PackTakesInOrder(
    ordered: seq<Evidence>, k: nat, views: map<ViewId, View>, mandatory: seq<Evidence>, budget: nat,
    expand: set<ViewId>, full: set<ViewId>)
    returns (picks: seq<nat>)
    requires k <= |ordered|
    ensures var pack := Composed(ordered, k, views, mandatory, budget, expand, full);
            && Picked(pack.items, ordered[..k], picks)
            && (pack.truncated <==> exists j: nat :: j < k && j !in picks)
    ensures forall j: nat :: j < k ==>
              (j !in picks <==> DoesNotFit(ordered, j, views, mandatory, budget, expand, full))
  {
    picks := [];
    if k > 0 {
      var front := PackTakesInOrder(ordered, k - 1, views, mandatory, budget, expand, full);
      TakenOrPassedOver(ordered, k - 1, views, mandatory, budget, expand, full);
      var fits := !DoesNotFit(ordered, k - 1, views, mandatory, budget, expand, full);
      picks := front + if fits then [k - 1] else [];
      PickedMore(
        Composed(ordered, k - 1, views, mandatory, budget, expand, full).items,
        Composed(ordered, k, views, mandatory, budget, expand, full).items, ordered, k, front, fits);
    }
  }

  // ---------- the bound is reached ----------

  function LongText(): string { seq(1000, _ => 'x') }
  function ManySelected(m: nat): seq<Evidence> { seq(m, (i: nat) requires i < m => Evidence(i, Selected, 1.0)) }
  function ManyViews(m: nat): (views: map<ViewId, View>)
    ensures forall i: nat :: i in views <==> i < m
    ensures forall i :: i in views ==> views[i] == View(true, Markdown, Available, Some(LongText()))
  {
    if m == 0 then map[] else ManyViews(m - 1)[m - 1 := View(true, Markdown, Available, Some(LongText()))]
  }

  lemma LongTextCost(m: nat, id: ViewId)
    requires id < m
    ensures Content(ManyViews(m), id, L3, 240).tokens == 240 && Content(ManyViews(m), id, L3, 0).tokens == 46
  {
    var text := LongText();
    assert text[..896][895] == 'x' && text[..896][0] == 'x' && text[..120][119] == 'x' && text[..120][0] == 'x';
    assert ReadPrefix(text, 896) == text[..896] && ReadPrefix(text, 120) == text[..120];
  }

  lemma {:induction false} ComposedAtTheBound(m: nat, k: nat, full: set<ViewId>)
    requires k <= m && forall i: nat :: i < m ==> i in full
    ensures var pack := Composed(ManySelected(m), k, ManyViews(m), ManySelected(m), 240, {}, full);
            |pack.items| == k && pack.used == if k == 0 then 0 else 240 + 46 * (k - 1)
  {
    if k > 0 {
      ComposedAtTheBound(m, k - 1, full);
      LongTextCost(m, k - 1);
    }
  }

  /** The bound of `PackStaysNearBudget` is exact: long selected texts, all requested in full, use all of it. */
  lemma PackBoundIsReached(m: nat)
    requires m > 0
    ensures var attention := Attention(ManySelected(m), [], [], []);
            exists full :: PackOf(ManyViews(m), attention, 0, {},
                full).used == Budget(0) + 46 * (|Mandatory(attention)| - 1)
  {
    var full := ManyViews(m).Keys;
    var attention := Attention(ManySelected(m), [], [], []);
    assert Mandatory(attention) == ManySelected(m);
    assert Ordered(attention) == ManySelected(m);
    ComposedAtTheBound(m, m, full);
    assert PackOf(ManyViews(m), attention, 0, {}, full).used == Budget(0) + 46 * (m - 1);
  }
}
