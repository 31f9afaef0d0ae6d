/**
 * Where a new capture lands on a scope's canvas
 * (apps/local-core/src/capture-placement-service.ts).
 *
 * Coordinates are reals. The service tries 480 slots on an expanding ring
 * around the most recent view and then scans a row-major grid without a bound;
 * the scan's termination is proved here, not assumed.
 */
module CapturePlacement {
  import opened Wrappers

  datatype Point = Point(x: real, y: real)
  datatype Rect = Rect(x: real, y: real, width: real, height: real)
  datatype CanvasView = CanvasView(scopeId: string, rect: Rect)

  const GAP := 24.0
  const MAX_TRIES := 480
  const DEFAULT_ANCHOR := Point(180.0, 160.0)

  function Max(a: real, b: real): real { if a < b then b else a }
  function Min(a: real, b: real): real { if a < b then a else b }

  function ClampWidth(width: Option<real>): real {
    Max(80.0, Min(720.0, if width.Some? then width.value else 280.0))
  }

  function ClampHeight(height: Option<real>): real {
    Max(48.0, Min(520.0, if height.Some? then height.value else 190.0))
  }

  predicate RectsOverlap(left: Rect, right: Rect) {
    !(left.x + left.width + GAP <= right.x
      || right.x + right.width + GAP <= left.x
      || left.y + left.height + GAP <= right.y
      || right.y + right.height + GAP <= left.y)
  }

  /** `p` lies strictly inside `r` grown by the gap to the right and downwards. */
  predicate InsideWithGap(p: Point, r: Rect) {
    r.x < p.x < r.x + r.width + GAP && r.y < p.y < r.y + r.height + GAP
  }

  /** The collision test is exactly "some point belongs to both gap-grown rectangles". */
  lemma OverlapMeansSharedPoint(a: Rect, b: Rect)
    requires a.width >= 0.0 && a.height >= 0.0 && b.width >= 0.0 && b.height >= 0.0
    ensures RectsOverlap(a, b) <==> exists p :: InsideWithGap(p, a) && InsideWithGap(p, b)
  {
    if RectsOverlap(a, b) {
      var x := (Max(a.x, b.x) + Min(a.x + a.width, b.x + b.width) + GAP) / 2.0;
      var y := (Max(a.y, b.y) + Min(a.y + a.height, b.y + b.height) + GAP) / 2.0;
      assert InsideWithGap(Point(x, y), a) && InsideWithGap(Point(x, y), b);
    }
  }

  /** The rectangles of the views of one scope, in row order. */
  function InScope(views: seq<CanvasView>, scopeId: string): seq<Rect> {
    if views == [] then []
    else
      var rest := InScope(views[..|views| - 1], scopeId);
      var last := views[|views| - 1];
      if last.scopeId == scopeId then rest + [last.rect] else rest
  }

  lemma InScopeMember(views: seq<CanvasView>, scopeId: string, i: nat)
    requires i < |views| && views[i].scopeId == scopeId
    ensures views[i].rect in InScope(views, scopeId)
  {
    if i < |views| - 1 {
      InScopeMember(views[..|views| - 1], scopeId, i);
    }
  }

  function Anchor(occupied: seq<Rect>): Point {
    if occupied == [] then DEFAULT_ANCHOR
    else
      var last := occupied[|occupied| - 1];
      Point(last.x + last.width, last.y + last.height)
  }

  function RowWidth(occupied: seq<Rect>): real { Max(640.0, Anchor(occupied).x + 720.0) }

  /** A capture without a size gets 280 by 190; a given size is kept between 80 and 720 by 48 and 520. */
  lemma ReservedSize(size: Option<real>)
    ensures size.None? ==> ClampWidth(size) == 280.0 && ClampHeight(size) == 190.0
    ensures size.Some? && 80.0 <= size.value <= 720.0 ==> ClampWidth(size) == size.value
    ensures size.Some? && size.value < 80.0 ==> ClampWidth(size) == 80.0
    ensures size.Some? && size.value > 720.0 ==> ClampWidth(size) == 720.0
    ensures size.Some? && 48.0 <= size.value <= 520.0 ==> ClampHeight(size) == size.value
    ensures size.Some? && size.value < 48.0 ==> ClampHeight(size) == 48.0
    ensures size.Some? && size.value > 520.0 ==> ClampHeight(size) == 520.0
  {
  }

  /** View `i` is the last of its scope. */
  ghost predicate IsLastInScope(views: seq<CanvasView>, scopeId: string, i: nat) {
    i < |views| && views[i].scopeId == scopeId && forall k :: i < k < |views| ==> views[k].scopeId != scopeId
  }

  /** The anchor is the lower right corner of the last view of the scope; an empty scope has the default anchor. */
  lemma {:induction false} AnchorIsTheLastCorner(views: seq<CanvasView>, scopeId: string, i: nat)
    ensures IsLastInScope(views, scopeId, i) ==>
              Anchor(InScope(views, scopeId))
              == Point(views[i].rect.x + views[i].rect.width, views[i].rect.y + views[i].rect.height)
    ensures (forall k :: 0 <= k < |views| ==> views[k].scopeId != scopeId) ==>
              InScope(views, scopeId) == [] && Anchor(InScope(views, scopeId)) == Point(180.0, 160.0)
    ensures forall r :: r in InScope(views, scopeId) <==>
              exists k :: 0 <= k < |views| && views[k] == CanvasView(scopeId, r)
  {
    if views != [] {
      var front, last := views[..|views| - 1], views[|views| - 1];
      AnchorIsTheLastCorner(front, scopeId, i);
      if i < |front| && IsLastInScope(views, scopeId, i) { assert IsLastInScope(front, scopeId, i); }
      forall r ensures r in InScope(views, scopeId)
                       <==> exists k :: 0 <= k < |views| && views[k] == CanvasView(scopeId, r)
      {
        if k :| 0 <= k < |front| && front[k] == CanvasView(scopeId, r) { assert views[k] == front[k]; }
        if last == CanvasView(scopeId, r) { assert views[|front|] == last; }
      }
    }
  }

  predicate Blocked(occupied: seq<Rect>, at: Point, width: real, height: real) {
    exists r :: r in occupied && RectsOverlap(Rect(at.x, at.y, width, height), r)
  }

  /** Slot number `k` of the expanding ring. */
  function RingSlot(anchor: Point, k: nat, width: real, height: real): Point {
    var ring, slot := k / 4, k % 4;
    Point(
      anchor.x + (slot % 2) as real * (width + GAP) + ring as real * (width + GAP) * 2.0,
      anchor.y + (slot / 2) as real * (height + GAP) + ring as real * (height + GAP))
  }

  predicate Usable(occupied: seq<Rect>, k: nat, width: real, height: real) {
    var at := RingSlot(Anchor(occupied), k, width, height);
    at.x + width <= RowWidth(occupied) && !Blocked(occupied, at, width, height)
  }

  function NextFallback(p: Point, width: real, height: real, rowWidth: real): Point {
    if p.x + width + GAP > rowWidth then Point(DEFAULT_ANCHOR.x, p.y + (height + GAP))
    else Point(p.x + (width + GAP), p.y)
  }

  /** Point number `n` of the row-major fallback scan. */
  function FallbackAt(n: nat, width: real, height: real, rowWidth: real): Point {
    if n == 0 then DEFAULT_ANCHOR
    else NextFallback(FallbackAt(n - 1, width, height, rowWidth), width, height, rowWidth)
  }

  ghost predicate FirstUsable(occupied: seq<Rect>, k: nat, width: real, height: real) {
    Usable(occupied, k, width, height)
    && forall j: nat :: j < k ==> !Usable(occupied, j, width, height)
  }

  ghost predicate FirstFreeFallback(occupied: seq<Rect>, n: nat, width: real, height: real) {
    !Blocked(occupied, FallbackAt(n, width, height, RowWidth(occupied)), width, height)
    && forall m: nat :: m < n ==> Blocked(occupied, FallbackAt(m, width, height, RowWidth(occupied)), width, height)
  }

  ghost predicate RingExhausted(occupied: seq<Rect>, width: real, height: real) {
    forall k: nat :: k < MAX_TRIES ==> !Usable(occupied, k, width, height)
  }

  /** The position `place` promises: the first usable ring slot, else the first free scan point. */
  ghost predicate IsPlacement(occupied: seq<Rect>, width: real, height: real, at: Point) {
    || (exists k: nat :: k < MAX_TRIES && FirstUsable(occupied, k, width, height)
                         && at == RingSlot(Anchor(occupied), k, width, height))
    || (RingExhausted(occupied, width, height)
        && exists n: nat :: FirstFreeFallback(occupied, n, width, height)
                            && at == FallbackAt(n, width, height, RowWidth(occupied)))
  }

  predicate ApartFromAll(occupied: seq<Rect>, r: Rect) {
    forall o :: o in occupied ==> !RectsOverlap(r, o)
  }

  /** At most one position qualifies, and it keeps the gap from every view of the scope. */
  lemma PlacementUniqueAndApart(occupied: seq<Rect>, width: real, height: real, p: Point, q: Point)
    requires IsPlacement(occupied, width, height, p) && IsPlacement(occupied, width, height, q)
    ensures p == q
    ensures ApartFromAll(occupied, Rect(p.x, p.y, width, height))
  {
    if RingExhausted(occupied, width, height) {
      var n: nat :| FirstFreeFallback(occupied, n, width, height)
          && p == FallbackAt(n, width, height, RowWidth(occupied));
      var m: nat :| FirstFreeFallback(occupied, m, width, height)
          && q == FallbackAt(m, width, height, RowWidth(occupied));
      assert n == m;
    } else {
      var n: nat :| n < MAX_TRIES && FirstUsable(occupied, n, width, height)
          && p == RingSlot(Anchor(occupied), n, width, height);
      var m: nat :| m < MAX_TRIES && FirstUsable(occupied, m, width, height)
          && q == RingSlot(Anchor(occupied), m, width, height);
      assert n == m;
    }
  }

  /** A height below which no view of the scope reaches, gap included. */
  ghost function Bottom(occupied: seq<Rect>): real {
    if occupied == [] then 0.0
    else Max(Bottom(occupied[1..]), occupied[0].y + occupied[0].height + GAP)
  }

  lemma BlockedIsAboveBottom(occupied: seq<Rect>, at: Point, width: real, height: real)
    requires Blocked(occupied, at, width, height)
    ensures at.y < Bottom(occupied)
  {
    var r :| r in occupied && RectsOverlap(Rect(at.x, at.y, width, height), r);
    if r != occupied[0] {
      assert r in occupied[1..];
      BlockedIsAboveBottom(occupied[1..], at, width, height);
    }
  }

  class CapturePlacementService {
    /** The repository's view rows, in row order. */
    var views: seq<CanvasView>

    constructor ()
      ensures views == []
    {
      views := [];
    }

    method Place(scopeId: string, inputWidth: Option<real>, inputHeight: Option<real>) returns (at: Point)
      ensures IsPlacement(InScope(views, scopeId), ClampWidth(inputWidth), ClampHeight(inputHeight), at)
    {
      var width, height := ClampWidth(inputWidth), ClampHeight(inputHeight);
      var occupied := InScope(views, scopeId);
      var anchor := Anchor(occupied);
      var rowWidth := RowWidth(occupied);
      for tryIndex := 0 to MAX_TRIES
        invariant forall j: nat :: j < tryIndex ==> !Usable(occupied, j, width, height)
      {
        var candidate := RingSlot(anchor, tryIndex, width, height);
        if candidate.x + width <= rowWidth {
          var free := IsFree(occupied, candidate, width, height);
          if free {
            assert FirstUsable(occupied, tryIndex, width, height);
            return candidate;
          }
        }
      }
      assert RingExhausted(occupied, width, height);
      var fallbackX, fallbackY := DEFAULT_ANCHOR.x, DEFAULT_ANCHOR.y;
      ghost var n: nat := 0;
      var free := IsFree(occupied, Point(fallbackX, fallbackY), width, height);
      while !free
        invariant fallbackX <= rowWidth
        invariant Point(fallbackX, fallbackY) == FallbackAt(n, width, height, rowWidth)
        invariant free == !Blocked(occupied, Point(fallbackX, fallbackY), width, height)
        invariant forall m: nat :: m < n ==> Blocked(occupied, FallbackAt(m, width, height, rowWidth), width, height)
        decreases Bottom(occupied) - fallbackY, rowWidth - fallbackX, !free
      {
        BlockedIsAboveBottom(occupied, Point(fallbackX, fallbackY), width, height);
        fallbackX := fallbackX + (width + GAP);
        if fallbackX > rowWidth {
          fallbackX := DEFAULT_ANCHOR.x;
          fallbackY := fallbackY + (height + GAP);
        }
        n := n + 1;
        free := IsFree(occupied, Point(fallbackX, fallbackY), width, height);
      }
      assert FirstFreeFallback(occupied, n, width, height);
      at := Point(fallbackX, fallbackY);
    }

    static method IsFree(occupied: seq<Rect>, at: Point, width: real, height: real) returns (free: bool)
      ensures free == !Blocked(occupied, at, width, height)
    {
      for i := 0 to |occupied|
        invariant forall j :: 0 <= j < i ==> !RectsOverlap(Rect(at.x, at.y, width, height), occupied[j])
      {
        if RectsOverlap(Rect(at.x, at.y, width, height), occupied[i]) {
          return false;
        }
      }
      free := true;
    }

    /** One capture: reserve a rectangle with `Place`, then, with nothing in between, insert a view there. */
    method PlaceAndInsert(
      scopeId: string, inputWidth: Option<real>, inputHeight: Option<real>, viewWidth: real, viewHeight: real)
      modifies this
      ensures exists at ::
          && IsPlacement(InScope(old(views), scopeId), ClampWidth(inputWidth), ClampHeight(inputHeight), at)
          && views == old(views) + [CanvasView(scopeId, Rect(at.x, at.y, viewWidth, viewHeight))]
    {
      var at := Place(scopeId, inputWidth, inputHeight);
      views := views + [CanvasView(scopeId, Rect(at.x, at.y, viewWidth, viewHeight))];
    }
  }

  // ---------- runs ----------

  /**
   * One capture of a run: the reserved size, the view finally inserted, and how many captures of the run had been
   * inserted when it was placed; the import of the capture lies in between, and others may be inserted meanwhile.
   */
  datatype Placed = Placed(scopeId: string, width: real, height: real, view: Rect, seen: nat)

  ghost predicate PlacedBy(views: seq<CanvasView>, p: Placed) {
    && IsPlacement(InScope(views, p.scopeId), p.width, p.height, Point(p.view.x, p.view.y))
    && p.view.width <= p.width && p.view.height <= p.height
  }

  /** The rows after the captures of a run, in the order of their insertion. */
  function AfterRun(views: seq<CanvasView>, run: seq<Placed>): seq<CanvasView> {
    if run == [] then views
    else AfterRun(views, run[..|run| - 1]) + [CanvasView(run[|run| - 1].scopeId, run[|run| - 1].view)]
  }

  ghost predicate IsRun(views: seq<CanvasView>, run: seq<Placed>) {
    forall k :: 0 <= k < |run| ==> run[k].seen <= k && PlacedBy(AfterRun(views, run[..run[k].seen]), run[k])
  }

  lemma {:induction false} RowsOfRun(views: seq<CanvasView>, run: seq<Placed>, m: nat)
    requires m <= |run|
    ensures |AfterRun(views, run)| == |views| + |run|
    ensures AfterRun(views, run)[..|views| + m] == AfterRun(views, run[..m])
    ensures m < |run| ==> AfterRun(views, run)[|views| + m] == CanvasView(run[m].scopeId, run[m].view)
  {
    assert run[..|run|] == run;
    if run != [] {
      var front := run[..|run| - 1];
      RowsOfRun(views, front, if m < |run| then m else m - 1);
      if m < |run| { assert front[..m] == run[..m]; }
    }
  }

  /** No capture of a run overlaps a view that was there when it was placed: every such pair keeps the gap. */
  lemma RunAddsNoOverlap(views: seq<CanvasView>, run: seq<Placed>, i: nat, k: nat)
    requires IsRun(views, run) && k < |run| && i < |views| + run[k].seen
    ensures |AfterRun(views, run)| == |views| + |run|
    ensures var after := AfterRun(views, run);
            after[i].scopeId == run[k].scopeId ==> !RectsOverlap(after[i].rect, after[|views| + k].rect)
  {
    var after, p := AfterRun(views, run), run[k];
    RowsOfRun(views, run, p.seen);
    RowsOfRun(views, run, k);
    var before := AfterRun(views, run[..p.seen]);
    assert before[i] == after[i];
    if after[i].scopeId == p.scopeId {
      InScopeMember(before, p.scopeId, i);
      var at := Point(p.view.x, p.view.y);
      PlacementUniqueAndApart(InScope(before, p.scopeId), p.width, p.height, at, at);
    }
  }

  /** Two captures of one size that are placed on the same rows get the same place, and so overlap. */
  lemma PlacedTogetherOverlap(views: seq<CanvasView>, a: Placed, b: Placed)
    requires PlacedBy(views, a) && PlacedBy(views, b) && a.scopeId == b.scopeId
    requires a.width == b.width && a.height == b.height
    requires a.view.width >= 0.0 && a.view.height >= 0.0 && b.view.width >= 0.0 && b.view.height >= 0.0
    ensures a.view.x == b.view.x && a.view.y == b.view.y && RectsOverlap(a.view, b.view)
  {
    PlacementUniqueAndApart(
      InScope(views, a.scopeId), a.width, a.height, Point(a.view.x, a.view.y), Point(b.view.x, b.view.y));
  }

  // ---------- when the ring is exhausted ----------

  /** Ring slot `k` lies this many columns to the right of the anchor. */
  function Column(k: nat): nat { k % 4 % 2 + 2 * (k / 4) }

  /** The width between the anchor and the end of the row. */
  function Room(occupied: seq<Rect>): real { RowWidth(occupied) - Anchor(occupied).x }

  /** Ring slot `k` ends within the row. */
  predicate Fits(occupied: seq<Rect>, k: nat, width: real) {
    Column(k) as real * (width + GAP) + width <= Room(occupied)
  }

  lemma FitsExactly(occupied: seq<Rect>, k: nat, width: real, height: real)
    ensures Fits(occupied, k, width)
            <==> RingSlot(Anchor(occupied), k, width, height).x + width <= RowWidth(occupied)
  {
    var step, ring, slot := width + GAP, (k / 4) as real, (k % 4 % 2) as real;
    assert Column(k) as real == slot + 2.0 * ring;
    assert (slot + 2.0 * ring) * step == slot * step + ring * step * 2.0;
  }

  /** The ring is exhausted exactly when every slot that fits the row is blocked. */
  lemma RingExhaustedExactly(occupied: seq<Rect>, width: real, height: real)
    ensures Room(occupied) == Max(640.0 - Anchor(occupied).x, 720.0)
    ensures RingExhausted(occupied, width, height) <==>
            forall k: nat :: k < MAX_TRIES && Fits(occupied, k, width) ==>
              Blocked(occupied, RingSlot(Anchor(occupied), k, width, height), width, height)
  {
    forall k: nat
      ensures Usable(occupied, k, width, height) <==>
              Fits(occupied, k, width)
              && !Blocked(occupied, RingSlot(Anchor(occupied), k, width, height), width, height)
    {
      FitsExactly(occupied, k, width, height);
    }
  }

  /**
   * Unless the last view ends far to the left, the row has room for 720, and only the first few rings fit: a capture
   * of any width a call can ask for has at most 16 slots, and one wider than 348 has two, one below the other.
   */
  lemma FittingSlots(occupied: seq<Rect>, k: nat, width: real)
    requires 80.0 <= width <= 720.0 && Anchor(occupied).x >= -80.0
    ensures Room(occupied) == 720.0
    ensures Column(k) == 0 ==> Fits(occupied, k, width)
    ensures Fits(occupied, k, width) ==> k < 16
    ensures width > 348.0 ==> (Fits(occupied, k, width) <==> k == 0 || k == 2)
  {
    if Column(k) > 0 { Further(1, Column(k), width + GAP); }
    if k >= 16 { Further(8, Column(k), width + GAP); }
  }

  lemma Further(d: nat, c: nat, step: real)
    requires d <= c && step >= 0.0
    ensures d as real * step <= c as real * step
  {
    assert (c - d) as real == c as real - d as real;
    assert (c - d) as real * step >= 0.0;
  }

  /** For a capture wider than 348 the ring is exhausted exactly when its slots 0 and 2 are blocked. */
  lemma WideRingExhausted(occupied: seq<Rect>, width: real, height: real)
    requires 348.0 < width <= 720.0 && Anchor(occupied).x >= -80.0
    ensures var anchor := Anchor(occupied);
            RingExhausted(occupied, width, height) <==>
              && Blocked(occupied, anchor, width, height)
              && Blocked(occupied, Point(anchor.x, anchor.y + height + GAP), width, height)
  {
    var anchor := Anchor(occupied);
    RingExhaustedExactly(occupied, width, height);
    assert RingSlot(anchor, 0, width, height) == anchor;
    assert RingSlot(anchor, 2, width, height) == Point(anchor.x, anchor.y + height + GAP);
    forall k: nat ensures Fits(occupied, k, width) <==> k == 0 || k == 2 { FittingSlots(occupied, k, width); }
  }

  /** Such scopes exist: a wide capture fits only two ring slots, and both can be taken. */
  lemma FallbackIsReachable()
    ensures var occupied := [Rect(180.0, 160.0, 720.0, 96.0), Rect(0.0, 0.0, 180.0, 160.0)];
            Anchor(occupied) == DEFAULT_ANCHOR && RingExhausted(occupied, 720.0, 48.0)
  {
    var occupied := [Rect(180.0, 160.0, 720.0, 96.0), Rect(0.0, 0.0, 180.0, 160.0)];
    assert RectsOverlap(Rect(180.0, 160.0, 720.0, 48.0), occupied[0]);
    assert RectsOverlap(Rect(180.0, 232.0, 720.0, 48.0), occupied[0]);
    WideRingExhausted(occupied, 720.0, 48.0);
  }
}
