/**
 * The stored sections of one imported conversation: `refreshSections` and
 * `updateSection` (apps/local-core/src/conversation-import-service.ts).
 *
 * The table is a sequence of rows in rowid order. Every write checks the two
 * keys of `conversation_sections` (PRIMARY KEY id, UNIQUE(session_id, seq)) and
 * a violated key rolls the whole transaction back.
 */
module SectionRefresh {
  import opened Wrappers
  import opened SectionDerivation

  /** `conversation-section-<hash of conversation:start:end>`; the hash is taken as injective. */
  datatype SectionId = SectionId(start: nat, end: nat)

  datatype Row = Row(id: SectionId, ordinal: nat, kind: Kind, title: string, startSeq: nat, endSeq: nat, locked: bool)

  datatype Error = ConversationNotFound | SectionNotFound | UniqueViolation

  const SHIFT := 1_000_000

  function NewRow(s: Section): Row {
    Row(SectionId(s.startSeq, s.endSeq), s.ordinal, s.kind, s.title, s.startSeq, s.endSeq, false)
  }

  // ---------- the invariant ----------

  /** `r` stores derived section number `i`. */
  predicate Stores(r: Row, derived: seq<Section>, i: nat) {
    i < |derived| && r.startSeq == derived[i].startSeq && r.endSeq == derived[i].endSeq
    && r.id == SectionId(r.startSeq, r.endSeq)
  }

  predicate OrdinalsDistinct(rows: seq<Row>) {
    forall x, y :: 0 <= x < y < |rows| ==> rows[x].ordinal != rows[y].ordinal
  }

  /** `getSections`: `listing` is the table in `seq` order, and `seq` runs over 0..k-1. */
  ghost predicate IsListing(rows: seq<Row>, listing: seq<Row>) {
    && OrdinalsDistinct(rows)
    && (forall i :: 0 <= i < |listing| ==> listing[i] in rows && listing[i].ordinal == i)
    && (forall r :: r in rows ==> r.ordinal < |listing| && listing[r.ordinal] == r)
  }

  /** The listing is the derived partition, range for range; locks and titles are free. */
  ghost predicate Partitioned(listing: seq<Row>, derived: seq<Section>) {
    |listing| == |derived| && forall i :: 0 <= i < |derived| ==>
        Stores(listing[i], derived, i) && listing[i].ordinal == i
  }

  // ---------- what the two operations promise ----------

  /** Locked rows stay as they are; every other section is derived afresh. */
  function Refreshed(listing: seq<Row>, derived: seq<Section>): seq<Row>
    requires |listing| == |derived|
  {
    seq(|derived|, (i: nat) requires i < |derived| => if listing[i].locked then listing[i] else NewRow(derived[i]))
  }

  /** `title` is the request's title after trimming. */
  function Updated(r: Row, title: Option<string>, lockedByUser: Option<bool>): Row {
    var titleWasEdited := title.Some? && title.value != r.title;
    var next := if title.Some? && title.value != "" then title.value else r.title;
    r.(title := if |next| > 160 then next[..160] else next,
       locked := if lockedByUser.Some? then lockedByUser.value else if titleWasEdited then true else r.locked)
  }

  /** The numbers of the locked sections, each once, in the order in which a statement visits their rows. */
  ghost predicate IsVisit(listing: seq<Row>, numbers: seq<nat>) {
    && (forall i, j :: 0 <= i < j < |numbers| ==> numbers[i] != numbers[j])
    && (forall o: nat :: o in numbers <==> o < |listing| && listing[o].locked)
  }

  /** The shift `seq = seq + 1000000`, row by row, never meets a row that is still to be shifted. */
  predicate ShiftIsSafe(numbers: seq<nat>) {
    forall x, y :: 0 <= x < y < |numbers| ==> numbers[x] + SHIFT != numbers[y]
  }

  /** No two locked sections are a million apart. */
  predicate LocksAreApart(listing: seq<Row>) {
    forall i :: 0 <= i < |listing| - SHIFT ==> !listing[i].locked || !listing[i + SHIFT].locked
  }

  // ---------- statements ----------

  predicate SeqTaken(rows: seq<Row>, ordinal: nat) {
    exists r :: r in rows && r.ordinal == ordinal
  }

  predicate IdTaken(rows: seq<Row>, id: SectionId) {
    exists r :: r in rows && r.id == id
  }

  function LockedRows(rows: seq<Row>): (locked: seq<Row>)
  {
    if rows == [] then [] else (if rows[0].locked then [rows[0]] else []) + LockedRows(rows[1..])
  }

  lemma {:induction false} LockedMembers(rows: seq<Row>)
    ensures forall r :: r in LockedRows(rows) <==> r in rows && r.locked
    ensures OrdinalsDistinct(rows) ==> OrdinalsDistinct(LockedRows(rows))
  {
    if rows != [] {
      LockedMembers(rows[1..]);
      var rest := LockedRows(rows[1..]);
      forall r ensures r in LockedRows(rows) <==> r in rows && r.locked {
        assert r in rows <==> r == rows[0] || r in rows[1..];
        assert r in LockedRows(rows) <==> (r == rows[0] && r.locked) || r in rest;
      }
      if OrdinalsDistinct(rows) && rows[0].locked {
        forall y | 0 <= y < |rest| ensures rest[y].ordinal != rows[0].ordinal {
          assert rest[y] in rows[1..];
        }
      }
    }
  }

  predicate RangesMeet(r: Row, s: Section) {
    r.startSeq <= s.endSeq && r.endSeq >= s.startSeq
  }

  /** Ranges meet exactly when they share a message. */
  lemma MeetMeansSharedMessage(r: Row, s: Section)
    requires r.startSeq <= r.endSeq && s.startSeq <= s.endSeq
    ensures RangesMeet(r, s) <==> exists p: nat :: Holds(s, p) && r.startSeq <= p <= r.endSeq
  {
    if RangesMeet(r, s) {
      var p := if r.startSeq <= s.startSeq then s.startSeq else r.startSeq;
      assert Holds(s, p) && r.startSeq <= p <= r.endSeq;
    }
  }

  predicate OverlapsLocked(locked: seq<Row>, s: Section) {
    exists r :: r in locked && RangesMeet(r, s)
  }

  function Candidates(locked: seq<Row>, derived: seq<Section>): (candidates: seq<Section>)
  {
    if derived == [] then []
    else (if OverlapsLocked(locked, derived[0]) then [] else [derived[0]]) + Candidates(locked, derived[1..])
  }

  ghost predicate StartsIncrease(sections: seq<Section>) {
    forall x, y :: 0 <= x < y < |sections| ==> sections[x].startSeq < sections[y].startSeq
  }

  lemma {:induction false} CandidateMembers(locked: seq<Row>, derived: seq<Section>)
    ensures forall s :: s in Candidates(locked, derived) <==> s in derived && !OverlapsLocked(locked, s)
    ensures StartsIncrease(derived) ==> StartsIncrease(Candidates(locked, derived))
  {
    if derived != [] {
      CandidateMembers(locked, derived[1..]);
      var rest := Candidates(locked, derived[1..]);
      forall s ensures s in Candidates(locked, derived) <==> s in derived && !OverlapsLocked(locked, s) {
        assert s in derived <==> s == derived[0] || s in derived[1..];
        assert s in Candidates(locked, derived) <==> (s == derived[0] && !OverlapsLocked(locked, s)) || s in rest;
      }
      if StartsIncrease(derived) && !OverlapsLocked(locked, derived[0]) {
        forall y | 0 <= y < |rest| ensures derived[0].startSeq < rest[y].startSeq {
          assert rest[y] in derived[1..];
        }
      }
    }
  }

  /** One entry of the merged list that is written back. */
  datatype Item = LockedItem(start: nat, id: SectionId) | DerivedItem(start: nat, section: Section)

  function Merge(locked: seq<Row>, candidates: seq<Section>): seq<Item> {
    seq(|locked|, (i: nat) requires i < |locked| => LockedItem(locked[i].startSeq, locked[i].id))
    + seq(|candidates|, (i: nat) requires i < |candidates| => DerivedItem(candidates[i].startSeq, candidates[i]))
  }

  function InsertByStart(item: Item, sorted: seq<Item>): (r: seq<Item>)
    ensures forall e :: e in r <==> e == item || e in sorted
  {
    if sorted == [] then [item]
    else if item.start <= sorted[0].start then [item] + sorted
    else [sorted[0]] + InsertByStart(item, sorted[1..])
  }

  /** `sort((a, b) => a.startSeq - b.startSeq)`, stable. */
  function SortByStart(items: seq<Item>): (r: seq<Item>)
    ensures forall e :: e in r <==> e in items
  {
    if items == [] then [] else InsertByStart(items[0], SortByStart(items[1..]))
  }

  // ---------- the merged list is the derived order ----------

  ghost predicate Increasing(items: seq<Item>) {
    forall i, j :: 0 <= i < j < |items| ==> items[i].start < items[j].start
  }

  lemma {:induction false} InsertKeepsIncreasing(item: Item, sorted: seq<Item>)
    requires Increasing(sorted) && forall e :: e in sorted ==> e.start != item.start
    ensures Increasing(InsertByStart(item, sorted))
  {
    if sorted != [] && item.start > sorted[0].start {
      InsertKeepsIncreasing(item, sorted[1..]);
      var rest := InsertByStart(item, sorted[1..]);
      forall j | 0 <= j < |rest| ensures sorted[0].start < rest[j].start {
        assert rest[j] in rest;
      }
    }
  }

  lemma {:induction false} SortIncreases(items: seq<Item>)
    requires forall i, j :: 0 <= i < j < |items| ==> items[i].start != items[j].start
    ensures Increasing(SortByStart(items))
  {
    if items != [] {
      SortIncreases(items[1..]);
      InsertKeepsIncreasing(items[0], SortByStart(items[1..]));
    }
  }

  lemma BothEmptyOrNeither(a: seq<Item>, b: seq<Item>)
    requires forall e :: e in a <==> e in b
    ensures a == [] <==> b == []
  {
    if a != [] { assert a[0] in b; }
    if b != [] { assert b[0] in a; }
  }

  lemma {:induction false} IncreasingListsAgree(a: seq<Item>, b: seq<Item>)
    requires Increasing(a) && Increasing(b)
    requires forall e :: e in a <==> e in b
    ensures a == b
  {
    BothEmptyOrNeither(a, b);
    if a != [] {
      assert a[0] in b && b[0] in a;
      assert a[0] == b[0];
      forall e ensures e in a[1..] <==> e in b[1..] {
        assert e in a[1..] <==> e in a && e != a[0];
        assert e in b[1..] <==> e in b && e != b[0];
      }
      IncreasingListsAgree(a[1..], b[1..]);
    }
  }

  /** The item that belongs at position `i`. */
  ghost function ItemFor(listing: seq<Row>, derived: seq<Section>, i: nat): Item
    requires i < |derived| == |listing|
  {
    if listing[i].locked then LockedItem(listing[i].startSeq, listing[i].id)
    else DerivedItem(derived[i].startSeq, derived[i])
  }

  /** The stored table of a conversation with the derived sections `derived`. */
  ghost predicate Sound(rows: seq<Row>, listing: seq<Row>, derived: seq<Section>, n: nat) {
    IsPartition(derived, n) && IsListing(rows, listing) && Partitioned(listing, derived)
  }

  lemma DerivedStartsIncrease(derived: seq<Section>, n: nat)
    requires IsPartition(derived, n)
    ensures StartsIncrease(derived)
  {
    forall i, j | 0 <= i < j < |derived| ensures derived[i].startSeq < derived[j].startSeq {
      PartitionOrdered(derived, n, i, j);
    }
  }

  lemma OverlapOnlyItself(rows: seq<Row>, listing: seq<Row>, derived: seq<Section>, n: nat, i: nat)
    requires Sound(rows, listing, derived, n) && i < |derived|
    ensures OverlapsLocked(LockedRows(rows), derived[i]) <==> listing[i].locked
  {
    var locked := LockedRows(rows);
    LockedMembers(rows);
    assert Stores(listing[i], derived, i);
    if listing[i].locked { assert listing[i] in locked && RangesMeet(listing[i], derived[i]); }
    forall r | r in locked && RangesMeet(r, derived[i]) ensures r == listing[i] {
      assert Stores(listing[r.ordinal], derived, r.ordinal);
      if r.ordinal < i { PartitionOrdered(derived, n, r.ordinal, i); }
      if i < r.ordinal { PartitionOrdered(derived, n, i, r.ordinal); }
    }
  }

  ghost function Expected(listing: seq<Row>, derived: seq<Section>): seq<Item>
    requires |listing| == |derived|
  {
    seq(|derived|, (i: nat) requires i < |derived| => ItemFor(listing, derived, i))
  }

  function Merged(rows: seq<Row>, derived: seq<Section>): seq<Item> {
    Merge(LockedRows(rows), Candidates(LockedRows(rows), derived))
  }

  lemma MergedIsExpected(rows: seq<Row>, listing: seq<Row>, derived: seq<Section>, n: nat, x: nat)
    requires Sound(rows, listing, derived, n) && x < |Merged(rows, derived)|
    ensures Merged(rows, derived)[x] in Expected(listing, derived)
  {
    var locked := LockedRows(rows);
    var candidates := Candidates(locked, derived);
    var expected := Expected(listing, derived);
    LockedMembers(rows);
    CandidateMembers(locked, derived);
    if x < |locked| {
      assert locked[x] in locked;
      assert Stores(listing[locked[x].ordinal], derived, locked[x].ordinal);
      assert expected[locked[x].ordinal] == Merged(rows, derived)[x];
    } else {
      assert candidates[x - |locked|] in candidates;
      var i :| 0 <= i < |derived| && derived[i] == candidates[x - |locked|];
      OverlapOnlyItself(rows, listing, derived, n, i);
      assert expected[i] == Merged(rows, derived)[x];
    }
  }

  lemma ExpectedIsMerged(rows: seq<Row>, listing: seq<Row>, derived: seq<Section>, n: nat, i: nat)
    requires Sound(rows, listing, derived, n) && i < |derived|
    ensures Expected(listing, derived)[i] in Merged(rows, derived)
  {
    var locked := LockedRows(rows);
    var candidates := Candidates(locked, derived);
    var merged := Merged(rows, derived);
    LockedMembers(rows);
    CandidateMembers(locked, derived);
    OverlapOnlyItself(rows, listing, derived, n, i);
    if listing[i].locked {
      assert listing[i] in locked;
      var x :| 0 <= x < |locked| && locked[x] == listing[i];
      assert merged[x] == Expected(listing, derived)[i];
    } else {
      assert derived[i] in candidates;
      var x :| 0 <= x < |candidates| && candidates[x] == derived[i];
      assert merged[|locked| + x] == Expected(listing, derived)[i];
    }
  }

  lemma MergedHasTheItems(rows: seq<Row>, listing: seq<Row>, derived: seq<Section>, n: nat)
    requires Sound(rows, listing, derived, n)
    ensures forall e :: e in Merged(rows, derived) <==> e in Expected(listing, derived)
  {
    var merged, expected := Merged(rows, derived), Expected(listing, derived);
    forall x: nat | x < |merged| ensures merged[x] in expected { MergedIsExpected(rows, listing, derived, n, x); }
    forall i: nat | i < |expected| ensures expected[i] in merged { ExpectedIsMerged(rows, listing, derived, n, i); }
  }

  lemma MergedStartsDiffer(rows: seq<Row>, listing: seq<Row>, derived: seq<Section>, n: nat)
    requires Sound(rows, listing, derived, n)
    ensures var merged := Merged(rows, derived);
            forall x, y :: 0 <= x < y < |merged| ==> merged[x].start != merged[y].start
  {
    var locked := LockedRows(rows);
    var candidates := Candidates(locked, derived);
    var merged := Merged(rows, derived);
    LockedMembers(rows);
    CandidateMembers(locked, derived);
    DerivedStartsIncrease(derived, n);
    forall x, y | 0 <= x < y < |merged| ensures merged[x].start != merged[y].start {
      if y < |locked| {
        assert locked[x] in locked && locked[y] in locked;
        assert Stores(listing[locked[x].ordinal], derived, locked[x].ordinal);
        assert Stores(listing[locked[y].ordinal], derived, locked[y].ordinal);
      } else if x < |locked| {
        var s := candidates[y - |locked|];
        assert locked[x] in locked && s in candidates;
        assert Stores(listing[locked[x].ordinal], derived, locked[x].ordinal);
        var i :| 0 <= i < |derived| && derived[i] == s;
        OverlapOnlyItself(rows, listing, derived, n, i);
      }
    }
  }

  /** Sorting the locked rows and the candidates by start gives exactly the derived order. */
  lemma MergedIsDerivedOrder(rows: seq<Row>, listing: seq<Row>, derived: seq<Section>, n: nat)
    requires Sound(rows, listing, derived, n)
    ensures SortByStart(Merged(rows, derived)) == Expected(listing, derived)
  {
    DerivedStartsIncrease(derived, n);
    MergedHasTheItems(rows, listing, derived, n);
    MergedStartsDiffer(rows, listing, derived, n);
    SortIncreases(Merged(rows, derived));
    forall i, j | 0 <= i < j < |derived|
      ensures Expected(listing, derived)[i].start < Expected(listing, derived)[j].start
    {
      assert Stores(listing[i], derived, i) && Stores(listing[j], derived, j);
    }
    IncreasingListsAgree(SortByStart(Merged(rows, derived)), Expected(listing, derived));
  }

  // ---------- the write-back ----------

  /** The table after positions 0..s-1 have been written back; later locked rows still carry their shifted number. */
  ghost predicate Midway(rows: seq<Row>, listing: seq<Row>, derived: seq<Section>, s: nat)
    requires |listing| == |derived|
  {
    && s <= |derived|
    && OrdinalsDistinct(rows)
    && (forall r :: r in rows ==> Written(r, listing, derived, s) || Shifted(r, listing, s))
    && (forall i :: 0 <= i < s ==> Refreshed(listing, derived)[i] in rows)
    && (forall i :: s <= i < |listing| && listing[i].locked ==> Shift(listing[i]) in rows)
  }

  function Shift(r: Row): Row { r.(ordinal := r.ordinal + SHIFT) }

  ghost predicate Written(r: Row, listing: seq<Row>, derived: seq<Section>, s: nat)
    requires |listing| == |derived|
  {
    r.ordinal < s <= |derived| && r == Refreshed(listing, derived)[r.ordinal]
  }

  ghost predicate Shifted(r: Row, listing: seq<Row>, s: nat) {
    s + SHIFT <= r.ordinal < |listing| + SHIFT
    && listing[r.ordinal - SHIFT].locked && r == listing[r.ordinal - SHIFT].(ordinal := r.ordinal)
  }

  lemma NoSeqConflict(rows: seq<Row>, listing: seq<Row>, derived: seq<Section>, s: nat)
    requires |listing| == |derived| && Midway(rows, listing, derived, s)
    ensures !SeqTaken(rows, s)
  {
  }

  /** Every row of a half-written table has the range of its derived section, so no two share an id. */
  lemma MidwayIds(rows: seq<Row>, listing: seq<Row>, derived: seq<Section>, n: nat, s: nat, r: Row, i: nat)
    requires Partitioned(listing, derived) && IsPartition(derived, n) && Midway(rows, listing, derived, s)
    requires r in rows && i < |derived| && r.id == SectionId(derived[i].startSeq, derived[i].endSeq)
    ensures r.ordinal == i || r.ordinal == i + SHIFT
    ensures r.ordinal < s ==> r.ordinal == i
  {
    var j := if Written(r, listing, derived, s) then r.ordinal else r.ordinal - SHIFT;
    assert Stores(listing[j], derived, j);
    if i < j { PartitionOrdered(derived, n, i, j); }
    if j < i { PartitionOrdered(derived, n, j, i); }
  }

  lemma WriteLocked(rows: seq<Row>, listing: seq<Row>, derived: seq<Section>, n: nat, s: nat, x: nat)
    requires Partitioned(listing, derived) && IsPartition(derived, n) && Midway(rows, listing, derived, s)
    requires s < |derived| && listing[s].locked && x < |rows| && rows[x].id == listing[s].id
    ensures Midway(rows[x := rows[x].(ordinal := s)], listing, derived, s + 1)
  {
    assert Stores(listing[s], derived, s);
    MidwayIds(rows, listing, derived, n, s, rows[x], s);
    NoSeqConflict(rows, listing, derived, s);
    assert rows[x] in rows;
    assert rows[x].ordinal == s + SHIFT;
    var next := rows[x := rows[x].(ordinal := s)];
    assert next[x] == listing[s];
    forall i | 0 <= i < s + 1 ensures Refreshed(listing, derived)[i] in next {
      if i == s { assert next[x] == Refreshed(listing, derived)[s]; }
      else {
        var y :| 0 <= y < |rows| && rows[y] == Refreshed(listing, derived)[i];
        assert Stores(listing[i], derived, i);
        assert next[y] == rows[y];
      }
    }
    forall i | s + 1 <= i < |listing| && listing[i].locked ensures Shift(listing[i]) in next {
      var y :| 0 <= y < |rows| && rows[y] == Shift(listing[i]);
      assert next[y] == rows[y];
    }
    forall r | r in next ensures Written(r, listing, derived, s + 1) || Shifted(r, listing, s + 1) {
      var y :| 0 <= y < |next| && next[y] == r;
      if y != x { assert rows[y] in rows; }
    }
  }

  lemma WriteDerived(rows: seq<Row>, listing: seq<Row>, derived: seq<Section>, n: nat, s: nat)
    requires Partitioned(listing, derived) && IsPartition(derived, n) && Midway(rows, listing, derived, s)
    requires s < |derived| && !listing[s].locked
    ensures !IdTaken(rows, NewRow(derived[s]).id)
    ensures Midway(rows + [NewRow(derived[s])], listing, derived, s + 1)
  {
    NoSeqConflict(rows, listing, derived, s);
    forall r | r in rows ensures r.id != NewRow(derived[s]).id {
      if r.id == NewRow(derived[s]).id {
        MidwayIds(rows, listing, derived, n, s, r, s);
      }
    }
    var row := NewRow(derived[s]);
    var next := rows + [row];
    assert row.ordinal == s && row == Refreshed(listing, derived)[s];
    assert OrdinalsDistinct(next) by {
      forall x | 0 <= x < |rows| ensures rows[x].ordinal != s { assert rows[x] in rows; }
    }
    assert next[|rows|] == row;
    forall i | 0 <= i < s ensures Refreshed(listing, derived)[i] in next {
      assert Refreshed(listing, derived)[i] in rows;
    }
    forall r | r in next ensures Written(r, listing, derived, s + 1) || Shifted(r, listing, s + 1) {
      if r in rows && Shifted(r, listing, s) { assert r.ordinal != s + SHIFT; }
    }
  }

  /** Deleting the unlocked rows and shifting the rest leaves the table ready for writing back. */
  lemma ShiftedIsMidway(rows: seq<Row>, listing: seq<Row>, derived: seq<Section>, n: nat, shifted: seq<Row>)
    requires Sound(rows, listing, derived, n)
    requires |shifted| == |LockedRows(rows)|
    requires forall x :: 0 <= x < |shifted| ==> shifted[x] == Shift(LockedRows(rows)[x])
    ensures Midway(shifted, listing, derived, 0)
  {
    var locked := LockedRows(rows);
    LockedMembers(rows);
    forall r | r in shifted ensures Shifted(r, listing, 0) {
      var x :| 0 <= x < |shifted| && shifted[x] == r;
      assert locked[x] in locked;
    }
    forall i | 0 <= i < |listing| && listing[i].locked ensures Shift(listing[i]) in shifted {
      assert listing[i] in locked;
      var x :| 0 <= x < |locked| && locked[x] == listing[i];
      assert shifted[x] == Shift(listing[i]);
    }
  }

  lemma WrittenBackIsSound(rows: seq<Row>, listing: seq<Row>, derived: seq<Section>, n: nat)
    requires IsPartition(derived, n) && Partitioned(listing, derived) && Midway(rows, listing, derived, |derived|)
    ensures Sound(rows, Refreshed(listing, derived), derived, n)
  {
    var refreshed := Refreshed(listing, derived);
    forall i | 0 <= i < |derived| ensures Stores(refreshed[i], derived, i) && refreshed[i].ordinal == i {
      assert Stores(listing[i], derived, i);
    }
  }

  // ---------- shifting the locked rows in any order ----------

  /** Each of the first `n` indices once, in some order. */
  ghost predicate IsOrder(visit: seq<nat>, n: nat) {
    && (forall i, j :: 0 <= i < j < |visit| ==> visit[i] != visit[j])
    && (forall i :: 0 <= i < |visit| ==> visit[i] < n)
    && (forall x: nat :: x < n ==> x in visit)
  }

  /** The numbers of the rows in the order of the visit. */
  function Numbers(rows: seq<Row>, visit: seq<nat>): (numbers: seq<nat>)
    requires forall i :: 0 <= i < |visit| ==> visit[i] < |rows|
    ensures |numbers| == |visit| && forall i :: 0 <= i < |visit| ==> numbers[i] == rows[visit[i]].ordinal
  {
    if visit == [] then []
    else
      Numbers(rows, visit[..|visit| - 1]) + [rows[visit[|visit| - 1]].ordinal]
  }

  lemma NumbersAreAVisit(rows: seq<Row>, listing: seq<Row>, visit: seq<nat>)
    requires IsListing(rows, listing) && IsOrder(visit, |LockedRows(rows)|)
    ensures IsVisit(listing, Numbers(LockedRows(rows), visit))
  {
    LockedMembers(rows);
    var locked := LockedRows(rows);
    var numbers := Numbers(locked, visit);
    forall i, j | 0 <= i < j < |numbers| ensures numbers[i] != numbers[j] {
      assert visit[i] != visit[j];
    }
    forall o: nat ensures o in numbers <==> o < |listing| && listing[o].locked {
      if o in numbers {
        var i :| 0 <= i < |numbers| && numbers[i] == o;
        assert locked[visit[i]] in locked && locked[visit[i]] in rows;
      }
      if o < |listing| && listing[o].locked {
        assert listing[o] in rows && listing[o] in locked;
        var x: nat :| x < |locked| && locked[x] == listing[o];
        assert x in visit;
        var i :| 0 <= i < |visit| && visit[i] == x;
        assert numbers[i] == o;
      }
    }
  }

  /** The rows visited so far are shifted, the others are as before. */
  ghost predicate HalfShifted(before: seq<Row>, visit: seq<nat>, k: nat, rows: seq<Row>) {
    && k <= |visit| && |rows| == |before|
    && forall x: nat :: x < |rows| ==> rows[x] == if x in visit[..k] then Shift(before[x]) else before[x]
  }

  lemma NextIsUntouched(before: seq<Row>, visit: seq<nat>, k: nat, rows: seq<Row>)
    requires IsOrder(visit, |before|) && HalfShifted(before, visit, k, rows) && k < |visit|
    ensures visit[k] < |rows| && rows[visit[k]] == before[visit[k]]
  {
    NotAgain(visit, k, k);
  }

  /** If the next row's new number is in use, then by a row still to be visited. */
  lemma TakenIsLater(before: seq<Row>, visit: seq<nat>, k: nat, rows: seq<Row>) returns (j: nat)
    requires OrdinalsDistinct(before) && IsOrder(visit, |before|) && HalfShifted(before, visit, k, rows) && k < |visit|
    requires SeqTaken(rows, before[visit[k]].ordinal + SHIFT)
    ensures k < j < |visit| && before[visit[j]].ordinal == before[visit[k]].ordinal + SHIFT
  {
    var r :| r in rows && r.ordinal == before[visit[k]].ordinal + SHIFT;
    var y: nat :| y < |rows| && rows[y] == r;
    NotYetVisited(before, visit, k, rows, y);
    j := LaterInTheVisit(visit, k, y);
  }

  /** And the number of a row still to be visited is in use. */
  lemma LaterIsTaken(before: seq<Row>, visit: seq<nat>, k: nat, rows: seq<Row>, j: nat)
    requires IsOrder(visit, |before|) && HalfShifted(before, visit, k, rows) && k < j < |visit|
    ensures SeqTaken(rows, before[visit[j]].ordinal)
  {
    NotAgain(visit, k, j);
    assert rows[visit[j]] in rows;
  }

  lemma NoneLater(before: seq<Row>, visit: seq<nat>, k: nat, rows: seq<Row>)
    requires IsOrder(visit, |before|) && HalfShifted(before, visit, k, rows) && k < |visit|
    requires !SeqTaken(rows, before[visit[k]].ordinal + SHIFT)
    ensures forall j :: k < j < |visit| ==> Numbers(before, visit)[k] + SHIFT != Numbers(before, visit)[j]
  {
    forall j | k < j < |visit| ensures Numbers(before, visit)[k] + SHIFT != Numbers(before, visit)[j] {
      LaterIsTaken(before, visit, k, rows, j);
    }
  }

  lemma NotAgain(visit: seq<nat>, k: nat, j: nat)
    requires k <= j < |visit| && forall i, j :: 0 <= i < j < |visit| ==> visit[i] != visit[j]
    ensures visit[j] !in visit[..k]
  {
  }

  lemma LaterInTheVisit(visit: seq<nat>, k: nat, y: nat) returns (j: nat)
    requires k <= |visit| && y in visit && y !in visit[..k]
    ensures k <= j < |visit| && visit[j] == y
  {
    assert visit == visit[..k] + visit[k..];
    var i: nat :| i < |visit[k..]| && visit[k..][i] == y;
    j := k + i;
  }

  lemma NotYetVisited(before: seq<Row>, visit: seq<nat>, k: nat, rows: seq<Row>, y: nat)
    requires OrdinalsDistinct(before) && IsOrder(visit, |before|) && HalfShifted(before, visit, k, rows) && k < |visit|
    requires y < |rows| && rows[y].ordinal == before[visit[k]].ordinal + SHIFT
    ensures y in visit && y !in visit[..k]
  {
    NotAgain(visit, k, k);
  }

  lemma OneMoreShifted(before: seq<Row>, visit: seq<nat>, k: nat, rows: seq<Row>)
    requires IsOrder(visit, |before|) && HalfShifted(before, visit, k, rows) && k < |visit| && visit[k] < |rows|
    ensures HalfShifted(before, visit, k + 1, rows[visit[k] := Shift(rows[visit[k]])])
  {
    assert visit[..k + 1] == visit[..k] + [visit[k]];
    NotAgain(visit, k, k);
  }

  // ---------- the service ----------

  function NewRows(sections: seq<Section>): seq<Row> {
    seq(|sections|, (i: nat) requires i < |sections| => NewRow(sections[i]))
  }

  lemma NewRowsAreSound(derived: seq<Section>, n: nat)
    requires IsPartition(derived, n)
    ensures Sound(NewRows(derived), NewRows(derived), derived, n)
  {
  }

  class ConversationSections {
    const projectId: string
    const messages: seq<Message>
    /** `conversation_sections`, in rowid order. */
    var rows: seq<Row>
    /** `conversation_sessions.section_count`. */
    var sectionCount: nat
    ghost var listing: seq<Row>

    ghost predicate Valid()
      reads this
    {
      Sound(rows, listing, Derive(messages), |messages|) && sectionCount == |listing|
    }

    /** The import: every derived section is inserted once. */
    constructor (projectId: string, messages: seq<Message>)
      ensures Valid() && this.projectId == projectId && this.messages == messages
      ensures listing == NewRows(Derive(messages))
    {
      this.projectId, this.messages := projectId, messages;
      rows, sectionCount, listing := [], 0, [];
      new;
      var sections := DeriveSections(messages);
      DeriveIsPartition(messages);
      NewRowsAreSound(sections, |messages|);
      InsertAll(sections);
      listing, sectionCount := rows, |sections|;
    }

    method InsertAll(sections: seq<Section>)
      modifies this`rows
      ensures rows == old(rows) + NewRows(sections)
    {
      for i := 0 to |sections|
        invariant rows == old(rows) + NewRows(sections)[..i]
      {
        rows := rows + [NewRow(sections[i])];
      }
    }

    /** `refreshSections`; `visit` is the order in which the database happens to visit the rows it shifts. */
    method RefreshSections(projectId: string, visit: seq<nat>) returns (outcome: Outcome<Error>)
      requires Valid() && IsOrder(visit, |LockedRows(rows)|)
      modifies this
      ensures Valid()
      ensures outcome == if projectId != this.projectId then Fail(ConversationNotFound)
                         else if ShiftIsSafe(Numbers(LockedRows(old(rows)), visit)) then Pass
                         else Fail(UniqueViolation)
      ensures listing == if outcome.Pass? then Refreshed(old(listing), Derive(messages)) else old(listing)
      ensures outcome.Fail? ==> rows == old(rows)
    {
      if projectId != this.projectId { return Fail(ConversationNotFound); }
      var derived := DeriveSections(messages);
      var before := rows;                       // BEGIN IMMEDIATE
      var written := Rewrite(derived, visit, listing, |messages|);
      if !written {
        rows := before;                         // ROLLBACK
        return Fail(UniqueViolation);
      }
      Publish(derived);                         // COMMIT
      outcome := Pass;
    }

    /** The rewritten table is what is listed from now on. */
    method Publish(derived: seq<Section>)
      requires derived == Derive(messages) && IsPartition(derived, |messages|) && Partitioned(listing, derived)
      requires Midway(rows, listing, derived, |derived|)
      modifies this`sectionCount, this`listing
      ensures Valid() && listing == Refreshed(old(listing), derived)
    {
      WrittenBackIsSound(rows, listing, derived, |messages|);
      sectionCount := |derived|;
      listing := Refreshed(listing, derived);
    }

    /** The statements of the transaction; they fail only while the locked rows are shifted. */
    method Rewrite(derived: seq<Section>, visit: seq<nat>, ghost listing: seq<Row>, ghost n: nat) returns (ok: bool)
      requires Sound(rows, listing, derived, n) && IsOrder(visit, |LockedRows(rows)|)
      modifies this`rows
      ensures ok <==> ShiftIsSafe(Numbers(LockedRows(old(rows)), visit))
      ensures ok ==> Midway(rows, listing, derived, |derived|)
    {
      ghost var before := rows;
      var locked := LockedRows(rows);
      LockedMembers(rows);
      rows := locked;                           // DELETE … WHERE locked_by_user = 0
      var candidates := Candidates(locked, derived);
      ok := ShiftLocked(visit);
      if ok {
        ShiftedIsMidway(before, listing, derived, n, rows);
        MergedIsDerivedOrder(before, listing, derived, n);
        WriteBack(SortByStart(Merge(locked, candidates)), listing, derived, n);
      }
    }

    /** `UPDATE … SET seq = seq + 1000000`, row by row; stops at the first row whose new number is still in use. */
    method ShiftLocked(visit: seq<nat>) returns (ok: bool)
      requires OrdinalsDistinct(rows) && IsOrder(visit, |rows|)
      modifies this`rows
      ensures ok <==> ShiftIsSafe(Numbers(old(rows), visit))
      ensures ok ==> |rows| == |old(rows)| && forall x :: 0 <= x < |rows| ==> rows[x] == Shift(old(rows)[x])
    {
      for k := 0 to |visit|
        invariant HalfShifted(old(rows), visit, k, rows)
        invariant forall i, j :: 0 <= i < k && i < j < |visit| ==>
                    Numbers(old(rows), visit)[i] + SHIFT != Numbers(old(rows), visit)[j]
      {
        var x := visit[k];
        NextIsUntouched(old(rows), visit, k, rows);
        if SeqTaken(rows, rows[x].ordinal + SHIFT) {
          ghost var j := TakenIsLater(old(rows), visit, k, rows);
          return false;
        }
        NoneLater(old(rows), visit, k, rows);
        OneMoreShifted(old(rows), visit, k, rows);
        rows := rows[x := Shift(rows[x])];
      }
      assert visit[..|visit|] == visit;
      ok := true;
    }

    method WriteBack(merged: seq<Item>, ghost listing: seq<Row>, ghost derived: seq<Section>, ghost n: nat)
      requires IsPartition(derived, n) && Partitioned(listing, derived) && Midway(rows, listing, derived, 0)
      requires merged == Expected(listing, derived)
      modifies this`rows
      ensures Midway(rows, listing, derived, |derived|)
    {
      for s := 0 to |merged|
        invariant Midway(rows, listing, derived, s)
      {
        var written := WriteItem(merged[s], s, listing, derived, n);
      }
    }

    /** Writes one item of the merged list at position `s`; on a sound table neither key is ever violated. */
    method WriteItem(
      item: Item, s: nat, ghost listing: seq<Row>, ghost derived: seq<Section>, ghost n: nat)
      returns (outcome: Outcome<Error>)
      requires IsPartition(derived, n) && Partitioned(listing, derived) && Midway(rows, listing, derived, s)
      requires s < |derived| && item == ItemFor(listing, derived, s)
      modifies this`rows
      ensures outcome.Pass? && Midway(rows, listing, derived, s + 1)
    {
      match item
      case LockedItem(_, id) =>
        assert Stores(listing[s], derived, s);
        assert Shift(listing[s]) in rows;
        var x := FindById(rows, id);
        NoSeqConflict(rows, listing, derived, s);
        if SeqTaken(rows, s) { return Fail(UniqueViolation); }
        if x < |rows| {
          WriteLocked(rows, listing, derived, n, s, x);
          rows := rows[x := rows[x].(ordinal := s)];
        }
        outcome := Pass;
      case DerivedItem(_, section) =>
        WriteDerived(rows, listing, derived, n, s);
        NoSeqConflict(rows, listing, derived, s);
        if IdTaken(rows, SectionId(section.startSeq, section.endSeq)) || SeqTaken(rows, s) {
          return Fail(UniqueViolation);
        }
        rows := rows + [NewRow(section.(ordinal := s))];
        outcome := Pass;
    }

    /** The row with primary key `id`; `|rows|` if there is none. */
    static method FindById(rows: seq<Row>, id: SectionId) returns (x: nat)
      ensures x <= |rows| && (x < |rows| ==> rows[x].id == id) && (x == |rows| <==> !IdTaken(rows, id))
    {
      x := 0;
      while x < |rows| && rows[x].id != id
        invariant x <= |rows|
        invariant forall y :: 0 <= y < x ==> rows[y].id != id
      {
        x := x + 1;
      }
    }

    method UpdateSection(
      projectId: string, id: SectionId, title: Option<string>, lockedByUser: Option<bool>)
      returns (outcome: Outcome<Error>)
      requires Valid()
      modifies this
      ensures Valid()
      ensures outcome == if projectId != this.projectId then Fail(ConversationNotFound)
                         else if !IdTaken(old(rows), id) then Fail(SectionNotFound)
                         else Pass
      ensures listing == if outcome.Pass? then UpdatedById(old(listing), id, title, lockedByUser) else old(listing)
      ensures outcome.Fail? ==> rows == old(rows)
    {
      if projectId != this.projectId { return Fail(ConversationNotFound); }
      var x := FindById(rows, id);
      if x == |rows| { return Fail(SectionNotFound); }
      ghost var derived := Derive(messages);
      ghost var before, i := rows, rows[x].ordinal;
      assert rows[x] in rows;
      rows := rows[x := Updated(rows[x], title, lockedByUser)];
      listing := listing[i := rows[x]];
      UpdateStaysSound(before, old(listing), derived, |messages|, x, title, lockedByUser);
      UpdateByIdHitsOne(old(listing), derived, |messages|, i, title, lockedByUser);
      outcome := Pass;
    }
  }

  /** The update seen on the listing: exactly the section with that id changes. */
  function UpdatedById(listing: seq<Row>, id: SectionId, title: Option<string>, lockedByUser: Option<bool>): seq<Row> {
    seq(|listing|, (i: nat) requires i < |listing| =>
      if listing[i].id == id then Updated(listing[i], title, lockedByUser) else listing[i])
  }

  lemma UpdateStaysSound(
    rows: seq<Row>, listing: seq<Row>, derived: seq<Section>, n: nat, x: nat, title: Option<string>,
    lockedByUser: Option<bool>)
    requires Sound(rows, listing, derived, n) && x < |rows|
    requires rows[x].ordinal < |listing|
    ensures var row := Updated(rows[x], title, lockedByUser);
            Sound(rows[x := row], listing[row.ordinal := row], derived, n)
  {
    var row := Updated(rows[x], title, lockedByUser);
    var i := row.ordinal;
    var rows', listing' := rows[x := row], listing[i := row];
    assert rows[x] in rows && listing[i] == rows[x];
    forall j | 0 <= j < |derived| ensures Stores(listing'[j], derived, j) && listing'[j].ordinal == j {
      assert Stores(listing[j], derived, j);
    }
    forall j | 0 <= j < |listing'| ensures listing'[j] in rows' {
      if j == i { assert rows'[x] == row; }
      else {
        var y :| 0 <= y < |rows| && rows[y] == listing[j];
        assert rows'[y] == rows[y];
      }
    }
    forall r | r in rows' ensures r.ordinal < |listing'| && listing'[r.ordinal] == r {
      var y :| 0 <= y < |rows'| && rows'[y] == r;
      if y != x { assert rows[y] in rows; }
    }
  }

  lemma UpdateByIdHitsOne(
    listing: seq<Row>, derived: seq<Section>, n: nat, i: nat, title: Option<string>, lockedByUser: Option<bool>)
    requires IsPartition(derived, n) && Partitioned(listing, derived) && i < |listing|
    ensures UpdatedById(listing, listing[i].id, title, lockedByUser)
            == listing[i := Updated(listing[i], title, lockedByUser)]
  {
    forall j | 0 <= j < |listing| && listing[j].id == listing[i].id ensures j == i {
      assert Stores(listing[i], derived, i) && Stores(listing[j], derived, j);
      if i < j { PartitionOrdered(derived, n, i, j); }
      if j < i { PartitionOrdered(derived, n, j, i); }
    }
  }

  // ---------- whole runs ----------

  /** A refresh comes with the numbers of the locked sections in the order their rows are visited. */
  datatype Request = Refresh(visit: seq<nat>) | Update(id: SectionId, title: Option<string>, lockedByUser: Option<bool>)

  /** The listing after a request; a refresh that collides is refused. */
  function Apply(listing: seq<Row>, derived: seq<Section>, request: Request): seq<Row>
    requires |listing| == |derived|
  {
    match request
    case Refresh(visit) => if ShiftIsSafe(visit) then Refreshed(listing, derived) else listing
    case Update(id, title, lockedByUser) => UpdatedById(listing, id, title, lockedByUser)
  }

  function Run(listing: seq<Row>, derived: seq<Section>, requests: seq<Request>): (final: seq<Row>)
    requires |listing| == |derived|
    ensures |final| == |derived|
  {
    if requests == [] then listing
    else Apply(Run(listing, derived, requests[..|requests| - 1]), derived, requests[|requests| - 1])
  }

  /** Whatever the requests, the stored ranges remain the derived partition, numbered 0..k-1, under their own ids. */
  lemma {:induction false} RunKeepsPartition(listing: seq<Row>, derived: seq<Section>, requests: seq<Request>)
    requires Partitioned(listing, derived)
    requires forall i :: 0 <= i < |derived| ==> derived[i].ordinal == i
    ensures Partitioned(Run(listing, derived, requests), derived)
  {
    if requests != [] {
      var before := Run(listing, derived, requests[..|requests| - 1]);
      RunKeepsPartition(listing, derived, requests[..|requests| - 1]);
      var after := Apply(before, derived, requests[|requests| - 1]);
      forall i | 0 <= i < |derived| ensures Stores(after[i], derived, i) && after[i].ordinal == i {
        assert Stores(before[i], derived, i);
      }
    }
  }

  /** A locked section that no request names is untouched by any run: same id, range, number, title and lock. */
  lemma {:induction false} LockedSectionSurvives(
    listing: seq<Row>, derived: seq<Section>, requests: seq<Request>, i: nat)
    requires |listing| == |derived| && i < |listing| && listing[i].locked
    requires forall k :: 0 <= k < |requests| ==> requests[k].Refresh? || requests[k].id != listing[i].id
    ensures Run(listing, derived, requests)[i] == listing[i]
  {
    if requests != [] {
      LockedSectionSurvives(listing, derived, requests[..|requests| - 1], i);
    }
  }

  /** The row is the derived section, unlocked, under the id made of its range. */
  predicate IsDerived(r: Row, s: Section) {
    && r.id == SectionId(s.startSeq, s.endSeq) && r.ordinal == s.ordinal && r.kind == s.kind && r.title == s.title
    && r.startSeq == s.startSeq && r.endSeq == s.endSeq && !r.locked
  }

  /**
   * A refresh that is not refused leaves a locked section as it was and makes an unlocked one exactly the derived
   * one; another refresh changes nothing.
   */
  lemma RefreshIsIdempotent(
    listing: seq<Row>, derived: seq<Section>, requests: seq<Request>, visit: seq<nat>, again: seq<nat>, i: nat)
    requires |listing| == |derived| && i < |derived|
    ensures var before, final := Run(listing, derived, requests), Run(listing, derived, requests + [Refresh(visit)]);
            if ShiftIsSafe(visit) then
              && (if before[i].locked then final[i] == before[i] else IsDerived(final[i], derived[i]))
              && Apply(final, derived, Refresh(again)) == final
            else final == before
  {
    assert (requests + [Refresh(visit)])[..|requests|] == requests;
    var before := Run(listing, derived, requests);
    assert Run(listing, derived, requests + [Refresh(visit)]) == Apply(before, derived, Refresh(visit));
    RefreshedSection(before, derived, i);
  }

  lemma RefreshedSection(listing: seq<Row>, derived: seq<Section>, i: nat)
    requires |listing| == |derived| && i < |derived|
    ensures var r := Refreshed(listing, derived)[i];
            if listing[i].locked then r == listing[i] else IsDerived(r, derived[i])
    ensures Refreshed(Refreshed(listing, derived), derived) == Refreshed(listing, derived)
  {
  }

  // ---------- what an update does to title and lock ----------

  /** The first 160 characters. */
  function Shortened(title: string): string { if |title| > 160 then title[..160] else title }

  /**
   * An update touches the title and the lock of the section it names, and nothing else. A title is taken, cut to 160
   * characters, unless it is empty. The lock is the one given, if any; if not, a title other than the stored one, even
   * an empty one, locks the section, and otherwise the lock stays.
   */
  lemma UpdateTitleAndLock(
    listing: seq<Row>, derived: seq<Section>, id: SectionId, title: Option<string>, lockedByUser: Option<bool>, i: nat)
    requires |listing| == |derived| && i < |listing|
    ensures var r, u := listing[i], Apply(listing, derived, Update(id, title, lockedByUser))[i];
            && u.id == r.id && u.ordinal == r.ordinal && u.kind == r.kind && u.startSeq == r.startSeq
            && u.endSeq == r.endSeq
            && (r.id != id ==> u.title == r.title && u.locked == r.locked)
            && (r.id == id ==>
                  && u.title == Shortened(if title.None? || title.value == "" then r.title else title.value)
                  && (lockedByUser.Some? ==> u.locked == lockedByUser.value)
                  && (lockedByUser.None? && title in {None, Some(r.title)} ==> u.locked == r.locked)
                  && (lockedByUser.None? && title !in {None, Some(r.title)} ==> u.locked))
  {
  }

  /** A new title of at most 160 characters stays through every run of requests that do not name the section. */
  lemma NewTitleStays(
    listing: seq<Row>, derived: seq<Section>, title: string, requests: seq<Request>, i: nat)
    requires |listing| == |derived| && i < |listing|
    requires title != "" && |title| <= 160 && title != listing[i].title
    requires forall k :: 0 <= k < |requests| ==> requests[k].Refresh? || requests[k].id != listing[i].id
    ensures var updated := Apply(listing, derived, Update(listing[i].id, Some(title), None));
            Run(updated, derived, requests)[i] == listing[i].(title := title, locked := true)
  {
    UpdateTitleAndLock(listing, derived, listing[i].id, Some(title), None, i);
    LockedSectionSurvives(Apply(listing, derived, Update(listing[i].id, Some(title), None)), derived, requests, i);
  }

  // ---------- when a refresh is refused ----------

  /** With at most a million sections no refresh is ever refused. */
  lemma SmallConversationsAlwaysRefresh(listing: seq<Row>, visit: seq<nat>)
    requires IsVisit(listing, visit) && |listing| <= SHIFT
    ensures ShiftIsSafe(visit)
  {
    forall y | 0 <= y < |visit| ensures visit[y] < SHIFT {
      assert visit[y] in visit;
    }
  }

  /** The numbers of the locked sections in their own order, which is the order of the index on them. */
  function Ascending(listing: seq<Row>, n: nat): (visit: seq<nat>)
    requires n <= |listing|
    ensures forall o: nat :: o in visit <==> o < n && listing[o].locked
    ensures forall i, j :: 0 <= i < j < |visit| ==> visit[i] < visit[j]
  {
    if n == 0 then []
    else
      var front := Ascending(listing, n - 1);
      assert forall i :: 0 <= i < |front| ==> front[i] in front;
      front + if listing[n - 1].locked then [n - 1] else []
  }

  function Reversed(s: seq<nat>): (r: seq<nat>)
    ensures |r| == |s| && forall i :: 0 <= i < |s| ==> r[i] == s[|s| - 1 - i]
  {
    seq(|s|, (i: nat) requires i < |s| => s[|s| - 1 - i])
  }

  /**
   * A refresh is accepted in every order of visiting exactly when no two locked sections are a million apart. If some
   * are, the order of the numbers themselves is refused, and the reverse order is accepted still.
   */
  lemma RefusedExactly(listing: seq<Row>)
    ensures (forall visit :: IsVisit(listing, visit) ==> ShiftIsSafe(visit)) <==> LocksAreApart(listing)
    ensures IsVisit(listing, Ascending(listing, |listing|))
    ensures ShiftIsSafe(Ascending(listing, |listing|)) <==> LocksAreApart(listing)
    ensures IsVisit(listing, Reversed(Ascending(listing, |listing|)))
    ensures ShiftIsSafe(Reversed(Ascending(listing, |listing|)))
  {
    ReversedVisits(listing, Ascending(listing, |listing|));
    if LocksAreApart(listing) {
      forall visit | IsVisit(listing, visit) ensures ShiftIsSafe(visit) { ApartIsSafe(listing, visit); }
    } else {
      AscendingCollides(listing);
    }
  }

  lemma AscendingCollides(listing: seq<Row>)
    requires !LocksAreApart(listing)
    ensures !ShiftIsSafe(Ascending(listing, |listing|))
  {
    var i: nat :| i < |listing| - SHIFT && listing[i].locked && listing[i + SHIFT].locked;
    CollidesInOrder(Ascending(listing, |listing|), i);
  }

  lemma CollidesInOrder(up: seq<nat>, a: nat)
    requires (forall i, j :: 0 <= i < j < |up| ==> up[i] < up[j]) && a in up && a + SHIFT in up
    ensures !ShiftIsSafe(up)
  {
    var x :| 0 <= x < |up| && up[x] == a;
    var y :| 0 <= y < |up| && up[y] == a + SHIFT;
    assert x < y;
  }

  lemma ApartIsSafe(listing: seq<Row>, visit: seq<nat>)
    requires LocksAreApart(listing) && IsVisit(listing, visit)
    ensures ShiftIsSafe(visit)
  {
    forall x, y | 0 <= x < y < |visit| ensures visit[x] + SHIFT != visit[y] {
      assert visit[x] in visit && visit[y] in visit;
      assert visit[x] < |listing| - SHIFT ==> !listing[visit[x]].locked || !listing[visit[x] + SHIFT].locked;
    }
  }

  lemma ReversedVisits(listing: seq<Row>, up: seq<nat>)
    requires IsVisit(listing, up) && forall i, j :: 0 <= i < j < |up| ==> up[i] < up[j]
    ensures IsVisit(listing, Reversed(up)) && ShiftIsSafe(Reversed(up))
  {
    var down := Reversed(up);
    forall o: nat ensures o in down <==> o in up {
      if o in up {
        var i :| 0 <= i < |up| && up[i] == o;
        assert down[|up| - 1 - i] == o;
      }
    }
  }

  /** Every message of a conversation of user messages opens its own section. */
  lemma {:induction false} UserMessagesStandAlone(ms: seq<Message>, n: nat)
    requires n <= |ms| && forall i :: 0 <= i < |ms| ==> ms[i].role.User?
    ensures |Starts(ms, n)| == n
  {
    if n > 1 {
      UserMessagesStandAlone(ms, n - 1);
      FirstUserIsFirst(ms, 0, n - 1, 0);
    }
  }

  function LockEvery(rows: seq<Row>): (locked: seq<Row>)
    ensures |locked| == |rows| && forall i :: 0 <= i < |locked| ==> locked[i].locked
  {
    seq(|rows|, (i: nat) requires i < |rows| => rows[i].(locked := true))
  }

  /**
   * A conversation with more sections can come to be refused: once all of them are locked, its refresh collides in
   * the order of the numbers. A conversation of user messages has as many sections as messages.
   */
  lemma LockingEverySectionBlocksRefresh(ms: seq<Message>)
    ensures (forall i :: 0 <= i < |ms| ==> ms[i].role.User?) ==> |Derive(ms)| == |ms|
    ensures |Derive(ms)| > SHIFT ==>
              var rows := LockEvery(NewRows(Derive(ms)));
              && Sound(rows, rows, Derive(ms), |ms|) && IsVisit(rows, Ascending(rows, |rows|))
              && !ShiftIsSafe(Ascending(rows, |rows|))
  {
    if forall i :: 0 <= i < |ms| ==> ms[i].role.User? { UserMessagesStandAlone(ms, |ms|); }
    DeriveIsPartition(ms);
    LockedStaysSound(Derive(ms), |ms|);
    if |Derive(ms)| > SHIFT { AllLockedCollide(LockEvery(NewRows(Derive(ms)))); }
  }

  lemma AllLockedCollide(rows: seq<Row>)
    requires |rows| > SHIFT && forall i :: 0 <= i < |rows| ==> rows[i].locked
    ensures IsVisit(rows, Ascending(rows, |rows|)) && !ShiftIsSafe(Ascending(rows, |rows|))
  {
    assert rows[0].locked && rows[SHIFT].locked;
    RefusedExactly(rows);
  }

  lemma LockedStaysSound(derived: seq<Section>, n: nat)
    requires IsPartition(derived, n)
    ensures var rows := LockEvery(NewRows(derived)); Sound(rows, rows, derived, n) && |rows| == |derived|
  {
    var rows := LockEvery(NewRows(derived));
    NewRowsAreSound(derived, n);
    assert Partitioned(rows, derived);
  }
}
