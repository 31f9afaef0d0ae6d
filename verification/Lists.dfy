/** Lists used as sets: adding without repeating, and removing. */
module Lists {

  predicate Distinct<T(==)>(s: seq<T>) {
    forall i, j :: 0 <= i < j < |s| ==> s[i] != s[j]
  }

  function AddNew<T(==)>(list: seq<T>, x: T): seq<T> {
    if x in list then list else list + [x]
  }

  function AddAll<T(==)>(list: seq<T>, xs: seq<T>): seq<T> {
    if xs == [] then list else AddNew(AddAll(list, xs[..|xs| - 1]), xs[|xs| - 1])
  }

  /** `list.filter((x) => !removed.has(x))`. */
  function Without<T(==)>(list: seq<T>, removed: seq<T>): seq<T> {
    if list == [] then []
    else Without(list[..|list| - 1], removed) + if list[|list| - 1] in removed then [] else [list[|list| - 1]]
  }

  /** The new elements come after the old ones, each once. */
  lemma {:induction false} AddedMembers<T>(list: seq<T>, xs: seq<T>)
    ensures forall x :: x in AddAll(list, xs) <==> x in list || x in xs
    ensures list <= AddAll(list, xs)
    ensures Distinct(list) ==> Distinct(AddAll(list, xs))
  {
    if xs != [] { AddedMembers(list, xs[..|xs| - 1]); }
  }

  lemma {:induction false} RemainingMembers<T>(list: seq<T>, removed: seq<T>)
    ensures forall x :: x in Without(list, removed) <==> x in list && x !in removed
    ensures Distinct(list) ==> Distinct(Without(list, removed))
  {
    if list != [] { RemainingMembers(list[..|list| - 1], removed); }
  }

  lemma {:induction false} NothingToRemove<T>(list: seq<T>, removed: seq<T>)
    requires forall x :: x in list ==> x !in removed
    ensures Without(list, removed) == list
  {
    if list != [] {
      var front := list[..|list| - 1];
      assert list[|list| - 1] in list;
      forall x | x in front ensures x !in removed { assert x in list; }
      NothingToRemove(front, removed);
      FrontAndLast(list);
    }
  }

  lemma {:induction false} WithoutAppend<T>(a: seq<T>, b: seq<T>, removed: seq<T>)
    ensures Without(a + b, removed) == Without(a, removed) + Without(b, removed)
  {
    if b == [] {
      assert a + b == a;
    } else {
      WithoutAppend(a, b[..|b| - 1], removed);
      assert (a + b)[..|a + b| - 1] == a + b[..|b| - 1];
    }
  }

  /** Adding what is already there, or is about to be removed, has no effect. */
  lemma {:induction false} AddThenRemove<T>(list: seq<T>, xs: seq<T>, removed: seq<T>)
    requires forall x :: x in xs ==> x in list || x in removed
    ensures Without(AddAll(list, xs), removed) == Without(list, removed)
  {
    if xs != [] {
      var front := xs[..|xs| - 1];
      AddThenRemove(list, front, removed);
      AddedMembers(list, front);
      WithoutAppend(AddAll(list, front), [xs[|xs| - 1]], removed);
    }
  }

  lemma OldOnesFirst<T>(list: seq<T>, xs: seq<T>, removed: seq<T>)
    ensures var next := Without(AddAll(list, xs), removed);
            && (forall x :: x in next <==> (x in list || x in xs) && x !in removed)
            && Without(list, removed) <= next
  {
    var all := AddAll(list, xs);
    AddedMembers(list, xs);
    RemainingMembers(all, removed);
    assert all == list + all[|list|..];
    WithoutAppend(list, all[|list|..], removed);
  }

  /** Adding and then removing, done twice, is done once. */
  lemma AddRemoveIdempotent<T>(list: seq<T>, xs: seq<T>, removed: seq<T>)
    ensures var once := Without(AddAll(list, xs), removed); Without(AddAll(once, xs), removed) == once
  {
    var once := Without(AddAll(list, xs), removed);
    AddedMembers(list, xs);
    RemainingMembers(AddAll(list, xs), removed);
    AddThenRemove(once, xs, removed);
    NothingToRemove(once, removed);
  }

  lemma FrontAndLast<T>(s: seq<T>)
    requires s != []
    ensures s == s[..|s| - 1] + [s[|s| - 1]]
  {
  }

  /** `[...new Set(xs)]`: the first occurrence of each element, in order. */
  function Unique<T(==)>(xs: seq<T>): seq<T> { AddAll([], xs) }

  lemma {:induction false} UniqueOfDistinct<T>(xs: seq<T>)
    ensures Distinct(Unique(xs)) && (Unique(xs) == xs <==> Distinct(xs))
    ensures forall x :: x in Unique(xs) <==> x in xs
  {
    AddedMembers([], xs);
    if Distinct(xs) { DistinctIsUnique(xs); }
  }

  lemma {:induction false} DistinctIsUnique<T>(xs: seq<T>)
    requires Distinct(xs)
    ensures Unique(xs) == xs
  {
    if xs != [] {
      DistinctIsUnique(xs[..|xs| - 1]);
      assert xs[|xs| - 1] !in xs[..|xs| - 1];
      FrontAndLast(xs);
    }
  }

  // ---------- order ----------

  /** The elements of `a` are in `b`, in the same order. */
  ghost predicate IsSubsequence<T>(a: seq<T>, b: seq<T>) {
    a == [] ||
    (b != [] && (IsSubsequence(a, b[..|b| - 1])
                 || (a[|a| - 1] == b[|b| - 1] && IsSubsequence(a[..|a| - 1], b[..|b| - 1]))))
  }

  lemma {:induction false} WithoutIsSubsequence<T>(list: seq<T>, removed: seq<T>)
    ensures IsSubsequence(Without(list, removed), list)
  {
    if list != [] {
      var rest := Without(list[..|list| - 1], removed);
      WithoutIsSubsequence(list[..|list| - 1], removed);
      if list[|list| - 1] in removed {
        assert Without(list, removed) == rest;
      } else {
        assert Without(list, removed)[..|rest|] == rest;
      }
    }
  }

  /** Where `x` first occurs. */
  function FirstIndex<T(==)>(xs: seq<T>, x: T): (i: nat)
    requires x in xs
    ensures i < |xs| && xs[i] == x && x !in xs[..i]
  {
    if xs[0] == x then 0 else FirstIndex(xs[1..], x) + 1
  }

  /** `list` holds exactly the elements of `xs`, each once, in the order in which they first occur. */
  ghost predicate ListsOnce<T>(list: seq<T>, xs: seq<T>) {
    && (forall x :: x in list ==> x in xs) && (forall x :: x in xs ==> x in list)
    && (forall i, j :: 0 <= i < j < |list| ==> FirstIndex(xs, list[i]) < FirstIndex(xs, list[j]))
  }

  lemma {:induction false} FirstIndexAppend<T>(xs: seq<T>, more: seq<T>, x: T)
    requires x in xs
    ensures FirstIndex(xs + more, x) == FirstIndex(xs, x)
  {
    if xs[0] != x {
      FirstIndexAppend(xs[1..], more, x);
      assert (xs + more)[1..] == xs[1..] + more;
    }
  }

  lemma {:induction false} FirstIndexAfter<T>(front: seq<T>, x: T)
    requires x !in front
    ensures FirstIndex(front + [x], x) == |front|
  {
    if front != [] {
      FirstIndexAfter(front[1..], x);
      assert (front + [x])[1..] == front[1..] + [x];
    }
  }

  lemma {:induction false} UniqueListsOnce<T>(xs: seq<T>)
    ensures ListsOnce(Unique(xs), xs)
  {
    AddedMembers([], xs);
    if xs != [] {
      var front, last := xs[..|xs| - 1], xs[|xs| - 1];
      FrontAndLast(xs);
      UniqueListsOnce(front);
      AddedMembers([], front);
      var list, rest := Unique(xs), Unique(front);
      forall i, j | 0 <= i < j < |list| ensures FirstIndex(xs, list[i]) < FirstIndex(xs, list[j]) {
        assert list[i] in front by { assert list[i] == rest[i]; }
        FirstIndexAppend(front, [last], list[i]);
        if j < |rest| {
          assert list[j] in front by { assert list[j] == rest[j]; }
          FirstIndexAppend(front, [last], list[j]);
        } else {
          FirstIndexAfter(front, last);
        }
      }
    }
  }

  /** There is only one such list. */
  lemma ListsOnceUnique<T>(a: seq<T>, b: seq<T>, xs: seq<T>)
    requires ListsOnce(a, xs) && ListsOnce(b, xs)
    ensures a == b
  {
    SamePrefix(a, b, xs, |a|);
    SamePrefix(b, a, xs, |b|);
  }

  lemma {:induction false} SamePrefix<T>(a: seq<T>, b: seq<T>, xs: seq<T>, n: nat)
    requires ListsOnce(a, xs) && ListsOnce(b, xs) && n <= |a|
    ensures n <= |b| && a[..n] == b[..n]
  {
    if n > 0 {
      SamePrefix(a, b, xs, n - 1);
      SameNext(a, b, xs, n - 1);
    }
  }

  lemma SameNext<T>(a: seq<T>, b: seq<T>, xs: seq<T>, k: nat)
    requires ListsOnce(a, xs) && ListsOnce(b, xs) && k < |a| && k <= |b| && a[..k] == b[..k]
    ensures k < |b| && a[k] == b[k]
  {
    OutsideThePrefix(a, xs, k);
    assert b[..k] + b[k..] == b;
    assert a[k] in b;
    OutsideThePrefix(b, xs, k);
    assert b[k] in a;
    LeastOfRest(a, xs, k, b[k]);
    LeastOfRest(b, xs, k, a[k]);
    assert xs[FirstIndex(xs, a[k])] == xs[FirstIndex(xs, b[k])];
  }

  lemma OutsideThePrefix<T>(a: seq<T>, xs: seq<T>, k: nat)
    requires ListsOnce(a, xs) && k < |a|
    ensures a[k] !in a[..k]
  {
    forall i | 0 <= i < k ensures a[i] != a[k] { assert FirstIndex(xs, a[i]) < FirstIndex(xs, a[k]); }
  }

  lemma LeastOfRest<T>(a: seq<T>, xs: seq<T>, k: nat, y: T)
    requires ListsOnce(a, xs) && k < |a| && y in a && y !in a[..k]
    ensures FirstIndex(xs, a[k]) <= FirstIndex(xs, y)
  {
    assert a[..k] + a[k..] == a && y in a[k..];
    var j :| 0 <= j < |a[k..]| && a[k..][j] == y;
    if j > 0 { assert FirstIndex(xs, a[k]) < FirstIndex(xs, a[k + j]); }
  }
}
