/** HASH_SRT and the in-order variant of HASH_ADD, as functions on the application order: a
    bottom-up merge sort and a stable insertion. Both are stable, and so they agree. */
module HashOrder {
  import opened Seqs

  type Cmp<!T> = (T, T) -> int

  ghost predicate Le<T>(cmp: Cmp<T>, a: T, b: T) {
    cmp(a, b) <= 0
  }

  /** cmp is a total preorder on the items of u. */
  ghost predicate PreorderOn<T>(cmp: Cmp<T>, u: set<T>) {
    && (forall a, b :: a in u && b in u ==> Le(cmp, a, b) || Le(cmp, b, a))
    && (forall a, b, c :: a in u && b in u && c in u && Le(cmp, a, b) && Le(cmp, b, c) ==> Le(cmp, a, c))
  }

  ghost predicate AllIn<T>(s: seq<T>, u: set<T>) {
    forall x :: x in s ==> x in u
  }

  ghost predicate Equiv<T>(cmp: Cmp<T>, x: T, y: T) {
    Le(cmp, x, y) && Le(cmp, y, x)
  }

  ghost predicate Sorted<T>(cmp: Cmp<T>, s: seq<T>) {
    forall i, j :: 0 <= i < j < |s| ==> Le(cmp, s[i], s[j])
  }

  /** The items of s that compare equal to x, in order. */
  ghost function Class<T>(cmp: Cmp<T>, x: T, s: seq<T>): seq<T> {
    Filter(y => Equiv(cmp, x, y), s)
  }

  /** t is s, rearranged without disturbing the order of items that compare equal. */
  ghost predicate StablyArranged<T>(cmp: Cmp<T>, u: set<T>, s: seq<T>, t: seq<T>) {
    multiset(s) == multiset(t) && forall x :: x in u ==> Class(cmp, x, s) == Class(cmp, x, t)
  }

  // ---------------------------------------------------------------- the algorithms

  ghost function Merge<T>(cmp: Cmp<T>, a: seq<T>, b: seq<T>): (r: seq<T>)
    ensures |r| == |a| + |b|
    decreases |a| + |b|
  {
    if a == [] then b
    else if b == [] then a
    else if Le(cmp, a[0], b[0]) then [a[0]] + Merge(cmp, a[1..], b)
    else [b[0]] + Merge(cmp, a, b[1..])
  }

  function Min(a: nat, b: nat): nat {
    if a <= b then a else b
  }

  /** One pass: adjacent runs of length n are merged pairwise. */
  ghost function Pass<T>(cmp: Cmp<T>, s: seq<T>, n: nat): (r: seq<T>)
    requires n > 0
    ensures |r| == |s|
    decreases |s|
  {
    if s == [] then [] else
      var p, q := Min(n, |s|), Min(2 * n, |s|);
      Merge(cmp, s[..p], s[p..q]) + Pass(cmp, s[q..], n)
  }

  /** Passes with doubling run length, until one pass needs a single merge. */
  ghost function SortFrom<T>(cmp: Cmp<T>, s: seq<T>, n: nat): (r: seq<T>)
    requires n > 0
    ensures |r| == |s|
    decreases |s| - n
  {
    if |s| <= 2 * n then Pass(cmp, s, n) else SortFrom(cmp, Pass(cmp, s, n), 2 * n)
  }

  ghost function MergeSort<T>(cmp: Cmp<T>, s: seq<T>): (r: seq<T>)
    ensures |r| == |s|
  {
    SortFrom(cmp, s, 1)
  }

  /** In-order add: x goes in front of the first item that compares greater. */
  ghost function InsertInto<T>(cmp: Cmp<T>, s: seq<T>, x: T): (r: seq<T>)
    ensures |r| == |s| + 1
  {
    if s == [] then [x]
    else if cmp(s[0], x) > 0 then [x] + s
    else [s[0]] + InsertInto(cmp, s[1..], x)
  }

  ghost function InsertAll<T>(cmp: Cmp<T>, s: seq<T>, xs: seq<T>): seq<T>
    decreases |xs|
  {
    if xs == [] then s else InsertAll(cmp, InsertInto(cmp, s, xs[0]), xs[1..])
  }

  // ---------------------------------------------------------------- merging

  lemma MultisetCons<T>(s: seq<T>)
    requires s != []
    ensures multiset(s) == multiset{s[0]} + multiset(s[1..])
  {
    assert s == [s[0]] + s[1..];
  }

  lemma {:induction false} MergeItems<T>(cmp: Cmp<T>, a: seq<T>, b: seq<T>)
    ensures multiset(Merge(cmp, a, b)) == multiset(a) + multiset(b)
    decreases |a| + |b|
  {
    if a != [] && b != [] {
      if Le(cmp, a[0], b[0]) {
        MergeItems(cmp, a[1..], b);
        MultisetCons(a);
        MultisetCons(Merge(cmp, a, b));
        assert Merge(cmp, a, b)[1..] == Merge(cmp, a[1..], b);
      } else {
        MergeItems(cmp, a, b[1..]);
        MultisetCons(b);
        MultisetCons(Merge(cmp, a, b));
        assert Merge(cmp, a, b)[1..] == Merge(cmp, a, b[1..]);
      }
    }
  }

  lemma MergeMembers<T>(cmp: Cmp<T>, a: seq<T>, b: seq<T>)
    ensures forall x :: x in Merge(cmp, a, b) ==> x in a || x in b
  {
    MergeItems(cmp, a, b);
    assert forall x :: x in Merge(cmp, a, b) ==> x in multiset(Merge(cmp, a, b));
  }

  lemma SortedCons<T>(cmp: Cmp<T>, x: T, s: seq<T>)
    requires Sorted(cmp, s) && forall y :: y in s ==> Le(cmp, x, y)
    ensures Sorted(cmp, [x] + s)
  {
  }

  lemma {:induction false} MergeSorted<T>(cmp: Cmp<T>, u: set<T>, a: seq<T>, b: seq<T>)
    requires PreorderOn(cmp, u) && AllIn(a, u) && AllIn(b, u) && Sorted(cmp, a) && Sorted(cmp, b)
    ensures Sorted(cmp, Merge(cmp, a, b))
    decreases |a| + |b|
  {
    if a != [] && b != [] {
      if Le(cmp, a[0], b[0]) {
        MergeSorted(cmp, u, a[1..], b);
        MergeMembers(cmp, a[1..], b);
        SortedCons(cmp, a[0], Merge(cmp, a[1..], b));
      } else {
        assert Le(cmp, b[0], a[0]);
        MergeSorted(cmp, u, a, b[1..]);
        MergeMembers(cmp, a, b[1..]);
        SortedCons(cmp, b[0], Merge(cmp, a, b[1..]));
      }
    }
  }

  /** An item taken from b before a[0] is strictly smaller than all of a, so no item of a is in its class. */
  lemma ClassBelow<T>(cmp: Cmp<T>, u: set<T>, x: T, a: seq<T>, b0: T)
    requires PreorderOn(cmp, u) && AllIn(a, u) && x in u && b0 in u
    requires Sorted(cmp, a) && a != [] && !Le(cmp, a[0], b0) && Equiv(cmp, x, b0)
    ensures Class(cmp, x, a) == []
  {
    forall y | y in a
      ensures !Equiv(cmp, x, y)
    {
      var i :| 0 <= i < |a| && a[i] == y;
      assert a[0] in a;
      assert Le(cmp, a[0], y) by { assert i == 0 || Le(cmp, a[0], a[i]); }
      StrictlyAbove(cmp, u, x, y, a[0], b0);
    }
    FilterNone(y => Equiv(cmp, x, y), a);
  }

  lemma StrictlyAbove<T>(cmp: Cmp<T>, u: set<T>, x: T, y: T, a: T, b: T)
    requires PreorderOn(cmp, u) && x in u && y in u && a in u && b in u
    requires Le(cmp, a, y) && !Le(cmp, a, b) && Equiv(cmp, x, b)
    ensures !Equiv(cmp, x, y)
  {
  }

  lemma ClassCons<T>(cmp: Cmp<T>, x: T, s: seq<T>)
    requires s != []
    ensures Class(cmp, x, s) == (if Equiv(cmp, x, s[0]) then [s[0]] else []) + Class(cmp, x, s[1..])
  {
  }

  lemma ClassAppend<T>(cmp: Cmp<T>, x: T, a: seq<T>, b: seq<T>)
    ensures Class(cmp, x, a + b) == Class(cmp, x, a) + Class(cmp, x, b)
  {
    FilterAppend(y => Equiv(cmp, x, y), a, b);
  }

  lemma {:induction false} MergeStable<T>(cmp: Cmp<T>, u: set<T>, x: T, a: seq<T>, b: seq<T>)
    requires PreorderOn(cmp, u) && AllIn(a, u) && AllIn(b, u) && x in u && Sorted(cmp, a)
    ensures Class(cmp, x, Merge(cmp, a, b)) == Class(cmp, x, a) + Class(cmp, x, b)
    decreases |a| + |b|
  {
    if a != [] && b != [] {
      var m := Merge(cmp, a, b);
      ClassCons(cmp, x, m);
      ClassCons(cmp, x, a);
      ClassCons(cmp, x, b);
      if Le(cmp, a[0], b[0]) {
        assert m[1..] == Merge(cmp, a[1..], b);
        MergeStable(cmp, u, x, a[1..], b);
      } else {
        assert m[1..] == Merge(cmp, a, b[1..]);
        MergeStable(cmp, u, x, a, b[1..]);
        if Equiv(cmp, x, b[0]) {
          ClassBelow(cmp, u, x, a, b[0]);
        }
      }
    }
  }

  // ---------------------------------------------------------------- passes

  /** Every aligned run of length n is sorted. */
  ghost predicate Runs<T>(cmp: Cmp<T>, s: seq<T>, n: nat)
    requires n > 0
    decreases |s|
  {
    s == [] || (Sorted(cmp, s[..Min(n, |s|)]) && Runs(cmp, s[Min(n, |s|)..], n))
  }

  lemma {:induction false} RunsOfOne<T>(cmp: Cmp<T>, s: seq<T>)
    ensures Runs(cmp, s, 1)
    decreases |s|
  {
    if s != [] {
      RunsOfOne(cmp, s[1..]);
    }
  }

  lemma TwoRuns<T>(cmp: Cmp<T>, s: seq<T>, n: nat)
    requires n > 0 && s != [] && Runs(cmp, s, n)
    ensures var p, q := Min(n, |s|), Min(2 * n, |s|);
            Sorted(cmp, s[..p]) && Sorted(cmp, s[p..q]) && Runs(cmp, s[q..], n)
  {
    var p, q := Min(n, |s|), Min(2 * n, |s|);
    var r := s[p..];
    if r != [] {
      assert r[..Min(n, |r|)] == s[p..q];
      assert r[Min(n, |r|)..] == s[q..];
    } else {
      assert s[q..] == [];
    }
  }

  lemma SplitTwo<T>(s: seq<T>, p: nat, q: nat)
    requires p <= q <= |s|
    ensures s == s[..p] + s[p..q] + s[q..]
  {
  }

  lemma {:induction false} PassItems<T>(cmp: Cmp<T>, s: seq<T>, n: nat)
    requires n > 0
    ensures multiset(Pass(cmp, s, n)) == multiset(s)
    decreases |s|
  {
    if s != [] {
      var p, q := Min(n, |s|), Min(2 * n, |s|);
      SplitTwo(s, p, q);
      MergeItems(cmp, s[..p], s[p..q]);
      PassItems(cmp, s[q..], n);
    }
  }

  lemma {:induction false} PassRuns<T>(cmp: Cmp<T>, u: set<T>, s: seq<T>, n: nat)
    requires n > 0 && PreorderOn(cmp, u) && AllIn(s, u) && Runs(cmp, s, n)
    ensures Runs(cmp, Pass(cmp, s, n), 2 * n)
    decreases |s|
  {
    if s != [] {
      var p, q := Min(n, |s|), Min(2 * n, |s|);
      TwoRuns(cmp, s, n);
      MergeSorted(cmp, u, s[..p], s[p..q]);
      PassRuns(cmp, u, s[q..], n);
      var t := Pass(cmp, s, n);
      assert t[..q] == Merge(cmp, s[..p], s[p..q]);
      assert t[q..] == Pass(cmp, s[q..], n);
    }
  }

  lemma {:induction false} PassStable<T>(cmp: Cmp<T>, u: set<T>, x: T, s: seq<T>, n: nat)
    requires n > 0 && PreorderOn(cmp, u) && AllIn(s, u) && Runs(cmp, s, n) && x in u
    ensures Class(cmp, x, Pass(cmp, s, n)) == Class(cmp, x, s)
    decreases |s|
  {
    if s != [] {
      var p, q := Min(n, |s|), Min(2 * n, |s|);
      TwoRuns(cmp, s, n);
      SplitTwo(s, p, q);
      MergeStable(cmp, u, x, s[..p], s[p..q]);
      PassStable(cmp, u, x, s[q..], n);
      ClassAppend(cmp, x, Merge(cmp, s[..p], s[p..q]), Pass(cmp, s[q..], n));
      ClassAppend(cmp, x, s[..p] + s[p..q], s[q..]);
      ClassAppend(cmp, x, s[..p], s[p..q]);
    }
  }

  lemma SameMembers<T>(s: seq<T>, t: seq<T>, u: set<T>)
    requires multiset(s) == multiset(t) && AllIn(s, u)
    ensures AllIn(t, u)
  {
    forall x | x in t
      ensures x in u
    {
      assert x in multiset(t);
      assert x in multiset(s);
    }
  }

  lemma {:induction false} SortFromCorrect<T>(cmp: Cmp<T>, u: set<T>, s: seq<T>, n: nat)
    requires n > 0 && PreorderOn(cmp, u) && AllIn(s, u) && Runs(cmp, s, n)
    ensures Sorted(cmp, SortFrom(cmp, s, n)) && StablyArranged(cmp, u, s, SortFrom(cmp, s, n))
    decreases |s| - n
  {
    var t := Pass(cmp, s, n);
    PassItems(cmp, s, n);
    PassRuns(cmp, u, s, n);
    SameMembers(s, t, u);
    forall x | x in u
      ensures Class(cmp, x, t) == Class(cmp, x, s)
    {
      PassStable(cmp, u, x, s, n);
    }
    if |s| <= 2 * n {
      if t != [] {
        assert t[..Min(2 * n, |t|)] == t;
      }
    } else {
      SortFromCorrect(cmp, u, t, 2 * n);
    }
  }

  /** HASH_SRT leaves a stable sorted permutation, for every comparator that is a total preorder on
      the items present. */
  lemma MergeSortCorrect<T>(cmp: Cmp<T>, u: set<T>, s: seq<T>)
    requires PreorderOn(cmp, u) && AllIn(s, u)
    ensures Sorted(cmp, MergeSort(cmp, s)) && StablyArranged(cmp, u, s, MergeSort(cmp, s))
    ensures var r := MergeSort(cmp, s); forall i, j :: 0 <= i < j < |r| ==> cmp(r[i], r[j]) <= 0
  {
    RunsOfOne(cmp, s);
    SortFromCorrect(cmp, u, s, 1);
  }

  // ---------------------------------------------------------------- insertion

  lemma {:induction false} InsertItems<T>(cmp: Cmp<T>, s: seq<T>, x: T)
    ensures multiset(InsertInto(cmp, s, x)) == multiset(s) + multiset{x}
  {
    if s != [] {
      assert s == [s[0]] + s[1..];
      if cmp(s[0], x) <= 0 {
        InsertItems(cmp, s[1..], x);
      }
    }
  }

  lemma InsertMembers<T>(cmp: Cmp<T>, s: seq<T>, x: T)
    ensures forall y :: y in InsertInto(cmp, s, x) ==> y in s || y == x
    ensures x in InsertInto(cmp, s, x) && forall y :: y in s ==> y in InsertInto(cmp, s, x)
  {
    InsertItems(cmp, s, x);
    var r := InsertInto(cmp, s, x);
    assert forall y :: y in r ==> y in multiset(r);
    assert forall y :: y in s ==> y in multiset(s) && y in multiset(r);
    assert x in multiset(r);
  }

  lemma {:induction false} InsertSorted<T>(cmp: Cmp<T>, u: set<T>, s: seq<T>, x: T)
    requires PreorderOn(cmp, u) && AllIn(s, u) && x in u && Sorted(cmp, s)
    ensures Sorted(cmp, InsertInto(cmp, s, x))
  {
    if s != [] {
      if cmp(s[0], x) > 0 {
        assert Le(cmp, x, s[0]);
        forall y | y in s
          ensures Le(cmp, x, y)
        {
          var i :| 0 <= i < |s| && s[i] == y;
          assert i == 0 || Le(cmp, s[0], s[i]);
        }
        SortedCons(cmp, x, s);
      } else {
        InsertSorted(cmp, u, s[1..], x);
        InsertMembers(cmp, s[1..], x);
        assert Le(cmp, s[0], x);
        forall y | y in s[1..]
          ensures Le(cmp, s[0], y)
        {
          var i :| 1 <= i < |s| && s[i] == y;
        }
        SortedCons(cmp, s[0], InsertInto(cmp, s[1..], x));
      }
    }
  }

  lemma {:induction false} InsertStable<T>(cmp: Cmp<T>, u: set<T>, s: seq<T>, x: T, z: T)
    requires PreorderOn(cmp, u) && AllIn(s, u) && x in u && z in u && Sorted(cmp, s)
    ensures Class(cmp, z, InsertInto(cmp, s, x)) == Class(cmp, z, s) + Class(cmp, z, [x])
  {
    ClassCons(cmp, z, [x]);
    if s != [] {
      var r := InsertInto(cmp, s, x);
      ClassCons(cmp, z, r);
      ClassCons(cmp, z, s);
      if cmp(s[0], x) > 0 {
        assert r[1..] == s;
        if Equiv(cmp, z, x) {
          ClassBelow(cmp, u, z, s, x);
        }
      } else {
        assert r[1..] == InsertInto(cmp, s[1..], x);
        InsertStable(cmp, u, s[1..], x, z);
      }
    }
  }

  lemma {:induction false} InsertAllCorrect<T>(cmp: Cmp<T>, u: set<T>, s: seq<T>, xs: seq<T>)
    requires PreorderOn(cmp, u) && AllIn(s, u) && AllIn(xs, u) && Sorted(cmp, s)
    ensures Sorted(cmp, InsertAll(cmp, s, xs)) && StablyArranged(cmp, u, s + xs, InsertAll(cmp, s, xs))
    decreases |xs|
  {
    if xs == [] {
      assert s + xs == s;
    } else {
      var r := InsertInto(cmp, s, xs[0]);
      InsertSorted(cmp, u, s, xs[0]);
      InsertMembers(cmp, s, xs[0]);
      InsertAllCorrect(cmp, u, r, xs[1..]);
      InsertArranges(cmp, u, s, xs);
    }
  }

  lemma InsertArranges<T>(cmp: Cmp<T>, u: set<T>, s: seq<T>, xs: seq<T>)
    requires PreorderOn(cmp, u) && AllIn(s, u) && AllIn(xs, u) && Sorted(cmp, s) && xs != []
    ensures StablyArranged(cmp, u, s + xs, InsertInto(cmp, s, xs[0]) + xs[1..])
  {
    hide InsertInto, Class, PreorderOn, AllIn, Sorted;
    InsertArrangesItems(cmp, s, xs);
    forall z | z in u
      ensures Class(cmp, z, InsertInto(cmp, s, xs[0]) + xs[1..]) == Class(cmp, z, s + xs)
    {
      InsertArrangesClass(cmp, u, s, xs, z);
    }
  }

  lemma InsertArrangesItems<T>(cmp: Cmp<T>, s: seq<T>, xs: seq<T>)
    requires xs != []
    ensures multiset(InsertInto(cmp, s, xs[0]) + xs[1..]) == multiset(s + xs)
  {
    hide InsertInto;
    InsertItems(cmp, s, xs[0]);
    MultisetCons(xs);
  }

  lemma InsertArrangesClass<T>(cmp: Cmp<T>, u: set<T>, s: seq<T>, xs: seq<T>, z: T)
    requires PreorderOn(cmp, u) && AllIn(s, u) && AllIn(xs, u) && Sorted(cmp, s) && xs != [] && z in u
    ensures Class(cmp, z, InsertInto(cmp, s, xs[0]) + xs[1..]) == Class(cmp, z, s + xs)
  {
    hide InsertInto, Class, PreorderOn, Sorted;
    var x, rest := xs[0], xs[1..];
    assert x in xs && xs == [x] + rest;
    hide AllIn;
    InsertStable(cmp, u, s, x, z);
    ClassAppend(cmp, z, InsertInto(cmp, s, x), rest);
    ClassAppend(cmp, z, s, xs);
    ClassAppend(cmp, z, [x], rest);
    Assoc(Class(cmp, z, s), Class(cmp, z, [x]), Class(cmp, z, rest));
  }

  // ---------------------------------------------------------------- a stable sort is unique

  lemma ClassHead<T>(cmp: Cmp<T>, u: set<T>, s: seq<T>)
    requires PreorderOn(cmp, u) && AllIn(s, u) && s != []
    ensures Class(cmp, s[0], s) != [] && Class(cmp, s[0], s)[0] == s[0]
  {
    assert s[0] in s;
  }

  lemma {:induction false} StableSortUnique<T>(cmp: Cmp<T>, u: set<T>, s: seq<T>, t: seq<T>)
    requires PreorderOn(cmp, u) && AllIn(s, u) && AllIn(t, u) && Sorted(cmp, s) && Sorted(cmp, t)
    requires forall x :: x in u ==> Class(cmp, x, s) == Class(cmp, x, t)
    ensures s == t
    decreases |s|
  {
    if s == [] {
      if t != [] {
        assert t[0] in t;
        ClassHead(cmp, u, t);
      }
    } else {
      var a := s[0];
      assert a in s;
      ClassHead(cmp, u, s);
      FilterMembers(y => Equiv(cmp, a, y), t);
      assert a in Class(cmp, a, t);
      assert a in t && t != [];
      var b := t[0];
      assert b in t;
      ClassHead(cmp, u, t);
      FilterMembers(y => Equiv(cmp, b, y), s);
      assert b in Class(cmp, b, s) && b in s;
      HeadIsLeast(cmp, u, s, b);
      HeadIsLeast(cmp, u, t, a);
      ClassCons(cmp, a, t);
      assert a == b;
      forall x | x in u
        ensures Class(cmp, x, s[1..]) == Class(cmp, x, t[1..])
      {
        ClassCons(cmp, x, s);
        ClassCons(cmp, x, t);
        var k := if Equiv(cmp, x, a) then 1 else 0;
        assert Class(cmp, x, s)[k..] == Class(cmp, x, s[1..]);
        assert Class(cmp, x, t)[k..] == Class(cmp, x, t[1..]);
      }
      StableSortUnique(cmp, u, s[1..], t[1..]);
    }
  }

  lemma HeadIsLeast<T>(cmp: Cmp<T>, u: set<T>, s: seq<T>, x: T)
    requires PreorderOn(cmp, u) && AllIn(s, u) && Sorted(cmp, s) && x in s
    ensures Le(cmp, s[0], x)
  {
    var i :| 0 <= i < |s| && s[i] == x;
    assert s[0] in s;
  }

  /** Building a table by in-order adds gives the order that appending and then sorting gives. */
  lemma InsertAllIsMergeSort<T>(cmp: Cmp<T>, u: set<T>, xs: seq<T>)
    requires PreorderOn(cmp, u) && AllIn(xs, u)
    ensures InsertAll(cmp, [], xs) == MergeSort(cmp, xs)
  {
    MergeSortCorrect(cmp, u, xs);
    InsertAllCorrect(cmp, u, [], xs);
    assert [] + xs == xs;
    var s, t := InsertAll(cmp, [], xs), MergeSort(cmp, xs);
    SameMembers(xs, s, u);
    SameMembers(xs, t, u);
    StableSortUnique(cmp, u, s, t);
  }
}
