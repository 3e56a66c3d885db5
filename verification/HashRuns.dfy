/** Whole runs of the hash index: additions at the end or in order, deletions, lookups and sorts, in any
    sequence, against a finite map and an ordered list of items. */
module HashRuns {
  import opened Options
  import opened Seqs
  import opened BitOps
  import opened HashTypes
  import opened HashModel
  import opened HashOrder
  import opened HashTable

  datatype Op<!K(==), !V> =
    | AddOp(cmp: Option<Cmp<Item<K, V>>>, x: Item<K, V>)
    | DeleteOp(x: Item<K, V>)
    | FindOp(k: K)
    | SortOp(sorter: Cmp<Item<K, V>>)

  /** The reference: a finite map, and the keys' items in order. */
  datatype Dictionary<K(==), V> = Dictionary(items: map<K, Item<K, V>>, order: Items<K, V>)

  ghost function Apply<K, V>(h: K -> nat, t: Index<K, V>, op: Op<K, V>): Index<K, V>
    requires Inv(h, t) && (op.DeleteOp? ==> t.HasTable?)
  {
    match op
    case AddOp(cmp, x) => AddBy(h, cmp, t, x)
    case DeleteOp(x) => Delete(h, t, x)
    case FindOp(_) => t
    case SortOp(cmp) => SortBy(cmp, t)
  }

  ghost function DictApply<K, V>(d: Dictionary<K, V>, op: Op<K, V>): Dictionary<K, V> {
    match op
    case AddOp(cmp, x) => Dictionary(d.items[x.key := x], OrderWith(cmp, d.order, x))
    case DeleteOp(x) => Dictionary(d.items - {x.key}, Without(d.order, x))
    case FindOp(_) => d
    case SortOp(cmp) => Dictionary(d.items, MergeSort(cmp, d.order))
  }

  /** What the callers owe: keys are distinct, and only present items are deleted. */
  ghost predicate Legal<K, V>(d: Dictionary<K, V>, op: Op<K, V>) {
    match op
    case AddOp(_, x) => x.key !in d.items
    case DeleteOp(x) => x.key in d.items && d.items[x.key] == x
    case FindOp(_) => true
    case SortOp(_) => true
  }

  ghost predicate LegalRun<K, V>(d: Dictionary<K, V>, ops: seq<Op<K, V>>)
    decreases |ops|
  {
    |ops| == 0 || (Legal(d, ops[0]) && LegalRun(DictApply(d, ops[0]), ops[1..]))
  }

  ghost function DictRun<K, V>(d: Dictionary<K, V>, ops: seq<Op<K, V>>): Dictionary<K, V>
    decreases |ops|
  {
    if |ops| == 0 then d else DictRun(DictApply(d, ops[0]), ops[1..])
  }

  ghost function DictFind<K, V>(d: Dictionary<K, V>, k: K): Item?<K, V> {
    if k in d.items then d.items[k] else null
  }

  /** The map and the list hold the same items. */
  ghost predicate Matched<K, V>(d: Dictionary<K, V>) {
    && (forall x :: x in d.order ==> x.key in d.items && d.items[x.key] == x)
    && (forall k :: k in d.items ==> d.items[k] in d.order && d.items[k].key == k)
  }

  ghost predicate Represents<K, V>(h: K -> nat, t: Index<K, V>, d: Dictionary<K, V>) {
    Inv(h, t) && t.Order() == d.order && Matched(d)
  }

  lemma FindRefines<K, V>(h: K -> nat, t: Index<K, V>, d: Dictionary<K, V>, k: K)
    requires Represents(h, t, d)
    ensures Find(h, t, k) == DictFind(d, k)
  {
    FindAgrees(h, t, k);
    FirstWithKeyFound(d.order, k);
  }

  lemma AddRefines<K, V>(h: K -> nat, t: Index<K, V>, d: Dictionary<K, V>, cmp: Option<Cmp<Item<K, V>>>, x: Item<K, V>)
    requires Represents(h, t, d) && x.key !in d.items
    ensures Represents(h, Apply(h, t, AddOp(cmp, x)), DictApply(d, AddOp(cmp, x)))
  {
    hide Inv, OrderWith, AddBy, Grown;
    AddFresh(h, cmp, t, x);
    AddMatched(d, cmp, x);
  }

  lemma AddMatched<K, V>(d: Dictionary<K, V>, cmp: Option<Cmp<Item<K, V>>>, x: Item<K, V>)
    requires Matched(d) && x.key !in d.items
    ensures Matched(DictApply(d, AddOp(cmp, x)))
  {
    hide OrderWith;
    OrderGrows(cmp, d.order, x);
  }

  lemma DeleteRefines<K, V>(h: K -> nat, t: Index<K, V>, d: Dictionary<K, V>, x: Item<K, V>)
    requires Represents(h, t, d) && Legal(d, DeleteOp(x))
    ensures Represents(h, Apply(h, t, DeleteOp(x)), DictApply(d, DeleteOp(x)))
  {
    hide Partitioned, LoadBounded;
    WithoutUniqueKeys(d.order, x);
    WithoutMembers(d.order, x);
    DeleteKeepsInv(h, t, x);
  }

  lemma SortRefines<K, V>(h: K -> nat, t: Index<K, V>, d: Dictionary<K, V>, cmp: Cmp<Item<K, V>>)
    requires Represents(h, t, d)
    ensures Represents(h, Apply(h, t, SortOp(cmp)), DictApply(d, SortOp(cmp)))
  {
    hide Inv, UniqueKeys, MergeSort;
    if t.HasTable? {
      SortKeepsInv(h, cmp, t.m);
      InvUnique(h, t);
      UniqueKeysPermuted(d.order, MergeSort(cmp, d.order));
    }
  }

  lemma InvUnique<K, V>(h: K -> nat, t: Index<K, V>)
    requires Inv(h, t)
    ensures UniqueKeys(t.Order())
  {
  }

  lemma StepRefines<K, V>(h: K -> nat, t: Index<K, V>, d: Dictionary<K, V>, op: Op<K, V>)
    requires Represents(h, t, d) && Legal(d, op)
    ensures Represents(h, Apply(h, t, op), DictApply(d, op))
  {
    match op {
      case AddOp(cmp, x) => AddRefines(h, t, d, cmp, x);
      case DeleteOp(x) => DeleteRefines(h, t, d, x);
      case FindOp(_) =>
      case SortOp(cmp) => SortRefines(h, t, d, cmp);
    }
  }

  ghost function Run<K, V>(h: K -> nat, t: Index<K, V>, d: Dictionary<K, V>, ops: seq<Op<K, V>>): Index<K, V>
    requires Represents(h, t, d) && LegalRun(d, ops)
    decreases |ops|
  {
    if |ops| == 0 then t else
      StepRefines(h, t, d, ops[0]);
      Run(h, Apply(h, t, ops[0]), DictApply(d, ops[0]), ops[1..])
  }

  /** Along every legal run, expansions included, the index stands for the dictionary that the same run
      builds. */
  lemma {:induction false} RunRefines<K, V>(h: K -> nat, t: Index<K, V>, d: Dictionary<K, V>, ops: seq<Op<K, V>>)
    requires Represents(h, t, d) && LegalRun(d, ops)
    ensures Represents(h, Run(h, t, d, ops), DictRun(d, ops))
    decreases |ops|
  {
    if |ops| != 0 {
      StepRefines(h, t, d, ops[0]);
      RunRefines(h, Apply(h, t, ops[0]), DictApply(d, ops[0]), ops[1..]);
    }
  }

  /** From the empty index: the same order, and every lookup gives the map's answer. */
  lemma RunFromEmpty<K, V>(h: K -> nat, ops: seq<Op<K, V>>)
    requires LegalRun(Dictionary(map[], []), ops)
    ensures Represents<K, V>(h, NoTable, Dictionary(map[], []))
    ensures var t := Run(h, NoTable, Dictionary(map[], []), ops);
            var d := DictRun(Dictionary(map[], []), ops);
            && Inv(h, t)
            && t.Order() == d.order
            && (forall k :: Find(h, t, k) == DictFind(d, k))
            && (t.NoTable? <==> d.order == [])
  {
    var d0: Dictionary<K, V> := Dictionary(map[], []);
    RunRefines(h, NoTable, d0, ops);
    var t, d := Run(h, NoTable, d0, ops), DictRun(d0, ops);
    forall k
      ensures Find(h, t, k) == DictFind(d, k)
    {
      FindRefines(h, t, d, k);
    }
  }

  /** The load theorem, for every reachable table. */
  lemma LoadAfterRun<K, V>(h: K -> nat, ops: seq<Op<K, V>>)
    requires LegalRun(Dictionary(map[], []), ops)
    ensures Represents<K, V>(h, NoTable, Dictionary(map[], []))
    ensures var t := Run(h, NoTable, Dictionary(map[], []), ops);
            t.HasTable? ==>
              && |t.m.mults| == |t.m.chains| == Pow2(t.m.lg)
              && Sum(t.m.mults) <= |t.m.chains|
              && (t.m.lg > INITIAL_LOG2 ==> 1 <= t.m.ideal <= 10)
              && (!t.m.noexpand ==> |t.m.order| <= 20 * |t.m.chains|)
              && (!t.m.noexpand ==> forall j :: 0 <= j < |t.m.chains| ==>
                    && |t.m.chains[j]| <= 10 * (t.m.mults[j] + 1)
                    && (t.m.mults[j] >= 1 ==> |t.m.chains[j]| < 10 * (t.m.mults[j] + 1)))
  {
    RunRefines(h, NoTable, Dictionary(map[], []), ops);
    var t := Run(h, NoTable, Dictionary(map[], []), ops);
    if t.HasTable? && !t.m.noexpand {
      LoadFactor(t.m);
      assert forall j :: 0 <= j < |t.m.chains| ==> ChainBounded(|t.m.chains[j]|, t.m.mults[j]);
    }
  }

  // ---------------------------------------------------------------- runs that keep the index sorted

  /** Neither an addition without a comparator nor one with another comparator. */
  ghost predicate InOrder<K, V>(cmp: Cmp<Item<K, V>>, u: set<Item<K, V>>, op: Op<K, V>) {
    match op
    case AddOp(c, x) => c == Some(cmp) && x in u
    case DeleteOp(_) => true
    case FindOp(_) => true
    case SortOp(c) => c == cmp
  }

  lemma {:induction false} WithoutSorted<T>(cmp: Cmp<T>, s: seq<T>, x: T)
    requires Sorted(cmp, s)
    ensures Sorted(cmp, Without(s, x))
  {
    if s != [] {
      WithoutSorted(cmp, s[1..], x);
      WithoutIn(s[1..], x);
      var r := Without(s[1..], x);
      forall y | y in r
        ensures Le(cmp, s[0], y)
      {
        var i :| 1 <= i < |s| && s[i] == y;
      }
      SortedCons(cmp, s[0], r);
    }
  }

  lemma {:induction false} WithoutIn<T>(s: seq<T>, x: T)
    ensures forall y :: y in Without(s, x) ==> y in s
  {
    if s != [] {
      WithoutIn(s[1..], x);
    }
  }

  lemma StepSorted<K, V>(cmp: Cmp<Item<K, V>>, u: set<Item<K, V>>, d: Dictionary<K, V>, op: Op<K, V>)
    requires PreorderOn(cmp, u) && AllIn(d.order, u) && InOrder(cmp, u, op)
    requires Sorted(cmp, d.order) || op.SortOp?
    ensures var e := DictApply(d, op); AllIn(e.order, u) && Sorted(cmp, e.order)
  {
    hide MergeSort, InsertInto, Without;
    match op {
      case AddOp(_, x) =>
        InsertSorted(cmp, u, d.order, x);
        InsertMembers(cmp, d.order, x);
      case DeleteOp(x) =>
        WithoutSorted(cmp, d.order, x);
        WithoutIn(d.order, x);
      case FindOp(_) =>
      case SortOp(_) =>
        MergeSortCorrect(cmp, u, d.order);
        SameMembers(d.order, MergeSort(cmp, d.order), u);
    }
  }

  lemma {:induction false} RunSorted<K, V>(cmp: Cmp<Item<K, V>>, u: set<Item<K, V>>, d: Dictionary<K, V>,
                                           ops: seq<Op<K, V>>)
    requires PreorderOn(cmp, u) && AllIn(d.order, u) && Sorted(cmp, d.order)
    requires forall i :: 0 <= i < |ops| ==> InOrder(cmp, u, ops[i])
    ensures Sorted(cmp, DictRun(d, ops).order)
    decreases |ops|
  {
    if |ops| != 0 {
      StepSorted(cmp, u, d, ops[0]);
      RunSorted(cmp, u, DictApply(d, ops[0]), ops[1..]);
    }
  }

  /** An index built with one comparator only is sorted by it at every moment, whatever is deleted. */
  lemma InOrderRun<K, V>(h: K -> nat, cmp: Cmp<Item<K, V>>, u: set<Item<K, V>>, ops: seq<Op<K, V>>)
    requires LegalRun(Dictionary(map[], []), ops) && PreorderOn(cmp, u)
    requires forall i :: 0 <= i < |ops| ==> InOrder(cmp, u, ops[i])
    ensures Represents<K, V>(h, NoTable, Dictionary(map[], []))
    ensures var r := Run(h, NoTable, Dictionary(map[], []), ops).Order();
            forall i, j :: 0 <= i < j < |r| ==> cmp(r[i], r[j]) <= 0
  {
    RunFromEmpty(h, ops);
    RunSorted(cmp, u, Dictionary(map[], []), ops);
  }
}
