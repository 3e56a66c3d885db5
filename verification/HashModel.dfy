/** What the hash index means: the application order, the chains, and the adaptive expansion
    policy, as values. The pointer-level code of module HashTable is proved against these
    functions; the properties of the index are proved here. */
module HashModel {
  import opened Seqs
  import opened BitOps
  import opened HashTypes

  const INITIAL_LOG2: nat := 5
  const CAPACITY_THRESH: nat := 10

  type Items<K(==), V> = seq<Item<K, V>>

  datatype Model<K(==), V> = Model(
    order: Items<K, V>,
    chains: seq<Items<K, V>>,
    mults: seq<nat>,
    lg: nat,
    ideal: nat,
    nonideal: nat,
    ineff: nat,
    noexpand: bool)

  /** `head` is NULL exactly when there is no table. */
  datatype Index<K(==), V> = NoTable | HasTable(m: Model<K, V>)
  {
    ghost function Order(): Items<K, V> {
      if NoTable? then [] else m.order
    }
  }

  ghost function Slot<K, V>(h: K -> nat, n: nat, x: Item<K, V>): (r: nat)
    requires n > 0
    ensures r < n
  {
    h(x.key) % n
  }

  ghost function Lengths<K, V>(chains: seq<Items<K, V>>): (r: seq<int>)
    ensures |r| == |chains|
    ensures forall j :: 0 <= j < |r| ==> r[j] == |chains[j]|
  {
    seq(|chains|, j requires 0 <= j < |chains| => |chains[j]|)
  }

  // ---------------------------------------------------------------- operations

  ghost function EmptyChains<K, V>(n: nat): (r: seq<Items<K, V>>)
    ensures |r| == n && forall j :: 0 <= j < n ==> r[j] == []
  {
    seq(n, j => [])
  }

  ghost function Zeros(n: nat): (r: seq<nat>)
    ensures |r| == n && forall j :: 0 <= j < n ==> r[j] == 0
  {
    seq(n, j => 0)
  }

  /** HASH_MAKE_TABLE around one item that is not yet in a bucket. */
  ghost function MakeTable<K, V>(x: Item<K, V>): Model<K, V> {
    Model([x], EmptyChains(Pow2(INITIAL_LOG2)), Zeros(Pow2(INITIAL_LOG2)), INITIAL_LOG2, 0, 0, 0, false)
  }

  ghost predicate LandsIn<K, V>(h: K -> nat, n: nat, j: nat, x: Item<K, V>)
    requires n > 0
  {
    h(x.key) % n == j
  }

  /** Chain j of the doubled table: the items of the old chain that hash there, reversed, because
      each one is pushed in front of those already moved. */
  ghost function MovedPart<K, V>(h: K -> nat, n: nat, j: nat, chain: Items<K, V>): Items<K, V>
    requires n > 0
  {
    Reverse(Filter(x => LandsIn(h, n, j, x), chain))
  }

  /** The old bucket whose items may land in new bucket j. */
  ghost function Origin(j: nat, b: nat): nat {
    if j < b then j else j - b
  }

  ghost function Redistribute<K, V>(h: K -> nat, chains: seq<Items<K, V>>): (r: seq<Items<K, V>>)
    requires |chains| > 0
    ensures |r| == 2 * |chains|
  {
    seq(2 * |chains|, j requires 0 <= j < 2 * |chains| => MovedPart(h, 2 * |chains|, j, chains[Origin(j, |chains|)]))
  }

  ghost function MultFor(count: nat, ideal: nat): nat
    requires ideal > 0
  {
    if count > ideal then count / ideal else 0
  }

  ghost function ExcessFor(count: nat, ideal: nat): nat {
    if count > ideal then count - ideal else 0
  }

  ghost function Mults<K, V>(chains: seq<Items<K, V>>, ideal: nat): (r: seq<nat>)
    requires ideal > 0
    ensures |r| == |chains|
    ensures forall j :: 0 <= j < |r| ==> r[j] == MultFor(|chains[j]|, ideal)
  {
    seq(|chains|, j requires 0 <= j < |chains| => MultFor(|chains[j]|, ideal))
  }

  ghost function Excesses<K, V>(chains: seq<Items<K, V>>, ideal: nat): (r: seq<int>)
    ensures |r| == |chains|
    ensures forall j :: 0 <= j < |r| ==> r[j] == ExcessFor(|chains[j]|, ideal)
  {
    seq(|chains|, j requires 0 <= j < |chains| => ExcessFor(|chains[j]|, ideal))
  }

  ghost function CeilDiv(n: nat, d: nat): nat
    requires d > 0
  {
    n / d + (if n % d != 0 then 1 else 0)
  }

  ghost function NewIneff(ineff: nat, nonideal: int, items: nat): nat {
    if nonideal > items / 2 then ineff + 1 else 0
  }

  lemma CeilDivPositive(n: nat, d: nat)
    requires n > 0 && d > 0
    ensures CeilDiv(n, d) > 0 && n <= CeilDiv(n, d) * d
  {
    CeilingByDivision(n, d);
  }

  ghost function Expand<K, V>(h: K -> nat, m: Model<K, V>): Model<K, V>
    requires |m.order| > 0 && |m.chains| > 0
  {
    CeilDivPositive(|m.order|, 2 * |m.chains|);
    var ideal := CeilDiv(|m.order|, 2 * |m.chains|);
    var chains := Redistribute(h, m.chains);
    var nonideal := Sum(Excesses(chains, ideal));
    SumNonNegative(Excesses(chains, ideal));
    var ineff := NewIneff(m.ineff, nonideal, |m.order|);
    Model(m.order, chains, Mults(chains, ideal), m.lg + 1, ideal, nonideal, ineff, m.noexpand || ineff > 1)
  }

  /** One more item in front of its chain. */
  ghost function Pushed<K, V>(h: K -> nat, m: Model<K, V>, add: Item<K, V>): Model<K, V>
    requires |m.chains| > 0
  {
    m.(chains := m.chains[Slot(h, |m.chains|, add) := [add] + m.chains[Slot(h, |m.chains|, add)]])
  }

  /** HASH_ADD_TO_BKT: push in front of the chain, then expand when the chain reaches its threshold. */
  ghost function Push<K, V>(h: K -> nat, m: Model<K, V>, x: Item<K, V>): Model<K, V>
    requires |m.order| > 0 && |m.chains| == |m.mults| > 0
  {
    var j := Slot(h, |m.chains|, x);
    if |m.chains[j]| + 1 >= (m.mults[j] + 1) * CAPACITY_THRESH && !m.noexpand then Expand(h, Pushed(h, m, x))
    else Pushed(h, m, x)
  }

  /** Adding x, with the application order it leads to already chosen. */
  ghost function AddWithOrder<K, V>(h: K -> nat, t: Index<K, V>, x: Item<K, V>, order: Items<K, V>): Index<K, V>
    requires t.HasTable? ==> |t.m.chains| == |t.m.mults| > 0
    requires |order| > 0
  {
    HasTable(Push(h, if t.NoTable? then MakeTable(x) else t.m.(order := order), x))
  }

  /** HASH_ADD */
  ghost function Add<K, V>(h: K -> nat, t: Index<K, V>, x: Item<K, V>): Index<K, V>
    requires t.HasTable? ==> |t.m.chains| == |t.m.mults| > 0
  {
    AddWithOrder(h, t, x, t.Order() + [x])
  }

  /** The table after HASH_DELETE of an item that is not alone. */
  ghost function Shrunk<K, V>(h: K -> nat, m: Model<K, V>, x: Item<K, V>): Model<K, V>
    requires |m.chains| > 0
  {
    var j := Slot(h, |m.chains|, x);
    m.(order := Without(m.order, x), chains := m.chains[j := Without(m.chains[j], x)])
  }

  /** HASH_DELETE */
  ghost function Delete<K, V>(h: K -> nat, t: Index<K, V>, x: Item<K, V>): Index<K, V>
    requires t.HasTable? && |t.m.chains| > 0
  {
    if |t.m.order| == 1 then NoTable else HasTable(Shrunk(h, t.m, x))
  }

  /** The first item with key k, or null. */
  ghost function FirstWithKey<K, V>(s: Items<K, V>, k: K): Item?<K, V> {
    if s == [] then null else if s[0].key == k then s[0] else FirstWithKey(s[1..], k)
  }

  /** HASH_FIND: only the chain of the key's own bucket is searched. */
  ghost function Find<K, V>(h: K -> nat, t: Index<K, V>, k: K): Item?<K, V>
    requires t.HasTable? ==> |t.m.chains| > 0
  {
    if t.NoTable? then null else FirstWithKey(t.m.chains[h(k) % |t.m.chains|], k)
  }

  // ---------------------------------------------------------------- the invariant

  ghost predicate UniqueKeys<K, V>(s: Items<K, V>) {
    forall i, j :: 0 <= i < j < |s| ==> s[i].key != s[j].key
  }

  /** Chain j holds exactly the items of the application order that hash to j, each once. */
  ghost predicate Partitioned<K, V>(h: K -> nat, order: Items<K, V>, chains: seq<Items<K, V>>) {
    && |chains| > 0
    && (forall j :: 0 <= j < |chains| ==> NoDup(chains[j]))
    && (forall j, x :: 0 <= j < |chains| && x in chains[j] ==> x in order && Slot(h, |chains|, x) == j)
    && (forall x :: x in order ==> x in chains[Slot(h, |chains|, x)])
    && Sum(Lengths(chains)) == |order|
  }

  /** The chain-length bound of the expansion policy. */
  ghost predicate LoadBounded<K, V>(m: Model<K, V>) {
    && |m.mults| == |m.chains|
    && Sum(m.mults) <= |m.chains|
    && (!m.noexpand ==> forall j :: 0 <= j < |m.chains| ==> ChainBounded(|m.chains[j]|, m.mults[j]))
  }

  ghost predicate ChainBounded(count: nat, mult: nat) {
    && count <= CAPACITY_THRESH * (mult + 1)
    && (mult >= 1 ==> count < CAPACITY_THRESH * (mult + 1))
  }

  ghost predicate Inv<K, V>(h: K -> nat, t: Index<K, V>) {
    t.HasTable? ==>
      && |t.m.order| > 0
      && UniqueKeys(t.m.order)
      && Partitioned(h, t.m.order, t.m.chains)
      && |t.m.chains| == Pow2(t.m.lg)
      && INITIAL_LOG2 <= t.m.lg
      && LoadBounded(t.m)
      && t.m.ideal <= 10
      && (t.m.lg > INITIAL_LOG2 ==> t.m.ideal >= 1)
  }

  // ---------------------------------------------------------------- expansion

  /** Each old chain is split between its own slot and the slot one old table higher. */
  lemma {:induction false} ChainSplits<K, V>(h: K -> nat, b: nat, i: nat, c: Items<K, V>)
    requires i < b
    requires forall x :: x in c ==> Slot(h, b, x) == i
    ensures |MovedPart(h, 2 * b, i, c)| + |MovedPart(h, 2 * b, i + b, c)| == |c|
  {
    if c != [] {
      assert Slot(h, b, c[0]) == i;
      ModuloDoubled(h(c[0].key), b);
      ChainSplits(h, b, i, c[1..]);
    }
  }

  lemma RedistributeLengths<K, V>(h: K -> nat, order: Items<K, V>, chains: seq<Items<K, V>>)
    requires Partitioned(h, order, chains)
    ensures Sum(Lengths(Redistribute(h, chains))) == |order|
  {
    var b := |chains|;
    var r := Redistribute(h, chains);
    var l := Lengths(r);
    forall i | 0 <= i < b
      ensures Lengths(chains)[i] == l[..b][i] + l[b..][i]
    {
      ChainSplits(h, b, i, chains[i]);
    }
    SumHalves(Lengths(chains), l[..b], l[b..]);
    assert l == l[..b] + l[b..];
    SumAppend(l[..b], l[b..]);
  }

  lemma MovedPartMembers<K, V>(h: K -> nat, n: nat, j: nat, c: Items<K, V>)
    requires n > 0 && NoDup(c)
    ensures NoDup(MovedPart(h, n, j, c))
    ensures forall x :: x in MovedPart(h, n, j, c) ==> x in c && LandsIn(h, n, j, x)
    ensures forall x :: x in c && LandsIn(h, n, j, x) ==> x in MovedPart(h, n, j, c)
  {
    var p := x => LandsIn(h, n, j, x);
    FilterNoDup(p, c);
    ReverseNoDup(Filter(p, c));
    ReverseMembers(Filter(p, c));
    FilterMembers(p, c);
  }

  /** Expansion preserves the item set: an item of old bucket i is in new bucket i or i + b. */
  lemma RedistributePartitions<K, V>(h: K -> nat, order: Items<K, V>, chains: seq<Items<K, V>>)
    requires Partitioned(h, order, chains)
    ensures Partitioned(h, order, Redistribute(h, chains))
  {
    var b := |chains|;
    var r := Redistribute(h, chains);
    forall j | 0 <= j < 2 * b
      ensures NoDup(r[j])
      ensures forall x :: x in r[j] ==> x in order && Slot(h, 2 * b, x) == j
    {
      var o := Origin(j, b);
      MovedPartMembers(h, 2 * b, j, chains[o]);
      assert forall x :: x in r[j] ==> x in chains[o] && LandsIn(h, 2 * b, j, x);
    }
    forall x | x in order
      ensures x in r[Slot(h, 2 * b, x)]
    {
      var j := Slot(h, 2 * b, x);
      ModuloDoubled(h(x.key), b);
      assert Origin(j, b) == Slot(h, b, x);
      MovedPartMembers(h, 2 * b, j, chains[Origin(j, b)]);
      assert x in MovedPart(h, 2 * b, j, chains[Origin(j, b)]);
    }
    RedistributeLengths(h, order, chains);
  }

  lemma QuotientTimes(n: nat, d: nat)
    requires d > 0
    ensures 0 <= (n / d) * d <= n
  {
  }

  lemma Distribute(a: int, b: int, c: int)
    ensures (a + b) * c == a * c + b * c
  {
  }

  /** sum(expand_mult) * ideal <= number of items. */
  lemma {:induction false} MultsTimesIdeal(mults: seq<int>, counts: seq<int>, ideal: nat)
    requires |mults| == |counts| && ideal > 0
    requires forall j :: 0 <= j < |mults| ==> counts[j] >= 0 && mults[j] == MultFor(counts[j], ideal)
    ensures Sum(mults) * ideal <= Sum(counts)
  {
    if mults != [] {
      MultsTimesIdeal(mults[1..], counts[1..], ideal);
      QuotientTimes(counts[0], ideal);
      Distribute(mults[0], Sum(mults[1..]), ideal);
    }
  }

  /** The number of items that a table obeying the chain bound can hold. */
  lemma {:induction false} LoadOfBuckets(counts: seq<int>, mults: seq<int>)
    requires |mults| == |counts|
    requires forall j :: 0 <= j < |mults| ==> counts[j] >= 0 && mults[j] >= 0 && ChainBounded(counts[j], mults[j])
    ensures Sum(mults) >= 0
    ensures Sum(counts) + (if Sum(mults) > 0 then 1 else 0) <= CAPACITY_THRESH * (Sum(mults) + |mults|)
  {
    if mults != [] {
      LoadOfBuckets(counts[1..], mults[1..]);
    }
  }

  /** While expansion is not inhibited a table holds at most twenty items per bucket, even with the
      one item that is being added. */
  lemma LoadFactor<K, V>(m: Model<K, V>)
    requires LoadBounded(m) && !m.noexpand && |m.chains| > 0
    ensures Sum(Lengths(m.chains)) + 1 <= 20 * |m.chains|
  {
    LoadOfBuckets(Lengths(m.chains), m.mults);
  }

  lemma IdealAtMostTen(n: nat, b: nat)
    requires 0 < n <= 20 * b
    ensures 1 <= CeilDiv(n, 2 * b) <= 10
  {
    CeilingByDivision(n, 2 * b);
    var c := CeilDiv(n, 2 * b);
    MulMonotone(10, c - 1, 2 * b);
    MulMonotone(c, 0, 2 * b);
  }

  lemma ExpandedChainBounded(count: nat, ideal: nat)
    requires 1 <= ideal <= 10
    ensures ChainBounded(count, MultFor(count, ideal))
  {
    if count > ideal {
      var q := count / ideal;
      assert count < ideal * (q + 1);
      MulMonotone(ideal, 10, q + 1);
    }
  }

  /** Expansion restores the policy's bounds from the weaker state in which it is triggered: only
      the number of items per bucket matters, not how they are spread. */
  lemma ExpandRestores<K, V>(h: K -> nat, m: Model<K, V>)
    requires |m.order| > 0
    requires Partitioned(h, m.order, m.chains)
    requires |m.order| <= 20 * |m.chains|
    ensures LoadBounded(Expand(h, m))
    ensures 1 <= Expand(h, m).ideal <= 10
    ensures Partitioned(h, m.order, Expand(h, m).chains)
  {
    var e := Expand(h, m);
    IdealAtMostTen(|m.order|, |m.chains|);
    RedistributePartitions(h, m.order, m.chains);
    forall j | 0 <= j < |e.chains|
      ensures ChainBounded(|e.chains[j]|, e.mults[j])
    {
      ExpandedChainBounded(|e.chains[j]|, e.ideal);
    }
    MultsTimesIdeal(e.mults, Lengths(e.chains), e.ideal);
    CeilDivPositive(|m.order|, 2 * |m.chains|);
    CancelFactor(Sum(e.mults), |e.chains|, e.ideal);
  }

  lemma ExpandKeepsInv<K, V>(h: K -> nat, m: Model<K, V>)
    requires |m.order| > 0 && UniqueKeys(m.order)
    requires Partitioned(h, m.order, m.chains)
    requires |m.chains| == Pow2(m.lg) && INITIAL_LOG2 <= m.lg
    requires |m.order| <= 20 * |m.chains|
    ensures Inv(h, HasTable(Expand(h, m)))
  {
    ExpandRestores(h, m);
  }

  lemma CancelFactor(a: int, b: int, f: int)
    requires f > 0 && a * f <= f * b
    ensures a <= b
  {
    MulMonotone(b + 1, a, f);
  }

  lemma MulMonotone(a: int, b: int, f: int)
    requires f >= 0
    ensures a <= b ==> a * f <= b * f
  {
    if a <= b {
      assert (b - a) * f >= 0;
    }
  }

  // ---------------------------------------------------------------- every operation keeps the invariant

  lemma EmptyPartition<K, V>(h: K -> nat, n: nat)
    requires n > 0
    ensures Partitioned<K, V>(h, [], EmptyChains(n))
  {
    SumZero(Lengths(EmptyChains<K, V>(n)));
  }

  lemma PushPartitions<K, V>(h: K -> nat, order: Items<K, V>, chains: seq<Items<K, V>>, x: Item<K, V>,
                             order': Items<K, V>)
    requires Partitioned(h, order, chains) && x !in order
    requires |order'| == |order| + 1
    requires forall y :: y in order' ==> y in order || y == x
    requires x in order' && forall y :: y in order ==> y in order'
    ensures var j := Slot(h, |chains|, x); Partitioned(h, order', chains[j := [x] + chains[j]])
  {
    hide Slot;
    var j := Slot(h, |chains|, x);
    var chains' := chains[j := [x] + chains[j]];
    assert x !in chains[j];
    assert Lengths(chains') == Lengths(chains)[j := |chains[j]| + 1];
    SumUpdate(Lengths(chains), j, |chains[j]| + 1);
  }

  /** order' is `order` with x put somewhere into it. */
  ghost predicate Grown<K, V>(order: Items<K, V>, x: Item<K, V>, order': Items<K, V>) {
    && |order'| == |order| + 1
    && (forall y :: y in order' ==> y in order || y == x)
    && x in order' && (forall y :: y in order ==> y in order')
  }

  /** Below the threshold, one more item keeps the chain bound. */
  lemma PushBelowThreshold<K, V>(m: Model<K, V>, j: nat, x: Item<K, V>)
    requires LoadBounded(m) && j < |m.chains|
    requires m.noexpand || |m.chains[j]| + 1 < (m.mults[j] + 1) * CAPACITY_THRESH
    ensures LoadBounded(m.(chains := m.chains[j := [x] + m.chains[j]]))
  {
    var chains := m.chains[j := [x] + m.chains[j]];
    if !m.noexpand {
      forall i | 0 <= i < |chains|
        ensures ChainBounded(|chains[i]|, m.mults[i])
      {
        assert ChainBounded(|m.chains[i]|, m.mults[i]);
      }
    }
  }

  lemma PushKeepsInv<K, V>(h: K -> nat, m: Model<K, V>, x: Item<K, V>, before: Items<K, V>)
    requires Partitioned(h, before, m.chains) && x !in before
    requires Grown(before, x, m.order) && UniqueKeys(m.order)
    requires LoadBounded(m)
    requires |m.chains| == Pow2(m.lg) && INITIAL_LOG2 <= m.lg
    requires m.ideal <= 10 && (m.lg > INITIAL_LOG2 ==> m.ideal >= 1)
    ensures Inv(h, HasTable(Push(h, m, x)))
    ensures Push(h, m, x).order == m.order
  {
    var j := Slot(h, |m.chains|, x);
    var m' := m.(chains := m.chains[j := [x] + m.chains[j]]);
    PushPartitions(h, before, m.chains, x, m.order);
    if !m.noexpand && |m'.chains[j]| >= (m.mults[j] + 1) * CAPACITY_THRESH {
      LoadFactor(m);
      ExpandKeepsInv(h, m');
      assert Push(h, m, x) == Expand(h, m');
    } else {
      PushBelowThreshold(m, j, x);
      assert Push(h, m, x) == m';
    }
  }

  lemma AddKeepsInv<K, V>(h: K -> nat, t: Index<K, V>, x: Item<K, V>, order: Items<K, V>)
    requires Inv(h, t)
    requires x !in t.Order() && Grown(t.Order(), x, order) && UniqueKeys(order)
    ensures Inv(h, AddWithOrder(h, t, x, order))
    ensures AddWithOrder(h, t, x, order).Order() == order
  {
    if t.NoTable? {
      var m := MakeTable(x);
      EmptyPartition<K, V>(h, |m.chains|);
      SumZero(m.mults);
      assert order == [x];
      PushKeepsInv(h, m, x, []);
    } else {
      PushKeepsInv(h, t.m.(order := order), x, t.m.order);
    }
  }

  lemma WithoutUniqueKeys<K, V>(s: Items<K, V>, x: Item<K, V>)
    requires UniqueKeys(s) && x in s
    ensures NoDup(s) && UniqueKeys(Without(s, x))
    ensures forall y :: y in s && y.key == x.key ==> y == x
  {
    var k :| 0 <= k < |s| && s[k] == x;
    WithoutAt(s, k);
  }

  lemma DeletePartitions<K, V>(h: K -> nat, order: Items<K, V>, chains: seq<Items<K, V>>, x: Item<K, V>)
    requires Partitioned(h, order, chains) && x in order && NoDup(order)
    ensures var j := Slot(h, |chains|, x); Partitioned(h, Without(order, x), chains[j := Without(chains[j], x)])
  {
    hide Slot, Without;
    var j := Slot(h, |chains|, x);
    WithoutMembers(order, x);
    WithoutMembers(chains[j], x);
    assert x in chains[j];
    ShorterChain(chains, j, Without(chains[j], x));
    hide Lengths, Sum;
  }

  lemma ShorterChain<K, V>(chains: seq<Items<K, V>>, j: nat, c: Items<K, V>)
    requires j < |chains| && |c| == |chains[j]| - 1
    ensures Sum(Lengths(chains[j := c])) == Sum(Lengths(chains)) - 1
  {
    assert Lengths(chains[j := c]) == Lengths(chains)[j := |c|];
    SumUpdate(Lengths(chains), j, |c|);
  }

  lemma DeleteKeepsInv<K, V>(h: K -> nat, t: Index<K, V>, x: Item<K, V>)
    requires Inv(h, t) && x in t.Order()
    ensures Inv(h, Delete(h, t, x))
    ensures Delete(h, t, x).Order() == Without(t.Order(), x)
  {
    WithoutUniqueKeys(t.m.order, x);
    WithoutMembers(t.m.order, x);
    if |t.m.order| == 1 {
      assert t.m.order[0] == x;
    } else {
      DeletePartitions(h, t.m.order, t.m.chains, x);
      var j := Slot(h, |t.m.chains|, x);
      WithoutMembers(t.m.chains[j], x);
    }
  }

  // ---------------------------------------------------------------- lookups

  lemma {:induction false} FirstWithKeyIs<K, V>(s: Items<K, V>, k: K, x: Item<K, V>)
    requires UniqueKeys(s) && x in s && x.key == k
    ensures FirstWithKey(s, k) == x
  {
    if s[0] != x {
      assert x in s[1..];
      FirstWithKeyIs(s[1..], k, x);
    }
  }

  lemma {:induction false} FirstWithKeyFound<K, V>(s: Items<K, V>, k: K)
    ensures FirstWithKey(s, k) == null ==> forall x :: x in s ==> x.key != k
    ensures FirstWithKey(s, k) != null ==> FirstWithKey(s, k) in s && FirstWithKey(s, k).key == k
  {
    if s != [] && s[0].key != k {
      FirstWithKeyFound(s[1..], k);
    }
  }

  /** Searching one chain finds what searching the whole application order would. */
  lemma FindAgrees<K, V>(h: K -> nat, t: Index<K, V>, k: K)
    requires Inv(h, t)
    ensures Find(h, t, k) == FirstWithKey(t.Order(), k)
  {
    if t.HasTable? {
      var j := h(k) % |t.m.chains|;
      FirstWithKeyFound(t.m.chains[j], k);
      FirstWithKeyFound(t.m.order, k);
      var x := FirstWithKey(t.m.order, k);
      if x != null {
        assert Slot(h, |t.m.chains|, x) == j;
        var y := FirstWithKey(t.m.chains[j], k);
        assert x in t.m.chains[j];
        FirstWithKeyIs(t.m.order, k, y);
      }
    }
  }
}
