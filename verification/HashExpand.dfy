/** HASH_EXPAND_BUCKETS: the in-place redistribution of every chain into a table twice the size. */
module HashExpand {
  import opened Seqs
  import opened BitOps
  import opened HashTypes
  import opened HashModel
  import opened HashLinks

  ghost predicate BucketsOk<K, V>(bs: array<Bucket<K, V>>, chains: seq<Items<K, V>>, mults: seq<nat>)
    reads bs
  {
    && bs.Length == |chains| == |mults|
    && forall j :: 0 <= j < bs.Length ==> bs[j] == Bucket(At(chains[j], 0), |chains[j]|, mults[j])
  }

  /** Every one of the chains is threaded, and consists of items of u. */
  ghost predicate LinkedIn<K, V>(u: set<Item<K, V>>, chains: seq<Items<K, V>>)
    reads u`hhPrev, u`hhNext
  {
    forall j :: 0 <= j < |chains| ==> Elems(chains[j]) <= u && ChainLinks(chains[j])
  }

  /** The items of c are still reachable through hhNext. */
  ghost predicate StillLinked<K, V>(c: Items<K, V>)
    reads Elems(c)`hhNext
  {
    NoDup(c) && forall k {:trigger c[k].hhNext} :: 0 <= k < |c| ==> c[k].hhNext == At(c, k + 1)
  }

  ghost predicate HashesOk<K, V>(hash: K -> nat, order: Items<K, V>)
    reads Elems(order)`hashv
  {
    forall x :: x in order ==> x.hashv == hash(x.key)
  }

  // ---------------------------------------------------------------- redistribution, one item at a time

  ghost function PushTo<K, V>(h: K -> nat, q: seq<Items<K, V>>, x: Item<K, V>): seq<Items<K, V>>
    requires |q| > 0
  {
    q[Slot(h, |q|, x) := [x] + q[Slot(h, |q|, x)]]
  }

  ghost function PushEach<K, V>(h: K -> nat, q: seq<Items<K, V>>, c: Items<K, V>): (r: seq<Items<K, V>>)
    requires |q| > 0
    ensures |r| == |q|
    decreases |c|
  {
    if c == [] then q else PushEach(h, PushTo(h, q, c[0]), c[1..])
  }

  ghost function PushChains<K, V>(h: K -> nat, q: seq<Items<K, V>>, chains: seq<Items<K, V>>): (r: seq<Items<K, V>>)
    requires |q| > 0
    ensures |r| == |q|
    decreases |chains|
  {
    if chains == [] then q else PushChains(h, PushEach(h, q, chains[0]), chains[1..])
  }

  lemma MovedPartCons<K, V>(h: K -> nat, n: nat, j: nat, c: Items<K, V>)
    requires n > 0 && c != []
    ensures MovedPart(h, n, j, c) == MovedPart(h, n, j, c[1..]) + (if Slot(h, n, c[0]) == j then [c[0]] else [])
  {
    var f := x => LandsIn(h, n, j, x);
    if f(c[0]) {
      assert Filter(f, c)[1..] == Filter(f, c[1..]);
    }
  }

  lemma {:induction false} PushEachIs<K, V>(h: K -> nat, q: seq<Items<K, V>>, c: Items<K, V>, j: nat)
    requires j < |q|
    ensures PushEach(h, q, c)[j] == MovedPart(h, |q|, j, c) + q[j]
    decreases |c|
  {
    if c != [] {
      PushEachIs(h, PushTo(h, q, c[0]), c[1..], j);
      MovedPartCons(h, |q|, j, c);
    }
  }

  lemma {:induction false} NothingMoves<K, V>(h: K -> nat, n: nat, j: nat, c: Items<K, V>)
    requires n > 0 && forall x :: x in c ==> Slot(h, n, x) != j
    ensures MovedPart(h, n, j, c) == []
  {
    if c != [] {
      MovedPartCons(h, n, j, c);
      NothingMoves(h, n, j, c[1..]);
    }
  }

  /** What is still to come for new chain j when old buckets below i are done. */
  lemma {:induction false} PushChainsIs<K, V>(h: K -> nat, q: seq<Items<K, V>>, order: Items<K, V>,
                                              chains: seq<Items<K, V>>, i: nat, j: nat)
    requires Partitioned(h, order, chains) && |q| == 2 * |chains| && i <= |chains| && j < |q|
    ensures var o := Origin(j, |chains|);
            PushChains(h, q, chains[i..])[j] == (if o >= i then MovedPart(h, |q|, j, chains[o]) else []) + q[j]
    decreases |chains| - i
  {
    var o := Origin(j, |chains|);
    if i < |chains| {
      assert chains[i..][1..] == chains[i + 1..];
      PushChainsIs(h, PushEach(h, q, chains[i]), order, chains, i + 1, j);
      PushEachIs(h, q, chains[i], j);
      if o != i {
        forall x | x in chains[i]
          ensures Slot(h, |q|, x) != j
        {
          assert Slot(h, |chains|, x) == i;
          ModuloDoubled(h(x.key), |chains|);
        }
        NothingMoves(h, |q|, j, chains[i]);
      }
    }
  }

  /** Pushing item by item, old bucket by old bucket, gives the closed form of the model. */
  lemma PushChainsRedistributes<K, V>(h: K -> nat, order: Items<K, V>, chains: seq<Items<K, V>>)
    requires Partitioned(h, order, chains)
    ensures PushChains(h, EmptyChains(2 * |chains|), chains) == Redistribute(h, chains)
  {
    var r := PushChains(h, EmptyChains(2 * |chains|), chains);
    assert chains[0..] == chains;
    forall j | 0 <= j < |r|
      ensures r[j] == Redistribute(h, chains)[j]
    {
      PushChainsIs(h, EmptyChains(2 * |chains|), order, chains, 0, j);
    }
  }

  // ---------------------------------------------------------------- what one move needs

  /** The new chains hold items in the slot they hash to, each once. */
  ghost predicate Slotted<K, V>(h: K -> nat, q: seq<Items<K, V>>) {
    && |q| > 0
    && (forall j :: 0 <= j < |q| ==> NoDup(q[j]))
    && (forall j, y :: 0 <= j < |q| && y in q[j] ==> Slot(h, |q|, y) == j)
  }

  lemma ExcessStep<K, V>(chains: seq<Items<K, V>>, j: nat, x: Item<K, V>, ideal: nat)
    requires j < |chains|
    ensures Sum(Excesses(chains[j := [x] + chains[j]], ideal)) ==
            Sum(Excesses(chains, ideal)) + (if |chains[j]| + 1 > ideal then 1 else 0)
  {
    var e := Excesses(chains, ideal);
    var chains' := chains[j := [x] + chains[j]];
    assert Excesses(chains', ideal) == e[j := ExcessFor(|chains[j]| + 1, ideal)];
    SumUpdate(e, j, ExcessFor(|chains[j]| + 1, ideal));
  }

  /** The new buckets describe the chains q, and nonideal counts their excess over the ideal length. */
  ghost predicate Accounted<K, V>(bs: array<Bucket<K, V>>, q: seq<Items<K, V>>, ideal: nat, nonideal: nat)
    reads bs
  {
    ideal > 0 && BucketsOk(bs, q, Mults(q, ideal)) && nonideal == Sum(Excesses(q, ideal))
  }

  // ---------------------------------------------------------------- the code

  /** One turn of the inner loop: push thh in front of new bucket b and account for it. */
  method MoveItem<K, V>(nb: array<Bucket<K, V>>, b: nat, thh: Item<K, V>, ideal: nat, nonideal: nat,
                        ghost chain: Items<K, V>)
    returns (nonideal': nat)
    requires b < nb.Length && ideal > 0
    requires ChainLinks(chain) && NoDup(chain) && thh !in chain
    requires nb[b] == Bucket(At(chain, 0), |chain|, MultFor(|chain|, ideal))
    modifies nb, thh`hhNext, thh`hhPrev, Elems(chain)`hhPrev
    ensures ChainLinks([thh] + chain)
    ensures nb[b] == Bucket(thh, |chain| + 1, MultFor(|chain| + 1, ideal))
    ensures forall j :: 0 <= j < nb.Length && j != b ==> nb[j] == old(nb[j])
    ensures nonideal' == nonideal + (if |chain| + 1 > ideal then 1 else 0)
  {
    nonideal' := nonideal;
    nb[b] := nb[b].(count := nb[b].count + 1);
    if nb[b].count > ideal {
      nonideal' := nonideal' + 1;
      nb[b] := nb[b].(expandMult := nb[b].count / ideal);
    }
    thh.hhPrev := null;
    thh.hhNext := nb[b].hhHead;
    if nb[b].hhHead != null {
      nb[b].hhHead.hhPrev := thh;
    }
    nb[b] := nb[b].(hhHead := thh);
  }

  lemma SlotsDisjoint<K, V>(h: K -> nat, q: seq<Items<K, V>>, i: nat, j: nat)
    requires Slotted(h, q) && i < |q| && j < |q| && i != j
    ensures Elems(q[i]) !! Elems(q[j])
  {
    forall x | x in q[i]
      ensures x !in q[j]
    {
      assert Slot(h, |q|, x) == i;
    }
  }

  /** The bucket of the doubled table is chosen by masking the stored hash. */
  lemma BucketIndex<K, V>(h: K -> nat, x: Item<K, V>, lg: nat)
    ensures BitAnd(h(x.key), Pow2(lg) * 2 - 1) == Slot(h, 2 * Pow2(lg), x)
  {
    MaskIsModulo(h(x.key), lg + 1);
  }

  /** MoveItem seen from the whole family of chains: one chain grows, the others keep their links. */
  method MoveAmong<K, V>(nb: array<Bucket<K, V>>, b: nat, ideal: nat, nonideal: nat, thh: Item<K, V>,
                         ghost h: K -> nat, ghost q: seq<Items<K, V>>, ghost done: set<Item<K, V>>)
    returns (nonideal': nat)
    requires Accounted(nb, q, ideal, nonideal)
    requires Slotted(h, q) && LinkedIn(done, q)
    requires thh !in done && b == Slot(h, |q|, thh)
    modifies nb, thh`hhNext, thh`hhPrev, done`hhPrev
    ensures Accounted(nb, PushTo(h, q, thh), ideal, nonideal')
    ensures Slotted(h, PushTo(h, q, thh)) && LinkedIn(done + {thh}, PushTo(h, q, thh))
  {
    ExcessStep(q, b, thh, ideal);
    assert Elems(q[b]) <= done && ChainLinks(q[b]);
    assert thh !in q[b] by { assert thh !in Elems(q[b]); }
    nonideal' := MoveItem(nb, b, thh, ideal, nonideal, q[b]);
    forall j | 0 <= j < |q|
      ensures Elems(PushTo(h, q, thh)[j]) <= done + {thh} && ChainLinks(PushTo(h, q, thh)[j])
    {
      if j != b {
        SlotsDisjoint(h, q, j, b);
        assert Elems(q[j]) <= done && thh !in Elems(q[j]);
      }
    }
  }

  /** The inner loop: every item of one old chain. */
  method MoveChain<K, V>(nb: array<Bucket<K, V>>, first: Item?<K, V>, numBuckets: nat, ideal: nat, nonideal: nat,
                         ghost h: K -> nat, ghost lg: nat, ghost q: seq<Items<K, V>>, ghost done: set<Item<K, V>>,
                         ghost c: Items<K, V>)
    returns (nonideal': nat)
    requires Accounted(nb, q, ideal, nonideal)
    requires Slotted(h, q) && LinkedIn(done, q) && StillLinked(c) && done !! Elems(c)
    requires first == At(c, 0) && numBuckets == Pow2(lg) && |q| == 2 * numBuckets
    requires HashesOk(h, c)
    modifies nb, (done + Elems(c))`hhNext, (done + Elems(c))`hhPrev
    ensures Accounted(nb, PushEach(h, q, c), ideal, nonideal')
    ensures Slotted(h, PushEach(h, q, c)) && LinkedIn(done + Elems(c), PushEach(h, q, c))
  {
    hide Accounted, Slotted, LinkedIn, Pow2;
    nonideal' := nonideal;
    var thh := first;
    ghost var r, todo, moved := q, c, done;
    while thh != null
      invariant thh == At(todo, 0) && |r| == |q|
      invariant moved !! Elems(todo) && moved + Elems(todo) == done + Elems(c)
      invariant Accounted(nb, r, ideal, nonideal')
      invariant Slotted(h, r) && LinkedIn(moved, r) && StillLinked(todo) && HashesOk(h, todo)
      invariant PushEach(h, q, c) == PushEach(h, r, todo)
      decreases |todo|
    {
      var nxt := thh.hhNext;
      var b := BitAnd(thh.hashv, numBuckets * 2 - 1);
      BucketIndex(h, thh, lg);
      assert thh in Elems(todo);
      assert Elems(todo) == Elems(todo[1..]) + {thh} && thh !in Elems(todo[1..]);
      nonideal' := MoveAmong(nb, b, ideal, nonideal', thh, h, r, moved);
      r, moved, todo := PushTo(h, r, thh), moved + {thh}, todo[1..];
      thh := nxt;
    }
    assert moved == done + Elems(c) by { assert Elems(todo) == {}; }
  }

  ghost function Below<K, V>(h: K -> nat, order: Items<K, V>, n: nat, i: nat): set<Item<K, V>>
    requires n > 0
  {
    set x | x in order && Slot(h, n, x) < i
  }

  ghost function From<K, V>(h: K -> nat, order: Items<K, V>, n: nat, i: nat): set<Item<K, V>>
    requires n > 0
  {
    set x | x in order && Slot(h, n, x) >= i
  }

  lemma NextChain<K, V>(h: K -> nat, order: Items<K, V>, chains: seq<Items<K, V>>, i: nat)
    requires Partitioned(h, order, chains) && i < |chains|
    ensures Below(h, order, |chains|, i) + Elems(chains[i]) == Below(h, order, |chains|, i + 1)
    ensures Below(h, order, |chains|, i) !! Elems(chains[i])
    ensures Below(h, order, |chains|, i + 1) !! From(h, order, |chains|, i + 1)
    ensures Elems(chains[i]) <= Elems(order)
    ensures chains[i..] == [chains[i]] + chains[i + 1..]
  {
    forall x | x in order && Slot(h, |chains|, x) == i
      ensures x in chains[i]
    {
      assert x in chains[Slot(h, |chains|, x)];
    }
  }

  /** What the redistribution reads and never changes. */
  ghost predicate Source<K, V>(t: Table<K, V>, h: K -> nat, m: Model<K, V>)
    reads t`buckets, t`numBuckets, t.buckets, Elems(m.order)`hashv
  {
    && Partitioned(h, m.order, m.chains) && HashesOk(h, m.order)
    && t.numBuckets == |m.chains| == Pow2(m.lg)
    && BucketsOk(t.buckets, m.chains, m.mults)
  }

  /** The state of the outer loop before old bucket i. */
  ghost predicate Progress<K, V>(bs: array<Bucket<K, V>>, i: nat, ideal: nat, nonideal: nat, h: K -> nat,
                                 m: Model<K, V>, q: seq<Items<K, V>>)
    reads bs, Elems(m.order)`hhPrev, Elems(m.order)`hhNext
  {
    && i <= |m.chains| && |q| == 2 * |m.chains| > 0
    && Accounted(bs, q, ideal, nonideal)
    && Slotted(h, q) && LinkedIn(Below(h, m.order, |m.chains|, i), q)
    && LinkedIn(From(h, m.order, |m.chains|, i), m.chains[i..])
    && PushChains(h, EmptyChains(|q|), m.chains) == PushChains(h, q, m.chains[i..])
  }

  lemma ProgressStart<K, V>(t: Table<K, V>, bs: array<Bucket<K, V>>, ideal: nat, h: K -> nat, m: Model<K, V>)
    requires Source(t, h, m) && LinkedIn(Elems(m.order), m.chains)
    requires ideal > 0 && bs.Length == 2 * |m.chains| && forall j :: 0 <= j < bs.Length ==> bs[j] == Bucket(null, 0, 0)
    ensures Progress(bs, 0, ideal, 0, h, m, EmptyChains(bs.Length))
  {
    SumZero(Excesses(EmptyChains<K, V>(bs.Length), ideal));
    assert m.chains[0..] == m.chains;
    assert From(h, m.order, |m.chains|, 0) == Elems(m.order);
  }

  lemma ProgressEnd<K, V>(t: Table<K, V>, bs: array<Bucket<K, V>>, ideal: nat, nonideal: nat, h: K -> nat,
                          m: Model<K, V>, q: seq<Items<K, V>>)
    requires Source(t, h, m) && Progress(bs, |m.chains|, ideal, nonideal, h, m, q)
    ensures |m.chains| > 0 && q == Redistribute(h, m.chains)
    ensures Accounted(bs, q, ideal, nonideal) && LinkedIn(Elems(m.order), q)
  {
    PushChainsRedistributes(h, m.order, m.chains);
    assert Below(h, m.order, |m.chains|, |m.chains|) == Elems(m.order);
  }

  /** One turn of the outer loop. */
  method MoveBucket<K, V>(t: Table<K, V>, nb: array<Bucket<K, V>>, i: nat, ideal: nat, nonideal: nat,
                          ghost h: K -> nat, ghost m: Model<K, V>, ghost q: seq<Items<K, V>>)
    returns (nonideal': nat)
    requires Source(t, h, m) && i < t.numBuckets && nb != t.buckets
    requires Progress(nb, i, ideal, nonideal, h, m, q)
    modifies nb, Elems(m.order)`hhNext, Elems(m.order)`hhPrev
    ensures Progress(nb, i + 1, ideal, nonideal', h, m, PushEach(h, q, m.chains[i]))
  {
    hide Redistribute, Accounted, Slotted;
    ghost var c := m.chains[i];
    NextChain(h, m.order, m.chains, i);
    LinkedSuffix(h, m.order, m.chains, i);
    hide Partitioned;
    assert HashesOk(h, c) by { assert forall x :: x in c ==> x in Elems(c); }
    ghost var done := Below(h, m.order, |m.chains|, i);
    nonideal' := MoveChain(nb, t.buckets[i].hhHead, t.numBuckets, ideal, nonideal, h, m.lg, q, done, c);
  }

  /** The outer loop: every old bucket in turn. */
  method MoveAll<K, V>(t: Table<K, V>, nb: array<Bucket<K, V>>, ideal: nat, ghost h: K -> nat, ghost m: Model<K, V>)
    returns (nonideal: nat)
    requires Source(t, h, m) && nb != t.buckets
    requires Progress(nb, 0, ideal, 0, h, m, EmptyChains(nb.Length))
    modifies nb, Elems(m.order)`hhNext, Elems(m.order)`hhPrev
    ensures Source(t, h, m)
    ensures Accounted(nb, Redistribute(h, m.chains), ideal, nonideal)
    ensures LinkedIn(Elems(m.order), Redistribute(h, m.chains))
  {
    nonideal := 0;
    ghost var q := EmptyChains<K, V>(nb.Length);
    var i := 0;
    assert t.numBuckets == |m.chains| > 0;
    hide Partitioned, HashesOk, Pow2, BucketsOk, LinkedIn, Source, Progress, Accounted;
    hide Redistribute, PushEach, EmptyChains;
    while i < t.numBuckets
      invariant 0 <= i <= t.numBuckets == |m.chains|
      invariant Source(t, h, m) && Progress(nb, i, ideal, nonideal, h, m, q)
    {
      nonideal := MoveBucket(t, nb, i, ideal, nonideal, h, m, q);
      q := PushEach(h, q, m.chains[i]);
      i := i + 1;
    }
    ProgressEnd(t, nb, ideal, nonideal, h, m, q);
  }

  lemma LinkedSuffix<K, V>(h: K -> nat, order: Items<K, V>, chains: seq<Items<K, V>>, i: nat)
    requires Partitioned(h, order, chains) && i < |chains|
    requires LinkedIn(From(h, order, |chains|, i), chains[i..])
    ensures StillLinked(chains[i]) && LinkedIn(From(h, order, |chains|, i + 1), chains[i + 1..])
  {
    var later := chains[i + 1..];
    assert chains[i..][0] == chains[i];
    forall j | 0 <= j < |later|
      ensures Elems(later[j]) <= From(h, order, |chains|, i + 1) && ChainLinks(later[j])
    {
      assert later[j] == chains[i..][j + 1] == chains[i + 1 + j];
    }
  }

  /** The shift-and-mask formula computes the ceiling of items per new bucket. */
  lemma IdealIsCeiling(items: nat, lg: nat)
    ensures ShiftRight(items, lg + 1) + (if BitAnd(items, Pow2(lg) * 2 - 1) != 0 then 1 else 0)
            == CeilDiv(items, 2 * Pow2(lg))
  {
    ShiftIsDivision(items, lg + 1);
    MaskIsModulo(items, lg + 1);
  }

  ghost predicate TableIs<K, V>(t: Table<K, V>, m: Model<K, V>)
    reads t`buckets, t`numBuckets, t`log2NumBuckets, t`numItems
    reads t`idealChainMaxlen, t`nonidealItems, t`ineffExpands, t`noexpand
    reads t.buckets
  {
    && t.numBuckets == |m.chains| && t.log2NumBuckets == m.lg && t.numItems == |m.order|
    && t.idealChainMaxlen == m.ideal && t.nonidealItems == m.nonideal
    && t.ineffExpands == m.ineff && t.noexpand == m.noexpand
    && BucketsOk(t.buckets, m.chains, m.mults)
  }

  /** The end of the expansion: install the new buckets and judge whether it was effective. */
  method Install<K, V>(t: Table<K, V>, nb: array<Bucket<K, V>>)
    modifies t`buckets, t`numBuckets, t`log2NumBuckets, t`ineffExpands, t`noexpand
    ensures t.buckets == nb && t.numBuckets == 2 * old(t.numBuckets) && t.log2NumBuckets == old(t.log2NumBuckets) + 1
    ensures t.ineffExpands == NewIneff(old(t.ineffExpands), t.nonidealItems, t.numItems)
    ensures t.noexpand == (old(t.noexpand) || t.ineffExpands > 1)
  {
    ShiftIsDivision(t.numItems, 1);
    assert Pow2(1) == 2;
    t.numBuckets := t.numBuckets * 2;
    t.log2NumBuckets := t.log2NumBuckets + 1;
    t.buckets := nb;
    t.ineffExpands := if t.nonidealItems > ShiftRight(t.numItems, 1) then t.ineffExpands + 1 else 0;
    if t.ineffExpands > 1 {
      t.noexpand := true;
    }
  }

  /** uthash_malloc and uthash_bzero of the new bucket array. */
  method NewBuckets<K, V>(n: nat) returns (nb: array<Bucket<K, V>>)
    ensures fresh(nb) && nb.Length == n
    ensures forall j :: 0 <= j < n ==> nb[j] == Bucket(null, 0, 0)
  {
    nb := new Bucket<K, V>[n](_ => Bucket(null, 0, 0));
  }

  method SetIdeal<K, V>(t: Table<K, V>)
    requires t.numBuckets == Pow2(t.log2NumBuckets) && t.numItems > 0
    modifies t`idealChainMaxlen, t`nonidealItems
    ensures t.idealChainMaxlen == CeilDiv(t.numItems, 2 * t.numBuckets) > 0
  {
    t.idealChainMaxlen := ShiftRight(t.numItems, t.log2NumBuckets + 1)
      + (if BitAnd(t.numItems, t.numBuckets * 2 - 1) != 0 then 1 else 0);
    IdealIsCeiling(t.numItems, t.log2NumBuckets);
    CeilDivPositive(t.numItems, 2 * t.numBuckets);
    t.nonidealItems := 0;
  }

  /** The start of the expansion: twice as many empty buckets, and the ideal chain length for them. */
  method Prepare<K, V>(t: Table<K, V>, ghost h: K -> nat, ghost m: Model<K, V>) returns (nb: array<Bucket<K, V>>)
    requires Source(t, h, m) && LinkedIn(Elems(m.order), m.chains)
    requires t.numBuckets == Pow2(t.log2NumBuckets) && t.numItems > 0
    modifies t`idealChainMaxlen, t`nonidealItems
    ensures fresh(nb) && Source(t, h, m)
    ensures t.idealChainMaxlen == CeilDiv(t.numItems, 2 * t.numBuckets) > 0
    ensures Progress(nb, 0, t.idealChainMaxlen, 0, h, m, EmptyChains(nb.Length))
  {
    assert t.numBuckets == |m.chains| > 0;
    hide *;
    nb := NewBuckets(2 * t.numBuckets);
    SetIdeal(t);
    ProgressStart(t, nb, t.idealChainMaxlen, h, m);
  }

  method ExpandBuckets<K, V>(t: Table<K, V>, ghost h: K -> nat, ghost m: Model<K, V>)
    requires Partitioned(h, m.order, m.chains) && |m.order| > 0 && HashesOk(h, m.order)
    requires |m.chains| == Pow2(m.lg) && TableIs(t, m) && LinkedIn(Elems(m.order), m.chains)
    modifies t`buckets, t`numBuckets, t`log2NumBuckets, t`idealChainMaxlen, t`nonidealItems, t`ineffExpands, t`noexpand
    modifies Elems(m.order)`hhNext, Elems(m.order)`hhPrev
    ensures fresh(t.buckets)
    ensures TableIs(t, Expand(h, m)) && LinkedIn(Elems(m.order), Expand(h, m).chains)
  {
    hide Partitioned, HashesOk, Pow2, TableIs, BucketsOk, LinkedIn, Source, Progress, Accounted;
    hide Redistribute, Expand, CeilDiv, NewIneff;
    Begin(t, h, m);
    var nb := Prepare(t, h, m);
    t.nonidealItems := MoveAll(t, nb, t.idealChainMaxlen, h, m);
    Install(t, nb);
    Installed(t, h, m);
  }

  lemma Begin<K, V>(t: Table<K, V>, h: K -> nat, m: Model<K, V>)
    requires Partitioned(h, m.order, m.chains) && |m.order| > 0 && HashesOk(h, m.order)
    requires |m.chains| == Pow2(m.lg) && TableIs(t, m)
    ensures Source(t, h, m) && t.numBuckets == |m.chains| && t.log2NumBuckets == m.lg
    ensures t.numItems == |m.order| && t.ineffExpands == m.ineff && t.noexpand == m.noexpand
  {
  }

  lemma Installed<K, V>(t: Table<K, V>, h: K -> nat, m: Model<K, V>)
    requires |m.chains| > 0 && |m.order| > 0
    requires Accounted(t.buckets, Redistribute(h, m.chains), t.idealChainMaxlen, t.nonidealItems)
    requires t.numBuckets == 2 * |m.chains| && t.log2NumBuckets == m.lg + 1 && t.numItems == |m.order|
    requires t.idealChainMaxlen == CeilDiv(|m.order|, 2 * |m.chains|)
    requires t.ineffExpands == NewIneff(m.ineff, t.nonidealItems, t.numItems)
    requires t.noexpand == (m.noexpand || t.ineffExpands > 1)
    ensures TableIs(t, Expand(h, m)) && Expand(h, m).chains == Redistribute(h, m.chains)
  {
    ExpandParts(h, m);
    hide Expand, Redistribute;
  }

  lemma ExpandParts<K, V>(h: K -> nat, m: Model<K, V>)
    requires |m.order| > 0 && |m.chains| > 0
    ensures var e := Expand(h, m);
            && e.order == m.order && e.lg == m.lg + 1
            && e.chains == Redistribute(h, m.chains)
            && e.ideal == CeilDiv(|m.order|, 2 * |m.chains|) > 0
            && e.mults == Mults(e.chains, e.ideal)
            && e.nonideal == Sum(Excesses(e.chains, e.ideal))
            && e.ineff == NewIneff(m.ineff, e.nonideal, |m.order|)
            && e.noexpand == (m.noexpand || e.ineff > 1)
  {
  }
}
