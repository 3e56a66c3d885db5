/** The hash index itself: the head pointer of an application, with HASH_ADD, HASH_FIND and
    HASH_DELETE proved against the functions of HashModel. */
module HashTable {
  import opened Options
  import opened Seqs
  import opened BitOps
  import opened HashTypes
  import opened HashModel
  import opened HashLinks
  import opened HashExpand
  import opened HashOrder
  import opened HashSort

  /** The bucket half of HASH_FSCK, with every field of the table. */
  ghost predicate Bucketed<K, V>(t: Table<K, V>, h: K -> nat, m: Model<K, V>)
    reads t`buckets, t`numBuckets, t`log2NumBuckets, t`numItems
    reads t`idealChainMaxlen, t`nonidealItems, t`ineffExpands, t`noexpand
    reads t.buckets, Elems(m.order)`hashv, Elems(m.order)`hhPrev, Elems(m.order)`hhNext
  {
    && HashesOk(h, m.order)
    && TableIs(t, m)
    && LinkedIn(Elems(m.order), m.chains)
  }

  /** The state in which HASH_ADD_TO_TABLE starts: `add` is in the application order but in no bucket. */
  ghost predicate Pending<K, V>(t: Table<K, V>, h: K -> nat, m: Model<K, V>, before: Items<K, V>, add: Item<K, V>)
    reads t`buckets, t`numBuckets, t`log2NumBuckets, t`numItems
    reads t`idealChainMaxlen, t`nonidealItems, t`ineffExpands, t`noexpand
    reads t.buckets, Elems(m.order)`hashv, Elems(m.order)`hhPrev, Elems(m.order)`hhNext
  {
    && Elems(before) + {add} == Elems(m.order)
    && HashesOk(h, m.order)
    && LinkedIn(Elems(before), m.chains)
    && TableIs(t, m.(order := before))
  }

  lemma ChainsDisjoint<K, V>(h: K -> nat, order: Items<K, V>, chains: seq<Items<K, V>>, i: nat, j: nat)
    requires Partitioned(h, order, chains) && i < |chains| && j < |chains| && i != j
    ensures Elems(chains[i]) !! Elems(chains[j])
  {
    forall x | x in chains[i]
      ensures x !in chains[j]
    {
      assert Slot(h, |chains|, x) == i;
    }
  }

  /** The index of the item's own bucket, and what is known of its chain. */
  lemma OwnBucket<K, V>(h: K -> nat, before: Items<K, V>, m: Model<K, V>, add: Item<K, V>, hashv: nat)
    requires Partitioned(h, before, m.chains) && add !in before && |m.chains| == Pow2(m.lg)
    requires hashv == h(add.key)
    ensures BitAnd(hashv, |m.chains| - 1) == Slot(h, |m.chains|, add)
    ensures var c := m.chains[Slot(h, |m.chains|, add)];
            add !in c && Elems(c) <= Elems(before) && NoDup(c)
  {
    MaskIsModulo(hashv, m.lg);
  }

  /** The push into the item's own bucket, seen from all chains. */
  method PushIntoBucket<K, V>(t: Table<K, V>, b: nat, add: Item<K, V>, ghost h: K -> nat, ghost before: Items<K, V>,
                              ghost chains: seq<Items<K, V>>, ghost mults: seq<nat>)
    requires Partitioned(h, before, chains) && add !in before && b == Slot(h, |chains|, add)
    requires add !in chains[b] && Elems(chains[b]) <= Elems(before) && NoDup(chains[b])
    requires BucketsOk(t.buckets, chains, mults) && LinkedIn(Elems(before), chains)
    modifies t.buckets, add`hhNext, add`hhPrev, Elems(before)`hhPrev
    ensures BucketsOk(t.buckets, chains[b := [add] + chains[b]], mults)
    ensures LinkedIn(Elems(before) + {add}, chains[b := [add] + chains[b]])
    ensures t.buckets[b].count == |chains[b]| + 1 && t.buckets[b].expandMult == mults[b]
  {
    assert ChainLinks(chains[b]);
    PushChain(t, b, add, chains[b]);
    ghost var chains' := chains[b := [add] + chains[b]];
    forall i | 0 <= i < |chains|
      ensures Elems(chains'[i]) <= Elems(before) + {add} && ChainLinks(chains'[i])
    {
      if i != b {
        assert Elems(chains[i]) <= Elems(before);
        ChainsDisjoint(h, before, chains, i, b);
      }
    }
  }

  lemma PushCases<K, V>(h: K -> nat, m: Model<K, V>, before: Items<K, V>, add: Item<K, V>)
    requires Partitioned(h, before, m.chains) && add !in before && Grown(before, add, m.order)
    requires |m.mults| == |m.chains|
    ensures var b, p := Slot(h, |m.chains|, add), Pushed(h, m, add);
            && Partitioned(h, p.order, p.chains) && p.order == m.order && |p.order| > 0
            && |p.chains| == |m.chains| && p.lg == m.lg
            && Push(h, m, add) == (if |m.chains[b]| + 1 >= (m.mults[b] + 1) * CAPACITY_THRESH && !m.noexpand
                                   then Expand(h, p) else p)
  {
    PushPartitions(h, before, m.chains, add, m.order);
    hide Partitioned, Expand;
  }

  lemma CountStart<K, V>(t: Table<K, V>, add: Item<K, V>, h: K -> nat, m: Model<K, V>, before: Items<K, V>)
    requires Partitioned(h, before, m.chains) && add !in before && Grown(before, add, m.order)
    requires Pending(t, h, m, before, add) && |m.chains| == Pow2(m.lg)
    ensures var b := Slot(h, |m.chains|, add);
      && t.numBuckets == |m.chains| && b == BitAnd(add.hashv, t.numBuckets - 1)
      && add !in m.chains[b] && Elems(m.chains[b]) <= Elems(before) && NoDup(m.chains[b])
    ensures BucketsOk(t.buckets, m.chains, m.mults) && LinkedIn(Elems(before), m.chains) && HashesOk(h, m.order)
    ensures Elems(m.order) == Elems(before) + {add} && t.numItems + 1 == |m.order| && Counters(t, m)
    ensures |m.mults| == |m.chains| == t.buckets.Length
  {
    assert add in Elems(m.order) && add.hashv == h(add.key);
    OwnBucket(h, before, m, add, add.hashv);
    hide Partitioned, Pow2, BucketsOk, LinkedIn;
  }

  /** The fields of a table that pushing an item leaves alone. */
  ghost predicate Counters<K, V>(t: Table<K, V>, m: Model<K, V>)
    reads t`numBuckets, t`log2NumBuckets, t`idealChainMaxlen, t`nonidealItems, t`ineffExpands, t`noexpand
  {
    && t.numBuckets == |m.chains| && t.log2NumBuckets == m.lg
    && t.idealChainMaxlen == m.ideal && t.nonidealItems == m.nonideal
    && t.ineffExpands == m.ineff && t.noexpand == m.noexpand
  }

  lemma Counted<K, V>(t: Table<K, V>, add: Item<K, V>, h: K -> nat, m: Model<K, V>, before: Items<K, V>)
    requires |m.chains| > 0 && Counters(t, m) && t.numItems == |m.order| && HashesOk(h, m.order)
    requires BucketsOk(t.buckets, Pushed(h, m, add).chains, m.mults)
    requires Elems(m.order) == Elems(before) + {add} && LinkedIn(Elems(before) + {add}, Pushed(h, m, add).chains)
    ensures Bucketed(t, h, Pushed(h, m, add)) && t.noexpand == m.noexpand
  {
    hide BucketsOk, LinkedIn, HashesOk, Elems, Slot;
  }

  lemma PushedChains<K, V>(h: K -> nat, m: Model<K, V>, add: Item<K, V>)
    requires |m.chains| > 0
    ensures var b := Slot(h, |m.chains|, add); Pushed(h, m, add).chains == m.chains[b := [add] + m.chains[b]]
  {
  }

  /** Counting the item and pushing it, before the expansion test. */
  method CountAndPush<K, V>(t: Table<K, V>, add: Item<K, V>, ghost h: K -> nat, ghost m: Model<K, V>,
                            ghost before: Items<K, V>)
    returns (b: nat)
    requires Partitioned(h, before, m.chains) && add !in before && Grown(before, add, m.order)
    requires Pending(t, h, m, before, add) && |m.chains| == Pow2(m.lg)
    modifies t`numItems, t.buckets, Elems(m.order)`hhNext, Elems(m.order)`hhPrev
    ensures b == Slot(h, |m.chains|, add) && b < t.buckets.Length && |m.mults| == |m.chains|
    ensures t.buckets[b].count == |m.chains[b]| + 1 && t.buckets[b].expandMult == m.mults[b] && t.noexpand == m.noexpand
    ensures Bucketed(t, h, Pushed(h, m, add))
  {
    hide Partitioned, Grown, Pending, Pow2, Slot, BucketsOk, LinkedIn, HashesOk, Bucketed, Pushed, NoDup, Counters;
    CountStart(t, add, h, m, before);
    t.numItems := t.numItems + 1;
    b := BitAnd(add.hashv, t.numBuckets - 1);
    PushIntoBucket(t, b, add, h, before, m.chains, m.mults);
    PushedChains(h, m, add);
    Counted(t, add, h, m, before);
  }

  /** HASH_ADD_TO_TABLE */
  method AddToTable<K, V>(t: Table<K, V>, add: Item<K, V>, ghost h: K -> nat, ghost m: Model<K, V>,
                          ghost before: Items<K, V>)
    requires Partitioned(h, before, m.chains) && add !in before && Grown(before, add, m.order)
    requires Pending(t, h, m, before, add) && |m.chains| == Pow2(m.lg)
    modifies t`buckets, t`numBuckets, t`log2NumBuckets, t`numItems
    modifies t`idealChainMaxlen, t`nonidealItems, t`ineffExpands, t`noexpand
    modifies t.buckets, Elems(m.order)`hhNext, Elems(m.order)`hhPrev
    ensures t.buckets == old(t.buckets) || fresh(t.buckets)
    ensures |m.order| > 0 && |m.mults| == |m.chains| > 0
    ensures Bucketed(t, h, Push(h, m, add)) && Push(h, m, add).order == m.order
  {
    assert |m.chains| > 0 && |m.mults| == |m.chains|;
    PushCases(h, m, before, add);
    hide Partitioned, Pending, Grown, Expand, Push, Pushed, TableIs, LinkedIn, HashesOk, Slot, Elems, Pow2;
    var b := CountAndPush(t, add, h, m, before);
    if t.buckets[b].count >= (t.buckets[b].expandMult + 1) * CAPACITY_THRESH && !t.noexpand {
      ExpandBuckets(t, h, Pushed(h, m, add));
      ExpandKeepsOrder(h, Pushed(h, m, add));
    }
  }

  lemma ExpandKeepsOrder<K, V>(h: K -> nat, m: Model<K, V>)
    requires |m.order| > 0 && |m.chains| > 0
    ensures Expand(h, m).order == m.order
  {
  }

  /** Everything a table owes its head pointer. */
  ghost predicate TableOk<K, V>(head: Item<K, V>, t: Table<K, V>, h: K -> nat, m: Model<K, V>)
    reads t, t.buckets, Elems(m.order)
  {
    Threaded(head, t, m.order) && Bucketed(t, h, m)
  }

  /** The application-order half of HASH_ADD, on a table that exists. */
  method LinkLast<K, V>(head: Item<K, V>, t: Table<K, V>, add: Item<K, V>, ghost order: Items<K, V>)
    requires Threaded(head, t, order) && NoDup(order) && add !in order
    modifies t`tail, add`tbl, add`next, add`prev, Elems(order)`next
    ensures Threaded(head, t, order + [add])
  {
    add.tbl := t;
    AppendList(t, add, order);
  }

  /** Threading add changes nothing that its buckets depend on. */
  lemma ThreadedPending<K, V>(t: Table<K, V>, h: K -> nat, m: Model<K, V>, add: Item<K, V>, order: Items<K, V>)
    requires Bucketed(t, h, m) && Grown(m.order, add, order) && add.hashv == h(add.key)
    ensures Pending(t, h, m.(order := order), m.order, add)
  {
    assert Elems(order) == Elems(m.order) + {add};
  }

  /** Threading the item: at the end of the application order, or where cmp puts it. */
  method LinkOrder<K, V>(cmp: Option<Cmp<Item<K, V>>>, head: Item<K, V>, t: Table<K, V>, add: Item<K, V>,
                         ghost order: Items<K, V>)
    returns (newHead: Item<K, V>)
    requires NoDup(order) && Threaded(head, t, order) && add !in order
    modifies t`tail, add`tbl, add`next, add`prev, Elems(order)`next, Elems(order)`prev
    ensures Threaded(newHead, t, OrderWith(cmp, order, add))
  {
    hide Threaded, NoDup;
    if cmp.None? {
      newHead := head;
      LinkLast(head, t, add, order);
    } else {
      newHead := LinkInOrder(cmp.value, head, t, add, order);
    }
  }

  /** Storing the hash and threading the item. */
  method LinkNew<K, V>(cmp: Option<Cmp<Item<K, V>>>, head: Item<K, V>, t: Table<K, V>, add: Item<K, V>, hashval: nat,
                       ghost h: K -> nat, ghost m: Model<K, V>)
    returns (newHead: Item<K, V>)
    requires NoDup(m.order) && Threaded(head, t, m.order) && Bucketed(t, h, m)
    requires add !in m.order && hashval == h(add.key)
    modifies t`tail, add`hashv, add`tbl, add`next, add`prev, Elems(m.order)`next, Elems(m.order)`prev
    ensures Threaded(newHead, t, OrderWith(cmp, m.order, add))
    ensures Pending(t, h, m.(order := OrderWith(cmp, m.order, add)), m.order, add)
  {
    hide Threaded, NoDup, Grown, Pending, Bucketed, OrderWith;
    OrderGrows(cmp, m.order, add);
    BucketsApart(t, h, m, add);
    newHead := LinkOrder(cmp, head, t, add, m.order);
    add.hashv := hashval;
    ThreadedPending(t, h, m, add, OrderWith(cmp, m.order, add));
  }

  lemma BucketsApart<K, V>(t: Table<K, V>, h: K -> nat, m: Model<K, V>, add: Item<K, V>)
    requires add !in m.order
    ensures add !in Elems(m.order)
  {
  }

  /** HASH_ADD_TO_TABLE on a threaded item: the buckets change, the application order does not. */
  method Complete<K, V>(head: Item<K, V>, t: Table<K, V>, add: Item<K, V>, ghost h: K -> nat,
                        ghost m: Model<K, V>, ghost before: Items<K, V>)
    requires Partitioned(h, before, m.chains) && add !in before && Grown(before, add, m.order)
    requires Threaded(head, t, m.order) && Pending(t, h, m, before, add) && |m.chains| == Pow2(m.lg)
    modifies t, t.buckets, Elems(m.order)
    ensures t.buckets == old(t.buckets) || fresh(t.buckets)
    ensures |m.mults| == |m.chains| > 0 && |m.order| > 0
    ensures TableOk(head, t, h, Push(h, m, add))
  {
    assert forall x :: x in Elems(m.order) ==> x as object != t.buckets;
    hide Partitioned, Threaded, Bucketed, TableOk, Pending, Push, Pow2, Grown;
    AddToTable(t, add, h, m, before);
    Whole(head, t, h, Push(h, m, add));
  }

  /** HASH_ADD on a table that exists. */
  method AddLinked<K, V>(cmp: Option<Cmp<Item<K, V>>>, head: Item<K, V>, t: Table<K, V>, add: Item<K, V>,
                         hashval: nat,
                         ghost h: K -> nat, ghost m: Model<K, V>)
    returns (newHead: Item<K, V>)
    requires Inv(h, HasTable(m)) && TableOk(head, t, h, m) && add !in m.order && hashval == h(add.key)
    modifies t, t.buckets, Elems(m.order), add
    ensures t.buckets == old(t.buckets) || fresh(t.buckets)
    ensures TableOk(newHead, t, h, Push(h, m.(order := OrderWith(cmp, m.order, add)), add))
  {
    ghost var m' := m.(order := OrderWith(cmp, m.order, add));
    OrderGrows(cmp, m.order, add);
    assert NoDup(m.order) && Partitioned(h, m.order, m.chains) && |m.chains| == Pow2(m.lg);
    assert Elems(m'.order) <= Elems(m.order) + {add};
    hide Inv, Threaded, Bucketed, TableOk, Pending, Push, NoDup, Partitioned, Pow2, Grown, OrderWith;
    Parts(head, t, h, m);
    newHead := LinkNew(cmp, head, t, add, hashval, h, m);
    Complete(newHead, t, add, h, m', m.order);
  }

  lemma Parts<K, V>(head: Item<K, V>, t: Table<K, V>, h: K -> nat, m: Model<K, V>)
    requires TableOk(head, t, h, m)
    ensures Threaded(head, t, m.order) && Bucketed(t, h, m)
  {
  }

  lemma Whole<K, V>(head: Item<K, V>, t: Table<K, V>, h: K -> nat, m: Model<K, V>)
    requires Threaded(head, t, m.order) && Bucketed(t, h, m)
    ensures TableOk(head, t, h, m)
  {
  }

  // ---------------------------------------------------------------- deletion

  lemma IndexOf<K, V>(s: Items<K, V>, x: Item<K, V>) returns (k: nat)
    requires x in s && NoDup(s)
    ensures k < |s| && s[k] == x && Without(s, x) == s[..k] + s[k + 1..]
  {
    k :| k < |s| && s[k] == x;
    WithoutAt(s, k);
  }

  lemma ElemsWithout<K, V>(s: Items<K, V>, x: Item<K, V>)
    requires NoDup(s)
    ensures Elems(Without(s, x)) == Elems(s) - {x}
  {
    WithoutMembers(s, x);
  }

  /** HASH_DEL_IN_BKT seen from all chains. */
  method UnlinkFromBucket<K, V>(t: Table<K, V>, b: nat, del: Item<K, V>, ghost h: K -> nat, ghost order: Items<K, V>,
                                ghost chains: seq<Items<K, V>>, ghost mults: seq<nat>)
    requires Partitioned(h, order, chains) && del in order && b == Slot(h, |chains|, del)
    requires BucketsOk(t.buckets, chains, mults) && LinkedIn(Elems(order), chains)
    modifies t.buckets, Elems(order)`hhNext, Elems(order)`hhPrev
    ensures BucketsOk(t.buckets, chains[b := Without(chains[b], del)], mults)
    ensures LinkedIn(Elems(order) - {del}, chains[b := Without(chains[b], del)])
  {
    ghost var c := chains[b];
    assert del in c && NoDup(c) && Elems(c) <= Elems(order) && ChainLinks(c);
    ghost var k := IndexOf(c, del);
    WithoutMembers(c, del);
    UnlinkChain(t, b, del, c, k);
    ghost var chains' := chains[b := Without(c, del)];
    forall i | 0 <= i < |chains|
      ensures Elems(chains'[i]) <= Elems(order) - {del} && ChainLinks(chains'[i])
    {
      if i != b {
        assert Elems(chains[i]) <= Elems(order);
        ChainsDisjoint(h, order, chains, i, b);
        assert del in Elems(c);
      } else {
        ElemsWithout(c, del);
      }
    }
  }

  method UnlinkOrder<K, V>(head: Item<K, V>, t: Table<K, V>, del: Item<K, V>, ghost order: Items<K, V>)
    returns (newHead: Item<K, V>)
    requires Threaded(head, t, order) && NoDup(order) && del in order && |order| > 1
    modifies t`tail, Elems(order)`prev, Elems(order)`next
    ensures Threaded(newHead, t, Without(order, del))
  {
    ghost var k := IndexOf(order, del);
    newHead := UnlinkApp(t, head, del, order, k);
  }

  method UnlinkBuckets<K, V>(t: Table<K, V>, del: Item<K, V>, ghost h: K -> nat, ghost m: Model<K, V>)
    requires Partitioned(h, m.order, m.chains) && NoDup(m.order) && del in m.order && |m.chains| == Pow2(m.lg)
    requires Bucketed(t, h, m)
    modifies t`numItems, t.buckets, Elems(m.order)`hhNext, Elems(m.order)`hhPrev
    ensures Bucketed(t, h, Shrunk(h, m, del))
  {
    hide Partitioned, Pow2, Slot, BucketsOk, LinkedIn, HashesOk, Bucketed, Shrunk, Without, NoDup, Counters;
    UnlinkStart(t, del, h, m);
    var b := BitAnd(del.hashv, t.numBuckets - 1);
    UnlinkFromBucket(t, b, del, h, m.order, m.chains, m.mults);
    t.numItems := t.numItems - 1;
    Unlinked(t, del, h, m);
  }

  lemma UnlinkStart<K, V>(t: Table<K, V>, del: Item<K, V>, h: K -> nat, m: Model<K, V>)
    requires Partitioned(h, m.order, m.chains) && del in m.order && |m.chains| == Pow2(m.lg) && Bucketed(t, h, m)
    ensures t.numBuckets == |m.chains| > 0 && BitAnd(del.hashv, t.numBuckets - 1) == Slot(h, |m.chains|, del)
    ensures BucketsOk(t.buckets, m.chains, m.mults) && LinkedIn(Elems(m.order), m.chains) && HashesOk(h, m.order)
    ensures t.numItems == |m.order| > 0 && Counters(t, m)
    ensures var b := Slot(h, |m.chains|, del); Shrunk(h, m, del).chains == m.chains[b := Without(m.chains[b], del)]
  {
    assert del.hashv == h(del.key);
    MaskIsModulo(del.hashv, m.lg);
    hide Partitioned, Pow2, BucketsOk, LinkedIn, Without;
  }

  lemma Unlinked<K, V>(t: Table<K, V>, del: Item<K, V>, h: K -> nat, m: Model<K, V>)
    requires |m.chains| > 0 && NoDup(m.order) && del in m.order
    requires Counters(t, m) && t.numItems == |m.order| - 1 && HashesOk(h, m.order)
    requires BucketsOk(t.buckets, Shrunk(h, m, del).chains, m.mults)
    requires LinkedIn(Elems(m.order) - {del}, Shrunk(h, m, del).chains)
    ensures Bucketed(t, h, Shrunk(h, m, del))
  {
    WithoutMembers(m.order, del);
    ElemsWithout(m.order, del);
    hide BucketsOk, LinkedIn, Elems, Slot, Without, NoDup;
  }

  lemma RemoveFacts<K, V>(head: Item<K, V>, t: Table<K, V>, del: Item<K, V>, h: K -> nat, m: Model<K, V>)
    requires Inv(h, HasTable(m)) && TableOk(head, t, h, m) && del in m.order && |m.order| > 1
    ensures Partitioned(h, m.order, m.chains) && |m.chains| == Pow2(m.lg) && NoDup(m.order)
    ensures Threaded(head, t, m.order) && Bucketed(t, h, m)
    ensures Shrunk(h, m, del).order == Without(m.order, del) && Elems(Without(m.order, del)) <= Elems(m.order)
    ensures forall x :: x in Elems(m.order) ==> x as object != t.buckets
  {
    WithoutUniqueKeys(m.order, del);
    ElemsWithout(m.order, del);
  }

  method RemoveItem<K, V>(head: Item<K, V>, t: Table<K, V>, del: Item<K, V>, ghost h: K -> nat, ghost m: Model<K, V>)
    returns (newHead: Item<K, V>)
    requires Inv(h, HasTable(m)) && TableOk(head, t, h, m) && del in m.order && |m.order| > 1
    modifies t, t.buckets, Elems(m.order)
    ensures t.buckets == old(t.buckets)
    ensures TableOk(newHead, t, h, Shrunk(h, m, del))
  {
    hide Inv, TableOk, Threaded, Bucketed, Partitioned, Shrunk, Without, NoDup, Pow2;
    RemoveFacts(head, t, del, h, m);
    newHead := UnlinkOrder(head, t, del, m.order);
    UnlinkBuckets(t, del, h, m);
    Whole(newHead, t, h, Shrunk(h, m, del));
  }

  // ---------------------------------------------------------------- lookup

  method FindIn<K(==), V>(t: Table<K, V>, key: K, hash: K -> nat, ghost m: Model<K, V>) returns (out: Item?<K, V>)
    requires Partitioned(hash, m.order, m.chains) && |m.chains| == Pow2(m.lg) && Bucketed(t, hash, m)
    ensures |m.chains| > 0 && out == HashModel.Find(hash, HasTable(m), key)
  {
    var hashval := hash(key);
    MaskIsModulo(hashval, m.lg);
    var b := BitAnd(hashval, t.numBuckets - 1);
    ghost var c := m.chains[b];
    assert Elems(c) <= Elems(m.order) && ChainLinks(c);
    assert forall x :: x in c ==> x in Elems(c);
    out := FindInBucket(t.buckets[b], hash, key, hashval, c);
  }

  // ---------------------------------------------------------------- the head pointer

  /** The application order that HASH_ADD (no comparator) or its in-order variant leads to. */
  ghost function OrderWith<K, V>(cmp: Option<Cmp<Item<K, V>>>, order: Items<K, V>, add: Item<K, V>): Items<K, V> {
    if cmp.None? then order + [add] else InsertInto(cmp.value, order, add)
  }

  lemma OrderGrows<K, V>(cmp: Option<Cmp<Item<K, V>>>, order: Items<K, V>, add: Item<K, V>)
    ensures Grown(order, add, OrderWith(cmp, order, add)) && OrderWith(cmp, [], add) == [add]
    ensures UniqueKeys(order) && (forall x :: x in order ==> x.key != add.key) ==>
      UniqueKeys(OrderWith(cmp, order, add))
  {
    if cmp.Some? {
      InsertMembers(cmp.value, order, add);
      if UniqueKeys(order) && forall x :: x in order ==> x.key != add.key {
        InsertUniqueKeys(cmp.value, order, add);
      }
    }
  }

  lemma {:induction false} InsertUniqueKeys<K, V>(cmp: Cmp<Item<K, V>>, order: Items<K, V>, add: Item<K, V>)
    requires UniqueKeys(order) && forall x :: x in order ==> x.key != add.key
    ensures UniqueKeys(InsertInto(cmp, order, add))
  {
    if order != [] && cmp(order[0], add) <= 0 {
      InsertUniqueKeys(cmp, order[1..], add);
      InsertMembers(cmp, order[1..], add);
      var r := InsertInto(cmp, order[1..], add);
      assert forall y :: y in r ==> y in order[1..] || y == add;
      assert forall y :: y in order[1..] ==> y.key != order[0].key;
      assert forall i :: 0 <= i < |r| ==> r[i] in r;
    }
  }

  /** What a non-NULL head pointer stands for. */
  ghost predicate Owned<K, V>(head: Item?<K, V>, h: K -> nat, m: Model<K, V>, repr: set<object>)
    reads repr
  {
    && head != null && head in repr
    && head.tbl != null && head.tbl in repr && head.tbl.buckets in repr
    && Elems(m.order) <= repr
    && TableOk(head, head.tbl, h, m)
  }

  lemma MakeTableIs<K, V>(h: K -> nat, add: Item<K, V>)
    ensures var m := MakeTable(add);
            && m.order == [add] && Elems(m.order) == {add} && m.lg == 5 && |m.chains| == |m.mults| == 32 == Pow2(5)
            && m.ideal == m.nonideal == m.ineff == 0 && !m.noexpand
            && (forall j :: 0 <= j < 32 ==> m.chains[j] == [] && m.mults[j] == 0)
            && Partitioned(h, [], m.chains) && Grown([], add, m.order)
  {
    assert Pow2(5) == 32;
    EmptyPartition<K, V>(h, 32);
  }

  /** HASH_MAKE_TABLE around an item that is not yet in a bucket. */
  method StartTable<K, V>(add: Item<K, V>, hashval: nat, ghost h: K -> nat) returns (t: Table<K, V>)
    requires hashval == h(add.key)
    modifies add
    ensures fresh(t) && fresh(t.buckets) && add.tbl == t
    ensures Pending(t, h, MakeTable(add), [], add) && Threaded(add, t, MakeTable(add).order)
  {
    MakeTableIs(h, add);
    hide MakeTable;
    add.hashv := hashval;
    add.next := null;
    add.prev := null;
    t := new Table(add);
    add.tbl := t;
  }

  /** HASH_ADD on an empty index: a new table around its first item. */
  method NewTable<K, V>(add: Item<K, V>, hashval: nat, ghost h: K -> nat)
    returns (head: Item<K, V>, ghost repr: set<object>)
    requires hashval == h(add.key)
    modifies add
    ensures Owned(head, h, Push(h, MakeTable(add), add), repr) && fresh(repr - {add})
  {
    ghost var m := MakeTable(add);
    MakeTableIs(h, add);
    hide *;
    var t := StartTable(add, hashval, h);
    head := add;
    Complete(head, t, add, h, m, []);
    Heads(head, t, h, Push(h, m, add));
    NewOrder(h, add);
    repr := {add, t, t.buckets};
    Own(head, h, Push(h, m, add), repr);
  }

  lemma NewOrder<K, V>(h: K -> nat, add: Item<K, V>)
    ensures |MakeTable(add).chains| == |MakeTable(add).mults| == 32 && Push(h, MakeTable(add), add).order == [add]
  {
    MakeTableIs(h, add);
  }

  lemma Own<K, V>(head: Item<K, V>, h: K -> nat, m: Model<K, V>, repr: set<object>)
    requires head.tbl != null && TableOk(head, head.tbl, h, m)
    requires head in repr && head.tbl in repr && head.tbl.buckets in repr
    requires forall x :: x in m.order ==> x in repr
    ensures Owned(head, h, m, repr)
  {
  }

  lemma OwnedParts<K, V>(head: Item?<K, V>, h: K -> nat, m: Model<K, V>, repr: set<object>)
    requires Owned(head, h, m, repr)
    ensures head != null && head in repr && head.tbl != null && head.tbl in repr && head.tbl.buckets in repr
    ensures TableOk(head, head.tbl, h, m) && Threaded(head, head.tbl, m.order) && Bucketed(head.tbl, h, m)
    ensures forall x :: x in m.order ==> x in repr && x.tbl == head.tbl
  {
    assert forall x :: x in m.order ==> x in Elems(m.order);
  }

  lemma AddOwnedFacts<K, V>(cmp: Option<Cmp<Item<K, V>>>, head: Item<K, V>, add: Item<K, V>, h: K -> nat,
                            m: Model<K, V>, repr: set<object>)
    requires Inv(h, HasTable(m)) && Owned(head, h, m, repr) && add !in repr
    ensures |m.chains| == |m.mults| > 0 && m.order != [] && Grown(m.order, add, OrderWith(cmp, m.order, add))
    ensures Elems(m.order) <= repr && add !in m.order
    ensures forall x :: x in Push(h, m.(order := OrderWith(cmp, m.order, add)), add).order ==> x in repr + {add}
  {
    OrderGrows(cmp, m.order, add);
    assert forall x :: x in m.order ==> x in Elems(m.order);
  }

  method AddOwned<K, V>(cmp: Option<Cmp<Item<K, V>>>, head: Item<K, V>, add: Item<K, V>, hashval: nat,
                        ghost h: K -> nat, ghost m: Model<K, V>, ghost repr: set<object>)
    returns (newHead: Item<K, V>, ghost repr': set<object>)
    requires Inv(h, HasTable(m)) && Owned(head, h, m, repr) && add !in repr && hashval == h(add.key)
    modifies repr, add
    ensures Owned(newHead, h, Push(h, m.(order := OrderWith(cmp, m.order, add)), add), repr')
    ensures fresh(repr' - repr - {add})
  {
    hide Inv, Threaded, Bucketed, TableOk, Owned, Push, Partitioned, OrderWith, Grown;
    OwnedParts(head, h, m, repr);
    AddOwnedFacts(cmp, head, add, h, m, repr);
    ghost var m' := Push(h, m.(order := OrderWith(cmp, m.order, add)), add);
    var t := head.tbl;
    newHead := AddLinked(cmp, head, t, add, hashval, h, m);
    repr' := repr + {add, t.buckets};
    Heads(newHead, t, h, m');
    Own(newHead, h, m', repr');
  }

  /** HASH_ADD, or with a comparator HASH_ADD_INORDER, on the values of the model. */
  ghost function AddBy<K, V>(h: K -> nat, cmp: Option<Cmp<Item<K, V>>>, t: Index<K, V>, x: Item<K, V>): Index<K, V>
    requires t.HasTable? ==> |t.m.chains| == |t.m.mults| > 0
  {
    OrderGrows(cmp, t.Order(), x);
    AddWithOrder(h, t, x, OrderWith(cmp, t.Order(), x))
  }

  method AddToIndex<K, V>(cmp: Option<Cmp<Item<K, V>>>, head: Item?<K, V>, add: Item<K, V>, hashval: nat,
                          ghost h: K -> nat, ghost t: Index<K, V>, ghost repr: set<object>)
    returns (newHead: Item<K, V>, ghost repr': set<object>)
    requires Inv(h, t) && add !in repr && hashval == h(add.key)
    requires (head == null <==> t.NoTable?) && (t.HasTable? ==> Owned(head, h, t.m, repr))
    modifies repr, add
    ensures AddBy(h, cmp, t, add).HasTable?
    ensures Owned(newHead, h, AddBy(h, cmp, t, add).m, repr') && fresh(repr' - repr - {add})
  {
    hide Inv, Owned, Push, MakeTable, OrderWith;
    if head == null {
      newHead, repr' := NewTable(add, hashval, h);
    } else {
      newHead, repr' := AddOwned(cmp, head, add, hashval, h, t.m, repr);
    }
  }

  /** Only the sole item of a table has neither a predecessor nor a successor. */
  lemma Alone<K, V>(head: Item<K, V>, t: Table<K, V>, order: Items<K, V>, del: Item<K, V>)
    requires Threaded(head, t, order) && del in order
    ensures (del.prev == null && del.next == null) <==> |order| == 1
  {
    var k :| 0 <= k < |order| && order[k] == del;
    assert order[k].prev == At(order, k - 1) && order[k].next == At(order, k + 1);
  }

  method DeleteOwned<K, V>(head: Item<K, V>, del: Item<K, V>, ghost h: K -> nat, ghost m: Model<K, V>,
                           ghost repr: set<object>)
    returns (newHead: Item<K, V>)
    requires Inv(h, HasTable(m)) && Owned(head, h, m, repr) && del in m.order && |m.order| > 1
    modifies repr
    ensures Owned(newHead, h, Shrunk(h, m, del), repr - {del})
  {
    OwnedParts(head, h, m, repr);
    assert Elems(m.order) <= repr;
    WithoutUniqueKeys(m.order, del);
    WithoutMembers(m.order, del);
    ghost var m' := Shrunk(h, m, del);
    hide Inv, Partitioned, Owned, Threaded, Bucketed, UniqueKeys, NoDup, Without, Slot;
    var t := head.tbl;
    newHead := RemoveItem(head, t, del, h, m);
    Heads(newHead, t, h, m');
    Own(newHead, h, m', repr - {del});
  }

  lemma Heads<K, V>(head: Item<K, V>, t: Table<K, V>, h: K -> nat, m: Model<K, V>)
    requires TableOk(head, t, h, m)
    ensures head in m.order && head.tbl == t
  {
  }

  /** The macros take the head pointer by name; here it is a field, next to the hash function. */
  class HashIndex<K(==), V> {
    const hash: K -> nat
    var head: Item?<K, V>
    ghost var model: Index<K, V>
    ghost var Repr: set<object>

    ghost predicate Valid()
      reads this, Repr
    {
      && this !in Repr
      && Inv(hash, model)
      && (model.NoTable? ==> head == null)
      && (model.HasTable? ==> Owned(head, hash, model.m, Repr))
    }

    constructor (hash: K -> nat)
      ensures Valid() && fresh(Repr) && model == NoTable && this.hash == hash
    {
      this.hash := hash;
      head := null;
      model := NoTable;
      Repr := {};
    }

    /** HASH_FIND */
    method Find(key: K) returns (out: Item?<K, V>)
      requires Valid()
      ensures out == FirstWithKey(model.Order(), key)
      ensures out != null ==> out in Repr && out in model.Order() && out.key == key
      ensures out == null ==> forall x :: x in model.Order() ==> x.key != key
    {
      FindAgrees(hash, model, key);
      FirstWithKeyFound(model.Order(), key);
      if head == null {
        out := null;
      } else {
        out := FindIn(head.tbl, key, hash, model.m);
        assert out != null ==> out in Elems(model.m.order);
      }
    }

    /** Valid() taken apart and put together again, so that callers need not look inside. */
    lemma Open()
      requires Valid()
      ensures this !in Repr && Inv(hash, model) && (model.NoTable? <==> head == null)
      ensures model.HasTable? ==> Owned(head, hash, model.m, Repr)
      ensures forall x :: x in model.Order() ==> x in Repr
      ensures model.HasTable? ==> |model.m.chains| == |model.m.mults| > 0 && model.Order() == model.m.order
      ensures model.NoTable? ==> model.Order() == []
    {
      if model.HasTable? {
        OwnedParts(head, hash, model.m, Repr);
      }
    }

    lemma Close()
      requires this !in Repr && Inv(hash, model) && (model.NoTable? <==> head == null)
      requires model.HasTable? ==> Owned(head, hash, model.m, Repr)
      ensures Valid()
    {
    }

    lemma Distinct()
      requires Valid()
      ensures UniqueKeys(model.Order())
    {
    }

    /** HASH_ADD_KEYPTR_BYHASHVALUE, or with a comparator its in-order variant. The key must be new,
        and the item not yet in the index. */
    method AddWith(cmp: Option<Cmp<Item<K, V>>>, add: Item<K, V>)
      requires Valid() && add !in Repr
      requires forall x :: x in model.Order() ==> x.key != add.key
      modifies this, Repr, add
      ensures Valid() && fresh(Repr - old(Repr) - {add})
      ensures model == AddBy(hash, cmp, old(model), add)
      ensures model.Order() == OrderWith(cmp, old(model).Order(), add)
    {
      hide *;
      Open();
      AddFresh(hash, cmp, model, add);
      var newHead;
      ghost var repr;
      newHead, repr := AddToIndex(cmp, head, add, hash(add.key), hash, model, Repr);
      ghost var after := AddBy(hash, cmp, model, add);
      assert this !in repr;
      head, model, Repr := newHead, after, repr;
      assert Owned(newHead, hash, after.m, repr);
      Close();
    }

    /** HASH_ADD */
    method Add(add: Item<K, V>)
      requires Valid() && add !in Repr
      requires forall x :: x in model.Order() ==> x.key != add.key
      modifies this, Repr, add
      ensures Valid() && fresh(Repr - old(Repr) - {add})
      ensures model == HashModel.Add(hash, old(model), add)
      ensures model.Order() == old(model).Order() + [add]
    {
      hide Inv, Owned, Push, MakeTable, Valid;
      AddWith(None, add);
    }

    /** HASH_SRT: only the application order changes; every bucket chain is untouched. */
    method Sort(cmp: Cmp<Item<K, V>>)
      requires Valid()
      modifies this, Repr
      ensures Valid() && Repr == old(Repr)
      ensures model == SortBy(cmp, old(model))
    {
      Open();
      if head != null {
        SortKeepsInv(hash, cmp, model.m);
        ghost var after, repr := SortBy(cmp, model), Repr;
        hide *;
        var newHead := SortOwned(cmp, head, hash, model.m, Repr);
        head, model := newHead, after;
        assert Owned(newHead, hash, after.m, repr);
        Close();
      }
    }

    /** HASH_DELETE */
    method Delete(del: Item<K, V>)
      requires Valid() && del in model.Order()
      modifies this, Repr
      ensures Valid() && Repr == old(Repr) - {del}
      ensures model == HashModel.Delete(hash, old(model), del)
      ensures model.Order() == Without(old(model).Order(), del)
    {
      hide *;
      Open();
      DeleteKeepsInv(hash, model, del);
      var newHead := DeleteFromIndex(head, del, hash, model.m, Repr);
      ghost var after, repr := HashModel.Delete(hash, model, del), Repr - {del};
      head, model, Repr := newHead, after, repr;
      assert after.HasTable? ==> Owned(newHead, hash, after.m, repr);
      Close();
    }

    /** Where an iteration over the index starts and which item it saves first. */
    lemma Front()
      requires Valid()
      ensures head == null <==> model.Order() == []
      ensures head != null ==> head in Repr && head in model.Order() && head == model.Order()[0]
      ensures head != null ==> head.next == At(model.Order(), 1)
    {
      Open();
      if head != null {
        var order := model.m.order;
        assert head == order[0] && order[0].next == At(order, 1);
      }
    }

    /** HASH_ITER with HASH_DEL in its body, as the chips are freed: the item saved before a deletion is
        the head after it, and the loop ends with no table left. */
    method Clear()
      requires Valid()
      modifies this, Repr
      ensures Valid() && Repr <= old(Repr) && model == NoTable && head == null
    {
      hide *;
      Front();
      var el := head;
      var tmp := if el != null then el.next else null;
      while el != null
        invariant Valid() && Repr <= old(Repr) && el == head
        invariant el != null ==> el in model.Order() && el == model.Order()[0] && tmp == At(model.Order(), 1)
        invariant el == null <==> model.Order() == []
        decreases |model.Order()|
      {
        ghost var order := model.Order();
        WithoutFirst(order);
        Delete(el);
        Front();
        el := tmp;
        tmp := if el != null then el.next else null;
      }
      Empty();
    }

    lemma Empty()
      requires Valid() && model.Order() == []
      ensures model == NoTable && head == null
    {
      Front();
    }
  }

  lemma WithoutFirst<K, V>(s: Items<K, V>)
    requires s != []
    ensures |Without(s, s[0])| == |s| - 1 && At(Without(s, s[0]), 0) == At(s, 1)
    ensures Without(s, s[0]) == [] <==> At(s, 1) == null
    ensures At(s, 1) == null || Without(s, s[0])[0] == At(s, 1)
  {
  }

  lemma AddFresh<K, V>(h: K -> nat, cmp: Option<Cmp<Item<K, V>>>, t: Index<K, V>, add: Item<K, V>)
    requires Inv(h, t) && add !in t.Order()
    requires forall x :: x in t.Order() ==> x.key != add.key
    ensures Inv(h, AddBy(h, cmp, t, add)) && AddBy(h, cmp, t, add).HasTable?
    ensures AddBy(h, cmp, t, add).Order() == OrderWith(cmp, t.Order(), add)
  {
    OrderGrows(cmp, t.Order(), add);
    AddKeepsInv(h, t, add, OrderWith(cmp, t.Order(), add));
  }

  ghost function SortBy<K, V>(cmp: Cmp<Item<K, V>>, t: Index<K, V>): Index<K, V> {
    if t.NoTable? then t else HasTable(t.m.(order := MergeSort(cmp, t.m.order)))
  }

  /** Sorting permutes the items, so the chains still partition them. */
  lemma SortKeepsInv<K, V>(h: K -> nat, cmp: Cmp<Item<K, V>>, m: Model<K, V>)
    requires Inv(h, HasTable(m))
    ensures Inv(h, SortBy(cmp, HasTable(m)))
    ensures multiset(MergeSort(cmp, m.order)) == multiset(m.order)
  {
    SortFromItems(cmp, m.order, 1);
    UniqueKeysPermuted(m.order, MergeSort(cmp, m.order));
    hide MergeSort, UniqueKeys, LoadBounded;
  }

  lemma UniqueKeysPermuted<K, V>(s: Items<K, V>, r: Items<K, V>)
    requires multiset(s) == multiset(r) && UniqueKeys(s)
    ensures UniqueKeys(r) && |r| == |s|
    ensures forall x :: x in r ==> x in s
    ensures forall x :: x in s ==> x in r
  {
    SameItems(s, r);
    forall x | x in r
      ensures x in s
    {
      assert x in Elems(r);
    }
    assert forall x :: x in s ==> x in Elems(r);
    assert NoDup(s);
    NoDupPermutation(s, r);
    forall i, j | 0 <= i < j < |r|
      ensures r[i].key != r[j].key
    {
      assert r[i] in s && r[j] in s && r[i] != r[j];
    }
  }

  lemma {:induction false} SortFromItems<T>(cmp: Cmp<T>, s: seq<T>, n: nat)
    requires n > 0
    ensures multiset(SortFrom(cmp, s, n)) == multiset(s)
    decreases |s| - n
  {
    PassItems(cmp, s, n);
    if |s| > 2 * n {
      SortFromItems(cmp, Pass(cmp, s, n), 2 * n);
    }
  }

  lemma SortFacts<K, V>(cmp: Cmp<Item<K, V>>, head: Item<K, V>, h: K -> nat, m: Model<K, V>, repr: set<object>)
    requires Inv(h, HasTable(m)) && Owned(head, h, m, repr)
    ensures var s := MergeSort(cmp, m.order);
      && Elems(m.order) <= repr && NoDup(m.order) && Elems(s) == Elems(m.order) && |s| == |m.order|
      && (forall x :: x in s ==> x in Elems(s))
  {
    SortKeepsInv(h, cmp, m);
    SameItems(m.order, MergeSort(cmp, m.order));
    hide MergeSort;
  }

  method SortOwned<K, V>(cmp: Cmp<Item<K, V>>, head: Item<K, V>, ghost h: K -> nat, ghost m: Model<K, V>,
                         ghost repr: set<object>)
    returns (newHead: Item<K, V>)
    requires Inv(h, HasTable(m)) && Owned(head, h, m, repr)
    modifies repr
    ensures Owned(newHead, h, SortBy(cmp, HasTable(m)).m, repr)
  {
    hide Inv, Owned, Threaded, TableOk, NoDup, MergeSort, Bucketed;
    OwnedParts(head, h, m, repr);
    SortFacts(cmp, head, h, m, repr);
    ghost var m' := m.(order := MergeSort(cmp, m.order));
    var t := head.tbl;
    newHead := HashSort.Sort(cmp, head, t, m.order);
    SortedBuckets(t, h, m, m');
    Whole(newHead, t, h, m');
    Heads(newHead, t, h, m');
    Own(newHead, h, m', repr);
  }

  lemma SortedBuckets<K, V>(t: Table<K, V>, h: K -> nat, m: Model<K, V>, m': Model<K, V>)
    requires Bucketed(t, h, m) && m' == m.(order := m'.order)
    requires Elems(m.order) == Elems(m'.order) && |m.order| == |m'.order|
    ensures Bucketed(t, h, m')
  {
    assert forall x :: x in m'.order ==> x in Elems(m'.order);
  }

  method DeleteFromIndex<K, V>(head: Item<K, V>, del: Item<K, V>, ghost h: K -> nat, ghost m: Model<K, V>,
                               ghost repr: set<object>)
    returns (newHead: Item?<K, V>)
    requires Inv(h, HasTable(m)) && Owned(head, h, m, repr) && del in m.order
    modifies repr
    ensures newHead == null <==> HashModel.Delete(h, HasTable(m), del).NoTable?
    ensures newHead != null ==> Owned(newHead, h, HashModel.Delete(h, HasTable(m), del).m, repr - {del})
  {
    OwnedParts(head, h, m, repr);
    Alone(head, head.tbl, m.order, del);
    hide Inv, Owned, Shrunk, Without;
    if del.prev == null && del.next == null {
      newHead := null;
    } else {
      newHead := DeleteOwned(head, del, h, m, repr);
    }
  }
}
