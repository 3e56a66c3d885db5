/** The pointer surgery of the hash index, one linked structure at a time. Each method touches only
    the fields of its own structure, which is what lets HashTable combine them. */
module HashLinks {
  import opened Seqs
  import opened BitOps
  import opened HashTypes
  import opened HashModel

  ghost function At<K, V>(s: Items<K, V>, k: int): Item?<K, V> {
    if 0 <= k < |s| then s[k] else null
  }

  /** `prev` and `next` thread s, with null at both ends. */
  ghost predicate AppLinks<K, V>(s: Items<K, V>)
    reads Elems(s)`prev, Elems(s)`next
  {
    && (forall k {:trigger s[k].next} :: 0 <= k < |s| ==> s[k].next == At(s, k + 1))
    && (forall k {:trigger s[k].prev} :: 0 <= k < |s| ==> s[k].prev == At(s, k - 1))
  }

  /** `hhPrev` and `hhNext` thread s, with null at both ends. */
  ghost predicate ChainLinks<K, V>(s: Items<K, V>)
    reads Elems(s)`hhPrev, Elems(s)`hhNext
  {
    && (forall k {:trigger s[k].hhNext} :: 0 <= k < |s| ==> s[k].hhNext == At(s, k + 1))
    && (forall k {:trigger s[k].hhPrev} :: 0 <= k < |s| ==> s[k].hhPrev == At(s, k - 1))
  }

  /** The application-order half of HASH_FSCK, with the head and tail pointers. */
  ghost predicate Threaded<K, V>(head: Item<K, V>, t: Table<K, V>, order: Items<K, V>)
    reads t`tail, Elems(order)`tbl, Elems(order)`prev, Elems(order)`next
  {
    && |order| > 0 && head == order[0] && t.tail == order[|order| - 1]
    && (forall x :: x in order ==> x.tbl == t)
    && AppLinks(order)
  }

  /** HASH_APPEND_LIST */
  method AppendList<K, V>(t: Table<K, V>, add: Item<K, V>, ghost order: Items<K, V>)
    requires order != [] && AppLinks(order) && NoDup(order)
    requires t.tail == order[|order| - 1] && add !in order
    modifies t`tail, add`prev, add`next, t.tail`next
    ensures AppLinks(order + [add]) && t.tail == add
  {
    add.next := null;
    add.prev := t.tail;
    t.tail.next := add;
    t.tail := add;
  }

  /** The application-order half of HASH_DELETE_HH, for an item that is not alone. Returns the new
      head of the list. */
  method UnlinkApp<K, V>(t: Table<K, V>, head: Item<K, V>, del: Item<K, V>, ghost order: Items<K, V>, ghost k: nat)
    returns (newHead: Item<K, V>)
    requires |order| > 1 && AppLinks(order) && NoDup(order)
    requires k < |order| && del == order[k]
    requires head == order[0] && t.tail == order[|order| - 1]
    modifies t`tail, Elems(order)`prev, Elems(order)`next
    ensures AppLinks(order[..k] + order[k + 1..])
    ensures newHead == if k == 0 then order[1] else order[0]
    ensures t.tail == if k == |order| - 1 then order[k - 1] else order[|order| - 1]
  {
    assert del.prev == At(order, k - 1) && del.next == At(order, k + 1);
    assert del == t.tail <==> k == |order| - 1;
    newHead := head;
    if del == t.tail {
      t.tail := del.prev;
    }
    if del.prev != null {
      del.prev.next := del.next;
    } else {
      newHead := del.next;
    }
    if del.next != null {
      del.next.prev := del.prev;
    }
    assert forall o {:trigger order[o].next} :: 0 <= o < |order| && o != k ==>
      order[o].next == if o + 1 == k then At(order, k + 1) else At(order, o + 1);
    assert forall o {:trigger order[o].prev} :: 0 <= o < |order| && o != k ==>
      order[o].prev == if o == k + 1 then At(order, k - 1) else At(order, o - 1);
    AppRelinked(order, k);
  }

  /** Links that skip position k thread the sequence without its k-th item. */
  lemma AppRelinked<K, V>(order: Items<K, V>, k: nat)
    requires k < |order|
    requires forall o {:trigger order[o].next} :: 0 <= o < |order| && o != k ==>
      order[o].next == (if o + 1 == k then At(order, k + 1) else At(order, o + 1))
    requires forall o {:trigger order[o].prev} :: 0 <= o < |order| && o != k ==>
      order[o].prev == (if o == k + 1 then At(order, k - 1) else At(order, o - 1))
    ensures AppLinks(order[..k] + order[k + 1..])
  {
    var rest := order[..k] + order[k + 1..];
    forall i | 0 <= i < |rest|
      ensures rest[i].next == At(rest, i + 1) && rest[i].prev == At(rest, i - 1)
    {
      var o := if i < k then i else i + 1;
      assert rest[i] == order[o];
    }
  }

  /** HASH_ADD_TO_BKT without the expansion test. */
  method PushChain<K, V>(t: Table<K, V>, b: nat, addhh: Item<K, V>, ghost chain: Items<K, V>)
    requires b < t.buckets.Length && ChainLinks(chain) && NoDup(chain)
    requires t.buckets[b].hhHead == At(chain, 0) && addhh !in chain
    modifies t.buckets, addhh`hhNext, addhh`hhPrev, Elems(chain)`hhPrev
    ensures ChainLinks([addhh] + chain)
    ensures t.buckets[b] == Bucket(addhh, old(t.buckets[b].count) + 1, old(t.buckets[b].expandMult))
    ensures forall j :: 0 <= j < t.buckets.Length && j != b ==> t.buckets[j] == old(t.buckets[j])
  {
    t.buckets[b] := t.buckets[b].(count := t.buckets[b].count + 1);
    addhh.hhNext := t.buckets[b].hhHead;
    addhh.hhPrev := null;
    if t.buckets[b].hhHead != null {
      t.buckets[b].hhHead.hhPrev := addhh;
    }
    t.buckets[b] := t.buckets[b].(hhHead := addhh);
  }

  /** HASH_DEL_IN_BKT */
  method UnlinkChain<K, V>(t: Table<K, V>, b: nat, delhh: Item<K, V>, ghost chain: Items<K, V>, ghost k: nat)
    requires b < t.buckets.Length && ChainLinks(chain) && NoDup(chain)
    requires t.buckets[b].hhHead == At(chain, 0) && t.buckets[b].count == |chain|
    requires k < |chain| && delhh == chain[k]
    modifies t.buckets, Elems(chain)`hhNext, Elems(chain)`hhPrev
    ensures ChainLinks(chain[..k] + chain[k + 1..])
    ensures t.buckets[b] == Bucket(At(chain[..k] + chain[k + 1..], 0), |chain| - 1, old(t.buckets[b].expandMult))
    ensures forall j :: 0 <= j < t.buckets.Length && j != b ==> t.buckets[j] == old(t.buckets[j])
  {
    t.buckets[b] := t.buckets[b].(count := t.buckets[b].count - 1);
    if t.buckets[b].hhHead == delhh {
      t.buckets[b] := t.buckets[b].(hhHead := delhh.hhNext);
    }
    if delhh.hhPrev != null {
      delhh.hhPrev.hhNext := delhh.hhNext;
    }
    if delhh.hhNext != null {
      delhh.hhNext.hhPrev := delhh.hhPrev;
    }
    assert forall o {:trigger chain[o].hhNext} :: 0 <= o < |chain| && o != k ==>
      chain[o].hhNext == if o + 1 == k then At(chain, k + 1) else At(chain, o + 1);
    assert forall o {:trigger chain[o].hhPrev} :: 0 <= o < |chain| && o != k ==>
      chain[o].hhPrev == if o == k + 1 then At(chain, k - 1) else At(chain, o - 1);
    ChainRelinked(chain, k);
  }

  lemma ChainRelinked<K, V>(chain: Items<K, V>, k: nat)
    requires k < |chain|
    requires forall o {:trigger chain[o].hhNext} :: 0 <= o < |chain| && o != k ==>
      chain[o].hhNext == (if o + 1 == k then At(chain, k + 1) else At(chain, o + 1))
    requires forall o {:trigger chain[o].hhPrev} :: 0 <= o < |chain| && o != k ==>
      chain[o].hhPrev == (if o == k + 1 then At(chain, k - 1) else At(chain, o - 1))
    ensures ChainLinks(chain[..k] + chain[k + 1..])
  {
    var rest := chain[..k] + chain[k + 1..];
    forall i | 0 <= i < |rest|
      ensures rest[i].hhNext == At(rest, i + 1) && rest[i].hhPrev == At(rest, i - 1)
    {
      var o := if i < k then i else i + 1;
      assert rest[i] == chain[o];
    }
  }

  /** HASH_FIND_IN_BKT */
  method FindInBucket<K(==), V>(bucket: Bucket<K, V>, hash: K -> nat, key: K, hashval: nat, ghost chain: Items<K, V>)
    returns (out: Item?<K, V>)
    requires ChainLinks(chain) && bucket.hhHead == At(chain, 0)
    requires hashval == hash(key) && forall x :: x in chain ==> x.hashv == hash(x.key)
    ensures out == FirstWithKey(chain, key)
  {
    out := bucket.hhHead;
    ghost var k := 0;
    while out != null
      invariant 0 <= k <= |chain| && out == At(chain, k)
      invariant FirstWithKey(chain, key) == FirstWithKey(chain[k..], key)
      decreases |chain| - k
    {
      if out.hashv == hashval && out.key == key {
        break;
      }
      out := out.hhNext;
      k := k + 1;
    }
  }
}
