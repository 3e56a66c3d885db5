/** Intrusive circular lists: the pointer surgery of every list operation refines an operation on
    the sequence of nodes that the ring threads. */
module ListHead {
  import opened Options
  import opened Seqs

  /** A link, embedded in the structure `entry`; the head of a list is embedded in nothing. */
  class Link<T> {
    var next: Link?<T>
    var prev: Link?<T>
    const entry: Option<T>

    /** INIT_LIST_HEAD */
    constructor (entry: Option<T>)
      ensures Ring(this, []) && this.entry == entry
    {
      this.entry := entry;
      next := this;
      prev := this;
    }
  }

  type Links<T> = seq<Link<T>>

  /** Node k of the ring; the head sits before the first and behind the last node. */
  ghost function At<T>(head: Link<T>, s: Links<T>, k: int): Link<T> {
    if 0 <= k < |s| then s[k] else head
  }

  /** Both link directions of the ring are consistent, and thread exactly the nodes of s. */
  ghost predicate Ring<T>(head: Link<T>, s: Links<T>)
    reads head, Elems(s)
  {
    && NoDup(s) && head !in s
    && head.next == At(head, s, 0) && head.prev == At(head, s, |s| - 1)
    && (forall k {:trigger s[k].next} :: 0 <= k < |s| ==> s[k].next == At(head, s, k + 1))
    && (forall k {:trigger s[k].prev} :: 0 <= k < |s| ==> s[k].prev == At(head, s, k - 1))
  }

  /** The links of a ring determine its nodes and their order. */
  lemma {:induction false} RingUnique<T>(head: Link<T>, s: Links<T>, t: Links<T>)
    requires Ring(head, s) && Ring(head, t) && |s| <= |t|
    ensures s == t
  {
    var k := 0;
    while k < |s|
      invariant k <= |s| && s[..k] == t[..k]
    {
      assert k > 0 ==> s[k - 1] == t[..k][k - 1] && t[k - 1].next == t[k];
      k := k + 1;
    }
    assert s == t[..|s|];
    assert |s| > 0 ==> s[|s| - 1].next == head && t[|s| - 1].next == At(head, t, |s|);
    assert At(head, t, |s|) == head;
  }

  /** s without its k-th node. */
  ghost function Cut<T>(s: Links<T>, k: nat): Links<T>
    requires k < |s|
  {
    s[..k] + s[k + 1..]
  }

  ghost predicate Disjoint<T>(h: Link<T>, s: Links<T>, g: Link<T>, t: Links<T>) {
    ({h} + Elems(s)) !! ({g} + Elems(t))
  }

  /** Two runs of nodes, each linked inside, that meet each other and the head make one ring. */
  lemma Joined<T>(head: Link<T>, s: Links<T>, t: Links<T>)
    requires NoDup(s + t) && head !in s + t
    requires head.next == (if s == [] then At(head, t, 0) else s[0])
    requires head.prev == (if t == [] then At(head, s, |s| - 1) else t[|t| - 1])
    requires forall k {:trigger s[k].next} :: 0 <= k < |s| ==>
      s[k].next == if k + 1 < |s| then s[k + 1] else At(head, t, 0)
    requires forall k {:trigger s[k].prev} :: 0 <= k < |s| ==> s[k].prev == At(head, s, k - 1)
    requires forall k {:trigger t[k].next} :: 0 <= k < |t| ==> t[k].next == At(head, t, k + 1)
    requires forall k {:trigger t[k].prev} :: 0 <= k < |t| ==>
      t[k].prev == if k == 0 then At(head, s, |s| - 1) else t[k - 1]
    ensures Ring(head, s + t)
  {
    var r := s + t;
    hide NoDup;
    forall k | 0 <= k < |r|
      ensures r[k].next == At(head, r, k + 1)
    {
      assert r[k] == if k < |s| then s[k] else t[k - |s|];
    }
    forall k | 0 <= k < |r|
      ensures r[k].prev == At(head, r, k - 1)
    {
      assert r[k] == if k < |s| then s[k] else t[k - |s|];
    }
  }

  // ---------------------------------------------------------------- insertion

  /** __list_add */
  method Insert<T>(node: Link<T>, prev: Link<T>, next: Link<T>)
    requires node != prev && node != next
    modifies node, prev`next, next`prev
    ensures prev.next == node && node.prev == prev && node.next == next && next.prev == node
  {
    next.prev := node;
    node.next := next;
    node.prev := prev;
    prev.next := node;
  }

  /** list_add */
  method Add<T>(node: Link<T>, head: Link<T>, ghost s: Links<T>)
    requires Ring(head, s) && node != head && node !in s
    modifies node, head`next, At(head, s, 0)`prev
    ensures Ring(head, [node] + s)
  {
    assert forall k :: 0 <= k < |s| ==> s[k] in s;
    Insert(node, head, head.next);
  }

  /** list_add_tail */
  method AddTail<T>(node: Link<T>, head: Link<T>, ghost s: Links<T>)
    requires Ring(head, s) && node != head && node !in s
    modifies node, head`prev, At(head, s, |s| - 1)`next
    ensures Ring(head, s + [node])
  {
    assert forall k :: 0 <= k < |s| ==> s[k] in s;
    Insert(node, head.prev, head);
  }

  // ---------------------------------------------------------------- removal

  /** __list_del on the neighbours of node k. */
  method Unlink<T>(node: Link<T>, ghost head: Link<T>, ghost s: Links<T>, ghost k: nat)
    requires Ring(head, s) && k < |s| && node == s[k]
    modifies At(head, s, k - 1)`next, At(head, s, k + 1)`prev
    ensures Ring(head, Cut(s, k))
    ensures node.next == old(node.next) && node.prev == old(node.prev)
  {
    var prev, next := node.prev, node.next;
    CutNoDup(s, k);
    next.prev := prev;
    prev.next := next;
    Joined(head, s[..k], s[k + 1..]);
  }

  lemma CutNoDup<T>(s: Links<T>, k: nat)
    requires NoDup(s) && k < |s|
    ensures NoDup(Cut(s, k)) && s[k] !in Cut(s, k)
    ensures forall x :: x in Cut(s, k) ==> x in s
    ensures forall i :: 0 <= i < k ==> Cut(s, k)[i] == s[i]
    ensures forall i :: k <= i < |s| - 1 ==> Cut(s, k)[i] == s[i + 1]
  {
  }

  /** list_del */
  method Del<T>(node: Link<T>, ghost head: Link<T>, ghost s: Links<T>, ghost k: nat)
    requires Ring(head, s) && k < |s| && node == s[k]
    modifies node, At(head, s, k - 1)`next, At(head, s, k + 1)`prev
    ensures Ring(head, Cut(s, k)) && node.next == null && node.prev == null
  {
    Unlink(node, head, s, k);
    CutNoDup(s, k);
    ghost var r := Cut(s, k);
    assert Ring(head, r) && node !in r && node != head;
    hide Cut, NoDup;
    node.next := null;
    node.prev := null;
  }

  /** list_del_init: the removed node becomes an empty ring of its own. */
  method DelInit<T>(node: Link<T>, ghost head: Link<T>, ghost s: Links<T>, ghost k: nat)
    requires Ring(head, s) && k < |s| && node == s[k]
    modifies node, At(head, s, k - 1)`next, At(head, s, k + 1)`prev
    ensures Ring(head, Cut(s, k)) && Ring(node, [])
  {
    Unlink(node, head, s, k);
    CutNoDup(s, k);
    ghost var r := Cut(s, k);
    assert Ring(head, r) && node !in r && node != head;
    hide Cut, NoDup;
    node.next := node;
    node.prev := node;
  }

  // ---------------------------------------------------------------- moving between lists

  /** list_move_tail, between two disjoint lists. */
  method MoveTail<T>(node: Link<T>, head: Link<T>, ghost t: Links<T>, ghost from: Link<T>, ghost s: Links<T>,
                     ghost k: nat)
    requires Ring(from, s) && k < |s| && node == s[k]
    requires Ring(head, t) && Disjoint(from, s, head, t)
    modifies node, At(from, s, k - 1)`next, At(from, s, k + 1)`prev, head`prev, At(head, t, |t| - 1)`next
    ensures Ring(from, Cut(s, k)) && Ring(head, t + [node])
    ensures Disjoint(from, Cut(s, k), head, t + [node])
  {
    MoveFacts(from, s, k, head, t);
    Unlink(node, from, s, k);
    ghost var r := Cut(s, k);
    assert Ring(from, r) && Ring(head, t);
    hide Cut, NoDup;
    AddTail(node, head, t);
  }

  lemma MoveFacts<T>(from: Link<T>, s: Links<T>, k: nat, head: Link<T>, t: Links<T>)
    requires NoDup(s) && from !in s && k < |s| && Disjoint(from, s, head, t)
    ensures s[k] !in Elems(t) && s[k] != head && s[k] != from && s[k] !in Elems(Cut(s, k))
    ensures Disjoint(from, Cut(s, k), head, t) && Disjoint(from, Cut(s, k), head, t + [s[k]])
    ensures At(head, t, |t| - 1) in {head} + Elems(t)
    ensures At(from, s, k - 1) in {from} + Elems(s) && At(from, s, k + 1) in {from} + Elems(s)
  {
    CutNoDup(s, k);
    assert s[k] in Elems(s);
    assert forall x :: x in Elems(Cut(s, k)) ==> x in Elems(s);
    assert forall x :: x in Elems(t + [s[k]]) ==> x in Elems(t) || x == s[k];
  }

  /** list_empty */
  method IsEmpty<T>(head: Link<T>, ghost s: Links<T>) returns (empty: bool)
    requires Ring(head, s)
    ensures empty <==> s == []
  {
    empty := head.next == head;
  }

  // ---------------------------------------------------------------- splicing

  /** __list_splice: the nodes of a non-empty list enter another one at its front. The head of the
      spliced list is left as it was, still pointing at nodes that now belong to the other ring. */
  method SpliceNodes<T>(list: Link<T>, head: Link<T>, ghost s: Links<T>, ghost t: Links<T>)
    requires Ring(list, s) && Ring(head, t) && Disjoint(list, s, head, t) && s != []
    modifies head`next, At(head, t, 0)`prev, Elems(s)
    ensures Ring(head, s + t)
  {
    var first, last, at := list.next, list.prev, head.next;
    JoinNoDup(list, s, head, t);
    assert first == s[0] && last == s[|s| - 1] && s[0] in Elems(s) && s[|s| - 1] in Elems(s);
    first.prev := head;
    head.next := first;
    last.next := at;
    at.prev := last;
    Joined(head, s, t);
  }

  lemma JoinNoDup<T>(list: Link<T>, s: Links<T>, head: Link<T>, t: Links<T>)
    requires NoDup(s) && NoDup(t) && head !in t && Disjoint(list, s, head, t)
    ensures NoDup(s + t) && head !in s + t
    ensures forall i, j :: 0 <= i < |s| && 0 <= j < |t| ==> s[i] != t[j]
  {
    assert forall x :: x in s ==> x in {list} + Elems(s);
    assert forall x :: x in t ==> x in {head} + Elems(t);
    assert head in {head} + Elems(t);
    assert forall i, j :: 0 <= i < |s| && 0 <= j < |t| ==> s[i] in s && t[j] in t;
  }

  /** list_splice */
  method Splice<T>(list: Link<T>, head: Link<T>, ghost s: Links<T>, ghost t: Links<T>)
    requires Ring(list, s) && Ring(head, t) && Disjoint(list, s, head, t)
    modifies head`next, At(head, t, 0)`prev, Elems(s)
    ensures Ring(head, s + t)
    ensures list.next == old(list.next) && list.prev == old(list.prev)
  {
    assert [] + t == t;
    if list.next != list {
      SpliceNodes(list, head, s, t);
    }
  }

  /** list_splice_init */
  method SpliceInit<T>(list: Link<T>, head: Link<T>, ghost s: Links<T>, ghost t: Links<T>)
    requires Ring(list, s) && Ring(head, t) && Disjoint(list, s, head, t)
    modifies list, head`next, At(head, t, 0)`prev, Elems(s)
    ensures Ring(head, s + t) && Ring(list, [])
  {
    assert [] + t == t;
    if list.next != list {
      SpliceNodes(list, head, s, t);
      assert list !in s + t && list != head by {
        assert forall x :: x in t ==> x in Elems(t);
      }
      list.next := list;
      list.prev := list;
    }
  }
}
