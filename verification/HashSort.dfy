/** HASH_SRT on the doubly linked application order, in place. */
module HashSort {
  import opened Seqs
  import opened HashTypes
  import opened HashModel
  import opened HashLinks
  import opened HashOrder

  /** Where a run of at most n items that starts at i ends. */
  function Cut(i: nat, n: nat, len: nat): (r: nat)
    ensures i < len && n > 0 ==> i < r <= len
    ensures (r == i + n && i + n <= len) || (r == len && len < i + n)
  {
    if i + n <= len then i + n else len
  }

  /** The merge of l[a..b] and l[c..d], and the pass over l from i on. */
  ghost function MergeAt<T>(cmp: Cmp<T>, l: seq<T>, a: nat, b: nat, c: nat, d: nat): seq<T>
    requires a <= b <= |l| && c <= d <= |l|
  {
    Merge(cmp, l[a..b], l[c..d])
  }

  ghost function PassFrom<T>(cmp: Cmp<T>, l: seq<T>, i: nat, n: nat): seq<T>
    requires i <= |l| && n > 0
  {
    Pass(cmp, l[i..], n)
  }

  /** The output list built so far: threaded both ways, except for the `next` of its last item. */
  ghost predicate OutLinks<K, V>(out: Items<K, V>, list: Item?<K, V>, tail: Item?<K, V>)
    reads Elems(out)`next, Elems(out)`prev
  {
    && list == At(out, 0) && tail == At(out, |out| - 1)
    && (forall k {:trigger out[k].next} :: 0 <= k < |out| - 1 ==> out[k].next == out[k + 1])
    && (forall k {:trigger out[k].prev} :: 0 <= k < |out| ==> out[k].prev == At(out, k - 1))
  }

  /** The items of l in [a, b) and from c on still have their old `next`. */
  ghost predicate NextLinks<K, V>(l: Items<K, V>, a: nat, b: nat, c: nat)
    reads Elems(l)`next
  {
    forall k {:trigger l[k].next} :: 0 <= k < |l| && (a <= k < b || c <= k) ==> l[k].next == At(l, k + 1)
  }

  /** The output consists of items of l other than those in [a, b) and from c on. */
  ghost predicate Separate<K, V>(out: Items<K, V>, l: Items<K, V>, a: nat, b: nat, c: nat) {
    && NoDup(out) && NoDup(l)
    && (forall x :: x in out ==> x in l)
    && (forall k :: 0 <= k < |l| && (a <= k < b || c <= k) ==> l[k] !in out)
  }

  /** The heap between two items: the output, and what is left of l. */
  ghost predicate Relinking<K, V>(out: Items<K, V>, list: Item?<K, V>, tail: Item?<K, V>, l: Items<K, V>,
                                  a: nat, b: nat, c: nat)
    reads Elems(out)`next, Elems(out)`prev, Elems(l)`next
  {
    OutLinks(out, list, tail) && Separate(out, l, a, b, c) && NextLinks(l, a, b, c)
  }

  /** Linking e behind the output. */
  method Emit<K, V>(list: Item?<K, V>, tail: Item?<K, V>, e: Item<K, V>, ghost out: Items<K, V>)
    returns (list': Item?<K, V>)
    requires OutLinks(out, list, tail) && NoDup(out) && e !in out
    modifies Elems(out)`next, e`prev
    ensures OutLinks(out + [e], list', e)
    ensures forall x :: x in out && x != tail ==> x.next == old(x.next)
  {
    list' := list;
    if tail != null {
      tail.next := e;
    } else {
      list' := e;
    }
    e.prev := tail;
  }

  /** Taking l[k], one end of what is left, moves it to the output. */
  lemma Taken<K, V>(out: Items<K, V>, l: Items<K, V>, a: nat, b: nat, c: nat, k: nat, a': nat, c': nat)
    requires Separate(out, l, a, b, c) && k < |l| && b <= c
    requires (k == a < b && a' == a + 1 && c' == c) || (k == c && a' == a && c' == c + 1)
    ensures Separate(out + [l[k]], l, a', b, c')
  {
  }

  /** Reading the link of an item that is still to be taken. */
  lemma NextIs<K, V>(l: Items<K, V>, a: nat, b: nat, c: nat, k: nat)
    requires NextLinks(l, a, b, c) && k < |l| && (a <= k < b || c <= k)
    ensures l[k].next == At(l, k + 1)
  {
  }

  /** Taking l[k] from one of the two runs and linking it behind the output. */
  method Take<K, V>(list: Item?<K, V>, tail: Item?<K, V>, x: Item<K, V>, ghost out: Items<K, V>, ghost l: Items<K, V>,
                    ghost a: nat, ghost b: nat, ghost c: nat, ghost k: nat, ghost a': nat, ghost c': nat)
    returns (list': Item?<K, V>)
    requires k < |l| && b <= c && x == l[k]
    requires (k == a < b && a' == a + 1 && c' == c) || (k == c && a' == a && c' == c + 1)
    requires Relinking(out, list, tail, l, a, b, c)
    modifies Elems(l)`next, Elems(l)`prev
    ensures Relinking(out + [x], list', x, l, a', b, c')
  {
    Taken(out, l, a, b, c, k, a', c');
    list' := Emit(list, tail, x, out);
  }

  /** Where the merge of l[i..s] and l[s..e] stands: p and q are at l[pi] and l[qi], and merging the rest
      behind the output leads to goal. */
  ghost predicate Merging<K, V>(cmp: Cmp<Item<K, V>>, p: Item?<K, V>, q: Item?<K, V>, psize: nat, qsize: nat,
                                l: Items<K, V>, pi: nat, s: nat, qi: nat, e: nat, out: Items<K, V>, goal: Items<K, V>) {
    && pi <= s <= qi <= e <= |l|
    && psize == s - pi && (psize > 0 ==> p == l[pi]) && q == At(l, qi)
    && e - qi <= qsize && (e - qi < qsize ==> e == |l|)
    && out + MergeAt(cmp, l, pi, s, qi, e) == goal
  }

  /** One turn of the merge, from the front of p or of q: p unless it is used up or compares greater. */
  method MergeOne<K, V>(cmp: Cmp<Item<K, V>>, p: Item?<K, V>, q: Item?<K, V>, psize: nat, qsize: nat,
                        list: Item?<K, V>, tail: Item?<K, V>, ghost l: Items<K, V>, ghost pi: nat, ghost s: nat,
                        ghost qi: nat, ghost e: nat, ghost out: Items<K, V>, ghost goal: Items<K, V>)
    returns (p': Item?<K, V>, q': Item?<K, V>, psize': nat, qsize': nat, list': Item?<K, V>, x: Item<K, V>,
             ghost pi': nat, ghost qi': nat)
    requires Merging(cmp, p, q, psize, qsize, l, pi, s, qi, e, out, goal) && Relinking(out, list, tail, l, pi, s, qi)
    requires psize != 0 || (qsize != 0 && q != null)
    modifies Elems(l)`next, Elems(l)`prev
    ensures psize' + qsize' < psize + qsize
    ensures Merging(cmp, p', q', psize', qsize', l, pi', s, qi', e, out + [x], goal)
    ensures Relinking(out + [x], list', x, l, pi', s, qi')
  {
    hide OutLinks, Separate, NextLinks, MergeAt;
    p', q', psize', qsize' := p, q, psize, qsize;
    ghost var k;
    if psize == 0 {
      x, k, pi', qi' := q, qi, pi, qi + 1;
      q', qsize' := q.next, qsize - 1;
    } else if qsize == 0 || q == null {
      x, k, pi', qi' := p, pi, pi + 1, qi;
      p', psize' := p.next, psize - 1;
    } else if cmp(p, q) <= 0 {
      x, k, pi', qi' := p, pi, pi + 1, qi;
      p', psize' := p.next, psize - 1;
    } else {
      x, k, pi', qi' := q, qi, pi, qi + 1;
      q', qsize' := q.next, qsize - 1;
    }
    NextIs(l, pi, s, qi, k);
    MergeStep(cmp, out, l, pi, s, qi, e, k, pi', qi');
    list' := Take(list, tail, x, out, l, pi, s, qi, k, pi', qi');
  }

  /** The merge of l[i..s] and l[s..e] behind the output. */
  method MergeTwo<K, V>(cmp: Cmp<Item<K, V>>, p0: Item<K, V>, q0: Item?<K, V>, psize0: nat, insize: nat,
                        list0: Item?<K, V>, tail0: Item?<K, V>,
                        ghost l: Items<K, V>, ghost i: nat, ghost out0: Items<K, V>)
    returns (q: Item?<K, V>, list: Item?<K, V>, tail: Item?<K, V>, ghost out: Items<K, V>)
    requires i < |l| && p0 == l[i] && insize > 0
    requires psize0 == Cut(i, insize, |l|) - i && q0 == At(l, i + psize0)
    requires Relinking(out0, list0, tail0, l, i, i, i)
    modifies Elems(l)`next, Elems(l)`prev
    ensures var s, e := i + psize0, Cut(i, 2 * insize, |l|);
            && out == out0 + MergeAt(cmp, l, i, s, s, e)
            && q == At(l, e)
            && Relinking(out, list, tail, l, e, e, e)
  {
    hide *;
    ghost var s, e := i + psize0, Cut(i, 2 * insize, |l|);
    RunBounds(i, insize, |l|);
    ghost var goal := out0 + MergeAt(cmp, l, i, s, s, e);
    ghost var pi: nat, qi: nat := i, s;
    var p: Item?<K, V> := p0;
    var psize, qsize := psize0, insize;
    q, list, tail, out := q0, list0, tail0, out0;
    StartMerge(cmp, p, q, psize, insize, list, tail, l, i, out0);
    while psize != 0 || (qsize != 0 && q != null)
      invariant Merging(cmp, p, q, psize, qsize, l, pi, s, qi, e, out, goal)
      invariant Relinking(out, list, tail, l, pi, s, qi)
      decreases psize + qsize
    {
      var x;
      p, q, psize, qsize, list, x, pi, qi := MergeOne(cmp, p, q, psize, qsize, list, tail, l, pi, s, qi, e, out, goal);
      out, tail := out + [x], x;
    }
    EndMerge(cmp, p, q, psize, qsize, list, tail, l, pi, s, qi, e, out, goal);
  }

  /** The second run is as long as the first, or ends with the list. */
  lemma RunBounds(i: nat, insize: nat, n: nat)
    requires i < n && insize > 0
    ensures var s, e := Cut(i, insize, n), Cut(i, 2 * insize, n);
      i < s <= e <= n && e - s <= insize && (e - s < insize ==> e == n)
  {
  }

  lemma StartMerge<K, V>(cmp: Cmp<Item<K, V>>, p: Item<K, V>, q: Item?<K, V>, psize: nat, insize: nat,
                         list: Item?<K, V>, tail: Item?<K, V>, l: Items<K, V>, i: nat, out: Items<K, V>)
    requires i < |l| && p == l[i] && insize > 0 && psize == Cut(i, insize, |l|) - i && q == At(l, i + psize)
    requires Relinking(out, list, tail, l, i, i, i)
    ensures var s, e := i + psize, Cut(i, 2 * insize, |l|);
      && s <= e <= |l|
      && Merging(cmp, p, q, psize, insize, l, i, s, s, e, out, out + MergeAt(cmp, l, i, s, s, e))
      && Relinking(out, list, tail, l, i, s, s)
  {
    hide MergeAt, OutLinks, Cut;
    RunBounds(i, insize, |l|);
  }

  lemma EndMerge<K, V>(cmp: Cmp<Item<K, V>>, p: Item?<K, V>, q: Item?<K, V>, psize: nat, qsize: nat,
                       list: Item?<K, V>, tail: Item?<K, V>, l: Items<K, V>, pi: nat, s: nat, qi: nat, e: nat,
                       out: Items<K, V>, goal: Items<K, V>)
    requires Merging(cmp, p, q, psize, qsize, l, pi, s, qi, e, out, goal) && Relinking(out, list, tail, l, pi, s, qi)
    requires psize == 0 && (qsize == 0 || q == null)
    ensures out == goal && q == At(l, e) && Relinking(out, list, tail, l, e, e, e)
  {
    hide OutLinks;
  }

  /** Which item l[k] the merge takes next, and what is left of the merge then. */
  lemma MergeStep<K, V>(cmp: Cmp<Item<K, V>>, out: Items<K, V>, l: Items<K, V>, pi: nat, s: nat, qi: nat, e: nat,
                        k: nat, pi': nat, qi': nat)
    requires pi <= s <= qi <= e <= |l|
    requires (k == pi < s && pi' == pi + 1 && qi' == qi && (qi == e || cmp(l[pi], l[qi]) <= 0))
          || (k == qi < e && pi' == pi && qi' == qi + 1 && (pi == s || cmp(l[pi], l[qi]) > 0))
    ensures out + [l[k]] + MergeAt(cmp, l, pi', s, qi', e) == out + MergeAt(cmp, l, pi, s, qi, e)
  {
    var a, b := l[pi..s], l[qi..e];
    if pi' == pi + 1 {
      assert a[1..] == l[pi'..s] && a == [l[k]] + a[1..];
      MergeNil(cmp, a[1..]);
    } else {
      assert b[1..] == l[qi'..e] && b == [l[k]] + b[1..];
    }
  }

  lemma MergeNil<T>(cmp: Cmp<T>, a: seq<T>)
    ensures Merge(cmp, a, []) == a
  {
  }

  /** Walking q over at most insize items to find the end of the first run. */
  method SkipRun<K, V>(p: Item<K, V>, insize: nat, ghost l: Items<K, V>, ghost i: nat)
    returns (q: Item?<K, V>, psize: nat)
    requires i < |l| && p == l[i] && insize > 0 && NextLinks(l, i, i, i)
    ensures psize == Cut(i, insize, |l|) - i && q == At(l, i + psize)
  {
    q, psize := p, 0;
    for n := 0 to insize
      invariant psize == n && i + psize < |l| && q == l[i + psize]
    {
      NextIs(l, i, i, i, i + psize);
      psize := psize + 1;
      q := q.next;
      if q == null {
        break;
      }
    }
  }

  /** Where a pass over l stands: the output and the pass over the rest make up the pass. */
  ghost predicate Passing<K, V>(cmp: Cmp<Item<K, V>>, l: Items<K, V>, n: nat, i: nat, p: Item?<K, V>,
                                list: Item?<K, V>, tail: Item?<K, V>, out: Items<K, V>)
    requires n > 0
    reads Elems(out)`next, Elems(out)`prev, Elems(l)`next
  {
    && i <= |l| && p == At(l, i)
    && Relinking(out, list, tail, l, i, i, i)
    && out + PassFrom(cmp, l, i, n) == Pass(cmp, l, n)
  }

  /** One turn of the pass: the two runs that start at l[i]. */
  method MergeNext<K, V>(cmp: Cmp<Item<K, V>>, p: Item<K, V>, insize: nat, list0: Item?<K, V>, tail0: Item?<K, V>,
                         ghost l: Items<K, V>, ghost i: nat, ghost out0: Items<K, V>)
    returns (q: Item?<K, V>, list: Item?<K, V>, tail: Item?<K, V>, ghost out: Items<K, V>)
    requires insize > 0 && i < |l| && Passing(cmp, l, insize, i, p, list0, tail0, out0)
    modifies Elems(l)`next, Elems(l)`prev
    ensures Passing(cmp, l, insize, Cut(i, 2 * insize, |l|), q, list, tail, out)
  {
    hide Passing, Separate, NextLinks, NoDup, PassFrom, Pass, MergeAt, Merge, Cut, Min, At;
    PassingParts(cmp, l, insize, i, p, list0, tail0, out0);
    var q0, psize := SkipRun(p, insize, l, i);
    q, list, tail, out := MergeTwo(cmp, p, q0, psize, insize, list0, tail0, l, i, out0);
    PassingNext(cmp, l, insize, i, q, list, tail, out0, out);
  }

  lemma PassingParts<K, V>(cmp: Cmp<Item<K, V>>, l: Items<K, V>, n: nat, i: nat, p: Item?<K, V>,
                           list: Item?<K, V>, tail: Item?<K, V>, out: Items<K, V>)
    requires n > 0 && Passing(cmp, l, n, i, p, list, tail, out) && i < |l|
    ensures p == l[i] && Relinking(out, list, tail, l, i, i, i) && NextLinks(l, i, i, i)
    ensures out + PassFrom(cmp, l, i, n) == Pass(cmp, l, n)
    ensures i < Cut(i, n, |l|) <= Cut(i, 2 * n, |l|) <= |l|
  {
    hide OutLinks, Separate, NextLinks, PassFrom, Pass;
  }

  lemma PassingNext<K, V>(cmp: Cmp<Item<K, V>>, l: Items<K, V>, n: nat, i: nat, q: Item?<K, V>,
                          list: Item?<K, V>, tail: Item?<K, V>, out0: Items<K, V>, out: Items<K, V>)
    requires n > 0 && i < |l| && out0 + PassFrom(cmp, l, i, n) == Pass(cmp, l, n)
    requires var s, e := Cut(i, n, |l|), Cut(i, 2 * n, |l|);
      q == At(l, e) && Relinking(out, list, tail, l, e, e, e) && out == out0 + MergeAt(cmp, l, i, s, s, e)
    ensures Passing(cmp, l, n, Cut(i, 2 * n, |l|), q, list, tail, out)
  {
    hide Relinking, PassFrom, Pass, MergeAt;
    PassStep(cmp, l, i, n, out0);
  }

  /** What the number of merges says of the items passed. */
  ghost predicate Merges(nmerges: nat, i: nat, n: nat, len: nat) {
    && (nmerges == 0 ==> i == 0)
    && (nmerges == 1 ==> i == Cut(0, 2 * n, len))
    && (nmerges >= 2 ==> len > 2 * n)
  }

  lemma OneMoreMerge(nmerges: nat, i: nat, n: nat, len: nat)
    requires n > 0 && i < len && Merges(nmerges, i, n, len)
    ensures i < Cut(i, 2 * n, len) <= len && Merges(nmerges + 1, Cut(i, 2 * n, len), n, len)
  {
  }

  /** One pass over the list; the number of merges tells whether it was the last. */
  method PassOnce<K, V>(cmp: Cmp<Item<K, V>>, head: Item<K, V>, insize: nat, ghost l: Items<K, V>)
    returns (list: Item<K, V>, tail: Item<K, V>, nmerges: nat)
    requires l != [] && head == l[0] && insize > 0 && NoDup(l) && AppLinks(l)
    modifies Elems(l)`next, Elems(l)`prev
    ensures var r := Pass(cmp, l, insize);
            NoDup(r) && AppLinks(r) && list == r[0] && tail == r[|r| - 1]
    ensures nmerges <= 1 <==> |l| <= 2 * insize
  {
    hide *;
    PassStart(cmp, head, l, insize);
    var p: Item?<K, V> := head;
    var first: Item?<K, V>, last: Item?<K, V> := null, null;
    nmerges := 0;
    ghost var i, out := 0, [];
    while p != null
      invariant Passing(cmp, l, insize, i, p, first, last, out) && (p == null <==> i >= |l|)
      invariant Merges(nmerges, i, insize, |l|)
      decreases |l| - i
    {
      OneMoreMerge(nmerges, i, insize, |l|);
      nmerges := nmerges + 1;
      p, first, last, out := MergeNext(cmp, p, insize, first, last, l, i, out);
      i := Cut(i, 2 * insize, |l|);
      AtEnd(cmp, l, insize, i, p, first, last, out);
    }
    PassEnd(cmp, l, insize, i, p, first, last, out, nmerges);
    list, tail := Finish(first, last, out);
  }

  lemma PassStart<K, V>(cmp: Cmp<Item<K, V>>, head: Item<K, V>, l: Items<K, V>, n: nat)
    requires NoDup(l) && AppLinks(l) && n > 0 && l != [] && head == l[0]
    ensures Passing(cmp, l, n, 0, head, null, null, []) && Merges(0, 0, n, |l|)
  {
    assert l[0..] == l;
  }

  lemma AtEnd<K, V>(cmp: Cmp<Item<K, V>>, l: Items<K, V>, n: nat, i: nat, p: Item?<K, V>, list: Item?<K, V>,
                    tail: Item?<K, V>, out: Items<K, V>)
    requires n > 0 && Passing(cmp, l, n, i, p, list, tail, out)
    ensures p == null <==> i >= |l|
  {
  }

  lemma PassEnd<K, V>(cmp: Cmp<Item<K, V>>, l: Items<K, V>, n: nat, i: nat, p: Item?<K, V>, list: Item?<K, V>,
                      tail: Item?<K, V>, out: Items<K, V>, nmerges: nat)
    requires n > 0 && l != [] && p == null && Passing(cmp, l, n, i, p, list, tail, out) && Merges(nmerges, i, n, |l|)
    ensures out == Pass(cmp, l, n) && out != [] && OutLinks(out, list, tail) && NoDup(out) && Elems(out) <= Elems(l)
    ensures nmerges <= 1 <==> |l| <= 2 * n
  {
    hide OutLinks;
  }

  lemma PassUnfold<T>(cmp: Cmp<T>, r: seq<T>, n: nat, p: nat, q: nat)
    requires r != [] && n > 0 && p <= q <= |r|
    requires (p == n || p == |r| < n) && (q == 2 * n || q == |r| < 2 * n)
    ensures Pass(cmp, r, n) == Merge(cmp, r[..p], r[p..q]) + Pass(cmp, r[q..], n)
  {
  }

  lemma Slices<T>(l: seq<T>, i: nat, p: nat, q: nat)
    requires p <= q && i + q <= |l|
    ensures l[i..][..p] == l[i..i + p] && l[i..][p..q] == l[i + p..i + q] && l[i..][q..] == l[i + q..]
  {
  }

  lemma Regroup<T>(a: seq<T>, b: seq<T>, c: seq<T>)
    ensures a + (b + c) == (a + b) + c
  {
  }

  lemma PassAt<T>(cmp: Cmp<T>, l: seq<T>, i: nat, n: nat, s: nat, e: nat)
    requires i < |l| && n > 0 && s == Cut(i, n, |l|) && e == Cut(i, 2 * n, |l|)
    ensures PassFrom(cmp, l, i, n) == MergeAt(cmp, l, i, s, s, e) + PassFrom(cmp, l, e, n)
  {
    hide Pass, Merge, Cut, Min;
    var r, p, q := l[i..], s - i, e - i;
    PassUnfold(cmp, r, n, p, q);
    Slices(l, i, p, q);
  }

  lemma PassStep<T>(cmp: Cmp<T>, l: seq<T>, i: nat, n: nat, out: seq<T>)
    requires i < |l| && n > 0
    ensures var s, e := Cut(i, n, |l|), Cut(i, 2 * n, |l|);
            out + PassFrom(cmp, l, i, n) == (out + MergeAt(cmp, l, i, s, s, e)) + PassFrom(cmp, l, e, n)
  {
    var s, e := Cut(i, n, |l|), Cut(i, 2 * n, |l|);
    PassAt(cmp, l, i, n, s, e);
    hide *;
    Regroup(out, MergeAt(cmp, l, i, s, s, e), PassFrom(cmp, l, e, n));
  }

  /** Closing the output list. */
  method Finish<K, V>(first: Item?<K, V>, last: Item?<K, V>, ghost out: Items<K, V>)
    returns (list: Item<K, V>, tail: Item<K, V>)
    requires out != [] && OutLinks(out, first, last) && NoDup(out)
    modifies Elems(out)`next
    ensures AppLinks(out) && list == out[0] && tail == out[|out| - 1]
  {
    last.next := null;
    list, tail := first, last;
  }

  lemma PassKeepsItems<K, V>(cmp: Cmp<Item<K, V>>, l: Items<K, V>, order: Items<K, V>, n: nat)
    requires n > 0 && multiset(l) == multiset(order)
    ensures multiset(Pass(cmp, l, n)) == multiset(order)
    ensures Elems(l) == Elems(order) && |l| == |order|
  {
    PassItems(cmp, l, n);
    SameItems(l, order);
  }

  lemma SameItems<K, V>(s: Items<K, V>, t: Items<K, V>)
    requires multiset(s) == multiset(t)
    ensures Elems(s) == Elems(t) && |s| == |t|
  {
    assert forall x :: x in s <==> x in multiset(s);
    assert forall x :: x in t <==> x in multiset(t);
    assert |multiset(s)| == |s| && |multiset(t)| == |t|;
  }

  lemma SortFromStep<T>(cmp: Cmp<T>, l: seq<T>, n: nat)
    requires n > 0
    ensures SortFrom(cmp, l, n) == if |l| <= 2 * n then Pass(cmp, l, n) else SortFrom(cmp, Pass(cmp, l, n), 2 * n)
  {
  }

  lemma SortedThread<K, V>(head: Item<K, V>, t: Table<K, V>, l: Items<K, V>, order: Items<K, V>)
    requires multiset(l) == multiset(order) && l != [] && head == l[0] && t.tail == l[|l| - 1] && AppLinks(l)
    requires forall x :: x in order ==> x.tbl == t
    ensures Threaded(head, t, l)
  {
    SameItems(l, order);
    assert forall x :: x in l ==> x in Elems(l);
  }

  lemma SortStart<K, V>(cmp: Cmp<Item<K, V>>, head: Item<K, V>, t: Table<K, V>, order: Items<K, V>)
    requires Threaded(head, t, order)
    ensures order != [] && head == order[0] && AppLinks(order) && SortFrom(cmp, order, 1) == MergeSort(cmp, order)
    ensures forall x :: x in order ==> x.tbl == t
  {
  }

  /** HASH_SRT */
  method Sort<K, V>(cmp: Cmp<Item<K, V>>, head: Item<K, V>, t: Table<K, V>, ghost order: Items<K, V>)
    returns (newHead: Item<K, V>)
    requires Threaded(head, t, order) && NoDup(order)
    modifies t`tail, Elems(order)`next, Elems(order)`prev
    ensures Threaded(newHead, t, MergeSort(cmp, order))
  {
    newHead := head;
    var tail: Item<K, V>;
    var insize, looping := 1, true;
    ghost var l := order;
    hide AppLinks, NoDup, Pass, SortFrom, MergeSort, Threaded;
    SortStart(cmp, head, t, order);
    while looping
      invariant insize > 0 && l != [] && newHead == l[0]
      invariant NoDup(l) && AppLinks(l) && multiset(l) == multiset(order) && |l| == |order|
      invariant looping ==> SortFrom(cmp, l, insize) == MergeSort(cmp, order)
      invariant !looping ==> l == MergeSort(cmp, order) && t.tail == l[|l| - 1]
      decreases looping, |order| - insize
    {
      PassKeepsItems(cmp, l, order, insize);
      SortFromStep(cmp, l, insize);
      var nmerges;
      newHead, tail, nmerges := PassOnce(cmp, newHead, insize, l);
      l := Pass(cmp, l, insize);
      if nmerges <= 1 {
        looping := false;
        t.tail := tail;
      }
      insize := insize * 2;
    }
    SortedThread(newHead, t, l, order);
  }

  // ---------------------------------------------------------------- in-order addition

  /** HASH_AKBI_INNER_LOOP: the first item that compares greater than add, or null. */
  method FindPlace<K, V>(cmp: Cmp<Item<K, V>>, head: Item<K, V>, add: Item<K, V>, ghost order: Items<K, V>)
    returns (iter: Item?<K, V>, ghost k: nat)
    requires order != [] && head == order[0] && AppLinks(order)
    ensures k <= |order| && iter == At(order, k)
    ensures InsertInto(cmp, order, add) == order[..k] + [add] + order[k..]
  {
    iter, k := head, 0;
    while iter != null
      invariant 0 <= k <= |order| && iter == At(order, k)
      invariant InsertInto(cmp, order, add) == order[..k] + InsertInto(cmp, order[k..], add)
      decreases |order| - k
    {
      if cmp(iter, add) > 0 {
        break;
      }
      InsertStep(cmp, order, add, k);
      assert order[k].next == At(order, k + 1);
      iter := iter.next;
      k := k + 1;
    }
    assert order[k..] == [] || order[k..][0] == iter;
  }

  lemma InsertStep<T>(cmp: Cmp<T>, order: seq<T>, add: T, k: nat)
    requires k < |order| && cmp(order[k], add) <= 0
    ensures order[..k] + InsertInto(cmp, order[k..], add) == order[..k + 1] + InsertInto(cmp, order[k + 1..], add)
  {
    assert order[k..][1..] == order[k + 1..];
    assert order[..k + 1] == order[..k] + [order[k]];
  }

  /** Linking add in front of iter. */
  method LinkBefore<K, V>(head: Item<K, V>, iter: Item<K, V>, add: Item<K, V>, ghost order: Items<K, V>, ghost k: nat)
    returns (newHead: Item<K, V>)
    requires AppLinks(order) && NoDup(order) && add !in order && k < |order| && iter == order[k] && head == order[0]
    modifies add`next, add`prev, Elems(order)`next, Elems(order)`prev
    ensures AppLinks(order[..k] + [add] + order[k..])
    ensures newHead == if k == 0 then add else order[0]
  {
    newHead := head;
    assert order[k].prev == At(order, k - 1);
    add.next := iter;
    add.prev := iter.prev;
    if add.prev != null {
      add.prev.next := add;
    } else {
      newHead := add;
    }
    iter.prev := add;
    assert forall o {:trigger order[o].next} :: 0 <= o < |order| && o + 1 != k ==> order[o].next == At(order, o + 1);
    assert forall o {:trigger order[o].prev} :: 0 <= o < |order| && o != k ==> order[o].prev == At(order, o - 1);
    AppSpliced(order, k, add);
  }

  lemma AppSpliced<K, V>(order: Items<K, V>, k: nat, add: Item<K, V>)
    requires k < |order|
    requires forall o {:trigger order[o].next} :: 0 <= o < |order| && o + 1 != k ==> order[o].next == At(order, o + 1)
    requires forall o {:trigger order[o].prev} :: 0 <= o < |order| && o != k ==> order[o].prev == At(order, o - 1)
    requires order[k].prev == add && add.next == order[k] && add.prev == At(order, k - 1)
    requires k > 0 ==> order[k - 1].next == add
    ensures AppLinks(order[..k] + [add] + order[k..])
  {
    var r := order[..k] + [add] + order[k..];
    forall i | 0 <= i < |r|
      ensures r[i].next == At(r, i + 1) && r[i].prev == At(r, i - 1)
    {
      if i != k {
        var o := if i < k then i else i - 1;
        assert r[i] == order[o];
      }
    }
  }

  /** The application-order half of the in-order HASH_ADD, on a table that exists. */
  method LinkInOrder<K, V>(cmp: Cmp<Item<K, V>>, head: Item<K, V>, t: Table<K, V>, add: Item<K, V>,
                           ghost order: Items<K, V>)
    returns (newHead: Item<K, V>)
    requires Threaded(head, t, order) && NoDup(order) && add !in order
    modifies t`tail, add`tbl, add`next, add`prev, Elems(order)`next, Elems(order)`prev
    ensures Threaded(newHead, t, InsertInto(cmp, order, add))
  {
    InsertMembers(cmp, order, add);
    newHead := head;
    add.tbl := t;
    var iter;
    ghost var k;
    iter, k := FindPlace(cmp, head, add, order);
    if iter != null {
      newHead := LinkBefore(head, iter, add, order, k);
    } else {
      assert order[..k] + [add] + order[k..] == order + [add];
      AppendList(t, add, order);
    }
  }
}
