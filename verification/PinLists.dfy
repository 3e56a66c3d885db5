/** The pin lists of the event loop: partition by edge while iterating, splice back on exit, and the
    removal loops that run over the same kind of list. */
module PinLists {
  import opened Options
  import opened Seqs
  import opened ListHead

  datatype Edge = Rising | Falling | Both | Polled | EdgeMax

  datatype Pin = Pin(name: string, edge: Edge)

  /** A list of pins: every node is embedded in one. */
  ghost predicate Pins(s: Links<Pin>) {
    forall x :: x in s ==> x.entry.Some?
  }

  predicate Interrupt(x: Link<Pin>) {
    x.entry.Some? && (x.entry.value.edge.Both? || x.entry.value.edge.Falling? || x.entry.value.edge.Rising?)
  }

  predicate Sampled(x: Link<Pin>) {
    !Interrupt(x)
  }

  ghost function Interrupts(s: Links<Pin>): Links<Pin> {
    Filter(x => Interrupt(x), s)
  }

  ghost function Samples(s: Links<Pin>): Links<Pin> {
    Filter(x => Sampled(x), s)
  }

  /** Three lists with no node in common. */
  ghost predicate Apart(gp: Link<Pin>, s: Links<Pin>, i: Link<Pin>, a: Links<Pin>, p: Link<Pin>, b: Links<Pin>) {
    Disjoint(gp, s, i, a) && Disjoint(gp, s, p, b) && Disjoint(i, a, p, b)
  }

  /** What is true after n pins of s have been moved. */
  ghost predicate Parted(gp: Link<Pin>, i: Link<Pin>, p: Link<Pin>, s: Links<Pin>, n: nat)
    requires n <= |s|
    reads gp, i, p, Elems(s[n..]), Elems(Interrupts(s[..n])), Elems(Samples(s[..n]))
  {
    && Ring(gp, s[n..]) && Ring(i, Interrupts(s[..n])) && Ring(p, Samples(s[..n]))
    && Apart(gp, s[n..], i, Interrupts(s[..n]), p, Samples(s[..n]))
  }

  /** The loop at the start of `loop`: list_for_each_safe over gp_list, moving every pin to the tail
      of i_list or p_list. */
  method Partition(gp: Link<Pin>, i: Link<Pin>, p: Link<Pin>, ghost s: Links<Pin>)
    requires Pins(s) && Ring(gp, s) && Ring(i, []) && Ring(p, [])
    requires Apart(gp, s, i, [], p, [])
    modifies gp, i, p, Elems(s)
    ensures Ring(gp, []) && Ring(i, Interrupts(s)) && Ring(p, Samples(s))
    ensures Apart(gp, [], i, Interrupts(s), p, Samples(s)) && ByEdge(s, Samples(s), Interrupts(s))
  {
    SplitByEdge(s);
    hide ByEdge;
    var pos := gp.next;
    var tmp := pos.next;
    ghost var n := 0;
    assert s[0..] == s && s[..0] == [];
    while pos != gp
      invariant n <= |s| && Parted(gp, i, p, s, n)
      invariant pos == At(gp, s, n) && (n < |s| ==> tmp == At(gp, s, n + 1))
      decreases |s| - n
    {
      assert s[n] in s;
      MoveOne(pos, gp, i, p, s, n);
      pos := tmp;
      n := n + 1;
      NextOf(gp, s, n);
      tmp := pos.next;
    }
    assert n == |s| && s[n..] == [] && s[..n] == s;
  }

  lemma NextOf(gp: Link<Pin>, s: Links<Pin>, n: nat)
    requires n <= |s| && Ring(gp, s[n..])
    ensures n < |s| ==> s[n].next == At(gp, s, n + 1)
    ensures At(gp, s, n).next != null
  {
    if n < |s| {
      assert s[n..][0] == s[n];
      assert n + 1 < |s| ==> s[n..][1] == s[n + 1];
    }
  }

  /** After k pins have been taken off the front, the next one sits first. */
  lemma Advance(s: Links<Pin>, n: nat)
    requires n < |s|
    ensures s[n..][0] == s[n] && Cut(s[n..], 0) == s[n + 1..]
    ensures Interrupts(s[..n + 1]) == Interrupts(s[..n]) + if Interrupt(s[n]) then [s[n]] else []
    ensures Samples(s[..n + 1]) == Samples(s[..n]) + if Interrupt(s[n]) then [] else [s[n]]
    ensures forall x :: x in Interrupts(s[..n]) ==> x in Elems(s)
    ensures forall x :: x in Samples(s[..n]) ==> x in Elems(s)
    ensures forall k :: 0 <= k < |s| ==> s[k] in Elems(s)
  {
    FilterMembers(x => Interrupt(x), s[..n]);
    FilterMembers(x => Sampled(x), s[..n]);
    FilterLast(x => Interrupt(x), s, n);
    FilterLast(x => Sampled(x), s, n);
  }

  /** No node of one of three lists is the head of, or a node of, another. */
  lemma Others(gp: Link<Pin>, s: Links<Pin>, i: Link<Pin>, a: Links<Pin>, p: Link<Pin>, b: Links<Pin>)
    requires Apart(gp, s, i, a, p, b)
    ensures gp != i && gp != p && i != p
    ensures forall x :: x in s ==> x != i && x != p && x !in a && x !in b
    ensures forall x :: x in a ==> x != gp && x != p && x !in s && x !in b
    ensures forall x :: x in b ==> x != gp && x != i && x !in s && x !in a
  {
    assert gp in {gp} + Elems(s) && i in {i} + Elems(a) && p in {p} + Elems(b);
    assert forall x :: x in s ==> x in {gp} + Elems(s);
    assert forall x :: x in a ==> x in {i} + Elems(a);
    assert forall x :: x in b ==> x in {p} + Elems(b);
  }

  /** list_move_tail of the first pin of one list, seen from three lists. */
  method MoveFirst(pos: Link<Pin>, gp: Link<Pin>, i: Link<Pin>, p: Link<Pin>, ghost r: Links<Pin>,
                   ghost a: Links<Pin>, ghost b: Links<Pin>)
    requires r != [] && pos == r[0] && Ring(gp, r) && Ring(i, a) && Ring(p, b) && Apart(gp, r, i, a, p, b)
    modifies gp, i, Elems(r), Elems(a)
    ensures Ring(gp, r[1..]) && Ring(i, a + [pos]) && Ring(p, b) && Apart(gp, r[1..], i, a + [pos], p, b)
  {
    assert NoDup(r) && gp !in r;
    hide Ring, NoDup, Cut;
    FirstFacts(gp, r, i, a, p, b);
    MoveTail(pos, i, a, gp, r, 0);
  }

  lemma FirstFacts(gp: Link<Pin>, r: Links<Pin>, i: Link<Pin>, a: Links<Pin>, p: Link<Pin>, b: Links<Pin>)
    requires r != [] && NoDup(r) && gp !in r && Apart(gp, r, i, a, p, b)
    ensures Cut(r, 0) == r[1..] && Apart(gp, r[1..], i, a + [r[0]], p, b)
    ensures At(gp, r, -1) == gp && r[0] in Elems(r)
    ensures At(gp, r, 1) in {gp} + Elems(r) && At(i, a, |a| - 1) in {i} + Elems(a)
    ensures ({gp, i} + Elems(r) + Elems(a)) !! ({p} + Elems(b))
  {
    MoveFacts(gp, r, 0, i, a);
    assert r[0] in Elems(r);
    assert forall x :: x in Elems(r[1..]) ==> x in Elems(r);
    assert forall x :: x in Elems(a + [r[0]]) ==> x in Elems(a) || x == r[0];
  }

  method MoveOne(pos: Link<Pin>, gp: Link<Pin>, i: Link<Pin>, p: Link<Pin>, ghost s: Links<Pin>, ghost n: nat)
    requires n < |s| && pos == s[n] && pos.entry.Some?
    requires Parted(gp, i, p, s, n)
    modifies gp, i, p, Elems(s)
    ensures Parted(gp, i, p, s, n + 1)
  {
    Advance(s, n);
    ghost var a, b, r := Interrupts(s[..n]), Samples(s[..n]), s[n..];
    ghost var a', b', r' := Interrupts(s[..n + 1]), Samples(s[..n + 1]), s[n + 1..];
    assert Elems(r) <= Elems(s) && Elems(a) <= Elems(s) && Elems(b) <= Elems(s);
    assert r[1..] == r';
    assert Interrupt(pos) ==> a' == a + [pos] && b' == b;
    assert !Interrupt(pos) ==> a' == a && b' == b + [pos];
    ghost var edge := pos.entry.value.edge;
    assert Interrupt(pos) <==> edge.Both? || edge.Falling? || edge.Rising?;
    hide Interrupts, Samples, Ring, Apart, Interrupt;
    match pos.entry.value.edge
    case Both | Falling | Rising =>
      MoveFirst(pos, gp, i, p, r, a, b);
    case Polled | EdgeMax =>
      ApartSwap(gp, r, i, a, p, b);
      MoveFirst(pos, gp, p, i, r, b, a);
      ApartSwap(gp, r', p, b', i, a');
  }

  lemma ApartSwap(gp: Link<Pin>, s: Links<Pin>, i: Link<Pin>, a: Links<Pin>, p: Link<Pin>, b: Links<Pin>)
    requires Apart(gp, s, i, a, p, b)
    ensures Apart(gp, s, p, b, i, a)
  {
  }

  // ---------------------------------------------------------------- leaving the loop

  /** The `splice_lists` exit: both lists go back to the front of gp_list. The two heads keep their
      old links, so i_list and p_list are no longer lists once they held a pin. */
  method SpliceBack(gp: Link<Pin>, i: Link<Pin>, p: Link<Pin>, ghost r: Links<Pin>, ghost a: Links<Pin>,
                    ghost b: Links<Pin>)
    requires Ring(gp, r) && Ring(i, a) && Ring(p, b) && Apart(gp, r, i, a, p, b)
    modifies gp, Elems(r), Elems(a), Elems(b)
    ensures Ring(gp, b + (a + r))
    ensures a != [] ==> i.next == a[0] && a[0].prev != i
    ensures b != [] ==> p.next == b[0] && b[0].prev != p
  {
    Others(gp, r, i, a, p, b);
    InElems(r);
    InElems(a);
    InElems(b);
    ghost var ar := a + r;
    assert forall x :: x in Elems(ar) ==> x in Elems(a) || x in Elems(r);
    assert forall x :: x in ar ==> x != p;
    assert Disjoint(p, b, gp, ar);
    ghost var bar := b + ar;
    assert forall k :: 0 <= k < |a| ==> bar[|b| + k] == a[k];
    assert forall k :: 0 <= k < |b| ==> bar[k] == b[k];
    hide NoDup;
    Splice(i, gp, a, r);
    assert Ring(p, b) && Ring(gp, ar);
    Splice(p, gp, b, ar);
    assert i !in bar && p !in bar && Ring(gp, bar);
  }

  lemma InElems(s: Links<Pin>)
    ensures forall k :: 0 <= k < |s| ==> s[k] in Elems(s)
  {
  }

  /** What every run of `loop` does to the pin lists: sampled pins first, then interrupt pins, each in
      their old order, and no pin lost or doubled. */
  method LoopLists(gp: Link<Pin>, i: Link<Pin>, p: Link<Pin>, ghost s: Links<Pin>)
    requires Pins(s) && Ring(gp, s) && Ring(i, []) && Ring(p, [])
    requires Apart(gp, s, i, [], p, [])
    modifies gp, i, p, Elems(s)
    ensures Ring(gp, Samples(s) + Interrupts(s))
    ensures multiset(Samples(s) + Interrupts(s)) == multiset(s) && ByEdge(s, Samples(s), Interrupts(s))
  {
    SplitByEdge(s);
    hide ByEdge;
    SplitPermutes(s);
    SplitWithin(s);
    Partition(gp, i, p, s);
    ghost var a, b := Interrupts(s), Samples(s);
    assert b + (a + []) == b + a;
    hide Interrupts, Samples, Ring, Apart;
    SpliceBack(gp, i, p, [], a, b);
  }

  lemma SplitWithin(s: Links<Pin>)
    ensures Elems(Interrupts(s)) <= Elems(s) && Elems(Samples(s)) <= Elems(s)
  {
    FilterMembers(x => Interrupt(x), s);
    FilterMembers(x => Sampled(x), s);
  }

  /** Which pins end up in which list: those with an edge to wait for in i, all others in p. */
  ghost predicate ByEdge(s: Links<Pin>, p: Links<Pin>, i: Links<Pin>) {
    && Pins(s)
    && (forall x :: x in p ==> x in s) && (forall x :: x in i ==> x in s)
    && (forall x :: x in s ==> (x in p <==> x.entry.value.edge in {Polled, EdgeMax}))
    && (forall x :: x in s ==> (x in i <==> x.entry.value.edge in {Rising, Falling, Both}))
  }

  lemma SplitByEdge(s: Links<Pin>)
    requires Pins(s)
    ensures ByEdge(s, Samples(s), Interrupts(s))
  {
    FilterMembers(x => Interrupt(x), s);
    FilterMembers(x => Sampled(x), s);
  }

  /** The two filters share out the list. */
  lemma {:induction false} SplitPermutes(s: Links<Pin>)
    ensures multiset(Samples(s) + Interrupts(s)) == multiset(s)
  {
    if s != [] {
      SplitPermutes(s[1..]);
      assert s == [s[0]] + s[1..];
      assert multiset(s) == multiset{s[0]} + multiset(s[1..]);
    }
  }

  // ---------------------------------------------------------------- removal while iterating

  /** What is left of a ring after its first n nodes have been looked at. */
  ghost function Left<T>(keep: Link<T> -> bool, s: Links<T>, n: nat): Links<T>
    requires n <= |s|
  {
    Filter(keep, s[..n]) + s[n..]
  }

  ghost function Kept<T>(keep: Link<T> -> bool, s: Links<T>, n: nat): nat
    requires n <= |s|
  {
    |Filter(keep, s[..n])|
  }

  /** list_for_each_safe with list_del in its body: the nodes not to be kept leave the ring, the
      others stay in order. */
  method RemoveWhere<T>(head: Link<T>, keep: Link<T> -> bool, ghost s: Links<T>)
    requires Ring(head, s)
    modifies head, Elems(s)
    ensures Ring(head, Filter(keep, s))
    ensures forall k :: 0 <= k < |s| && !keep(s[k]) ==> s[k].next == null && s[k].prev == null
  {
    var pos := head.next;
    LeftEnds(keep, s);
    ghost var n := 0;
    LeftNext(head, keep, s, 0);
    var tmp := pos.next;
    assert NoDup(s) && head !in s;
    hide Left, Ring, NoDup;
    while pos != head
      invariant n <= |s| && Ring(head, Left(keep, s, n))
      invariant pos == At(head, s, n) && (n < |s| ==> tmp == At(head, s, n + 1))
      invariant Gone(keep, s, n)
      decreases |s| - n
    {
      RemoveOne(pos, head, keep, s, n);
      pos := tmp;
      n := n + 1;
      LeftNext(head, keep, s, n);
      tmp := pos.next;
    }
  }

  ghost predicate Gone<T>(keep: Link<T> -> bool, s: Links<T>, n: nat)
    requires n <= |s|
    reads Elems(s)
  {
    forall k :: 0 <= k < n && !keep(s[k]) ==> s[k].next == null && s[k].prev == null
  }

  lemma LeftEnds<T>(keep: Link<T> -> bool, s: Links<T>)
    ensures Left(keep, s, 0) == s && Left(keep, s, |s|) == Filter(keep, s)
  {
    assert s[..|s|] == s;
  }

  method RemoveOne<T>(pos: Link<T>, head: Link<T>, keep: Link<T> -> bool, ghost s: Links<T>, ghost n: nat)
    requires NoDup(s) && head !in s && n < |s| && pos == s[n] && Ring(head, Left(keep, s, n)) && Gone(keep, s, n)
    modifies head, Elems(s)
    ensures Ring(head, Left(keep, s, n + 1))
    ensures Gone(keep, s, n + 1)
  {
    hide Left, Kept, Cut, NoDup, Ring;
    RemoveFacts(head, keep, s, n);
    if !keep(pos) {
      Del(pos, head, Left(keep, s, n), Kept(keep, s, n));
    }
  }

  lemma RemoveFacts<T>(head: Link<T>, keep: Link<T> -> bool, s: Links<T>, n: nat)
    requires NoDup(s) && head !in s && n < |s|
    ensures var l, m := Left(keep, s, n), Kept(keep, s, n);
      && m < |l| && l[m] == s[n] && s[n] in Elems(s)
      && At(head, l, m - 1) in {head} + Elems(s) && At(head, l, m + 1) in {head} + Elems(s)
      && (forall k :: 0 <= k < n && !keep(s[k]) ==>
            s[k] != l[m] && s[k] != At(head, l, m - 1) && s[k] != At(head, l, m + 1))
      && Left(keep, s, n + 1) == if !keep(s[n]) then Cut(l, m) else l
  {
    LeftAt(keep, s, n);
    LeftStep(keep, s, n);
    var l, m := Left(keep, s, n), Kept(keep, s, n);
    assert forall k :: 0 <= k < |l| ==> l[k] in l && l[k] in Elems(s);
    assert forall k :: 0 <= k < |s| ==> s[k] in s;
    hide Left, Kept, Cut, NoDup;
  }

  lemma LeftAt<T>(keep: Link<T> -> bool, s: Links<T>, n: nat)
    requires NoDup(s) && n < |s|
    ensures var l, m := Left(keep, s, n), Kept(keep, s, n); m < |l| && l[m] == s[n]
    ensures forall x :: x in Left(keep, s, n) ==> x in Elems(s)
    ensures forall k :: 0 <= k < n && !keep(s[k]) ==> s[k] !in Left(keep, s, n)
  {
    FilterMembers(keep, s[..n]);
  }

  lemma LeftStep<T>(keep: Link<T> -> bool, s: Links<T>, n: nat)
    requires n < |s|
    ensures Kept(keep, s, n) < |Left(keep, s, n)|
    ensures Left(keep, s, n + 1) == if !keep(s[n]) then Cut(Left(keep, s, n), Kept(keep, s, n)) else Left(keep, s, n)
  {
    FilterLast(keep, s, n);
  }

  lemma LeftNext<T>(head: Link<T>, keep: Link<T> -> bool, s: Links<T>, n: nat)
    requires NoDup(s) && n <= |s| && Ring(head, Left(keep, s, n))
    ensures n < |s| ==> s[n].next == At(head, s, n + 1)
    ensures At(head, s, n).next != null
  {
    if n < |s| {
      LeftAt(keep, s, n);
      var l, m := Left(keep, s, n), Kept(keep, s, n);
      assert l[m].next == At(head, l, m + 1);
    }
  }

  /** init_gpio_pins: the pins whose init returns -1 are unlinked (and freed). */
  method InitGpioPins(gp: Link<Pin>, init: Link<Pin> -> int, ghost s: Links<Pin>)
    requires Ring(gp, s)
    modifies gp, Elems(s)
    ensures Ring(gp, Filter((x: Link<Pin>) => init(x) != -1, s))
  {
    var keep := (x: Link<Pin>) => init(x) != -1;
    RemoveWhere(gp, keep, s);
    SameFilter(keep, (x: Link<Pin>) => init(x) != -1, s);
  }

  /** freeHook on an argument list, and freeTabs on a hook list: nothing is left. */
  method FreeAll<T>(head: Link<T>, ghost s: Links<T>)
    requires Ring(head, s)
    modifies head, Elems(s)
    ensures Ring(head, [])
    ensures forall k :: 0 <= k < |s| ==> s[k].next == null && s[k].prev == null
  {
    var keep := (x: Link<T>) => false;
    RemoveWhere(head, keep, s);
    FilterNone(keep, s);
  }
}
