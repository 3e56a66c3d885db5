/** When the hash index grows, how it judges its expansions, and when it gives up on them. */
module HashPolicy {
  import opened Options
  import opened Seqs
  import opened BitOps
  import opened HashTypes
  import opened HashModel
  import opened HashOrder
  import opened HashTable
  import opened HashRuns

  /** The items beyond the first `ideal` of their chain. */
  ghost function Surplus<K, V>(chains: seq<Items<K, V>>, ideal: nat): nat {
    if chains == [] then 0
    else (if |chains[0]| > ideal then |chains[0]| - ideal else 0) + Surplus(chains[1..], ideal)
  }

  /** expand_mult of a chain: how often it holds the ideal length, zero if it does not exceed it. */
  ghost predicate Multiplied(count: nat, mult: nat, ideal: nat) {
    if count <= ideal then mult == 0 else mult * ideal <= count < (mult + 1) * ideal
  }

  /** The table after an expansion: twice the buckets, the smallest ideal length that would hold all items,
      and a judgement. Two poor expansions in a row are the last. */
  ghost predicate Doubled<K, V>(m: Model<K, V>, m': Model<K, V>) {
    && |m'.chains| == |m'.mults| == 2 * |m.chains| > 0 && m'.lg == m.lg + 1
    && IsCeiling(|m'.order|, |m'.chains|, m'.ideal)
    && (forall j :: 0 <= j < |m'.chains| ==> Multiplied(|m'.chains[j]|, m'.mults[j], m'.ideal))
    && m'.nonideal == Surplus(m'.chains, m'.ideal)
    && m'.ineff == (if 2 * m'.nonideal > |m'.order| then m.ineff + 1 else 0)
    && (m'.noexpand <==> m.noexpand || m'.ineff > 1)
  }

  /** Nothing about the policy has changed. */
  ghost predicate SamePolicy<K, V>(m: Model<K, V>, m': Model<K, V>) {
    && |m'.chains| == |m.chains| && m'.mults == m.mults && m'.lg == m.lg && m'.ideal == m.ideal
    && m'.nonideal == m.nonideal && m'.ineff == m.ineff && m'.noexpand == m.noexpand
  }

  /** The addition fills a chain up to ten times (expand_mult + 1), and the table may still grow. */
  ghost predicate Fills<K, V>(h: K -> nat, m: Model<K, V>, op: Op<K, V>)
    requires |m.chains| == |m.mults| > 0
  {
    op.AddOp? && !m.noexpand &&
    var b := h(op.x.key) % |m.chains|;
    |m.chains[b]| + 1 >= 10 * (m.mults[b] + 1)
  }

  lemma {:induction false} SurplusIs<K, V>(chains: seq<Items<K, V>>, ideal: nat)
    ensures Surplus(chains, ideal) == Sum(Excesses(chains, ideal))
  {
    if chains != [] {
      SurplusIs(chains[1..], ideal);
      assert Excesses(chains, ideal)[1..] == Excesses(chains[1..], ideal);
    }
  }

  lemma MultipliedBy(count: nat, ideal: nat)
    requires ideal > 0
    ensures Multiplied(count, MultFor(count, ideal), ideal)
  {
    var q := count / ideal;
    assert q * ideal <= count < (q + 1) * ideal;
  }

  lemma ExpandDoubles<K, V>(h: K -> nat, m: Model<K, V>)
    requires |m.order| > 0 && |m.chains| > 0
    ensures Doubled(m, Expand(h, m)) && Expand(h, m).order == m.order
  {
    var e := Expand(h, m);
    CeilingByDivision(|m.order|, 2 * |m.chains|);
    CeilDivPositive(|m.order|, 2 * |m.chains|);
    SurplusIs(e.chains, e.ideal);
    hide Surplus, Sum, Redistribute, IsCeiling, CeilDiv;
    forall j | 0 <= j < |e.chains|
      ensures Multiplied(|e.chains[j]|, e.mults[j], e.ideal)
    {
      MultipliedBy(|e.chains[j]|, e.ideal);
    }
    hide MultFor, Multiplied;
  }

  /** An operation makes the table grow exactly when it is an addition that fills a chain; every other one
      leaves the policy as it was. */
  lemma GrowsExactly<K, V>(h: K -> nat, t: Index<K, V>, d: Dictionary<K, V>, op: Op<K, V>)
    requires Represents(h, t, d) && Legal(d, op) && t.HasTable? && Apply(h, t, op).HasTable?
    ensures |t.m.chains| == |t.m.mults| > 0
    ensures var m' := Apply(h, t, op).m; if Fills(h, t.m, op) then Doubled(t.m, m') else SamePolicy(t.m, m')
  {
    hide Inv, UniqueKeys, Matched, MergeSort, OrderWith, Doubled, AddBy, Delete, Without;
    SizesAgree(h, t);
    if op.AddOp? {
      AddGrows(h, t, op);
    } else if op.DeleteOp? {
      DeleteKeepsPolicy(h, t, op.x);
    }
  }

  lemma SizesAgree<K, V>(h: K -> nat, t: Index<K, V>)
    requires Inv(h, t) && t.HasTable?
    ensures |t.m.chains| == |t.m.mults| > 0 && |t.m.order| > 0
  {
  }

  lemma AddGrows<K, V>(h: K -> nat, t: Index<K, V>, op: Op<K, V>)
    requires t.HasTable? && |t.m.chains| == |t.m.mults| > 0 && op.AddOp?
    ensures var t' := AddBy(h, op.cmp, t, op.x);
      t'.HasTable? && if Fills(h, t.m, op) then Doubled(t.m, t'.m) else SamePolicy(t.m, t'.m)
  {
    var m := t.m.(order := OrderWith(op.cmp, t.m.order, op.x));
    OrderGrows(op.cmp, t.m.order, op.x);
    ExpandDoubles(h, Pushed(h, m, op.x));
    hide Expand, OrderWith, Grown, IsCeiling, Multiplied, Surplus;
  }

  lemma DeleteKeepsPolicy<K, V>(h: K -> nat, t: Index<K, V>, x: Item<K, V>)
    requires t.HasTable? && |t.m.chains| > 0 && Delete(h, t, x).HasTable?
    ensures SamePolicy(t.m, Delete(h, t, x).m)
  {
    hide Without;
  }

  /** The first addition makes a table of 32 buckets with nothing to judge. */
  lemma FirstTable<K, V>(h: K -> nat, d: Dictionary<K, V>, op: Op<K, V>)
    requires Represents(h, NoTable, d) && Legal(d, op) && Apply(h, NoTable, op).HasTable?
    ensures op.AddOp?
    ensures var m := Apply(h, NoTable, op).m;
      && |m.chains| == |m.mults| == 32 && m.lg == 5 && m.ineff == 0 && !m.noexpand
      && forall j :: 0 <= j < 32 ==> m.mults[j] == 0
  {
    if op.AddOp? {
      MakeTableIs(h, op.x);
      hide MakeTable;
    }
  }

  // ---------------------------------------------------------------- verdicts over a run

  /** More than half of the items are beyond the ideal length. */
  ghost predicate Poor<K, V>(m: Model<K, V>) {
    exists c :: IsCeiling(|m.order|, |m.chains|, c) && 2 * Surplus(m.chains, c) > |m.order|
  }

  lemma CeilingUnique(n: nat, d: nat, a: nat, b: nat)
    requires d > 0 && IsCeiling(n, d, a) && IsCeiling(n, d, b)
    ensures a == b
  {
    MulMonotone(a, b - 1, d);
    MulMonotone(b, a - 1, d);
  }

  lemma PoorIs<K, V>(m: Model<K, V>)
    requires |m.chains| > 0 && IsCeiling(|m.order|, |m.chains|, m.ideal)
    ensures Poor(m) <==> 2 * Surplus(m.chains, m.ideal) > |m.order|
  {
    if Poor(m) {
      var c :| IsCeiling(|m.order|, |m.chains|, c) && 2 * Surplus(m.chains, c) > |m.order|;
      CeilingUnique(|m.order|, |m.chains|, c, m.ideal);
    }
  }

  /** One more verdict if the table has grown; a new table starts without any. */
  ghost function Judge<K, V>(verdicts: seq<bool>, t: Index<K, V>, t': Index<K, V>): seq<bool> {
    if t.NoTable? || t'.NoTable? then []
    else if |t'.m.chains| > |t.m.chains| then verdicts + [Poor(t'.m)]
    else verdicts
  }

  /** The expansions of the present table, in order: was it a poor one? */
  ghost function Verdicts<K, V>(h: K -> nat, t: Index<K, V>, d: Dictionary<K, V>, ops: seq<Op<K, V>>,
                                before: seq<bool>): seq<bool>
    requires Represents(h, t, d) && LegalRun(d, ops)
    decreases |ops|
  {
    if |ops| == 0 then before else
      StepRefines(h, t, d, ops[0]);
      var t' := Apply(h, t, ops[0]);
      Verdicts(h, t', DictApply(d, ops[0]), ops[1..], Judge(before, t, t'))
  }

  ghost predicate TwiceAtEnd(v: seq<bool>) {
    |v| >= 2 && v[|v| - 1] && v[|v| - 2]
  }

  ghost predicate JudgedBy<K, V>(t: Index<K, V>, v: seq<bool>) {
    t.HasTable? ==>
      && (t.m.ineff > 0 <==> |v| >= 1 && v[|v| - 1])
      && (t.m.noexpand <==> TwiceAtEnd(v))
  }

  lemma DoubledJudged<K, V>(m: Model<K, V>, m': Model<K, V>, v: seq<bool>)
    requires Doubled(m, m') && !m.noexpand && JudgedBy(HasTable(m), v)
    ensures JudgedBy(HasTable(m'), v + [Poor(m')]) && |m'.chains| > |m.chains|
  {
    hide Poor, IsCeiling, Surplus, Multiplied;
    PoorIs(m');
  }

  lemma StepJudged<K, V>(h: K -> nat, t: Index<K, V>, d: Dictionary<K, V>, op: Op<K, V>, v: seq<bool>)
    requires Represents(h, t, d) && Legal(d, op) && JudgedBy(t, v)
    ensures JudgedBy(Apply(h, t, op), Judge(v, t, Apply(h, t, op)))
  {
    hide Represents, Inv, Legal, Doubled, Poor;
    var t' := Legally(h, t, d, op);
    if t'.HasTable? {
      if t.NoTable? {
        FirstTable(h, d, op);
      } else {
        GrowsExactly(h, t, d, op);
        if Fills(h, t.m, op) {
          DoubledJudged(t.m, t'.m, v);
        }
      }
    }
    hide Apply, TwiceAtEnd;
  }

  lemma Legally<K, V>(h: K -> nat, t: Index<K, V>, d: Dictionary<K, V>, op: Op<K, V>) returns (t': Index<K, V>)
    requires Represents(h, t, d) && Legal(d, op)
    ensures Inv(h, t) && (op.DeleteOp? ==> t.HasTable?) && t' == Apply(h, t, op)
  {
    t' := Apply(h, t, op);
    hide Inv, Apply;
  }

  lemma {:induction false} RunJudged<K, V>(h: K -> nat, t: Index<K, V>, d: Dictionary<K, V>, ops: seq<Op<K, V>>,
                                           v: seq<bool>)
    requires Represents(h, t, d) && LegalRun(d, ops) && JudgedBy(t, v)
    ensures JudgedBy(Run(h, t, d, ops), Verdicts(h, t, d, ops, v))
    decreases |ops|
  {
    hide Represents, Legal, Inv, Apply, JudgedBy, Judge, DictApply;
    if |ops| != 0 {
      StepRefines(h, t, d, ops[0]);
      StepJudged(h, t, d, ops[0], v);
      var t' := Legally(h, t, d, ops[0]);
      RunJudged(h, t', DictApply(d, ops[0]), ops[1..], Judge(v, t, t'));
    }
  }

  /** Over every run from the empty index: expansion is inhibited exactly when the last two expansions of
      the table were poor. */
  lemma StopsExactly<K, V>(h: K -> nat, ops: seq<Op<K, V>>)
    requires LegalRun(Dictionary(map[], []), ops)
    ensures Represents<K, V>(h, NoTable, Dictionary(map[], []))
    ensures var t := Run(h, NoTable, Dictionary(map[], []), ops);
            var v := Verdicts(h, NoTable, Dictionary(map[], []), ops, []);
            t.HasTable? ==> (t.m.noexpand <==> |v| >= 2 && v[|v| - 1] && v[|v| - 2])
  {
    RunJudged(h, NoTable, Dictionary(map[], []), ops, []);
    hide Represents, LegalRun, Run, Verdicts;
  }

  ghost predicate TwiceInARow(v: seq<bool>) {
    exists i :: 0 <= i < |v| - 1 && v[i] && v[i + 1]
  }

  /** So while no two expansions in a row are poor the load bounds hold, come what may. */
  lemma LoadUnlessPoor<K, V>(h: K -> nat, ops: seq<Op<K, V>>)
    requires LegalRun(Dictionary(map[], []), ops)
    requires Represents<K, V>(h, NoTable, Dictionary(map[], []))
    requires !TwiceInARow(Verdicts(h, NoTable, Dictionary(map[], []), ops, []))
    ensures var t := Run(h, NoTable, Dictionary(map[], []), ops);
            t.HasTable? ==>
              && |t.m.mults| == |t.m.chains|
              && |t.m.order| <= 20 * |t.m.chains|
              && forall j :: 0 <= j < |t.m.chains| ==> |t.m.chains[j]| <= 10 * (t.m.mults[j] + 1)
  {
    StopsExactly(h, ops);
    LoadAfterRun(h, ops);
    hide Represents, LegalRun, Run, Verdicts, Sum, Pow2, TwiceInARow;
    var v := Verdicts(h, NoTable, Dictionary(map[], []), ops, []);
    NotTwice(v);
  }

  lemma NotTwice(v: seq<bool>)
    requires !TwiceInARow(v)
    ensures !(|v| >= 2 && v[|v| - 1] && v[|v| - 2])
  {
    if |v| >= 2 {
      var i := |v| - 2;
      assert !(v[i] && v[i + 1]);
    }
  }
}
