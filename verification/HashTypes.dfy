/** The three structures of the hash index: the handle embedded in every item, one bucket, and
    the table that all handles share. */
module HashTypes {

  /** An element together with its embedded hash handle. `prev`/`next` thread the items in
      application order, `hhPrev`/`hhNext` thread the chain of one bucket. */
  class Item<K(==), V> {
    const key: K
    const value: V
    var hashv: nat
    var tbl: Table?<K, V>
    var prev: Item?<K, V>
    var next: Item?<K, V>
    var hhPrev: Item?<K, V>
    var hhNext: Item?<K, V>

    constructor (key: K, value: V)
      ensures this.key == key && this.value == value
    {
      this.key, this.value := key, value;
      hashv, tbl, prev, next, hhPrev, hhNext := 0, null, null, null, null, null;
    }
  }

  datatype Bucket<K(==), V> = Bucket(hhHead: Item?<K, V>, count: nat, expandMult: nat)

  class Table<K(==), V> {
    var buckets: array<Bucket<K, V>>
    var numBuckets: nat
    var log2NumBuckets: nat
    var numItems: nat
    var tail: Item<K, V>
    var idealChainMaxlen: nat
    var nonidealItems: nat
    var ineffExpands: nat
    var noexpand: bool

    /** HASH_MAKE_TABLE: a zeroed table of 32 empty buckets whose tail is the first item. */
    constructor (first: Item<K, V>)
      ensures fresh(buckets) && tail == first
      ensures buckets.Length == numBuckets == 32 && log2NumBuckets == 5
      ensures forall j :: 0 <= j < buckets.Length ==> buckets[j] == Bucket(null, 0, 0)
      ensures numItems == idealChainMaxlen == nonidealItems == ineffExpands == 0 && !noexpand
    {
      tail := first;
      numBuckets, log2NumBuckets := 32, 5;
      numItems, idealChainMaxlen, nonidealItems, ineffExpands := 0, 0, 0, 0;
      noexpand := false;
      buckets := new Bucket<K, V>[32](_ => Bucket(null, 0, 0));
    }
  }
}
