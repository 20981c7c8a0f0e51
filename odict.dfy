/** Python's insertion-ordered `dict`, as far as the simulator relies on its order. */
module OrderedDict {
  import opened Lists

  /** `keys` lists the keys in first-insertion order; `items` holds the values. */
  datatype Dict<K(==), V> = Dict(keys: seq<K>, items: map<K, V>) {

    ghost predicate Valid() {
      && Distinct(keys)
      && (forall k <- keys :: k in items)
      && (forall k <- items.Keys :: k in keys)
    }

    /** `d[k] = v`: a new key goes to the end, an existing key keeps its place. */
    function Put(k: K, v: V): (d: Dict<K, V>)
      requires Valid()
      ensures d.Valid()
      ensures d.items == items[k := v]
      ensures k in items ==> d.keys == keys
      ensures k !in items ==> d.keys == keys + [k]
    {
      if k in items then Dict(keys, items[k := v])
      else
        assert Distinct(keys + [k]) by { DistinctAppend(keys, [k]); }
        Dict(keys + [k], items[k := v])
    }
  }

  function Empty<K(==), V>(): (d: Dict<K, V>)
    ensures d.Valid() && d.keys == [] && d.items == map[]
  {
    Dict([], map[])
  }

  /** Sum of the counts stored under `keys`. */
  function SumCounts<K>(keys: seq<K>, items: map<K, nat>): nat
    requires forall k <- keys :: k in items
  {
    if keys == [] then 0 else SumCounts(keys[..|keys| - 1], items) + items[keys[|keys| - 1]]
  }

  /** The total of a tally's counts. */
  function Total<K>(d: Dict<K, nat>): nat
    requires d.Valid()
  {
    SumCounts(d.keys, d.items)
  }

  /** Updating a key that is not listed leaves the sum alone. */
  lemma {:induction false} SumCountsIgnores<K>(keys: seq<K>, items: map<K, nat>, k: K, c: nat)
    requires forall x <- keys :: x in items
    requires k !in keys
    ensures SumCounts(keys, items[k := c]) == SumCounts(keys, items)
  {
    if keys != [] {
      SumCountsIgnores(keys[..|keys| - 1], items, k, c);
    }
  }

  /** Incrementing a key listed once adds one to the sum. */
  lemma {:induction false} SumCountsBump<K>(keys: seq<K>, items: map<K, nat>, k: K)
    requires forall x <- keys :: x in items
    requires Distinct(keys)
    requires k in keys
    ensures SumCounts(keys, items[k := items[k] + 1]) == SumCounts(keys, items) + 1
  {
    var init := keys[..|keys| - 1];
    var last := keys[|keys| - 1];
    DistinctInit(keys);
    if last == k {
      SumCountsIgnores(init, items, k, items[k] + 1);
    } else {
      assert k in init by {
        var i :| 0 <= i < |keys| && keys[i] == k;
        assert i < |keys| - 1;
        assert init[i] == k;
      }
      SumCountsBump(init, items, k);
    }
  }
}
