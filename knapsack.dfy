/** Knapsack.java: the memoised 0/1-knapsack recursion on (start index,
    remaining capacity). The recursion itself is the pure function Best; the
    class Knapsack keeps the HashMap cache as a map field and is proved to
    answer exactly what Best answers. */
module KnapsackSolver {
  import opened Products
  import opened Packages

  /** The cache key. Double.compare(a, b) == 0 on exact reals is equality, so
      the key's equals is datatype equality. */
  datatype Key = Key(maxWeight: real, start: nat)

  /** A partial solution: its total weight and price and the chosen indices. */
  datatype Value = Value(weight: real, price: real, indexes: set<nat>)

  /** `new Value(length)`: nothing chosen. */
  const Empty: Value := Value(0.0, 0.0, {})

  /** Value.add: a new value with the product's weight, price and index
      added; the receiver is a value and is left as it was. */
  function Add(v: Value, weight: real, price: real, index: nat): (r: Value)
    ensures r.weight - v.weight == weight && r.price - v.price == price
    ensures index in r.indexes && r.indexes - {index} == v.indexes - {index}
  {
    Value(v.weight + weight, v.price + price, v.indexes + {index})
  }

  /** Value.BEST_COMPARATOR: price first, then the lower weight. */
  function ValueCompare(v1: Value, v2: Value): int {
    CompareTotals(v1.price, v1.weight, v2.price, v2.weight)
  }

  /** Value.max: v2 only when v1 compares strictly below it, so on a tie the
      first argument wins. */
  function Max(v1: Value, v2: Value): (r: Value)
    ensures r == v1 || r == v2
    ensures AtLeastAsGood(r.price, r.weight, v1.price, v1.weight)
    ensures AtLeastAsGood(r.price, r.weight, v2.price, v2.weight)
    ensures AtLeastAsGood(v1.price, v1.weight, v2.price, v2.weight) ==> r == v1
  {
    if ValueCompare(v1, v2) < 0 then v2 else v1
  }

  /** The private findMax(Key), without the cache: the best value using the
      products from `start` on within capacity `maxWeight`. A product is
      considered for inclusion only when it leaves a non-negative capacity;
      the include branch is the first argument of Max. */
  function Best(items: seq<Product>, start: nat, maxWeight: real): Value
    requires start <= |items|
    decreases |items| - start
  {
    if start == |items| then Empty
    else
      var excluding := Best(items, start + 1, maxWeight);
      if maxWeight - items[start].weight < 0.0 then excluding
      else
        var including := Add(Best(items, start + 1, maxWeight - items[start].weight),
                             items[start].weight, items[start].price, start);
        Max(including, excluding)
  }

  /** The chosen indices lie in [start, |items|), and the value's weight and
      price are the totals of exactly those products. */
  lemma {:induction false} BestTotals(items: seq<Product>, start: nat, maxWeight: real)
    requires start <= |items|
    ensures forall k :: k in Best(items, start, maxWeight).indexes ==> start <= k < |items|
    ensures Best(items, start, maxWeight).weight == SubsetWeight(items, Best(items, start, maxWeight).indexes, start)
    ensures Best(items, start, maxWeight).price == SubsetPrice(items, Best(items, start, maxWeight).indexes, start)
    decreases |items| - start
  {
    if start < |items| {
      var excluding := Best(items, start + 1, maxWeight);
      BestTotals(items, start + 1, maxWeight);
      SumsAgree(items, excluding.indexes, excluding.indexes, start + 1);
      if maxWeight - items[start].weight >= 0.0 {
        var rest := Best(items, start + 1, maxWeight - items[start].weight);
        BestTotals(items, start + 1, maxWeight - items[start].weight);
        var s := rest.indexes + {start};
        SumsAgree(items, s, rest.indexes, start + 1);
      }
    }
  }

  /** With a non-negative capacity the chosen products fit. */
  lemma {:induction false} BestFits(items: seq<Product>, start: nat, maxWeight: real)
    requires start <= |items| && maxWeight >= 0.0
    ensures Best(items, start, maxWeight).weight <= maxWeight
    decreases |items| - start
  {
    if start < |items| {
      BestFits(items, start + 1, maxWeight);
      if maxWeight - items[start].weight >= 0.0 {
        BestFits(items, start + 1, maxWeight - items[start].weight);
      }
    }
  }

  /** With non-negative weights and a negative capacity nothing is chosen. */
  lemma {:induction false} BestNegativeCapacity(items: seq<Product>, start: nat, maxWeight: real)
    requires start <= |items| && NonNegativeWeights(items) && maxWeight < 0.0
    ensures Best(items, start, maxWeight) == Empty
    decreases |items| - start
  {
    if start < |items| {
      BestNegativeCapacity(items, start + 1, maxWeight);
    }
  }

  /** With no products left the result is the empty value, whatever the
      capacity. */
  lemma BestNoProducts(items: seq<Product>, maxWeight: real)
    ensures Best(items, |items|, maxWeight).indexes == {}
    ensures Best([], 0, maxWeight) == Empty
  {
  }

  /** Adding the same product to both sides keeps the comparison. */
  lemma AddKeepsOrder(p1: real, w1: real, p2: real, w2: real, price: real, weight: real)
    requires AtLeastAsGood(p1, w1, p2, w2)
    ensures AtLeastAsGood(p1 + price, w1 + weight, p2 + price, w2 + weight)
  {
  }

  /** The comparator order is transitive. */
  lemma AtLeastAsGoodTransitive(p1: real, w1: real, p2: real, w2: real, p3: real, w3: real)
    requires AtLeastAsGood(p1, w1, p2, w2) && AtLeastAsGood(p2, w2, p3, w3)
    ensures AtLeastAsGood(p1, w1, p3, w3)
  {
  }

  /** With non-negative weights, no index set that fits within maxWeight
      (counting indices from start on) beats Best. */
  lemma {:induction false} BestDominates(items: seq<Product>, start: nat, maxWeight: real, t: set<nat>)
    requires start <= |items| && NonNegativeWeights(items)
    requires SubsetWeight(items, t, start) <= maxWeight
    ensures AtLeastAsGood(Best(items, start, maxWeight).price, Best(items, start, maxWeight).weight,
                          SubsetPrice(items, t, start), SubsetWeight(items, t, start))
    decreases |items| - start
  {
    if start < |items| {
      var w := items[start].weight;
      var excluding := Best(items, start + 1, maxWeight);
      var r := Best(items, start, maxWeight);
      SubsetWeightNonNegative(items, t, start + 1);
      if start in t {
        assert maxWeight - w >= 0.0;
        BestDominates(items, start + 1, maxWeight - w, t);
        var rest := Best(items, start + 1, maxWeight - w);
        AddKeepsOrder(rest.price, rest.weight, SubsetPrice(items, t, start + 1), SubsetWeight(items, t, start + 1),
                      items[start].price, w);
        var including := Add(rest, w, items[start].price, start);
        AtLeastAsGoodTransitive(r.price, r.weight, including.price, including.weight,
                                SubsetPrice(items, t, start), SubsetWeight(items, t, start));
      } else {
        BestDominates(items, start + 1, maxWeight, t);
        AtLeastAsGoodTransitive(r.price, r.weight, excluding.price, excluding.weight,
                                SubsetPrice(items, t, start), SubsetWeight(items, t, start));
      }
    }
  }

  /** findMax(maxWeight): for a non-negative capacity and non-negative
      weights, the package of the chosen indices is a best package. */
  lemma BestIsOptimal(items: seq<Product>, maxWeight: real)
    requires NonNegativeWeights(items) && maxWeight >= 0.0
    ensures Optimal(items, maxWeight, PackageOf(items, Best(items, 0, maxWeight).indexes))
  {
    var v := Best(items, 0, maxWeight);
    BestTotals(items, 0, maxWeight);
    BestFits(items, 0, maxWeight);
    PackageOfTotals(items, v.indexes);
    forall t | SubsetWeight(items, t, 0) <= maxWeight
      ensures AtLeastAsGood(Price(PackageOf(items, v.indexes)), Weight(PackageOf(items, v.indexes)),
                            SubsetPrice(items, t, 0), SubsetWeight(items, t, 0))
    {
      BestDominates(items, 0, maxWeight, t);
    }
  }

  /** The solver object: the products array and the HashMap cache. */
  class Knapsack {
    const products: seq<Product>
    var cache: map<Key, Value>

    /** Every cached entry is the uncached answer for its key. */
    ghost predicate Valid()
      reads this
    {
      forall k :: k in cache ==> k.start <= |products| && cache[k] == Best(products, k.start, k.maxWeight)
    }

    constructor (products: seq<Product>)
      ensures this.products == products && cache == map[] && Valid()
    {
      this.products := products;
      cache := map[];
    }

    /** findMax(maxWeight): the indices of the best value from index 0. The
        cache may grow, but no answer changes, so repeated calls on one
        instance agree. */
    method FindMax(maxWeight: real) returns (r: set<nat>)
      requires Valid()
      modifies this
      ensures Valid() && old(cache).Keys <= cache.Keys
      ensures r == Best(products, 0, maxWeight).indexes
    {
      var v := FindMaxCached(Key(maxWeight, 0));
      r := v.indexes;
    }

    /** findMaxCached: a cached entry when there is one, otherwise computed
        and stored. */
    method FindMaxCached(key: Key) returns (v: Value)
      requires Valid() && key.start <= |products|
      modifies this
      ensures Valid() && old(cache).Keys <= cache.Keys && key in cache
      ensures v == Best(products, key.start, key.maxWeight)
      decreases |products| - key.start, 1
    {
      if key in cache {
        v := cache[key];
      } else {
        v := FindMaxUncached(key);
        cache := cache[key := v];
      }
    }

    /** The private findMax(Key): the recursion step, consulting the cache
        for both sub-problems. */
    method FindMaxUncached(key: Key) returns (v: Value)
      requires Valid() && key.start <= |products|
      modifies this
      ensures Valid() && old(cache).Keys <= cache.Keys
      ensures v == Best(products, key.start, key.maxWeight)
      decreases |products| - key.start, 0
    {
      if key.start == |products| {
        return Empty;
      }
      var excluding := FindMaxCached(Key(key.maxWeight, key.start + 1));
      if key.maxWeight - products[key.start].weight < 0.0 {
        return excluding;
      }
      var rest := FindMaxCached(Key(key.maxWeight - products[key.start].weight, key.start + 1));
      var including := Add(rest, products[key.start].weight, products[key.start].price, key.start);
      v := Max(including, excluding);
    }
  }
}
