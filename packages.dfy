/** Package.java: a package is a set of products with a total price and a
    total weight, and BEST_PACKAGE_COMPARATOR orders packages by price, then
    by lower weight. Also holds the package specification (capacity plus the
    products, in the order in which `toArray` lists them) and the mapping from
    an index set over that array to a package. */
module Packages {
  import opened Common
  import opened Products

  /** A package. The Java Set<Product> is modelled by a sequence without
      duplicates listing the set in iteration order; `products` is what
      getProducts returns, exactly what the constructor received. */
  datatype Package = Package(products: seq<Product>)

  /** A package specification: line number, capacity (maxWeight) and the
      products, listed in the order of `getProducts().toArray()`. */
  datatype Specification = Specification(lineNumber: int, maxWeight: real, products: seq<Product>)

  predicate NonNegativeWeights(items: seq<Product>) {
    forall k :: 0 <= k < |items| ==> items[k].weight >= 0.0
  }

  // ---------------------------------------------------------------- totals

  function SumPrices(ps: seq<Product>): real {
    if ps == [] then 0.0 else ps[0].price + SumPrices(ps[1..])
  }

  function SumWeights(ps: seq<Product>): real {
    if ps == [] then 0.0 else ps[0].weight + SumWeights(ps[1..])
  }

  /** getPrice: the sum of the product prices, 0.0 for an empty package. */
  function Price(pkg: Package): real {
    SumPrices(pkg.products)
  }

  /** getWeight: the sum of the product weights, 0.0 for an empty package. */
  function Weight(pkg: Package): real {
    SumWeights(pkg.products)
  }

  /** Totals split over a concatenation. */
  lemma {:induction false} SumsOfConcat(a: seq<Product>, b: seq<Product>)
    ensures SumPrices(a + b) == SumPrices(a) + SumPrices(b)
    ensures SumWeights(a + b) == SumWeights(a) + SumWeights(b)
  {
    if a == [] {
      assert a + b == b;
    } else {
      assert (a + b)[1..] == a[1..] + b;
      SumsOfConcat(a[1..], b);
    }
  }

  lemma SumsWithout(b: seq<Product>, k: nat)
    requires k < |b|
    ensures SumPrices(b) == b[k].price + SumPrices(b[..k] + b[k + 1..])
    ensures SumWeights(b) == b[k].weight + SumWeights(b[..k] + b[k + 1..])
  {
    assert b == (b[..k] + [b[k]]) + b[k + 1..];
    SumsOfConcat(b[..k] + [b[k]], b[k + 1..]);
    SumsOfConcat(b[..k], [b[k]]);
    SumsOfConcat(b[..k], b[k + 1..]);
  }

  lemma MultisetWithout(b: seq<Product>, k: nat)
    requires k < |b|
    ensures multiset(b[..k] + b[k + 1..]) == multiset(b) - multiset{b[k]}
  {
    assert b == b[..k] + [b[k]] + b[k + 1..];
  }

  /** The totals depend only on the products, not on the iteration order of
      the set: any two listings with the same elements have the same totals. */
  lemma {:induction false} TotalsIgnoreOrder(a: seq<Product>, b: seq<Product>)
    requires multiset(a) == multiset(b)
    ensures SumPrices(a) == SumPrices(b) && SumWeights(a) == SumWeights(b)
  {
    if a != [] {
      assert a[0] in multiset(b);
      var k :| 0 <= k < |b| && b[k] == a[0];
      MultisetWithout(b, k);
      assert a == [a[0]] + a[1..];
      assert multiset(a[1..]) == multiset(a) - multiset{a[0]};
      TotalsIgnoreOrder(a[1..], b[..k] + b[k + 1..]);
      SumsWithout(b, k);
    } else {
      assert |b| == |multiset(b)| == 0;
    }
  }

  /** The empty package weighs and costs 0.0. */
  lemma EmptyPackageTotals()
    ensures Price(Package([])) == 0.0 && Weight(Package([])) == 0.0
  {
  }

  // ------------------------------------------------------------ comparator

  /** Double.compare on exact reals. */
  function DoubleCompare(a: real, b: real): int {
    if a < b then -1 else if a > b then 1 else 0
  }

  /** The ordering "at least as good": higher price, or the same price and
      no more weight. */
  predicate AtLeastAsGood(p1: real, w1: real, p2: real, w2: real) {
    p1 > p2 || (p1 == p2 && w1 <= w2)
  }

  /** comparingDouble(price).thenComparing(comparingDouble(weight).reversed()),
      on (price, weight) pairs. Shared by Package.BEST_PACKAGE_COMPARATOR and
      Knapsack.Value.BEST_COMPARATOR. */
  function CompareTotals(p1: real, w1: real, p2: real, w2: real): (r: int)
    ensures -1 <= r <= 1
    ensures r >= 0 <==> AtLeastAsGood(p1, w1, p2, w2)
    ensures r <= 0 <==> AtLeastAsGood(p2, w2, p1, w1)
    ensures r == 0 <==> p1 == p2 && w1 == w2
  {
    var byPrice := DoubleCompare(p1, p2);
    if byPrice != 0 then byPrice else DoubleCompare(w2, w1)
  }

  /** BEST_PACKAGE_COMPARATOR.compare(a, b). */
  function Compare(a: Package, b: Package): (r: int)
    ensures Price(a) > Price(b) ==> r > 0
    ensures Price(a) == Price(b) && Weight(a) < Weight(b) ==> r > 0
    ensures Price(a) == Price(b) && Weight(a) == Weight(b) ==> r == 0
    ensures r == -CompareTotals(Price(b), Weight(b), Price(a), Weight(a))
    ensures r >= 0 <==> AtLeastAsGood(Price(a), Weight(a), Price(b), Weight(b))
  {
    CompareTotals(Price(a), Weight(a), Price(b), Weight(b))
  }

  /** "Compares at least as good" is transitive, so a maximum is well defined. */
  lemma CompareTransitive(a: Package, b: Package, c: Package)
    requires Compare(a, b) >= 0 && Compare(b, c) >= 0
    ensures Compare(a, c) >= 0
  {
  }

  // ---------------------------------------------------------- Stream.max

  /** The step of BinaryOperator.maxBy: keep the accumulator unless it
      compares smaller. */
  function MaxStep(acc: Package, x: Package): Package {
    if Compare(acc, x) >= 0 then acc else x
  }

  /** Left fold of MaxStep: the sequential reduction performed by Stream.max. */
  function MaxFold(acc: Package, rest: seq<Package>): (r: Package)
    ensures r == acc || r in rest
    ensures Compare(r, acc) >= 0
    ensures forall x :: x in rest ==> Compare(r, x) >= 0
    decreases |rest|
  {
    if rest == [] then acc else MaxFold(MaxStep(acc, rest[0]), rest[1..])
  }

  /** Stream.max(BEST_PACKAGE_COMPARATOR) over a finite stream: empty exactly
      for an empty stream, otherwise an element of the stream that compares
      at least as good as every element. */
  function MaxBy(ps: seq<Package>): (r: Option<Package>)
    ensures r.None? <==> ps == []
    ensures r.Some? ==> r.value in ps && forall x :: x in ps ==> Compare(r.value, x) >= 0
  {
    if ps == [] then None else Some(MaxFold(ps[0], ps[1..]))
  }

  // ------------------------------------------------------ index subsets

  /** Total weight of the products whose indices in [i, |items|) are in s. */
  function SubsetWeight(items: seq<Product>, s: set<nat>, i: nat): real
    decreases |items| - i
  {
    if i >= |items| then 0.0
    else (if i in s then items[i].weight else 0.0) + SubsetWeight(items, s, i + 1)
  }

  /** Total price of the products whose indices in [i, |items|) are in s. */
  function SubsetPrice(items: seq<Product>, s: set<nat>, i: nat): real
    decreases |items| - i
  {
    if i >= |items| then 0.0
    else (if i in s then items[i].price else 0.0) + SubsetPrice(items, s, i + 1)
  }

  /** The products at the indices in s from i on, in ascending index order
      (the order of BitSet.stream()). */
  function ProductsAt(items: seq<Product>, s: set<nat>, i: nat): seq<Product>
    decreases |items| - i
  {
    if i >= |items| then []
    else (if i in s then [items[i]] else []) + ProductsAt(items, s, i + 1)
  }

  /** `bitSet.stream().mapToObj(index -> productsArray[index])` collected into
      a package. */
  function PackageOf(items: seq<Product>, s: set<nat>): Package {
    Package(ProductsAt(items, s, 0))
  }

  lemma {:induction false} ProductsAtTotals(items: seq<Product>, s: set<nat>, i: nat)
    ensures SumPrices(ProductsAt(items, s, i)) == SubsetPrice(items, s, i)
    ensures SumWeights(ProductsAt(items, s, i)) == SubsetWeight(items, s, i)
    decreases |items| - i
  {
    if i < |items| {
      ProductsAtTotals(items, s, i + 1);
      SumsOfConcat(if i in s then [items[i]] else [], ProductsAt(items, s, i + 1));
    }
  }

  /** An index set naming every product from i on lists all of them. */
  lemma {:induction false} ProductsAtAll(items: seq<Product>, s: set<nat>, i: nat)
    requires i <= |items|
    requires forall k :: i <= k < |items| ==> k in s
    ensures ProductsAt(items, s, i) == items[i..]
    decreases |items| - i
  {
    if i < |items| {
      ProductsAtAll(items, s, i + 1);
      assert items[i..] == [items[i]] + items[i + 1..];
    }
  }

  /** The package of an index set costs and weighs what the index set does. */
  lemma PackageOfTotals(items: seq<Product>, s: set<nat>)
    ensures Price(PackageOf(items, s)) == SubsetPrice(items, s, 0)
    ensures Weight(PackageOf(items, s)) == SubsetWeight(items, s, 0)
  {
    ProductsAtTotals(items, s, 0);
  }

  lemma {:induction false} ProductsAtMembers(items: seq<Product>, s: set<nat>, i: nat)
    ensures forall p :: p in ProductsAt(items, s, i) <==> exists k :: i <= k < |items| && k in s && items[k] == p
    decreases |items| - i
  {
    if i < |items| {
      ProductsAtMembers(items, s, i + 1);
    }
  }

  /** The package of an index set holds exactly the products at those
      indices, so its products are drawn from the specification's products. */
  lemma PackageOfProducts(items: seq<Product>, s: set<nat>)
    ensures forall p :: p in PackageOf(items, s).products <==> exists k :: 0 <= k < |items| && k in s && items[k] == p
    ensures forall p :: p in PackageOf(items, s).products ==> p in items
  {
    ProductsAtMembers(items, s, 0);
  }

  lemma {:induction false} ProductsAtEmpty(items: seq<Product>, i: nat)
    ensures ProductsAt(items, {}, i) == []
    decreases |items| - i
  {
    if i < |items| {
      ProductsAtEmpty(items, i + 1);
    }
  }

  /** The empty index set gives the empty package, of price and weight 0. */
  lemma PackageOfEmpty(items: seq<Product>)
    ensures PackageOf(items, {}) == Package([])
    ensures Price(PackageOf(items, {})) == 0.0 && Weight(PackageOf(items, {})) == 0.0
  {
    ProductsAtEmpty(items, 0);
  }

  /** The packages of a sequence of index sets, in the same order (the
      `map` from combinations to packages). */
  function PackagesOf(items: seq<Product>, cs: seq<set<nat>>): (r: seq<Package>)
    ensures |r| == |cs|
    ensures forall i :: 0 <= i < |cs| ==> r[i] == PackageOf(items, cs[i])
  {
    if cs == [] then [] else [PackageOf(items, cs[0])] + PackagesOf(items, cs[1..])
  }

  /** The indices of t that name a product. */
  function Restrict(items: seq<Product>, t: set<nat>): set<nat> {
    set k | k in t && k < |items|
  }

  /** Dropping indices that name no product changes no total. */
  lemma RestrictTotals(items: seq<Product>, t: set<nat>)
    ensures forall k :: k in Restrict(items, t) ==> k < |items|
    ensures SubsetWeight(items, Restrict(items, t), 0) == SubsetWeight(items, t, 0)
    ensures SubsetPrice(items, Restrict(items, t), 0) == SubsetPrice(items, t, 0)
  {
    SumsAgree(items, Restrict(items, t), t, 0);
  }

  /** Index sets that agree on [i, |items|) have the same totals from i. */
  lemma {:induction false} SumsAgree(items: seq<Product>, s: set<nat>, t: set<nat>, i: nat)
    requires forall k :: i <= k < |items| ==> (k in s <==> k in t)
    ensures SubsetWeight(items, s, i) == SubsetWeight(items, t, i)
    ensures SubsetPrice(items, s, i) == SubsetPrice(items, t, i)
    decreases |items| - i
  {
    if i < |items| {
      SumsAgree(items, s, t, i + 1);
    }
  }

  /** With non-negative weights every index set weighs at least 0.0. */
  lemma {:induction false} SubsetWeightNonNegative(items: seq<Product>, s: set<nat>, i: nat)
    requires NonNegativeWeights(items)
    ensures SubsetWeight(items, s, i) >= 0.0
    decreases |items| - i
  {
    if i < |items| {
      SubsetWeightNonNegative(items, s, i + 1);
    }
  }

  /** Adding a new index in range adds that product's weight. */
  lemma {:induction false} SubsetWeightInsert(items: seq<Product>, s: set<nat>, k: nat, i: nat)
    requires i <= k < |items| && k !in s
    ensures SubsetWeight(items, s + {k}, i) == SubsetWeight(items, s, i) + items[k].weight
    decreases |items| - i
  {
    if i < k {
      SubsetWeightInsert(items, s, k, i + 1);
    } else {
      SumsAgree(items, s + {k}, s, i + 1);
    }
  }

  /** With non-negative weights a subset weighs no more than a superset. */
  lemma {:induction false} SubsetWeightMonotone(items: seq<Product>, s: set<nat>, t: set<nat>, i: nat)
    requires NonNegativeWeights(items) && s <= t
    ensures SubsetWeight(items, s, i) <= SubsetWeight(items, t, i)
    decreases |items| - i
  {
    if i < |items| {
      SubsetWeightMonotone(items, s, t, i + 1);
    }
  }

  // ----------------------------------------------------------- optimality

  /** `pkg` is a best package for the products and the capacity: it is the
      package of some index set, it fits, and no index set that fits has a
      higher price, or the same price and a lower weight. */
  ghost predicate Optimal(items: seq<Product>, cap: real, pkg: Package) {
    && (exists s :: pkg == PackageOf(items, s))
    && Weight(pkg) <= cap
    && forall t :: SubsetWeight(items, t, 0) <= cap ==>
         AtLeastAsGood(Price(pkg), Weight(pkg), SubsetPrice(items, t, 0), SubsetWeight(items, t, 0))
  }

  /** Two best packages have the same total price and the same total weight. */
  lemma OptimalTotalsAgree(items: seq<Product>, cap: real, a: Package, b: Package)
    requires Optimal(items, cap, a) && Optimal(items, cap, b)
    ensures Price(a) == Price(b) && Weight(a) == Weight(b)
  {
    var sa :| a == PackageOf(items, sa);
    var sb :| b == PackageOf(items, sb);
    PackageOfTotals(items, sa);
    PackageOfTotals(items, sb);
  }
}
