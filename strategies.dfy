/** The three best-package strategies side by side: the strategy enum, the
    mapping from enum to finder, and the cross-strategy agreement. */
module Strategies {
  import opened Common
  import opened Combinations
  import opened Products
  import opened Packages
  import BruteForceFinder
  import OptimizedFinder
  import KnapsackFinder
  import KnapsackSolver
  import Validation

  /** FindBestPackageStrategy. */
  datatype FindStrategy = Optimized | BruteForce | Knapsack

  /** A PackageFinder: a function from a specification to an optional
      package; it may fail with an exception. */
  type Finder = Specification -> Result<Option<Package>>

  /** The finder each strategy stands for. */
  function FindWith(strategy: FindStrategy, spec: Specification): Result<Option<Package>> {
    match strategy
    case Optimized => OptimizedFinder.Find(spec)
    case BruteForce => Ok(BruteForceFinder.Find(spec))
    case Knapsack => Ok(KnapsackFinder.Find(spec))
  }

  /** A fresh finder object of the strategy, applied. */
  method RunWith(strategy: FindStrategy, spec: Specification) returns (r: Result<Option<Package>>)
    ensures r == FindWith(strategy, spec)
  {
    match strategy {
      case Optimized =>
        r := OptimizedFinder.Run(spec);
      case BruteForce =>
        r := Ok(BruteForceFinder.Find(spec));
      case Knapsack =>
        var p := KnapsackFinder.Run(spec);
        r := Ok(p);
    }
  }

  /** With at least one product, a non-negative capacity and non-negative
      weights, every strategy finds a best package, and all three agree on
      its total price and total weight (which tied package wins is not
      claimed). */
  lemma StrategiesAgree(spec: Specification)
    requires NonNegativeWeights(spec.products) && spec.maxWeight >= 0.0 && |spec.products| > 0
    ensures forall s :: FindWith(s, spec).Ok? && FindWith(s, spec).value.Some?
    ensures forall s :: Optimal(spec.products, spec.maxWeight, FindWith(s, spec).value.value)
    ensures forall s, t ::
      && Price(FindWith(s, spec).value.value) == Price(FindWith(t, spec).value.value)
      && Weight(FindWith(s, spec).value.value) == Weight(FindWith(t, spec).value.value)
  {
    forall s ensures FindWith(s, spec).Ok? && FindWith(s, spec).value.Some? &&
                     Optimal(spec.products, spec.maxWeight, FindWith(s, spec).value.value)
    {
      match s {
        case Optimized => OptimizedFinder.FindOptimal(spec);
        case Knapsack => KnapsackFinder.FindOptimal(spec);
        case BruteForce =>
          BruteForceFinder.FindEmpty(spec);
          BruteForceFinder.FindOptimal(spec);
      }
    }
    forall s, t ensures
      && Price(FindWith(s, spec).value.value) == Price(FindWith(t, spec).value.value)
      && Weight(FindWith(s, spec).value.value) == Weight(FindWith(t, spec).value.value)
    {
      OptimalTotalsAgree(spec.products, spec.maxWeight, FindWith(s, spec).value.value, FindWith(t, spec).value.value);
    }
  }

  /** Without products the optimized strategy fails, in the enumerator's
      constructor, while the other two return the empty package for a
      non-negative capacity. */
  lemma StrategiesWithoutProducts(spec: Specification)
    requires spec.products == []
    ensures FindWith(Optimized, spec) == Err(IllegalArgument("The number of elements should be bigger than 0."))
    ensures FindWith(Knapsack, spec) == Ok(Some(Package([])))
    ensures spec.maxWeight >= 0.0 ==> FindWith(BruteForce, spec) == Ok(Some(Package([])))
  {
    KnapsackFinder.FindEmptyPackage(spec);
    if spec.maxWeight >= 0.0 {
      BruteForceFinder.FindEmpty(spec);
      BruteForceFinder.FindOptimal(spec);
      var p := BruteForceFinder.Find(spec).value;
      var s :| p == PackageOf(spec.products, s);
      PackageOfEmpty(spec.products);
      assert PackageOf([], s) == PackageOf([], {});
    }
  }

  /** With a negative capacity (and non-negative weights) the strategies
      differ: brute force finds nothing, the other two the empty package. */
  lemma StrategiesOnNegativeCapacity(spec: Specification)
    requires NonNegativeWeights(spec.products) && spec.maxWeight < 0.0 && |spec.products| > 0
    ensures FindWith(BruteForce, spec) == Ok(None)
    ensures FindWith(Knapsack, spec) == Ok(Some(Package([])))
    ensures FindWith(Optimized, spec) == Ok(Some(Package([])))
  {
    BruteForceFinder.FindEmpty(spec);
    KnapsackFinder.FindEmptyPackage(spec);
    OptimizedFinder.FindNegativeCapacity(spec);
  }

  /** A specification the validator accepts, since every bound is an upper
      one, with a product of negative weight: product 1 weighs 2.0 and costs
      10.0, product 2 weighs -1.5 and costs nothing, the capacity is 1.0. */
  const NegativeWeightSpec: Specification :=
    Specification(0, 1.0, [Product(1, 2.0, 10.0), Product(2, -1.5, 0.0)])

  /** The power set of two indices, in binary-counting order. */
  lemma PowerSetOfTwo()
    ensures BruteForceFinder.AllSubsets(2) == [{}, {0}, {1}, {0, 1}]
  {
    var one := BruteForceFinder.WithIndex([{}], 0);
    assert |one| == 1 && one[0] == {} + {0} == {0};
    assert BruteForceFinder.AllSubsets(1) == [{}, {0}];
    var two := BruteForceFinder.WithIndex([{}, {0}], 1);
    assert |two| == 2 && two[0] == {} + {1} == {1} && two[1] == {0} + {1} == {0, 1};
  }

  /** The totals of an index set over two products. */
  lemma TotalsOfTwo(items: seq<Product>, t: set<nat>)
    requires |items| == 2
    ensures Weight(PackageOf(items, t)) ==
      (if 0 in t then items[0].weight else 0.0) + (if 1 in t then items[1].weight else 0.0)
    ensures Price(PackageOf(items, t)) ==
      (if 0 in t then items[0].price else 0.0) + (if 1 in t then items[1].price else 0.0)
  {
    PackageOfTotals(items, t);
    assert SubsetWeight(items, t, 2) == 0.0 && SubsetPrice(items, t, 2) == 0.0;
  }

  /** The totals of the four subsets: only product 1 alone, of weight 2.0,
      exceeds the capacity 1.0. */
  lemma SubsetTotalsOnNegativeWeights(items: seq<Product>)
    requires items == NegativeWeightSpec.products
    ensures Weight(PackageOf(items, {})) == 0.0 && Price(PackageOf(items, {})) == 0.0
    ensures Weight(PackageOf(items, {0})) == 2.0
    ensures Weight(PackageOf(items, {1})) == -1.5 && Price(PackageOf(items, {1})) == 0.0
    ensures Weight(PackageOf(items, {0, 1})) == 0.5 && Price(PackageOf(items, {0, 1})) == 10.0
  {
    TotalsOfTwo(items, {});
    TotalsOfTwo(items, {0});
    TotalsOfTwo(items, {1});
    TotalsOfTwo(items, {0, 1});
  }

  /** The packages of the power set of two indices, in order. */
  lemma PackagesOfTwo(items: seq<Product>)
    ensures PackagesOf(items, BruteForceFinder.AllSubsets(2))
         == [PackageOf(items, {}), PackageOf(items, {0}), PackageOf(items, {1}), PackageOf(items, {0, 1})]
  {
    PowerSetOfTwo();
  }

  /** Of four packages, the second too heavy and the first and third
      cheaper than the fourth, which fits: the maximum of those that fit is
      the fourth. */
  lemma MaxOfFittingFour(all: seq<Package>, cap: real)
    requires |all| == 4
    requires Weight(all[1]) > cap && Weight(all[3]) <= cap
    requires Price(all[0]) < Price(all[3]) && Price(all[2]) < Price(all[3])
    ensures MaxBy(BruteForceFinder.Fitting(all, cap)) == Some(all[3])
  {
    var fitting := BruteForceFinder.Fitting(all, cap);
    assert all[3] in fitting && all[1] !in fitting;
    assert Compare(all[0], all[3]) < 0 && Compare(all[2], all[3]) < 0;
    var r := MaxBy(fitting).value;
    assert r in fitting && Compare(r, all[3]) >= 0;
    var i :| 0 <= i < 4 && all[i] == r;
    assert i == 3;
  }

  /** Brute force over two products when product 1 alone does not fit and
      both together fit and cost more than any other subset: the filter
      leaves the pair as the only package of its price. */
  lemma BruteForceOfTwo(spec: Specification)
    requires |spec.products| == 2
    requires var items, cap := spec.products, spec.maxWeight;
      && Weight(PackageOf(items, {0})) > cap && Weight(PackageOf(items, {0, 1})) <= cap
      && Price(PackageOf(items, {})) < Price(PackageOf(items, {0, 1}))
      && Price(PackageOf(items, {1})) < Price(PackageOf(items, {0, 1}))
    ensures FindWith(BruteForce, spec) == Ok(Some(PackageOf(spec.products, {0, 1})))
  {
    PackagesOfTwo(spec.products);
    MaxOfFittingFour(PackagesOf(spec.products, BruteForceFinder.AllSubsets(2)), spec.maxWeight);
  }

  /** The index set {0, 1} over two products is the whole listing. */
  lemma BothOfTwo(items: seq<Product>)
    requires |items| == 2
    ensures PackageOf(items, {0, 1}) == Package(items)
  {
    ProductsAtAll(items, {0, 1}, 0);
  }

  /** Brute force filters whole subsets by their total weight: both
      products together weigh 0.5 and fit, and cost 10.0. */
  lemma BruteForceOnNegativeWeights(spec: Specification)
    requires spec == NegativeWeightSpec
    ensures FindWith(BruteForce, spec) == Ok(Some(Package(spec.products)))
    ensures Price(Package(spec.products)) == 10.0
  {
    SubsetTotalsOnNegativeWeights(spec.products);
    BruteForceOfTwo(spec);
    BothOfTwo(spec.products);
  }

  /** The dynamic programme drops product 1 on its own weight: 1.0 - 2.0 is
      negative. */
  lemma KnapsackOnNegativeWeights(spec: Specification)
    requires spec == NegativeWeightSpec
    ensures FindWith(Knapsack, spec) == Ok(Some(Package([spec.products[1]])))
    ensures Price(Package([spec.products[1]])) == 0.0
  {
    var items := spec.products;
    assert KnapsackSolver.Best(items, 2, 1.0) == KnapsackSolver.Empty;
    assert KnapsackSolver.Best(items, 2, 2.5) == KnapsackSolver.Empty;
    assert KnapsackSolver.Best(items, 1, 1.0) == KnapsackSolver.Value(-1.5, 0.0, {1});
    assert KnapsackSolver.Best(items, 0, 1.0) == KnapsackSolver.Value(-1.5, 0.0, {1});
    assert PackageOf(items, {1}) == Package([items[1]]);
  }

  /** The weight predicate refuses index 0 from the empty combination, so
      the walk emits only the empty combination and {1}. */
  lemma OptimizedOnNegativeWeights(spec: Specification)
    requires spec == NegativeWeightSpec
    ensures FindWith(Optimized, spec) == Ok(Some(Package([spec.products[1]])))
  {
    var items := spec.products;
    var pred := OptimizedFinder.WeightPredicate(items, 1.0);
    assert SubsetWeight(items, {}, 0) == 0.0;
    assert SubsetWeight(items, {1}, 0) == -1.5;
    assert !pred({}, 0) && pred({}, 1) && !pred({1}, 2);
    assert Gen(2, pred, {1}, 2) == [] && Gen(2, pred, {}, 2) == [];
    assert Gen(2, pred, {}, 1) == [{} + {1}] + Gen(2, pred, {} + {1}, 2) + Gen(2, pred, {}, 2);
    assert {} + {1} == {1};
    assert Gen(2, pred, {}, 1) == [{1}];
    assert IterativeCombinations(2, pred) == [{}, {1}];
    assert PackageOf(items, {}) == Package([]);
    assert PackageOf(items, {1}) == Package([items[1]]);
    assert PackagesOf(items, [{}, {1}]) == [Package([]), Package([items[1]])];
  }

  /** The specification passes validation, though a weight is negative. */
  lemma NegativeWeightSpecValid(spec: Specification)
    requires spec == NegativeWeightSpec
    ensures Validation.Errors(Validation.RawSpecification(spec.lineNumber, spec.maxWeight, spec.products)) == []
    ensures spec.maxWeight >= 0.0 && !NonNegativeWeights(spec.products)
  {
    assert spec.products[1].weight < 0.0;
    assert Validation.WithinBounds(spec.maxWeight, spec.products);
  }

  /** With a negative weight the strategies differ at a non-negative
      capacity on input the validator accepts: brute force finds price 10.0,
      the other two price 0.0. Agreement therefore needs non-negative
      weights. */
  lemma StrategiesOnNegativeWeights(spec: Specification)
    requires spec == NegativeWeightSpec
    ensures Validation.Errors(Validation.RawSpecification(spec.lineNumber, spec.maxWeight, spec.products)) == []
    ensures spec.maxWeight >= 0.0 && !NonNegativeWeights(spec.products)
    ensures FindWith(BruteForce, spec) == Ok(Some(Package(spec.products)))
    ensures FindWith(Knapsack, spec) == Ok(Some(Package([spec.products[1]])))
    ensures FindWith(Optimized, spec) == Ok(Some(Package([spec.products[1]])))
    ensures Price(FindWith(BruteForce, spec).value.value) == 10.0
    ensures Price(FindWith(Knapsack, spec).value.value) == 0.0
  {
    NegativeWeightSpecValid(spec);
    BruteForceOnNegativeWeights(spec);
    KnapsackOnNegativeWeights(spec);
    OptimizedOnNegativeWeights(spec);
  }
}
