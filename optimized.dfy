/** OptimizedBestPackageFinder: the combinations of product indices are
    enumerated by a CombinationsStream whose predicate refuses any index that
    would take the partial combination above the capacity; the packages of
    the emitted combinations go through the comparator maximum. */
module OptimizedFinder {
  import opened Common
  import opened Combinations
  import opened CombinationsStreams
  import opened Products
  import opened Packages

  /** canExtendCombination of findBestPackageOptimized: the partial
      combination's total weight plus the candidate's weight is at most the
      capacity. The stream only asks about candidates below n. */
  function WeightPredicate(items: seq<Product>, maxWeight: real): Pred {
    (partial: set<nat>, i: nat) =>
      i < |items| && SubsetWeight(items, partial, 0) + items[i].weight <= maxWeight
  }

  /** The lowest index of s in [from, n), or -1. */
  function LeastIndex(s: set<nat>, from: nat, n: nat): (r: int)
    ensures r == -1 || (from <= r < n && r in s)
    ensures forall k :: k in s && from <= k < n ==> 0 <= r <= k
    decreases n - from
  {
    if from >= n then -1
    else if from in s then from
    else LeastIndex(s, from + 1, n)
  }

  /** A partial combination and its candidate together weigh what the
      candidate and the partial combination weigh. */
  lemma PartialWeight(items: seq<Product>, x: set<nat>, partial: set<nat>, k: nat)
    requires NonNegativeWeights(items) && k < |items| && k !in partial
    requires partial + {k} <= x
    ensures SubsetWeight(items, partial, 0) + items[k].weight <= SubsetWeight(items, x, 0)
  {
    SubsetWeightInsert(items, partial, k, 0);
    SubsetWeightMonotone(items, partial + {k}, x, 0);
  }

  /** With non-negative weights the iterative walk under the weight
      predicate emits exactly the index sets that fit, and the empty one. */
  lemma WeightIterativeAdmissible(items: seq<Product>, maxWeight: real, x: set<nat>)
    requires NonNegativeWeights(items)
    ensures IterativeAdmissible(|items|, WeightPredicate(items, maxWeight), x) <==>
      InRange(x, |items|) && (x == {} || SubsetWeight(items, x, 0) <= maxWeight)
  {
    var n, p := |items|, WeightPredicate(items, maxWeight);
    if InRange(x, n) && x != {} {
      if IterativeAdmissible(n, p, x) {
        var m := PreviousSetBit(x, n - 1);
        var k :| k in x;
        assert m in x;
        assert x == Below(x, m) + {m};
        SubsetWeightInsert(items, Below(x, m), m, 0);
      }
      if SubsetWeight(items, x, 0) <= maxWeight {
        forall k | k in x ensures p(Below(x, k), k) {
          PartialWeight(items, x, Below(x, k), k);
        }
      }
    }
  }

  /** The same for the recursive strategy, whose predicate sees the indices
      above the candidate. */
  lemma WeightRecursiveAdmissible(items: seq<Product>, maxWeight: real, x: set<nat>)
    requires NonNegativeWeights(items)
    ensures RecursiveAdmissible(|items|, WeightPredicate(items, maxWeight), x) <==>
      InRange(x, |items|) && (x == {} || SubsetWeight(items, x, 0) <= maxWeight)
  {
    var n, p := |items|, WeightPredicate(items, maxWeight);
    if InRange(x, n) && x != {} {
      if RecursiveAdmissible(n, p, x) {
        var k :| k in x;
        var m := LeastIndex(x, 0, n);
        assert m in x;
        assert x == Above(x, m) + {m};
        SubsetWeightInsert(items, Above(x, m), m, 0);
      }
      if SubsetWeight(items, x, 0) <= maxWeight {
        forall k | k in x ensures p(Above(x, k), k) {
          PartialWeight(items, x, Above(x, k), k);
        }
      }
    }
  }

  /** Under the weight predicate, and only there, the two strategies emit
      the same combinations. */
  lemma WeightStrategiesAgree(items: seq<Product>, maxWeight: real, x: set<nat>)
    requires NonNegativeWeights(items)
    ensures x in IterativeCombinations(|items|, WeightPredicate(items, maxWeight)) <==>
            x in RecursiveCombinations(|items|, WeightPredicate(items, maxWeight), 0)
  {
    IterativeMembers(|items|, WeightPredicate(items, maxWeight), x);
    RecursiveMembers(|items|, WeightPredicate(items, maxWeight), x);
    WeightIterativeAdmissible(items, maxWeight, x);
    WeightRecursiveAdmissible(items, maxWeight, x);
  }

  /** findBestPackageOptimized: the stream constructor refuses zero
      elements; otherwise the maximum over the packages of the combinations
      of the default (iterative) strategy. The result is present whenever
      there is a product, because the empty combination is always emitted. */
  function Find(spec: Specification): (r: Result<Option<Package>>)
    ensures |spec.products| > 0 ==> r.Ok? && r.value.Some?
    ensures |spec.products| == 0 ==> r == Err(IllegalArgument("The number of elements should be bigger than 0."))
  {
    if |spec.products| == 0 then Err(IllegalArgument("The number of elements should be bigger than 0."))
    else
      var combinations := IterativeCombinations(|spec.products|, WeightPredicate(spec.products, spec.maxWeight));
      Ok(MaxBy(PackagesOf(spec.products, combinations)))
  }

  /** The finder as the source runs it: a fresh CombinationsStream, drained
      through its iterator. */
  method Run(spec: Specification) returns (r: Result<Option<Package>>)
    ensures r == Find(spec)
  {
    var stream := CombinationsStream.Create(|spec.products|, Some(WeightPredicate(spec.products, spec.maxWeight)));
    if stream.Err? {
      return Err(stream.error);
    }
    var combinations := stream.value.ToBitSetStream();
    r := Ok(MaxBy(PackagesOf(spec.products, combinations)));
  }

  /** For non-negative weights and capacity, the result is a best package,
      drawn from the specification's products. */
  lemma FindOptimal(spec: Specification)
    requires NonNegativeWeights(spec.products) && spec.maxWeight >= 0.0 && |spec.products| > 0
    ensures Find(spec).Ok? && Find(spec).value.Some?
    ensures Optimal(spec.products, spec.maxWeight, Find(spec).value.value)
    ensures forall p :: p in Find(spec).value.value.products ==> p in spec.products
  {
    var items, cap := spec.products, spec.maxWeight;
    var n, pred := |items|, WeightPredicate(items, cap);
    var cs := IterativeCombinations(n, pred);
    var all := PackagesOf(items, cs);
    var best := Find(spec).value.value;
    var i :| 0 <= i < |all| && all[i] == best;
    IterativeMembers(n, pred, cs[i]);
    WeightIterativeAdmissible(items, cap, cs[i]);
    PackageOfTotals(items, cs[i]);
    PackageOfEmpty(items);
    PackageOfProducts(items, cs[i]);
    forall t | SubsetWeight(items, t, 0) <= cap
      ensures AtLeastAsGood(Price(best), Weight(best), SubsetPrice(items, t, 0), SubsetWeight(items, t, 0))
    {
      var t' := Restrict(items, t);
      RestrictTotals(items, t);
      IterativeMembers(n, pred, t');
      WeightIterativeAdmissible(items, cap, t');
      var j :| 0 <= j < |cs| && cs[j] == t';
      PackageOfTotals(items, t');
      assert all[j] in all;
    }
  }

  /** With a negative capacity (and non-negative weights) only the empty
      combination is emitted, so the result is the empty package. */
  lemma FindNegativeCapacity(spec: Specification)
    requires NonNegativeWeights(spec.products) && spec.maxWeight < 0.0 && |spec.products| > 0
    ensures Find(spec) == Ok(Some(Package([])))
  {
    var items, cap := spec.products, spec.maxWeight;
    var pred := WeightPredicate(items, cap);
    var cs := IterativeCombinations(|items|, pred);
    var all := PackagesOf(items, cs);
    PackageOfEmpty(items);
    var best := Find(spec).value.value;
    var i :| 0 <= i < |all| && all[i] == best;
    IterativeMembers(|items|, pred, cs[i]);
    WeightIterativeAdmissible(items, cap, cs[i]);
    SubsetWeightNonNegative(items, cs[i], 0);
  }
}
