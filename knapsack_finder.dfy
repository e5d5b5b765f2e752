/** KnapsackBestPackageFinder: a fresh Knapsack over the products array,
    and the package of the indices it returns. */
module KnapsackFinder {
  import opened Common
  import opened Packages
  import opened KnapsackSolver

  /** findBestPackageKnapsack: always a present package. */
  function Find(spec: Specification): (r: Option<Package>)
    ensures r.Some?
    ensures forall p :: p in r.value.products ==> p in spec.products
  {
    PackageOfProducts(spec.products, Best(spec.products, 0, spec.maxWeight).indexes);
    Some(PackageOf(spec.products, Best(spec.products, 0, spec.maxWeight).indexes))
  }

  /** The finder as the source runs it: each call builds its own Knapsack,
      so no cache is shared between specifications. */
  method Run(spec: Specification) returns (r: Option<Package>)
    ensures r == Find(spec)
  {
    var knapsack := new Knapsack(spec.products);
    var indexes := knapsack.FindMax(spec.maxWeight);
    r := Some(PackageOf(spec.products, indexes));
  }

  /** For non-negative weights and capacity the package is a best package. */
  lemma FindOptimal(spec: Specification)
    requires NonNegativeWeights(spec.products) && spec.maxWeight >= 0.0
    ensures Optimal(spec.products, spec.maxWeight, Find(spec).value)
  {
    BestIsOptimal(spec.products, spec.maxWeight);
  }

  /** Unlike brute force, a negative capacity (with non-negative weights)
      gives a present, empty package; so does a specification without
      products, whatever the capacity. */
  lemma FindEmptyPackage(spec: Specification)
    ensures NonNegativeWeights(spec.products) && spec.maxWeight < 0.0 ==> Find(spec) == Some(Package([]))
    ensures spec.products == [] ==> Find(spec) == Some(Package([]))
  {
    PackageOfEmpty(spec.products);
    if NonNegativeWeights(spec.products) && spec.maxWeight < 0.0 {
      BestNegativeCapacity(spec.products, 0, spec.maxWeight);
    }
  }
}
