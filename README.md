# Best package assessment, modelled in Dafny

The modelled system picks the best package for one specification line, an exact 0/1 knapsack. A specification has:

- a capacity (`maxWeight`);
- at most 15 products, each with a number, a weight and a price.

The best package is the subset of products that fits within the capacity and has the highest total price. Among subsets with equal price, it is the one with the lower total weight.

The model covers:

- **Data and ordering.** `Product` and `Package`, the package totals, and `BEST_PACKAGE_COMPARATOR`.
- **The memoised dynamic programme `Knapsack`.**
  - `Best` is a pure recursion on (start index, remaining capacity).
  - The `Knapsack` class holds its `HashMap` cache as a `map` field. Its `Valid()` invariant says every cache entry equals `Best`.
- **The pruned subset enumerator.**
  - `CombinationsStream`: the constructor checks, the strategy field and the dispatch.
  - Its recursive `flatMap` strategy is a function.
  - Its iterative strategy is an iterator class. Its nested do-while loops are methods with loop invariants, proved to emit exactly a functional specification of the walk.
- **The three strategies and the facade.**
  - Brute force: power set, filter, then maximum.
  - Optimized: the combinations enumerator with a weight predicate.
  - Knapsack.
  - The builder facade `BestPackageFinder`, whose strategy and external-finder fields are updated in place.
- **The bound validator and the output line.** The validator collects every violated upper bound. The output line is the sorted product numbers joined by commas, or `-`.
- **The legacy monolithic `PackageSpecification`.** Its validating constructors, its strategy field and its `findBestPackage` dispatch.

Modelling choices:

- Weights and prices are exact `real`s.
- The products of a specification are a `seq<Product>`, in the order `toArray` lists the set.
- A subset of products is a `set<nat>` of indices into that sequence.
- A Java exception is the `Err` case of a `Result`.

The headline results:

- **Each strategy is optimal.** For non-negative weights and a non-negative capacity, each strategy returns a package that:
  - is the package of some index set;
  - fits within the capacity;
  - is at least as good as every fitting index set.
- **The strategies agree.** They all return the same total price and total weight (`Strategies.StrategiesAgree`).
- **Where they differ.** The model also proves the cases where the strategies really do differ:
  - no products;
  - a negative capacity;
  - a negative product weight. The validator checks only upper bounds, so it accepts such a specification, and the strategies then disagree even at a non-negative capacity (see "## Findings").

## Model

| member | source | states |
|---|---|---|
| Products.Equals | src/main/java/Product.java:31-38 | equals is true exactly for a present product with the same number, weight and price |
| Products.HashCode | src/main/java/Product.java:41-43 | the hash lies in the 32-bit int range; its consistency with equals is stated by EqualProductsHaveEqualHashCodes |
| Products.Wrap32 | src/main/java/Product.java:41-43 | reduction to a 32-bit int: in range, and congruent to the input modulo 2^32 |
| Products.EqualProductsHaveEqualHashCodes | src/main/java/Product.java:31-43 | equal products have equal hash codes |
| Products.EqualsIsAnEquivalence | src/main/java/Product.java:31-38 | equals is reflexive and symmetric, and false for null |
| Packages.SumsOfConcat | src/main/java/Package.java:29-41 | the price and weight totals split over a concatenation |
| Packages.TotalsIgnoreOrder | src/main/java/Package.java:29-41 | any two listings of the same products have the same totals, so the set's iteration order does not matter |
| Packages.EmptyPackageTotals | src/main/java/Package.java:29-41 | the empty package costs and weighs 0.0 |
| Packages.CompareTotals | src/main/java/Package.java:13-19 | the comparator from the two totals: non-negative iff at least as good (higher price, or equal price and no higher weight), zero iff both totals are equal |
| Packages.Compare | src/main/java/Package.java:13-19 | a higher price compares greater; at equal price a lower weight compares greater; equal totals compare 0; it is antisymmetric |
| Packages.CompareTransitive | src/main/java/Package.java:13-19 | "compares at least as good" is transitive |
| Packages.MaxFold | src/main/java/com/pmihnea/bestpackage/packagefinder/BruteForceBestPackageFinder.java:23 | the reduction of Stream.max returns one of its inputs, which compares at least as good as every input |
| Packages.MaxBy | src/main/java/com/pmihnea/bestpackage/packagefinder/BruteForceBestPackageFinder.java:23 | Stream.max is empty iff the stream is; otherwise it is an element at least as good as every element |
| Packages.PackageOfTotals | src/main/java/KnapsackBestPackageFinder.java:12-15 | the package of an index set costs and weighs the index set's totals |
| Packages.PackageOfProducts | src/main/java/KnapsackBestPackageFinder.java:12-15 | the package of an index set holds exactly the products at those indices, all drawn from the specification |
| Packages.PackageOfEmpty | src/main/java/KnapsackBestPackageFinder.java:12-15 | the empty index set gives the empty package, of price and weight 0.0 |
| Packages.PackagesOf | src/main/java/com/pmihnea/bestpackage/packagefinder/OptimizedBestPackageFinder.java:34-38 | mapping combinations to packages keeps the length and the order |
| Packages.RestrictTotals | src/main/java/KnapsackBestPackageFinder.java:12-14 | dropping indices that name no product changes no total |
| Packages.SubsetWeightNonNegative | src/main/java/Package.java:36-41 | with non-negative weights every subset weighs at least 0.0 |
| Packages.SubsetWeightMonotone | src/main/java/Package.java:36-41 | with non-negative weights a subset weighs no more than a superset |
| Packages.OptimalTotalsAgree | src/main/java/Package.java:13-19 | two best packages for the same products and capacity have equal price and equal weight |
| KnapsackSolver.Add | src/main/java/Knapsack.java:86-90 | Value.add: the weight and the price grow by exactly the product's, the index joins the set, other indices are unchanged |
| KnapsackSolver.Max | src/main/java/Knapsack.java:92-106 | Value.max: returns one argument; the result is at least as good as both; on a tie the first argument (the include branch) is kept |
| KnapsackSolver.BestTotals | src/main/java/Knapsack.java:144-169 | the chosen indices lie in [start, n), and the value's weight and price are those of exactly the chosen products |
| KnapsackSolver.BestFits | src/main/java/Knapsack.java:152-164 | for a non-negative capacity the chosen products fit |
| KnapsackSolver.BestNegativeCapacity | src/main/java/Knapsack.java:152-156 | with non-negative weights and a negative capacity nothing is chosen |
| KnapsackSolver.BestNoProducts | src/main/java/Knapsack.java:145-149 | with no products left the result is the empty value, whatever the capacity |
| KnapsackSolver.AddKeepsOrder | src/main/java/Knapsack.java:92-98 | adding the same product to two values keeps their comparison |
| KnapsackSolver.AtLeastAsGoodTransitive | src/main/java/Knapsack.java:92-98 | the comparator order is transitive |
| KnapsackSolver.BestDominates | src/main/java/Knapsack.java:144-169 | with non-negative weights, no index set from start on that fits beats the dynamic programme's value |
| KnapsackSolver.BestIsOptimal | src/main/java/Knapsack.java:23-27 | findMax(cap) for cap >= 0 and non-negative weights: the package of the chosen indices is a best package |
| KnapsackSolver.Knapsack.constructor | src/main/java/Knapsack.java:19-21 | the products are stored and the cache starts empty, so the cache invariant holds |
| KnapsackSolver.Knapsack.FindMax | src/main/java/Knapsack.java:23-27 | returns the indices of Best(products, 0, cap); keeps the cache invariant and only adds entries, so repeated calls agree |
| KnapsackSolver.Knapsack.FindMaxCached | src/main/java/Knapsack.java:134-143 | a cache hit or a computed value, either way Best for the key; the key is then cached and every entry still equals Best |
| KnapsackSolver.Knapsack.FindMaxUncached | src/main/java/Knapsack.java:144-169 | the recursion step through the cache returns Best for the key; it covers the base case, the exclude-only case and the max of include and exclude |
| Combinations.DistinctConcat | src/main/java/CombinationsStream.java:43-52 | two duplicate-free sequences with no common element concatenate to a duplicate-free sequence |
| Combinations.GenMembers | src/main/java/CombinationsStream.java:74-94 | the depth-first walk from a partial combination emits exactly its admissible, non-trivial extensions |
| Combinations.IterativeMembers | src/main/java/CombinationsStream.java:61-112 | the iterative strategy emits S iff S lies in [0, n) and, for each i in S, the predicate allows i on the part of S below i |
| Combinations.IterativeDistinct | src/main/java/CombinationsStream.java:61-112 | the iterative strategy never emits a combination twice |
| Combinations.IterativeCountAllTrue | src/main/java/CombinationsStream.java:61-112 | with an always-true predicate the iterative strategy emits 2^n distinct combinations |
| Combinations.ExtendCombination | src/main/java/CombinationsStream.java:54-58 | the new combination holds the element and the old one's elements; the old one is a value and is unchanged |
| Combinations.RecursiveCombinations | src/main/java/CombinationsStream.java:43-52 | the recursive stream is never empty and starts with the empty combination |
| Combinations.ExtendEachMembers | src/main/java/CombinationsStream.java:47-51 | a flatMap step emits every input combination, plus its extension with the candidate when the predicate allows it |
| Combinations.RecursiveMembers | src/main/java/CombinationsStream.java:43-52 | the recursive strategy emits S iff S lies in [0, n) and, for each i in S, the predicate allows i on the part of S above i |
| Combinations.RecursiveDistinctFrom | src/main/java/CombinationsStream.java:43-52 | the recursive strategy never emits a combination twice |
| Combinations.RecursiveCountAllTrue | src/main/java/CombinationsStream.java:43-52 | with an always-true predicate the recursive strategy emits 2^n distinct combinations |
| Combinations.PreviousSetBit | src/main/java/CombinationsStream.java:86 | BitSet.previousSetBit: -1 or an element at most `from`, and no element up to `from` lies above it |
| Combinations.ContStart | src/main/java/CombinationsStream.java:63-65 | the iterator's initial state, pending the empty combination, stands for the whole iterative output |
| Combinations.ContSkip | src/main/java/CombinationsStream.java:80-82 | skipping a denied candidate leaves the remaining output unchanged |
| Combinations.ContInclude | src/main/java/CombinationsStream.java:76-79 | adding a permitted candidate makes the extended combination the next one emitted |
| Combinations.ContPop | src/main/java/CombinationsStream.java:85-92 | at the last index, removing the highest element leaves the remaining output unchanged; an empty combination leaves nothing |
| CombinationsStreams.CombinationIterator.constructor | src/main/java/CombinationsStream.java:62-65 | combination empty, last -1 and the empty combination pending: the remaining output is the whole iterative output |
| CombinationsStreams.CombinationIterator.HasNext | src/main/java/CombinationsStream.java:67-97 | consumes nothing; answers true iff output remains, and then a combination is pending; false marks exhaustion |
| CombinationsStreams.CombinationIterator.Step | src/main/java/CombinationsStream.java:74-94 | one pass of the outer do-while keeps the remaining output, and decreases the measure (combination size, then n - last) unless it found one or exhausted |
| CombinationsStreams.CombinationIterator.Include | src/main/java/CombinationsStream.java:76-79 | extending with a permitted candidate makes it pending and keeps the remaining output |
| CombinationsStreams.CombinationIterator.Skip | src/main/java/CombinationsStream.java:80-82 | passing over a denied candidate advances last by one and keeps the remaining output |
| CombinationsStreams.CombinationIterator.Backtrack | src/main/java/CombinationsStream.java:85-92 | the inner do-while removes elements until one has a successor, or marks exhaustion; the remaining output is unchanged |
| CombinationsStreams.CombinationIterator.Next | src/main/java/CombinationsStream.java:99-108 | returns the first remaining combination and drops it, or throws NoSuchElementException when none remains |
| CombinationsStreams.CombinationsStream.Create | src/main/java/CombinationsStream.java:15-20 | n <= 0 gives IllegalArgumentException, then a null predicate gives NullPointerException, both with the source's messages; otherwise the default strategy is ITERATIVE |
| CombinationsStreams.CombinationsStream.SetStrategy | src/main/java/CombinationsStream.java:31-33 | replaces the strategy |
| CombinationsStreams.CombinationsStream.ToBitSetStream | src/main/java/CombinationsStream.java:35-40 | dispatches on the strategy: the recursive stream from 0, or the iterative stream |
| CombinationsStreams.Drain | src/main/java/CombinationsStream.java:61-112 | draining a fresh iterator up to its first exhaustion report yields exactly the iterative combinations, in order |
| BruteForceFinder.WithIndex | src/main/java/com/pmihnea/bestpackage/packagefinder/BruteForceBestPackageFinder.java:18 | the subsets of the next doubling step: every set extended with the new index, in the same order |
| BruteForceFinder.AllSubsetsMembers | src/main/java/com/pmihnea/bestpackage/packagefinder/BruteForceBestPackageFinder.java:18 | the power set holds every subset of the indices, the empty one included, and nothing else |
| BruteForceFinder.AllSubsetsCount | src/main/java/com/pmihnea/bestpackage/packagefinder/BruteForceBestPackageFinder.java:18 | the power set has 2^n distinct subsets |
| BruteForceFinder.Fitting | src/main/java/com/pmihnea/bestpackage/packagefinder/BruteForceBestPackageFinder.java:22 | the filter keeps exactly the packages weighing at most the capacity |
| BruteForceFinder.FindOptimal | src/main/java/com/pmihnea/bestpackage/packagefinder/BruteForceBestPackageFinder.java:15-24 | a present result is a best package whose products are drawn from the specification |
| BruteForceFinder.FindEmpty | src/main/java/com/pmihnea/bestpackage/packagefinder/BruteForceBestPackageFinder.java:22-23 | the result is empty only for a negative capacity; with non-negative weights, exactly then |
| OptimizedFinder.LeastIndex | src/main/java/com/pmihnea/bestpackage/packagefinder/OptimizedBestPackageFinder.java:22-30 | the lowest element of s in [from, n), or -1 when there is none |
| OptimizedFinder.PartialWeight | src/main/java/com/pmihnea/bestpackage/packagefinder/OptimizedBestPackageFinder.java:22-30 | a partial combination together with its candidate weighs no more than any superset |
| OptimizedFinder.WeightIterativeAdmissible | src/main/java/com/pmihnea/bestpackage/packagefinder/OptimizedBestPackageFinder.java:22-30 | under the weight predicate the iterative walk emits exactly the fitting index sets, and the empty one |
| OptimizedFinder.WeightRecursiveAdmissible | src/main/java/com/pmihnea/bestpackage/packagefinder/OptimizedBestPackageFinder.java:22-30 | under the weight predicate the recursive strategy admits exactly the same sets |
| OptimizedFinder.WeightStrategiesAgree | src/main/java/CombinationsStream.java:35-40 | under the weight predicate the two enumeration strategies emit the same combinations |
| OptimizedFinder.Find | src/main/java/com/pmihnea/bestpackage/packagefinder/OptimizedBestPackageFinder.java:17-40 | zero products fail with the enumerator's IllegalArgumentException; otherwise the result is always present |
| OptimizedFinder.Run | src/main/java/com/pmihnea/bestpackage/packagefinder/OptimizedBestPackageFinder.java:17-40 | building the stream and draining its iterator gives Find's answer, error included |
| OptimizedFinder.FindOptimal | src/main/java/com/pmihnea/bestpackage/packagefinder/OptimizedBestPackageFinder.java:34-39 | for non-negative weights and capacity the result is a best package, drawn from the products |
| OptimizedFinder.FindNegativeCapacity | src/main/java/com/pmihnea/bestpackage/packagefinder/OptimizedBestPackageFinder.java:22-30 | with a negative capacity only the empty combination is emitted, so the result is the empty package |
| KnapsackFinder.Find | src/main/java/KnapsackBestPackageFinder.java:11-16 | always a present package, whose products are drawn from the specification |
| KnapsackFinder.Run | src/main/java/KnapsackBestPackageFinder.java:11-16 | a fresh Knapsack per call gives Find's answer |
| KnapsackFinder.FindOptimal | src/main/java/KnapsackBestPackageFinder.java:11-16 | for non-negative weights and capacity the package is a best package |
| KnapsackFinder.FindEmptyPackage | src/main/java/KnapsackBestPackageFinder.java:11-16 | a negative capacity (with non-negative weights), or no products at all, gives a present, empty package |
| Strategies.RunWith | src/main/java/BestPackageFinder.java:48-57 | OPTIMIZED, BRUTE_FORCE and KNAPSACK each run their own finder |
| Strategies.StrategiesAgree | src/test/java/BestPackageFinderTest.java:13-32 | with products, non-negative weights and capacity, every strategy returns a best package, and all agree on total price and total weight |
| Strategies.StrategiesWithoutProducts | src/test/java/KnapsackTest.java:21-28 | without products, Optimized fails in the enumerator's constructor while Knapsack (and brute force for cap >= 0) return the empty package |
| Strategies.StrategiesOnNegativeCapacity | src/main/java/com/pmihnea/bestpackage/packagefinder/BruteForceBestPackageFinder.java:22 | for a negative capacity brute force returns nothing, the other two return the empty package |
| Strategies.BruteForceOnNegativeWeights | src/main/java/com/pmihnea/bestpackage/packagefinder/BruteForceBestPackageFinder.java:18-23 | capacity 1.0 with products (1, 2.0, 10.0) and (2, -1.5, 0.0): the filter on whole subsets keeps both products, weight 0.5 and price 10.0 |
| Strategies.KnapsackOnNegativeWeights | src/main/java/Knapsack.java:152-164 | on the same specification the dynamic programme drops product 1 because 1.0 - 2.0 < 0, and returns product 2 alone at price 0.0 |
| Strategies.OptimizedOnNegativeWeights | src/main/java/com/pmihnea/bestpackage/packagefinder/OptimizedBestPackageFinder.java:22-39 | on the same specification the weight predicate refuses product 1 from the empty combination (0 + 2.0 > 1.0), so the walk emits only the empty combination and product 2, and the result is product 2 alone |
| Strategies.StrategiesOnNegativeWeights | src/main/java/PackageSpecificationValidator.java:47-53 | the specification passes the validator, its capacity is non-negative and one weight is negative; brute force then returns price 10.0 and Knapsack and Optimized price 0.0, so agreement needs non-negative weights |
| Facade.BestPackageFinder.constructor | src/main/java/BestPackageFinder.java:18-19 | the default strategy is OPTIMIZED, with no external finder |
| Facade.BestPackageFinder.WithFindBestPackageStrategy | src/main/java/BestPackageFinder.java:25-29 | rejects null with a NullPointerException and changes nothing; otherwise it sets the strategy, keeps the external finder and returns the same instance |
| Facade.BestPackageFinder.WithPackageFinder | src/main/java/BestPackageFinder.java:31-36 | rejects null; otherwise it clears the strategy, stores the finder and returns the same instance |
| Facade.BestPackageFinder.FindBestPackage | src/main/java/BestPackageFinder.java:44-63 | uses the external finder when set, otherwise the strategy's finder; a null strategy makes the switch throw |
| Facade.BestPackageFinder.Apply | src/main/java/BestPackageFinder.java:9-12 | apply answers what findBestPackage answers |
| Facade.DefaultIsOptimized | src/main/java/BestPackageFinder.java:18 | a fresh facade answers with the optimized strategy |
| Facade.StrategyIsUsed | src/main/java/BestPackageFinder.java:25-29 | after withFindBestPackageStrategy(s) the facade answers with s's finder |
| Facade.ExternalFinderSticks | src/main/java/BestPackageFinder.java:44-62 | once an external finder is set it answers, even after a strategy is chosen later |
| Validation.ValidateToken | src/main/java/PackageSpecificationValidator.java:55-61 | an error exactly when the check fails, carrying the token name, value and line |
| Validation.Present | src/main/java/PackageSpecificationValidator.java:44 | filter(isPresent).map(get): empty iff every slot is empty; holds exactly the present errors |
| Validation.GlobalErrors | src/main/java/PackageSpecificationValidator.java:40-45 | no error iff maxWeight <= 100.0 and at most 15 products; a capacity above 100.0 iff its error with that value is reported, more than 15 products iff the count's error is reported; every error is a global token on the line |
| Validation.ProductErrors | src/main/java/PackageSpecificationValidator.java:47-53 | no error iff number <= 15, weight <= 100.0 and price <= 100.0; each exceeded bound gives its own error with the offending value |
| Validation.AllProductErrors | src/main/java/PackageSpecificationValidator.java:28-29 | no product error iff every product is within its bounds; the errors are exactly the union of every product's errors |
| Validation.Errors | src/main/java/PackageSpecificationValidator.java:19-38 | no error iff every bound holds; all errors carry the line number; the errors are exactly the global errors together with all the product errors |
| Validation.EveryViolationReported | src/main/java/PackageSpecificationValidator.java:24-32 | every violated bound, global or of any product, is reported with its own value: collection does not stop at the first error |
| Validation.GlobalThenProduct | src/main/java/PackageSpecificationValidator.java:32 | in global errors followed by product errors, nothing but product errors follows a product error |
| Validation.GlobalErrorsFirst | src/main/java/PackageSpecificationValidator.java:24-32 | the global errors come before the per-product errors |
| Validation.TokenKindsDisjoint | src/main/java/PackageSpecification.java:32-36 | no token name is both global and per-product |
| Validation.Message | src/main/java/PackageSpecificationValidator.java:57 | the message starts with "On line " followed by the error's line number, and ends in "'." |
| Validation.Messages | src/main/java/PackageSpecificationValidator.java:32 | one message per error, in order |
| Validation.ValidateTokens | src/main/java/PackageSpecificationValidator.java:19-38 | throws exactly when some bound is violated, with the joined messages and the line number; otherwise the specification carries the same line, capacity and products |
| Validation.BoundsAreUpperOnly | src/main/java/PackageSpecificationValidator.java:42-51 | the bounds are inclusive and upper-only: the limits themselves and negative values pass |
| Validation.SixteenOversizedProductsRejected | src/test/java/PackageSpecificationValidatorTest.java:9-23 | sixteen products at 101 with capacity 101 are rejected, the capacity error first |
| Text.DigitChar | src/main/java/com/pmihnea/bestpackage/OutputLine.java:21 | a decimal digit character with the given value |
| Text.NatToString | src/main/java/com/pmihnea/bestpackage/OutputLine.java:21 | the decimal text of a natural number is non-empty and all digits |
| Text.IntToString | src/main/java/com/pmihnea/bestpackage/OutputLine.java:21 | Integer.toString is non-empty and made of digits and the minus sign |
| Text.NatToStringValue | src/main/java/com/pmihnea/bestpackage/OutputLine.java:21 | the digits of n read back as n |
| Text.IntToStringRoundTrip | src/main/java/com/pmihnea/bestpackage/OutputLine.java:21 | Integer.toString loses nothing: its text is a well-formed integer that parses back to the number |
| Text.JoinNonEmpty | src/main/java/com/pmihnea/bestpackage/OutputLine.java:21 | joining parts whose first is non-empty gives a non-empty text |
| Text.SplitWord | src/main/java/com/pmihnea/bestpackage/OutputLine.java:21 | a word without the separator splits to itself, and a separator after it starts a new field |
| Text.SplitJoin | src/main/java/com/pmihnea/bestpackage/OutputLine.java:21 | splitting a joined text at a character no part contains gives the parts back |
| Text.InsertSorted | src/main/java/com/pmihnea/bestpackage/OutputLine.java:21 | inserting into an ascending sequence keeps it ascending and adds exactly the element |
| Text.SortSorted | src/main/java/com/pmihnea/bestpackage/OutputLine.java:21 | sorted() yields an ascending permutation of its input |
| Text.MapToString | src/main/java/com/pmihnea/bestpackage/OutputLine.java:21 | map(Object::toString) keeps the length and converts each element |
| Output.Numbers | src/main/java/com/pmihnea/bestpackage/OutputLine.java:21 | map(Product::getNumber) keeps the length and takes each product's number |
| Output.OutputLine | src/main/java/com/pmihnea/bestpackage/OutputLine.java:15-26 | the line is never empty, and it is "-" for an absent or empty package |
| Output.ParseFields | src/main/java/com/pmihnea/bestpackage/OutputLine.java:21 | reads every field back as an integer, in order |
| Output.FieldsParse | src/main/java/com/pmihnea/bestpackage/OutputLine.java:21 | the texts of integers are well-formed and parse back to the integers |
| Output.OutputLineFields | src/main/java/com/pmihnea/bestpackage/OutputLine.java:21 | a non-empty package's line splits at its commas into one field per product; the fields parse to product numbers that ascend and are exactly the package's numbers |
| Output.DashIffNoProducts | src/main/java/com/pmihnea/bestpackage/OutputLine.java:16-25 | the line is "-" iff the package is absent or empty |
| Output.SortedUnique | src/main/java/com/pmihnea/bestpackage/OutputLine.java:21 | two ascending sequences with the same elements are equal |
| Output.OutputLineIgnoresOrder | src/main/java/com/pmihnea/bestpackage/OutputLine.java:21 | the line depends only on the package's numbers, not on the set's iteration order |
| Output.TwoProductsExample | src/test/java/OutputLineTest.java:8-16 | products 2 and 1 print as "1,2" |
| Legacy.Dedup | src/main/java/PackageSpecification.java:55-57 | Sets.newHashSet(products...): the same members, with no repetition and no more entries |
| Legacy.DedupCount | src/main/java/PackageSpecification.java:55-57 | the de-duplicated sequence has one entry per distinct product |
| Legacy.PackageSpecification.constructor | src/main/java/PackageSpecification.java:41-50 | line number 0, the given capacity and products, and the default strategy OPTIMIZED |
| Legacy.PackageSpecification.Create | src/main/java/PackageSpecification.java:48-52 | for products without repetition (a set): fails exactly when a bound is violated, with the validator's error on line 0; otherwise a fresh object with those fields |
| Legacy.PackageSpecification.CreateFromProducts | src/main/java/PackageSpecification.java:55-57 | validates the de-duplicated products: repeated products count once |
| Legacy.PackageSpecification.SetFindBestPackageStrategy | src/main/java/PackageSpecification.java:175-177 | replaces the strategy, null included, and changes no other field |
| Legacy.PackageSpecification.FindBestPackage | src/main/java/PackageSpecification.java:184-195 | a null strategy throws a NullPointerException; otherwise the strategy's finder, which matches the three private finders at 200-249 |
| Legacy.OversizedRejected | src/main/java/PackageSpecification.java:48-52 | the value-constructor counterpart of the string-constructor test at PackageSpecificationTest.java:59-67: sixteen oversized products with capacity 101 are rejected by validation (lines 103-139) on line 0 |
| Legacy.RepeatedProductsCollapse | src/main/java/PackageSpecification.java:55-57 | sixteen copies of one product pass the product-count bound and leave one product |
| Scenarios.KnapsackTestTrace | src/test/java/KnapsackTest.java:9-19 | the dynamic programme for capacity 32 over (10,20), (15,22), (8,25) chooses indices 1 and 2, of weight 23 and price 47 |
| Scenarios.KnapsackTestFindMax | src/test/java/KnapsackTest.java:9-19 | Knapsack.findMax(32) on the test's products returns {1, 2} |
| Scenarios.KnapsackTestPackage | src/test/java/KnapsackTest.java:9-19 | the Knapsack finder's package is the products numbered 2 and 3 |
| Scenarios.KnapsackTestNumbers | src/test/java/KnapsackTest.java:17-18 | that package prints as "2,3" |
| Scenarios.AllStrategiesTotals | src/test/java/BestPackageFinderTest.java:13-93 | a Knapsack answer fixes the totals every strategy answers with |
| Scenarios.ScenarioATrace | src/test/java/BestPackageFinderTest.java:13-32 | the dynamic programme for capacity 81 over the six products chooses index 3 alone |
| Scenarios.ScenarioA | src/test/java/BestPackageFinderTest.java:13-32 | Knapsack returns exactly product 4; every strategy returns a package of price 76.0 and weight 72.3 |
| Scenarios.ScenarioB | src/test/java/BestPackageFinderTest.java:34-45 | for capacity 8 and a single product of weight 15.3, every strategy returns the empty package |

## Left out

- Line parsing is not modelled. This covers both `PackageSpecificationReader`s, `readTokens`, `skipDelimiterOrElseThrow`, `getTokenValueOrElseThrow`, the string constructor (`PackageSpecification.java:66-70`) and the parsing exceptions. They rest on `java.util.regex` and the locale-dependent `Scanner`.
- `FindBestPackageCommand` is not modelled: it is file reading and console printing.
- Double arithmetic is exact `real` arithmetic. IEEE-754 rounding is not modelled, so the exact-equality cache key and the comparator ties become exact.
- Doubles inside error messages are rendered by a `RenderReal` parameter, which stands for `Double.toString`. `System.lineSeparator()` is also a parameter. Integers are rendered exactly.
- Products.HashCode: `Double.hashCode` depends on the IEEE-754 bit pattern, so it is a parameter.
- Which package wins an exact price-and-weight tie is not stated. It depends on the `HashSet.toArray` order and on the `Stream.max` reduction. The strategies are compared by total price and total weight, and `MaxFold` keeps the first maximal element.
- Logging in `Knapsack` is not modelled. Neither is the laziness of streams and spliterators: streams are finite sequences.
- Guava's `Sets.powerSet` and `java.util.BitSet` are not modelled as such. They are `seq<set<nat>>` and `set<nat>`, with the power set in its binary-counting order.
- BruteForceFinder.Find: `Sets.powerSet` throws `IllegalArgumentException` for more than 30 elements. The model's power set has no such limit, so the brute force and `StrategiesAgree` are stated for any number of products. The validator's bound of 15 products keeps the source well below the limit (`BruteForceBestPackageFinder.java:17`).
- `Value.equals` and `Value.hashCode` are not modelled: values are Dafny datatypes. Neither is `Key.hashCode`: map keys are datatype values, so `Key.equals` is datatype equality.
- CombinationsStreams.CombinationIterator.HasNext: calling it again after it has reported exhaustion is excluded by its precondition. In the source, `last` is then `null` and the next call unboxes it.
- CombinationsStreams.CombinationIterator.Next: the same precondition excludes a call after exhaustion, which in the source goes through `hasNext()` and unboxes the null `last` as well.
- Products.Equals: the `getClass() != o.getClass()` branch of `equals` has no counterpart. The argument is an `Option<Product>`, so an object of another class cannot be passed; only null (None) and products are modelled.
- Legacy.PackageSpecification.Create: it requires its products to be listed without repetition, as the `Set<Product>` it stands for has no duplicates. Repeated products go through CreateFromProducts, which de-duplicates them first.
- The plain data holders and interfaces are datatypes and function types: `BasePackageSpecification`, `RawPackageSpecification`, `com/pmihnea/bestpackage/PackageSpecification.java`, `InputLine`, both `PackageFinder` interfaces and the exception classes.
- `InputLineTokens` is not part of this model. The token names are the ones declared in `PackageSpecification.java:32-36`.
- The scenarios with the expected packages {2,7} and {8,9} (`BestPackageFinderTest.java:47-93`) are not stated. Each needs a trace of the dynamic programme over nine products, too large to state entry by entry.
- Scenarios.ScenarioA: for brute force and Optimized it is stated by the package's totals (price 76.0, weight 72.3), not as exactly product 4. The scenario has no tie, but showing that no other of the 64 index sets has these totals would need a case analysis too costly to state.
- OptimizedFinder.WeightPredicate: it also answers false for a candidate index outside the products. The stream never asks about one.
- The `default` branches that throw `IllegalStateException` on an unknown enum value are not modelled, because the enums are closed datatypes. A `null` strategy in the legacy class is modelled as `NullPointerException`.
- The message texts of the `NullPointerException`s raised by `checkNotNull` without a message, and by the switch on a null strategy, are modelled as the empty string.
- The test with the predicate "index sum at most 3" (`CombinationsStreamTest.java:19-27`) is not stated. Neither is the count of 274 for 30 elements (`CombinationsStreamTest.java:42-45`). The membership lemmas state the general rule instead.

## Findings

| source | as written | input that shows it | evidently intended | confidence | as-written member | corrected member |
|---|---|---|---|---|---|---|
| src/main/java/PackageSpecificationValidator.java:47-53 | only upper bounds are checked, so a negative product weight passes validation | capacity 1.0, products (1, 2.0, 10.0) and (2, -1.5, 0.0): brute force returns price 10.0, Knapsack and Optimized price 0.0 | the three strategies agree on every valid specification, which holds once weights are non-negative (negative weights are outside the system's scope) | medium; not executed | Strategies.StrategiesOnNegativeWeights | Strategies.StrategiesAgree |
