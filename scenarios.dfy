/** The worked examples of the test suite, stated on the model: the
    Knapsack example with capacity 32, and two of the best-package scenarios
    every strategy is expected to solve. The dynamic programme's answer is
    traced bottom-up, one (start, remaining capacity) entry at a time. */
module Scenarios {
  import opened Common
  import opened Products
  import opened Packages
  import opened KnapsackSolver
  import KnapsackFinder
  import opened Strategies
  import Output
  import opened Text

  const KnapsackTestProducts: seq<Product> := [
    Product(1, 10.0, 20.0),
    Product(2, 15.0, 22.0),
    Product(3, 8.0, 25.0)
  ]

  lemma KnapsackTestLevel2a(items: seq<Product>)
    requires items == KnapsackTestProducts
    ensures Best(items, 2, 7.0) == Value(0.0, 0.0, {})
    ensures Best(items, 2, 17.0) == Value(8.0, 25.0, {2})
  {
  }

  lemma KnapsackTestLevel2b(items: seq<Product>)
    requires items == KnapsackTestProducts
    ensures Best(items, 2, 22.0) == Value(8.0, 25.0, {2})
    ensures Best(items, 2, 32.0) == Value(8.0, 25.0, {2})
  {
  }

  lemma KnapsackTestLevel1(items: seq<Product>)
    requires items == KnapsackTestProducts
    requires Best(items, 2, 7.0) == Value(0.0, 0.0, {})
    requires Best(items, 2, 17.0) == Value(8.0, 25.0, {2})
    requires Best(items, 2, 22.0) == Value(8.0, 25.0, {2})
    requires Best(items, 2, 32.0) == Value(8.0, 25.0, {2})
    ensures Best(items, 1, 22.0) == Value(8.0, 25.0, {2})
    ensures Best(items, 1, 32.0) == Value(23.0, 47.0, {1, 2})
  {
  }

  lemma KnapsackTestLevel0(items: seq<Product>)
    requires items == KnapsackTestProducts
    requires Best(items, 1, 22.0) == Value(8.0, 25.0, {2})
    requires Best(items, 1, 32.0) == Value(23.0, 47.0, {1, 2})
    ensures Best(items, 0, 32.0) == Value(23.0, 47.0, {1, 2})
  {
  }

  lemma KnapsackTestTrace(items: seq<Product>)
    requires items == KnapsackTestProducts
    ensures Best(items, 0, 32.0) == Value(23.0, 47.0, {1, 2})
  {
    KnapsackTestLevel2a(items);
    KnapsackTestLevel2b(items);
    KnapsackTestLevel1(items);
    KnapsackTestLevel0(items);
  }

  const ScenarioAProducts: seq<Product> := [
    Product(1, 53.38, 45.0),
    Product(2, 88.62, 98.0),
    Product(3, 78.48, 3.0),
    Product(4, 72.3, 76.0),
    Product(5, 30.18, 9.0),
    Product(6, 46.34, 48.0)
  ]

  lemma ScenarioALevel5a(items: seq<Product>)
    requires items == ScenarioAProducts
    ensures Best(items, 5, 2.52) == Value(0.0, 0.0, {})
    ensures Best(items, 5, 8.7) == Value(0.0, 0.0, {})
  {
  }

  lemma ScenarioALevel5b(items: seq<Product>)
    requires items == ScenarioAProducts
    ensures Best(items, 5, 27.62) == Value(0.0, 0.0, {})
    ensures Best(items, 5, 50.82) == Value(46.34, 48.0, {5})
  {
  }

  lemma ScenarioALevel5c(items: seq<Product>)
    requires items == ScenarioAProducts
    ensures Best(items, 5, 81.0) == Value(46.34, 48.0, {5})
  {
  }

  lemma ScenarioALevel4a(items: seq<Product>)
    requires items == ScenarioAProducts
    requires Best(items, 5, 2.52) == Value(0.0, 0.0, {})
    requires Best(items, 5, 8.7) == Value(0.0, 0.0, {})
    ensures Best(items, 4, 2.52) == Value(0.0, 0.0, {})
    ensures Best(items, 4, 8.7) == Value(0.0, 0.0, {})
  {
  }

  lemma ScenarioALevel4b(items: seq<Product>)
    requires items == ScenarioAProducts
    requires Best(items, 5, 27.62) == Value(0.0, 0.0, {})
    requires Best(items, 5, 50.82) == Value(46.34, 48.0, {5})
    requires Best(items, 5, 81.0) == Value(46.34, 48.0, {5})
    ensures Best(items, 4, 27.62) == Value(0.0, 0.0, {})
    ensures Best(items, 4, 81.0) == Value(76.52, 57.0, {4, 5})
  {
  }

  lemma ScenarioALevel3a(items: seq<Product>)
    requires items == ScenarioAProducts
    requires Best(items, 4, 2.52) == Value(0.0, 0.0, {})
    requires Best(items, 4, 27.62) == Value(0.0, 0.0, {})
    ensures Best(items, 3, 2.52) == Value(0.0, 0.0, {})
    ensures Best(items, 3, 27.62) == Value(0.0, 0.0, {})
  {
  }

  lemma ScenarioALevel3b(items: seq<Product>)
    requires items == ScenarioAProducts
    requires Best(items, 4, 8.7) == Value(0.0, 0.0, {})
    requires Best(items, 4, 81.0) == Value(76.52, 57.0, {4, 5})
    ensures Best(items, 3, 81.0) == Value(72.3, 76.0, {3})
  {
  }

  lemma ScenarioALevel2(items: seq<Product>)
    requires items == ScenarioAProducts
    requires Best(items, 3, 2.52) == Value(0.0, 0.0, {})
    requires Best(items, 3, 27.62) == Value(0.0, 0.0, {})
    requires Best(items, 3, 81.0) == Value(72.3, 76.0, {3})
    ensures Best(items, 2, 27.62) == Value(0.0, 0.0, {})
    ensures Best(items, 2, 81.0) == Value(72.3, 76.0, {3})
  {
  }

  lemma ScenarioALevel1(items: seq<Product>)
    requires items == ScenarioAProducts
    requires Best(items, 2, 27.62) == Value(0.0, 0.0, {})
    requires Best(items, 2, 81.0) == Value(72.3, 76.0, {3})
    ensures Best(items, 1, 27.62) == Value(0.0, 0.0, {})
    ensures Best(items, 1, 81.0) == Value(72.3, 76.0, {3})
  {
  }

  lemma ScenarioALevel0(items: seq<Product>)
    requires items == ScenarioAProducts
    requires Best(items, 1, 27.62) == Value(0.0, 0.0, {})
    requires Best(items, 1, 81.0) == Value(72.3, 76.0, {3})
    ensures Best(items, 0, 81.0) == Value(72.3, 76.0, {3})
  {
  }

  lemma ScenarioATrace(items: seq<Product>)
    requires items == ScenarioAProducts
    ensures Best(items, 0, 81.0) == Value(72.3, 76.0, {3})
  {
    ScenarioALevel5a(items);
    ScenarioALevel5b(items);
    ScenarioALevel5c(items);
    ScenarioALevel4a(items);
    ScenarioALevel4b(items);
    ScenarioALevel3a(items);
    ScenarioALevel3b(items);
    ScenarioALevel2(items);
    ScenarioALevel1(items);
    ScenarioALevel0(items);
  }

  /** A strategy-independent reading of a Knapsack answer: with
      non-negative weights and capacity every strategy finds a package with
      the Knapsack package's totals. */
  lemma AllStrategiesTotals(spec: Specification, pkg: Package)
    requires NonNegativeWeights(spec.products) && spec.maxWeight >= 0.0 && |spec.products| > 0
    requires FindWith(Knapsack, spec) == Ok(Some(pkg))
    ensures forall s ::
      && FindWith(s, spec).Ok? && FindWith(s, spec).value.Some?
      && Price(FindWith(s, spec).value.value) == Price(pkg)
      && Weight(FindWith(s, spec).value.value) == Weight(pkg)
  {
    StrategiesAgree(spec);
  }

  /** KnapsackTest.testFindMax: capacity 32 selects the indices 1 and 2. */
  method KnapsackTestFindMax() returns (r: set<nat>)
    ensures r == {1, 2}
  {
    KnapsackTestTrace(KnapsackTestProducts);
    var knapsack := new Knapsack(KnapsackTestProducts);
    r := knapsack.FindMax(32.0);
  }

  /** ... which are the products numbered 2 and 3 ... */
  lemma KnapsackTestPackage()
    ensures KnapsackFinder.Find(Specification(1, 32.0, KnapsackTestProducts)) ==
      Some(Package([Product(2, 15.0, 22.0), Product(3, 8.0, 25.0)]))
  {
    KnapsackTestTrace(KnapsackTestProducts);
    KnapsackTestSelection(KnapsackTestProducts);
  }

  lemma KnapsackTestSelection(items: seq<Product>)
    requires items == KnapsackTestProducts
    ensures PackageOf(items, {1, 2}) == Package([Product(2, 15.0, 22.0), Product(3, 8.0, 25.0)])
  {
    assert ProductsAt(items, {1, 2}, 3) == [];
    assert ProductsAt(items, {1, 2}, 2) == [items[2]];
    assert ProductsAt(items, {1, 2}, 1) == [items[1], items[2]];
  }

  /** ... printed "2,3". */
  lemma KnapsackTestNumbers()
    ensures Output.OutputLine(KnapsackFinder.Find(Specification(1, 32.0, KnapsackTestProducts))) == "2,3"
  {
    KnapsackTestPackage();
    var pkg := Package([Product(2, 15.0, 22.0), Product(3, 8.0, 25.0)]);
    assert Output.Numbers(pkg.products) == [2, 3];
    assert Sort([3]) == [3];
    assert Sort([2, 3]) == [2, 3];
    assert IntToString(2) == "2" && IntToString(3) == "3";
    assert Output.Fields(pkg) == ["2", "3"];
  }

  /** Capacity 81 and six products: the best package is product 4. */
  lemma ScenarioA()
    ensures FindWith(Knapsack, Specification(1, 81.0, ScenarioAProducts)) == Ok(Some(Package([Product(4, 72.3, 76.0)])))
    ensures forall s ::
      && FindWith(s, Specification(1, 81.0, ScenarioAProducts)).Ok?
      && FindWith(s, Specification(1, 81.0, ScenarioAProducts)).value.Some?
      && Price(FindWith(s, Specification(1, 81.0, ScenarioAProducts)).value.value) == 76.0
      && Weight(FindWith(s, Specification(1, 81.0, ScenarioAProducts)).value.value) == 72.3
  {
    ScenarioATrace(ScenarioAProducts);
    ScenarioASelection(ScenarioAProducts);
    AllStrategiesTotals(Specification(1, 81.0, ScenarioAProducts), Package([Product(4, 72.3, 76.0)]));
  }

  lemma ScenarioASelection(items: seq<Product>)
    requires items == ScenarioAProducts
    ensures PackageOf(items, {3}) == Package([Product(4, 72.3, 76.0)])
    ensures Price(Package([Product(4, 72.3, 76.0)])) == 76.0 && Weight(Package([Product(4, 72.3, 76.0)])) == 72.3
    ensures NonNegativeWeights(items)
  {
    assert ProductsAt(items, {3}, 6) == [];
    assert ProductsAt(items, {3}, 5) == [];
    assert ProductsAt(items, {3}, 4) == [];
    assert ProductsAt(items, {3}, 3) == [items[3]];
    assert ProductsAt(items, {3}, 2) == [items[3]];
    assert ProductsAt(items, {3}, 1) == [items[3]];
  }

  /** Capacity 8 and a single product of weight 15.3: every strategy answers
      the empty package. */
  lemma ScenarioB()
    ensures forall s :: FindWith(s, Specification(1, 8.0, [Product(1, 15.3, 34.0)])) == Ok(Some(Package([])))
  {
    var items := [Product(1, 15.3, 34.0)];
    var spec := Specification(1, 8.0, items);
    StrategiesAgree(spec);
    forall s ensures FindWith(s, spec) == Ok(Some(Package([]))) {
      var p := FindWith(s, spec).value.value;
      var t :| p == PackageOf(items, t);
      PackageOfTotals(items, t);
      assert 0 !in t;
      assert ProductsAt(items, t, 1) == [];
    }
  }
}
