/** The monolithic PackageSpecification of the default package: it holds
    the line number, the capacity, the products and a strategy field; its
    value constructors validate at once, and findBestPackage switches on the
    strategy to the same three finders as the facade. */
module Legacy {
  import opened Common
  import opened Products
  import opened Packages
  import opened Validation
  import opened Strategies

  /** Sets.newHashSet(products...): the distinct products of the arguments. */
  function Dedup(ps: seq<Product>): (r: seq<Product>)
    ensures forall p :: p in r <==> p in ps
    ensures forall i, j :: 0 <= i < j < |r| ==> r[i] != r[j]
    ensures |r| <= |ps|
  {
    if ps == [] then []
    else
      var rest := Dedup(ps[1..]);
      if ps[0] in rest then rest else [ps[0]] + rest
  }

  function Elements(ps: seq<Product>): set<Product> {
    set p | p in ps
  }

  /** The de-duplicated sequence holds one entry per distinct product. */
  lemma {:induction false} DedupCount(ps: seq<Product>)
    ensures |Dedup(ps)| == |Elements(ps)|
  {
    if ps != [] {
      DedupCount(ps[1..]);
      assert ps == [ps[0]] + ps[1..];
      if ps[0] in Dedup(ps[1..]) {
        assert Elements(ps) == Elements(ps[1..]);
      } else {
        assert Elements(ps) == {ps[0]} + Elements(ps[1..]);
        assert ps[0] !in Elements(ps[1..]);
      }
    }
  }

  class PackageSpecification {
    var lineNumber: int
    var maxWeight: real
    var products: seq<Product>
    var strategy: Option<FindStrategy>

    /** The field values once validation has passed: line number 0, the
        default strategy OPTIMIZED. */
    constructor (maxWeight: real, products: seq<Product>)
      ensures this.lineNumber == 0 && this.maxWeight == maxWeight && this.products == products
      ensures strategy == Some(Optimized)
    {
      this.lineNumber := 0;
      this.maxWeight := maxWeight;
      this.products := products;
      this.strategy := Some(Optimized);
    }

    /** PackageSpecification(Double, Set<Product>): validates on line 0 and
        throws the joined messages when any bound is violated. The products
        form a set, so none is listed twice. */
    static method Create(maxWeight: real, products: seq<Product>, renderReal: RenderReal, lineSeparator: string)
      returns (r: Result<PackageSpecification>)
      requires forall i, j :: 0 <= i < j < |products| ==> products[i] != products[j]
      ensures r.Err? <==> !WithinBounds(maxWeight, products)
      ensures r.Err? ==> r.error == ValidateTokens(RawSpecification(0, maxWeight, products), renderReal, lineSeparator).error
      ensures r.Ok? ==> && fresh(r.value)
                        && r.value.lineNumber == 0 && r.value.maxWeight == maxWeight && r.value.products == products
                        && r.value.strategy == Some(Optimized)
    {
      var v := ValidateTokens(RawSpecification(0, maxWeight, products), renderReal, lineSeparator);
      if v.Err? {
        return Err(v.error);
      }
      var s := new PackageSpecification(maxWeight, products);
      r := Ok(s);
    }

    /** PackageSpecification(Double, Product...): the arguments go through a
        HashSet first, so repeated products count once. */
    static method CreateFromProducts(maxWeight: real, products: seq<Product>, renderReal: RenderReal, lineSeparator: string)
      returns (r: Result<PackageSpecification>)
      ensures r.Err? <==> !WithinBounds(maxWeight, Dedup(products))
      ensures r.Ok? ==> && fresh(r.value)
                        && r.value.lineNumber == 0 && r.value.maxWeight == maxWeight && r.value.products == Dedup(products)
                        && r.value.strategy == Some(Optimized)
    {
      r := Create(maxWeight, Dedup(products), renderReal, lineSeparator);
    }

    /** The specification the finders work on. */
    function Spec(): Specification
      reads this
    {
      Specification(lineNumber, maxWeight, products)
    }

    /** setFindBestPackageStrategy: replaces the strategy, null included. */
    method SetFindBestPackageStrategy(s: Option<FindStrategy>)
      modifies this
      ensures strategy == s
      ensures lineNumber == old(lineNumber) && maxWeight == old(maxWeight) && products == old(products)
    {
      strategy := s;
    }

    /** findBestPackage: the switch on the strategy; a null strategy makes the
        switch throw a NullPointerException. */
    method FindBestPackage() returns (r: Result<Option<Package>>)
      ensures strategy.None? ==> r == Err(NullPointer(""))
      ensures strategy.Some? ==> r == FindWith(strategy.value, Spec())
    {
      if strategy.None? {
        return Err(NullPointer(""));
      }
      r := RunWith(strategy.value, Spec());
    }
  }

  /** Sixteen products numbered 1 to 16 at weight and price 101, with
      capacity 101, are rejected by the value constructor. */
  method OversizedRejected(renderReal: RenderReal, lineSeparator: string) returns (r: Result<PackageSpecification>)
    ensures r.Err? && r.error.Validation? && r.error.lineNumber == 0
  {
    var ps := seq(16, i => Product(i + 1, 101.0, 101.0));
    assert ps[0] == Product(1, 101.0, 101.0) && !ProductWithinBounds(ps[0]);
    r := PackageSpecification.Create(101.0, ps, renderReal, lineSeparator);
  }

  /** Repeating one product sixteen times does not break the product-count
      bound, because the repetitions collapse. */
  method RepeatedProductsCollapse(renderReal: RenderReal, lineSeparator: string) returns (r: Result<PackageSpecification>)
    ensures r.Ok? && r.value.products == [Product(1, 10.0, 10.0)]
  {
    var ps := seq(16, i => Product(1, 10.0, 10.0));
    assert Elements(ps) == {Product(1, 10.0, 10.0)} by {
      assert ps[0] == Product(1, 10.0, 10.0);
    }
    DedupCount(ps);
    assert Dedup(ps) == [Product(1, 10.0, 10.0)] by {
      var d := Dedup(ps);
      assert d[0] in ps;
    }
    r := PackageSpecification.CreateFromProducts(10.0, ps, renderReal, lineSeparator);
  }
}
