/** BestPackageFinder: the builder-style facade. Its two fields are the
    strategy (null once an external finder is set) and the external finder;
    findBestPackage prefers the external finder. */
module Facade {
  import opened Common
  import opened Packages
  import opened Strategies

  /** Preconditions.checkNotNull throws a NullPointerException without a
      message. */
  const NullArgument: Exception := NullPointer("")

  /** What findBestPackage answers for the given field values: the external
      finder when there is one, otherwise the strategy's finder; a null
      strategy without an external finder makes the switch throw. */
  function Dispatch(strategy: Option<FindStrategy>, external: Option<Finder>, spec: Specification): Result<Option<Package>> {
    if external.Some? then external.value(spec)
    else if strategy.Some? then FindWith(strategy.value, spec)
    else Err(NullArgument)
  }

  class BestPackageFinder {
    var strategy: Option<FindStrategy>
    var external: Option<Finder>

    /** A null strategy only ever comes with an external finder. */
    ghost predicate Valid()
      reads this
    {
      strategy.None? ==> external.Some?
    }

    /** The default strategy is OPTIMIZED, with no external finder. */
    constructor ()
      ensures strategy == Some(Optimized) && external.None? && Valid()
    {
      strategy := Some(Optimized);
      external := None;
    }

    /** withFindBestPackageStrategy: rejects null; otherwise replaces the
        strategy and returns the same instance. The external finder stays. */
    method WithFindBestPackageStrategy(s: Option<FindStrategy>) returns (r: Result<BestPackageFinder>)
      requires Valid()
      modifies this
      ensures Valid()
      ensures s.None? ==> r == Err(NullArgument) && strategy == old(strategy) && external == old(external)
      ensures s.Some? ==> r == Ok(this) && strategy == s && external == old(external)
    {
      if s.None? {
        return Err(NullArgument);
      }
      strategy := s;
      r := Ok(this);
    }

    /** withPackageFinder: rejects null; otherwise clears the strategy,
        stores the finder and returns the same instance. */
    method WithPackageFinder(f: Option<Finder>) returns (r: Result<BestPackageFinder>)
      requires Valid()
      modifies this
      ensures Valid()
      ensures f.None? ==> r == Err(NullArgument) && strategy == old(strategy) && external == old(external)
      ensures f.Some? ==> r == Ok(this) && strategy.None? && external == f
    {
      if f.None? {
        return Err(NullArgument);
      }
      strategy := None;
      external := f;
      r := Ok(this);
    }

    /** findBestPackage: the external finder if set, otherwise a fresh finder
        object of the current strategy. */
    method FindBestPackage(spec: Specification) returns (r: Result<Option<Package>>)
      ensures r == Dispatch(strategy, external, spec)
    {
      if external.Some? {
        r := external.value(spec);
      } else if strategy.Some? {
        r := RunWith(strategy.value, spec);
      } else {
        r := Err(NullArgument);
      }
    }

    /** apply: the same as findBestPackage. */
    method Apply(spec: Specification) returns (r: Result<Option<Package>>)
      ensures r == Dispatch(strategy, external, spec)
    {
      r := FindBestPackage(spec);
    }
  }

  /** A fresh facade uses the optimized strategy. */
  method DefaultIsOptimized(spec: Specification) returns (r: Result<Option<Package>>)
    ensures r == FindWith(Optimized, spec)
  {
    var finder := new BestPackageFinder();
    r := finder.FindBestPackage(spec);
  }

  /** Each strategy maps to its finder. */
  method StrategyIsUsed(s: FindStrategy, spec: Specification) returns (r: Result<Option<Package>>)
    ensures r == FindWith(s, spec)
  {
    var finder := new BestPackageFinder();
    var _ := finder.WithFindBestPackageStrategy(Some(s));
    r := finder.FindBestPackage(spec);
  }

  /** Once an external finder is set it is always used: choosing a strategy
      afterwards does not clear it. */
  method ExternalFinderSticks(f: Finder, s: FindStrategy, spec: Specification) returns (r: Result<Option<Package>>)
    ensures r == f(spec)
  {
    var finder := new BestPackageFinder();
    var _ := finder.WithPackageFinder(Some(f));
    var _ := finder.WithFindBestPackageStrategy(Some(s));
    r := finder.Apply(spec);
  }
}
