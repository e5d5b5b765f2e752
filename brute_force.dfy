/** BruteForceBestPackageFinder: every subset of the products (Guava's
    Sets.powerSet), turned into packages, filtered by weight, then the
    comparator maximum. */
module BruteForceFinder {
  import opened Common
  import opened Combinations
  import opened Packages

  /** Every set of cs extended with k, in the same order. */
  function WithIndex(cs: seq<set<nat>>, k: nat): (r: seq<set<nat>>)
    ensures |r| == |cs|
    ensures forall i :: 0 <= i < |cs| ==> r[i] == cs[i] + {k}
  {
    if cs == [] then [] else [cs[0] + {k}] + WithIndex(cs[1..], k)
  }

  lemma {:induction false} WithIndexMembers(cs: seq<set<nat>>, k: nat, y: set<nat>)
    ensures y in WithIndex(cs, k) <==> exists c :: c in cs && y == c + {k}
  {
    if cs != [] {
      WithIndexMembers(cs[1..], k, y);
      assert cs == [cs[0]] + cs[1..];
      if exists c :: c in cs && y == c + {k} {
        var c :| c in cs && y == c + {k};
        if c != cs[0] {
          assert c in cs[1..];
        }
      }
    }
  }

  /** Sets.powerSet over the product indices, in its binary-counting order:
      subset number m holds index k iff bit k of m is set. */
  function AllSubsets(n: nat): seq<set<nat>>
    decreases n
  {
    if n == 0 then [{}]
    else AllSubsets(n - 1) + WithIndex(AllSubsets(n - 1), n - 1)
  }

  /** One doubling step: from exactly the subsets of {0..n-2} to exactly the
      subsets of {0..n-1}. */
  lemma AllSubsetsStep(prev: seq<set<nat>>, n: nat, s: set<nat>)
    requires n > 0
    requires forall x :: x in prev <==> InRange(x, n - 1)
    ensures s in prev + WithIndex(prev, n - 1) <==> InRange(s, n)
  {
    var ext := WithIndex(prev, n - 1);
    assert s in prev + ext <==> s in prev || s in ext;
    WithIndexMembers(prev, n - 1, s);
    if n - 1 in s {
      var c := s - {n - 1};
      assert s == c + {n - 1};
      assert !InRange(s, n - 1);
      if exists c0 :: c0 in prev && s == c0 + {n - 1} {
        var c0 :| c0 in prev && s == c0 + {n - 1};
        assert n - 1 !in c0;
        assert c0 == c;
      }
      assert s in ext <==> InRange(c, n - 1);
    } else {
      assert s !in ext;
    }
  }

  /** Every subset of {0..n-1}, the empty one included, is considered. */
  lemma {:induction false} AllSubsetsMembers(n: nat, s: set<nat>)
    ensures s in AllSubsets(n) <==> InRange(s, n)
    decreases n
  {
    if n == 0 {
      if s != {} {
        var k :| k in s;
      }
    } else {
      var prev := AllSubsets(n - 1);
      forall x ensures x in prev <==> InRange(x, n - 1) {
        AllSubsetsMembers(n - 1, x);
      }
      AllSubsetsStep(prev, n, s);
    }
  }

  /** 2^n subsets, no two equal. */
  lemma {:induction false} AllSubsetsCount(n: nat)
    ensures |AllSubsets(n)| == Pow2(n)
    ensures Distinct(AllSubsets(n))
    decreases n
  {
    if n > 0 {
      var prev := AllSubsets(n - 1);
      var ext := WithIndex(prev, n - 1);
      AllSubsetsCount(n - 1);
      forall i | 0 <= i < |prev| ensures n - 1 !in prev[i] {
        AllSubsetsMembers(n - 1, prev[i]);
      }
      forall a, b | 0 <= a < b < |ext| ensures ext[a] != ext[b] {
        assert ext[a] - {n - 1} == prev[a];
        assert ext[b] - {n - 1} == prev[b];
      }
      forall a, b | 0 <= a < |prev| && 0 <= b < |ext| ensures prev[a] != ext[b] {
        assert n - 1 in ext[b];
      }
      DistinctConcat(prev, ext);
    }
  }

  /** The filter step: the packages weighing at most maxWeight. */
  function Fitting(ps: seq<Package>, maxWeight: real): (r: seq<Package>)
    ensures forall p :: p in r <==> p in ps && Weight(p) <= maxWeight
  {
    if ps == [] then []
    else (if Weight(ps[0]) <= maxWeight then [ps[0]] else []) + Fitting(ps[1..], maxWeight)
  }

  /** findBestPackageBruteForce. */
  function Find(spec: Specification): Option<Package> {
    MaxBy(Fitting(PackagesOf(spec.products, AllSubsets(|spec.products|)), spec.maxWeight))
  }

  /** A present result is a best package: drawn from the products, fitting,
      and at least as good as every index set that fits. */
  lemma FindOptimal(spec: Specification)
    requires Find(spec).Some?
    ensures Optimal(spec.products, spec.maxWeight, Find(spec).value)
    ensures forall p :: p in Find(spec).value.products ==> p in spec.products
  {
    var items, cap := spec.products, spec.maxWeight;
    var all := PackagesOf(items, AllSubsets(|items|));
    var best := Find(spec).value;
    assert best in all;
    var i :| 0 <= i < |all| && all[i] == best;
    PackageOfProducts(items, AllSubsets(|items|)[i]);
    forall t | SubsetWeight(items, t, 0) <= cap
      ensures AtLeastAsGood(Price(best), Weight(best), SubsetPrice(items, t, 0), SubsetWeight(items, t, 0))
    {
      var t' := Restrict(items, t);
      RestrictTotals(items, t);
      AllSubsetsMembers(|items|, t');
      var j :| 0 <= j < |AllSubsets(|items|)| && AllSubsets(|items|)[j] == t';
      PackageOfTotals(items, t');
      assert all[j] in Fitting(all, cap);
    }
  }

  /** The result is empty only when nothing fits: the empty package weighs
      0, so only a negative capacity leaves nothing; with non-negative
      weights every negative capacity does. */
  lemma FindEmpty(spec: Specification)
    ensures Find(spec).None? ==> spec.maxWeight < 0.0
    ensures NonNegativeWeights(spec.products) ==> (Find(spec).None? <==> spec.maxWeight < 0.0)
  {
    var items, cap := spec.products, spec.maxWeight;
    var all := PackagesOf(items, AllSubsets(|items|));
    AllSubsetsMembers(|items|, {});
    var j :| 0 <= j < |AllSubsets(|items|)| && AllSubsets(|items|)[j] == {};
    PackageOfEmpty(items);
    if 0.0 <= cap {
      assert all[j] in Fitting(all, cap);
    }
    if NonNegativeWeights(items) && cap < 0.0 && Find(spec).Some? {
      var best := Find(spec).value;
      var i :| 0 <= i < |all| && all[i] == best;
      PackageOfTotals(items, AllSubsets(|items|)[i]);
      SubsetWeightNonNegative(items, AllSubsets(|items|)[i], 0);
    }
  }
}
