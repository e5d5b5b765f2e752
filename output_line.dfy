/** OutputLine: the text written for one input line, the ascending product
    numbers of the package separated by commas, or "-" when there is no
    package or it is empty. */
module Output {
  import opened Common
  import opened Products
  import opened Packages
  import opened Text

  function Numbers(ps: seq<Product>): (r: seq<int>)
    ensures |r| == |ps| && forall i :: 0 <= i < |ps| ==> r[i] == ps[i].number
  {
    if ps == [] then [] else [ps[0].number] + Numbers(ps[1..])
  }

  /** The fields of a non-empty package's line: its numbers, ascending. */
  function Fields(pkg: Package): seq<string> {
    MapToString(Sort(Numbers(pkg.products)))
  }

  /** OutputLine.toString. */
  function OutputLine(p: Option<Package>): (r: string)
    ensures r != []
    ensures p.None? || p.value.products == [] ==> r == "-"
  {
    if p.None? || p.value.products == [] then "-"
    else
      var fields := Fields(p.value);
      assert fields[0] != [];
      JoinNonEmpty(fields, ",");
      Join(fields, ",")
  }

  lemma NoCommaInNumbers(xs: seq<int>)
    ensures forall i :: 0 <= i < |MapToString(xs)| ==> ',' !in MapToString(xs)[i]
  {
    assert !IsDigit(',');
  }

  function ParseFields(fields: seq<string>): (r: seq<int>)
    requires forall i :: 0 <= i < |fields| ==> IsIntText(fields[i])
    ensures |r| == |fields| && forall i :: 0 <= i < |fields| ==> r[i] == ParseInt(fields[i])
  {
    if fields == [] then [] else [ParseInt(fields[0])] + ParseFields(fields[1..])
  }

  lemma FieldsParse(xs: seq<int>)
    ensures forall i :: 0 <= i < |MapToString(xs)| ==> IsIntText(MapToString(xs)[i])
    ensures ParseFields(MapToString(xs)) == xs
  {
    forall i | 0 <= i < |xs| ensures IsIntText(MapToString(xs)[i]) && ParseInt(MapToString(xs)[i]) == xs[i] {
      IntToStringRoundTrip(xs[i]);
    }
  }

  /** Splitting the line of a non-empty package at its commas gives one
      field per product; each field reads back as a number, and the numbers
      read back ascend and are exactly the package's product numbers. */
  lemma OutputLineFields(pkg: Package)
    requires pkg.products != []
    ensures var fields := Split(OutputLine(Some(pkg)), ',');
      && |fields| == |pkg.products|
      && (forall i :: 0 <= i < |fields| ==> IsIntText(fields[i]))
      && Sorted(ParseFields(fields))
      && multiset(ParseFields(fields)) == multiset(Numbers(pkg.products))
  {
    var sorted := Sort(Numbers(pkg.products));
    SortSorted(Numbers(pkg.products));
    NoCommaInNumbers(sorted);
    SplitJoin(MapToString(sorted), ',');
    assert Split(OutputLine(Some(pkg)), ',') == MapToString(sorted);
    assert |sorted| == |multiset(sorted)| == |multiset(Numbers(pkg.products))| == |pkg.products|;
    FieldsParse(sorted);
  }

  lemma IntToStringNotDash(x: int)
    ensures IntToString(x) != "-"
  {
    if x >= 0 {
      assert IsDigit(IntToString(x)[0]);
    }
  }

  /** The line is "-" exactly when there is no package or it is empty. */
  lemma DashIffNoProducts(p: Option<Package>)
    ensures OutputLine(p) == "-" <==> p.None? || p.value.products == []
  {
    if p.Some? && p.value.products != [] {
      OutputLineFields(p.value);
      assert "-"[0] == '-' && ',' !in "-";
      SplitWord("-", [], ',');
      if |p.value.products| == 1 {
        var sorted := Sort(Numbers(p.value.products));
        SortSorted(Numbers(p.value.products));
        assert |sorted| == |multiset(sorted)| == 1;
        IntToStringNotDash(sorted[0]);
        assert OutputLine(p) == IntToString(sorted[0]);
      }
    }
  }

  lemma SortedTail(a: seq<int>)
    requires Sorted(a) && a != []
    ensures Sorted(a[1..])
  {
    forall i, j | 0 <= i < j < |a| - 1 ensures a[1..][i] <= a[1..][j] {
      assert a[1..][i] == a[i + 1] && a[1..][j] == a[j + 1];
    }
  }

  lemma HeadTail(a: seq<int>)
    requires a != []
    ensures multiset(a) == multiset{a[0]} + multiset(a[1..])
  {
    assert a == [a[0]] + a[1..];
  }

  lemma SortedHead(a: seq<int>, x: int)
    requires Sorted(a) && x in multiset(a)
    ensures a[0] <= x
  {
    var k :| 0 <= k < |a| && a[k] == x;
    assert a[0] <= a[k];
  }

  lemma SameHeadAndTail(a: seq<int>, b: seq<int>)
    requires Sorted(a) && Sorted(b) && multiset(a) == multiset(b) && a != []
    ensures b != [] && a[0] == b[0] && multiset(a[1..]) == multiset(b[1..])
  {
    assert |b| == |multiset(b)| == |multiset(a)| == |a|;
    SortedHead(a, b[0]);
    SortedHead(b, a[0]);
    HeadTail(a);
    HeadTail(b);
    assert multiset(a[1..]) == multiset(a) - multiset{a[0]};
    assert multiset(b[1..]) == multiset(b) - multiset{b[0]};
  }

  /** Ascending sequences with the same elements are equal. */
  lemma {:induction false} SortedUnique(a: seq<int>, b: seq<int>)
    requires Sorted(a) && Sorted(b) && multiset(a) == multiset(b)
    ensures a == b
  {
    if a == [] {
      assert |b| == |multiset(b)| == 0;
    } else {
      SameHeadAndTail(a, b);
      SortedTail(a);
      SortedTail(b);
      SortedUnique(a[1..], b[1..]);
      assert a == [a[0]] + a[1..] && b == [b[0]] + b[1..];
    }
  }

  /** Only the product numbers count, not the order the package's set
      hands them out in. */
  lemma OutputLineIgnoresOrder(p: Package, q: Package)
    requires multiset(Numbers(p.products)) == multiset(Numbers(q.products))
    ensures OutputLine(Some(p)) == OutputLine(Some(q))
  {
    SortSorted(Numbers(p.products));
    SortSorted(Numbers(q.products));
    SortedUnique(Sort(Numbers(p.products)), Sort(Numbers(q.products)));
    if p.products == [] {
      assert |q.products| == |Numbers(q.products)| == |multiset(Numbers(q.products))| == 0;
    }
    if q.products == [] {
      assert |p.products| == |Numbers(p.products)| == |multiset(Numbers(p.products))| == 0;
    }
  }

  /** Products 2 and 1 print as "1,2". */
  lemma TwoProductsExample()
    ensures OutputLine(Some(Package([Product(2, 10.0, 20.0), Product(1, 10.0, 20.0)]))) == "1,2"
  {
    var pkg := Package([Product(2, 10.0, 20.0), Product(1, 10.0, 20.0)]);
    assert Numbers(pkg.products) == [2, 1];
    assert Sort([1]) == [1];
    assert Sort([2, 1]) == [1, 2];
    assert IntToString(1) == "1" && IntToString(2) == "2";
    assert Fields(pkg) == ["1", "2"];
  }
}
