/** The string handling the output line and the error messages rely on:
    Integer.toString, Collectors.joining, and the ascending sort of
    Stream.sorted(). */
module Text {

  predicate IsDigit(c: char) {
    '0' <= c <= '9'
  }

  function DigitChar(d: nat): (c: char)
    requires d < 10
    ensures IsDigit(c) && c as int - '0' as int == d
  {
    (d + '0' as int) as char
  }

  /** The decimal digits of n, most significant first, without leading
      zeros. */
  function NatToString(n: nat): (r: string)
    ensures |r| >= 1 && forall c :: c in r ==> IsDigit(c)
    decreases n
  {
    if n < 10 then [DigitChar(n)] else NatToString(n / 10) + [DigitChar(n % 10)]
  }

  /** Integer.toString: a minus sign before the digits of a negative value. */
  function IntToString(i: int): (r: string)
    ensures |r| >= 1 && forall c :: c in r ==> IsDigit(c) || c == '-'
  {
    if i < 0 then "-" + NatToString(-i) else NatToString(i)
  }

  /** The value of a string of decimal digits. */
  function DigitsValue(s: string): nat
    requires forall c :: c in s ==> IsDigit(c)
  {
    if s == [] then 0
    else
      var last := s[|s| - 1];
      assert last in s;
      assert IsDigit(last);
      assert '0' as int <= last as int;
      assert forall c :: c in s[..|s| - 1] ==> c in s;
      var d: nat := last as int - '0' as int;
      10 * DigitsValue(s[..|s| - 1]) + d
  }

  /** A text ParseInt accepts: digits, with at most a leading minus. */
  predicate IsIntText(s: string) {
    && (forall c :: c in s ==> IsDigit(c) || c == '-')
    && forall k :: 0 < k < |s| ==> IsDigit(s[k])
  }

  /** The inverse of IntToString. */
  function ParseInt(s: string): int
    requires IsIntText(s)
  {
    if |s| > 0 && s[0] == '-' then -(DigitsValue(s[1..]) as int) else DigitsValue(s)
  }

  lemma {:induction false} NatToStringValue(n: nat)
    ensures DigitsValue(NatToString(n)) == n
    decreases n
  {
    if n >= 10 {
      var s := NatToString(n / 10) + [DigitChar(n % 10)];
      assert s[..|s| - 1] == NatToString(n / 10);
      NatToStringValue(n / 10);
    }
  }

  lemma NatTextRoundTrip(n: nat)
    ensures IsIntText(NatToString(n)) && ParseInt(NatToString(n)) == n
  {
    var t := NatToString(n);
    assert forall k :: 0 <= k < |t| ==> t[k] in t;
    assert t[0] != '-';
    NatToStringValue(n);
  }

  lemma NegativeTextRoundTrip(n: nat)
    requires n > 0
    ensures IsIntText("-" + NatToString(n)) && ParseInt("-" + NatToString(n)) == -(n as int)
  {
    var t := NatToString(n);
    var s := "-" + t;
    assert forall k :: 0 < k < |s| ==> s[k] == t[k - 1] && t[k - 1] in t;
    assert s[1..] == t;
    NatToStringValue(n);
  }

  /** Integer.toString loses nothing: the number reads back from its text. */
  lemma IntToStringRoundTrip(i: int)
    ensures IsIntText(IntToString(i))
    ensures ParseInt(IntToString(i)) == i
  {
    if i < 0 {
      NegativeTextRoundTrip(-i);
    } else {
      NatTextRoundTrip(i);
    }
  }

  /** Collectors.joining(sep). */
  function Join(parts: seq<string>, sep: string): string
    decreases |parts|
  {
    if parts == [] then ""
    else if |parts| == 1 then parts[0]
    else parts[0] + sep + Join(parts[1..], sep)
  }

  /** A joined text is empty only when every part is. */
  lemma {:induction false} JoinNonEmpty(parts: seq<string>, sep: string)
    requires parts != [] && parts[0] != []
    ensures Join(parts, sep) != []
  {
    if |parts| > 1 {
      assert Join(parts, sep)[0] == parts[0][0];
    }
  }

  /** The fields of s between the occurrences of the separator. */
  function Split(s: string, sep: char): (r: seq<string>)
    ensures |r| >= 1
    decreases |s|
  {
    if s == [] then [[]]
    else
      var rest := Split(s[1..], sep);
      if s[0] == sep then [[]] + rest else [[s[0]] + rest[0]] + rest[1..]
  }

  lemma {:induction false} SplitWord(w: string, t: string, sep: char)
    requires sep !in w
    ensures Split(w, sep) == [w]
    ensures Split(w + [sep] + t, sep) == [w] + Split(t, sep)
    decreases |w|
  {
    if w == [] {
      assert w + [sep] + t == [sep] + t;
      assert ([sep] + t)[1..] == t;
    } else {
      SplitWord(w[1..], t, sep);
      assert (w + [sep] + t)[1..] == w[1..] + [sep] + t;
      assert [w[0]] + w[1..] == w;
    }
  }

  /** Splitting a joined text at a character no part contains gives the
      parts back, so the field count is the part count. */
  lemma {:induction false} SplitJoin(parts: seq<string>, sep: char)
    requires parts != []
    requires forall i :: 0 <= i < |parts| ==> sep !in parts[i]
    ensures Split(Join(parts, [sep]), sep) == parts
    decreases |parts|
  {
    if |parts| == 1 {
      SplitWord(parts[0], [], sep);
    } else {
      SplitJoin(parts[1..], sep);
      SplitWord(parts[0], Join(parts[1..], [sep]), sep);
      assert [parts[0]] + parts[1..] == parts;
    }
  }

  // ---------------------------------------------------------- sorting

  predicate Sorted(xs: seq<int>) {
    forall i, j :: 0 <= i < j < |xs| ==> xs[i] <= xs[j]
  }

  function Insert(x: int, xs: seq<int>): seq<int> {
    if xs == [] || x <= xs[0] then [x] + xs
    else [xs[0]] + Insert(x, xs[1..])
  }

  lemma ConsSorted(h: int, t: seq<int>)
    requires Sorted(t) && forall j :: 0 <= j < |t| ==> h <= t[j]
    ensures Sorted([h] + t)
  {
    var r := [h] + t;
    forall i, j | 0 <= i < j < |r| ensures r[i] <= r[j] {
      assert r[j] == t[j - 1];
      if i > 0 {
        assert r[i] == t[i - 1];
      }
    }
  }

  lemma {:induction false} InsertSorted(x: int, xs: seq<int>)
    requires Sorted(xs)
    ensures Sorted(Insert(x, xs)) && multiset(Insert(x, xs)) == multiset(xs) + multiset{x}
  {
    if xs == [] || x <= xs[0] {
      assert Insert(x, xs) == [x] + xs;
      ConsSorted(x, xs);
    } else {
      var rest := Insert(x, xs[1..]);
      InsertSorted(x, xs[1..]);
      forall j | 0 <= j < |rest| ensures xs[0] <= rest[j] {
        assert rest[j] in multiset(rest);
        assert rest[j] == x || rest[j] in multiset(xs[1..]);
      }
      assert Insert(x, xs) == [xs[0]] + rest;
      ConsSorted(xs[0], rest);
      assert xs == [xs[0]] + xs[1..];
      assert multiset([xs[0]] + rest) == multiset{xs[0]} + multiset(rest);
    }
  }

  /** Stream.sorted() on integers, an insertion sort. */
  function Sort(xs: seq<int>): seq<int> {
    if xs == [] then [] else Insert(xs[0], Sort(xs[1..]))
  }

  /** The sorted sequence is ascending and holds the same elements. */
  lemma {:induction false} SortSorted(xs: seq<int>)
    ensures Sorted(Sort(xs)) && multiset(Sort(xs)) == multiset(xs)
  {
    if xs != [] {
      SortSorted(xs[1..]);
      InsertSorted(xs[0], Sort(xs[1..]));
      assert xs == [xs[0]] + xs[1..];
    }
  }

  function MapToString(xs: seq<int>): (r: seq<string>)
    ensures |r| == |xs| && forall i :: 0 <= i < |xs| ==> r[i] == IntToString(xs[i])
  {
    if xs == [] then [] else [IntToString(xs[0])] + MapToString(xs[1..])
  }
}
