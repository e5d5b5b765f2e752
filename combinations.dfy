/** CombinationsStream.java, its specification side: the sequences of index
    combinations the two generation strategies emit for n elements and a
    pruning predicate, and what is proved about them. The stateful iterator
    and the stream object are in module CombinationsStreams. */
module Combinations {

  /** canExtendCombination(partialCombination, candidateIndex). */
  type Pred = (set<nat>, nat) -> bool

  predicate InRange(s: set<nat>, n: nat) {
    forall k :: k in s ==> k < n
  }

  /** s ∩ {0..i-1}. */
  function Below(s: set<nat>, i: nat): set<nat> {
    set k | k in s && k < i
  }

  /** s ∩ {i+1..}. */
  function Above(s: set<nat>, i: nat): set<nat> {
    set k | k in s && k > i
  }

  function Pow2(k: nat): nat {
    if k == 0 then 1 else 2 * Pow2(k - 1)
  }

  predicate Distinct<T(==)>(s: seq<T>) {
    forall a, b :: 0 <= a < b < |s| ==> s[a] != s[b]
  }

  lemma DistinctConcat<T>(a: seq<T>, b: seq<T>)
    requires Distinct(a) && Distinct(b)
    requires forall x :: x in a ==> x !in b
    ensures Distinct(a + b)
  {
    forall i, j | 0 <= i < j < |a + b|
      ensures (a + b)[i] != (a + b)[j]
    {
      if i < |a| && j >= |a| {
        assert (a + b)[i] in a && (a + b)[j] == b[j - |a|];
      }
    }
  }

  // ------------------------------------------------- iterative strategy

  /** The combinations the iterative strategy emits, after the empty one,
      starting from the partial combination c (the decisions for indices
      below j) and the next candidate index j: depth first, trying to add an
      index before skipping it; the predicate sees the partial combination. */
  function Gen(n: nat, canExtend: Pred, c: set<nat>, j: nat): seq<set<nat>>
    decreases n - j
  {
    if j >= n then []
    else
      (if canExtend(c, j) then [c + {j}] + Gen(n, canExtend, c + {j}, j + 1) else [])
      + Gen(n, canExtend, c, j + 1)
  }

  /** Everything combinationsStreamIterative emits: the empty combination,
      then the depth-first walk. */
  function IterativeCombinations(n: nat, canExtend: Pred): seq<set<nat>> {
    [{}] + Gen(n, canExtend, {}, 0)
  }

  /** S is emitted by the iterative strategy iff, for each index i of S, the
      predicate allows i on the part of S below i. */
  ghost predicate IterativeAdmissible(n: nat, canExtend: Pred, s: set<nat>) {
    InRange(s, n) && forall k :: k in s ==> canExtend(Below(s, k), k)
  }

  lemma {:induction false} GenMembers(n: nat, canExtend: Pred, c: set<nat>, j: nat, x: set<nat>)
    requires forall k :: k in c ==> k < j
    ensures x in Gen(n, canExtend, c, j) <==>
      && Below(x, j) == c
      && InRange(x, n)
      && (exists k :: k in x && k >= j)
      && (forall k :: k in x && k >= j ==> canExtend(Below(x, k), k))
    decreases n - j
  {
    if j < n {
      var c' := c + {j};
      GenMembers(n, canExtend, c', j + 1, x);
      GenMembers(n, canExtend, c, j + 1, x);
      assert Below(c', j) == c;
      if j in x {
        assert j in Below(x, j + 1) && j !in c;
        assert x !in Gen(n, canExtend, c, j + 1);
        if Below(x, j) == c {
          assert Below(x, j + 1) == c';
          if !(exists k :: k in x && k >= j + 1) {
            assert x == c';
          }
        }
        if x == c' {
          assert Below(x, j) == c && Below(x, j + 1) == c';
          assert forall k :: k in x && k >= j ==> k == j;
        }
      } else {
        assert x != c';
        assert Below(x, j + 1) == Below(x, j);
      }
    }
  }

  /** The iterative strategy emits exactly the admissible combinations. */
  lemma IterativeMembers(n: nat, canExtend: Pred, x: set<nat>)
    ensures x in IterativeCombinations(n, canExtend) <==> IterativeAdmissible(n, canExtend, x)
  {
    GenMembers(n, canExtend, {}, 0, x);
    assert Below(x, 0) == {};
    if x != {} {
      var k :| k in x;
      assert k >= 0;
    }
  }

  lemma {:induction false} GenDistinct(n: nat, canExtend: Pred, c: set<nat>, j: nat)
    requires forall k :: k in c ==> k < j
    ensures Distinct(Gen(n, canExtend, c, j))
    ensures {} !in Gen(n, canExtend, c, j)
    decreases n - j
  {
    if j < n {
      var c' := c + {j};
      GenDistinct(n, canExtend, c', j + 1);
      GenDistinct(n, canExtend, c, j + 1);
      var withJ := Gen(n, canExtend, c', j + 1);
      var skip := Gen(n, canExtend, c, j + 1);
      forall x | x in withJ ensures j in x && x != c' {
        GenMembers(n, canExtend, c', j + 1, x);
        assert j in Below(x, j + 1);
        var k :| k in x && k >= j + 1;
        assert k !in c';
      }
      forall x | x in skip ensures j !in x {
        GenMembers(n, canExtend, c, j + 1, x);
        assert j !in Below(x, j + 1);
      }
      if canExtend(c, j) {
        DistinctConcat([c'], withJ);
        DistinctConcat([c'] + withJ, skip);
      }
      GenMembers(n, canExtend, c, j, {});
    }
  }

  /** No combination is emitted twice by the iterative strategy. */
  lemma IterativeDistinct(n: nat, canExtend: Pred)
    ensures Distinct(IterativeCombinations(n, canExtend))
  {
    GenDistinct(n, canExtend, {}, 0);
    DistinctConcat([{}], Gen(n, canExtend, {}, 0));
  }

  lemma {:induction false} GenCount(n: nat, canExtend: Pred, c: set<nat>, j: nat)
    requires forall s, k :: canExtend(s, k)
    requires j <= n
    ensures |Gen(n, canExtend, c, j)| == Pow2(n - j) - 1
    decreases n - j
  {
    if j < n {
      GenCount(n, canExtend, c + {j}, j + 1);
      GenCount(n, canExtend, c, j + 1);
      assert Pow2(n - j) == 2 * Pow2(n - (j + 1));
    }
  }

  /** With an always-true predicate the iterative strategy emits 2^n
      distinct combinations. */
  lemma IterativeCountAllTrue(n: nat, canExtend: Pred)
    requires forall s, k :: canExtend(s, k)
    ensures |IterativeCombinations(n, canExtend)| == Pow2(n)
    ensures Distinct(IterativeCombinations(n, canExtend))
  {
    GenCount(n, canExtend, {}, 0);
    IterativeDistinct(n, canExtend);
  }

  // ------------------------------------------------- recursive strategy

  /** extendCombination(s, e): a new combination holding s and e; s itself is
      a value and stays as it was. */
  function ExtendCombination(s: set<nat>, e: nat): (r: set<nat>)
    ensures e in r && r - {e} == s - {e}
  {
    s + {e}
  }

  /** The flatMap step of combinationsStreamRecursive(start): every
      combination is kept, and followed by its extension with e when the
      predicate allows e on it. */
  function ExtendEach(cs: seq<set<nat>>, canExtend: Pred, e: nat): seq<set<nat>> {
    if cs == [] then []
    else
      (if canExtend(cs[0], e) then [cs[0], ExtendCombination(cs[0], e)] else [cs[0]])
      + ExtendEach(cs[1..], canExtend, e)
  }

  /** combinationsStreamRecursive(start): the combinations over indices
      [start + 1, n) first, each followed by its extension with start when
      permitted. The empty combination always comes first. */
  function RecursiveCombinations(n: nat, canExtend: Pred, start: nat): (r: seq<set<nat>>)
    ensures |r| >= 1 && r[0] == {}
    decreases n - start
  {
    if start >= n then [{}]
    else ExtendEach(RecursiveCombinations(n, canExtend, start + 1), canExtend, start)
  }

  /** S is emitted by the recursive strategy iff, for each index i of S, the
      predicate allows i on the part of S above i. */
  ghost predicate RecursiveAdmissible(n: nat, canExtend: Pred, s: set<nat>) {
    InRange(s, n) && forall k :: k in s ==> canExtend(Above(s, k), k)
  }

  lemma {:induction false} ExtendEachMembers(cs: seq<set<nat>>, canExtend: Pred, e: nat, y: set<nat>)
    ensures y in ExtendEach(cs, canExtend, e) <==>
      y in cs || exists c :: c in cs && canExtend(c, e) && y == c + {e}
  {
    if cs != [] {
      ExtendEachMembers(cs[1..], canExtend, e, y);
      assert cs == [cs[0]] + cs[1..];
      if exists c :: c in cs && canExtend(c, e) && y == c + {e} {
        var c :| c in cs && canExtend(c, e) && y == c + {e};
        if c != cs[0] {
          assert c in cs[1..];
        }
      }
    }
  }

  /** The admissibility condition of combinationsStreamRecursive(start). */
  ghost predicate AdmissibleFrom(n: nat, canExtend: Pred, start: nat, x: set<nat>) {
    (forall k :: k in x ==> start <= k < n) && forall k :: k in x ==> canExtend(Above(x, k), k)
  }

  /** Admissibility from `start` splits on whether start is taken. */
  lemma AdmissibleFromStep(n: nat, canExtend: Pred, start: nat, x: set<nat>)
    ensures AdmissibleFrom(n, canExtend, start, x) <==>
      AdmissibleFrom(n, canExtend, start + 1, x) ||
      (start in x && start < n && canExtend(x - {start}, start) &&
       AdmissibleFrom(n, canExtend, start + 1, x - {start}))
  {
    var c := x - {start};
    if start in x {
      assert x == c + {start};
      assert forall k :: k in c ==> Above(c, k) == Above(x, k) - {start};
      if forall k :: k in x ==> start <= k {
        assert Above(x, start) == c;
        assert forall k :: k in c ==> Above(c, k) == Above(x, k);
      }
    }
  }

  /** One flatMap step keeps exactly the admissible combinations, given that
      its input holds exactly those admissible from start + 1. */
  lemma ExtendEachAdmissible(n: nat, canExtend: Pred, start: nat, cs: seq<set<nat>>, x: set<nat>)
    requires start < n
    requires forall y :: y in cs <==> AdmissibleFrom(n, canExtend, start + 1, y)
    ensures x in ExtendEach(cs, canExtend, start) <==> AdmissibleFrom(n, canExtend, start, x)
  {
    var c := x - {start};
    ExtendEachMembers(cs, canExtend, start, x);
    AdmissibleFromStep(n, canExtend, start, x);
    if exists c0 :: c0 in cs && canExtend(c0, start) && x == c0 + {start} {
      var c0 :| c0 in cs && canExtend(c0, start) && x == c0 + {start};
      assert start !in c0;
      assert c0 == c;
    }
    if start in x && canExtend(c, start) && AdmissibleFrom(n, canExtend, start + 1, c) {
      assert x == c + {start};
    }
  }

  lemma {:induction false} RecursiveMembersFrom(n: nat, canExtend: Pred, start: nat, x: set<nat>)
    ensures x in RecursiveCombinations(n, canExtend, start) <==> AdmissibleFrom(n, canExtend, start, x)
    decreases n - start
  {
    if start >= n {
      if x != {} {
        var k :| k in x;
      }
    } else {
      var prev := RecursiveCombinations(n, canExtend, start + 1);
      forall y ensures y in prev <==> AdmissibleFrom(n, canExtend, start + 1, y) {
        RecursiveMembersFrom(n, canExtend, start + 1, y);
      }
      ExtendEachAdmissible(n, canExtend, start, prev, x);
    }
  }

  /** The recursive strategy emits exactly the combinations admissible with
      the predicate evaluated on the indices above the candidate. */
  lemma RecursiveMembers(n: nat, canExtend: Pred, x: set<nat>)
    ensures x in RecursiveCombinations(n, canExtend, 0) <==> RecursiveAdmissible(n, canExtend, x)
  {
    RecursiveMembersFrom(n, canExtend, 0, x);
  }

  lemma {:induction false} ExtendEachDistinct(cs: seq<set<nat>>, canExtend: Pred, e: nat)
    requires Distinct(cs)
    requires forall c :: c in cs ==> e !in c
    ensures Distinct(ExtendEach(cs, canExtend, e))
  {
    if cs != [] {
      var head := if canExtend(cs[0], e) then [cs[0], ExtendCombination(cs[0], e)] else [cs[0]];
      var tail := cs[1..];
      assert Distinct(tail);
      ExtendEachDistinct(tail, canExtend, e);
      assert e in cs[0] + {e};
      forall y | y in head ensures y !in ExtendEach(tail, canExtend, e) {
        ExtendEachMembers(tail, canExtend, e, y);
        assert cs[0] !in tail;
      }
      DistinctConcat(head, ExtendEach(tail, canExtend, e));
    }
  }

  lemma {:induction false} RecursiveDistinctFrom(n: nat, canExtend: Pred, start: nat)
    ensures Distinct(RecursiveCombinations(n, canExtend, start))
    decreases n - start
  {
    if start < n {
      var prev := RecursiveCombinations(n, canExtend, start + 1);
      RecursiveDistinctFrom(n, canExtend, start + 1);
      forall c | c in prev ensures start !in c {
        RecursiveMembersFrom(n, canExtend, start + 1, c);
      }
      ExtendEachDistinct(prev, canExtend, start);
    }
  }

  lemma {:induction false} ExtendEachCount(cs: seq<set<nat>>, canExtend: Pred, e: nat)
    requires forall s, k :: canExtend(s, k)
    ensures |ExtendEach(cs, canExtend, e)| == 2 * |cs|
  {
    if cs != [] {
      ExtendEachCount(cs[1..], canExtend, e);
    }
  }

  lemma {:induction false} RecursiveCountFrom(n: nat, canExtend: Pred, start: nat)
    requires forall s, k :: canExtend(s, k)
    requires start <= n
    ensures |RecursiveCombinations(n, canExtend, start)| == Pow2(n - start)
    decreases n - start
  {
    if start < n {
      RecursiveCountFrom(n, canExtend, start + 1);
      ExtendEachCount(RecursiveCombinations(n, canExtend, start + 1), canExtend, start);
    }
  }

  /** With an always-true predicate the recursive strategy also emits 2^n
      distinct combinations. */
  lemma RecursiveCountAllTrue(n: nat, canExtend: Pred)
    requires forall s, k :: canExtend(s, k)
    ensures |RecursiveCombinations(n, canExtend, 0)| == Pow2(n)
    ensures Distinct(RecursiveCombinations(n, canExtend, 0))
  {
    RecursiveCountFrom(n, canExtend, 0);
    RecursiveDistinctFrom(n, canExtend, 0);
  }

  // ------------------------------------- the iterator's remaining output

  /** BitSet.previousSetBit(from): the highest index <= from in s, or -1. */
  function PreviousSetBit(s: set<nat>, from: int): (r: int)
    ensures r == -1 || (0 <= r <= from && r in s)
    ensures forall k :: k in s && k <= from ==> k <= r
    decreases if from < 0 then 0 else from + 1
  {
    if from < 0 then -1
    else if from in s then from
    else PreviousSetBit(s, from - 1)
  }

  /** What the iterator still has to emit when its combination is c and its
      last decided index is `last`: the rest of the depth-first walk below c,
      then, after removing the highest index m of c, the walk resuming with
      the candidate m + 1. */
  ghost function Cont(n: nat, canExtend: Pred, c: set<nat>, last: int): seq<set<nat>>
    requires -1 <= last < n
    requires forall k :: k in c ==> k <= last
    decreases |c|
  {
    Gen(n, canExtend, c, last + 1)
    + if c == {} then []
      else
        var m := PreviousSetBit(c, n - 1);
        assert m in c by {
          var k :| k in c;
        }
        Cont(n, canExtend, c - {m}, m)
  }

  /** The whole iterative walk starts in state ({}, -1). */
  lemma ContStart(n: nat, canExtend: Pred)
    ensures IterativeCombinations(n, canExtend) == [{}] + Cont(n, canExtend, {}, -1)
  {
  }

  /** A denied candidate is skipped: the remaining output is unchanged. */
  lemma ContSkip(n: nat, canExtend: Pred, c: set<nat>, last: int)
    requires -1 <= last < n - 1
    requires forall k :: k in c ==> k <= last
    requires !canExtend(c, last + 1)
    ensures Cont(n, canExtend, c, last + 1) == Cont(n, canExtend, c, last)
  {
  }

  /** A permitted candidate is added and the new combination is emitted next. */
  lemma ContInclude(n: nat, canExtend: Pred, c: set<nat>, last: int)
    requires -1 <= last < n - 1
    requires forall k :: k in c ==> k <= last
    requires canExtend(c, last + 1)
    ensures Cont(n, canExtend, c, last) ==
      [c + {last + 1}] + Cont(n, canExtend, c + {last + 1}, last + 1)
  {
    var c' := c + {last + 1};
    assert PreviousSetBit(c', n - 1) == last + 1;
    assert c' - {last + 1} == c;
  }

  /** At the last index the walk backtracks: it removes the highest index. */
  lemma ContPop(n: nat, canExtend: Pred, c: set<nat>)
    requires n > 0
    requires forall k :: k in c ==> k <= n - 1
    ensures c == {} ==> Cont(n, canExtend, c, n - 1) == []
    ensures c != {} ==>
      var m := PreviousSetBit(c, n - 1);
      0 <= m < n && m in c && (forall k :: k in c - {m} ==> k <= m) &&
      Cont(n, canExtend, c, n - 1) == Cont(n, canExtend, c - {m}, m)
  {
    if c != {} {
      var k :| k in c;
    }
  }
}
