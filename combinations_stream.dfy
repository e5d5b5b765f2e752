/** CombinationsStream.java, its stateful side: the stream object with its
    constructor checks and strategy field, and the iterator behind
    combinationsStreamIterative, proved to emit exactly
    Combinations.IterativeCombinations. */
module CombinationsStreams {
  import opened Common
  import opened Combinations

  datatype Strategy = Recursive | Iterative

  /** What toBitSetStream produces for a strategy. */
  function Emitted(n: nat, canExtend: Pred, strategy: Strategy): seq<set<nat>> {
    match strategy
    case Iterative => IterativeCombinations(n, canExtend)
    case Recursive => RecursiveCombinations(n, canExtend, 0)
  }

  /** The anonymous Iterator<BitSet> of combinationsStreamIterative. The
      BitSet `combination` is a set-valued field; `last == null` is the flag
      `exhausted`; `next == null` is None. Emitted values are copies (sets are
      values), as the clones of the source are. */
  class CombinationIterator {
    const n: nat
    const canExtend: Pred
    var combination: set<nat>
    var last: int
    var exhausted: bool
    var next: Option<set<nat>>

    ghost predicate Valid()
      reads this
    {
      && n > 0
      && -1 <= last < n
      && (forall k :: k in combination ==> k <= last)
      && (exhausted ==> next.None?)
    }

    /** The combinations not yet handed out: the pending `next`, then the
        rest of the walk from the current state. */
    ghost function Remaining(): seq<set<nat>>
      reads this
      requires Valid()
    {
      (if next.Some? then [next.value] else [])
      + (if exhausted then [] else Cont(n, canExtend, combination, last))
    }

    constructor (n: nat, canExtend: Pred)
      requires n > 0
      ensures Valid() && !exhausted
      ensures this.n == n && this.canExtend == canExtend
      ensures Remaining() == IterativeCombinations(n, canExtend)
    {
      this.n := n;
      this.canExtend := canExtend;
      combination := {};
      last := -1;
      exhausted := false;
      next := Some({});
      ContStart(n, canExtend);
    }

    /** hasNext(): finds the next combination if none is pending. Once it has
        answered false, `last` is null and a further call would unbox it, so
        the model stops at the first exhaustion report. */
    method HasNext() returns (b: bool)
      requires Valid() && !exhausted
      modifies this
      ensures Valid()
      ensures Remaining() == old(Remaining())
      ensures b <==> Remaining() != []
      ensures b ==> next.Some? && !exhausted
      ensures !b ==> exhausted
    {
      if next.Some? {
        return true;
      }
      ghost var rest := Remaining();
      while true
        invariant Valid() && !exhausted && next.None?
        invariant Remaining() == rest
        decreases |combination|, n - last
      {
        Step();
        if exhausted || next.Some? {
          break;
        }
      }
      b := next.Some?;
    }

    /** One pass of the outer do-while of hasNext: extend the combination
        with the candidate last + 1, skip the candidate, or backtrack. */
    method Step()
      requires Valid() && !exhausted && next.None?
      modifies this
      ensures Valid() && Remaining() == old(Remaining())
      ensures next.Some? ==> !exhausted
      ensures next.None? && !exhausted ==>
        |combination| < old(|combination|) ||
        (|combination| == old(|combination|) && old(last) < last)
    {
      if last < n - 1 {
        if canExtend(combination, last + 1) {
          Include();
        } else {
          Skip();
        }
      } else {
        Backtrack();
      }
    }

    /** The candidate last + 1 is permitted: it joins the combination, which
        becomes the pending value. */
    method Include()
      requires Valid() && !exhausted && next.None?
      requires last < n - 1 && canExtend(combination, last + 1)
      modifies this
      ensures Valid() && !exhausted && next.Some?
      ensures Remaining() == old(Remaining())
    {
      ContInclude(n, canExtend, combination, last);
      last := last + 1;
      combination := combination + {last};
      next := Some(combination);
      assert Remaining() == [combination] + Cont(n, canExtend, combination, last);
    }

    /** The candidate last + 1 is denied: it is passed over. */
    method Skip()
      requires Valid() && !exhausted && next.None?
      requires last < n - 1 && !canExtend(combination, last + 1)
      modifies this
      ensures Valid() && !exhausted && next.None?
      ensures combination == old(combination) && last == old(last) + 1
      ensures Remaining() == old(Remaining())
    {
      ContSkip(n, canExtend, combination, last);
      last := last + 1;
      assert Remaining() == [] + Cont(n, canExtend, combination, last);
    }

    /** The inner do-while of hasNext: remove elements from the combination
        until one has a valid successor, or none is left (`last = null`). */
    method Backtrack()
      requires Valid() && !exhausted && next.None? && last == n - 1
      modifies this
      ensures Valid() && next.None? && Remaining() == old(Remaining())
      ensures !exhausted ==> last < n - 1 && |combination| < old(|combination|)
    {
      ghost var rest := Cont(n, canExtend, combination, last);
      ghost var size := |combination|;
      while true
        invariant Valid() && !exhausted && next.None?
        invariant last == n - 1 && |combination| <= size
        invariant Cont(n, canExtend, combination, last) == rest
        decreases |combination|
      {
        ContPop(n, canExtend, combination);
        var m := PreviousSetBit(combination, n - 1);
        if m < 0 {
          exhausted := true;
          assert Remaining() == [] + [];
          return;
        }
        last := m;
        combination := combination - {m};
        if last + 1 <= n - 1 {
          assert Remaining() == [] + rest;
          return;
        }
      }
    }

    /** next(): the pending combination, or NoSuchElementException. */
    method Next() returns (r: Result<set<nat>>)
      requires Valid() && !exhausted
      modifies this
      ensures Valid()
      ensures old(Remaining()) != [] ==>
        r == Ok(old(Remaining())[0]) && Remaining() == old(Remaining())[1..] && !exhausted
      ensures old(Remaining()) == [] ==> r == Err(NoSuchElement) && exhausted
    {
      var b := HasNext();
      if b {
        var current := next.value;
        next := None;
        r := Ok(current);
      } else {
        r := Err(NoSuchElement);
      }
    }
  }

  /** The stream object: n, the predicate, and the strategy field. */
  class CombinationsStream {
    const n: nat
    const canExtend: Pred
    var strategy: Strategy

    constructor Init(n: nat, canExtend: Pred)
      requires n > 0
      ensures this.n == n && this.canExtend == canExtend && strategy == Iterative
    {
      this.n := n;
      this.canExtend := canExtend;
      strategy := Iterative;
    }

    /** `new CombinationsStream(n, canExtendCombination)`: checkArgument(n > 0)
        first, then checkNotNull on the predicate; the default strategy is
        ITERATIVE. */
    static method Create(n: int, canExtend: Option<Pred>) returns (r: Result<CombinationsStream>)
      ensures n <= 0 ==> r == Err(IllegalArgument("The number of elements should be bigger than 0."))
      ensures n > 0 && canExtend.None? ==>
        r == Err(NullPointer("The canExtendCombination function should not be null."))
      ensures n > 0 && canExtend.Some? ==>
        r.Ok? && fresh(r.value) && r.value.n == n && r.value.canExtend == canExtend.value
        && r.value.strategy == Iterative
    {
      if n <= 0 {
        return Err(IllegalArgument("The number of elements should be bigger than 0."));
      }
      if canExtend.None? {
        return Err(NullPointer("The canExtendCombination function should not be null."));
      }
      var s := new CombinationsStream.Init(n, canExtend.value);
      r := Ok(s);
    }

    method SetStrategy(strategy: Strategy)
      modifies this
      ensures this.strategy == strategy
    {
      this.strategy := strategy;
    }

    /** toBitSetStream(): dispatches on the strategy. The iterative stream is
        the iterator drained up to its first exhaustion report. */
    method ToBitSetStream() returns (s: seq<set<nat>>)
      requires n > 0
      ensures s == Emitted(n, canExtend, strategy)
    {
      match strategy {
        case Recursive =>
          s := RecursiveCombinations(n, canExtend, 0);
        case Iterative =>
          s := Drain(n, canExtend);
      }
    }
  }

  lemma MoveHead(done: seq<set<nat>>, rest: seq<set<nat>>)
    requires rest != []
    ensures (done + [rest[0]]) + rest[1..] == done + rest
  {
    assert rest == [rest[0]] + rest[1..];
  }

  /** The iterative stream: a fresh iterator drained up to its first
      exhaustion report emits exactly the iterative combinations. */
  method Drain(n: nat, canExtend: Pred) returns (s: seq<set<nat>>)
    requires n > 0
    ensures s == IterativeCombinations(n, canExtend)
  {
    ghost var all := IterativeCombinations(n, canExtend);
    var it := new CombinationIterator(n, canExtend);
    s := [];
    var more := it.HasNext();
    while more
      invariant it.Valid() && fresh(it)
      invariant s + it.Remaining() == all
      invariant more ==> !it.exhausted && it.Remaining() != []
      invariant !more ==> it.Remaining() == []
      decreases |it.Remaining()|
    {
      ghost var before := it.Remaining();
      var x := it.Next();
      MoveHead(s, before);
      s := s + [x.value];
      more := it.HasNext();
    }
    assert s + [] == s;
  }
}
