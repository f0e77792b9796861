/**
 * The `cartesian_product` view: a lazy forward walk over every pair drawn
 * from two ranges, with the second range's index varying fastest:
 * (0,0), (0,1), ..., (0,n2-1), (1,0), ..., (n1-1,n2-1).
 *
 * The two ranges are sequences of n1 and n2 elements, read only. The
 * iterators `pos1` and `pos2` become element indices, `last1` and `last2`
 * are n1 and n2, and the sentinel `end()` is the position (n1, n2).
 */
module CartesianProduct {

  /** The two cursors of an iterator, as element indices. */
  datatype Position = Position(pos1: nat, pos2: nat)

  /** A position that may be dereferenced and advanced: both cursors in range. */
  predicate Dereferenceable(n1: nat, n2: nat, p: Position)
  {
    p.pos1 < n1 && p.pos2 < n2
  }

  /** `end()`: both cursors at the ends of their ranges. */
  function Sentinel(n1: nat, n2: nat): (p: Position)
    ensures !Dereferenceable(n1, n2, p)
  {
    Position(n1, n2)
  }

  /** The positions a walk from `begin()` can be at: a pair, or the sentinel. */
  predicate Reachable(n1: nat, n2: nat, p: Position)
  {
    Dereferenceable(n1, n2, p) || p == Sentinel(n1, n2)
  }

  lemma MulMonotone(a: nat, b: nat, c: nat)
    requires a <= b
    ensures a * c <= b * c
  {
  }

  /**
   * Place of a position in the walk: a pair is numbered row by row, and the
   * sentinel is n1 * n2.
   */
  function Index(n1: nat, n2: nat, p: Position): (r: nat)
    requires Reachable(n1, n2, p)
    ensures r <= n1 * n2
    ensures r < n1 * n2 <==> Dereferenceable(n1, n2, p)
  {
    if p.pos1 == n1 then n1 * n2
    else
      MulMonotone(p.pos1 + 1, n1, n2);
      p.pos1 * n2 + p.pos2
  }

  /** Two reachable positions with the same place in the walk are the same position. */
  lemma IndexInjective(n1: nat, n2: nat, p: Position, q: Position)
    requires Reachable(n1, n2, p) && Reachable(n1, n2, q)
    requires Index(n1, n2, p) == Index(n1, n2, q)
    ensures p == q
  {
    if Dereferenceable(n1, n2, p) && Dereferenceable(n1, n2, q) {
      if p.pos1 < q.pos1 {
        RowsApart(n2, p, q);
      } else if q.pos1 < p.pos1 {
        RowsApart(n2, q, p);
      }
    }
  }

  /** A pair on an earlier row is numbered before every pair on a later row. */
  lemma RowsApart(n2: nat, p: Position, q: Position)
    requires p.pos2 < n2 && p.pos1 < q.pos1
    ensures p.pos1 * n2 + p.pos2 < q.pos1 * n2
  {
    MulMonotone(p.pos1 + 1, q.pos1, n2);
    assert (p.pos1 + 1) * n2 == p.pos1 * n2 + n2;
  }

  /** Reachable positions are equal exactly when their places in the walk are. */
  lemma SamePlaceSamePosition(n1: nat, n2: nat, p: Position, q: Position)
    requires Reachable(n1, n2, p) && Reachable(n1, n2, q)
    ensures Index(n1, n2, p) == Index(n1, n2, q) <==> p == q
  {
    if Index(n1, n2, p) == Index(n1, n2, q) {
      IndexInjective(n1, n2, p, q);
    }
  }

  /**
   * `begin()` as the constructor leaves it: the first pair, or the sentinel
   * when the product is empty (the guard on `size() == 0`).
   */
  function Start(n1: nat, n2: nat): (p: Position)
    ensures Reachable(n1, n2, p) && Index(n1, n2, p) == 0
    ensures p == Sentinel(n1, n2) <==> n1 == 0 || n2 == 0
  {
    if n1 * n2 == 0 then Sentinel(n1, n2) else Position(0, 0)
  }

  /** Strict row-major (lexicographic) order on positions. */
  predicate Precedes(p: Position, q: Position)
  {
    p.pos1 < q.pos1 || (p.pos1 == q.pos1 && p.pos2 < q.pos2)
  }

  /**
   * `operator++`: the second cursor moves one step; at the end of its range
   * it restarts and the first cursor moves one step, and when that reaches
   * the end of its range the second cursor is forced to its end as well.
   */
  function Step(n1: nat, n2: nat, p: Position): (q: Position)
    requires Dereferenceable(n1, n2, p)
    ensures Reachable(n1, n2, q)
    ensures Index(n1, n2, q) == Index(n1, n2, p) + 1
    ensures Precedes(p, q)
  {
    var pos2 := p.pos2 + 1;
    if pos2 != n2 then Position(p.pos1, pos2)
    else
      var pos1 := p.pos1 + 1;
      assert pos1 * n2 == p.pos1 * n2 + n2;
      if pos1 == n1 then Position(pos1, n2) else Position(pos1, 0)
  }

  /** `std::advance` by k: k successive steps. */
  function Advance(n1: nat, n2: nat, p: Position, k: nat): (q: Position)
    requires Reachable(n1, n2, p) && Index(n1, n2, p) + k <= n1 * n2
    ensures Reachable(n1, n2, q) && Index(n1, n2, q) == Index(n1, n2, p) + k
    decreases k
  {
    if k == 0 then p else Advance(n1, n2, Step(n1, n2, p), k - 1)
  }

  /** Advancing by a and then by b is advancing by a + b. */
  lemma {:induction false} AdvanceAdd(n1: nat, n2: nat, p: Position, a: nat, b: nat)
    requires Reachable(n1, n2, p) && Index(n1, n2, p) + a + b <= n1 * n2
    ensures Advance(n1, n2, Advance(n1, n2, p, a), b) == Advance(n1, n2, p, a + b)
    decreases a
  {
    if a > 0 {
      AdvanceAdd(n1, n2, Step(n1, n2, p), a - 1, b);
    }
  }

  /** One more step after advancing by k is advancing by k + 1. */
  lemma StepAfterAdvance(n1: nat, n2: nat, p: Position, k: nat)
    requires Reachable(n1, n2, p) && Index(n1, n2, p) + k + 1 <= n1 * n2
    ensures Dereferenceable(n1, n2, Advance(n1, n2, p, k))
    ensures Step(n1, n2, Advance(n1, n2, p, k)) == Advance(n1, n2, p, k + 1)
  {
    AdvanceAdd(n1, n2, p, k, 1);
  }

  /** Stepping from begin exactly n1 * n2 times lands on the sentinel; for an empty product that is zero steps. */
  lemma WalkEndsAtEnd(n1: nat, n2: nat)
    ensures Advance(n1, n2, Start(n1, n2), n1 * n2) == Sentinel(n1, n2)
  {
    IndexInjective(n1, n2, Advance(n1, n2, Start(n1, n2), n1 * n2), Sentinel(n1, n2));
  }

  /** Every pair (p1, p2) with p1 < n1 and p2 < n2 is visited, after exactly Index(n1, n2, q) steps from begin. */
  lemma WalkVisitsEveryPair(n1: nat, n2: nat, q: Position)
    requires Dereferenceable(n1, n2, q)
    ensures Index(n1, n2, q) < n1 * n2
    ensures Advance(n1, n2, Start(n1, n2), Index(n1, n2, q)) == q
  {
    IndexInjective(n1, n2, Advance(n1, n2, Start(n1, n2), Index(n1, n2, q)), q);
  }

  /** The k-th position of the walk is (k / n2, k % n2). */
  lemma KthPosition(n1: nat, n2: nat, k: nat)
    requires k < n1 * n2
    ensures k / n2 < n1 && k % n2 < n2
    ensures Advance(n1, n2, Start(n1, n2), k) == Position(k / n2, k % n2)
  {
    var q := Position(k / n2, k % n2);
    assert k == (k / n2) * n2 + k % n2;
    if k / n2 >= n1 {
      MulMonotone(n1, k / n2, n2);
      assert false;
    }
    IndexInjective(n1, n2, Advance(n1, n2, Start(n1, n2), k), q);
  }

  /** The walk visits pairs in strictly increasing row-major order, so no pair twice. */
  lemma {:induction false} WalkIsIncreasing(n1: nat, n2: nat, a: nat, b: nat)
    requires a < b <= n1 * n2
    ensures Precedes(Advance(n1, n2, Start(n1, n2), a), Advance(n1, n2, Start(n1, n2), b))
    decreases b - a
  {
    StepAfterAdvance(n1, n2, Start(n1, n2), a);
    if a + 1 < b {
      WalkIsIncreasing(n1, n2, a + 1, b);
    }
  }

  /**
   * What `std::accumulate` computes from position p to the sentinel: `op`
   * applied to the running value and each dereferenced pair in turn.
   */
  function FoldFrom<A, B, R>(xs: seq<A>, ys: seq<B>, p: Position, acc: R, op: (R, (A, B)) -> R): (r: R)
    requires Reachable(|xs|, |ys|, p)
    ensures p == Sentinel(|xs|, |ys|) ==> r == acc
    decreases |xs| * |ys| - Index(|xs|, |ys|, p)
  {
    if Dereferenceable(|xs|, |ys|, p) then
      FoldFrom(xs, ys, Step(|xs|, |ys|, p), op(acc, (xs[p.pos1], ys[p.pos2])), op)
    else
      acc
  }

  /** An operation that counts the pairs it is applied to. */
  function CountPair<A, B>(count: int, pair: (A, B)): int
  {
    count + 1
  }

  /** `std::accumulate` applies its operation once to every pair from p up to `end()`. */
  lemma {:induction false} FoldAppliesOncePerPair<A, B>(xs: seq<A>, ys: seq<B>, p: Position, acc: int)
    requires Reachable(|xs|, |ys|, p)
    ensures FoldFrom(xs, ys, p, acc, CountPair) == acc + |xs| * |ys| - Index(|xs|, |ys|, p)
    decreases |xs| * |ys| - Index(|xs|, |ys|, p)
  {
    if Dereferenceable(|xs|, |ys|, p) {
      FoldAppliesOncePerPair(xs, ys, Step(|xs|, |ys|, p), acc + 1);
    }
  }

  function Sum(s: seq<int>): int
  {
    if s == [] then 0 else s[0] + Sum(s[1..])
  }

  /** The operation of the test: add the second component of the pair to the running sum. */
  function AddSecond<A>(sum: int, pair: (A, int)): int
  {
    sum + pair.1
  }

  lemma {:induction false} FoldSecondsFrom<A>(xs: seq<A>, ys: seq<int>, p: Position, acc: int)
    requires Dereferenceable(|xs|, |ys|, p)
    ensures FoldFrom(xs, ys, p, acc, AddSecond) == acc + Sum(ys[p.pos2..]) + (|xs| - p.pos1 - 1) * Sum(ys)
    decreases |xs| * |ys| - Index(|xs|, |ys|, p)
  {
    var n1, n2 := |xs|, |ys|;
    var q := Step(n1, n2, p);
    var acc' := acc + ys[p.pos2];
    assert FoldFrom(xs, ys, p, acc, AddSecond) == FoldFrom(xs, ys, q, acc', AddSecond);
    assert ys[p.pos2..][1..] == ys[p.pos2 + 1..];
    assert Sum(ys[p.pos2..]) == ys[p.pos2] + Sum(ys[p.pos2 + 1..]);
    if p.pos2 + 1 < n2 {
      FoldSecondsFrom(xs, ys, q, acc');
    } else if p.pos1 + 1 < n1 {
      assert q == Position(p.pos1 + 1, 0);
      FoldSecondsFrom(xs, ys, q, acc');
      assert ys[0..] == ys;
      OneMoreRow(n1 - p.pos1 - 1, Sum(ys));
    } else {
      assert q == Sentinel(n1, n2);
    }
  }

  /** Distributes one row's worth of a sum out of a product. */
  lemma OneMoreRow(rows: int, s: int)
    ensures rows * s == s + (rows - 1) * s
  {
  }

  /**
   * Summing the second components over the whole walk adds every element
   * of the second range once per element of the first.
   */
  lemma SumOfSeconds<A>(xs: seq<A>, ys: seq<int>, init: int)
    ensures FoldFrom(xs, ys, Start(|xs|, |ys|), init, AddSecond) == init + |xs| * Sum(ys)
  {
    if |xs| * |ys| == 0 {
      if |ys| == 0 {
        assert Sum(ys) == 0;
      }
    } else {
      FoldSecondsFrom(xs, ys, Start(|xs|, |ys|), init);
      assert ys[0..] == ys;
    }
  }

  /** The iterator of `cartesian_product`; its elements are read only. */
  class ProductIterator<A, B> {
    /** The first range, `[first1, last1)`. */
    const xs: seq<A>
    /** The second range, `[first2, last2)`. */
    const ys: seq<B>
    var pos1: nat
    var pos2: nat

    function At(): Position
      reads this
    {
      Position(pos1, pos2)
    }

    ghost predicate Valid()
      reads this
    {
      Reachable(|xs|, |ys|, At())
    }

    constructor (xs: seq<A>, ys: seq<B>, pos1: nat, pos2: nat)
      ensures this.xs == xs && this.ys == ys
      ensures this.pos1 == pos1 && this.pos2 == pos2
    {
      this.xs := xs;
      this.ys := ys;
      this.pos1 := pos1;
      this.pos2 := pos2;
    }

    /** A copy of another iterator, as C++ iterators are passed by value. */
    constructor Copy(other: ProductIterator<A, B>)
      ensures xs == other.xs && ys == other.ys && At() == other.At()
    {
      xs := other.xs;
      ys := other.ys;
      pos1 := other.pos1;
      pos2 := other.pos2;
    }

    /** `operator*`: the element of each range the iterator designates. */
    method Deref() returns (first: A, second: B)
      requires Valid() && Dereferenceable(|xs|, |ys|, At())
      ensures first == xs[pos1] && second == ys[pos2]
    {
      first, second := xs[pos1], ys[pos2];
    }

    /** `operator!=`: both cursors are compared. */
    function Differs(other: ProductIterator<A, B>): (r: bool)
      reads this, other
      requires Valid() && other.Valid() && |other.xs| == |xs| && |other.ys| == |ys|
      ensures r <==> Index(|xs|, |ys|, At()) != Index(|xs|, |ys|, other.At())
    {
      SamePlaceSamePosition(|xs|, |ys|, At(), other.At());
      pos1 != other.pos1 || pos2 != other.pos2
    }

    /** `operator++`. */
    method Next()
      requires Valid() && Dereferenceable(|xs|, |ys|, At())
      modifies this
      ensures Valid() && At() == Step(|xs|, |ys|, old(At()))
    {
      pos2 := pos2 + 1;
      if pos2 == |ys| {
        pos2 := 0;
        pos1 := pos1 + 1;
        if pos1 == |xs| {
          pos2 := |ys|;
        }
      }
    }
  }

  /** The `cartesian_product` view over two ranges it does not own. */
  class ProductView<A, B> {
    const xs: seq<A>
    const ys: seq<B>
    /** The cursors of `_begin`. */
    var first: Position
    /** The cursors of `_end`. */
    const last: Position

    ghost predicate Valid()
      reads this
    {
      last == Sentinel(|xs|, |ys|) && first == Start(|xs|, |ys|)
    }

    /** The constructor: when `size()` is 0, `_begin` is overwritten with `_end`. */
    constructor (xs: seq<A>, ys: seq<B>)
      ensures Valid() && this.xs == xs && this.ys == ys
    {
      this.xs := xs;
      this.ys := ys;
      first := Position(0, 0);
      last := Position(|xs|, |ys|);
      new;
      if Size() == 0 {
        first := last;
      }
    }

    /** `size()`: the lengths of the ranges `_begin` spans, multiplied. */
    function Size(): (r: nat)
      reads this
      requires first.pos1 <= |xs| && first.pos2 <= |ys|
      ensures first == Position(0, 0) ==> r == |xs| * |ys|
      ensures Valid() ==> r == |xs| * |ys|
    {
      (|xs| - first.pos1) * (|ys| - first.pos2)
    }

    /** `begin()`: a copy of `_begin`. */
    method Begin() returns (it: ProductIterator<A, B>)
      requires Valid()
      ensures fresh(it) && it.Valid() && it.xs == xs && it.ys == ys
      ensures it.At() == Start(|xs|, |ys|)
    {
      it := new ProductIterator(xs, ys, first.pos1, first.pos2);
    }

    /** `end()`: a copy of `_end`. */
    method End() returns (it: ProductIterator<A, B>)
      requires Valid()
      ensures fresh(it) && it.Valid() && it.xs == xs && it.ys == ys
      ensures it.At() == Sentinel(|xs|, |ys|)
    {
      it := new ProductIterator(xs, ys, last.pos1, last.pos2);
    }
  }

  /** `std::distance(first, last)`: copies `first` and steps it until it equals `last`. */
  method Distance<A, B>(first: ProductIterator<A, B>, last: ProductIterator<A, B>) returns (d: nat)
    requires first.Valid() && last.Valid() && last.xs == first.xs && last.ys == first.ys
    requires Index(|first.xs|, |first.ys|, first.At()) <= Index(|first.xs|, |first.ys|, last.At())
    ensures d == Index(|first.xs|, |first.ys|, last.At()) - Index(|first.xs|, |first.ys|, first.At())
    ensures Advance(|first.xs|, |first.ys|, first.At(), d) == last.At()
  {
    var n1, n2 := |first.xs|, |first.ys|;
    ghost var start, stop := first.At(), last.At();
    var it := new ProductIterator.Copy(first);
    d := 0;
    while it.Differs(last)
      invariant fresh(it) && it.Valid() && it.xs == first.xs && it.ys == first.ys
      invariant Index(n1, n2, start) + d <= Index(n1, n2, stop)
      invariant it.At() == Advance(n1, n2, start, d)
      decreases Index(n1, n2, stop) - Index(n1, n2, it.At())
    {
      StepAfterAdvance(n1, n2, start, d);
      it.Next();
      d := d + 1;
    }
    IndexInjective(n1, n2, it.At(), stop);
  }

  /** `std::accumulate(first, end(), init, op)`: folds `op` over the dereferenced pairs. */
  method Accumulate<A, B, R>(first: ProductIterator<A, B>, last: ProductIterator<A, B>, init: R,
                             op: (R, (A, B)) -> R) returns (r: R)
    requires first.Valid() && last.xs == first.xs && last.ys == first.ys
    requires last.At() == Sentinel(|first.xs|, |first.ys|)
    ensures r == FoldFrom(first.xs, first.ys, first.At(), init, op)
  {
    var xs, ys := first.xs, first.ys;
    ghost var start := first.At();
    var it := new ProductIterator.Copy(first);
    r := init;
    while it.Differs(last)
      invariant fresh(it) && it.Valid() && it.xs == xs && it.ys == ys
      invariant FoldFrom(xs, ys, it.At(), r, op) == FoldFrom(xs, ys, start, init, op)
      decreases |xs| * |ys| - Index(|xs|, |ys|, it.At())
    {
      var a, b := it.Deref();
      r := op(r, (a, b));
      it.Next();
    }
  }

  /** The `k`-th element of the walk is the pair at row `k / |ys|`, column `k % |ys|`. */
  ghost predicate RowMajor<A, B>(xs: seq<A>, ys: seq<B>, visits: seq<(A, B)>)
  {
    forall k | 0 <= k < |visits| :: 0 < |ys| && k / |ys| < |xs| && visits[k] == (xs[k / |ys|], ys[k % |ys|])
  }

  lemma RowMajorExtend<A, B>(xs: seq<A>, ys: seq<B>, visits: seq<(A, B)>)
    requires RowMajor(xs, ys, visits) && |visits| < |xs| * |ys|
    ensures |visits| / |ys| < |xs| && |visits| % |ys| < |ys|
    ensures RowMajor(xs, ys, visits + [(xs[|visits| / |ys|], ys[|visits| % |ys|])])
  {
    KthPosition(|xs|, |ys|, |visits|);
  }

  /**
   * A range-for loop over the view: the pairs its body sees, in order. The
   * k-th is (xs[k / n2], ys[k % n2]), and there are n1 * n2 of them, none
   * when either range is empty.
   */
  method RangeFor<A, B>(xs: seq<A>, ys: seq<B>) returns (visits: seq<(A, B)>)
    ensures |visits| == |xs| * |ys|
    ensures forall k | 0 <= k < |visits| :: k / |ys| < |xs| && visits[k] == (xs[k / |ys|], ys[k % |ys|])
  {
    var n1, n2 := |xs|, |ys|;
    var pairs := new ProductView(xs, ys);
    var it := pairs.Begin();
    var last := pairs.End();
    ghost var start := Start(n1, n2);
    visits := [];
    while it.Differs(last)
      invariant fresh(it) && it.Valid() && it.xs == xs && it.ys == ys
      invariant last.At() == Sentinel(n1, n2) && last.xs == xs && last.ys == ys
      invariant |visits| == Index(n1, n2, it.At())
      invariant it.At() == Advance(n1, n2, start, |visits|)
      invariant RowMajor(xs, ys, visits)
      decreases n1 * n2 - |visits|
    {
      KthPosition(n1, n2, |visits|);
      RowMajorExtend(xs, ys, visits);
      var a, b := it.Deref();
      StepAfterAdvance(n1, n2, start, |visits|);
      visits := visits + [(a, b)];
      it.Next();
    }
    WalkEndsAtEnd(n1, n2);
  }

  /** The `cartesian_product` test case over {0, 1, 3} x {10, 20}: `size()` and `std::distance(begin(), end())`. */
  method SmallProductCounts() returns (size: nat, distance: nat)
    ensures size == 6 && distance == 6
  {
    var pairs := new ProductView([0, 1, 3], [10, 20]);
    size := pairs.Size();
    var first := pairs.Begin();
    var last := pairs.End();
    distance := Distance(first, last);
  }

  /** The same test case: the second components, summed by `std::accumulate`, give 90. */
  method SmallProductSum() returns (sum: int)
    ensures sum == 90
  {
    var xs, ys := [0, 1, 3], [10, 20];
    var pairs := new ProductView(xs, ys);
    var first := pairs.Begin();
    var last := pairs.End();
    sum := Accumulate(first, last, 0, AddSecond);
    SumOfSeconds(xs, ys, 0);
    assert Sum(ys) == 30;
  }

  /** The same test case: the pairs `*it` yields while `it` is stepped from `begin()`. */
  method SmallProductTrace() returns (order: seq<(int, int)>)
    ensures order == [(0, 10), (0, 20), (1, 10), (1, 20), (3, 10), (3, 20)]
  {
    var pairs := new ProductView([0, 1, 3], [10, 20]);
    var it := pairs.Begin();
    var x0, y0 := it.Deref();
    it.Next();
    assert it.At() == Position(0, 1);
    var x1, y1 := it.Deref();
    it.Next();
    assert it.At() == Position(1, 0);
    var x2, y2 := it.Deref();
    it.Next();
    assert it.At() == Position(1, 1);
    var x3, y3 := it.Deref();
    it.Next();
    assert it.At() == Position(2, 0);
    var x4, y4 := it.Deref();
    it.Next();
    assert it.At() == Position(2, 1);
    var x5, y5 := it.Deref();
    order := [(x0, y0), (x1, y1), (x2, y2), (x3, y3), (x4, y4), (x5, y5)];
  }

  /** The same test case: after the first range is cleared, a range-for body never runs. */
  method ClearedProductVisits() returns (visits: nat)
    ensures visits == 0
  {
    var seen := RangeFor<int, int>([], [10, 20]);
    visits := |seen|;
  }
}
