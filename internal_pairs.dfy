/**
 * The `internal_pairs` view: a lazy forward walk over every unique pair
 * (i, j), i < j, of one container, in the row-major order of a strictly
 * upper-triangular matrix: (0,1), (0,2), ..., (0,n-1), (1,2), ..., (n-2,n-1).
 *
 * The container is an `array` of n elements. The three container iterators
 * an iterator holds (`_end`, `i`, `j`) become element indices: `_end` is n,
 * and the sentinel `end()` is the position (n-1, n).
 */
module InternalPairs {

  /** `size_t` arithmetic is carried out modulo 2^64. */
  const SizeModulus: nat := 0x1_0000_0000_0000_0000

  /** The two cursors of an iterator, as element indices. */
  datatype Position = Position(i: nat, j: nat)

  /** Reference count of the pairs i < j among n elements, one row at a time. */
  function PairCount(n: nat): nat
  {
    if n == 0 then 0 else PairCount(n - 1) + (n - 1)
  }

  lemma {:induction false} PairCountClosedForm(n: nat)
    ensures 2 * PairCount(n) == n * (n - 1)
  {
    if n > 0 {
      PairCountClosedForm(n - 1);
      assert (n - 1) * (n - 2) + 2 * (n - 1) == n * (n - 1);
    }
  }

  /**
   * What `size()` returns for a container of n elements: the product
   * `n * (n - 1)` and the decrement are both computed in `size_t`.
   */
  function SizeOfLength(n: nat): (r: nat)
    requires n < SizeModulus
    ensures r < SizeModulus
    ensures n <= 1 ==> r == 0
  {
    var pred := (n + SizeModulus - 1) % SizeModulus;
    (n * pred) % SizeModulus / 2
  }

  /** As long as `n * (n - 1)` fits in `size_t`, `size()` is the number of unique pairs. */
  lemma SizeCountsPairs(n: nat)
    requires n < SizeModulus && n * (n - 1) < SizeModulus
    ensures SizeOfLength(n) == PairCount(n)
  {
    PairCountClosedForm(n);
    var pred := (n + SizeModulus - 1) % SizeModulus;
    if n == 0 {
      assert n * pred == 0;
    } else {
      ModOfShifted(n - 1, SizeModulus);
      assert pred == n - 1;
    }
    assert n * pred == n * (n - 1);
    ModOfSmall(n * (n - 1), SizeModulus);
  }

  lemma ModOfShifted(x: int, m: int)
    requires 0 <= x < m
    ensures (x + m) % m == x
  {
  }

  lemma ModOfSmall(x: int, m: int)
    requires 0 <= x < m
    ensures x % m == x
  {
  }

  /**
   * `size()` can be wrong even when the number of pairs fits in `size_t`:
   * for n = 2^32 + 1 the product n(n-1) wraps, although n(n-1)/2 does not.
   */
  lemma SizeWrapsThoughCountFits()
    ensures PairCount(0x1_0000_0001) < SizeModulus
    ensures SizeOfLength(0x1_0000_0001) == 0x8000_0000
    ensures SizeOfLength(0x1_0000_0001) != PairCount(0x1_0000_0001)
  {
    PairCountClosedForm(0x1_0000_0001);
  }

  /** A position that may be dereferenced and advanced: two distinct in-range indices, in order. */
  predicate Dereferenceable(n: nat, p: Position)
  {
    p.i < p.j < n
  }

  /** `begin()`: the first pair. `std::next(vec.begin())` needs a non-empty container. */
  function Start(n: nat): (p: Position)
    requires n >= 1
    ensures Reachable(n, p) && Index(n, p) == 0
    ensures p == Sentinel(n) <==> n == 1
  {
    Position(0, 1)
  }

  /** `end()`: one step past the last pair. `std::prev(vec.end())` needs a non-empty container. */
  function Sentinel(n: nat): (p: Position)
    requires n >= 1
    ensures !Dereferenceable(n, p)
  {
    Position(n - 1, n)
  }

  /** The positions a walk from `begin()` can be at: a pair, or the sentinel. */
  predicate Reachable(n: nat, p: Position)
  {
    Dereferenceable(n, p) || (n >= 1 && p == Sentinel(n))
  }

  /** Number of pairs in the rows before row i (the rows of a triangle with n - 1 rows). */
  function RowStart(n: nat, i: nat): nat
    requires i <= n
  {
    if i == 0 then 0 else RowStart(n, i - 1) + (n - i)
  }

  lemma {:induction false} RowStartMonotone(n: nat, a: nat, b: nat)
    requires a <= b <= n
    ensures RowStart(n, a) <= RowStart(n, b)
  {
    if a < b {
      RowStartMonotone(n, a, b - 1);
    }
  }

  lemma {:induction false} RowStartRest(n: nat, i: nat)
    requires i <= n
    ensures RowStart(n, i) + PairCount(n - i) == PairCount(n)
  {
    if i > 0 {
      RowStartRest(n, i - 1);
    }
  }

  /**
   * Place of a position in the walk: begin is 0, the last pair is
   * PairCount(n) - 1 and the sentinel is PairCount(n).
   */
  function Index(n: nat, p: Position): (r: nat)
    requires Reachable(n, p)
    ensures r <= PairCount(n)
    ensures r < PairCount(n) <==> Dereferenceable(n, p)
  {
    RowStartRest(n, p.i);
    if Dereferenceable(n, p) then
      RowStartMonotone(n, p.i + 1, n - 1);
      RowStartRest(n, n - 1);
      RowStart(n, p.i) + (p.j - p.i - 1)
    else
      RowStartRest(n, n - 1);
      RowStart(n, p.i) + (p.j - p.i - 1)
  }

  /** Two reachable positions with the same place in the walk are the same position. */
  lemma IndexInjective(n: nat, p: Position, q: Position)
    requires Reachable(n, p) && Reachable(n, q)
    requires Index(n, p) == Index(n, q)
    ensures p == q
  {
    if p.i < q.i {
      RowStartMonotone(n, p.i + 1, q.i);
      assert false;
    } else if q.i < p.i {
      RowStartMonotone(n, q.i + 1, p.i);
      assert false;
    }
  }

  /** Reachable positions are equal exactly when their places in the walk are. */
  lemma SamePlaceSamePosition(n: nat, p: Position, q: Position)
    requires Reachable(n, p) && Reachable(n, q)
    ensures Index(n, p) == Index(n, q) <==> p == q
  {
    if Index(n, p) == Index(n, q) {
      IndexInjective(n, p, q);
    }
  }

  /** Strict row-major (lexicographic) order on positions. */
  predicate Precedes(p: Position, q: Position)
  {
    p.i < q.i || (p.i == q.i && p.j < q.j)
  }

  /**
   * `operator++`: the second cursor moves one step; when it reaches the end
   * the first cursor moves one step and the second restarts just after it.
   */
  function Step(n: nat, p: Position): (q: Position)
    requires Dereferenceable(n, p)
    ensures Reachable(n, q)
    ensures Index(n, q) == Index(n, p) + 1
    ensures Precedes(p, q)
  {
    var j := p.j + 1;
    if j == n then Position(p.i + 1, p.i + 2) else Position(p.i, j)
  }

  /** `std::advance` by k: k successive steps. */
  function Advance(n: nat, p: Position, k: nat): (q: Position)
    requires Reachable(n, p) && Index(n, p) + k <= PairCount(n)
    ensures Reachable(n, q) && Index(n, q) == Index(n, p) + k
    decreases k
  {
    if k == 0 then p else Advance(n, Step(n, p), k - 1)
  }

  /** Advancing by a and then by b is advancing by a + b. */
  lemma {:induction false} AdvanceAdd(n: nat, p: Position, a: nat, b: nat)
    requires Reachable(n, p) && Index(n, p) + a + b <= PairCount(n)
    ensures Advance(n, Advance(n, p, a), b) == Advance(n, p, a + b)
    decreases a
  {
    if a > 0 {
      AdvanceAdd(n, Step(n, p), a - 1, b);
    }
  }

  /** One more step after advancing by k is advancing by k + 1. */
  lemma StepAfterAdvance(n: nat, p: Position, k: nat)
    requires Reachable(n, p) && Index(n, p) + k + 1 <= PairCount(n)
    ensures Dereferenceable(n, Advance(n, p, k))
    ensures Step(n, Advance(n, p, k)) == Advance(n, p, k + 1)
  {
    AdvanceAdd(n, p, k, 1);
  }

  /** Stepping from begin exactly PairCount(n) times lands on the sentinel. */
  lemma WalkEndsAtEnd(n: nat)
    requires n >= 1
    ensures Advance(n, Start(n), PairCount(n)) == Sentinel(n)
  {
    IndexInjective(n, Advance(n, Start(n), PairCount(n)), Sentinel(n));
  }

  /** Every pair i < j < n is visited, after exactly Index(n, q) steps from begin. */
  lemma WalkVisitsEveryPair(n: nat, q: Position)
    requires Dereferenceable(n, q)
    ensures Index(n, q) < PairCount(n)
    ensures Advance(n, Start(n), Index(n, q)) == q
  {
    IndexInjective(n, Advance(n, Start(n), Index(n, q)), q);
  }

  /** The walk visits pairs in strictly increasing row-major order, so no pair twice. */
  lemma {:induction false} WalkIsIncreasing(n: nat, a: nat, b: nat)
    requires n >= 1 && a < b <= PairCount(n)
    ensures Precedes(Advance(n, Start(n), a), Advance(n, Start(n), b))
    decreases b - a
  {
    StepAfterAdvance(n, Start(n), a);
    if a + 1 < b {
      WalkIsIncreasing(n, a + 1, b);
    }
  }

  /** The visiting order for a container of four elements. */
  lemma FourElementOrder()
    ensures PairCount(4) == 6
    ensures Advance(4, Start(4), 0) == Position(0, 1)
    ensures Advance(4, Start(4), 1) == Position(0, 2)
    ensures Advance(4, Start(4), 2) == Position(0, 3)
    ensures Advance(4, Start(4), 3) == Position(1, 2)
    ensures Advance(4, Start(4), 4) == Position(1, 3)
    ensures Advance(4, Start(4), 5) == Position(2, 3)
    ensures Advance(4, Start(4), 6) == Sentinel(4)
  {
    var order := [Position(0, 1), Position(0, 2), Position(0, 3), Position(1, 2), Position(1, 3), Position(2, 3)];
    forall k | 0 <= k < 6
      ensures Advance(4, Start(4), k) == order[k]
    {
      WalkVisitsEveryPair(4, order[k]);
    }
    WalkEndsAtEnd(4);
  }

  /** `std::next(begin())` followed by `std::advance(it, 2)` is the pair (1, 2) when n = 4. */
  lemma NextThenAdvanceTwo()
    ensures Advance(4, Step(4, Start(4)), 2) == Position(1, 2)
  {
    FourElementOrder();
    AdvanceAdd(4, Start(4), 1, 2);
  }

  /** The iterator of `internal_pairs`. */
  class PairIterator<T> {
    /** The wrapped container. */
    const vec: array<T>
    /** `_end`: the container's length. */
    const bound: nat
    var i: nat
    var j: nat

    function At(): Position
      reads this
    {
      Position(i, j)
    }

    ghost predicate Valid()
      reads this
    {
      bound == vec.Length && Reachable(bound, At())
    }

    constructor (vec: array<T>, i: nat, j: nat)
      ensures this.vec == vec && bound == vec.Length
      ensures this.i == i && this.j == j
    {
      this.vec := vec;
      bound := vec.Length;
      this.i := i;
      this.j := j;
    }

    /** A copy of another iterator, as C++ iterators are passed by value. */
    constructor Copy(other: PairIterator<T>)
      ensures vec == other.vec && bound == other.bound && At() == other.At()
    {
      vec := other.vec;
      bound := other.bound;
      i := other.i;
      j := other.j;
    }

    /** `operator*`: the two elements the iterator designates. */
    method Deref() returns (first: T, second: T)
      requires Valid() && Dereferenceable(bound, At())
      ensures first == vec[i] && second == vec[j]
    {
      first, second := vec[i], vec[j];
    }

    /** `operator!=`: both cursors are compared. */
    function Differs(other: PairIterator<T>): (r: bool)
      reads this, other
      requires Valid() && other.Valid() && other.vec == vec
      ensures r <==> Index(bound, At()) != Index(bound, other.At())
    {
      SamePlaceSamePosition(bound, At(), other.At());
      i != other.i || j != other.j
    }

    /** `operator++`. */
    method Next()
      requires Valid() && Dereferenceable(bound, At())
      modifies this
      ensures Valid() && At() == Step(bound, old(At()))
    {
      j := j + 1;
      if j == bound {
        i := i + 1;
        j := i + 1;
      }
    }

    /** Assignment through the first component of `*it`: it writes the container. */
    method AssignFirst(x: T)
      requires Valid() && Dereferenceable(bound, At())
      modifies vec
      ensures vec[..] == old(vec[..])[i := x]
    {
      vec[i] := x;
    }

    /** Assignment through the second component of `*it`. */
    method AssignSecond(x: T)
      requires Valid() && Dereferenceable(bound, At())
      modifies vec
      ensures vec[..] == old(vec[..])[j := x]
    {
      vec[j] := x;
    }
  }

  /** The `internal_pairs` view over a container it does not own. */
  class PairView<T> {
    const vec: array<T>

    constructor (vec: array<T>)
      ensures this.vec == vec
    {
      this.vec := vec;
    }

    /** `begin()`: a fresh iterator at the first pair. */
    method Begin() returns (it: PairIterator<T>)
      requires vec.Length >= 1
      ensures fresh(it) && it.Valid() && it.vec == vec
      ensures it.At() == Start(vec.Length)
    {
      it := new PairIterator(vec, 0, 1);
    }

    /** `end()`: a fresh iterator at the sentinel. */
    method End() returns (it: PairIterator<T>)
      requires vec.Length >= 1
      ensures fresh(it) && it.Valid() && it.vec == vec
      ensures it.At() == Sentinel(vec.Length)
    {
      it := new PairIterator(vec, vec.Length - 1, vec.Length);
    }

    /** `size()`. */
    function Size(): (r: nat)
      requires vec.Length < SizeModulus
      ensures vec.Length * (vec.Length - 1) < SizeModulus ==> r == PairCount(vec.Length)
    {
      if vec.Length * (vec.Length - 1) < SizeModulus then
        SizeCountsPairs(vec.Length);
        SizeOfLength(vec.Length)
      else
        SizeOfLength(vec.Length)
    }
  }

  /** `std::distance(first, last)`: copies `first` and steps it until it equals `last`. */
  method Distance<T>(first: PairIterator<T>, last: PairIterator<T>) returns (d: nat)
    requires first.Valid() && last.Valid() && last.vec == first.vec
    requires Index(first.bound, first.At()) <= Index(first.bound, last.At())
    ensures d == Index(first.bound, last.At()) - Index(first.bound, first.At())
    ensures Advance(first.bound, first.At(), d) == last.At()
  {
    var n := first.bound;
    ghost var start, stop := first.At(), last.At();
    var it := new PairIterator.Copy(first);
    d := 0;
    while it.Differs(last)
      invariant fresh(it) && it.Valid() && it.vec == first.vec
      invariant Index(n, start) + d <= Index(n, stop)
      invariant it.At() == Advance(n, start, d)
      decreases Index(n, stop) - Index(n, it.At())
    {
      StepAfterAdvance(n, start, d);
      it.Next();
      d := d + 1;
    }
    IndexInjective(n, it.At(), stop);
  }

  /** `std::advance(it, k)`: k calls of `operator++` on the same iterator. */
  method AdvanceBy<T>(it: PairIterator<T>, k: nat)
    requires it.Valid() && Index(it.bound, it.At()) + k <= PairCount(it.bound)
    modifies it
    ensures it.Valid() && it.At() == Advance(it.bound, old(it.At()), k)
  {
    ghost var start := it.At();
    var done := 0;
    while done < k
      invariant done <= k
      invariant it.Valid() && it.At() == Advance(it.bound, start, done)
    {
      StepAfterAdvance(it.bound, start, done);
      it.Next();
      done := done + 1;
    }
  }

  /** The `internal_pairs` test case over {0, 1, 2, 3}: `size()`. */
  method FourElementSize() returns (size: nat)
    ensures size == 6
  {
    var vec := new int[4] [0, 1, 2, 3];
    var pairs := new PairView(vec);
    assert PairCount(4) == 6;
    size := pairs.Size();
  }

  /** The same test case: `std::distance(begin(), end())`. */
  method FourElementDistance() returns (distance: nat)
    ensures distance == 6
  {
    var vec := new int[4] [0, 1, 2, 3];
    var pairs := new PairView(vec);
    var first := pairs.Begin();
    var last := pairs.End();
    WalkEndsAtEnd(4);
    assert Index(4, last.At()) == 6;
    distance := Distance(first, last);
  }

  /** The same test case: the pairs `*it` yields while `it` is stepped from `begin()`. */
  method FourElementTrace() returns (order: seq<(int, int)>)
    ensures order == [(0, 1), (0, 2), (0, 3), (1, 2), (1, 3), (2, 3)]
  {
    var vec := new int[4] [0, 1, 2, 3];
    var pairs := new PairView(vec);
    var it := pairs.Begin();
    FourElementSteps();
    var x0, y0 := it.Deref();
    it.Next();
    var x1, y1 := it.Deref();
    it.Next();
    var x2, y2 := it.Deref();
    it.Next();
    var x3, y3 := it.Deref();
    it.Next();
    var x4, y4 := it.Deref();
    it.Next();
    var x5, y5 := it.Deref();
    order := [(x0, y0), (x1, y1), (x2, y2), (x3, y3), (x4, y4), (x5, y5)];
  }

  /** The five steps of the four-element walk, one by one. */
  lemma FourElementSteps()
    ensures Step(4, Position(0, 1)) == Position(0, 2)
    ensures Step(4, Position(0, 2)) == Position(0, 3)
    ensures Step(4, Position(0, 3)) == Position(1, 2)
    ensures Step(4, Position(1, 2)) == Position(1, 3)
    ensures Step(4, Position(1, 3)) == Position(2, 3)
  {
  }

  /** The same test case: `std::next(begin())`, then `std::advance(it, 2)`, dereferenced. */
  method FourElementNextAdvance() returns (next: (int, int), advanced: (int, int))
    ensures next == (0, 2) && advanced == (1, 2)
  {
    var vec := new int[4] [0, 1, 2, 3];
    var pairs := new PairView(vec);
    var it := pairs.Begin();
    it.Next();
    FourElementSteps();
    var x, y := it.Deref();
    next := (x, y);
    AdvanceBy(it, 2);
    NextThenAdvanceTwo();
    x, y := it.Deref();
    advanced := (x, y);
  }

  /**
   * Writing through the first component of `*begin()` sets element 0 of the
   * container and leaves every other element as it was.
   */
  method AssignThroughBegin(vec: array<int>, x: int)
    requires vec.Length >= 2
    modifies vec
    ensures vec[0] == x
    ensures forall k | 1 <= k < vec.Length :: vec[k] == old(vec[k])
  {
    var pairs := new PairView(vec);
    var it := pairs.Begin();
    it.AssignFirst(x);
  }

  /** The same test case: `*begin()` is (0, 1), and writing -1 through its first component changes `vec.front()`. */
  method FourElementWriteThrough() returns (before: (int, int), front: int, rest: seq<int>)
    ensures before == (0, 1) && front == -1 && rest == [1, 2, 3]
  {
    var vec := new int[4] [0, 1, 2, 3];
    var pairs := new PairView(vec);
    var it := pairs.Begin();
    var x, y := it.Deref();
    before := (x, y);
    AssignThroughBegin(vec, -1);
    front := vec[0];
    rest := vec[1..];
  }
}
