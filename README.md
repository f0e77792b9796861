# Pairwise iteration views, modelled in Dafny

This project models the pairwise-iteration engine of the `cpptricks` header
library (`pairwise_iterator.h`, namespace `PairwiseIterator`). The header
defines two lazy forward views, and the model proves how they walk:

* `internal_pairs` wraps one container and visits every unique pair (i, j)
  with i < j. The order is row-major over a strictly upper-triangular
  matrix. Each iterator holds three container iterators: `_end`, `i` and
  `j`. Dereferencing yields references into the container, so a write
  through a pair changes the container.
* `cartesian_product` wraps two ranges and visits every pair (x, y) from
  them. The second index varies fastest. Each iterator holds `pos1`,
  `last1`, `pos2`, `first2` and `last2`, and the elements are read only.
  When the product is empty, the constructor overwrites `_begin` with
  `_end`.

Two files, one module each:

* `internal_pairs.dfy`, module `InternalPairs`.
* `cartesian_product.dfy`, module `CartesianProduct`.

Both modules share this structure:

* A `Position` datatype holds the two cursors as element indices.
* The pure function `Step` models `operator++`. `Index` gives a position's
  place in the walk, with the sentinel placed after every pair. `Advance`
  models `std::advance`.
* Lemmas prove the walk's properties. It reaches `end()` after exactly
  n(n-1)/2 steps (`internal_pairs`) or n1·n2 steps (`cartesian_product`),
  which is what `size()` returns whenever n(n-1) fits in `size_t`. It
  visits every pair exactly once, in row-major order. It lands on a given
  k-th position, and advances compose.
* A class models the iterator. Its `Next()` method updates the two cursor
  fields in place, as `operator++` does, and is proved to equal `Step`.
* A class models the view, with `Begin`, `End` and `Size`.
* Methods with loops drive those iterator objects. Both modules model
  `std::distance` (`Distance`). `InternalPairs` also models `std::advance`
  (`AdvanceBy`). `CartesianProduct` also models `std::accumulate`
  (`Accumulate`) and a range-for loop (`RangeFor`).
* Each in-file doctest becomes one or more methods. They replay its trace
  on the classes, and their postconditions are the test's expected values.

Containers of `internal_pairs` are `array`s, because writes go through to
them. The ranges of `cartesian_product` are `seq`s, because that view is
read only.

Notes on the code as written:

* For one element, `begin()` and `end()` of `internal_pairs` are both
  (0, 1). For an empty container, `begin()` calls `std::next(vec.begin())`
  (pairwise_iterator.h:77) and `end()` calls `std::prev(vec.end())` (:81).
  Both calls are undefined there. So `Start`, `Sentinel`, `PairView.Begin`
  and `PairView.End` require at least one element, and no guard for the
  empty case is added. `size()` is defined for an empty container, and
  `SizeOfLength` covers that case.
* `size()` computes `n * (n - 1)` in `size_t` before halving (pairwise_iterator.h:84).
  The product can wrap even when n(n-1)/2 itself fits, so for very large
  containers `size()` differs from the number of pairs the walk visits.
  `SizeWrapsThoughCountFits` proves this for n = 2^32 + 1, the first length
  at which n(n-1) no longer fits.
* The comment "@todo: implement non-const version" (pairwise_iterator.h:40)
  is out of date. The non-const `begin()`/`end()` exist at lines 76-82, and
  the doctest writes through them. The model's `PairIterator` is the
  mutable one.

## Model

| member | source | states |
|---|---|---|
| `InternalPairs.SizeOfLength` | pairwise_iterator.h:84 | `size()`, computed in `size_t` (modulo 2^64), is below 2^64 and is 0 for containers of 0 and 1 elements (for 0 only through the unsigned wrap of `size() - 1`) |
| `InternalPairs.PairCountClosedForm` | pairwise_iterator.h:84 | the row-by-row count of pairs i < j < n equals n(n-1)/2, the closed form `size()` uses |
| `InternalPairs.SizeCountsPairs` | pairwise_iterator.h:84 | whenever n(n-1) fits in `size_t`, `size()` equals the number of unique pairs |
| `InternalPairs.SizeWrapsThoughCountFits` | pairwise_iterator.h:84 | `size()` can be wrong even when the true count fits in `size_t`: for n = 2^32 + 1 the product n(n-1) wraps, so `size()` is 2^31 while there are 2^63 + 2^31 pairs |
| `InternalPairs.Start` | pairwise_iterator.h:76-78 | `begin()` is reachable and first in the walk (place 0), and it equals `end()` exactly when the container has one element |
| `InternalPairs.Sentinel` | pairwise_iterator.h:80-82 | `end()`, the position (n-1, n), is never dereferenceable |
| `InternalPairs.Index` | pairwise_iterator.h:27 | numbering of the triangular walk: at most the pair count, and below it exactly for dereferenceable positions (i < j < n), so the sentinel comes after every pair |
| `InternalPairs.IndexInjective` | pairwise_iterator.h:57 | two reachable positions with the same place in the walk have equal `i` and equal `j` |
| `InternalPairs.SamePlaceSamePosition` | pairwise_iterator.h:57 | for reachable positions, equality of both cursors holds if and only if their places in the walk are equal |
| `InternalPairs.Step` | pairwise_iterator.h:58-62 | `operator++` on a dereferenceable position gives a reachable position one place further on, strictly later in row-major order |
| `InternalPairs.Advance` | pairwise_iterator.h:108-114 | k steps stay reachable and move exactly k places |
| `InternalPairs.AdvanceAdd` | pairwise_iterator.h:108-114 | advancing by a and then by b is advancing by a + b |
| `InternalPairs.StepAfterAdvance` | pairwise_iterator.h:58-62 | within the walk, a position reached by k steps can be advanced, and one more `operator++` equals advancing by k + 1 |
| `InternalPairs.WalkEndsAtEnd` | pairwise_iterator.h:93 | stepping n(n-1)/2 times from `begin()` lands exactly on `end()` |
| `InternalPairs.WalkVisitsEveryPair` | pairwise_iterator.h:27 | every pair i < j < n is visited, after exactly as many steps from `begin()` as its place in the walk |
| `InternalPairs.WalkIsIncreasing` | pairwise_iterator.h:27 | the walk is strictly increasing in row-major order, so no pair is visited twice |
| `InternalPairs.FourElementOrder` | pairwise_iterator.h:95-106 | for four elements the walk is (0,1),(0,2),(0,3),(1,2),(1,3),(2,3), and the seventh position is `end()` |
| `InternalPairs.NextThenAdvanceTwo` | pairwise_iterator.h:108-114 | for four elements, one step from `begin()` and then an advance by 2 gives (1,2) |
| `InternalPairs.PairIterator.constructor` | pairwise_iterator.h:55 | the iterator records the container, its end bound and the two cursors |
| `InternalPairs.PairIterator.Copy` | pairwise_iterator.h:93 | a by-value copy of an iterator, as `std::distance` takes, has the same container, bound and cursors |
| `InternalPairs.PairIterator.Deref` | pairwise_iterator.h:56 | `operator*` yields the container elements at the two cursors |
| `InternalPairs.PairIterator.Differs` | pairwise_iterator.h:57 | `operator!=` compares both cursors, which is the same as comparing places in the walk |
| `InternalPairs.PairIterator.Next` | pairwise_iterator.h:58-62 | `operator++` updates `i` and `j` in place to `Step` of the old position, and the iterator stays valid |
| `InternalPairs.PairIterator.AssignFirst` | pairwise_iterator.h:56 | writing through the first reference changes container element `i` and no other element |
| `InternalPairs.PairIterator.AssignSecond` | pairwise_iterator.h:56 | writing through the second reference changes container element `j` and no other element |
| `InternalPairs.PairView.constructor` | pairwise_iterator.h:66 | the view refers to the caller's container and does not copy it |
| `InternalPairs.PairView.Begin` | pairwise_iterator.h:76-78 | `begin()` is a fresh iterator over the same container, at (0, 1) |
| `InternalPairs.PairView.End` | pairwise_iterator.h:80-82 | `end()` is a fresh iterator over the same container, at (n-1, n) |
| `InternalPairs.PairView.Size` | pairwise_iterator.h:84 | `size()` is the number of unique pairs whenever n(n-1) fits in `size_t` |
| `InternalPairs.Distance` | pairwise_iterator.h:93 | `std::distance` counts the steps from `first` to `last`: the difference of their places, and advancing `first` by it gives `last` |
| `InternalPairs.AdvanceBy` | pairwise_iterator.h:108-114 | `std::advance(it, k)` applied to the iterator object leaves it where `Advance` by k puts it |
| `InternalPairs.FourElementSize` | pairwise_iterator.h:88-92 | over {0,1,2,3}, `size()` is 6 |
| `InternalPairs.FourElementDistance` | pairwise_iterator.h:93 | over {0,1,2,3}, `std::distance(begin(), end())` is 6 |
| `InternalPairs.FourElementTrace` | pairwise_iterator.h:95-106 | over {0,1,2,3}, `*it` yields (0,1),(0,2),(0,3),(1,2),(1,3),(2,3) as `it` is stepped |
| `InternalPairs.FourElementNextAdvance` | pairwise_iterator.h:108-114 | over {0,1,2,3}, `std::next(begin())` dereferences to (0,2), and a following `std::advance(it, 2)` dereferences to (1,2) |
| `InternalPairs.AssignThroughBegin` | pairwise_iterator.h:116-121 | writing through the first component of `*begin()` sets element 0 and leaves every other element unchanged |
| `InternalPairs.FourElementWriteThrough` | pairwise_iterator.h:116-121 | over {0,1,2,3}, `*begin()` is (0,1), and after writing -1 through it the container is {-1,1,2,3} |
| `CartesianProduct.Sentinel` | pairwise_iterator.h:189 | `end()`, the position (n1, n2), is never dereferenceable |
| `CartesianProduct.Index` | pairwise_iterator.h:175-183 | row-major numbering: at most n1·n2, and below it exactly for dereferenceable positions, so the sentinel comes after every pair |
| `CartesianProduct.IndexInjective` | pairwise_iterator.h:174 | two reachable positions with the same place in the walk have equal `pos1` and equal `pos2` |
| `CartesianProduct.SamePlaceSamePosition` | pairwise_iterator.h:174 | for reachable positions, equality of both cursors holds if and only if their places are equal |
| `CartesianProduct.Start` | pairwise_iterator.h:188-192 | after the constructor, `begin()` is at place 0, and it equals `end()` exactly when one of the ranges is empty |
| `CartesianProduct.Step` | pairwise_iterator.h:175-183 | `operator++` on a dereferenceable position gives a reachable position one place further on, strictly later in row-major order; running off the first range collapses onto (n1, n2) |
| `CartesianProduct.Advance` | pairwise_iterator.h:175-183 | k steps stay reachable and move exactly k places |
| `CartesianProduct.AdvanceAdd` | pairwise_iterator.h:175-183 | advancing by a and then by b is advancing by a + b |
| `CartesianProduct.StepAfterAdvance` | pairwise_iterator.h:175-183 | within the walk, a position reached by k steps can be advanced, and one more `operator++` equals advancing by k + 1 |
| `CartesianProduct.WalkEndsAtEnd` | pairwise_iterator.h:207 | stepping n1·n2 times from `begin()` lands exactly on `end()`, which is zero steps for an empty product |
| `CartesianProduct.WalkVisitsEveryPair` | pairwise_iterator.h:175-183 | every pair (p1, p2) with p1 < n1 and p2 < n2 is visited, after exactly as many steps from `begin()` as its place in the walk |
| `CartesianProduct.KthPosition` | pairwise_iterator.h:213-224 | the k-th position visited, for k < n1·n2, is (k / n2, k % n2) |
| `CartesianProduct.WalkIsIncreasing` | pairwise_iterator.h:213-224 | the walk is strictly increasing in row-major order, so no pair is visited twice |
| `CartesianProduct.FoldFrom` | pairwise_iterator.h:210 | what `std::accumulate` computes from a position up to `end()`; from `end()` itself it returns the initial value unchanged |
| `CartesianProduct.FoldAppliesOncePerPair` | pairwise_iterator.h:210 | the fold applies its operation exactly once to each pair from the position up to `end()`: a counting operation adds n1·n2 minus the position's place |
| `CartesianProduct.FoldSecondsFrom` | pairwise_iterator.h:209-211 | summing second components from a pair (p1, p2) to the end adds the rest of the second range, then the whole second range once for each later row |
| `CartesianProduct.SumOfSeconds` | pairwise_iterator.h:209-211 | folding the doctest's lambda (`AddSecond`: the running sum plus the pair's second component) over the whole walk gives init + n1 · (sum of the second range) |
| `CartesianProduct.ProductIterator.constructor` | pairwise_iterator.h:170-171 | the iterator records both ranges and the two cursors |
| `CartesianProduct.ProductIterator.Copy` | pairwise_iterator.h:193-194 | a by-value copy of an iterator, as `begin()`, `end()`, `std::distance` and `std::accumulate` make, has the same ranges and cursors |
| `CartesianProduct.ProductIterator.Deref` | pairwise_iterator.h:173 | `operator*` yields the element of each range at its cursor |
| `CartesianProduct.ProductIterator.Differs` | pairwise_iterator.h:174 | `operator!=` compares both cursors, which is the same as comparing places in the walk |
| `CartesianProduct.ProductIterator.Next` | pairwise_iterator.h:175-183 | `operator++` updates `pos1` and `pos2` in place to `Step` of the old position, and the iterator stays valid |
| `CartesianProduct.ProductView.constructor` | pairwise_iterator.h:188-192 | the constructor overwrites `_begin` with `_end` when `size()` is 0, so `_begin` ends up at `Start` and `_end` at (n1, n2) |
| `CartesianProduct.ProductView.Size` | pairwise_iterator.h:195-197 | `size()`, computed from `_begin`'s bounds, is n1·n2 both before and after the constructor's guard |
| `CartesianProduct.ProductView.Begin` | pairwise_iterator.h:193 | `begin()` is a fresh copy of `_begin`, at `Start` |
| `CartesianProduct.ProductView.End` | pairwise_iterator.h:194 | `end()` is a fresh copy of `_end`, at (n1, n2) |
| `CartesianProduct.Distance` | pairwise_iterator.h:207 | `std::distance` counts the steps from `first` to `last`: the difference of their places, and advancing `first` by it gives `last` |
| `CartesianProduct.Accumulate` | pairwise_iterator.h:210 | `std::accumulate` up to `end()` applies `op` to each dereferenced pair in walk order |
| `CartesianProduct.RangeFor` | pairwise_iterator.h:227-229 | a range-for over the view sees n1·n2 pairs, the k-th being (xs[k / n2], ys[k % n2]), and none at all when either range is empty |
| `CartesianProduct.SmallProductCounts` | pairwise_iterator.h:202-207 | over {0,1,3} × {10,20}, `size()` is 6 and `std::distance(begin(), end())` is 6 |
| `CartesianProduct.SmallProductSum` | pairwise_iterator.h:209-211 | over {0,1,3} × {10,20}, accumulating the second components from 0 gives 90 |
| `CartesianProduct.SmallProductTrace` | pairwise_iterator.h:213-224 | over {0,1,3} × {10,20}, `*it` yields (0,10),(0,20),(1,10),(1,20),(3,10),(3,20) as `it` is stepped |
| `CartesianProduct.ClearedProductVisits` | pairwise_iterator.h:226-229 | once the first range is cleared, the body of a range-for over the view runs zero times |

## Left out

- Const and non-const selection is not modelled. In the source it is done with `std::conditional` and `enable_if`. The model's `internal_pairs` iterator is always the mutable one. The cartesian view is read only because its ranges are sequences.
- The iterator typedefs (`iterator_category`, `value_type`, ...) are not modelled. They are compile-time type information.
- The view is generic over `std::vector`, `std::list` and `std::array`. The model uses one indexed container (an array, or a sequence) for all of them.
- Each range of `cartesian_product` is modelled as a whole sequence, `[first, last)`. Iterators into a larger container are not modelled.
- The iterator field `first2` of `cartesian_product` is not modelled. It is read only where `operator++` wraps the second cursor, and there it is always the start of the second range. The iterators whose `first2` differs are `_end` (built with `first2 == last2` at pairwise_iterator.h:189), every copy of it that `end()` returns, and `_begin` after the empty-product guard. All of them equal `end()`, where `operator++` is undefined. `size()` reads `_begin.first2`, which always equals `_begin.pos2` because `_begin` is never advanced. So `ProductView.Size` reads `first.pos2`.
- CartesianProduct.ProductView.Size: does not model the overflow of the `std::ptrdiff_t` product. That overflow is undefined behaviour in the source. The model's product is unbounded.
- CartesianProduct.SumOfSeconds: the sum is over unbounded integers. The doctest's lambda (pairwise_iterator.h:210) adds in C++ `int`, whose overflow is undefined in the source; that overflow is not modelled.
- CartesianProduct.Accumulate: folds from `first` up to `end()` only. The doctest needs no other end point.
- InternalPairs.PairIterator.Deref: returns the two element values, not references. Writes reach the container only through `AssignFirst`/`AssignSecond`, at the iterator's current cursors. So a reference kept after its iterator moves or is destroyed cannot be represented. The doctest at pairwise_iterator.h:117 keeps such a reference past the temporary `*pairs.begin()`; `AssignThroughBegin` writes through a live `begin()` iterator instead.
- InternalPairs.SizeOfLength: fixes `size_t` at 64 bits (`SizeModulus` is 2^64). Platforms with another `size_t` width are not modelled.
- Invalidating positions is not modelled. In the source that happens when the container is resized while a view or iterator is alive. The model's arrays and sequences cannot be resized.
- The `internal_pairs_index` doctest (pairwise_iterator.h:125-152) is not modelled. It builds the same triangular order from range-v3 views, and range-v3 is not part of this model.
- `invsqrt.h` is not part of this model. It approximates an inverse square root with floating-point bit tricks.
- `stl_eigen_facade.h` is not part of this model. It reinterprets record memory as an Eigen matrix.
- `test.cpp` is not part of this model. It only wires up the test harness.
