/**
 * The sample program that the repair loop watches: a recursive
 * three-way-partition quicksort over a list of integers.
 */
module Target {

  predicate Sorted(s: seq<int>) {
    forall i, j :: 0 <= i < j < |s| ==> s[i] <= s[j]
  }

  /** Which of the three list comprehensions keeps an element. */
  datatype Side = Below | Level | Above

  predicate Keeps(side: Side, x: int, pivot: int) {
    match side
    case Below => x < pivot
    case Level => x == pivot
    case Above => x > pivot
  }

  /**
   * `[x for x in s if x < pivot]` and its two siblings: the elements of `s`
   * on one side of `pivot`, in input order, each with its full multiplicity.
   */
  function Select(s: seq<int>, pivot: int, side: Side): (r: seq<int>)
    ensures forall x {:trigger multiset(r)[x]} ::
      multiset(r)[x] == if Keeps(side, x, pivot) then multiset(s)[x] else 0
    ensures forall i :: 0 <= i < |r| ==> Keeps(side, r[i], pivot)
    ensures |r| <= |s|
    ensures (exists i :: 0 <= i < |s| && !Keeps(side, s[i], pivot)) ==> |r| < |s|
  {
    if s == [] then []
    else
      var rest := Select(s[1..], pivot, side);
      assert s == [s[0]] + s[1..];
      assert forall i :: 1 <= i < |s| ==> s[i] == s[1..][i - 1];
      if Keeps(side, s[0], pivot) then [s[0]] + rest else rest
  }

  /** Python's `len(arr) // 2` on a non-negative length. */
  function PivotIndex(n: nat): (k: nat)
    requires n > 0
    ensures k < n
  {
    n / 2
  }

  /**
   * The sort: lists of length at most one come back as they are; otherwise
   * the middle element is the pivot and the two strict sides are sorted
   * recursively around the elements equal to it.
   */
  function Quicksort(arr: seq<int>): (r: seq<int>)
    ensures multiset(r) == multiset(arr)
    ensures Sorted(r)
    decreases |arr|
  {
    if |arr| <= 1 then arr
    else
      var pivot := arr[PivotIndex(|arr|)];
      var left := Select(arr, pivot, Below);
      var middle := Select(arr, pivot, Level);
      var right := Select(arr, pivot, Above);
      assert !Keeps(Below, arr[PivotIndex(|arr|)], pivot);
      assert !Keeps(Above, arr[PivotIndex(|arr|)], pivot);
      var l := Quicksort(left);
      var rr := Quicksort(right);
      PartsMultiset(arr, pivot, left, middle, right);
      SortedAround(l, middle, rr, pivot);
      l + middle + rr
  }

  lemma PartsMultiset(arr: seq<int>, pivot: int, left: seq<int>, middle: seq<int>, right: seq<int>)
    requires left == Select(arr, pivot, Below)
    requires middle == Select(arr, pivot, Level)
    requires right == Select(arr, pivot, Above)
    ensures multiset(left) + multiset(middle) + multiset(right) == multiset(arr)
  {
    forall x
      ensures (multiset(left) + multiset(middle) + multiset(right))[x] == multiset(arr)[x]
    {
      assert multiset(left)[x] == if x < pivot then multiset(arr)[x] else 0;
    }
  }

  /** Concatenating a sorted part below the pivot, the pivot copies and a sorted part above it is sorted. */
  lemma SortedAround(l: seq<int>, m: seq<int>, r: seq<int>, pivot: int)
    requires Sorted(l) && Sorted(r)
    requires forall x :: x in multiset(l) ==> x < pivot
    requires forall i :: 0 <= i < |m| ==> m[i] == pivot
    requires forall x :: x in multiset(r) ==> x > pivot
    ensures Sorted(l + m + r)
  {
    var s := l + m + r;
    forall i, j | 0 <= i < j < |s| ensures s[i] <= s[j] {
      if i < |l| { assert s[i] in multiset(l); }
      if j >= |l| + |m| { assert s[j] == r[j - |l| - |m|]; assert s[j] in multiset(r); }
    }
  }

  /** Each comprehension keeps input order: selecting from a concatenation selects from each part in turn. */
  lemma {:induction false} SelectConcat(a: seq<int>, b: seq<int>, pivot: int, side: Side)
    ensures Select(a + b, pivot, side) == Select(a, pivot, side) + Select(b, pivot, side)
  {
    if a == [] {
      assert a + b == b;
    } else {
      assert (a + b)[1..] == a[1..] + b;
      SelectConcat(a[1..], b, pivot, side);
    }
  }

  /** The pivot lands in the middle part, so both recursive calls get strictly shorter lists. */
  lemma SidesShrink(arr: seq<int>)
    requires |arr| > 1
    ensures |Select(arr, arr[PivotIndex(|arr|)], Below)| < |arr|
    ensures |Select(arr, arr[PivotIndex(|arr|)], Above)| < |arr|
    ensures arr[PivotIndex(|arr|)] in Select(arr, arr[PivotIndex(|arr|)], Level)
  {
    var pivot := arr[PivotIndex(|arr|)];
    assert !Keeps(Below, arr[PivotIndex(|arr|)], pivot);
    assert !Keeps(Above, arr[PivotIndex(|arr|)], pivot);
    assert pivot in multiset(arr);
    assert pivot in multiset(Select(arr, pivot, Level));
  }

  /** Lists of length at most one are returned unchanged. */
  lemma ShortListUnchanged(arr: seq<int>)
    requires |arr| <= 1
    ensures Quicksort(arr) == arr
  {
  }

  /** A sorted permutation is unique, so Quicksort agrees with every other sorting of its input. */
  lemma {:induction false} SortedPermutationUnique(a: seq<int>, b: seq<int>)
    requires Sorted(a) && Sorted(b)
    requires multiset(a) == multiset(b)
    ensures a == b
  {
    if a != [] {
      assert |b| == |multiset(b)| == |a|;
      assert a[0] in multiset(b) && b[0] in multiset(a);
      MinimumIsHead(a, b[0]);
      MinimumIsHead(b, a[0]);
      assert a[0] == b[0];
      DropHead(a);
      DropHead(b);
      SortedPermutationUnique(a[1..], b[1..]);
      assert a == [a[0]] + a[1..] && b == [b[0]] + b[1..];
    }
  }

  /** Dropping the head keeps the list sorted and removes one copy of the head from the multiset. */
  lemma DropHead(s: seq<int>)
    requires s != [] && Sorted(s)
    ensures Sorted(s[1..])
    ensures multiset(s[1..]) == multiset(s) - multiset{s[0]}
  {
    assert s == [s[0]] + s[1..];
    assert multiset(s) == multiset{s[0]} + multiset(s[1..]);
  }

  lemma MinimumIsHead(s: seq<int>, x: int)
    requires Sorted(s) && x in multiset(s)
    ensures s[0] <= x
  {
    var i :| 0 <= i < |s| && s[i] == x;
  }

  lemma QuicksortIsTheSorting(arr: seq<int>, sorted: seq<int>)
    requires Sorted(sorted) && multiset(sorted) == multiset(arr)
    ensures Quicksort(arr) == sorted
  {
    SortedPermutationUnique(Quicksort(arr), sorted);
  }

  /** The program's own demonstration input. */
  lemma DemoSort()
    ensures Quicksort([5, 2, 9, 1, 5, 6]) == [1, 2, 5, 5, 6, 9]
  {
    var input, output := [5, 2, 9, 1, 5, 6], [1, 2, 5, 5, 6, 9];
    DemoFacts(input, output);
    QuicksortIsTheSorting(input, output);
  }

  lemma DemoFacts(input: seq<int>, output: seq<int>)
    requires input == [5, 2, 9, 1, 5, 6] && output == [1, 2, 5, 5, 6, 9]
    ensures Sorted(output) && multiset(output) == multiset(input)
  {
    DemoSorted(output);
    DemoPermutation(input, output);
  }

  lemma DemoSorted(output: seq<int>)
    requires output == [1, 2, 5, 5, 6, 9]
    ensures Sorted(output)
  {
  }

  lemma DemoPermutation(input: seq<int>, output: seq<int>)
    requires input == [5, 2, 9, 1, 5, 6] && output == [1, 2, 5, 5, 6, 9]
    ensures multiset(output) == multiset(input)
  {
    assert multiset(input) == multiset{5, 2, 9, 1, 5, 6};
    assert multiset(output) == multiset{1, 2, 5, 5, 6, 9};
    assert multiset{5, 2, 9, 1, 5, 6} == multiset{1, 2, 5, 5, 6, 9};
  }
}
