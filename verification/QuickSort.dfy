/** `QuickSort`: sorting in place with a two-way partition and arbitrary pivots. */
module QuickSorts {
  type Compare<!T> = (T, T) -> int

  /** The comparison orders all values, with ties. */
  ghost predicate TotalPreorder<T(!new)>(cmp: Compare<T>) {
    && (forall a, b :: cmp(a, b) > 0 <==> cmp(b, a) < 0)
    && (forall a, b, c :: cmp(a, b) <= 0 && cmp(b, c) <= 0 ==> cmp(a, c) <= 0)
  }

  // ----- On values

  ghost predicate AllLeq<T>(cmp: Compare<T>, s: seq<T>, x: T) {
    forall i :: 0 <= i < |s| ==> cmp(s[i], x) <= 0
  }

  ghost predicate AllGeq<T>(cmp: Compare<T>, s: seq<T>, x: T) {
    forall i :: 0 <= i < |s| ==> cmp(x, s[i]) <= 0
  }

  ghost predicate Sorted<T>(cmp: Compare<T>, s: seq<T>) {
    forall i, j :: 0 <= i < j < |s| ==> cmp(s[i], s[j]) <= 0
  }

  lemma PermutedLeq<T>(cmp: Compare<T>, s: seq<T>, r: seq<T>, x: T)
    requires multiset(s) == multiset(r) && AllLeq(cmp, s, x)
    ensures AllLeq(cmp, r, x)
  {
    forall i | 0 <= i < |r|
      ensures cmp(r[i], x) <= 0
    {
      assert r[i] in multiset(s);
    }
  }

  lemma PermutedGeq<T>(cmp: Compare<T>, s: seq<T>, r: seq<T>, x: T)
    requires multiset(s) == multiset(r) && AllGeq(cmp, s, x)
    ensures AllGeq(cmp, r, x)
  {
    forall i | 0 <= i < |r|
      ensures cmp(x, r[i]) <= 0
    {
      assert r[i] in multiset(s);
    }
  }

  /** Two sorted parts on either side of x make a sorted whole. */
  lemma SortedConcat<T(!new)>(cmp: Compare<T>, s: seq<T>, r: seq<T>, x: T)
    requires TotalPreorder(cmp) && Sorted(cmp, s) && Sorted(cmp, r) && AllLeq(cmp, s, x) && AllGeq(cmp, r, x)
    ensures Sorted(cmp, s + r)
  {
  }

  function Swapped<T>(s: seq<T>, a: nat, b: nat): seq<T>
    requires a < |s| && b < |s|
  {
    s[a := s[b]][b := s[a]]
  }

  /** Only the part from lo to hi was permuted. */
  ghost predicate Permuted<T>(s: seq<T>, r: seq<T>, lo: nat, hi: nat) {
    && lo <= hi <= |s| == |r|
    && s[..lo] == r[..lo] && s[hi..] == r[hi..]
    && multiset(s[lo..hi]) == multiset(r[lo..hi])
  }

  lemma PermutedTransitive<T>(s: seq<T>, r: seq<T>, q: seq<T>, lo: nat, hi: nat)
    requires Permuted(s, r, lo, hi) && Permuted(r, q, lo, hi)
    ensures Permuted(s, q, lo, hi)
  {
  }

  /** A permutation of a part permutes the whole. */
  lemma PermutedWider<T>(s: seq<T>, r: seq<T>, l: nat, h: nat, lo: nat, hi: nat)
    requires Permuted(s, r, l, h) && lo <= l && h <= hi <= |s|
    ensures Permuted(s, r, lo, hi)
  {
    assert s[..lo] == s[..l][..lo] && r[..lo] == r[..l][..lo];
    assert s[hi..] == s[h..][hi - h..] && r[hi..] == r[h..][hi - h..];
    assert s[lo..hi] == s[..l][lo..] + s[l..h] + s[h..][..hi - h];
    assert r[lo..hi] == r[..l][lo..] + r[l..h] + r[h..][..hi - h];
  }

  // ----- In place

  method Swap<T>(a: array<T>, i: nat, j: nat)
    requires i < a.Length && j < a.Length
    modifies a
    ensures a[..] == Swapped(old(a[..]), i, j)
  {
    var hold := a[i];
    a[i] := a[j];
    a[j] := hold;
  }

  /** While partitioning: what lies up to j is at most x, what lies from k on at least
    x, and either nothing has been scanned yet or the two have not met. */
  ghost predicate Scanned<T>(cmp: Compare<T>, s: seq<T>, min: int, max: int, j: int, k: int, x: T) {
    && 0 <= min < max < |s|
    && min - 1 <= j < k <= max + 1
    && AllLeq(cmp, s[min..j + 1], x) && AllGeq(cmp, s[k..max + 1], x)
    && (if j == min - 1 then k == max + 1 && s[min] == x else k <= max)
  }

  /** The scan from above stops at k' at a value that may stay, or at the end. */
  ghost predicate StopsDown<T>(cmp: Compare<T>, s: seq<T>, min: int, k: int, k': int, x: T) {
    && 0 <= min <= k' < k <= |s|
    && (forall i :: k' < i < k ==> cmp(s[i], x) > 0)
    && (cmp(s[k'], x) <= 0 || k' == min)
  }

  ghost predicate StopsUp<T>(cmp: Compare<T>, s: seq<T>, max: int, j: int, j': int, x: T) {
    && -1 <= j < j' <= max < |s|
    && (forall i :: j < i < j' ==> cmp(s[i], x) < 0)
    && (cmp(s[j'], x) >= 0 || j' == max)
  }

  /** Everything up to mid is at most x, everything after at least x. */
  ghost predicate Split<T>(cmp: Compare<T>, s: seq<T>, min: int, max: int, mid: int, x: T) {
    && 0 <= min <= mid < max < |s|
    && AllLeq(cmp, s[min..mid + 1], x) && AllGeq(cmp, s[mid + 1..max + 1], x)
  }

  method ScanDown<T>(cmp: Compare<T>, a: array<T>, min: nat, k: nat, x: T) returns (k': nat)
    requires min < k <= a.Length
    ensures StopsDown(cmp, a[..], min, k, k', x)
  {
    k' := k - 1;
    while cmp(a[k'], x) > 0 && k' > min
      invariant min <= k' < k && forall i :: k' < i < k ==> cmp(a[i], x) > 0
      decreases k'
    {
      k' := k' - 1;
    }
  }

  method ScanUp<T>(cmp: Compare<T>, a: array<T>, max: nat, j: int, x: T) returns (j': nat)
    requires -1 <= j < max < a.Length
    ensures StopsUp(cmp, a[..], max, j, j', x)
  {
    j' := j + 1;
    while cmp(a[j'], x) < 0 && j' < max
      invariant j < j' <= max && forall i :: j < i < j' ==> cmp(a[i], x) < 0
      decreases max - j'
    {
      j' := j' + 1;
    }
  }

  /** The two scans keep what is known on either side. */
  lemma ScanKeeps<T(!new)>(cmp: Compare<T>, s: seq<T>, min: int, max: int, j: int, k: int, j': int, k': int, x: T)
    requires TotalPreorder(cmp) && Scanned(cmp, s, min, max, j, k, x)
    requires StopsDown(cmp, s, min, k, k', x) && StopsUp(cmp, s, max, j, j', x)
    ensures AllLeq(cmp, s[min..j'], x) && AllGeq(cmp, s[k' + 1..max + 1], x)
  {
    forall i | min <= i < j'
      ensures cmp(s[i], x) <= 0
    {
      if i <= j { assert cmp(s[min..j + 1][i - min], x) <= 0; }
    }
    forall i | k' < i <= max
      ensures cmp(x, s[i]) <= 0
    {
      if i >= k { assert cmp(x, s[k..max + 1][i - k]) <= 0; }
    }
  }

  /** The scans have met: the upper one marks the split. */
  lemma ScansMeet<T(!new)>(cmp: Compare<T>, s: seq<T>, min: int, max: int, j: int, k: int, j': int, k': int, x: T)
    requires TotalPreorder(cmp) && Scanned(cmp, s, min, max, j, k, x) && k' <= j'
    requires StopsDown(cmp, s, min, k, k', x) && StopsUp(cmp, s, max, j, j', x)
    ensures Split(cmp, s, min, max, k', x)
  {
    ScanKeeps(cmp, s, min, max, j, k, j', k', x);
    assert cmp(x, x) == 0;
    forall i | min <= i <= k'
      ensures cmp(s[i], x) <= 0
    {
      if i < j' { assert cmp(s[min..j'][i - min], x) <= 0; }
    }
    assert k' < max;
  }

  /** The scans have not met: swapping puts both values on their sides. */
  lemma SwapScanned<T(!new)>(cmp: Compare<T>, s: seq<T>, min: int, max: int, j: int, k: int, j': int, k': int, x: T)
    requires TotalPreorder(cmp) && Scanned(cmp, s, min, max, j, k, x) && j' < k'
    requires StopsDown(cmp, s, min, k, k', x) && StopsUp(cmp, s, max, j, j', x)
    ensures Scanned(cmp, Swapped(s, j', k'), min, max, j', k', x)
  {
    ScanKeeps(cmp, s, min, max, j, k, j', k', x);
    var r := Swapped(s, j', k');
    assert cmp(s[k'], x) <= 0 && cmp(x, s[j']) <= 0;
    assert r[min..j' + 1] == s[min..j'] + [s[k']];
    assert r[k'..max + 1] == [s[j']] + s[k' + 1..max + 1];
  }

  lemma SwapAgain<T>(start: seq<T>, s: seq<T>, j: nat, k: nat, lo: nat, hi: nat)
    requires Permuted(start, s, lo, hi) && lo <= j < hi && lo <= k < hi
    ensures Permuted(start, Swapped(s, j, k), lo, hi)
  {
  }

  lemma NothingScanned<T>(cmp: Compare<T>, s: seq<T>, min: nat, max: nat, q: nat)
    requires min < max < |s| && min <= q <= max
    ensures Scanned(cmp, Swapped(s, min, q), min, max, min - 1, max + 1, s[q])
    ensures Permuted(s, Swapped(s, min, q), min, max + 1)
  {
  }

  lemma ScansEnd<T(!new)>(cmp: Compare<T>, start: seq<T>, s: seq<T>, min: nat, max: nat, j: int, k: nat, j': nat, k': nat, x: T)
    requires TotalPreorder(cmp) && Scanned(cmp, s, min, max, j, k, x) && Permuted(start, s, min, max + 1)
    requires StopsDown(cmp, s, min, k, k', x) && StopsUp(cmp, s, max, j, j', x)
    ensures if j' < k'
            then Scanned(cmp, Swapped(s, j', k'), min, max, j', k', x) && Permuted(start, Swapped(s, j', k'), min, max + 1)
            else Split(cmp, s, min, max, k', x)
  {
    if j' < k' {
      SwapScanned(cmp, s, min, max, j, k, j', k', x);
      SwapAgain(start, s, j', k', min, max + 1);
    } else {
      ScansMeet(cmp, s, min, max, j, k, j', k', x);
    }
  }

  /** Scan from both ends, and swap where the scans stop unless they have met. */
  method Exchange<T(!new)>(cmp: Compare<T>, a: array<T>, min: nat, max: nat, j: int, k: nat, x: T, ghost start: seq<T>)
    returns (j': nat, k': nat)
    requires TotalPreorder(cmp) && Scanned(cmp, a[..], min, max, j, k, x) && Permuted(start, a[..], min, max + 1)
    modifies a
    ensures j < j' && k' < k && Permuted(start, a[..], min, max + 1)
    ensures if j' < k' then Scanned(cmp, a[..], min, max, j', k', x) else Split(cmp, a[..], min, max, k', x)
  {
    ghost var s := a[..];
    k' := ScanDown(cmp, a, min, k, x);
    j' := ScanUp(cmp, a, max, j, x);
    ScansEnd(cmp, start, s, min, max, j, k, j', k', x);
    if j' < k' {
      Swap(a, j', k');
    }
  }

  /** Partition around the value at q. */
  method Partition<T(!new)>(cmp: Compare<T>, a: array<T>, min: nat, max: nat, q: nat) returns (mid: nat, ghost x: T)
    requires TotalPreorder(cmp) && min < max < a.Length && min <= q <= max
    modifies a
    ensures x == old(a[q]) && Split(cmp, a[..], min, max, mid, x)
    ensures Permuted(old(a[..]), a[..], min, max + 1)
  {
    ghost var start := a[..];
    NothingScanned(cmp, start, min, max, q);
    Swap(a, min, q);
    var pivot := a[min];
    x := pivot;
    var j: int, k: nat, exit := min - 1, max + 1, false;
    while !exit
      invariant Permuted(start, a[..], min, max + 1)
      invariant if exit then Split(cmp, a[..], min, max, k, pivot) else Scanned(cmp, a[..], min, max, j, k, pivot)
      decreases !exit, k
    {
      j, k := Exchange(cmp, a, min, max, j, k, pivot, start);
      exit := j >= k;
    }
    mid := k;
  }

  /** Permuting the lower part leaves the upper one. */
  lemma UpperStays<T>(s: seq<T>, r: seq<T>, lo: nat, mid: nat, hi: nat)
    requires Permuted(s, r, lo, mid) && mid <= hi <= |s|
    ensures s[mid..hi] == r[mid..hi]
  {
  }

  lemma LowerStays<T>(s: seq<T>, r: seq<T>, lo: nat, mid: nat, hi: nat)
    requires Permuted(s, r, mid, hi) && lo <= mid
    ensures s[lo..mid] == r[lo..mid]
  {
  }

  lemma PartsPermuted<T>(s: seq<T>, r: seq<T>, q: seq<T>, lo: nat, mid: nat, hi: nat)
    requires Permuted(s, r, lo, mid) && Permuted(r, q, mid, hi)
    ensures Permuted(s, q, lo, hi)
  {
    PermutedWider(s, r, lo, mid, lo, hi);
    PermutedWider(r, q, mid, hi, lo, hi);
    PermutedTransitive(s, r, q, lo, hi);
  }

  /** A partitioned range whose parts are sorted is sorted. */
  lemma PartsSorted<T(!new)>(cmp: Compare<T>, s: seq<T>, r: seq<T>, q: seq<T>, min: int, max: int, mid: int, x: T)
    requires TotalPreorder(cmp) && Split(cmp, s, min, max, mid, x)
    requires Permuted(s, r, min, mid + 1) && Sorted(cmp, r[min..mid + 1])
    requires Permuted(r, q, mid + 1, max + 1) && Sorted(cmp, q[mid + 1..max + 1])
    ensures Sorted(cmp, q[min..max + 1])
  {
    UpperStays(s, r, min, mid + 1, max + 1);
    LowerStays(r, q, min, mid + 1, max + 1);
    HalvesSorted(cmp, s[min..mid + 1], s[mid + 1..max + 1], q[min..mid + 1], q[mid + 1..max + 1], x);
    Halves(q, min, mid + 1, max + 1);
  }

  lemma HalvesSorted<T(!new)>(cmp: Compare<T>, low: seq<T>, high: seq<T>, low': seq<T>, high': seq<T>, x: T)
    requires TotalPreorder(cmp) && AllLeq(cmp, low, x) && AllGeq(cmp, high, x)
    requires multiset(low) == multiset(low') && multiset(high) == multiset(high')
    requires Sorted(cmp, low') && Sorted(cmp, high')
    ensures Sorted(cmp, low' + high')
  {
    PermutedLeq(cmp, low, low', x);
    PermutedGeq(cmp, high, high', x);
    SortedConcat(cmp, low', high', x);
  }

  lemma Halves<T>(q: seq<T>, lo: nat, mid: nat, hi: nat)
    requires lo <= mid <= hi <= |q|
    ensures q[lo..hi] == q[lo..mid] + q[mid..hi]
  {
  }

  ghost predicate SortedRange<T>(cmp: Compare<T>, s: seq<T>, lo: nat, hi: nat) {
    lo <= hi <= |s| && Sorted(cmp, s[lo..hi])
  }

  /** Partitioned, then both parts sorted. */
  lemma SortDone<T(!new)>(cmp: Compare<T>, start: seq<T>, s: seq<T>, r: seq<T>, q: seq<T>, min: nat, max: nat, mid: nat, x: T)
    requires TotalPreorder(cmp) && Permuted(start, s, min, max + 1) && Split(cmp, s, min, max, mid, x)
    requires Permuted(s, r, min, mid + 1) && SortedRange(cmp, r, min, mid + 1)
    requires Permuted(r, q, mid + 1, max + 1) && SortedRange(cmp, q, mid + 1, max + 1)
    ensures Permuted(start, q, min, max + 1) && SortedRange(cmp, q, min, max + 1)
  {
    PartsSorted(cmp, s, r, q, min, max, mid, x);
    PartsPermuted(s, r, q, min, mid + 1, max + 1);
    PermutedTransitive(start, s, q, min, max + 1);
  }

  /** Sort a range. The pivot is chosen at random. */
  method Sort<T(!new)>(cmp: Compare<T>, a: array<T>, min: nat, max: int)
    requires TotalPreorder(cmp) && -1 <= max < a.Length && min <= max + 1
    modifies a
    ensures Permuted(old(a[..]), a[..], min, max + 1) && SortedRange(cmp, a[..], min, max + 1)
    decreases max - min
  {
    if min < max {
      var rand: nat := *;
      var index := rand % (max - min + 1) + min;
      ghost var x;
      ghost var start := a[..];
      var mid;
      mid, x := Partition(cmp, a, min, max, index);
      ghost var s := a[..];
      Sort(cmp, a, min, mid);
      ghost var r := a[..];
      Sort(cmp, a, mid + 1, max);
      SortDone(cmp, start, s, r, a[..], min, max, mid, x);
    }
  }
}
