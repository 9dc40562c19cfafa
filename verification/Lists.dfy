/** Equidistant sampling under round-half-to-even, and slicing a list into intervals. */
module Lists {

  /** A value, or the exception for a bad argument or for an index out of range. */
  datatype Result<+T> = Ok(value: T) | Err | OutOfRange

  // ----- rounding -----

  /** A quotient rounded to the nearest integer, ties to the even one. */
  function RoundHalfEven(p: int, q: int): int
    requires q > 0
  {
    var floor, rest := p / q, p % q;
    if 2 * rest < q then floor
    else if 2 * rest > q then floor + 1
    else if floor % 2 == 0 then floor else floor + 1
  }

  /** The rounded value is within one half. */
  lemma RoundsNear(p: int, q: int, a: int)
    requires q > 0 && a == RoundHalfEven(p, q)
    ensures 2 * p - q <= 2 * (q * a) <= 2 * p + q
  {
    var floor := p / q;
    assert p == q * floor + p % q;
    assert q * (floor + 1) == q * floor + q;
  }

  /** A quotient halfway between two integers is rounded to the even one. */
  lemma TiesToEven(p: int, q: int, a: int)
    requires q > 0 && a == RoundHalfEven(p, q) && (2 * (q * a) == 2 * p + q || 2 * (q * a) == 2 * p - q)
    ensures a % 2 == 0
  {
    var floor, rest := p / q, p % q;
    assert p == q * floor + rest;
    assert q * (floor + 1) == q * floor + q;
  }

  lemma RoundsExactly(m: int, q: int)
    requires q > 0
    ensures RoundHalfEven(m * q, q) == m
  {
    DivisionExact(m, q);
  }

  lemma DivisionExact(m: int, q: int)
    requires q > 0
    ensures (m * q) / q == m && (m * q) % q == 0
  {
    var p := m * q;
    var d, r := p / q, p % q;
    assert q * (m - d) == r;
    Multiple(q, m - d);
  }

  lemma Multiple(q: int, x: int)
    requires q > 0
    ensures x >= 1 ==> q * x >= q
    ensures x == 0 ==> q * x == 0
    ensures x <= -1 ==> q * x <= -q
  {
  }

  // ----- equidistant sampling -----

  function Min(a: int, b: int): int
  {
    if a <= b then a else b
  }

  /** How many elements at the beginning are skipped. */
  function CutCount(len: nat, n: int, cutPercent: int): int
  {
    Min(RoundHalfEven(len * cutPercent, 100), len - n)
  }

  /** The i-th of n indices: the cut plus i intervals, rounded. */
  function Index(len: nat, n: int, cut: int, i: int): int
    requires n > 1
  {
    RoundHalfEven(i * (len - 1 - cut), n - 1) + cut
  }

  lemma CutWithin(len: nat, n: int, cutPercent: int)
    ensures CutCount(len, n, cutPercent) <= len - n
    ensures n <= len && cutPercent >= 0 ==> CutCount(len, n, cutPercent) >= 0
  {
    if cutPercent >= 0 {
      RoundsNear(len * cutPercent, 100, RoundHalfEven(len * cutPercent, 100));
      assert len * cutPercent >= 0;
    }
  }

  /** The cut is the percentage of the list, rounded to within one half, as long as enough elements are left after it. */
  lemma CutIsNear(len: nat, n: int, cutPercent: int)
    ensures var cut := CutCount(len, n, cutPercent);
      && cut <= len - n
      && 100 * cut <= len * cutPercent + 50
      && (cut < len - n ==> 100 * cut >= len * cutPercent - 50)
  {
    RoundsNear(len * cutPercent, 100, RoundHalfEven(len * cutPercent, 100));
    hide RoundHalfEven;
  }

  lemma FirstAndLast(len: nat, n: int, cut: int)
    requires 3 <= n <= len && cut <= len - n
    ensures Index(len, n, cut, 0) == cut && Index(len, n, cut, n - 1) == len - 1
  {
    RoundsExactly(0, n - 1);
    RoundsExactly(len - 1 - cut, n - 1);
    assert (n - 1) * (len - 1 - cut) == (len - 1 - cut) * (n - 1);
  }

  /** Consecutive indices differ: intervals longer than one outweigh two roundings, and interval one is not rounded. */
  lemma NextIsLarger(len: nat, n: int, cut: int, i: int)
    requires 3 <= n <= len && cut <= len - n && 0 <= i < n - 1
    ensures Index(len, n, cut, i) < Index(len, n, cut, i + 1)
  {
    var l, q := len - 1 - cut, n - 1;
    var a, b := RoundHalfEven(i * l, q), RoundHalfEven((i + 1) * l, q);
    if l == q {
      RoundsExactly(i, q);
      RoundsExactly(i + 1, q);
    } else {
      RoundsNear(i * l, q, a);
      RoundsNear((i + 1) * l, q, b);
      assert (i + 1) * l == i * l + l;
      FurtherApart(q, a, b);
    }
  }

  lemma FurtherApart(q: int, a: int, b: int)
    requires q > 0 && q * b > q * a
    ensures b > a
  {
    assert q * (b - a) == q * b - q * a;
    Multiple(q, b - a);
  }

  lemma {:induction false} IndicesAscend(len: nat, n: int, cut: int, i: int, j: int)
    requires 3 <= n <= len && cut <= len - n && 0 <= i < j <= n - 1
    ensures Index(len, n, cut, i) < Index(len, n, cut, j)
    decreases j
  {
    NextIsLarger(len, n, cut, j - 1);
    if i < j - 1 {
      IndicesAscend(len, n, cut, i, j - 1);
    }
  }

  function Indices(len: nat, n: int, cut: int): (ids: seq<int>)
    requires n > 1
    ensures |ids| == n
  {
    seq(n, i => Index(len, n, cut, i))
  }

  predicate StrictlyAscending(s: seq<int>)
  {
    forall i, j :: 0 <= i < j < |s| ==> s[i] < s[j]
  }

  function Inserted(x: int, s: seq<int>): seq<int>
  {
    if s == [] || x <= s[0] then [x] + s else [s[0]] + Inserted(x, s[1..])
  }

  /** The same numbers in ascending order. */
  function Sorted(s: seq<int>): seq<int>
  {
    if s == [] then [] else Inserted(s[0], Sorted(s[1..]))
  }

  lemma {:induction false} SortedAlready(s: seq<int>)
    requires StrictlyAscending(s)
    ensures Sorted(s) == s
  {
    if s != [] {
      SortedAlready(s[1..]);
      assert s == [s[0]] + s[1..];
    }
  }

  /**
   For 3 <= n <= len the n indices strictly ascend from the capped cut to the last position, so
   sorting them changes nothing; a cut that is not negative keeps them all in the list.
   */
  lemma SamplingIsRegular(len: nat, n: int, cutPercent: int)
    requires 3 <= n <= len
    ensures var cut := CutCount(len, n, cutPercent);
      var ids := Indices(len, n, cut);
      && cut <= len - n && (cutPercent >= 0 ==> cut >= 0)
      && |ids| == n && StrictlyAscending(ids) && ids[0] == cut && ids[n - 1] == len - 1
      && Sorted(ids) == ids
      && (forall i :: 0 <= i < n ==> cut <= ids[i] < len)
  {
    hide CutCount, Index, Indices, Sorted, StrictlyAscending;
    CutWithin(len, n, cutPercent);
    IndicesRegular(len, n, CutCount(len, n, cutPercent));
    SortedAlready(Indices(len, n, CutCount(len, n, cutPercent)));
  }

  lemma IndicesRegular(len: nat, n: int, cut: int)
    requires 3 <= n <= len && cut <= len - n
    ensures var ids := Indices(len, n, cut);
      && StrictlyAscending(ids) && ids[0] == cut && ids[n - 1] == len - 1
      && (forall i :: 0 <= i < n ==> cut <= ids[i] < len)
  {
    hide Index;
    var ids := Indices(len, n, cut);
    FirstAndLast(len, n, cut);
    forall i, j | 0 <= i < j < n ensures ids[i] < ids[j] {
      IndicesAscend(len, n, cut, i, j);
    }
    forall i | 0 <= i < n ensures cut <= ids[i] < len {
      assert ids[0] <= ids[i] <= ids[n - 1];
    }
  }

  /** |index - ideal position| <= 1/2, with both sides multiplied by 2 * (n - 1). */
  lemma SamplingIsNear(len: nat, n: int, cut: int, i: int)
    requires n > 1
    ensures -(n - 1) <= 2 * ((n - 1) * (Index(len, n, cut, i) - cut)) - 2 * (i * (len - 1 - cut)) <= n - 1
  {
    RoundsNear(i * (len - 1 - cut), n - 1, Index(len, n, cut, i) - cut);
  }

  predicate HasIndex(len: nat, i: int)
  {
    0 <= i + len && i < len
  }

  /** An index below zero counts from the end. */
  function At<T>(input: seq<T>, i: int): T
    requires HasIndex(|input|, i)
  {
    if i < 0 then input[|input| + i] else input[i]
  }

  /** The elements at the given indices, or an exception if one is out of range. */
  function Picked<T>(input: seq<T>, ids: seq<int>): (r: Result<seq<T>>)
    ensures r.Ok? <==> forall i :: 0 <= i < |ids| ==> HasIndex(|input|, ids[i])
    ensures r.Ok? ==> |r.value| == |ids| && forall i :: 0 <= i < |ids| ==> r.value[i] == At(input, ids[i])
    ensures !r.Err?
  {
    if forall i :: 0 <= i < |ids| ==> HasIndex(|input|, ids[i])
    then Ok(seq(|ids|, i requires 0 <= i < |ids| => At(input, ids[i])))
    else OutOfRange
  }

  /**
   Too short a list is an error; one element is the last, two are the ends, and more are sampled
   from the cut on, which fails if the cut lies before the list. Asked for no elements or fewer it
   still returns two, the one at the cut and the last, unless the cut is out of range.
   */
  method SelectEquidistant<T>(input: seq<T>, n: int, cutPercent: int) returns (r: Result<seq<T>>)
    ensures r.Err? <==> |input| < n
    ensures |input| >= n == 1 ==> r == Ok([input[|input| - 1]])
    ensures |input| >= n == 2 ==> r == Ok([input[0], input[|input| - 1]])
    ensures |input| >= n >= 3 ==>
      var cut := CutCount(|input|, n, cutPercent);
      && (r.Ok? <==> cut >= -|input|)
      && (cutPercent >= 0 ==> r.Ok? && cut >= 0)
      && (r.Ok? ==> |r.value| == n && forall i :: 0 <= i < n ==>
            var k := Index(|input|, n, cut, i);
            HasIndex(|input|, k) && r.value[i] == At(input, k))
    ensures n <= 0 ==>
      var cut := CutCount(|input|, n, cutPercent);
      && (r.Ok? <==> HasIndex(|input|, cut))
      && (r.Ok? ==> r.value == [At(input, cut), input[|input| - 1]])
  {
    hide RoundHalfEven, Sorted, StrictlyAscending, Index, CutCount;
    if |input| < n {
      return Err;
    } else if n == 1 {
      return Ok([input[|input| - 1]]);
    } else if n == 2 {
      return Ok([input[0], input[|input| - 1]]);
    }
    ghost var cut := CutCount(|input|, n, cutPercent);
    var selected := SelectIndices(|input|, n, cutPercent);
    if n >= 3 {
      SamplingIsRegular(|input|, n, cutPercent);
      assert forall i :: 0 <= i < n ==> selected[i] == Index(|input|, n, cut, i);
      assert selected[0] == cut;
    } else {
      SortedTwo(cut, |input| - 1);
      var ids := Sorted(selected);
      assert cut == ids[0] || cut == ids[1];
      assert HasIndex(|input|, cut) ==> ids == [cut, |input| - 1];
    }
    r := Picked(input, Sorted(selected));
  }

  lemma SortedTwo(a: int, b: int)
    ensures Sorted([a, b]) == if a <= b then [a, b] else [b, a]
  {
    assert [a, b][1..] == [b] && [b][1..] == [];
    assert Sorted([b]) == [b];
    assert Inserted(a, [b]) == if a <= b then [a, b] else [b] + Inserted(a, []);
  }

  method SelectIndices(len: nat, n: int, cutPercent: int) returns (selected: seq<int>)
    requires n <= len && (n >= 3 || n <= 0)
    ensures var cut := CutCount(len, n, cutPercent);
      selected == if n >= 3 then Indices(len, n, cut) else [cut, len - 1]
  {
    hide RoundHalfEven;
    var cut := Min(RoundHalfEven(len * cutPercent, 100), len - n);
    if n >= 3 {
      FirstAndLast(len, n, cut);
    }
    var length := len - 1 - cut;
    selected := [cut];
    var i := 1;
    while i < n - 1
      invariant 1 <= i && (n >= 3 ==> i <= n - 1) && (n <= 0 ==> i == 1)
      invariant |selected| == i && selected[0] == cut
      invariant n >= 3 ==> forall j :: 0 <= j < i ==> selected[j] == Index(len, n, cut, j)
    {
      selected := selected + [RoundHalfEven(i * length, n - 1) + cut];
      i := i + 1;
    }
    selected := selected + [len - 1];
  }

  // ----- slicing -----

  /** Where the i-th of k intervals of a list of the given length begins. */
  function Bound(len: nat, k: nat, i: nat): nat
    requires k > 0
  {
    i * (len / k) + if i < len % k then i else len % k
  }

  lemma BoundNext(len: nat, k: nat, i: nat)
    requires k > 0
    ensures Bound(len, k, i + 1) == Bound(len, k, i) + len / k + if i < len % k then 1 else 0
  {
    assert (i + 1) * (len / k) == i * (len / k) + len / k;
  }

  lemma BoundEnds(len: nat, k: nat)
    requires k > 0
    ensures Bound(len, k, 0) == 0 && Bound(len, k, k) == len
  {
    assert len == k * (len / k) + len % k;
  }

  lemma {:induction false} BoundMonotone(len: nat, k: nat, i: nat, j: nat)
    requires k > 0 && i <= j
    ensures Bound(len, k, i) <= Bound(len, k, j)
    decreases j
  {
    if i < j {
      BoundMonotone(len, k, i, j - 1);
      BoundNext(len, k, j - 1);
    }
  }

  lemma BoundWithin(len: nat, k: nat, i: nat)
    requires k > 0 && i < k
    ensures Bound(len, k, i) <= Bound(len, k, i + 1) <= len
  {
    BoundEnds(len, k);
    BoundMonotone(len, k, i, i + 1);
    BoundMonotone(len, k, i + 1, k);
  }

  function Slice<T>(input: seq<T>, k: nat, i: nat): seq<T>
    requires i < k
  {
    BoundWithin(|input|, k, i);
    input[Bound(|input|, k, i)..Bound(|input|, k, i + 1)]
  }

  function Slid<T>(input: seq<T>, k: nat, i: nat): seq<T>
    requires i < k
  {
    BoundWithin(|input|, k, i);
    input[..Bound(|input|, k, i + 1)]
  }

  /** The first n slices, one after the other. */
  function Joined<T>(input: seq<T>, k: nat, n: nat): seq<T>
    requires n <= k
  {
    if n == 0 then [] else Joined(input, k, n - 1) + Slice(input, k, n - 1)
  }

  /** The first n equidistant slices are the beginning of the list; the last sliding slice of n is the same. */
  lemma {:induction false} SlicesJoin<T>(input: seq<T>, k: nat, n: nat)
    requires 0 < n <= k
    ensures Joined(input, k, n) == Slid(input, k, n - 1)
  {
    hide Bound;
    BoundEnds(|input|, k);
    BoundWithin(|input|, k, n - 1);
    if n > 1 {
      SlicesJoin(input, k, n - 1);
      BoundWithin(|input|, k, n - 2);
    } else {
      assert Joined(input, k, 0) == [];
    }
  }

  lemma SliceLength<T>(input: seq<T>, k: nat, i: nat)
    requires i < k
    ensures |Slice(input, k, i)| == |input| / k + if i < |input| % k then 1 else 0
  {
    BoundNext(|input|, k, i);
    hide Bound;
    BoundWithin(|input|, k, i);
  }

  /** Slicing is a fair partition: all slices make up the list, and an earlier slice is as long as a later one or longer by one. */
  lemma FairPartition<T>(input: seq<T>, k: nat, i: nat, j: nat)
    requires i <= j < k
    ensures Joined(input, k, k) == input
    ensures |Slice(input, k, j)| <= |Slice(input, k, i)| <= |Slice(input, k, j)| + 1
  {
    hide Bound, Slice, Joined;
    SlicesJoin(input, k, k);
    SliceLength(input, k, i);
    SliceLength(input, k, j);
    BoundEnds(|input|, k);
    BoundWithin(|input|, k, k - 1);
  }

  /** Cuts a list into intervals, or into all its beginnings; zero intervals raise, a negative number gives none. */
  method SliceInIntervals<T>(input: seq<T>, numIntervals: int, sliding: bool) returns (r: Result<seq<seq<T>>>)
    ensures if numIntervals == 0 then r.Err? else r.Ok?
    ensures numIntervals < 0 ==> r == Ok([])
    ensures numIntervals > 0 ==>
      && |r.value| == numIntervals
      && forall i :: 0 <= i < numIntervals ==>
           r.value[i] == if sliding then Slid(input, numIntervals, i) else Slice(input, numIntervals, i)
  {
    if numIntervals == 0 {
      return Err;
    } else if numIntervals < 0 {
      return Ok([]);
    }
    var k: nat := numIntervals;
    var length, remainder := |input| / k, |input| % k;
    var intervals: seq<seq<T>> := [];
    var start := 0;
    BoundEnds(|input|, k);
    for i := 0 to k
      invariant start == Bound(|input|, k, i) && |intervals| == i
      invariant forall j :: 0 <= j < i ==>
        intervals[j] == if sliding then Slid(input, k, j) else Slice(input, k, j)
    {
      BoundNext(|input|, k, i);
      BoundWithin(|input|, k, i);
      var end := start + length + if i < remainder then 1 else 0;
      intervals := intervals + [if sliding then input[..end] else input[start..end]];
      start := end;
    }
    r := Ok(intervals);
  }
}
