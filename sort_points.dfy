// `SetOffsets` of the Houdini sort-points node: after the partitioner has
// grouped the points into buckets (one per voxel, in voxel order), each
// bucket's point indices are turned into point offsets and written, bucket
// after bucket, into one offset array. A call handles a range of buckets
// and writes the slots those buckets own; the caller runs it on all buckets.
//
// The partitioner is its list of buckets (each the point indices it holds,
// in iteration order) and `GU_Detail::pointOffset` is a function parameter.
module SortPoints {
  import opened BlockedRanges

  /** The partitioner: bucket n holds the point indices `indices(n)` yields. */
  type Buckets = seq<seq<nat>>

  /** Total number of point indices in the buckets. */
  function SumSizes(bs: Buckets): nat
  {
    if bs == [] then 0 else SumSizes(bs[..|bs| - 1]) + |bs[|bs| - 1]|
  }

  /** One bucket's indices turned into point offsets, in the same order. */
  function MapOffsets(bucket: seq<nat>, offset: nat -> int): (m: seq<int>)
    ensures |m| == |bucket|
    ensures forall j :: 0 <= j < |bucket| ==> m[j] == offset(bucket[j])
  {
    seq(|bucket|, j requires 0 <= j < |bucket| => offset(bucket[j]))
  }

  /** The buckets' offsets laid end to end, bucket after bucket. */
  function Flatten(bs: Buckets, offset: nat -> int): (r: seq<int>)
    ensures |r| == SumSizes(bs)
  {
    if bs == [] then [] else Flatten(bs[..|bs| - 1], offset) + MapOffsets(bs[|bs| - 1], offset)
  }

  lemma {:induction false} SumConcat(xs: Buckets, ys: Buckets)
    ensures SumSizes(xs + ys) == SumSizes(xs) + SumSizes(ys)
    decreases |ys|
  {
    if ys != [] {
      var zs := xs + ys;
      assert zs[..|zs| - 1] == xs + ys[..|ys| - 1];
      SumConcat(xs, ys[..|ys| - 1]);
    } else {
      assert xs + ys == xs;
    }
  }

  lemma {:induction false} FlattenConcat(xs: Buckets, ys: Buckets, offset: nat -> int)
    ensures Flatten(xs + ys, offset) == Flatten(xs, offset) + Flatten(ys, offset)
    decreases |ys|
  {
    if ys != [] {
      var zs := xs + ys;
      assert zs[..|zs| - 1] == xs + ys[..|ys| - 1];
      FlattenConcat(xs, ys[..|ys| - 1], offset);
    } else {
      assert xs + ys == xs;
    }
  }

  /** The slots of buckets [i, j) start where buckets [0, i) end: the
      prefix sum over [0, j) splits at i. */
  lemma SumSplit(bs: Buckets, i: nat, j: nat)
    requires i <= j <= |bs|
    ensures SumSizes(bs[..j]) == SumSizes(bs[..i]) + SumSizes(bs[i..j])
  {
    assert bs[..j] == bs[..i] + bs[i..j];
    SumConcat(bs[..i], bs[i..j]);
  }

  /** Offset of point j of bucket n in the flattened array: after all
      earlier buckets, then j places into its own bucket. */
  lemma {:induction false} FlattenAt(bs: Buckets, offset: nat -> int, n: nat, j: nat)
    requires n < |bs| && j < |bs[n]|
    ensures SumSizes(bs[..n]) + j < SumSizes(bs)
    ensures Flatten(bs, offset)[SumSizes(bs[..n]) + j] == offset(bs[n][j])
    decreases |bs|
  {
    var init := bs[..|bs| - 1];
    if n == |bs| - 1 {
      assert bs[..n] == init;
    } else {
      assert init[..n] == bs[..n];
      FlattenAt(init, offset, n, j);
    }
  }

  /** The array after a call on buckets [begin, end): the slots those
      buckets own hold their offsets, every other slot is as it was. */
  function Scatter(a: seq<int>, bs: Buckets, offset: nat -> int, begin: nat, end: nat): (r: seq<int>)
    requires begin <= end <= |bs| && SumSizes(bs[..end]) <= |a|
    ensures |r| == |a|
  {
    SumSplit(bs, begin, end);
    a[..SumSizes(bs[..begin])] + Flatten(bs[begin..end], offset) + a[SumSizes(bs[..end])..]
  }

  /** `SetOffsets::operator()`: first sum the sizes of the buckets before
      the range to find where its slots start, then write each bucket's
      offsets in turn, advancing one slot per point. */
  method SetOffsets(buckets: Buckets, offset: nat -> int, offsets: array<int>, range: BlockedRange)
    requires range.begin <= range.end <= |buckets|
    requires SumSizes(buckets[..range.end]) <= offsets.Length
    modifies offsets
    ensures offsets[..] == Scatter(old(offsets[..]), buckets, offset, range.begin, range.end)
  {
    ghost var before := offsets[..];
    var idx := StartIndex(buckets, range.begin);
    SumSplit(buckets, range.begin, range.end);
    idx := WriteBuckets(buckets, offset, offsets, range.begin, range.end, idx);
    ScatterUnfolds(before, buckets, offset, range.begin, range.end);
  }

  /** The loop of lines 111-115: the offsets of buckets [begin, end), written
      one bucket after another from slot `start` on; answers the slot after
      the last one written. */
  method WriteBuckets(buckets: Buckets, offset: nat -> int, offsets: array<int>, begin: nat, end: nat,
                      start: nat) returns (idx: nat)
    requires begin <= end <= |buckets|
    requires start == SumSizes(buckets[..begin])
    requires SumSizes(buckets[..end]) <= offsets.Length
    modifies offsets
    ensures idx == start + SumSizes(buckets[begin..end]) && idx <= offsets.Length
    ensures offsets[..] == old(offsets[..])[..start] + Flatten(buckets[begin..end], offset) + old(offsets[..])[idx..]
  {
    ghost var before := offsets[..];
    ghost var done: seq<int> := [];
    idx := start;
    SumSplit(buckets, begin, end);
    assert buckets[begin..begin] == [];
    for n := begin to end
      invariant done == Flatten(buckets[begin..n], offset)
      invariant idx == start + |done| && idx <= |before|
      invariant offsets[..] == before[..start] + done + before[idx..]
    {
      BucketFits(buckets, begin, end, n, start, idx);
      ghost var current := offsets[..];
      ghost var bucketStart := idx;
      idx := WriteBucket(buckets[n], offset, offsets, idx);
      BucketWritten(buckets, offset, before, start, begin, n, bucketStart, current, offsets[..]);
      done := Flatten(buckets[begin..n + 1], offset);
    }
  }

  /** Bucket n of the range fits below the range's last slot. */
  lemma BucketFits(bs: Buckets, begin: nat, end: nat, n: nat, start: nat, idx: nat)
    requires begin <= n < end <= |bs|
    requires start == SumSizes(bs[..begin]) && idx == start + SumSizes(bs[begin..n])
    ensures idx + |bs[n]| == start + SumSizes(bs[begin..n + 1])
    ensures idx + |bs[n]| <= SumSizes(bs[..end])
  {
    SumSplit(bs, begin, n + 1);
    SumSplit(bs, n + 1, end);
    assert bs[begin..n + 1][..n - begin] == bs[begin..n];
  }

  /** After bucket n is written from its first slot on, the written part
      of the array covers buckets [begin, n + 1). */
  lemma BucketWritten(bs: Buckets, offset: nat -> int, before: seq<int>, start: nat, begin: nat, n: nat,
                      idx: nat, current: seq<int>, after: seq<int>)
    requires begin <= n < |bs|
    requires idx == start + SumSizes(bs[begin..n]) && idx + |bs[n]| <= |before|
    requires current == before[..start] + Flatten(bs[begin..n], offset) + before[idx..]
    requires after == current[..idx] + MapOffsets(bs[n], offset) + current[idx + |bs[n]|..]
    ensures after == before[..start] + Flatten(bs[begin..n + 1], offset) + before[idx + |bs[n]|..]
  {
    ExtendRange(bs, offset, begin, n);
    Respliced(before, start, idx, idx + |bs[n]|, Flatten(bs[begin..n], offset), MapOffsets(bs[n], offset),
              current, after);
  }

  lemma ScatterUnfolds(a: seq<int>, bs: Buckets, offset: nat -> int, begin: nat, end: nat)
    requires begin <= end <= |bs| && SumSizes(bs[..end]) <= |a|
    ensures SumSizes(bs[..begin]) + SumSizes(bs[begin..end]) == SumSizes(bs[..end])
    ensures Scatter(a, bs, offset, begin, end)
         == a[..SumSizes(bs[..begin])] + Flatten(bs[begin..end], offset) + a[SumSizes(bs[..end])..]
  {
    SumSplit(bs, begin, end);
  }

  /** Adding bucket n to the range [i, n) appends its offsets and its size. */
  lemma ExtendRange(bs: Buckets, offset: nat -> int, i: nat, n: nat)
    requires i <= n < |bs|
    ensures Flatten(bs[i..n + 1], offset) == Flatten(bs[i..n], offset) + MapOffsets(bs[n], offset)
    ensures SumSizes(bs[i..n + 1]) == SumSizes(bs[i..n]) + |bs[n]|
  {
    assert bs[i..n + 1][..n - i] == bs[i..n];
  }

  lemma PrefixExtend(bs: Buckets, n: nat)
    requires n < |bs|
    ensures SumSizes(bs[..n + 1]) == SumSizes(bs[..n]) + |bs[n]|
  {
    assert bs[..n + 1][..n] == bs[..n];
  }

  /** The loop of lines 106-109: where the range's first slot is. */
  method StartIndex(buckets: Buckets, begin: nat) returns (idx: nat)
    requires begin <= |buckets|
    ensures idx == SumSizes(buckets[..begin])
  {
    idx := 0;
    for n := 0 to begin
      invariant idx == SumSizes(buckets[..n])
    {
      PrefixExtend(buckets, n);
      idx := idx + |buckets[n]|;
    }
  }

  /** The inner loop of lines 112-114: one bucket's offsets, written from
      slot `idx` on; answers the slot after the last one written. */
  method WriteBucket(bucket: seq<nat>, offset: nat -> int, offsets: array<int>, idx: nat) returns (next: nat)
    requires idx + |bucket| <= offsets.Length
    modifies offsets
    ensures next == idx + |bucket|
    ensures offsets[..] == old(offsets[..])[..idx] + MapOffsets(bucket, offset) + old(offsets[..])[next..]
  {
    ghost var before := offsets[..];
    ghost var written := MapOffsets(bucket, offset);
    next := idx;
    for j := 0 to |bucket|
      invariant next == idx + j
      invariant offsets[..] == before[..idx] + written[..j] + before[next..]
    {
      ghost var current := offsets[..];
      offsets[next] := offset(bucket[j]);
      WriteStep(before, idx, written, j, current, offsets[..]);
      next := next + 1;
    }
    assert written[..|bucket|] == written;
  }

  /** Writing slot idx + j with the j-th offset extends the written
      prefix by one. */
  lemma WriteStep(before: seq<int>, idx: nat, written: seq<int>, j: nat, current: seq<int>, after: seq<int>)
    requires j < |written| && idx + |written| <= |before|
    requires current == before[..idx] + written[..j] + before[idx + j..]
    requires after == current[idx + j := written[j]]
    ensures after == before[..idx] + written[..j + 1] + before[idx + j + 1..]
  {
    assert written[..j + 1] == written[..j] + [written[j]];
    assert before[idx + j..][1..] == before[idx + j + 1..];
    assert |before[..idx] + written[..j]| == idx + j;
  }

  /** Splicing one more bucket's offsets after the ones already written. */
  lemma Respliced(before: seq<int>, start: nat, idx: nat, next: nat, done: seq<int>, written: seq<int>,
                  current: seq<int>, after: seq<int>)
    requires idx == start + |done| && next == idx + |written| && next <= |before|
    requires current == before[..start] + done + before[idx..]
    requires after == current[..idx] + written + current[next..]
    ensures after == before[..start] + (done + written) + before[next..]
  {
    assert current[..idx] == before[..start] + done;
    assert current[next..] == before[next..];
  }

  /** The caller: allocate one slot per point and fill it for all buckets. */
  method SortedOffsets(buckets: Buckets, offset: nat -> int) returns (offsets: array<int>)
    requires |buckets| < SIZE_LIMIT
    ensures fresh(offsets)
    ensures offsets[..] == Flatten(buckets, offset)
  {
    offsets := new int[SumSizes(buckets)];
    ghost var initial := offsets[..];
    assert buckets[..|buckets|] == buckets;
    SetOffsets(buckets, offset, offsets, MakeRange(0, |buckets|));
    ScatterFullRange(initial, buckets, offset);
  }

  /** Within the written window, point j of bucket n lands in slot
      `SumSizes(buckets[..n]) + j`: bucket order first, index order within. */
  lemma ScatterPlacesEachPoint(a: seq<int>, bs: Buckets, offset: nat -> int, begin: nat, end: nat, n: nat, j: nat)
    requires begin <= end <= |bs| && SumSizes(bs[..end]) <= |a|
    requires begin <= n < end && j < |bs[n]|
    ensures SumSizes(bs[..begin]) <= SumSizes(bs[..n]) + j < SumSizes(bs[..end])
    ensures Scatter(a, bs, offset, begin, end)[SumSizes(bs[..n]) + j] == offset(bs[n][j])
  {
    var window := bs[begin..end];
    assert window[..n - begin] == bs[begin..n];
    assert window[n - begin] == bs[n];
    SumSplit(bs, begin, n);
    SumSplit(bs, begin, end);
    FlattenAt(window, offset, n - begin, j);
  }

  /** Slots outside [SumSizes(buckets[..begin]), SumSizes(buckets[..end]))
      are left unchanged. */
  lemma ScatterKeepsOutside(a: seq<int>, bs: Buckets, offset: nat -> int, begin: nat, end: nat, k: nat)
    requires begin <= end <= |bs| && SumSizes(bs[..end]) <= |a|
    requires k < |a| && !(SumSizes(bs[..begin]) <= k < SumSizes(bs[..end]))
    ensures Scatter(a, bs, offset, begin, end)[k] == a[k]
  {
    SumSplit(bs, begin, end);
  }

  /** The window a call writes starts at the sizes of the buckets before
      it and holds exactly as many slots as its buckets hold points. */
  lemma WindowOfRange(bs: Buckets, begin: nat, end: nat)
    requires begin <= end <= |bs|
    ensures SumSizes(bs[..begin]) <= SumSizes(bs[..end])
    ensures SumSizes(bs[..end]) - SumSizes(bs[..begin]) == SumSizes(bs[begin..end])
  {
    SumSplit(bs, begin, end);
  }

  /** On the whole bucket range, an array of exactly the right size ends up
      holding every bucket's offsets, whatever it held before. */
  lemma ScatterFullRange(a: seq<int>, bs: Buckets, offset: nat -> int)
    requires |a| == SumSizes(bs)
    ensures bs[..|bs|] == bs
    ensures Scatter(a, bs, offset, 0, |bs|) == Flatten(bs, offset)
  {
    assert bs[..|bs|] == bs;
    assert bs[..0] == [];
    assert bs[0..|bs|] == bs;
  }

  /** Ranges that do not overlap write windows that do not overlap. */
  lemma DisjointRangesDisjointWindows(bs: Buckets, b1: nat, e1: nat, b2: nat, e2: nat)
    requires b1 <= e1 <= b2 <= e2 <= |bs|
    ensures SumSizes(bs[..b1]) <= SumSizes(bs[..e1]) <= SumSizes(bs[..b2]) <= SumSizes(bs[..e2])
  {
    SumSplit(bs, b1, e1);
    SumSplit(bs, e1, b2);
    SumSplit(bs, b2, e2);
  }

  /** Splitting a range in two and running the lower half first leaves the
      same array as running the whole range. */
  lemma ScatterLowerThenUpper(a: seq<int>, bs: Buckets, offset: nat -> int, begin: nat, mid: nat, end: nat)
    requires begin <= mid <= end <= |bs| && SumSizes(bs[..end]) <= |a|
    ensures SumSizes(bs[..mid]) <= |a|
    ensures Scatter(Scatter(a, bs, offset, begin, mid), bs, offset, mid, end) == Scatter(a, bs, offset, begin, end)
  {
    SumSplit(bs, mid, end);
    var r1 := Scatter(a, bs, offset, begin, mid);
    ScatterUnfolds(a, bs, offset, begin, mid);
    ScatterUnfolds(r1, bs, offset, mid, end);
    ScatterUnfolds(a, bs, offset, begin, end);
    WholeFlattenSplits(bs, offset, begin, mid, end);
    Respliced(a, SumSizes(bs[..begin]), SumSizes(bs[..mid]), SumSizes(bs[..end]),
              Flatten(bs[begin..mid], offset), Flatten(bs[mid..end], offset),
              r1, Scatter(r1, bs, offset, mid, end));
  }

  /** Splitting a range in two and running the upper half first leaves the
      same array as running the whole range. */
  lemma ScatterUpperThenLower(a: seq<int>, bs: Buckets, offset: nat -> int, begin: nat, mid: nat, end: nat)
    requires begin <= mid <= end <= |bs| && SumSizes(bs[..end]) <= |a|
    ensures SumSizes(bs[..mid]) <= |a|
    ensures Scatter(Scatter(a, bs, offset, mid, end), bs, offset, begin, mid) == Scatter(a, bs, offset, begin, end)
  {
    SumSplit(bs, begin, mid);
    SumSplit(bs, mid, end);
    var r1 := Scatter(a, bs, offset, mid, end);
    ScatterUnfolds(a, bs, offset, mid, end);
    ScatterUnfolds(r1, bs, offset, begin, mid);
    ScatterUnfolds(a, bs, offset, begin, end);
    WholeFlattenSplits(bs, offset, begin, mid, end);
    SplicedBelow(a, SumSizes(bs[..begin]), SumSizes(bs[..mid]), SumSizes(bs[..end]),
                 Flatten(bs[begin..mid], offset), Flatten(bs[mid..end], offset),
                 r1, Scatter(r1, bs, offset, begin, mid));
  }

  /** Filling a window below an already filled one joins the two. */
  lemma SplicedBelow(a: seq<int>, p: nat, m: nat, e: nat, lower: seq<int>, upper: seq<int>,
                     current: seq<int>, after: seq<int>)
    requires m == p + |lower| && e == m + |upper| && e <= |a|
    requires current == a[..m] + upper + a[e..]
    requires after == current[..p] + lower + current[m..]
    ensures after == a[..p] + (lower + upper) + a[e..]
  {
    assert current[..p] == a[..p];
    assert current[m..] == upper + a[e..];
  }

  lemma WholeFlattenSplits(bs: Buckets, offset: nat -> int, begin: nat, mid: nat, end: nat)
    requires begin <= mid <= end <= |bs|
    ensures Flatten(bs[begin..end], offset) == Flatten(bs[begin..mid], offset) + Flatten(bs[mid..end], offset)
  {
    assert bs[begin..end] == bs[begin..mid] + bs[mid..end];
    FlattenConcat(bs[begin..mid], bs[mid..end], offset);
  }
}
