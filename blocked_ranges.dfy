// The ranges `openvdb/Types.h` defines when TBB is absent: a half-open
// interval [begin, end) with a grain size, and its 2-D and 3-D products.
// Modelled for the instantiation the sort node uses, `BlockedRange<size_t>`,
// whose `size()` is an unsigned 64-bit difference.
module BlockedRanges {

  const SIZE_LIMIT: int := 0x1_0000_0000_0000_0000

  type SizeT = x: int | 0 <= x < 0x1_0000_0000_0000_0000

  datatype BlockedRange = BlockedRange(begin: SizeT, end: SizeT, grainsize: SizeT)
  {
    /** `size()`: `end - begin` computed in size_t, so it wraps when end < begin. */
    function Size(): SizeT
    {
      (end - begin) % SIZE_LIMIT
    }

    /** `empty()`: not `begin < end`. */
    predicate Empty()
    {
      !(begin < end)
    }

    /** `is_divisible()`: more indices than the grain size. */
    predicate IsDivisible()
    {
      grainsize < Size()
    }

    /** The indices the range stands for. */
    ghost function Indices(): set<int>
    {
      Interval(begin, end)
    }
  }

  /** `BlockedRange()`: every member value-initialised. */
  function DefaultRange(): BlockedRange
  {
    BlockedRange(0, 0, 0)
  }

  /** `BlockedRange(begin, end)`: the grain size defaults to 1. */
  function MakeRange(begin: SizeT, end: SizeT): BlockedRange
  {
    BlockedRange(begin, end, 1)
  }

  /** The default range is empty and indivisible. */
  lemma DefaultRangeIsEmpty()
    ensures DefaultRange().Empty() && !DefaultRange().IsDivisible() && DefaultRange().Size() == 0
  {
  }

  /** `size()` is `end - begin` when begin <= end, and wraps to a huge
      value when end < begin. */
  lemma SizeIsDifference(r: BlockedRange)
    ensures r.begin <= r.end ==> r.Size() == r.end - r.begin
    ensures r.end < r.begin ==> r.Size() == SIZE_LIMIT - (r.begin - r.end)
  {
  }

  /** A range is empty exactly when it holds no index. */
  lemma EmptyIffNoIndex(r: BlockedRange)
    ensures r.Empty() <==> r.Indices() == {}
    ensures forall i :: i in r.Indices() <==> r.begin <= i < r.end
  {
    forall i ensures i in r.Indices() <==> r.begin <= i < r.end {
      InInterval(r.begin, r.end, i);
    }
    if !r.Empty() {
      assert r.begin in r.Indices();
    }
  }

  /** The integers in [lo, hi), built up from the top. */
  ghost function Interval(lo: int, hi: int): set<int>
    decreases hi - lo
  {
    if hi <= lo then {} else Interval(lo, hi - 1) + {hi - 1}
  }

  lemma {:induction false} InInterval(lo: int, hi: int, i: int)
    ensures i in Interval(lo, hi) <==> lo <= i < hi
    decreases hi - lo
  {
    if lo < hi {
      InInterval(lo, hi - 1, i);
    }
  }

  lemma {:induction false} IntervalCardinality(lo: int, hi: int)
    requires lo <= hi
    ensures |Interval(lo, hi)| == hi - lo
    decreases hi - lo
  {
    if lo < hi {
      IntervalCardinality(lo, hi - 1);
      InInterval(lo, hi - 1, hi - 1);
    }
  }

  /** For an ordered range, `size()` counts its indices. */
  lemma SizeCountsIndices(r: BlockedRange)
    requires r.begin <= r.end
    ensures |r.Indices()| == r.Size()
  {
    IntervalCardinality(r.begin, r.end);
  }

  /** An ordered range that is divisible is not empty. A reversed range is
      empty yet, with any grain size below its wrapped size, divisible. */
  lemma DivisibleOrderedRangeIsNotEmpty(r: BlockedRange)
    ensures r.begin <= r.end && r.IsDivisible() ==> !r.Empty()
    ensures r.end < r.begin ==> r.Empty() && r.Size() > 0
  {
  }

  /** With the default grain size, an ordered range is divisible exactly
      when it holds at least two indices. */
  lemma DefaultGrainDivisibleIff(begin: SizeT, end: SizeT)
    requires begin <= end
    ensures MakeRange(begin, end).IsDivisible() <==> |MakeRange(begin, end).Indices()| >= 2
  {
    SizeCountsIndices(MakeRange(begin, end));
  }

  /** `BlockedRange2D`: rows × cols. */
  datatype BlockedRange2D = BlockedRange2D(rows: BlockedRange, cols: BlockedRange)
  {
    predicate Empty()
    {
      rows.Empty() || cols.Empty()
    }

    predicate IsDivisible()
    {
      rows.IsDivisible() || cols.IsDivisible()
    }

    ghost function Cells(): set<(int, int)>
    {
      set i, j | rows.begin <= i < rows.end && cols.begin <= j < cols.end :: (i, j)
    }
  }

  /** The two-argument-pair constructor: both grain sizes default to 1. */
  function MakeRange2D(rowBegin: SizeT, rowEnd: SizeT, colBegin: SizeT, colEnd: SizeT): BlockedRange2D
  {
    BlockedRange2D(MakeRange(rowBegin, rowEnd), MakeRange(colBegin, colEnd))
  }

  /** A 2-D range is empty exactly when it holds no (row, col) cell. */
  lemma Empty2DIffNoCell(r: BlockedRange2D)
    ensures r.Empty() <==> r.Cells() == {}
  {
    if !r.Empty() {
      assert (r.rows.begin, r.cols.begin) in r.Cells();
    }
  }

  /** A 2-D range is divisible exactly when one of its sides is; with the
      default grain sizes and ordered sides, when one side holds two indices. */
  lemma Divisible2DIff(rowBegin: SizeT, rowEnd: SizeT, colBegin: SizeT, colEnd: SizeT)
    requires rowBegin <= rowEnd && colBegin <= colEnd
    ensures MakeRange2D(rowBegin, rowEnd, colBegin, colEnd).IsDivisible()
      <==> (|MakeRange(rowBegin, rowEnd).Indices()| >= 2 || |MakeRange(colBegin, colEnd).Indices()| >= 2)
  {
    DefaultGrainDivisibleIff(rowBegin, rowEnd);
    DefaultGrainDivisibleIff(colBegin, colEnd);
  }

  /** `BlockedRange3D`: pages × rows × cols. */
  datatype BlockedRange3D = BlockedRange3D(pages: BlockedRange, rows: BlockedRange, cols: BlockedRange)
  {
    predicate Empty()
    {
      pages.Empty() || rows.Empty() || cols.Empty()
    }

    predicate IsDivisible()
    {
      pages.IsDivisible() || rows.IsDivisible() || cols.IsDivisible()
    }

    ghost function Cells(): set<(int, int, int)>
    {
      set p, i, j | pages.begin <= p < pages.end && rows.begin <= i < rows.end && cols.begin <= j < cols.end
        :: (p, i, j)
    }
  }

  function MakeRange3D(pageBegin: SizeT, pageEnd: SizeT, rowBegin: SizeT, rowEnd: SizeT,
                       colBegin: SizeT, colEnd: SizeT): BlockedRange3D
  {
    BlockedRange3D(MakeRange(pageBegin, pageEnd), MakeRange(rowBegin, rowEnd), MakeRange(colBegin, colEnd))
  }

  /** A 3-D range is empty exactly when it holds no (page, row, col) cell. */
  lemma Empty3DIffNoCell(r: BlockedRange3D)
    ensures r.Empty() <==> r.Cells() == {}
  {
    if !r.Empty() {
      assert (r.pages.begin, r.rows.begin, r.cols.begin) in r.Cells();
    }
  }

  /** A 3-D range is divisible exactly when one of its sides is; with the
      default grain sizes and ordered sides, when one side holds two indices. */
  lemma Divisible3DIff(pageBegin: SizeT, pageEnd: SizeT, rowBegin: SizeT, rowEnd: SizeT,
                       colBegin: SizeT, colEnd: SizeT)
    requires pageBegin <= pageEnd && rowBegin <= rowEnd && colBegin <= colEnd
    ensures MakeRange3D(pageBegin, pageEnd, rowBegin, rowEnd, colBegin, colEnd).IsDivisible()
      <==> (|MakeRange(pageBegin, pageEnd).Indices()| >= 2
            || |MakeRange(rowBegin, rowEnd).Indices()| >= 2
            || |MakeRange(colBegin, colEnd).Indices()| >= 2)
  {
    DefaultGrainDivisibleIff(pageBegin, pageEnd);
    DefaultGrainDivisibleIff(rowBegin, rowEnd);
    DefaultGrainDivisibleIff(colBegin, colEnd);
  }
}
