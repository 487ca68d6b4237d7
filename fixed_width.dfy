// Fixed-width integer arithmetic of the queue's counters: `Index32` is
// `uint32_t` (task and notifier ids, capacity, timeout) and the active-task
// counter is a `std::atomic<Int32>`. Both wrap around; Dafny's integers do
// not, so the wrap is written out here.
module FixedWidth {

  const INDEX32_LIMIT: int := 0x1_0000_0000
  const INT32_MIN: int := -0x8000_0000
  const INT32_MAX: int := 0x7fff_ffff

  type Index32 = x: int | 0 <= x < 0x1_0000_0000
  type Int32 = x: int | -0x8000_0000 <= x <= 0x7fff_ffff

  /** `id++` on an unsigned 32-bit counter: one more, or 0 after the largest value. */
  function NextIndex32(x: Index32): (y: Index32)
    ensures y == (x + 1) % INDEX32_LIMIT
  {
    if x == INDEX32_LIMIT - 1 then 0 else x + 1
  }

  /** `++n` on an atomic 32-bit signed counter (two's complement wrap). */
  function Inc32(x: Int32): (y: Int32)
    ensures (y - (x + 1)) % INDEX32_LIMIT == 0
  {
    if x == INT32_MAX then INT32_MIN else x + 1
  }

  /** `--n` on an atomic 32-bit signed counter (two's complement wrap). */
  function Dec32(x: Int32): (y: Int32)
    ensures (y - (x - 1)) % INDEX32_LIMIT == 0
  {
    if x == INT32_MIN then INT32_MAX else x - 1
  }

  /** A decrement followed by an increment leaves the counter where it was,
      including at the wrap-around point. */
  lemma IncUndoesDec(x: Int32)
    ensures Inc32(Dec32(x)) == x
    ensures Dec32(x) != x
  {
  }

  /** The ids that `k` successive draws from an id counter starting at `start` hand out. */
  function IssuedIds(start: Index32, k: nat): (ids: seq<Index32>)
    ensures |ids| == k
    decreases k
  {
    if k == 0 then [] else [start] + IssuedIds(NextIndex32(start), k - 1)
  }

  /** The i-th id drawn is `start + i` reduced modulo 2^32. */
  lemma {:induction false} IssuedIdAt(start: Index32, k: nat, i: nat)
    requires i < k
    ensures IssuedIds(start, k)[i] == (start + i) % INDEX32_LIMIT
    decreases i
  {
    if i > 0 {
      IssuedIdAt(NextIndex32(start), k - 1, i - 1);
    }
  }

  /** As long as the counter does not pass 2^32 - 1, the ids handed out are
      strictly increasing (hence pairwise distinct). */
  lemma IssuedIdsIncrease(start: Index32, k: nat)
    requires start + k <= INDEX32_LIMIT
    ensures forall i, j :: 0 <= i < j < k ==> IssuedIds(start, k)[i] < IssuedIds(start, k)[j]
  {
    forall i, j | 0 <= i < j < k
      ensures IssuedIds(start, k)[i] < IssuedIds(start, k)[j]
    {
      IssuedIdAt(start, k, i);
      IssuedIdAt(start, k, j);
    }
  }

  /** Ids repeat with period 2^32: they are unique only within a window of
      2^32 submissions. */
  lemma IssuedIdsRepeat(start: Index32, k: nat, i: nat)
    requires i + INDEX32_LIMIT < k
    ensures IssuedIds(start, k)[i + INDEX32_LIMIT] == IssuedIds(start, k)[i]
  {
    IssuedIdAt(start, k, i);
    IssuedIdAt(start, k, i + INDEX32_LIMIT);
    var n := start + i;
    assert (n + INDEX32_LIMIT) % INDEX32_LIMIT == n % INDEX32_LIMIT;
  }
}
