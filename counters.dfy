/**
 * Fixed-width counters updated with Go's atomic.AddInt32 and atomic.AddUint64.
 * Both add in two's complement (or unsigned) arithmetic, so adding one to the
 * largest value wraps around to the smallest one.
 */
module Counters {

  const MinInt32: int := -0x8000_0000
  const MaxInt32: int := 0x7fff_ffff
  const MaxUint64: int := 0xffff_ffff_ffff_ffff

  predicate IsInt32(x: int) { MinInt32 <= x <= MaxInt32 }

  predicate IsUint64(x: int) { 0 <= x <= MaxUint64 }

  /** Adds one to a counter whose values range over lo..hi, as fixed-width hardware does. */
  function WrapInc(x: int, lo: int, hi: int): (r: int)
    requires lo <= x <= hi
    ensures lo <= r <= hi
    // r is congruent to x + 1 modulo the width of the range
    ensures (r - x - 1) % (hi - lo + 1) == 0
  {
    if x == hi then lo else x + 1
  }

  /** atomic.AddInt32(&c, 1): the new value of an int32 counter. */
  function Int32Inc(x: int): (r: int)
    requires IsInt32(x)
    ensures IsInt32(r)
    ensures x < MaxInt32 ==> r == x + 1
    ensures x == MaxInt32 ==> r == MinInt32
  {
    WrapInc(x, MinInt32, MaxInt32)
  }

  /** atomic.AddUint64(&c, 1): the new value of a uint64 counter. */
  function Uint64Inc(x: int): (r: int)
    requires IsUint64(x)
    ensures IsUint64(r)
    ensures x < MaxUint64 ==> r == x + 1
    ensures x == MaxUint64 ==> r == 0
  {
    WrapInc(x, 0, MaxUint64)
  }

  /** The k values a counter of range lo..hi hands out, in order, when incremented k times from x. */
  function Issued(x: int, lo: int, hi: int, k: nat): (r: seq<int>)
    requires lo <= x <= hi
    ensures |r| == k
    ensures forall i :: 0 <= i < k ==> lo <= r[i] <= hi
    decreases k
  {
    if k == 0 then [] else [WrapInc(x, lo, hi)] + Issued(WrapInc(x, lo, hi), lo, hi, k - 1)
  }

  /** Without overflow the i-th value handed out is x + 1 + i. */
  lemma {:induction false} IssuedAt(x: int, lo: int, hi: int, k: nat)
    requires lo <= x && x + k <= hi
    ensures forall i :: 0 <= i < k ==> Issued(x, lo, hi, k)[i] == x + 1 + i
    decreases k
  {
    if k > 0 {
      IssuedAt(x + 1, lo, hi, k - 1);
    }
  }

  /**
   * As long as the counter does not reach its maximum, the values it hands out
   * are strictly increasing, hence pairwise distinct, and all above the start.
   */
  lemma IssuedStrictlyIncreasing(x: int, lo: int, hi: int, k: nat)
    requires lo <= x && x + k <= hi
    ensures forall i, j :: 0 <= i < j < k ==> x < Issued(x, lo, hi, k)[i] < Issued(x, lo, hi, k)[j]
  {
    IssuedAt(x, lo, hi, k);
  }

  /** Once the counter sits at its maximum, the next value handed out is the smallest one. */
  lemma IssuedWraps(x: int, lo: int, hi: int, k: nat)
    requires lo < hi && x == hi && k > 0
    ensures Issued(x, lo, hi, k)[0] == lo < x
  {
  }
}
