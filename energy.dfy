/**
  The energy detector: the mean absolute deviation of the analyser's
  time-domain bytes from the midpoint 128 (what the analyser reports for
  silence). A frame is quiet when that mean is below 2.
 */
module Energy {

  /** One unsigned 8-bit sample, as the analyser's `Uint8Array` holds it. */
  type Byte = b: int | 0 <= b < 256

  const Midpoint: int := 128

  /** The mean deviation below which a frame counts as silence. */
  const SilenceThreshold: int := 2

  /** `Math.abs(b - 128)`. */
  function Deviation(b: Byte): (d: nat)
    ensures d <= 128
    ensures d == 0 <==> b == Midpoint
  {
    if b >= Midpoint then b - Midpoint else Midpoint - b
  }

  /** The `reduce`: the running sum of deviations, from the first sample to the last. */
  function DeviationSum(buf: seq<Byte>): (sum: nat)
    ensures sum <= 128 * |buf|
  {
    if buf == [] then 0
    else DeviationSum(buf[..|buf| - 1]) + Deviation(buf[|buf| - 1])
  }

  /** The mean deviation (`reduce(...) / data.length`); JavaScript gives NaN on an empty buffer. */
  function Average(buf: seq<Byte>): real
    requires |buf| > 0
  {
    DeviationSum(buf) as real / |buf| as real
  }

  /**
    `avg < 2`, in integers: the sum is below twice the length. On an empty
    buffer this is false, as `NaN < 2` is.
   */
  predicate IsQuiet(buf: seq<Byte>) {
    DeviationSum(buf) < SilenceThreshold * |buf|
  }

  /** Comparing a quotient by a positive divisor is comparing the dividend with the scaled bound. */
  lemma DivCompare(s: real, n: real, c: real)
    requires n > 0.0
    ensures s / n < c <==> s < c * n
    ensures s / n <= c <==> s <= c * n
  {
    var q := s / n;
    assert q * n == s;
    assert c * n - s == (c - q) * n;
    if q < c {
      assert (c - q) * n > 0.0 by { PositiveProduct(c - q, n); }
    } else if q > c {
      assert (q - c) * n > 0.0 by { PositiveProduct(q - c, n); }
    }
  }

  lemma PositiveProduct(x: real, y: real)
    requires x > 0.0 && y > 0.0
    ensures x * y > 0.0
  {
  }

  /** The mean lies between 0 and 128. */
  lemma AverageBounds(buf: seq<Byte>)
    requires |buf| > 0
    ensures 0.0 <= Average(buf) <= 128.0
  {
    var n := |buf| as real;
    var s := DeviationSum(buf) as real;
    assert s <= 128.0 * n;
    assert s >= 0.0;
    DivCompare(s, n, 128.0);
    DivCompare(s, n, 0.0);
  }

  /** The integer test agrees with JavaScript's `avg < 2`. */
  lemma IsQuietMeansAverageBelowTwo(buf: seq<Byte>)
    requires |buf| > 0
    ensures IsQuiet(buf) <==> Average(buf) < 2.0
  {
    DivCompare(DeviationSum(buf) as real, |buf| as real, 2.0);
  }

  /** A buffer of pure midpoint samples has no energy. */
  lemma {:induction false} MidpointBufferIsSilent(buf: seq<Byte>)
    requires forall i :: 0 <= i < |buf| ==> buf[i] == Midpoint
    ensures DeviationSum(buf) == 0
    ensures |buf| > 0 ==> Average(buf) == 0.0 && IsQuiet(buf)
  {
    if buf != [] {
      MidpointBufferIsSilent(buf[..|buf| - 1]);
    }
  }

  /** The empty buffer is loud, as JavaScript's `avg < 2` is false when `avg` is NaN. */
  lemma EmptyBufferIsLoud()
    ensures !IsQuiet([])
  {
  }

}
