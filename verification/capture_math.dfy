/**
 The arithmetic the fallback producer derives from a capture configuration:
 staging-buffer size, row stride and the inter-frame interval in microseconds.
 */
module CaptureMath {
  import opened CaptureTypes

  /** Every pixel of the staging buffer takes four bytes (32-bit BGRA). */
  const BytesPerPixel: int := 4
  /** The interval used whenever the configured rate cannot give a positive one (about 60 Hz). */
  const DefaultIntervalMicros: int := 16667
  const MicrosPerSecond: int := 1_000_000
  /** The widest row whose stride still fits a signed 32-bit integer. */
  const MaxStrideWidth: int := 0x1FFF_FFFF

  /**
   Size in bytes of the staging buffer: one 4-byte pixel per cell of a
   width-by-height image, and nothing when either dimension is not positive.
   The product is taken in size_t; it never wraps, since both factors fit int32.
   */
  function BufferSize(c: Config): (r: nat)
    ensures r == 0 <==> c.width <= 0 || c.height <= 0
    ensures r > 0 ==> r / BytesPerPixel == c.width * c.height && r % BytesPerPixel == 0
    ensures r < UInt64Modulus
  {
    if c.width <= 0 || c.height <= 0 then 0
    else
      assert c.width * c.height <= Int32Max * Int32Max by {
        MulMonotone(c.width, c.height, Int32Max, Int32Max);
      }
      c.width * c.height * BytesPerPixel
  }

  /** Row stride in bytes; it depends on the width alone. */
  function Stride(c: Config): (r: int)
    ensures r == 0 <==> c.width <= 0
    ensures r > 0 ==> r == c.width * BytesPerPixel
    ensures r >= 0
  {
    if c.width <= 0 then 0 else c.width * BytesPerPixel
  }

  /**
   Microseconds between synthetic frames. The period is denominator/numerator
   seconds, truncated toward zero; a non-positive rate component, or a period
   shorter than one microsecond, falls back to the default.
   */
  function FrameInterval(c: Config): (r: int)
    ensures r > 0
    ensures Int64Min <= r <= Int64Max
    ensures c.frameRateNumerator <= 0 || c.frameRateDenominator <= 0 ==> r == DefaultIntervalMicros
    ensures c.frameRateNumerator > 0 && c.frameRateDenominator > 0 ==>
              var period := c.frameRateDenominator * MicrosPerSecond;
              if period < c.frameRateNumerator then r == DefaultIntervalMicros
              else r * c.frameRateNumerator <= period < (r + 1) * c.frameRateNumerator
  {
    if c.frameRateNumerator <= 0 || c.frameRateDenominator <= 0 then DefaultIntervalMicros
    else
      var period := c.frameRateDenominator * MicrosPerSecond;
      assert period <= Int32Max * MicrosPerSecond by {
        MulMonotone(c.frameRateDenominator, MicrosPerSecond, Int32Max, MicrosPerSecond);
      }
      var micros := TruncatingQuotient(period, c.frameRateNumerator);
      assert micros == 0 <==> period < c.frameRateNumerator by {
        if micros > 0 { MulMonotone(1, c.frameRateNumerator, micros, c.frameRateNumerator); }
      }
      if micros <= 0 then DefaultIntervalMicros else micros
  }

  /**
   Division of a non-negative dividend by a positive divisor, rounding toward
   zero as the int64_t conversion does; the result is the largest q with q*d <= n.
   */
  function TruncatingQuotient(n: nat, d: int): (q: nat)
    requires d > 0
    ensures q * d <= n < (q + 1) * d
    ensures q <= n
  {
    var q := n / d;
    assert n == q * d + n % d;
    assert q <= n by {
      if q > n { MulMonotone(n + 1, 1, q, d); }
    }
    q
  }

  /**
   The absolute deadline the loop sleeps until after a frame: that frame's
   monotonic time plus the interval. It stands alone: the state machine does not
   model sleeping, and ProduceFrame accepts any timestamps, so nothing ties
   successive frames to this deadline.
   */
  function NextFireTime(c: Config, monotonic: int): (r: int)
    ensures r > monotonic
    ensures r - monotonic == FrameInterval(c)
  {
    monotonic + FrameInterval(c)
  }

  lemma MulMonotone(a: nat, b: nat, x: nat, y: nat)
    requires a <= x && b <= y
    ensures a * b <= x * y
  {
    assert a * b <= x * b;
    assert x * b <= x * y;
  }

  /**
   The staging buffer holds exactly height rows of stride bytes when both
   dimensions are positive; with a positive width and a non-positive height the
   stride is still non-zero while the buffer is empty.
   */
  lemma BufferHoldsStrideRows(c: Config)
    ensures c.height > 0 ==> BufferSize(c) == Stride(c) * c.height
    ensures c.height <= 0 ==> BufferSize(c) == 0
    ensures c.width > 0 && c.height <= 0 ==> Stride(c) > 0 && BufferSize(c) == 0
  {
  }

  /** The stride fits the frame's int32_t field exactly when the width is at most 0x1FFFFFFF. */
  lemma StrideFitsInt32(c: Config)
    ensures Int32Min <= Stride(c) <= Int32Max <==> c.width <= MaxStrideWidth
  {
  }

  /** A rate of 30/1 gives 33333 microseconds, and a zero numerator gives the default. */
  lemma IntervalExamples(c: Config)
    ensures c.frameRateNumerator == 30 && c.frameRateDenominator == 1 ==> FrameInterval(c) == 33333
    ensures c.frameRateNumerator == 0 ==> FrameInterval(c) == DefaultIntervalMicros
  {
  }

  /** The interval is the unique positive q with q*num <= den*10^6 < (q+1)*num, whenever such q exists. */
  lemma IntervalIsQuotient(c: Config, q: int)
    requires c.frameRateNumerator > 0 && c.frameRateDenominator > 0
    requires q > 0
    requires q * c.frameRateNumerator <= c.frameRateDenominator * MicrosPerSecond
    requires c.frameRateDenominator * MicrosPerSecond < (q + 1) * c.frameRateNumerator
    ensures FrameInterval(c) == q
  {
    var n := c.frameRateNumerator;
    var r := FrameInterval(c);
    var period := c.frameRateDenominator * MicrosPerSecond;
    assert period >= n by { MulMonotone(1, n, q, n); }
    assert r * n <= period < (r + 1) * n;
    if r < q {
      MulMonotone(r + 1, n, q, n);
    } else if r > q {
      MulMonotone(q + 1, n, r, n);
    }
  }
}
